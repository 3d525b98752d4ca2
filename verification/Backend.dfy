/** The services over one database: runs of History are what they do, call after call. */
module Backend {
  import opened Wrappers
  import opened Store
  import opened SlaClock
  import opened History
  import Lifecycle
  import Tickets
  import Portal
  import Operations

  class Backend {
    const db: Database
    const tickets: Tickets.TicketService
    const communication: Tickets.CommunicationService
    const portal: Portal.PortalService
    const operations: Operations.OperationsService

    predicate Wired()
    {
      tickets.db == communication.db == portal.db == operations.db == db
    }

    constructor ()
      ensures Wired() && fresh(db) && db.rows == db.committed == EMPTY
    {
      var d := new Database();
      db := d;
      tickets := new Tickets.TicketService(d);
      communication := new Tickets.CommunicationService(d);
      portal := new Portal.PortalService(d);
      operations := new Operations.OperationsService(d);
    }

    // Members, clients and accounts are entered by parts of the program that are not modelled.
    method Enter(s: Step)
      requires s.AddMember? || s.AddClient? || s.AddAccount?
      requires db.rows == db.committed
      modifies db
      ensures db.rows == db.committed == Apply(old(db.rows), s)
    {
      var r := DeskEffect(db.rows.desk, s);
      if r.Success? {
        db.rows := db.rows.(desk := r.value);
        db.Commit();
      }
    }

    method InPortal(p: Portal.Step)
      requires Wired() && db.rows == db.committed && Portal.Bijective(db.rows.desk.links)
      modifies db
      ensures db.rows == db.committed == Apply(old(db.rows), Step.InPortal(p))
    {
      hide Portal.AfterLink, Portal.AfterPortalTicket, Portal.AfterPortalMessage;
      match p {
        case LinkUser(ws, client, email, link, at) =>
          var _ := portal.LinkClientUser(ws, client, email, link, at);
        case NewTicket(user, link, t, priority, at) =>
          var _ := portal.CreateTicket(user, link, t, priority, at);
        case NewMessage(user, link, t, thread, m, body, at) =>
          var _ := portal.AddMessage(user, link, t, thread, m, body, at);
      }
    }

    method OnTicket(s: Step)
      requires Wired() && db.rows == db.committed
      requires History.OnTicket(s) || s.NewConversation? || s.NewMessage?
      modifies db
      ensures db.rows == db.committed == Apply(old(db.rows), s)
    {
      hide Tickets.AfterCreate, Tickets.AfterUpdate, Tickets.AfterTransition, Tickets.AfterAssign;
      hide Tickets.AfterConversation, Tickets.AfterMessage;
      match s {
        case NewTicket(ws, actor, client, t, priority, at) =>
          var _ := tickets.Create(ws, actor, client, t, priority, at);
        case Edit(ws, t, change, at) =>
          var _ := tickets.Update(ws, t, change, at);
        case Move(ws, t, target, at) =>
          var _ := tickets.TransitionStatus(ws, t, target, at);
        case AssignTo(ws, actor, t, assignee, at) =>
          var _ := tickets.Assign(ws, actor, t, assignee, at);
        case NewConversation(ws, t, id, channel, at) =>
          var _ := communication.CreateConversation(ws, t, id, channel, at);
        case NewMessage(ws, t, conversation, m, actor, direction, body, at) =>
          var _ := communication.CreateMessage(ws, t, conversation, m, actor, direction, body, at);
      }
    }

    method OnClock(s: Step)
      requires Wired() && db.rows == db.committed
      requires s.SetPolicy? || IsTick(s)
      modifies db
      ensures db.rows == db.committed == Apply(old(db.rows), s)
    {
      hide Evaluate, ReadSla, AfterPolicy;
      match s {
        case SetPolicy(key, first, resolution, warning, at) =>
          var _ := operations.UpsertPolicy(key, first, resolution, warning, at);
        case ReadClock(ws, t, _) =>
          var _ := operations.GetTicketSla(ws, t);
        case Tick(ws, at) =>
          var _ := operations.EvaluateSla(ws, at, None);
      }
    }

    method Perform(s: Step)
      requires Wired() && db.rows == db.committed && Portal.Sound(db.rows.desk)
      modifies db
      ensures db.rows == db.committed == Apply(old(db.rows), s) && Portal.Sound(db.rows.desk)
    {
      hide Apply, ApplyDesk, Portal.Bijective, Portal.DistinctConversations;
      DeskOfApply(db.rows, s);
      Lifecycle.StepKeepsSound(db.rows.desk, s);
      if s.InPortal? {
        InPortal(s.step);
      } else if s.SetPolicy? || IsTick(s) {
        OnClock(s);
      } else if s.AddMember? || s.AddClient? || s.AddAccount? {
        Enter(s);
      } else {
        OnTicket(s);
      }
    }

    /** Every run is what the services make of its calls, one after another, from an empty database. */
    method PerformAll(steps: seq<Step>)
      requires Wired() && db.rows == db.committed == EMPTY
      modifies db
      ensures db.rows == db.committed == Run(steps)
    {
      hide Apply;
      assert steps[..0] == [];
      for i := 0 to |steps|
        invariant db.rows == db.committed == Run(steps[..i]) && Portal.Sound(db.rows.desk)
      {
        Perform(steps[i]);
        assert steps[..i + 1][..i] == steps[..i];
      }
      assert steps[..|steps|] == steps;
    }
  }
}
