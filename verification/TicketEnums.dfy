/** The ticket lifecycle of apps/api/app/models/ticket_enums.py. */
module TicketEnums {
  import opened Wrappers

  datatype Status = New | Open | InProgress | WaitingCustomer | WaitingInternal | Resolved | Closed
  datatype Priority = Low | Medium | High | Urgent

  function AllowedTargets(current: Status): set<Status> {
    match current
    case New => {Open, InProgress, Closed}
    case Open => {InProgress, WaitingCustomer, WaitingInternal, Resolved, Closed}
    case InProgress => {Open, WaitingCustomer, WaitingInternal, Resolved, Closed}
    case WaitingCustomer => {InProgress, Open, Resolved, Closed}
    case WaitingInternal => {InProgress, Open, Resolved, Closed}
    case Resolved => {Open, Closed}
    case Closed => {Open}
  }

  predicate IsTransitionAllowed(current: Status, target: Status) {
    if current == target then false else target in AllowedTargets(current)
  }

  predicate Terminal(s: Status) { s == Resolved || s == Closed }

  // The edges by their rules: nothing returns to New, only a ticket being worked on can be made to wait, a new
  // ticket is not resolved, a resolved one is reopened or closed, and a closed one reopened.
  predicate Edge(a: Status, b: Status) {
    && a != b && b != New
    && (b == WaitingCustomer || b == WaitingInternal ==> a == Open || a == InProgress)
    && (a == New ==> b != Resolved)
    && (a == Resolved ==> b == Open || b == Closed)
    && (a == Closed ==> b == Open)
  }

  lemma EdgesFollowRules(a: Status, b: Status)
    ensures IsTransitionAllowed(a, b) <==> Edge(a, b)
  {
  }

  // A recorded move of a ticket, and the check that a log of moves is a walk of the state machine.
  datatype Move = Move(from: Status, to: Status)

  /** Replays a log of moves from New; None as soon as a move does not start where the ticket
      stands, or is not an edge of the state machine. */
  function Replay(moves: seq<Move>): Option<Status> {
    if moves == [] then Some(New)
    else
      var last := moves[|moves| - 1];
      match Replay(moves[..|moves| - 1])
      case None => None
      case Some(s) => if s == last.from && IsTransitionAllowed(s, last.to) then Some(last.to) else None
  }

  // Move i of a log is an allowed edge that starts where move i - 1 ended (the first one at New).
  predicate ChainedAt(moves: seq<Move>, i: nat)
    requires i < |moves|
  {
    && IsTransitionAllowed(moves[i].from, moves[i].to)
    && moves[i].from == (if i == 0 then New else moves[i - 1].to)
  }

  /** What a successful replay means, move by move: consecutive moves chain, every one is an allowed
      edge, none re-enters New, and the last one ends at the replayed status. */
  lemma {:induction false} ReplayMeaning(moves: seq<Move>)
    ensures Replay(moves).Some? <==> forall i :: 0 <= i < |moves| ==> ChainedAt(moves, i)
    ensures Replay(moves).Some? ==> forall i :: 0 <= i < |moves| ==> moves[i].to != New
    ensures Replay(moves).Some? ==>
              Replay(moves).value == if moves == [] then New else moves[|moves| - 1].to
  {
    if moves != [] {
      var n := |moves| - 1;
      var front := moves[..n];
      ReplayMeaning(front);
      assert forall i :: 0 <= i < n ==> (ChainedAt(front, i) <==> ChainedAt(moves, i));
      if forall i :: 0 <= i < |moves| ==> ChainedAt(moves, i) {
        assert ChainedAt(moves, n);
      }
    }
  }
}
