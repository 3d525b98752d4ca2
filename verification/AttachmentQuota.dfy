/** Attachment uploads of apps/api/app/services/communication_service.py: what one upload does on its own,
    and the same uploads as database transactions that interleave statement by statement, seeing each
    other's committed rows and waiting for each other only on the locked workspace row. */
module AttachmentQuota {
  import opened Wrappers
  import opened Store

  datatype Parent = MessageParent(id: MessageId) | NoteParent(id: nat)

  // safeName is what _safe_filename makes of the name, or nothing where it raises.
  datatype Upload = Upload(workspace: WorkspaceId, parent: Parent, safeName: Option<string>, contentType: string,
                           size: nat)

  // The exceptions, told apart by their messages.
  datatype Error = NoParent | BadFilename | EmptyFile | FileTooLarge | NoWorkspace | OverQuota

  datatype Attachment = Attachment(workspace: WorkspaceId, message: Option<MessageId>, note: Option<nat>,
                                   filename: string, contentType: string, size: nat)

  datatype Config = Config(maxBytes: int, quotaBytes: int, workspaces: set<WorkspaceId>,
                           parents: set<(WorkspaceId, Parent)>)

  function Usage(rows: seq<Attachment>, ws: WorkspaceId): nat {
    if rows == [] then 0
    else Usage(rows[..|rows| - 1], ws) + if rows[|rows| - 1].workspace == ws then rows[|rows| - 1].size else 0
  }

  // The checks that come before the workspace row is locked.
  function Screen(cfg: Config, u: Upload): Outcome<Error> {
    if (u.workspace, u.parent) !in cfg.parents then Fail(NoParent)
    else if u.safeName.None? then Fail(BadFilename)
    else if u.size == 0 then Fail(EmptyFile)
    else if u.size > cfg.maxBytes then Fail(FileTooLarge)
    else Pass
  }

  function Typed(contentType: string): string {
    if contentType == "" then "application/octet-stream" else contentType
  }

  function Row(u: Upload): Attachment
    requires u.safeName.Some?
  {
    match u.parent
    case MessageParent(id) => Attachment(u.workspace, Some(id), None, u.safeName.value, Typed(u.contentType), u.size)
    case NoteParent(id) => Attachment(u.workspace, None, Some(id), u.safeName.value, Typed(u.contentType), u.size)
  }

  // One upload with the table to itself.
  function Admit(cfg: Config, rows: seq<Attachment>, u: Upload): Result<seq<Attachment>, Error> {
    match Screen(cfg, u)
    case Fail(e) => Failure(e)
    case Pass =>
      if u.workspace !in cfg.workspaces then Failure(NoWorkspace)
      else if Usage(rows, u.workspace) + u.size > cfg.quotaBytes then Failure(OverQuota)
      else Success(rows + [Row(u)])
  }

  // What an answer says about an upload; the first of the reasons that apply is given.
  predicate Means(cfg: Config, rows: seq<Attachment>, u: Upload, e: Error) {
    match e
    case NoParent => (u.workspace, u.parent) !in cfg.parents
    case BadFilename => u.safeName == None
    case EmptyFile => u.size == 0
    case FileTooLarge => u.size > cfg.maxBytes
    case NoWorkspace => u.workspace !in cfg.workspaces
    case OverQuota => Usage(rows, u.workspace) + u.size > cfg.quotaBytes
  }

  const ERRORS: seq<Error> := [NoParent, BadFilename, EmptyFile, FileTooLarge, NoWorkspace, OverQuota]

  /** An upload is refused for the first reason that applies, and admitted when none does: so a file of exactly
      the greatest size is, and one that fills the quota exactly; and it is stored under its own name, with
      its content type or else a generic one, and its size, under its message or its note. */
  lemma AnswerMeans(cfg: Config, rows: seq<Attachment>, u: Upload)
    ensures Admit(cfg, rows, u).Success? <==> forall i :: 0 <= i < |ERRORS| ==> !Means(cfg, rows, u, ERRORS[i])
    ensures forall i :: 0 <= i < |ERRORS| && Admit(cfg, rows, u) == Failure(ERRORS[i]) ==>
              Means(cfg, rows, u, ERRORS[i]) && forall j :: 0 <= j < i ==> !Means(cfg, rows, u, ERRORS[j])
    ensures Admit(cfg, rows, u).Success? ==>
              var served := Admit(cfg, rows, u).value;
              && served[..|served| - 1] == rows && u.safeName.Some?
              && var a := served[|rows|];
                 && a.workspace == u.workspace && a.filename == u.safeName.value && a.size == u.size
                 && a.contentType == (if u.contentType == "" then "application/octet-stream" else u.contentType)
                 && (u.parent.MessageParent? ==> a.message == Some(u.parent.id) && a.note == None)
                 && (u.parent.NoteParent? ==> a.note == Some(u.parent.id) && a.message == None)
  {
    hide Usage;
    var errors := ERRORS;
    assert forall i :: 0 <= i < |errors| ==>
      errors[i] == (if i == 0 then NoParent else if i == 1 then BadFilename else if i == 2 then EmptyFile
                    else if i == 3 then FileTooLarge else if i == 4 then NoWorkspace else OverQuota);
    if Admit(cfg, rows, u).Failure? {
      assert exists i :: 0 <= i < 6 && Means(cfg, rows, u, errors[i]) by {
        var e := Admit(cfg, rows, u).error;
        assert e in errors && Means(cfg, rows, u, e);
      }
    }
  }

  // ---- the service methods -----------------------------------------------------------------------

  // attach_to_message and attach_to_note of CommunicationService.
  class AttachmentService {
    const config: Config
    var rows: seq<Attachment>
    var committed: seq<Attachment>

    constructor (config: Config)
      ensures this.config == config && rows == committed == []
    {
      this.config, rows, committed := config, [], [];
    }

    predicate Performed(spec: Result<seq<Attachment>, Error>, before: seq<Attachment>, saved: seq<Attachment>,
                        r: Outcome<Error>)
      reads this
    {
      && r == OutcomeOf(spec)
      && match spec
         case Success(s) => rows == s && committed == s
         case Failure(_) => rows == before && committed == saved
    }

    // Everything between the lookup of the parent and the insert.
    method ValidateAttachment(u: Upload) returns (r: Result<string, Error>)
      requires (u.workspace, u.parent) in config.parents
      ensures match Admit(config, rows, u)
              case Success(_) => u.safeName.Some? && r == Success(u.safeName.value)
              case Failure(e) => r == Failure(e)
    {
      if u.safeName.None? {
        return Failure(BadFilename);
      }
      if u.size == 0 {
        return Failure(EmptyFile);
      }
      if u.size > config.maxBytes {
        return Failure(FileTooLarge);
      }
      if u.workspace !in config.workspaces {
        return Failure(NoWorkspace);
      }
      var used := Usage(rows, u.workspace);
      if used + u.size > config.quotaBytes {
        return Failure(OverQuota);
      }
      r := Success(u.safeName.value);
    }

    method AttachToMessage(ws: WorkspaceId, message: MessageId, safeName: Option<string>, contentType: string,
                           size: nat)
      returns (r: Outcome<Error>)
      modifies this
      ensures Performed(Admit(config, old(rows), Upload(ws, MessageParent(message), safeName, contentType, size)),
                        old(rows), old(committed), r)
    {
      if (ws, MessageParent(message)) !in config.parents {
        return Fail(NoParent);
      }
      var name := ValidateAttachment(Upload(ws, MessageParent(message), safeName, contentType, size));
      if name.Failure? {
        return Fail(name.error);
      }
      rows := rows + [Attachment(ws, Some(message), None, name.value, Typed(contentType), size)];
      committed := rows;
      r := Pass;
    }

    method AttachToNote(ws: WorkspaceId, note: nat, safeName: Option<string>, contentType: string, size: nat)
      returns (r: Outcome<Error>)
      modifies this
      ensures Performed(Admit(config, old(rows), Upload(ws, NoteParent(note), safeName, contentType, size)),
                        old(rows), old(committed), r)
    {
      if (ws, NoteParent(note)) !in config.parents {
        return Fail(NoParent);
      }
      var name := ValidateAttachment(Upload(ws, NoteParent(note), safeName, contentType, size));
      if name.Failure? {
        return Fail(name.error);
      }
      rows := rows + [Attachment(ws, None, Some(note), name.value, Typed(contentType), size)];
      committed := rows;
      r := Pass;
    }
  }

  // ---- one upload after another ------------------------------------------------------------------

  function Serve(cfg: Config, rows: seq<Attachment>, us: seq<Upload>): seq<Attachment> {
    if us == [] then rows
    else
      var served := Serve(cfg, rows, us[..|us| - 1]);
      match Admit(cfg, served, us[|us| - 1])
      case Success(s) => s
      case Failure(_) => served
  }

  predicate WellFormed(cfg: Config, a: Attachment) {
    && 0 < a.size <= cfg.maxBytes
    && a.workspace in cfg.workspaces
    && (a.message.Some? <==> a.note.None?)
    && (a.message.Some? ==> (a.workspace, MessageParent(a.message.value)) in cfg.parents)
    && (a.note.Some? ==> (a.workspace, NoteParent(a.note.value)) in cfg.parents)
  }

  function Max(a: int, b: int): int {
    if a < b then b else a
  }

  // What serving may do to the rows.
  predicate Kept(cfg: Config, rows: seq<Attachment>, served: seq<Attachment>, ws: WorkspaceId) {
    && Usage(served, ws) <= Max(cfg.quotaBytes, Usage(rows, ws))
    && rows <= served
    && AllWellFormed(cfg, served[|rows|..])
  }

  predicate AllWellFormed(cfg: Config, rows: seq<Attachment>) {
    forall i :: 0 <= i < |rows| ==> WellFormed(cfg, rows[i])
  }

  lemma TailGrows(cfg: Config, rows: seq<Attachment>, served: seq<Attachment>, a: Attachment)
    requires rows <= served && AllWellFormed(cfg, served[|rows|..]) && WellFormed(cfg, a)
    ensures rows <= served + [a] && AllWellFormed(cfg, (served + [a])[|rows|..])
  {
    hide WellFormed;
    assert (served + [a])[|rows|..] == served[|rows|..] + [a];
  }

  lemma RowIsWellFormed(cfg: Config, u: Upload)
    requires Screen(cfg, u) == Pass && u.workspace in cfg.workspaces
    ensures WellFormed(cfg, Row(u)) && Row(u).workspace == u.workspace && Row(u).size == u.size
  {
  }

  lemma UsageGrows(served: seq<Attachment>, a: Attachment, ws: WorkspaceId)
    ensures Usage(served + [a], ws) == Usage(served, ws) + if a.workspace == ws then a.size else 0
  {
    assert (served + [a])[..|served|] == served;
  }

  lemma AdmissionKeeps(cfg: Config, rows: seq<Attachment>, served: seq<Attachment>, u: Upload, ws: WorkspaceId)
    requires Kept(cfg, rows, served, ws) && Admit(cfg, served, u).Success?
    ensures Kept(cfg, rows, served + [Row(u)], ws)
  {
    RowIsWellFormed(cfg, u);
    UsageGrows(served, Row(u), ws);
    hide Usage, WellFormed, AllWellFormed, Row, Screen;
    TailGrows(cfg, rows, served, Row(u));
  }

  lemma {:induction false} ServeKeepsQuota(cfg: Config, rows: seq<Attachment>, us: seq<Upload>, ws: WorkspaceId)
    ensures Kept(cfg, rows, Serve(cfg, rows, us), ws)
  {
    if us != [] {
      var u, init := us[|us| - 1], us[..|us| - 1];
      ServeKeepsQuota(cfg, rows, init, ws);
      hide Kept, Usage;
      if Admit(cfg, Serve(cfg, rows, init), u).Success? {
        AdmissionKeeps(cfg, rows, Serve(cfg, rows, init), u, ws);
      }
    }
  }

  // ---- interleaved transactions ------------------------------------------------------------------

  datatype Phase = Screened | Locked | Summed(used: nat) | Inserted(used: nat)
  datatype Tx = Tx(upload: Upload, phase: Phase)
  datatype Reply = Reply(upload: Upload, outcome: Outcome<Error>)

  // The committed rows, who holds which workspace row, the open transactions, and the answers given so far.
  datatype World = World(rows: seq<Attachment>, locks: map<WorkspaceId, nat>, open: map<nat, Tx>, replies: seq<Reply>)

  datatype Event = Begins(tx: nat, upload: Upload) | Locks(tx: nat) | Sums(tx: nat) | Inserts(tx: nat)
                 | Commits(tx: nat) | Aborts(tx: nat)

  predicate Possible(w: World, e: Event) {
    if e.Begins? then e.tx !in w.open
    else
      && e.tx in w.open
      && match e
         case Begins(_, _) => true
         case Locks(k) => w.open[k].phase.Screened? && w.open[k].upload.workspace !in w.locks
         case Sums(k) => w.open[k].phase.Locked?
         case Inserts(k) => w.open[k].phase.Summed?
         case Commits(k) => w.open[k].phase.Inserted? && w.open[k].upload.safeName.Some?
         case Aborts(_) => true
  }

  // The transaction ends, its lock with it.
  function Close(w: World, k: nat): World
    requires k in w.open
  {
    var ws := w.open[k].upload.workspace;
    w.(open := w.open - {k}, locks := if w.open[k].phase.Screened? then w.locks else w.locks - {ws})
  }

  function Answered(w: World, u: Upload, r: Outcome<Error>): World {
    w.(replies := w.replies + [Reply(u, r)])
  }

  function Next(cfg: Config, w: World, e: Event): World
    requires Possible(w, e)
  {
    match e
    case Begins(k, u) =>
      (match Screen(cfg, u)
       case Fail(_) => Answered(w, u, Screen(cfg, u))
       case Pass => w.(open := w.open[k := Tx(u, Screened)]))
    case Locks(k) =>
      var u := w.open[k].upload;
      if u.workspace !in cfg.workspaces then Answered(Close(w, k), u, Fail(NoWorkspace))
      else w.(locks := w.locks[u.workspace := k], open := w.open[k := Tx(u, Locked)])
    case Sums(k) =>
      var u := w.open[k].upload;
      w.(open := w.open[k := Tx(u, Summed(Usage(w.rows, u.workspace)))])
    case Inserts(k) =>
      var t := w.open[k];
      if t.phase.used + t.upload.size > cfg.quotaBytes then Answered(Close(w, k), t.upload, Fail(OverQuota))
      else w.(open := w.open[k := Tx(t.upload, Inserted(t.phase.used))])
    case Commits(k) =>
      var u := w.open[k].upload;
      Answered(Close(w, k), u, Pass).(rows := w.rows + [Row(u)])
    case Aborts(k) => Close(w, k)
  }

  predicate Legal(cfg: Config, w: World, es: seq<Event>)
    decreases |es|
  {
    es == [] || (Possible(w, es[0]) && Legal(cfg, Next(cfg, w, es[0]), es[1..]))
  }

  function Run(cfg: Config, w: World, es: seq<Event>): World
    requires Legal(cfg, w, es)
    decreases |es|
  {
    if es == [] then w else Run(cfg, Next(cfg, w, es[0]), es[1..])
  }

  function Idle(rows: seq<Attachment>): World {
    World(rows, map[], map[], [])
  }

  function Uploads(rs: seq<Reply>): (us: seq<Upload>)
    ensures |us| == |rs|
  {
    seq(|rs|, i requires 0 <= i < |rs| => rs[i].upload)
  }

  predicate HolderRuns(w: World, ws: WorkspaceId)
    requires ws in w.locks
  {
    var k := w.locks[ws];
    && k in w.open && w.open[k].upload.workspace == ws
    && (Possible(w, Sums(k)) || Possible(w, Inserts(k)) || Possible(w, Commits(k)))
  }

  // Who has locked a row still holds it, and what it read there still is the usage.
  predicate FencedTx(cfg: Config, w: World, k: nat)
    requires k in w.open
  {
    var u, phase := w.open[k].upload, w.open[k].phase;
    && Screen(cfg, u) == Pass
    && (!phase.Screened? ==> u.workspace in cfg.workspaces && u.workspace in w.locks && w.locks[u.workspace] == k)
    && (phase.Summed? || phase.Inserted? ==> phase.used == Usage(w.rows, u.workspace))
    && (phase.Inserted? ==> phase.used + u.size <= cfg.quotaBytes)
  }

  predicate Fenced(cfg: Config, w: World) {
    forall k :: k in w.open ==> FencedTx(cfg, w, k)
  }

  predicate Guarded(cfg: Config, w: World) {
    Fenced(cfg, w) && forall ws :: ws in w.locks ==> HolderRuns(w, ws)
  }

  // The rows and every answer are those of serving the answered uploads one by one, in the order of the answers.
  predicate Serial(cfg: Config, rows: seq<Attachment>, w: World) {
    && w.rows == Serve(cfg, rows, Uploads(w.replies))
    && forall i :: 0 <= i < |w.replies| ==>
         w.replies[i].outcome == OutcomeOf(Admit(cfg, Serve(cfg, rows, Uploads(w.replies)[..i]), w.replies[i].upload))
  }

  // The rows and answers of v are those of w after it has answered u as if it had the table to itself.
  predicate Answers(cfg: Config, w: World, v: World, u: Upload) {
    var spec := Admit(cfg, w.rows, u);
    && v.replies == w.replies + [Reply(u, OutcomeOf(spec))]
    && v.rows == match spec case Success(s) => s case Failure(_) => w.rows
  }

  lemma AnswerIsSerial(cfg: Config, rows: seq<Attachment>, w: World, v: World, u: Upload)
    requires Serial(cfg, rows, w) && Answers(cfg, w, v, u)
    ensures Serial(cfg, rows, v)
  {
    hide Admit;
    var us, vs := Uploads(w.replies), Uploads(v.replies);
    assert vs == us + [u] && vs[..|vs| - 1] == us;
    forall i | 0 <= i < |v.replies|
      ensures v.replies[i].outcome == OutcomeOf(Admit(cfg, Serve(cfg, rows, vs[..i]), v.replies[i].upload))
    {
      assert vs[..i] == us[..i];
      assert i == |us| ==> us[..i] == us;
    }
  }

  // The row committed may be of a workspace that k has not locked, or has not read yet.
  lemma CommitIsFenced(cfg: Config, w: World, e: Event, k: nat)
    requires Fenced(cfg, w) && Possible(w, e) && e.Commits? && k in Next(cfg, w, e).open
    ensures FencedTx(cfg, Next(cfg, w, e), k)
  {
    var v, u := Next(cfg, w, e), w.open[e.tx].upload;
    assert k in w.open && k != e.tx && v.open[k] == w.open[k];
    assert v.rows == w.rows + [Row(u)] && v.locks == w.locks - {u.workspace};
    assert FencedTx(cfg, w, k) && FencedTx(cfg, w, e.tx);
    RowIsOf(u);
    UsageGrows(w.rows, Row(u), w.open[k].upload.workspace);
    hide Fenced, Usage, Screen, Row, Next, Possible;
  }

  lemma RowIsOf(u: Upload)
    requires u.safeName.Some?
    ensures Row(u).workspace == u.workspace
  {
  }

  lemma OtherStepIsFenced(cfg: Config, w: World, e: Event, k: nat)
    requires Fenced(cfg, w) && Possible(w, e) && !e.Commits? && k in Next(cfg, w, e).open
    ensures FencedTx(cfg, Next(cfg, w, e), k)
  {
    assert k in w.open ==> FencedTx(cfg, w, k);
    hide Fenced, Usage, Screen;
  }

  lemma StepIsFenced(cfg: Config, w: World, e: Event)
    requires Fenced(cfg, w) && Possible(w, e)
    ensures Fenced(cfg, Next(cfg, w, e))
  {
    hide FencedTx, Next;
    forall k | k in Next(cfg, w, e).open
      ensures FencedTx(cfg, Next(cfg, w, e), k)
    {
      if e.Commits? {
        CommitIsFenced(cfg, w, e, k);
      } else {
        OtherStepIsFenced(cfg, w, e, k);
      }
    }
  }

  // The holder of a lock another transaction steps beside.
  lemma BystanderRunsOn(cfg: Config, w: World, e: Event, ws: WorkspaceId)
    requires Possible(w, e) && ws in w.locks && HolderRuns(w, ws) && w.locks[ws] != e.tx
    requires ws in Next(cfg, w, e).locks && (e.Locks? ==> w.open[e.tx].upload.workspace != ws)
    ensures HolderRuns(Next(cfg, w, e), ws)
  {
    hide Usage, Row, Screen;
    var k, v := w.locks[ws], Next(cfg, w, e);
    assert v.locks[ws] == k && k in v.open && v.open[k] == w.open[k];
    hide Next;
  }

  // The holder of a lock that steps itself, or takes it.
  lemma StepperRunsOn(cfg: Config, w: World, e: Event)
    requires Possible(w, e) && !e.Begins? && FencedTx(cfg, w, e.tx)
    requires var ws := w.open[e.tx].upload.workspace; ws in Next(cfg, w, e).locks && Next(cfg, w, e).locks[ws] == e.tx
    ensures HolderRuns(Next(cfg, w, e), w.open[e.tx].upload.workspace) || e.tx !in Next(cfg, w, e).open
    ensures e.tx !in Next(cfg, w, e).open ==> w.open[e.tx].phase.Screened?
  {
    hide Usage, Row;
  }

  lemma HolderRunsOn(cfg: Config, w: World, e: Event, ws: WorkspaceId)
    requires Guarded(cfg, w) && Possible(w, e) && ws in Next(cfg, w, e).locks
    ensures HolderRuns(Next(cfg, w, e), ws)
  {
    var v := Next(cfg, w, e);
    assert !e.Begins? ==> FencedTx(cfg, w, e.tx);
    if ws in w.locks && w.locks[ws] != e.tx {
      assert HolderRuns(w, ws);
      hide Next, Fenced, FencedTx, HolderRuns;
      BystanderRunsOn(cfg, w, e, ws);
    } else {
      assert ws in w.locks ==> HolderRuns(w, ws);
      assert v.locks[ws] == e.tx && ws == w.open[e.tx].upload.workspace && e.tx in v.open;
      hide Next, Fenced, FencedTx, HolderRuns;
      StepperRunsOn(cfg, w, e);
    }
  }

  lemma StepIsGuarded(cfg: Config, w: World, e: Event)
    requires Guarded(cfg, w) && Possible(w, e)
    ensures Guarded(cfg, Next(cfg, w, e))
  {
    hide Fenced, HolderRuns, Next;
    StepIsFenced(cfg, w, e);
    var v := Next(cfg, w, e);
    forall ws | ws in v.locks
      ensures HolderRuns(v, ws)
    {
      HolderRunsOn(cfg, w, e, ws);
    }
  }

  // The upload that a step is about.
  function Subject(w: World, e: Event): Upload
    requires Possible(w, e)
  {
    if e.Begins? then e.upload else w.open[e.tx].upload
  }

  lemma StepAnswers(cfg: Config, w: World, e: Event)
    requires Fenced(cfg, w) && Possible(w, e)
    ensures var v := Next(cfg, w, e);
            (v.rows == w.rows && v.replies == w.replies) || Answers(cfg, w, v, Subject(w, e))
  {
    assert !e.Begins? ==> FencedTx(cfg, w, e.tx);
    hide Fenced, Usage, Row;
  }

  lemma StepIsSerial(cfg: Config, rows: seq<Attachment>, w: World, e: Event)
    requires Guarded(cfg, w) && Serial(cfg, rows, w) && Possible(w, e)
    ensures Serial(cfg, rows, Next(cfg, w, e))
  {
    StepAnswers(cfg, w, e);
    var v := Next(cfg, w, e);
    hide Next, Admit, Serve, Answers;
    if v.rows != w.rows || v.replies != w.replies {
      AnswerIsSerial(cfg, rows, w, v, Subject(w, e));
    }
  }

  lemma {:induction false} RunIsGuarded(cfg: Config, w: World, es: seq<Event>)
    requires Guarded(cfg, w) && Legal(cfg, w, es)
    ensures Guarded(cfg, Run(cfg, w, es))
    decreases |es|
  {
    if es != [] {
      StepIsGuarded(cfg, w, es[0]);
      RunIsGuarded(cfg, Next(cfg, w, es[0]), es[1..]);
    }
  }

  /** Nobody waits for a lock in vain: each lock is held by an open transaction whose next statement can
      be executed, and once no transaction is open no row is locked. */
  lemma LocksAreReleased(cfg: Config, rows: seq<Attachment>, es: seq<Event>)
    requires Legal(cfg, Idle(rows), es)
    ensures var w := Run(cfg, Idle(rows), es);
            && (forall ws :: ws in w.locks ==> HolderRuns(w, ws))
            && (w.open == map[] ==> w.locks == map[])
  {
    RunIsGuarded(cfg, Idle(rows), es);
    var w := Run(cfg, Idle(rows), es);
    assert w.locks.Keys != {} ==> exists ws :: ws in w.locks;
  }

  lemma {:induction false} RunIsSerial(cfg: Config, rows: seq<Attachment>, w: World, es: seq<Event>)
    requires Guarded(cfg, w) && Serial(cfg, rows, w) && Legal(cfg, w, es)
    ensures Serial(cfg, rows, Run(cfg, w, es))
    decreases |es|
  {
    if es != [] {
      StepIsGuarded(cfg, w, es[0]);
      StepIsSerial(cfg, rows, w, es[0]);
      RunIsSerial(cfg, rows, Next(cfg, w, es[0]), es[1..]);
    }
  }

  /** Every interleaving is a serial execution: serving the answered uploads one at a time, in the order in
      which they were answered, stores the same rows and gives the same answers. */
  lemma InterleavingsAreSerial(cfg: Config, rows: seq<Attachment>, es: seq<Event>)
    requires Legal(cfg, Idle(rows), es)
    ensures Serial(cfg, rows, Run(cfg, Idle(rows), es))
  {
    RunIsSerial(cfg, rows, Idle(rows), es);
  }

  /** However uploads interleave, a workspace never holds more than its quota, or than it held to begin
      with; no row is lost; and each new row has an allowed size and exactly one parent, of its own workspace. */
  lemma QuotaIsKept(cfg: Config, rows: seq<Attachment>, es: seq<Event>, ws: WorkspaceId)
    requires Legal(cfg, Idle(rows), es)
    ensures var after := Run(cfg, Idle(rows), es).rows;
            && Usage(after, ws) <= Max(cfg.quotaBytes, Usage(rows, ws))
            && rows <= after
            && AllWellFormed(cfg, after[|rows|..])
  {
    InterleavingsAreSerial(cfg, rows, es);
    ServeKeepsQuota(cfg, rows, Uploads(Run(cfg, Idle(rows), es).replies), ws);
  }
}
