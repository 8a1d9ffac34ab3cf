/**
 The cursor protocol of one ambient worker scope as a state machine, and what
 it conserves over any run with appends, passes, persistence faults, crashes
 and restarts.

 A guarded pass is split where it lets go of the log: Begin peeks, spends the
 retry budget and writes the held window, Read takes the window the provider is
 called with, Land and Settle are the successful completion, Fail is the failing
 one. Whatever the process
 does between two durable writes is one step, so a crash can fall between any
 two durable writes.
*/
module AmbientCursor {
  import opened Common
  import opened AmbientLog
  import opened AmbientContinuity
  import opened AmbientBudget

  /** One durable write: done; failed with the old file intact; or failed after the rename,
      with the new file in place but the caller told it failed. */
  datatype Io = Durable | Lost | Unacknowledged

  /** The retry record of one window; `backoffUntil` 0 is no delay. */
  datatype Failure = Failure(
    windowId: Id, attempts: nat, backoffUntil: nat,
    providerOpen: bool, persistenceOpen: bool, continuityOpen: bool)

  datatype Phase = Idle | Admitted(need: nat, limit: nat) | Calling(window: seq<Entry>) | Landed

  /** What the running process holds in memory. */
  datatype Worker = Worker(baseline: Id, failure: Option<Failure>, phase: Phase)

  /** The log and the sidecar survive a crash; the worker does not. */
  datatype Scope = Scope(log: seq<Entry>, disk: Checkpoint, worker: Option<Worker>)

  datatype FailKind = Hold | Poison

  datatype Event =
    | Append(entry: Entry)
    | Begin(minBatch: nat, now: nat, hold: Io, clear: Io)
    | Read(clear: Io)
    | Land(artifact: Entry)
    | Settle(clear: Io)
    | Fail(kind: FailKind, now: nat, io: Io)
    | Crash
    | Restart(bootHead: Id, repair: Io, supersede: Io, ensure: Io)

  // ---- Durable writes ----------------------------------------------------------

  /** What is on disk after the write, and whether the writer was told it succeeded. */
  function Persist(before: Checkpoint, after: Checkpoint, io: Io): (Checkpoint, bool) {
    (if io.Lost? then before else after, io.Durable?)
  }

  function HeldCheckpoint(a: Agent, disk: Checkpoint, head: Id, baseline: Id): Checkpoint {
    Stamp(a, disk).(windowId := head, baselineId := baseline, blocked := NoBlock)
  }

  function BaselineCheckpoint(a: Agent, disk: Checkpoint, baseline: Id): Checkpoint {
    Stamp(a, disk).(windowId := "", baselineId := baseline, blocked := NoBlock)
  }

  // ---- Failure records -----------------------------------------------------------

  function NewFailure(windowId: Id): Failure { Failure(windowId, 0, 0, false, false, false) }

  function FailureFor(f: Option<Failure>, head: Id): Failure {
    if f.Some? && f.value.windowId == head then f.value else NewFailure(head)
  }

  /** A durability fault opens the circuit without spending an attempt. */
  function OpenPersistence(f: Option<Failure>, head: Id): Failure {
    var g := if f.None? || (head != "" && f.value.windowId != head) then NewFailure(head) else f.value;
    g.(persistenceOpen := true, providerOpen := true, backoffUntil := 0)
  }

  function OpenContinuity(f: Option<Failure>): Failure {
    (if f.Some? then f.value else NewFailure("")).(continuityOpen := true, providerOpen := true, backoffUntil := 0)
  }

  /** A provider hold: attempts stop at the cap, where the circuit opens. */
  function HoldFailure(f: Option<Failure>, head: Id, now: nat): Failure {
    var g := FailureFor(f, head);
    var attempts := if g.attempts < MAX_WINDOW_ATTEMPTS then g.attempts + 1 else g.attempts;
    if attempts >= MAX_WINDOW_ATTEMPTS then g.(attempts := attempts, providerOpen := true, backoffUntil := 0)
    else g.(attempts := attempts, backoffUntil := now + Backoff(BACKOFF_BASE, BACKOFF_CAP, attempts))
  }

  /** A poison failure short of the cap. */
  function PoisonFailure(f: Option<Failure>, head: Id, now: nat): Failure {
    var g := FailureFor(f, head);
    g.(attempts := g.attempts + 1,
       backoffUntil := now + PoisonBackoff(BACKOFF_BASE, BACKOFF_CAP, g.attempts + 1))
  }

  /** The batch ceiling granted to a pass on this head, or None when it may not run now. */
  function Budget(a: Agent, f: Option<Failure>, head: Id, now: nat): Option<nat> {
    if f.None? then Some(a.maxBatch)
    else if f.value.persistenceOpen || f.value.continuityOpen then None
    else if f.value.windowId != head then Some(a.maxBatch)
    else if f.value.providerOpen || now < f.value.backoffUntil then None
    else Some(Ceiling(a.maxBatch, a.minBatch, f.value.attempts))
  }

  /** The limit the window read uses: never more than the configured maximum. */
  function ReadLimit(a: Agent, limit: nat): nat {
    if limit == 0 || limit > a.maxBatch then a.maxBatch else limit
  }

  // ---- Steps ------------------------------------------------------------------------

  /** Drop the durable held marker, then the failure record. */
  function Clear(a: Agent, s: Scope, io: Io): Scope
    requires s.worker.Some?
  {
    var w := s.worker.value;
    if s.disk.windowId == "" then s.(worker := Some(w.(failure := None)))
    else
      var (disk, ok) := Persist(s.disk, s.disk.(windowId := ""), io);
      Scope(s.log, disk, Some(w.(failure := if ok then None else Some(OpenPersistence(w.failure, "")))))
  }

  /** The head count a pass peeks at. */
  function Peek(a: Agent, pending: seq<Entry>): seq<Entry> { Take(pending, Max(1, a.minBatch)) }

  function WindowOf(a: Agent, pending: seq<Entry>, limit: nat): seq<Entry> {
    CompatiblePrefix(Take(pending, ReadLimit(a, limit)))
  }

  /** A pass the budget admitted: hold the head durably. */
  function StepAdmitted(a: Agent, s: Scope, need: nat, limit: nat, hold: Io): Scope
    requires s.worker.Some? && Pending(a, s.log, s.worker.value.baseline) != []
  {
    var w := s.worker.value;
    var head := Pending(a, s.log, w.baseline)[0].id;
    var (disk, ok) := Persist(s.disk, HeldCheckpoint(a, s.disk, head, w.baseline), hold);
    Scope(s.log, disk,
      Some(if ok then w.(phase := Admitted(need, limit)) else w.(failure := Some(OpenPersistence(w.failure, head)))))
  }

  /** Read the window as it is now and call the provider, unless it is short. */
  function StepRead(a: Agent, s: Scope, clear: Io): Scope
    requires s.worker.Some? && s.worker.value.phase.Admitted?
  {
    var w := s.worker.value;
    var window := WindowOf(a, Pending(a, s.log, w.baseline), w.phase.limit);
    if |window| < w.phase.need then Clear(a, s.(worker := Some(w.(phase := Idle))), clear)
    else s.(worker := Some(w.(phase := Calling(window))))
  }

  /** Peek, retry budget and durable hold; a peek that is short forgets the retry record. */
  function StepBegin(a: Agent, s: Scope, minBatch: nat, now: nat, hold: Io, clear: Io): Scope
    requires s.worker.Some?
  {
    var w := s.worker.value;
    var need := Max(1, minBatch);
    var pending := Pending(a, s.log, w.baseline);
    if |Peek(a, pending)| < need then
      if w.failure.Some? && w.failure.value.continuityOpen then s else Clear(a, s, clear)
    else
      match Budget(a, w.failure, pending[0].id, now)
      case None => s
      case Some(limit) => StepAdmitted(a, s, need, limit, hold)
  }

  /** The produced artifact: visible, in this scope, its cursor the last id of its window. */
  ghost predicate ArtifactFor(a: Agent, s: Scope, window: seq<Entry>, e: Entry) {
    Fresh(s.log, e) && Counts(a, e) && |window| > 0 && e.cursor == window[|window| - 1].id
  }

  function StepFail(a: Agent, s: Scope, kind: FailKind, now: nat, io: Io): Scope
    requires s.worker.Some? && s.worker.value.phase.Calling? && |s.worker.value.phase.window| > 0
  {
    var w := s.worker.value.(phase := Idle);
    var head := s.worker.value.phase.window[0].id;
    if kind.Hold? then
      var failure := HoldFailure(w.failure, head, now);
      var (disk, ok) := Persist(s.disk, HeldCheckpoint(a, s.disk, head, w.baseline), io);
      Scope(s.log, disk, Some(w.(failure := Some(if ok then failure else OpenPersistence(Some(failure), head)))))
    else if FailureFor(w.failure, head).attempts + 1 < MAX_WINDOW_ATTEMPTS then
      s.(worker := Some(w.(failure := Some(PoisonFailure(w.failure, head, now)))))
    else
      var (disk, ok) := Persist(s.disk, BaselineCheckpoint(a, s.disk, head), io);
      Scope(s.log, disk,
        Some(if ok then w.(failure := None, baseline := head)
             else w.(failure := Some(OpenPersistence(None, head)))))
  }

  /** What a start resolves: the disk it leaves, the baseline, the block and whether a read or write failed. */
  function Bootstrap(a: Agent, log: seq<Entry>, stored: Checkpoint, bootHead: Id, repair: Io, supersede: Io)
    : (Checkpoint, Id, Block, bool)
  {
    if !stored.stored then
      var (baseline, blocked, anchored) := FirstBaseline(a, log, bootHead);
      var (disk, ok) := if anchored then Persist(ABSENT, AnchoredAt(a, baseline), supersede) else (ABSENT, true);
      (disk, baseline, blocked, ok)
    else
    var (validated, changed) := Validate(a, log, bootHead, stored);
    var (disk, ok) := if changed then Persist(stored, validated, repair) else (stored, true);
    if !ok then (disk, validated.baselineId, validated.blocked, false)
    else
      match Supersedes(a, log, bootHead, disk)
      case None => (disk, disk.baselineId, disk.blocked, true)
      case Some(anchor) =>
        var (anchored, written) := Persist(disk, AnchoredAt(a, anchor), supersede);
        if written then (anchored, anchor, NoBlock, true) else (anchored, disk.baselineId, disk.blocked, false)
  }

  /** Make what was resolved durable, register it, and reset the circuits if nothing went wrong. */
  function Register(a: Agent, log: seq<Entry>, disk: Checkpoint, previous: Option<Failure>,
                    baseline: Id, blocked: Block, read: bool, ensure: Io): Scope
  {
    var next := Stamp(a, if disk.windowId == "" then disk.(baselineId := baseline, blocked := blocked) else disk);
    var (disk', ok) := Persist(disk, next, ensure);
    var failure :=
      if !ok || !read then Some(OpenPersistence(previous, ""))
      else if blocked != NoBlock then Some(OpenContinuity(previous))
      else None;
    Scope(log, disk', Some(Worker(next.baselineId, failure, Idle)))
  }

  function StepRestart(a: Agent, s: Scope, bootHead: Id, repair: Io, supersede: Io, ensure: Io): Scope {
    var (disk, baseline, blocked, read) := Bootstrap(a, s.log, s.disk, bootHead, repair, supersede);
    Register(a, s.log, disk, if s.worker.Some? then s.worker.value.failure else None, baseline, blocked, read, ensure)
  }

  function BaselineNow(s: Scope): Id {
    if s.worker.Some? then s.worker.value.baseline else s.disk.baselineId
  }

  /** What the scope has still to consume. */
  function Current(a: Agent, s: Scope): seq<Entry> { Pending(a, s.log, BaselineNow(s)) }

  /** What a restart would find still to consume. */
  function OnDisk(a: Agent, s: Scope): seq<Entry> { Pending(a, s.log, s.disk.baselineId) }

  /** Another writer's row: anything fresh, except an artifact of this scope whose cursor is ahead. */
  ghost predicate Foreign(a: Agent, s: Scope, e: Entry) {
    Fresh(s.log, e) &&
    (Counts(a, e) ==>
      && e.cursor != "" && TargetIndex(a, s.log, e.cursor) >= 0
      && AppendedFloor(a, s.log, e) <= Start(a, s.log, BaselineNow(s)))
  }

  ghost predicate Enabled(a: Agent, s: Scope, ev: Event) {
    match ev
    case Append(e) => Foreign(a, s, e)
    case Begin(_, _, _, _) => s.worker.Some? && s.worker.value.phase.Idle?
    case Read(_) => s.worker.Some? && s.worker.value.phase.Admitted?
    case Land(e) => s.worker.Some? && s.worker.value.phase.Calling? && ArtifactFor(a, s, s.worker.value.phase.window, e)
    case Settle(_) => s.worker.Some? && s.worker.value.phase.Landed?
    case Fail(_, _, _) => s.worker.Some? && s.worker.value.phase.Calling? && |s.worker.value.phase.window| > 0
    case Crash => s.worker.Some?
    case Restart(_, _, _, _) => s.worker.Some? ==> s.worker.value.phase.Idle?
  }

  ghost function Step(a: Agent, s: Scope, ev: Event): Scope {
    if !Enabled(a, s, ev) then s else
    match ev
    case Append(e) => s.(log := s.log + [e])
    case Begin(m, now, hold, clear) => StepBegin(a, s, m, now, hold, clear)
    case Read(clear) => StepRead(a, s, clear)
    case Land(e) => s.(log := s.log + [e], worker := Some(s.worker.value.(phase := Landed)))
    case Settle(clear) => Clear(a, s.(worker := Some(s.worker.value.(phase := Idle))), clear)
    case Fail(kind, now, io) => StepFail(a, s, kind, now, io)
    case Crash => s.(worker := None)
    case Restart(bootHead, repair, supersede, ensure) => StepRestart(a, s, bootHead, repair, supersede, ensure)
  }

  // ---- The account of every input -------------------------------------------------------

  /** How inputs left the pending suffix. */
  datatype Disposal = Produced(ids: seq<Id>) | DeadLettered(id: Id)

  function IdsOf(d: Disposal): seq<Id> { if d.Produced? then d.ids else [d.id] }

  function Flatten(ds: seq<Disposal>): seq<Id> {
    if ds == [] then [] else Flatten(ds[..|ds| - 1]) + IdsOf(ds[|ds| - 1])
  }

  predicate DeadLettersNow(s: Scope, kind: FailKind, io: Io)
    requires s.worker.Some? && s.worker.value.phase.Calling? && |s.worker.value.phase.window| > 0
  {
    kind.Poison? && io.Durable? &&
    FailureFor(s.worker.value.failure, s.worker.value.phase.window[0].id).attempts + 1 >= MAX_WINDOW_ATTEMPTS
  }

  /** The dead letter that is on disk although the worker was told the write failed. */
  function UnheardDeadLetter(s: Scope): seq<Disposal> {
    if s.disk.baselineId != BaselineNow(s) then [DeadLettered(s.disk.baselineId)] else []
  }

  /** The disposals a step makes. Losing the process makes a published but unacknowledged
      dead letter take effect. */
  ghost function Disposals(a: Agent, s: Scope, ev: Event): seq<Disposal> {
    if !Enabled(a, s, ev) then [] else
    match ev
    case Land(e) => [Produced(Ids(s.worker.value.phase.window))]
    case Fail(kind, _, io) => if DeadLettersNow(s, kind, io) then [DeadLettered(s.worker.value.phase.window[0].id)]
        else []
    case Crash => UnheardDeadLetter(s)
    case Restart(_, _, _, _) => UnheardDeadLetter(s)
    case _ => []
  }

  ghost function Run(a: Agent, s: Scope, events: seq<Event>): Scope {
    if events == [] then s else Step(a, Run(a, s, events[..|events| - 1]), events[|events| - 1])
  }

  ghost function History(a: Agent, s: Scope, events: seq<Event>): seq<Disposal> {
    if events == [] then [] else
      History(a, s, events[..|events| - 1]) + Disposals(a, Run(a, s, events[..|events| - 1]), events[|events| - 1])
  }

  // ---- The invariant -----------------------------------------------------------------------

  ghost predicate Anchored(a: Agent, log: seq<Entry>, b: Id) { b == "" || VisibleIndex(a, log, b) >= 0 }

  /** What the worker's memory and the disk have to do with each other. */
  ghost predicate WorkerInv(a: Agent, s: Scope, w: Worker) {
    && Anchored(a, s.log, w.baseline)
    && (s.disk.baselineId == w.baseline ||
        (w.phase.Idle? && s.disk.windowId == "" && Current(a, s) != [] && s.disk.baselineId == Current(a, s)[0].id))
    && (w.phase.Admitted? ==> w.phase.need >= 1 && Current(a, s) != [] && s.disk.windowId == Current(a, s)[0].id)
    && (w.phase.Calling? ==>
          && 0 < |w.phase.window| <= |Current(a, s)|
          && w.phase.window == Current(a, s)[..|w.phase.window|]
          && s.disk.windowId == w.phase.window[0].id)
  }

  ghost predicate Inv(a: Agent, s: Scope) {
    && UniqueIds(s.log) && CursorsResolve(a, s.log)
    && Sound(a, s.log, s.disk)
    && (s.worker.Some? ==> WorkerInv(a, s, s.worker.value))
  }

  // ---- Positions ------------------------------------------------------------------------------

  lemma VisibleIsTarget(a: Agent, log: seq<Entry>, id: Id)
    requires UniqueIds(log) && VisibleIndex(a, log, id) >= 0
    ensures TargetIndex(a, log, id) == VisibleIndex(a, log, id)
  {
    TargetIndexUnique(a, log, VisibleIndex(a, log, id));
  }

  lemma AnchoredTarget(a: Agent, log: seq<Entry>, b: Id)
    requires UniqueIds(log) && Anchored(a, log, b)
    ensures b == "" || TargetIndex(a, log, b) >= 0
    ensures BaselineFloor(a, log, b) == VisibleIndex(a, log, b) + 1
  {
    if b != "" { VisibleIsTarget(a, log, b); } else { NoEmptyId(a, log); }
  }

  /** Every pending row sits after the baseline. */
  lemma PendingAfterBaseline(a: Agent, log: seq<Entry>, b: Id, k: nat)
    requires UniqueIds(log) && Anchored(a, log, b) && k < |Pending(a, log, b)|
    ensures var e := Pending(a, log, b)[k];
            e.id != "" && VisibleIndex(a, log, b) < VisibleIndex(a, log, e.id)
            && Start(a, log, b) <= VisibleIndex(a, log, e.id)
  {
    var e := Pending(a, log, b)[k];
    EligibleDistinct(a, log, Start(a, log, b));
    EligibleAreEligible(a, log, Start(a, log, b));
    var i := TargetIndex(a, log, e.id);
    AnchoredTarget(a, log, b);
    var j :| 0 <= j < |log| && log[j] == e;
    VisibleUnique(a, log, j);
    TargetIndexUnique(a, log, j);
  }

  /** Dead-lettering the head removes exactly the head. */
  lemma BaselineAtHead(a: Agent, log: seq<Entry>, b: Id)
    requires UniqueIds(log) && Anchored(a, log, b) && Pending(a, log, b) != []
    ensures var head := Pending(a, log, b)[0].id;
            Anchored(a, log, head) && Pending(a, log, head) == Pending(a, log, b)[1..]
  {
    var i := Start(a, log, b);
    PendingAfterBaseline(a, log, b, 0);
    EligibleAfter(a, log, i, 1);
    VisibleIsTarget(a, log, Pending(a, log, b)[0].id);
  }

  lemma AppendKeepsVisible(a: Agent, log: seq<Entry>, e: Entry, id: Id)
    requires Fresh(log, e) && VisibleIndex(a, log, id) >= 0
    ensures VisibleIndex(a, log + [e], id) == VisibleIndex(a, log, id)
  {
    assert (log + [e])[..|log|] == log;
  }

  lemma AppendKeepsAnchored(a: Agent, log: seq<Entry>, e: Entry, b: Id)
    requires Fresh(log, e) && Anchored(a, log, b)
    ensures Anchored(a, log + [e], b)
  {
    if b != "" { AppendKeepsVisible(a, log, e, b); }
  }

  lemma AppendKeepsSound(a: Agent, log: seq<Entry>, e: Entry, c: Checkpoint)
    requires Fresh(log, e) && UniqueIds(log) && Sound(a, log, c)
    ensures Sound(a, log + [e], c)
  {
    assert (log + [e])[..|log|] == log;
    NoEmptyId(a, log);
  }

  /** A foreign row only adds itself to the end of what is pending. */
  lemma ForeignExtends(a: Agent, log: seq<Entry>, e: Entry, b: Id)
    requires WellFormed(a) && UniqueIds(log) && CursorsResolve(a, log) && Fresh(log, e) && Anchored(a, log, b)
    requires Counts(a, e) ==> e.cursor != "" && TargetIndex(a, log, e.cursor) >= 0
    requires AppendedFloor(a, log, e) <= Start(a, log, b)
    ensures Pending(a, log + [e], b) == Pending(a, log, b) + (if Eligible(a, e) then [e] else [])
    ensures CursorsResolve(a, log + [e])
  {
    AnchoredTarget(a, log, b);
    AppendStart(a, log, e, b);
    StartInRange(a, log, b);
    AppendExtendsEligible(a, log, e, Start(a, log, b));
  }

  /** The artifact of a window moves the start right behind the window. */
  lemma LandingStart(a: Agent, log: seq<Entry>, e: Entry, b: Id, n: nat)
    requires WellFormed(a) && UniqueIds(log) && CursorsResolve(a, log) && Anchored(a, log, b)
    requires 0 < n <= |Pending(a, log, b)| && Fresh(log, e) && Counts(a, e)
    requires e.cursor == Pending(a, log, b)[n - 1].id
    ensures Start(a, log + [e], b) == TargetIndex(a, log, e.cursor) + 1
    ensures CursorsResolve(a, log + [e])
  {
    AnchoredTarget(a, log, b);
    PendingAfterBaseline(a, log, b, n - 1);
    VisibleIsTarget(a, log, e.cursor);
    AppendStart(a, log, e, b);
  }

  /** The artifact of a window removes exactly that window. */
  lemma LandingConsumes(a: Agent, log: seq<Entry>, e: Entry, b: Id, n: nat)
    requires WellFormed(a) && UniqueIds(log) && CursorsResolve(a, log) && Anchored(a, log, b)
    requires 0 < n <= |Pending(a, log, b)| && Fresh(log, e) && Counts(a, e)
    requires e.cursor == Pending(a, log, b)[n - 1].id
    ensures Pending(a, log + [e], b) == Pending(a, log, b)[n..]
    ensures CursorsResolve(a, log + [e])
  {
    LandingStart(a, log, e, b, n);
    EligibleAfter(a, log, Start(a, log, b), n);
    AppendExtendsEligible(a, log, e, TargetIndex(a, log, e.cursor) + 1);
  }

  // ---- Every step keeps the invariant ----------------------------------------------------------

  lemma BaselinesAnchored(a: Agent, s: Scope)
    requires Inv(a, s)
    ensures Anchored(a, s.log, BaselineNow(s)) && Anchored(a, s.log, s.disk.baselineId)
    ensures s.disk.baselineId != BaselineNow(s) ==>
      Current(a, s) != [] && s.disk.baselineId == Current(a, s)[0].id && OnDisk(a, s) == Current(a, s)[1..]
  {
    if s.disk.baselineId != BaselineNow(s) { BaselineAtHead(a, s.log, BaselineNow(s)); }
  }

  lemma AppendExtendsCurrent(a: Agent, s: Scope, e: Entry)
    requires WellFormed(a) && Inv(a, s) && Foreign(a, s, e)
    ensures Current(a, s.(log := s.log + [e])) == Current(a, s) + (if Eligible(a, e) then [e] else [])
    ensures CursorsResolve(a, s.log + [e])
  {
    BaselinesAnchored(a, s);
    ForeignExtends(a, s.log, e, BaselineNow(s));
  }

  lemma AppendKeepsInv(a: Agent, s: Scope, e: Entry)
    requires WellFormed(a) && Inv(a, s) && Foreign(a, s, e)
    ensures Inv(a, s.(log := s.log + [e]))
  {
    var t := s.(log := s.log + [e]);
    hide Sound, Eligible, Pending;
    AppendExtendsCurrent(a, s, e);
    AppendKeepsSound(a, s.log, e, s.disk);
    if s.worker.Some? {
      var w := s.worker.value;
      AppendKeepsAnchored(a, s.log, e, w.baseline);
      if w.phase.Calling? {
        assert Current(a, t)[..|w.phase.window|] == Current(a, s)[..|w.phase.window|];
      }
    }
  }

  lemma ClearKeepsInv(a: Agent, s: Scope, io: Io)
    requires Inv(a, s) && s.worker.Some? && s.worker.value.phase.Idle?
    ensures Inv(a, Clear(a, s, io)) && Current(a, Clear(a, s, io)) == Current(a, s)
    ensures Clear(a, s, io).disk.baselineId == s.disk.baselineId
  {
  }

  /** The held checkpoint of the pending head is sound. */
  lemma HeldIsSound(a: Agent, s: Scope)
    requires Inv(a, s) && s.worker.Some? && Current(a, s) != []
    ensures Sound(a, s.log, HeldCheckpoint(a, s.disk, Current(a, s)[0].id, s.worker.value.baseline))
  {
    PendingAfterBaseline(a, s.log, BaselineNow(s), 0);
  }

  /** Writing the held window, however the write ends, moves nothing. */
  lemma HoldKeepsInv(a: Agent, s: Scope, io: Io, failure: Option<Failure>)
    requires Inv(a, s) && s.worker.Some? && s.worker.value.phase.Idle? && Current(a, s) != []
    ensures var held := HeldCheckpoint(a, s.disk, Current(a, s)[0].id, s.worker.value.baseline);
            var t := Scope(s.log, Persist(s.disk, held, io).0, Some(s.worker.value.(failure := failure)));
            Inv(a, t) && Current(a, t) == Current(a, s)
  {
    HeldIsSound(a, s);
  }

  lemma ReadKeepsInv(a: Agent, s: Scope, clear: Io)
    requires Inv(a, s) && s.worker.Some? && s.worker.value.phase.Admitted?
    ensures var t := StepRead(a, s, clear); Inv(a, t) && Current(a, t) == Current(a, s) && t.log == s.log
  {
    var w := s.worker.value;
    var window := WindowOf(a, Current(a, s), w.phase.limit);
    assert window == Current(a, s)[..|window|];
    if |window| < w.phase.need { ClearKeepsInv(a, s.(worker := Some(w.(phase := Idle))), clear); }
  }

  lemma AdmittedKeepsInv(a: Agent, s: Scope, need: nat, limit: nat, hold: Io)
    requires Inv(a, s) && s.worker.Some? && s.worker.value.phase.Idle? && Current(a, s) != [] && need >= 1
    ensures var t := StepAdmitted(a, s, need, limit, hold);
            Inv(a, t) && Current(a, t) == Current(a, s) && t.log == s.log
  {
    var w := s.worker.value;
    var head := Current(a, s)[0].id;
    HoldKeepsInv(a, s, hold, if hold.Durable? then w.failure else Some(OpenPersistence(w.failure, head)));
  }

  lemma BeginKeepsInv(a: Agent, s: Scope, minBatch: nat, now: nat, hold: Io, clear: Io)
    requires WellFormed(a) && Inv(a, s) && s.worker.Some? && s.worker.value.phase.Idle?
    ensures var t := StepBegin(a, s, minBatch, now, hold, clear);
            Inv(a, t) && Current(a, t) == Current(a, s) && t.log == s.log
  {
    var w := s.worker.value;
    var need := Max(1, minBatch);
    if |Peek(a, Current(a, s))| < need {
      ClearKeepsInv(a, s, clear);
    } else {
      var budget := Budget(a, w.failure, Current(a, s)[0].id, now);
      if budget.Some? { AdmittedKeepsInv(a, s, need, budget.value, hold); }
    }
  }

  lemma HoldFailKeepsInv(a: Agent, s: Scope, now: nat, io: Io)
    requires Inv(a, s) && s.worker.Some? && s.worker.value.phase.Calling? && |s.worker.value.phase.window| > 0
    ensures var t := StepFail(a, s, Hold, now, io); Inv(a, t) && t.log == s.log && Current(a, t) == Current(a, s)
  {
    hide Sound, HoldFailure;
    HeldIsSound(a, s);
  }

  lemma PoisonFailKeepsInv(a: Agent, s: Scope, now: nat, io: Io)
    requires Inv(a, s) && s.worker.Some? && s.worker.value.phase.Calling? && |s.worker.value.phase.window| > 0
    requires !DeadLettersNow(s, Poison, io)
    ensures var t := StepFail(a, s, Poison, now, io); Inv(a, t) && t.log == s.log && Current(a, t) == Current(a, s)
  {
    BaselineIsSound(a, s);
  }

  lemma DeadLetterKeepsInv(a: Agent, s: Scope, now: nat, io: Io)
    requires Inv(a, s) && s.worker.Some? && s.worker.value.phase.Calling? && |s.worker.value.phase.window| > 0
    requires DeadLettersNow(s, Poison, io)
    ensures var t := StepFail(a, s, Poison, now, io); Inv(a, t) && t.log == s.log && Current(a, t) == Current(a, s)[1..]
  {
    hide Sound;
    BaselineIsSound(a, s);
    BaselineAtHead(a, s.log, s.worker.value.baseline);
  }

  lemma BaselineIsSound(a: Agent, s: Scope)
    requires Inv(a, s) && s.worker.Some? && Current(a, s) != []
    ensures Sound(a, s.log, BaselineCheckpoint(a, s.disk, Current(a, s)[0].id))
  {
    PendingAfterBaseline(a, s.log, BaselineNow(s), 0);
  }

  lemma FailKeepsInv(a: Agent, s: Scope, kind: FailKind, now: nat, io: Io)
    requires WellFormed(a) && Inv(a, s) && s.worker.Some? && s.worker.value.phase.Calling?
        && |s.worker.value.phase.window| > 0
    ensures var t := StepFail(a, s, kind, now, io);
            && Inv(a, t) && t.log == s.log
            && (DeadLettersNow(s, kind, io) ==> Current(a, t) == Current(a, s)[1..])
            && (!DeadLettersNow(s, kind, io) ==> Current(a, t) == Current(a, s))
  {
    hide Inv, StepFail;
    if kind.Hold? { HoldFailKeepsInv(a, s, now, io); }
    else if DeadLettersNow(s, kind, io) { DeadLetterKeepsInv(a, s, now, io); }
    else { PoisonFailKeepsInv(a, s, now, io); }
  }

  lemma LandKeepsInv(a: Agent, s: Scope, e: Entry)
    requires WellFormed(a) && Inv(a, s) && Enabled(a, s, Land(e))
    ensures var t := Step(a, s, Land(e));
            Inv(a, t) && Current(a, t) == Current(a, s)[|s.worker.value.phase.window|..]
  {
    hide Sound, EligibleFrom, Start;
    var w := s.worker.value;
    assert Step(a, s, Land(e)) == Scope(s.log + [e], s.disk, Some(w.(phase := Landed)));
    LandingConsumes(a, s.log, e, w.baseline, |w.phase.window|);
    AppendKeepsSound(a, s.log, e, s.disk);
    AppendKeepsAnchored(a, s.log, e, w.baseline);
  }

  lemma RestartKeepsInv(a: Agent, s: Scope, bootHead: Id, repair: Io, supersede: Io, ensure: Io)
    requires WellFormed(a) && Inv(a, s)
    ensures var t := StepRestart(a, s, bootHead, repair, supersede, ensure);
            && Inv(a, t) && t.log == s.log && t.disk == s.disk && Current(a, t) == OnDisk(a, s)
            && t.worker.value.baseline == s.disk.baselineId
  {
    SoundCheckpointSurvives(a, s.log, bootHead, s.disk);
  }

  lemma StepKeepsInv(a: Agent, s: Scope, ev: Event)
    requires WellFormed(a) && Inv(a, s)
    ensures Inv(a, Step(a, s, ev))
  {
    if Enabled(a, s, ev) {
      match ev
      case Append(e) => AppendKeepsInv(a, s, e);
      case Begin(m, now, hold, clear) => BeginKeepsInv(a, s, m, now, hold, clear);
      case Read(clear) => ReadKeepsInv(a, s, clear);
      case Land(e) => LandKeepsInv(a, s, e);
      case Settle(clear) => ClearKeepsInv(a, s.(worker := Some(s.worker.value.(phase := Idle))), clear);
      case Fail(kind, now, io) => FailKeepsInv(a, s, kind, now, io);
      case Crash =>
      case Restart(bootHead, repair, supersede, ensure) => RestartKeepsInv(a, s, bootHead, repair, supersede, ensure);
    }
  }

  lemma {:induction false} RunKeepsInv(a: Agent, s: Scope, events: seq<Event>)
    requires WellFormed(a) && Inv(a, s)
    ensures Inv(a, Run(a, s, events))
  {
    if events != [] {
      RunKeepsInv(a, s, events[..|events| - 1]);
      StepKeepsInv(a, Run(a, s, events[..|events| - 1]), events[|events| - 1]);
    }
  }

  // ---- Conservation -------------------------------------------------------------------------------

  /** The eligible row a step adds to the log, if any. */
  ghost function Added(a: Agent, s: Scope, ev: Event): seq<Entry> {
    if ev.Append? && Enabled(a, s, ev) && Eligible(a, ev.entry) then [ev.entry] else []
  }

  lemma FlattenOne(d: Disposal)
    ensures Flatten([d]) == IdsOf(d)
  {
    assert [d][..0] == [];
  }

  lemma LogGrowsBy(a: Agent, s: Scope, ev: Event, origin: nat)
    requires WellFormed(a) && Inv(a, s) && origin <= |s.log|
    ensures EligibleFrom(a, Step(a, s, ev).log, origin) == EligibleFrom(a, s.log, origin) + Added(a, s, ev)
    ensures |s.log| <= |Step(a, s, ev).log|
  {
    hide Pending;
    if Enabled(a, s, ev) {
      match ev
      case Append(e) => AppendExtendsEligible(a, s.log, e, origin);
      case Land(e) => AppendExtendsEligible(a, s.log, e, origin);
      case Begin(m, now, hold, clear) => BeginKeepsInv(a, s, m, now, hold, clear);
      case Read(clear) => ReadKeepsInv(a, s, clear);
      case _ =>
    }
  }

  lemma RebaseConserves(a: Agent, s: Scope)
    requires Inv(a, s)
    ensures Ids(Current(a, s)) == Flatten(UnheardDeadLetter(s)) + Ids(OnDisk(a, s))
  {
    if s.disk.baselineId == BaselineNow(s) {
      assert UnheardDeadLetter(s) == [];
    } else {
      assert Current(a, s) != [] && s.disk.baselineId == Current(a, s)[0].id && OnDisk(a, s) == Current(a, s)[1..] by {
        BaselinesAnchored(a, s);
      }
      FlattenOne(DeadLettered(s.disk.baselineId));
      SplitIds(Current(a, s), 1);
    }
  }

  lemma FailConserves(a: Agent, s: Scope, kind: FailKind, now: nat, io: Io)
    requires WellFormed(a) && Inv(a, s) && Enabled(a, s, Fail(kind, now, io))
    ensures Ids(Current(a, s)) ==
            Flatten(Disposals(a, s, Fail(kind, now, io))) + Ids(Current(a, StepFail(a, s, kind, now, io)))
  {
    hide StepFail, Sound;
    FailKeepsInv(a, s, kind, now, io);
    FlattenOne(DeadLettered(s.worker.value.phase.window[0].id));
    SplitIds(Current(a, s), 1);
  }

  lemma LandConserves(a: Agent, s: Scope, e: Entry)
    requires WellFormed(a) && Inv(a, s) && Enabled(a, s, Land(e))
    ensures Ids(Current(a, s)) ==
            Flatten([Produced(Ids(s.worker.value.phase.window))]) + Ids(Current(a, Step(a, s, Land(e))))
  {
    LandKeepsInv(a, s, e);
    FlattenOne(Produced(Ids(s.worker.value.phase.window)));
    SplitIds(Current(a, s), |s.worker.value.phase.window|);
  }

  lemma AppendConserves(a: Agent, s: Scope, e: Entry)
    requires WellFormed(a) && Inv(a, s) && Foreign(a, s, e)
    ensures Ids(Current(a, s)) + Ids(Added(a, s, Append(e))) == Ids(Current(a, s.(log := s.log + [e])))
  {
    AppendExtendsCurrent(a, s, e);
  }

  /** The account of one step: what was pending, plus what the step appended, is what the step
      disposed of followed by what is still pending, in order. */
  lemma StepConserves(a: Agent, s: Scope, ev: Event)
    requires WellFormed(a) && Inv(a, s)
    ensures Ids(Current(a, s)) + Ids(Added(a, s, ev)) == Flatten(Disposals(a, s, ev)) + Ids(Current(a, Step(a, s, ev)))
  {
    hide StepBegin, StepRead, StepFail, StepRestart;
    if Enabled(a, s, ev) {
      match ev
      case Append(e) => AppendConserves(a, s, e);
      case Begin(m, now, hold, clear) => BeginKeepsInv(a, s, m, now, hold, clear);
      case Read(clear) => ReadKeepsInv(a, s, clear);
      case Land(e) => LandConserves(a, s, e);
      case Settle(clear) => ClearKeepsInv(a, s.(worker := Some(s.worker.value.(phase := Idle))), clear);
      case Fail(kind, now, io) => FailConserves(a, s, kind, now, io);
      case Crash => RebaseConserves(a, s);
      case Restart(bootHead, repair, supersede, ensure) =>
        RestartKeepsInv(a, s, bootHead, repair, supersede, ensure);
        RebaseConserves(a, s);
    }
  }

  lemma SplitIds(es: seq<Entry>, n: nat)
    requires n <= |es|
    ensures Ids(es) == Ids(es[..n]) + Ids(es[n..])
  {
  }

  lemma FlattenSnoc(ds: seq<Disposal>, d: Disposal)
    ensures Flatten(ds + [d]) == Flatten(ds) + IdsOf(d)
  {
    assert (ds + [d])[..|ds|] == ds;
  }

  lemma {:induction false} FlattenConcat(x: seq<Disposal>, y: seq<Disposal>)
    ensures Flatten(x + y) == Flatten(x) + Flatten(y)
  {
    hide IdsOf;
    if y == [] {
      assert x + y == x;
    } else {
      var front, last := y[..|y| - 1], y[|y| - 1];
      FlattenConcat(x, front);
      assert Flatten(y) == Flatten(front) + IdsOf(last);
      FlattenSnoc(x + front, last);
      assert x + y == (x + front) + [last];
      Reassociate(Flatten(x), Flatten(front), IdsOf(last));
    }
  }

  lemma Reassociate(x: seq<Id>, y: seq<Id>, z: seq<Id>)
    ensures x + y + z == x + (y + z)
  {
  }

  /** Moving the boundary between what is done and what is pending. */
  lemma MoveBoundary(rows: seq<Entry>, added: seq<Entry>, done: seq<Id>, pending: seq<Id>, left: seq<Id>,
      pending': seq<Id>)
    requires Ids(rows) == done + pending && pending + Ids(added) == left + pending'
    ensures Ids(rows + added) == done + left + pending'
  {
    assert Ids(rows + added) == Ids(rows) + Ids(added);
    assert done + pending + Ids(added) == done + (pending + Ids(added));
  }

  /** Carrying an account over one step. */
  lemma CarryOver(a: Agent, s: Scope, ev: Event, origin: nat, done: seq<Id>)
    requires WellFormed(a) && Inv(a, s) && origin <= |s.log|
    requires Ids(EligibleFrom(a, s.log, origin)) == done + Ids(Current(a, s))
    ensures Ids(EligibleFrom(a, Step(a, s, ev).log, origin)) ==
        done + Flatten(Disposals(a, s, ev)) + Ids(Current(a, Step(a, s, ev)))
  {
    LogGrowsBy(a, s, ev, origin);
    StepConserves(a, s, ev);
    MoveBoundary(EligibleFrom(a, s.log, origin), Added(a, s, ev), done, Ids(Current(a, s)),
                 Flatten(Disposals(a, s, ev)), Ids(Current(a, Step(a, s, ev))));
  }

  /** Conservation over whole runs: the eligible inputs after the position a run starts from are,
      in order, the ones its windows consumed and the ones it dead-lettered, followed by exactly
      the ones still pending. Ids are unique, so none is skipped and none is consumed twice. */
  lemma {:induction false} RunConserves(a: Agent, s: Scope, events: seq<Event>)
    requires WellFormed(a) && Inv(a, s)
    ensures var t := Run(a, s, events); var origin := Start(a, s.log, BaselineNow(s));
            Ids(EligibleFrom(a, t.log, origin)) == Flatten(History(a, s, events)) + Ids(Current(a, t))
    ensures |s.log| <= |Run(a, s, events).log|
  {
    var origin := Start(a, s.log, BaselineNow(s));
    StartInRange(a, s.log, BaselineNow(s));
    if events != [] {
      var prefix, ev := events[..|events| - 1], events[|events| - 1];
      var t := Run(a, s, prefix);
      RunConserves(a, s, prefix);
      RunKeepsInv(a, s, prefix);
      LogGrowsBy(a, t, ev, origin);
      CarryOver(a, t, ev, origin, Flatten(History(a, s, prefix)));
      FlattenConcat(History(a, s, prefix), Disposals(a, t, ev));
    }
  }

  predicate Distinct(ids: seq<Id>) { forall i, j :: 0 <= i < j < |ids| ==> ids[i] != ids[j] }

  /** Nothing is disposed of twice, and nothing disposed of is still pending. */
  lemma NothingTwice(a: Agent, s: Scope, events: seq<Event>)
    requires WellFormed(a) && Inv(a, s)
    ensures Distinct(Flatten(History(a, s, events)) + Ids(Current(a, Run(a, s, events))))
  {
    var t := Run(a, s, events);
    RunConserves(a, s, events);
    RunKeepsInv(a, s, events);
    EligibleDistinct(a, t.log, Start(a, s.log, BaselineNow(s)));
  }

  // ---- Durable before call ---------------------------------------------------------------------------

  /** Whenever the provider is being called, the sidecar holds the current head as its window and a
      baseline strictly before it; and whatever the restart's own writes do, a crash at that point
      followed by a restart resumes with exactly the same rows pending. */
  lemma DurableBeforeCall(a: Agent, s: Scope, events: seq<Event>, bootHead: Id, repair: Io, supersede: Io, ensure: Io)
    requires WellFormed(a) && Inv(a, s)
    requires var t := Run(a, s, events); t.worker.Some? && t.worker.value.phase.Calling?
    ensures var t := Run(a, s, events);
            && Current(a, t) != [] && t.disk.windowId == Current(a, t)[0].id
            && VisibleIndex(a, t.log, t.disk.baselineId) < VisibleIndex(a, t.log, t.disk.windowId)
            && Current(a, Step(a, Step(a, t, Crash), Restart(bootHead, repair, supersede, ensure))) == Current(a, t)
  {
    RunKeepsInv(a, s, events);
    var t := Run(a, s, events);
    PendingAfterBaseline(a, t.log, BaselineNow(t), 0);
    CrashRestart(a, t, bootHead, repair, supersede, ensure);
  }

  lemma CrashRestart(a: Agent, s: Scope, bootHead: Id, repair: Io, supersede: Io, ensure: Io)
    requires WellFormed(a) && Inv(a, s) && s.worker.Some?
    ensures Current(a, Step(a, Step(a, s, Crash), Restart(bootHead, repair, supersede, ensure))) == OnDisk(a, s)
  {
    RestartKeepsInv(a, Step(a, s, Crash), bootHead, repair, supersede, ensure);
  }

  /** A crash at any point of any run, followed by a restart, resumes with the same rows pending, or
      without exactly the one input whose dead letter was already published on disk. */
  lemma CrashResumesInPlace(a: Agent, s: Scope, events: seq<Event>, bootHead: Id, repair: Io, supersede: Io, ensure: Io)
    requires WellFormed(a) && Inv(a, s) && Run(a, s, events).worker.Some?
    ensures var t := Run(a, s, events);
            var u := Step(a, Step(a, t, Crash), Restart(bootHead, repair, supersede, ensure));
            || Current(a, u) == Current(a, t)
            || (Current(a, t) != [] && t.disk.baselineId == Current(a, t)[0].id && Current(a, u) == Current(a, t)[1..])
  {
    RunKeepsInv(a, s, events);
    BaselinesAnchored(a, Run(a, s, events));
    CrashRestart(a, Run(a, s, events), bootHead, repair, supersede, ensure);
  }

  /** A provider hold never moves the baseline, in memory or on disk. */
  lemma HoldNeverAdvances(a: Agent, s: Scope, now: nat, io: Io)
    requires WellFormed(a) && Inv(a, s) && Enabled(a, s, Fail(Hold, now, io))
    ensures var t := Step(a, s, Fail(Hold, now, io));
            && t.worker.value.baseline == s.worker.value.baseline && t.disk.baselineId == s.disk.baselineId
            && Current(a, t) == Current(a, s) && Disposals(a, s, Fail(Hold, now, io)) == []
  {
  }

  // ---- Where runs start ---------------------------------------------------------------------------------

  /** With every write durable, a start on a stored checkpoint leaves the validated one, or the anchor that
      supersedes it. */
  lemma BootstrapDurably(a: Agent, log: seq<Entry>, stored: Checkpoint, bootHead: Id)
    requires stored.stored
    ensures var v := Validate(a, log, bootHead, stored).0; var anchor := Supersedes(a, log, bootHead, v);
            Bootstrap(a, log, stored, bootHead, Durable, Durable) ==
            if anchor.Some? then (AnchoredAt(a, anchor.value), anchor.value, NoBlock, true)
                else (v, v.baselineId, v.blocked, true)
  {
  }

  /** Registering an unblocked checkpoint that is already consistent. */
  lemma RegisterUnblocked(a: Agent, log: seq<Entry>, disk: Checkpoint, previous: Option<Failure>)
    requires Stamp(a, disk) == disk && disk.blocked == NoBlock
    ensures Register(a, log, disk, previous, disk.baselineId, NoBlock, true, Durable) ==
            Scope(log, disk, Some(Worker(disk.baselineId, None, Idle)))
  {
  }

  lemma IdleScopeInv(a: Agent, log: seq<Entry>, disk: Checkpoint)
    requires UniqueIds(log) && CursorsResolve(a, log) && Sound(a, log, disk)
    ensures Inv(a, Scope(log, disk, Some(Worker(disk.baselineId, None, Idle))))
  {
  }

  /** A resolved baseline, as the first checkpoint of a scope. */
  lemma FirstCheckpointIsSound(a: Agent, log: seq<Entry>, bootHead: Id)
    requires UniqueIds(log) && FirstBaseline(a, log, bootHead).1 == NoBlock
    ensures Anchored(a, log, FirstBaseline(a, log, bootHead).0)
  {
    var k := Furthest(a, log, |log|);
    if k >= 0 { VisibleUnique(a, log, k); }
    var i := AnchorIndex(a, log, bootHead);
    if i >= 0 { VisibleUnique(a, log, i); }
  }

  lemma FirstStartEstablishesInv(a: Agent, log: seq<Entry>, bootHead: Id)
    requires UniqueIds(log) && CursorsResolve(a, log)
    requires StepRestart(a, Scope(log, ABSENT, None), bootHead, Durable, Durable, Durable).worker.value.failure == None
    ensures Inv(a, StepRestart(a, Scope(log, ABSENT, None), bootHead, Durable, Durable, Durable))
  {
    var (baseline, blocked, anchored) := FirstBaseline(a, log, bootHead);
    assert blocked == NoBlock;
    FirstCheckpointIsSound(a, log, bootHead);
    var first := Stamp(a, ABSENT).(baselineId := baseline, firstRunAnchor := anchored);
    NoEmptyId(a, log);
    IdleScopeInv(a, log, first);
  }

  /** Whatever checkpoint a scope carries, or none, a restart whose writes succeed and that opens no circuit
      establishes the invariant. */
  lemma RestartEstablishesInv(a: Agent, log: seq<Entry>, disk: Checkpoint, bootHead: Id)
    requires UniqueIds(log) && CursorsResolve(a, log) && !a.syntheticHeldWindow && (disk.stored || disk == ABSENT)
    requires StepRestart(a, Scope(log, disk, None), bootHead, Durable, Durable, Durable).worker.value.failure == None
    ensures Inv(a, StepRestart(a, Scope(log, disk, None), bootHead, Durable, Durable, Durable))
  {
    if !disk.stored {
      FirstStartEstablishesInv(a, log, bootHead);
    } else {
      StoredStartEstablishesInv(a, log, disk, bootHead);
    }
  }

  lemma StoredStartEstablishesInv(a: Agent, log: seq<Entry>, disk: Checkpoint, bootHead: Id)
    requires UniqueIds(log) && CursorsResolve(a, log) && !a.syntheticHeldWindow && disk.stored
    requires StepRestart(a, Scope(log, disk, None), bootHead, Durable, Durable, Durable).worker.value.failure == None
    ensures Inv(a, StepRestart(a, Scope(log, disk, None), bootHead, Durable, Durable, Durable))
  {
    hide Bootstrap, Register, Sound;
    var v := Validate(a, log, bootHead, disk).0;
    var anchor := Supersedes(a, log, bootHead, v);
    BootstrapDurably(a, log, disk, bootHead);
    if anchor.Some? {
      AnchoredIsSound(a, log, bootHead, v);
      RegisterUnblocked(a, log, AnchoredAt(a, anchor.value), None);
      IdleScopeInv(a, log, AnchoredAt(a, anchor.value));
    } else {
      RegisterBlocked(a, log, v);
      ValidatedIsSound(a, log, bootHead, disk);
      RegisterUnblocked(a, log, v, None);
      IdleScopeInv(a, log, v);
    }
  }

  lemma AnchoredIsSound(a: Agent, log: seq<Entry>, bootHead: Id, c: Checkpoint)
    requires UniqueIds(log) && Supersedes(a, log, bootHead, c).Some?
    ensures Sound(a, log, AnchoredAt(a, Supersedes(a, log, bootHead, c).value))
  {
    if AnchorIndex(a, log, bootHead) >= 0 { VisibleUnique(a, log, AnchorIndex(a, log, bootHead)); }
  }

  lemma ValidatedIsSound(a: Agent, log: seq<Entry>, bootHead: Id, disk: Checkpoint)
    requires UniqueIds(log) && !a.syntheticHeldWindow && disk.stored
    requires Validate(a, log, bootHead, disk).0.blocked == NoBlock
    ensures Sound(a, log, Validate(a, log, bootHead, disk).0)
  {
    ValidatedCheckpointIsOrdered(a, log, bootHead, disk);
  }

  /** A blocked checkpoint opens the continuity circuit. */
  lemma RegisterBlocked(a: Agent, log: seq<Entry>, disk: Checkpoint)
    ensures Register(a, log, disk, None, disk.baselineId, disk.blocked, true, Durable).worker.value.failure == None
            <==> disk.blocked == NoBlock
  {
  }

  /** The first start of a scope, whatever becomes of its writes, skips no input: an eligible row behind the
      baseline it registers is covered by an artifact of the scope, or the scope never produced and the row
      is pre-boot history behind the first-run anchor. */
  lemma FirstStartSkipsNothing(a: Agent, log: seq<Entry>, bootHead: Id, supersede: Io, ensure: Io, row: nat)
    requires WellFormed(a) && UniqueIds(log) && row < |log| && Eligible(a, log[row])
    requires var started := StepRestart(a, Scope(log, ABSENT, None), bootHead, Durable, supersede, ensure);
             row < BaselineFloor(a, log, started.worker.value.baseline)
    ensures if NewestArtifact(a, log, |log|) >= 0 then exists i :: 0 <= i < |log| && Covers(a, log, i, row)
            else a.firstRunAnchor && row <= BootIndex(a, log, bootHead)
  {
    var baseline := FirstBaseline(a, log, bootHead).0;
    FirstRegisters(a, log, bootHead, supersede, ensure);
    if Resolve(a, log, bootHead) != Unprovable {
      ResolvedBaselineNeverSkips(a, log, bootHead, row);
      var i :| 0 <= i < |log| && Covers(a, log, i, row);
    } else {
      var k := AnchorIndex(a, log, bootHead);
      if k >= 0 { TargetIndexUnique(a, log, k); }
    }
  }

  lemma FirstRegisters(a: Agent, log: seq<Entry>, bootHead: Id, supersede: Io, ensure: Io)
    ensures StepRestart(a, Scope(log, ABSENT, None), bootHead, Durable, supersede, ensure).worker.value.baseline
            == FirstBaseline(a, log, bootHead).0
  {
  }
}
