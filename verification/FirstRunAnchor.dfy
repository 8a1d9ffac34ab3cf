/**
 The first-run anchor over whole runs of one process: rows may leave recall and
 new rows may land at any time between reconciliations, a live worker holds and
 clears windows and dead-letters their heads, while the boot head stays what it
 was when the store was loaded.
*/
module FirstRunAnchor {
  import opened Common
  import opened AmbientLog
  import opened AmbientContinuity
  import AmbientCursor

  /** Hide: a row leaves recall. Boot: a worker start takes its first baseline, or validates and then may
      supersede. LivePass: a pass of a running worker may supersede without validating. Hold, Clear and
      DeadLetter: the writes a running worker makes around its calls. */
  datatype Event = Hide(row: nat) | Append(entry: Entry) | Boot | LivePass | Hold(row: nat) | Clear | DeadLetter

  /** The scope with two tallies: supersessions written and visible rows hidden so far. */
  datatype Trail = Trail(log: seq<Entry>, checkpoint: Checkpoint, supersessions: nat, hidden: nat)

  function HideRow(log: seq<Entry>, i: nat): seq<Entry>
    requires i < |log|
  {
    log[i := log[i].(hidden := true)]
  }

  function Supersede(a: Agent, bootHead: Id, t: Trail): Trail {
    match Supersedes(a, t.log, bootHead, t.checkpoint)
    case Some(anchor) => t.(checkpoint := AnchoredAt(a, anchor), supersessions := t.supersessions + 1)
    case None => t
  }

  function Step(a: Agent, bootHead: Id, t: Trail, ev: Event): Trail {
    match ev
    case Hide(i) =>
      if i >= |t.log| then t else AfterHiding(t, i)
    case Append(e) =>
      if e.id == "" || exists i :: 0 <= i < |t.log| && t.log[i].id == e.id then t else t.(log := t.log + [e])
    case Boot =>
      if t.checkpoint.stored then Supersede(a, bootHead, Revalidated(a, bootHead, t))
      else t.(checkpoint := FirstCheckpoint(a, t.log, bootHead))
    case LivePass => Supersede(a, bootHead, t)
    case Hold(i) =>
      if Holdable(a, t, i)
      then t.(checkpoint := AmbientCursor.HeldCheckpoint(a, t.checkpoint, t.log[i].id, t.checkpoint.baselineId)) else t
    case Clear => t.(checkpoint := t.checkpoint.(windowId := ""))
    case DeadLetter =>
      if t.checkpoint.windowId == "" || t.checkpoint.blocked != NoBlock then t
      else t.(checkpoint := AmbientCursor.BaselineCheckpoint(a, t.checkpoint, t.checkpoint.windowId))
  }

  function Revalidated(a: Agent, bootHead: Id, t: Trail): Trail {
    t.(checkpoint := Validate(a, t.log, bootHead, t.checkpoint).0)
  }

  /** What the first start of a scope registers. */
  function FirstCheckpoint(a: Agent, log: seq<Entry>, bootHead: Id): Checkpoint {
    var (baseline, blocked, anchored) := FirstBaseline(a, log, bootHead);
    if anchored then AnchoredAt(a, baseline) else Stamp(a, ABSENT).(baselineId := baseline, blocked := blocked)
  }

  /** A row an unblocked worker may hold: one it may consume, after its baseline. */
  predicate Holdable(a: Agent, t: Trail, i: nat) {
    && t.checkpoint.stored && t.checkpoint.blocked == NoBlock
    && i < |t.log| && Eligible(a, t.log[i]) && BaselineFloor(a, t.log, t.checkpoint.baselineId) <= i
  }

  function Run(a: Agent, bootHead: Id, t: Trail, events: seq<Event>): Trail {
    if events == [] then t else Step(a, bootHead, Run(a, bootHead, t, events[..|events| - 1]), events[|events| - 1])
  }

  // ---- What a marked baseline means -------------------------------------------------

  /** The position of a baseline; the empty one is before every row. */
  function Position(a: Agent, log: seq<Entry>, b: Id): int {
    if b == "" then -1 else TargetIndex(a, log, b)
  }

  /** b is the empty baseline or an input of the scope, and no visible input lies between it and the boot head. */
  ghost predicate AnchorHolds(a: Agent, log: seq<Entry>, bootHead: Id, b: Id) {
    var k := Position(a, log, b);
    && k <= BootIndex(a, log, bootHead)
    && (b != "" ==> k >= 0 && InRoom(a, log[k]))
    && forall j :: k < j <= BootIndex(a, log, bootHead) ==> !VisibleInput(a, log[j])
  }

  /** An anchor, or an input past the boot head that a dead letter moved the baseline to. */
  ghost predicate Stands(a: Agent, log: seq<Entry>, bootHead: Id, b: Id) {
    AnchorHolds(a, log, bootHead, b) || TargetIndex(a, log, b) > BootIndex(a, log, bootHead)
  }

  /** A marked scope holds only inputs of its own, past the boot head while it has produced nothing. */
  ghost predicate HoldsOwn(a: Agent, log: seq<Entry>, bootHead: Id, windowId: Id) {
    windowId != "" ==>
      var w := TargetIndex(a, log, windowId);
      w >= 0 && InRoom(a, log[w]) && (NewestArtifact(a, log, |log|) < 0 ==> w > BootIndex(a, log, bootHead))
  }

  /** One more supersession than rows hidden, unless the baseline or the held row is gone. */
  predicate Credit(a: Agent, log: seq<Entry>, c: Checkpoint) {
    BaselineResolves(a, log, c) && (c.windowId == "" || Find(log, c.windowId) >= 0)
  }

  /** A scope that never produced stands, once marked, on an anchor or past the boot head; and every
      supersession after the first was paid for by a row that left recall. */
  ghost predicate Inv(a: Agent, bootHead: Id, t: Trail) {
    && UniqueIds(t.log)
    && (bootHead == "" || BootIndex(a, t.log, bootHead) >= 0)
    && (!t.checkpoint.stored ==> !t.checkpoint.firstRunAnchor)
    && (NewestArtifact(a, t.log, |t.log|) < 0 && t.checkpoint.firstRunAnchor ==>
          Stands(a, t.log, bootHead, t.checkpoint.baselineId))
    && (t.checkpoint.firstRunAnchor ==> HoldsOwn(a, t.log, bootHead, t.checkpoint.windowId))
    && (t.checkpoint.firstRunAnchor ==> t.supersessions <= t.hidden + if Credit(a, t.log, t.checkpoint) then 1 else 0)
    && (!t.checkpoint.firstRunAnchor ==> t.supersessions == 0)
  }

  // ---- Frames ------------------------------------------------------------------------

  lemma {:induction false} HideKeepsPositions(a: Agent, log: seq<Entry>, i: nat, id: Id, bootHead: Id)
    requires i < |log|
    ensures TargetIndex(a, HideRow(log, i), id) == TargetIndex(a, log, id)
    ensures BootIndex(a, HideRow(log, i), bootHead) == BootIndex(a, log, bootHead)
  {
    var n := |log| - 1;
    if i < n {
      HideKeepsPositions(a, log[..n], i, id, bootHead);
      assert HideRow(log, i)[..n] == HideRow(log[..n], i);
    } else {
      assert HideRow(log, i)[..n] == log[..n];
    }
  }

  lemma {:induction false} HideKeepsArtifacts(a: Agent, log: seq<Entry>, i: nat, k: nat)
    requires i < |log| && k <= |log|
    ensures NewestArtifact(a, HideRow(log, i), k) == NewestArtifact(a, log, k)
  {
    if k > 0 { HideKeepsArtifacts(a, log, i, k - 1); }
  }

  lemma {:induction false} AppendKeepsArtifacts(a: Agent, log: seq<Entry>, e: Entry, k: nat)
    requires k <= |log|
    ensures NewestArtifact(a, log + [e], k) == NewestArtifact(a, log, k)
  {
    if k > 0 { AppendKeepsArtifacts(a, log, e, k - 1); }
  }

  // ---- Re-anchoring --------------------------------------------------------------------

  /** An anchor is a fixed point: its own baseline resolves, so no later evaluation of the same
      rows supersedes it, whatever block reason the checkpoint acquires. */
  lemma AnchorIsFixedPoint(a: Agent, log: seq<Entry>, bootHead: Id, reason: Block)
    requires UniqueIds(log) && FirstRunAnchor(a, log, bootHead).Some?
    ensures var c := AnchoredAt(a, FirstRunAnchor(a, log, bootHead).value).(blocked := reason);
            BaselineResolves(a, log, c) && Supersedes(a, log, bootHead, c) == None
  {
    var k := AnchorIndex(a, log, bootHead);
    if k >= 0 { FindUnique(log, k); }
  }

  /** The anchor taken is the newest visible input at or before the boot head. */
  lemma AnchorTaken(a: Agent, log: seq<Entry>, bootHead: Id)
    requires UniqueIds(log) && FirstRunAnchor(a, log, bootHead).Some?
    ensures AnchorHolds(a, log, bootHead, FirstRunAnchor(a, log, bootHead).value)
    ensures var x := FirstRunAnchor(a, log, bootHead).value;
            BaselineFloor(a, log, x) == AnchorIndex(a, log, bootHead) + 1
  {
    var k := AnchorIndex(a, log, bootHead);
    if k >= 0 { TargetIndexUnique(a, log, k); }
    if bootHead == "" { NoBootRow(a, log); }
  }

  lemma {:induction false} NoBootRow(a: Agent, log: seq<Entry>)
    requires UniqueIds(log)
    ensures BootIndex(a, log, "") == -1
  {
    if log != [] { NoBootRow(a, log[..|log| - 1]); }
  }

  /** Re-anchoring a marked scope strictly lowers the position it resumes from. */
  lemma ReanchorMovesBack(a: Agent, log: seq<Entry>, bootHead: Id, c: Checkpoint)
    requires UniqueIds(log) && (bootHead == "" || BootIndex(a, log, bootHead) >= 0)
    requires c.firstRunAnchor && Stands(a, log, bootHead, c.baselineId)
    requires Supersedes(a, log, bootHead, c).Some?
    ensures BaselineFloor(a, log, Supersedes(a, log, bootHead, c).value) < BaselineFloor(a, log, c.baselineId)
  {
    AnchorTaken(a, log, bootHead);
    var k := TargetIndex(a, log, c.baselineId);
    assert c.baselineId != "";
    if bootHead != "" && !Hidden(log[k]) { FindUnique(log, k); }
  }

  // ---- Whole runs ------------------------------------------------------------------------

  lemma SupersedeKeepsInv(a: Agent, bootHead: Id, t: Trail)
    requires Inv(a, bootHead, t)
    ensures Inv(a, bootHead, Supersede(a, bootHead, t))
  {
    if Supersedes(a, t.log, bootHead, t.checkpoint).Some? {
      AnchorTaken(a, t.log, bootHead);
      AnchorIsFixedPoint(a, t.log, bootHead, NoBlock);
    }
  }

  /** A standing baseline that resolves does so to itself. */
  lemma MarkedBaselineIsKept(a: Agent, log: seq<Entry>, bootHead: Id, b: Id)
    requires WellFormed(a) && UniqueIds(log) && Stands(a, log, bootHead, b)
    ensures var (index, ok) := BaselineRef(a, log, b); index >= 0 ==> log[index].id == b
    ensures var (index, ok) := BaselineRef(a, log, b); ok && index < 0 ==> b == ""
  {
    var (index, ok) := BaselineRef(a, log, b);
    if index >= 0 { assert log[Find(log, b)].id == log[TargetIndex(a, log, b)].id; }
  }

  /** Validation can only keep a marked baseline, or drop it to the floor when nothing visible is left
      before the boot head, while nothing was produced. */
  lemma ValidateKeepsOrDrops(a: Agent, bootHead: Id, t: Trail)
    requires WellFormed(a) && Inv(a, bootHead, t) && t.checkpoint.firstRunAnchor
    requires NewestArtifact(a, t.log, |t.log|) < 0
    ensures var b := Validate(a, t.log, bootHead, t.checkpoint).0.baselineId;
            b == t.checkpoint.baselineId || (b == "" && AnchorHolds(a, t.log, bootHead, ""))
  {
    hide BaselineRef, HoldsOwn, Credit;
    MarkedBaselineIsKept(a, t.log, bootHead, t.checkpoint.baselineId);
    if bootHead == "" { NoBootRow(a, t.log); }
  }

  /** Validation never turns a baseline that resolves into one that does not. */
  lemma ValidateKeepsCredit(a: Agent, bootHead: Id, t: Trail)
    requires UniqueIds(t.log) && Credit(a, t.log, t.checkpoint)
    ensures Credit(a, t.log, Validate(a, t.log, bootHead, t.checkpoint).0)
  {
    hide Resolve, BaselineRef;
    var c := t.checkpoint;
    if Resolve(a, t.log, bootHead) != Unprovable { ResolvedBaselineIsAccepted(a, t.log, bootHead, c.windowId); }
    RefsAreStable(a, t.log, c.baselineId, c.windowId);
  }

  lemma ValidateKeepsInv(a: Agent, bootHead: Id, t: Trail)
    requires WellFormed(a) && Inv(a, bootHead, t) && t.checkpoint.stored
    ensures Inv(a, bootHead, Revalidated(a, bootHead, t))
  {
    hide Credit, AnchorHolds, HoldsOwn, BaselineRef, Resolve;
    if Credit(a, t.log, t.checkpoint) { ValidateKeepsCredit(a, bootHead, t); }
    if t.checkpoint.firstRunAnchor && NewestArtifact(a, t.log, |t.log|) < 0 { ValidateKeepsOrDrops(a, bootHead, t); }
  }

  lemma FirstCheckpointKeepsInv(a: Agent, bootHead: Id, t: Trail)
    requires Inv(a, bootHead, t) && !t.checkpoint.stored
    ensures Inv(a, bootHead, t.(checkpoint := FirstCheckpoint(a, t.log, bootHead)))
  {
    if FirstRunAnchor(a, t.log, bootHead).Some? {
      AnchorTaken(a, t.log, bootHead);
      AnchorIsFixedPoint(a, t.log, bootHead, NoBlock);
    }
  }

  /** What a marked scope may hold is past the boot head. */
  lemma HoldKeepsInv(a: Agent, bootHead: Id, t: Trail, i: nat)
    requires Inv(a, bootHead, t) && Holdable(a, t, i)
    ensures Inv(a, bootHead, Step(a, bootHead, t, Hold(i)))
  {
    TargetIndexUnique(a, t.log, i);
    FindUnique(t.log, i);
  }

  lemma DeadLetterKeepsInv(a: Agent, bootHead: Id, t: Trail)
    requires Inv(a, bootHead, t)
    ensures Inv(a, bootHead, Step(a, bootHead, t, DeadLetter))
  {
    var c := t.checkpoint;
    if c.firstRunAnchor && c.windowId != "" && Find(t.log, c.windowId) >= 0 {
      var w := TargetIndex(a, t.log, c.windowId);
      assert t.log[Find(t.log, c.windowId)].id == t.log[w].id;
    }
  }

  lemma HideKeepsStands(a: Agent, log: seq<Entry>, bootHead: Id, i: nat, b: Id)
    requires i < |log| && Stands(a, log, bootHead, b)
    ensures Stands(a, HideRow(log, i), bootHead, b)
  {
    HideKeepsPositions(a, log, i, b, bootHead);
  }

  lemma HideKeepsHolds(a: Agent, log: seq<Entry>, bootHead: Id, i: nat, windowId: Id)
    requires i < |log| && HoldsOwn(a, log, bootHead, windowId)
    ensures HoldsOwn(a, HideRow(log, i), bootHead, windowId)
  {
    HideKeepsPositions(a, log, i, windowId, bootHead);
    HideKeepsArtifacts(a, log, i, |log|);
  }

  lemma HideKeepsInv(a: Agent, bootHead: Id, t: Trail, i: nat)
    requires Inv(a, bootHead, t) && i < |t.log|
    ensures Inv(a, bootHead, AfterHiding(t, i))
  {
    hide Stands, HoldsOwn, Credit;
    var c := t.checkpoint;
    HideKeepsPositions(a, t.log, i, "", bootHead);
    HideKeepsArtifacts(a, t.log, i, |t.log|);
    if Stands(a, t.log, bootHead, c.baselineId) { HideKeepsStands(a, t.log, bootHead, i, c.baselineId); }
    if HoldsOwn(a, t.log, bootHead, c.windowId) { HideKeepsHolds(a, t.log, bootHead, i, c.windowId); }
    if Hidden(t.log[i]) { HidingHiddenKeepsCredit(a, t.log, i, c); }
  }

  lemma HidingHiddenKeepsCredit(a: Agent, log: seq<Entry>, i: nat, c: Checkpoint)
    requires UniqueIds(log) && i < |log| && Hidden(log[i])
    ensures Credit(a, HideRow(log, i), c) == Credit(a, log, c)
  {
    HidingHiddenChangesNothing(a, log, i, c.baselineId);
    HiddenFind(log, i, c.windowId);
  }

  /** The trail with row i hidden. */
  function AfterHiding(t: Trail, i: nat): Trail
    requires i < |t.log|
  {
    t.(log := HideRow(t.log, i), hidden := t.hidden + if Hidden(t.log[i]) then 0 else 1)
  }

  lemma HidingHiddenChangesNothing(a: Agent, log: seq<Entry>, i: nat, b: Id)
    requires i < |log| && Hidden(log[i]) && UniqueIds(log)
    ensures BaselineRef(a, HideRow(log, i), b) == BaselineRef(a, log, b)
  {
    HiddenFind(log, i, b);
    var k := Find(log, b);
    if k >= 0 {
      assert HideRow(log, i)[k] == log[k];
      HiddenFind(log, i, log[k].cursor);
      HiddenNewest(a, log, i, k);
    }
  }

  lemma {:induction false} HiddenFind(log: seq<Entry>, i: nat, id: Id)
    requires i < |log| && Hidden(log[i])
    ensures Find(HideRow(log, i), id) == Find(log, id)
  {
    var n := |log| - 1;
    if i < n {
      HiddenFind(log[..n], i, id);
      assert HideRow(log, i)[..n] == HideRow(log[..n], i);
    } else {
      assert HideRow(log, i)[..n] == log[..n];
    }
  }

  lemma {:induction false} HiddenNewest(a: Agent, log: seq<Entry>, i: nat, position: int)
    requires i < |log| && Hidden(log[i]) && -1 <= position < |log|
    ensures NewestVisible(a, HideRow(log, i), position) == NewestVisible(a, log, position)
    decreases position + 1
  {
    if position >= 0 { HiddenNewest(a, log, i, position - 1); }
  }

  lemma AppendKeepsInv(a: Agent, bootHead: Id, t: Trail, e: Entry)
    requires Inv(a, bootHead, t) && Fresh(t.log, e)
    ensures Inv(a, bootHead, t.(log := t.log + [e]))
  {
    hide Stands, HoldsOwn, Credit;
    var c, log' := t.checkpoint, t.log + [e];
    AppendKeepsArtifacts(a, t.log, e, |t.log|);
    AppendKeepsBoot(a, t.log, bootHead, e);
    if Stands(a, t.log, bootHead, c.baselineId) { AppendKeepsStands(a, t.log, bootHead, e, c.baselineId); }
    if HoldsOwn(a, t.log, bootHead, c.windowId) { AppendKeepsHolds(a, t.log, bootHead, e, c.windowId); }
    if Credit(a, t.log, c) { AppendKeepsCredit(a, t.log, e, c); }
  }

  lemma AppendKeepsHolds(a: Agent, log: seq<Entry>, bootHead: Id, e: Entry, windowId: Id)
    requires UniqueIds(log) && Fresh(log, e) && HoldsOwn(a, log, bootHead, windowId)
    requires bootHead == "" || BootIndex(a, log, bootHead) >= 0
    ensures HoldsOwn(a, log + [e], bootHead, windowId)
  {
    AppendKeepsArtifacts(a, log, e, |log|);
    AppendKeepsBoot(a, log, bootHead, e);
    AppendKeepsTargets(a, log, e, windowId);
  }

  lemma AppendKeepsCredit(a: Agent, log: seq<Entry>, e: Entry, c: Checkpoint)
    requires Fresh(log, e) && Credit(a, log, c)
    ensures Credit(a, log + [e], c)
  {
    assert (log + [e])[..|log|] == log;
    ResolvedStays(a, log, e, c.baselineId);
  }

  lemma AppendKeepsBoot(a: Agent, log: seq<Entry>, bootHead: Id, e: Entry)
    requires UniqueIds(log) && Fresh(log, e) && (bootHead == "" || BootIndex(a, log, bootHead) >= 0)
    ensures BootIndex(a, log + [e], bootHead) == BootIndex(a, log, bootHead)
  {
    assert (log + [e])[..|log|] == log;
  }

  lemma AppendKeepsStands(a: Agent, log: seq<Entry>, bootHead: Id, e: Entry, b: Id)
    requires UniqueIds(log) && Fresh(log, e) && Stands(a, log, bootHead, b)
    requires bootHead == "" || BootIndex(a, log, bootHead) >= 0
    ensures Stands(a, log + [e], bootHead, b)
  {
    AppendKeepsBoot(a, log, bootHead, e);
    AppendKeepsTargets(a, log, e, b);
  }

  lemma ResolvedStays(a: Agent, log: seq<Entry>, e: Entry, b: Id)
    requires Fresh(log, e) && BaselineRef(a, log, b).1
    ensures BaselineRef(a, log + [e], b).1
  {
    assert (log + [e])[..|log|] == log;
    var k := Find(log, b);
    if k >= 0 {
      assert Find(log + [e], b) == k;
      assert Find(log, log[k].cursor) >= 0 ==> Find(log + [e], log[k].cursor) == Find(log, log[k].cursor);
      NewestStays(a, log, e, k);
    }
  }

  lemma {:induction false} NewestStays(a: Agent, log: seq<Entry>, e: Entry, position: int)
    requires -1 <= position < |log|
    ensures NewestVisible(a, log + [e], position) == NewestVisible(a, log, position)
    decreases position + 1
  {
    if position >= 0 { NewestStays(a, log, e, position - 1); }
  }

  lemma ClearKeepsInv(a: Agent, bootHead: Id, t: Trail)
    requires Inv(a, bootHead, t)
    ensures Inv(a, bootHead, Step(a, bootHead, t, Clear))
  {
  }

  lemma StepKeepsInv(a: Agent, bootHead: Id, t: Trail, ev: Event)
    requires WellFormed(a) && Inv(a, bootHead, t)
    ensures Inv(a, bootHead, Step(a, bootHead, t, ev))
  {
    match ev
    case Hide(i) => if i < |t.log| { HideKeepsInv(a, bootHead, t, i); }
    case Append(e) =>
      if Step(a, bootHead, t, ev) != t { AppendKeepsInv(a, bootHead, t, e); }
    case Boot =>
      if t.checkpoint.stored {
        ValidateKeepsInv(a, bootHead, t);
        SupersedeKeepsInv(a, bootHead, Revalidated(a, bootHead, t));
      } else {
        FirstCheckpointKeepsInv(a, bootHead, t);
      }
    case LivePass => SupersedeKeepsInv(a, bootHead, t);
    case Hold(i) => if Holdable(a, t, i) { HoldKeepsInv(a, bootHead, t, i); }
    case Clear => ClearKeepsInv(a, bootHead, t);
    case DeadLetter => DeadLetterKeepsInv(a, bootHead, t);
  }

  lemma {:induction false} RunKeepsInv(a: Agent, bootHead: Id, t: Trail, events: seq<Event>)
    requires WellFormed(a) && Inv(a, bootHead, t)
    ensures Inv(a, bootHead, Run(a, bootHead, t, events))
  {
    if events != [] {
      RunKeepsInv(a, bootHead, t, events[..|events| - 1]);
      StepKeepsInv(a, bootHead, Run(a, bootHead, t, events[..|events| - 1]), events[|events| - 1]);
    }
  }

  /** However rows land and leave recall, and however the worker starts, holds, clears and dead-letters in
      between, a scope supersedes its block at most once plus once for every row that actually left recall. */
  lemma SupersessionsAreBounded(a: Agent, bootHead: Id, t: Trail, events: seq<Event>)
    requires WellFormed(a) && UniqueIds(t.log) && (bootHead == "" || BootIndex(a, t.log, bootHead) >= 0)
    requires !t.checkpoint.firstRunAnchor && t.supersessions == 0 && t.hidden == 0
    ensures Run(a, bootHead, t, events).supersessions <= 1 + Run(a, bootHead, t, events).hidden
  {
    RunKeepsInv(a, bootHead, t, events);
  }

  /** Throughout any run, a marked scope that has produced nothing stands on an anchor, with no visible
      input between it and the boot head, or on an input past the boot head. */
  lemma MarkedBaselineStands(a: Agent, bootHead: Id, t: Trail, events: seq<Event>)
    requires WellFormed(a) && UniqueIds(t.log) && (bootHead == "" || BootIndex(a, t.log, bootHead) >= 0)
    requires !t.checkpoint.firstRunAnchor && t.supersessions == 0 && t.hidden == 0
    ensures var u := Run(a, bootHead, t, events);
            u.checkpoint.firstRunAnchor && NewestArtifact(a, u.log, |u.log|) < 0 ==>
              Stands(a, u.log, bootHead, u.checkpoint.baselineId)
  {
    RunKeepsInv(a, bootHead, t, events);
  }

  lemma LivePassMovesBack(a: Agent, bootHead: Id, t: Trail)
    requires Inv(a, bootHead, t) && t.checkpoint.firstRunAnchor
    ensures var u := Supersede(a, bootHead, t);
            u.supersessions > t.supersessions ==>
              BaselineFloor(a, t.log, u.checkpoint.baselineId) < BaselineFloor(a, t.log, t.checkpoint.baselineId)
  {
    if Supersedes(a, t.log, bootHead, t.checkpoint).Some? { ReanchorMovesBack(a, t.log, bootHead, t.checkpoint); }
  }

  lemma BootMovesBack(a: Agent, bootHead: Id, t: Trail)
    requires WellFormed(a) && Inv(a, bootHead, t) && t.checkpoint.firstRunAnchor
    ensures var u := Step(a, bootHead, t, Boot);
            u.supersessions > t.supersessions ==>
              BaselineFloor(a, t.log, u.checkpoint.baselineId) < BaselineFloor(a, t.log, t.checkpoint.baselineId)
  {
    hide Stands, HoldsOwn, Credit, BaselineRef, Resolve;
    var w := Revalidated(a, bootHead, t);
    if Supersedes(a, t.log, bootHead, w.checkpoint).Some? {
      ValidateKeepsInv(a, bootHead, t);
      LivePassMovesBack(a, bootHead, w);
      ValidateKeepsOrDrops(a, bootHead, t);
    }
  }

  /** In any such run, a reconciliation that re-anchors a marked scope moves it strictly back. */
  lemma EveryReanchorMovesBack(a: Agent, bootHead: Id, t: Trail, events: seq<Event>, ev: Event)
    requires WellFormed(a) && UniqueIds(t.log) && (bootHead == "" || BootIndex(a, t.log, bootHead) >= 0)
    requires !t.checkpoint.firstRunAnchor && t.supersessions == 0 && t.hidden == 0
    requires Run(a, bootHead, t, events).checkpoint.firstRunAnchor
    requires Run(a, bootHead, t, events + [ev]).supersessions > Run(a, bootHead, t, events).supersessions
    ensures var u := Run(a, bootHead, t, events); var v := Run(a, bootHead, t, events + [ev]);
            BaselineFloor(a, u.log, v.checkpoint.baselineId) < BaselineFloor(a, u.log, u.checkpoint.baselineId)
  {
    RunKeepsInv(a, bootHead, t, events);
    var u := Run(a, bootHead, t, events);
    assert (events + [ev])[..|events|] == events;
    match ev
    case Hide(_) =>
    case Append(_) =>
    case Boot => BootMovesBack(a, bootHead, u);
    case LivePass => LivePassMovesBack(a, bootHead, u);
    case Hold(_) =>
    case Clear =>
    case DeadLetter =>
  }
}
