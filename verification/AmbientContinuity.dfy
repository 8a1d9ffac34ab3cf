/**
 Where a worker resumes: the durable checkpoint of a scope, the resolver that
 rebuilds a baseline from artifact evidence, the validator that normalises a
 checkpoint against the log, and the opt-in first-run anchor.
*/
module AmbientContinuity {
  import opened Common
  import opened AmbientLog

  datatype Block = NoBlock | Ambiguous | CheckpointInvalid | HeldWindowInvalid | ContractMismatch | OtherBlock

  /** The durable sidecar row of one scope; `stored` is false while the sidecar has none. */
  datatype Checkpoint = Checkpoint(
    agent: string, room: string, inputKind: string, artifactKind: string, cursorKey: string,
    windowId: Id, baselineId: Id, blocked: Block, firstRunAnchor: bool, stored: bool)

  /** What reading a missing row yields. */
  const ABSENT := Checkpoint("", "", "", "", "", "", "", NoBlock, false, false)

  // ---- Lookups ----------------------------------------------------------------

  predicate VisibleInput(a: Agent, e: Entry) { e.kind == a.inputKind && !Hidden(e) && InRoom(a, e) }

  predicate ScopeInput(a: Agent, e: Entry) { e.kind == a.inputKind && !e.canary && InRoom(a, e) }

  /** Production evidence: hidden artifacts count, soak canaries do not. */
  predicate Produced(a: Agent, e: Entry) { e.kind == a.artifactKind && !e.canary && InRoom(a, e) }

  /** The newest visible row with this id, or -1. */
  function Find(log: seq<Entry>, id: Id): (r: int)
    ensures -1 <= r < |log|
    ensures r >= 0 ==> log[r].id == id && !Hidden(log[r])
  {
    if log == [] then -1
    else if log[|log| - 1].id == id && !Hidden(log[|log| - 1]) then |log| - 1
    else Find(log[..|log| - 1], id)
  }

  function NewestVisible(a: Agent, log: seq<Entry>, position: int): (r: int)
    requires -1 <= position < |log|
    ensures -1 <= r <= position
    ensures r >= 0 ==> VisibleInput(a, log[r])
    ensures forall j :: r < j <= position ==> !VisibleInput(a, log[j])
    decreases position + 1
  {
    if position < 0 then -1
    else if VisibleInput(a, log[position]) then position
    else NewestVisible(a, log, position - 1)
  }

  function VisibleIndex(a: Agent, log: seq<Entry>, id: Id): (r: int)
    ensures -1 <= r < |log|
    ensures r >= 0 ==> log[r].id == id && VisibleInput(a, log[r])
  {
    if log == [] then -1
    else if log[|log| - 1].id == id && VisibleInput(a, log[|log| - 1]) then |log| - 1
    else VisibleIndex(a, log[..|log| - 1], id)
  }

  function ScopeIndex(a: Agent, log: seq<Entry>, id: Id): (r: int)
    ensures -1 <= r < |log|
    ensures r >= 0 ==> log[r].id == id && ScopeInput(a, log[r])
  {
    if log == [] then -1
    else if log[|log| - 1].id == id && ScopeInput(a, log[|log| - 1]) then |log| - 1
    else ScopeIndex(a, log[..|log| - 1], id)
  }

  lemma {:induction false} FindUnique(log: seq<Entry>, i: nat)
    requires UniqueIds(log) && i < |log| && !Hidden(log[i])
    ensures Find(log, log[i].id) == i
  {
    if i < |log| - 1 { FindUnique(log[..|log| - 1], i); }
  }

  // ---- The resolver -------------------------------------------------------------

  datatype Evidence = Unresolved | Resolved(index: int)

  /** How far artifact row i proves consumption: -1 means it consumed nothing still visible. */
  function EvidenceOf(a: Agent, log: seq<Entry>, i: nat): (r: Evidence)
    requires i < |log|
    ensures r.Resolved? ==> -1 <= r.index < |log| && (r.index >= 0 ==> VisibleInput(a, log[r.index]))
  {
    var cursor := log[i].cursor;
    if cursor == "" then Resolved(NewestVisible(a, log, i))
    else if VisibleIndex(a, log, cursor) >= 0 then Resolved(VisibleIndex(a, log, cursor))
    else if ScopeIndex(a, log, cursor) >= 0 then Resolved(NewestVisible(a, log, ScopeIndex(a, log, cursor)))
    else Unresolved
  }

  /** The furthest evidence among the first k rows. */
  function Furthest(a: Agent, log: seq<Entry>, k: nat): (r: int)
    requires k <= |log|
    ensures -1 <= r < |log| && (r >= 0 ==> VisibleInput(a, log[r]))
  {
    if k == 0 then -1
    else
      var rest := Furthest(a, log, k - 1);
      if Produced(a, log[k - 1]) && EvidenceOf(a, log, k - 1).Resolved? && EvidenceOf(a, log, k - 1).index > rest
      then EvidenceOf(a, log, k - 1).index else rest
  }

  function NewestArtifact(a: Agent, log: seq<Entry>, k: nat): (r: int)
    requires k <= |log|
    ensures -1 <= r < k && (r >= 0 ==> Produced(a, log[r]))
    ensures forall j :: r < j < k ==> !Produced(a, log[j])
  {
    if k == 0 then -1 else if Produced(a, log[k - 1]) then k - 1 else NewestArtifact(a, log, k - 1)
  }

  predicate HasInput(a: Agent, log: seq<Entry>) { NewestVisible(a, log, |log| - 1) >= 0 }

  datatype Continuity = Clean | At(baseline: Id) | Unprovable

  /** The baseline that durable truth supports. `bootHead` is the scope's newest pre-boot input. */
  function Resolve(a: Agent, log: seq<Entry>, bootHead: Id): Continuity {
    var newest := NewestArtifact(a, log, |log|);
    if newest >= 0 then
      if EvidenceOf(a, log, newest).Unresolved? then Unprovable
      else if Furthest(a, log, |log|) >= 0 then At(log[Furthest(a, log, |log|)].id)
      else if HasInput(a, log) then Unprovable else Clean
    else if HasInput(a, log) && bootHead != "" then Unprovable
    else Clean
  }

  ghost predicate IndexesVisible(a: Agent, log: seq<Entry>, m: map<Id, nat>) {
    forall id :: (id in m <==> VisibleIndex(a, log, id) >= 0) && (id in m ==> m[id] == VisibleIndex(a, log, id))
  }

  ghost predicate IndexesScope(a: Agent, log: seq<Entry>, m: map<Id, nat>) {
    forall id :: (id in m <==> ScopeIndex(a, log, id) >= 0) && (id in m ==> m[id] == ScopeIndex(a, log, id))
  }

  lemma IndexStep(a: Agent, log: seq<Entry>, i: nat, visible: map<Id, nat>, inScope: map<Id, nat>)
    requires i < |log| && IndexesVisible(a, log[..i], visible) && IndexesScope(a, log[..i], inScope)
    ensures IndexesVisible(a, log[..i + 1], if VisibleInput(a, log[i]) then visible[log[i].id := i] else visible)
    ensures IndexesScope(a, log[..i + 1], if ScopeInput(a, log[i]) then inScope[log[i].id := i] else inScope)
  {
    assert log[..i + 1][..i] == log[..i];
  }

  /** The two index maps the resolver builds in one pass over the log. */
  method IndexInputs(a: Agent, log: seq<Entry>)
    returns (hasInput: bool, visible: map<Id, nat>, inScope: map<Id, nat>)
    ensures hasInput == HasInput(a, log)
    ensures IndexesVisible(a, log, visible) && IndexesScope(a, log, inScope)
  {
    hasInput, visible, inScope := false, map[], map[];
    for i := 0 to |log|
      invariant hasInput == (NewestVisible(a, log, i - 1) >= 0)
      invariant IndexesVisible(a, log[..i], visible) && IndexesScope(a, log[..i], inScope)
    {
      IndexStep(a, log, i, visible, inScope);
      if ScopeInput(a, log[i]) {
        inScope := inScope[log[i].id := i];
        if !Hidden(log[i]) {
          hasInput := true;
          visible := visible[log[i].id := i];
        }
      }
    }
    assert log[..|log|] == log;
  }

  /** How far one artifact proves consumption, by the index maps. */
  method ReadEvidence(a: Agent, log: seq<Entry>, i: nat, visible: map<Id, nat>, inScope: map<Id, nat>)
    returns (candidate: int, resolved: bool)
    requires i < |log| && IndexesVisible(a, log, visible) && IndexesScope(a, log, inScope)
    ensures EvidenceOf(a, log, i) == if resolved then Resolved(candidate) else Unresolved
  {
    var cursor := log[i].cursor;
    candidate, resolved := -1, false;
    if cursor == "" {
      candidate, resolved := NewestVisible(a, log, i), true;
    } else if cursor in visible {
      candidate, resolved := visible[cursor], true;
    } else if cursor in inScope {
      candidate, resolved := NewestVisible(a, log, inScope[cursor]), true;
    }
  }

  /** The resolver's walk over every artifact of the scope. */
  method ResolveContinuity(a: Agent, log: seq<Entry>, bootHead: Id) returns (r: Continuity)
    ensures r == Resolve(a, log, bootHead)
  {
    var hasInput, visible, inScope := IndexInputs(a, log);
    var producedAny, newestResolved, resolvedIndex := false, false, -1;
    for i := 0 to |log|
      invariant producedAny == (NewestArtifact(a, log, i) >= 0)
      invariant producedAny ==> newestResolved == EvidenceOf(a, log, NewestArtifact(a, log, i)).Resolved?
      invariant resolvedIndex == Furthest(a, log, i)
    {
      if Produced(a, log[i]) {
        var candidate, resolved := ReadEvidence(a, log, i, visible, inScope);
        producedAny, newestResolved := true, resolved;
        if resolved && candidate > resolvedIndex { resolvedIndex := candidate; }
      }
    }
    if producedAny {
      if !newestResolved { return Unprovable; }
      if resolvedIndex >= 0 { return At(log[resolvedIndex].id); }
      if !hasInput { return Clean; }
      return Unprovable;
    }
    if hasInput && bootHead != "" { return Unprovable; }
    return Clean;
  }

  // ---- The reference normaliser -----------------------------------------------

  datatype Refs = Refs(baseline: Id, index: int, baselineOk: bool, windowOk: bool)

  /** A baseline resolved to an input of this scope: (position, accepted). An artifact id is
      accepted as migration input when it carries a proven cursor. */
  function BaselineRef(a: Agent, log: seq<Entry>, baselineId: Id): (r: (int, bool))
    ensures -1 <= r.0 < |log| && (r.0 >= 0 ==> r.1 && VisibleInput(a, log[r.0]))
  {
    if baselineId == "" then (-1, true) else
    var k := Find(log, baselineId);
    if k < 0 || !InRoom(a, log[k]) then (-1, false)
    else if log[k].kind == a.inputKind then (k, true)
    else if log[k].kind != a.artifactKind then (-1, false)
    else if log[k].cursor != "" then
      var c := Find(log, log[k].cursor);
      if c >= 0 && log[c].kind == a.inputKind && InRoom(a, log[c]) && c <= k then (c, true) else (-1, false)
    else
      var c := NewestVisible(a, log, k);
      (c, c >= 0)
  }

  function NormalizeRefs(a: Agent, log: seq<Entry>, baselineId: Id, windowId: Id): Refs {
    var (index, ok) := BaselineRef(a, log, baselineId);
    var w := Find(log, windowId);
    Refs(
      if index >= 0 then log[index].id else "", index, ok,
      windowId == "" || a.syntheticHeldWindow ||
      (w >= 0 && log[w].kind == a.inputKind && InRoom(a, log[w]) && (!ok || index < 0 || w > index)))
  }

  // ---- The validator -------------------------------------------------------------

  predicate Mismatch(stored: string, current: string) { stored != "" && stored != current }

  predicate ContractBroken(a: Agent, c: Checkpoint) {
    || Mismatch(c.agent, a.name) || Mismatch(c.room, a.scopeRoom) || Mismatch(c.inputKind, a.inputKind)
    || Mismatch(c.artifactKind, a.artifactKind) || Mismatch(c.cursorKey, a.cursorKey)
  }

  function Stamp(a: Agent, c: Checkpoint): Checkpoint {
    c.(agent := a.name, room := a.scopeRoom, inputKind := a.inputKind,
       artifactKind := a.artifactKind, cursorKey := a.cursorKey, stored := true)
  }

  function BaselineOf(c: Continuity): Id { if c.At? then c.baseline else "" }

  /** The validated checkpoint and whether it must be rewritten. */
  function Validate(a: Agent, log: seq<Entry>, bootHead: Id, c: Checkpoint): (Checkpoint, bool) {
    var stamped := Stamp(a, c);
    var refs := NormalizeRefs(a, log, c.baselineId, c.windowId);
    if !refs.windowOk then (stamped.(blocked := HeldWindowInvalid), true)
    else if refs.baselineOk && !ContractBroken(a, c) && c.blocked == NoBlock then
      (stamped.(baselineId := refs.baseline), stamped.(baselineId := refs.baseline) != c)
    else
      var recovered := Resolve(a, log, bootHead);
      if recovered == Unprovable then (stamped.(blocked := Ambiguous), true)
      else
        var again := NormalizeRefs(a, log, BaselineOf(recovered), c.windowId);
        if again.baselineOk && again.windowOk then
          (stamped.(baselineId := BaselineOf(recovered), blocked := NoBlock), true)
        else
          (stamped.(blocked := if ContractBroken(a, c) then ContractMismatch else CheckpointInvalid), true)
  }

  // ---- The first-run anchor --------------------------------------------------------

  /** The last row carrying the boot head's id, or -1. */
  function BootIndex(a: Agent, log: seq<Entry>, bootHead: Id): (r: int)
    ensures -1 <= r < |log|
    ensures r >= 0 ==> log[r].id == bootHead && log[r].kind == a.inputKind
  {
    if log == [] then -1
    else if log[|log| - 1].id == bootHead && log[|log| - 1].kind == a.inputKind then |log| - 1
    else BootIndex(a, log[..|log| - 1], bootHead)
  }

  /** The position a never-produced scope may start behind; -1 is the empty baseline. */
  function AnchorIndex(a: Agent, log: seq<Entry>, bootHead: Id): (r: int)
    ensures -1 <= r < |log| && (r >= 0 ==> VisibleInput(a, log[r]))
  {
    if bootHead == "" then -1 else NewestVisible(a, log, BootIndex(a, log, bootHead))
  }

  function IdAt(log: seq<Entry>, i: int): Id
    requires -1 <= i < |log|
  {
    if i < 0 then "" else log[i].id
  }

  function FirstRunAnchor(a: Agent, log: seq<Entry>, bootHead: Id): Option<Id> {
    if !a.firstRunAnchor || NewestArtifact(a, log, |log|) >= 0 then None
    else Some(IdAt(log, AnchorIndex(a, log, bootHead)))
  }

  predicate Answerable(b: Block) { b == Ambiguous || b == CheckpointInvalid || b == ContractMismatch }

  predicate BaselineResolves(a: Agent, log: seq<Entry>, c: Checkpoint) {
    NormalizeRefs(a, log, c.baselineId, c.windowId).baselineOk
  }

  /** The anchor that may replace this blocked checkpoint, if any. */
  function Supersedes(a: Agent, log: seq<Entry>, bootHead: Id, c: Checkpoint): Option<Id> {
    if !a.firstRunAnchor || (c.firstRunAnchor && BaselineResolves(a, log, c)) || c.windowId != ""
        || !Answerable(c.blocked)
    then None
    else FirstRunAnchor(a, log, bootHead)
  }

  function AnchoredAt(a: Agent, anchor: Id): Checkpoint {
    Checkpoint(a.name, a.scopeRoom, a.inputKind, a.artifactKind, a.cursorKey, "", anchor, NoBlock, true, true)
  }

  /** What a start without a stored checkpoint resolves: baseline, block, and whether it is an anchor. */
  function FirstBaseline(a: Agent, log: seq<Entry>, bootHead: Id): (Id, Block, bool) {
    var resolved := Resolve(a, log, bootHead);
    if resolved != Unprovable then (BaselineOf(resolved), NoBlock, false)
    else
      match FirstRunAnchor(a, log, bootHead)
      case Some(anchor) => (anchor, NoBlock, true)
      case None => ("", Ambiguous, false)
  }

  // ---- Resolver and validator agree -------------------------------------------------

  /** An unambiguous baseline is accepted unchanged by the reference normaliser. */
  lemma ResolvedBaselineIsAccepted(a: Agent, log: seq<Entry>, bootHead: Id, windowId: Id)
    requires UniqueIds(log) && Resolve(a, log, bootHead) != Unprovable
    ensures var b := BaselineOf(Resolve(a, log, bootHead));
            NormalizeRefs(a, log, b, windowId).baselineOk && NormalizeRefs(a, log, b, windowId).baseline == b
  {
    var k := Furthest(a, log, |log|);
    if k >= 0 { FindUnique(log, k); }
  }

  /** Whether artifact row i covers position k: its cursor, or its own slot, is at or past k. */
  predicate Covers(a: Agent, log: seq<Entry>, i: nat, k: nat)
    requires i < |log|
  {
    Produced(a, log[i]) &&
    (if log[i].cursor == "" then k <= i else k <= ScopeIndex(a, log, log[i].cursor))
  }

  lemma {:induction false} FurthestIsCovered(a: Agent, log: seq<Entry>, k: nat)
    requires UniqueIds(log) && k <= |log| && Furthest(a, log, k) >= 0
    ensures exists i :: 0 <= i < k && Covers(a, log, i, Furthest(a, log, k))
  {
    var best := Furthest(a, log, k);
    if k > 0 && best == Furthest(a, log, k - 1) {
      FurthestIsCovered(a, log, k - 1);
    } else {
      var cursor := log[k - 1].cursor;
      if cursor != "" && VisibleIndex(a, log, cursor) >= 0 { ScopeUnique(a, log, VisibleIndex(a, log, cursor)); }
      assert Covers(a, log, k - 1, best);
    }
  }

  lemma {:induction false} ScopeUnique(a: Agent, log: seq<Entry>, i: nat)
    requires UniqueIds(log) && i < |log| && ScopeInput(a, log[i])
    ensures ScopeIndex(a, log, log[i].id) == i
  {
    if i < |log| - 1 { ScopeUnique(a, log[..|log| - 1], i); }
  }

  /** The resolved baseline never passes an input that no artifact of the scope covers. */
  lemma ResolvedBaselineNeverSkips(a: Agent, log: seq<Entry>, bootHead: Id, row: nat)
    requires WellFormed(a) && UniqueIds(log) && row < |log| && Eligible(a, log[row])
    requires Resolve(a, log, bootHead) != Unprovable
    requires row < BaselineFloor(a, log, BaselineOf(Resolve(a, log, bootHead)))
    ensures exists i :: 0 <= i < |log| && Covers(a, log, i, row)
  {
    var k := Furthest(a, log, |log|);
    assert k >= 0;
    TargetIndexUnique(a, log, k);
    FurthestIsCovered(a, log, |log|);
    var i :| 0 <= i < |log| && Covers(a, log, i, k);
    assert Covers(a, log, i, row);
  }

  lemma ValidatedBaselineIsVisible(a: Agent, log: seq<Entry>, bootHead: Id, c: Checkpoint)
    requires UniqueIds(log) && Validate(a, log, bootHead, c).0.blocked == NoBlock
    ensures var v := Validate(a, log, bootHead, c).0; v.baselineId != "" ==> VisibleIndex(a, log, v.baselineId) >= 0
  {
    var i := NormalizeRefs(a, log, c.baselineId, c.windowId).index;
    var k := Furthest(a, log, |log|);
    if i >= 0 { VisibleUnique(a, log, i); }
    if k >= 0 { VisibleUnique(a, log, k); }
  }

  /** An accepted window is ahead of the accepted baseline. */
  lemma AcceptedWindowIsAhead(a: Agent, log: seq<Entry>, baselineId: Id, windowId: Id)
    requires UniqueIds(log) && !a.syntheticHeldWindow && windowId != ""
    requires var refs := NormalizeRefs(a, log, baselineId, windowId); refs.baselineOk && refs.windowOk
    ensures VisibleIndex(a, log, NormalizeRefs(a, log, baselineId, windowId).baseline) < VisibleIndex(a, log, windowId)
  {
    var i, w := BaselineRef(a, log, baselineId).0, Find(log, windowId);
    VisibleUnique(a, log, w);
    if i >= 0 { VisibleUnique(a, log, i); }
    NoEmptyId(a, log);
  }

  lemma ValidatedWindowIsAhead(a: Agent, log: seq<Entry>, bootHead: Id, c: Checkpoint)
    requires UniqueIds(log) && !a.syntheticHeldWindow && c.windowId != ""
    requires Validate(a, log, bootHead, c).0.blocked == NoBlock
    ensures var v := Validate(a, log, bootHead, c).0;
            v.windowId == c.windowId && VisibleIndex(a, log, v.baselineId) < VisibleIndex(a, log, v.windowId)
  {
    hide NormalizeRefs, Resolve;
    var refs := NormalizeRefs(a, log, c.baselineId, c.windowId);
    var recovered := Resolve(a, log, bootHead);
    if refs.baselineOk && !ContractBroken(a, c) && c.blocked == NoBlock {
      AcceptedWindowIsAhead(a, log, c.baselineId, c.windowId);
    } else {
      ResolvedBaselineIsAccepted(a, log, bootHead, c.windowId);
      AcceptedWindowIsAhead(a, log, BaselineOf(recovered), c.windowId);
    }
  }

  /** An unblocked validated checkpoint stands on a visible input strictly before its held window. */
  lemma ValidatedCheckpointIsOrdered(a: Agent, log: seq<Entry>, bootHead: Id, c: Checkpoint)
    requires UniqueIds(log) && !a.syntheticHeldWindow
    requires Validate(a, log, bootHead, c).0.blocked == NoBlock
    ensures var v := Validate(a, log, bootHead, c).0;
            && (v.baselineId != "" ==> VisibleIndex(a, log, v.baselineId) >= 0)
            && v.windowId == c.windowId
            && (v.windowId != "" ==> VisibleIndex(a, log, v.baselineId) < VisibleIndex(a, log, v.windowId))
  {
    ValidatedBaselineIsVisible(a, log, bootHead, c);
    if c.windowId != "" { ValidatedWindowIsAhead(a, log, bootHead, c); }
  }

  lemma {:induction false} VisibleUnique(a: Agent, log: seq<Entry>, i: nat)
    requires UniqueIds(log) && i < |log| && VisibleInput(a, log[i])
    ensures VisibleIndex(a, log, log[i].id) == i
  {
    if i < |log| - 1 { VisibleUnique(a, log[..|log| - 1], i); }
  }

  lemma NoEmptyId(a: Agent, log: seq<Entry>)
    requires UniqueIds(log)
    ensures VisibleIndex(a, log, "") == -1
  {
  }

  lemma StampIsIdempotent(a: Agent, c: Checkpoint, windowId: Id, baselineId: Id, blocked: Block)
    ensures var s := Stamp(a, c).(windowId := windowId, baselineId := baselineId, blocked := blocked);
            Stamp(a, s) == s && !ContractBroken(a, s)
  {
  }

  /** A stamped checkpoint whose references are fine and that carries no block is kept, up to its baseline. */
  lemma AcceptedStays(a: Agent, log: seq<Entry>, bootHead: Id, c: Checkpoint)
    requires Stamp(a, c) == c && !ContractBroken(a, c) && c.blocked == NoBlock
    requires var refs := NormalizeRefs(a, log, c.baselineId, c.windowId);
        refs.windowOk && refs.baselineOk && refs.baseline == c.baselineId
    ensures Validate(a, log, bootHead, c).0 == c
  {
  }

  /** A stamped, blocked checkpoint keeps its block unless the resolver now finds a baseline. */
  lemma BlockedStays(a: Agent, log: seq<Entry>, bootHead: Id, c: Checkpoint)
    requires Stamp(a, c) == c && !ContractBroken(a, c) && c.blocked != NoBlock
    requires Resolve(a, log, bootHead) != Unprovable && NormalizeRefs(a, log, c.baselineId, c.windowId).windowOk ==>
               !NormalizeRefs(a, log, BaselineOf(Resolve(a, log, bootHead)), c.windowId).baselineOk ||
               !NormalizeRefs(a, log, BaselineOf(Resolve(a, log, bootHead)), c.windowId).windowOk
    ensures Validate(a, log, bootHead, c).0 == c.(blocked :=
              if !NormalizeRefs(a, log, c.baselineId, c.windowId).windowOk then HeldWindowInvalid
              else if Resolve(a, log, bootHead) == Unprovable then Ambiguous else CheckpointInvalid)
  {
  }

  /** Validating twice gives the value validating once gives, except that a contract mismatch is
      remembered by its label only: the second pass sees repaired fields and calls it invalid. */
  lemma ValidateIsIdempotentUnlessMismatched(a: Agent, log: seq<Entry>, bootHead: Id, c: Checkpoint)
    requires UniqueIds(log)
    ensures var once := Validate(a, log, bootHead, c).0; var twice := Validate(a, log, bootHead, once).0;
            && (twice == once <==> once.blocked != ContractMismatch)
            && (once.blocked == ContractMismatch ==> twice == once.(blocked := CheckpointInvalid))
  {
    var once := Validate(a, log, bootHead, c).0;
    StampIsIdempotent(a, c, c.windowId, once.baselineId, once.blocked);
    if once.blocked == NoBlock {
      RefsAreStable(a, log, c.baselineId, c.windowId);
      if Resolve(a, log, bootHead) != Unprovable { ResolvedBaselineIsAccepted(a, log, bootHead, c.windowId); }
      AcceptedStays(a, log, bootHead, once);
    } else {
      BlockedStays(a, log, bootHead, once);
    }
  }

  /** Normalising a normalised baseline changes nothing. */
  lemma RefsAreStable(a: Agent, log: seq<Entry>, baselineId: Id, windowId: Id)
    requires UniqueIds(log)
    ensures var refs := NormalizeRefs(a, log, baselineId, windowId);
            refs.baselineOk ==> NormalizeRefs(a, log, refs.baseline, windowId) == refs
  {
    var index := BaselineRef(a, log, baselineId).0;
    if index >= 0 { FindUnique(log, index); }
  }

  /** When the mismatch label is what the first pass leaves. */
  lemma MismatchLabelExactly(a: Agent, log: seq<Entry>, bootHead: Id, c: Checkpoint)
    requires UniqueIds(log)
    ensures Validate(a, log, bootHead, c).0.blocked == ContractMismatch <==>
            && ContractBroken(a, c)
            && NormalizeRefs(a, log, c.baselineId, c.windowId).windowOk
            && Resolve(a, log, bootHead) != Unprovable
            && !NormalizeRefs(a, log, BaselineOf(Resolve(a, log, bootHead)), c.windowId).windowOk
  {
    if Resolve(a, log, bootHead) != Unprovable { ResolvedBaselineIsAccepted(a, log, bootHead, c.windowId); }
  }

  /** A window held under an old contract whose row an artifact has since covered: the first validation
      leaves the mismatch label, the second another one. */
  lemma CoveredWindowRelabels(a: Agent, row: Entry, artifact: Entry, c: Checkpoint, bootHead: Id)
    requires VisibleInput(a, row) && Produced(a, artifact) && a.inputKind != a.artifactKind && !a.syntheticHeldWindow
    requires artifact.cursor == "" && row.id != "" && artifact.id != "" && row.id != artifact.id
    requires c.baselineId == "" && c.windowId == row.id && ContractBroken(a, c)
    ensures var log := [row, artifact]; var first := Validate(a, log, bootHead, c).0;
            && UniqueIds(log) && first.blocked == ContractMismatch
            && Validate(a, log, bootHead, first).0.blocked == CheckpointInvalid
  {
    var log := [row, artifact];
    assert UniqueIds(log);
    FindUnique(log, 0);
    CoveredResolves(a, row, artifact, bootHead);
    MismatchLabelExactly(a, log, bootHead, c);
  }

  lemma CoveredResolves(a: Agent, row: Entry, artifact: Entry, bootHead: Id)
    requires VisibleInput(a, row) && Produced(a, artifact) && a.inputKind != a.artifactKind && artifact.cursor == ""
    ensures Resolve(a, [row, artifact], bootHead) == At(row.id)
  {
    var log := [row, artifact];
    assert NewestVisible(a, log, 0) == 0 && NewestVisible(a, log, 1) == 0;
    assert EvidenceOf(a, log, 1) == Resolved(0);
    assert Furthest(a, log, 0) == -1 && Furthest(a, log, 1) == -1;
  }

  /** Such a log and checkpoint exist. */
  lemma RelabellingExists()
    ensures exists a, log, c, bootHead ::
      UniqueIds(log) && Validate(a, log, bootHead, c).0.blocked == ContractMismatch
  {
    var a := Agent("w", "in", "output", "c", "", "", 1, 4, false, false);
    var row := Entry("1", "in", "", "", false, false, true, true, None);
    var artifact := Entry("22", "output", "", "", false, false, true, true, None);
    var c := Checkpoint("other", "", "in", "output", "c", "1", "", NoBlock, false, true);
    assert |a.inputKind| != |a.artifactKind| && |row.id| != |artifact.id| && |c.agent| != |a.name|;
    CoveredWindowRelabels(a, row, artifact, c, "");
    var log := [row, artifact];
    assert UniqueIds(log) && Validate(a, log, "", c).0.blocked == ContractMismatch;
  }

  /** A sound checkpoint passes through untouched. */
  ghost predicate Sound(a: Agent, log: seq<Entry>, c: Checkpoint) {
    && c == Stamp(a, c) && c.blocked == NoBlock
    && (c.baselineId == "" || VisibleIndex(a, log, c.baselineId) >= 0)
    && (c.windowId == "" || VisibleIndex(a, log, c.baselineId) < VisibleIndex(a, log, c.windowId))
  }

  lemma SoundCheckpointSurvives(a: Agent, log: seq<Entry>, bootHead: Id, c: Checkpoint)
    requires UniqueIds(log) && Sound(a, log, c)
    ensures Validate(a, log, bootHead, c) == (c, false)
    ensures Supersedes(a, log, bootHead, c) == None
  {
    var b, w := VisibleIndex(a, log, c.baselineId), VisibleIndex(a, log, c.windowId);
    if c.baselineId != "" { FindUnique(log, b); }
    if c.windowId != "" { FindUnique(log, w); }
    NoEmptyId(a, log);
  }
}
