/**
 The append-only memory log an ambient worker consumes, and the window read
 that decides where the worker stands in it.

 Ids and rooms are compared after normalisation in the program; here they are
 the normalised values.
*/
module AmbientLog {
  import opened Common

  type Id = string

  /** One log row, reduced to what the window read looks at.
      `cursor` is the consumed-through id an artifact carries ("" for none).
      `readable` says the row is not a sparse digest and the service principal may read it.
      `owned` is the verdict of the worker's own input filter.
      `scopeKey` is the room, sitting and media generation of a room-visible row. */
  datatype Entry = Entry(
    id: Id, kind: string, room: string, cursor: Id,
    hidden: bool, canary: bool, readable: bool, owned: bool, scopeKey: Option<string>)

  /** A worker and the scope it runs for. `room` is "" for a company-wide worker. */
  datatype Agent = Agent(
    name: string, inputKind: string, artifactKind: string, cursorKey: string,
    scopeRoom: string, room: string, minBatch: nat, maxBatch: nat,
    firstRunAnchor: bool, syntheticHeldWindow: bool)

  predicate WellFormed(a: Agent) {
    a.inputKind != a.artifactKind && 1 <= a.minBatch && 1 <= a.maxBatch
  }

  predicate Hidden(e: Entry) { e.canary || e.hidden }

  predicate InRoom(a: Agent, e: Entry) { a.room == "" || e.room == a.room }

  /** A row a cursor or baseline may point at: any input, hidden or foreign rows included. */
  predicate IsTarget(a: Agent, e: Entry) { e.kind == a.inputKind && !e.canary }

  predicate Eligible(a: Agent, e: Entry) {
    e.kind == a.inputKind && e.readable && !Hidden(e) && InRoom(a, e) && e.owned
  }

  /** An artifact whose cursor moves this scope. */
  predicate Counts(a: Agent, e: Entry) {
    e.kind == a.artifactKind && e.readable && !Hidden(e) && InRoom(a, e)
  }

  ghost predicate UniqueIds(log: seq<Entry>) {
    && (forall i :: 0 <= i < |log| ==> log[i].id != "")
    && (forall i, j :: 0 <= i < j < |log| ==> log[i].id != log[j].id)
  }

  /** The position an id resolves to, or -1. */
  function TargetIndex(a: Agent, log: seq<Entry>, id: Id): (r: int)
    ensures -1 <= r < |log|
    ensures r >= 0 ==> log[r].id == id && IsTarget(a, log[r])
  {
    if log == [] then -1
    else if log[|log| - 1].id == id && IsTarget(a, log[|log| - 1]) then |log| - 1
    else TargetIndex(a, log[..|log| - 1], id)
  }

  /** The first position artifact row i leaves unconsumed (0 when the row does not move the scope). */
  function ArtifactFloor(a: Agent, log: seq<Entry>, i: nat): nat
    requires i < |log|
  {
    if !Counts(a, log[i]) then 0
    else if log[i].cursor == "" then i + 1
    else TargetIndex(a, log, log[i].cursor) + 1
  }

  /** The furthest floor among the first k rows. */
  function ArtifactsFloor(a: Agent, log: seq<Entry>, k: nat): nat
    requires k <= |log|
  {
    if k == 0 then 0 else Max(ArtifactsFloor(a, log, k - 1), ArtifactFloor(a, log, k - 1))
  }

  function BaselineFloor(a: Agent, log: seq<Entry>, baseline: Id): nat {
    if baseline == "" then 0 else TargetIndex(a, log, baseline) + 1
  }

  /** The effective start: the maximum of the durable baseline and all artifact cursors. */
  function Start(a: Agent, log: seq<Entry>, baseline: Id): nat {
    Max(BaselineFloor(a, log, baseline), ArtifactsFloor(a, log, |log|))
  }

  /** The eligible rows at or after position i, oldest first. */
  function EligibleFrom(a: Agent, log: seq<Entry>, i: nat): seq<Entry>
    decreases |log| - i
  {
    if i >= |log| then []
    else (if Eligible(a, log[i]) then [log[i]] else []) + EligibleFrom(a, log, i + 1)
  }

  /** Everything the scope has not consumed yet. */
  function Pending(a: Agent, log: seq<Entry>, baseline: Id): seq<Entry> {
    EligibleFrom(a, log, Start(a, log, baseline))
  }

  function Ids(es: seq<Entry>): seq<Id> { seq(|es|, i requires 0 <= i < |es| => es[i].id) }

  // ---- The window read ------------------------------------------------------

  /** The index of every cursor target; later rows win. */
  method IndexTargets(a: Agent, log: seq<Entry>) returns (indexes: map<Id, nat>)
    ensures forall id :: id in indexes <==> TargetIndex(a, log, id) >= 0
    ensures forall id :: id in indexes ==> indexes[id] == TargetIndex(a, log, id)
  {
    indexes := map[];
    for i := 0 to |log|
      invariant forall id :: id in indexes <==> TargetIndex(a, log[..i], id) >= 0
      invariant forall id :: id in indexes ==> indexes[id] == TargetIndex(a, log[..i], id)
    {
      assert log[..i + 1][..i] == log[..i];
      if IsTarget(a, log[i]) {
        indexes := indexes[log[i].id := i];
      }
    }
    assert log[..|log|] == log;
  }

  /** The scan over all artifacts computes the maximum of the baseline and every cursor. */
  method EffectiveStart(a: Agent, log: seq<Entry>, baseline: Id) returns (start: nat)
    ensures start == Start(a, log, baseline)
  {
    var indexes := IndexTargets(a, log);
    start := 0;
    if baseline != "" && baseline in indexes {
      start := indexes[baseline] + 1;
    }
    for i := 0 to |log|
      invariant start == Max(BaselineFloor(a, log, baseline), ArtifactsFloor(a, log, i))
    {
      var e := log[i];
      if Counts(a, e) {
        if e.cursor != "" {
          if e.cursor in indexes && indexes[e.cursor] + 1 > start {
            start := indexes[e.cursor] + 1;
          }
        } else if i + 1 > start {
          start := i + 1;
        }
      }
    }
  }

  /** The loop that collects up to `limit` unconsumed rows returns the first `limit` pending ones. */
  method UnconsumedEntries(a: Agent, log: seq<Entry>, limit: nat, baseline: Id) returns (inputs: seq<Entry>)
    ensures inputs == Take(Pending(a, log, baseline), limit)
  {
    inputs := [];
    if limit == 0 { return; }
    var start := EffectiveStart(a, log, baseline);
    StartInRange(a, log, baseline);
    ghost var pending := Pending(a, log, baseline);
    for i := start to |log|
      invariant |inputs| < limit
      invariant pending == inputs + EligibleFrom(a, log, i)
    {
      if Eligible(a, log[i]) {
        inputs := inputs + [log[i]];
        if |inputs| >= limit { return; }
      }
    }
  }

  lemma StartInRange(a: Agent, log: seq<Entry>, baseline: Id)
    ensures Start(a, log, baseline) <= |log|
  {
    FloorInRange(a, log, |log|);
  }

  lemma FloorInRange(a: Agent, log: seq<Entry>, k: nat)
    requires k <= |log|
    ensures ArtifactsFloor(a, log, k) <= |log|
  {
  }

  /** A window never mixes two sittings: the prefix that agrees with its first room-visible row. */
  function CompatibleFrom(inputs: seq<Entry>, i: nat, key: Option<string>): (n: nat)
    requires i <= |inputs|
    ensures i <= n <= |inputs|
    decreases |inputs| - i
  {
    if i == |inputs| then i
    else if inputs[i].scopeKey.None? then CompatibleFrom(inputs, i + 1, key)
    else if key.None? then CompatibleFrom(inputs, i + 1, inputs[i].scopeKey)
    else if inputs[i].scopeKey != key then i
    else CompatibleFrom(inputs, i + 1, key)
  }

  function CompatiblePrefix(inputs: seq<Entry>): seq<Entry> {
    inputs[..CompatibleFrom(inputs, 0, None)]
  }

  // ---- How reads change as the log grows --------------------------------------

  lemma {:induction false} TargetIndexUnique(a: Agent, log: seq<Entry>, i: nat)
    requires UniqueIds(log) && i < |log| && IsTarget(a, log[i])
    ensures TargetIndex(a, log, log[i].id) == i
  {
    if i < |log| - 1 { TargetIndexUnique(a, log[..|log| - 1], i); }
  }

  lemma {:induction false} AppendKeepsTargets(a: Agent, log: seq<Entry>, e: Entry, id: Id)
    ensures id != e.id || !IsTarget(a, e) ==> TargetIndex(a, log + [e], id) == TargetIndex(a, log, id)
    ensures id == e.id && IsTarget(a, e) ==> TargetIndex(a, log + [e], id) == |log|
  {
    assert (log + [e])[..|log|] == log;
  }

  /** Every artifact cursor of the scope points at a row of the log. */
  ghost predicate CursorsResolve(a: Agent, log: seq<Entry>) {
    forall i :: 0 <= i < |log| && Counts(a, log[i]) && log[i].cursor != "" ==>
      TargetIndex(a, log, log[i].cursor) >= 0
  }

  ghost predicate Fresh(log: seq<Entry>, e: Entry) {
    e.id != "" && forall i :: 0 <= i < |log| ==> log[i].id != e.id
  }

  lemma {:induction false} AppendKeepsFloors(a: Agent, log: seq<Entry>, e: Entry, k: nat)
    requires CursorsResolve(a, log) && Fresh(log, e) && k <= |log|
    ensures ArtifactsFloor(a, log + [e], k) == ArtifactsFloor(a, log, k)
  {
    if k > 0 {
      AppendKeepsFloors(a, log, e, k - 1);
      AppendKeepsTargets(a, log, e, log[k - 1].cursor);
    }
  }

  lemma {:induction false} AppendExtendsEligible(a: Agent, log: seq<Entry>, e: Entry, i: nat)
    requires i <= |log|
    ensures EligibleFrom(a, log + [e], i) == EligibleFrom(a, log, i) + (if Eligible(a, e) then [e] else [])
    decreases |log| - i
  {
    if i < |log| {
      AppendExtendsEligible(a, log, e, i + 1);
    } else {
      assert EligibleFrom(a, log + [e], i + 1) == [];
    }
  }

  /** The floor the artifact e would impose if it were appended to the log. */
  function AppendedFloor(a: Agent, log: seq<Entry>, e: Entry): nat {
    if !Counts(a, e) then 0 else if e.cursor == "" then |log| + 1 else TargetIndex(a, log, e.cursor) + 1
  }

  lemma AppendedArtifactFloor(a: Agent, log: seq<Entry>, e: Entry)
    requires WellFormed(a) && Fresh(log, e)
    requires Counts(a, e) && e.cursor != "" ==> TargetIndex(a, log, e.cursor) >= 0
    ensures ArtifactFloor(a, log + [e], |log|) == AppendedFloor(a, log, e)
  {
    AppendKeepsTargets(a, log, e, e.cursor);
  }

  lemma AppendArtifactsFloor(a: Agent, log: seq<Entry>, e: Entry)
    requires WellFormed(a) && CursorsResolve(a, log) && Fresh(log, e)
    requires Counts(a, e) && e.cursor != "" ==> TargetIndex(a, log, e.cursor) >= 0
    ensures ArtifactsFloor(a, log + [e], |log| + 1) == Max(ArtifactsFloor(a, log, |log|), AppendedFloor(a, log, e))
  {
    hide Counts, TargetIndex;
    AppendKeepsFloors(a, log, e, |log|);
    AppendedArtifactFloor(a, log, e);
    assert (log + [e])[|log|] == e;
    assert ArtifactsFloor(a, log + [e], |log| + 1)
        == Max(ArtifactsFloor(a, log + [e], |log|), ArtifactFloor(a, log + [e], |log|));
  }

  lemma AppendKeepsCursors(a: Agent, log: seq<Entry>, e: Entry)
    requires CursorsResolve(a, log) && Fresh(log, e)
    requires Counts(a, e) && e.cursor != "" ==> TargetIndex(a, log, e.cursor) >= 0
    ensures CursorsResolve(a, log + [e])
  {
    forall i | 0 <= i < |log + [e]| && Counts(a, (log + [e])[i]) && (log + [e])[i].cursor != ""
      ensures TargetIndex(a, log + [e], (log + [e])[i].cursor) >= 0
    {
      AppendKeepsTargets(a, log, e, (log + [e])[i].cursor);
    }
  }

  /** Appending a row leaves the start where it was, or moves it to the row's own floor. */
  lemma AppendStart(a: Agent, log: seq<Entry>, e: Entry, baseline: Id)
    requires WellFormed(a) && CursorsResolve(a, log) && Fresh(log, e)
    requires baseline == "" || TargetIndex(a, log, baseline) >= 0
    requires Counts(a, e) && e.cursor != "" ==> TargetIndex(a, log, e.cursor) >= 0
    ensures Start(a, log + [e], baseline) == Max(Start(a, log, baseline), AppendedFloor(a, log, e))
    ensures CursorsResolve(a, log + [e])
  {
    hide CursorsResolve, Counts, ArtifactsFloor;
    AppendKeepsTargets(a, log, e, baseline);
    AppendArtifactsFloor(a, log, e);
    AppendKeepsCursors(a, log, e);
    assert |log + [e]| == |log| + 1;
  }

  /** The rows after the n-th pending row are exactly the rest of the pending rows. */
  lemma {:induction false} EligibleAfter(a: Agent, log: seq<Entry>, i: nat, n: nat)
    requires UniqueIds(log) && 0 < n <= |EligibleFrom(a, log, i)|
    ensures var k := TargetIndex(a, log, EligibleFrom(a, log, i)[n - 1].id);
            && i <= k && log[k] == EligibleFrom(a, log, i)[n - 1]
            && EligibleFrom(a, log, k + 1) == EligibleFrom(a, log, i)[n..]
    decreases |log| - i
  {
    if Eligible(a, log[i]) {
      if n == 1 {
        TargetIndexUnique(a, log, i);
      } else {
        EligibleAfter(a, log, i + 1, n - 1);
      }
    } else {
      EligibleAfter(a, log, i + 1, n);
    }
  }

  lemma {:induction false} EligibleAreEligible(a: Agent, log: seq<Entry>, i: nat)
    ensures forall e :: e in EligibleFrom(a, log, i) ==> Eligible(a, e) && e in log
    decreases |log| - i
  {
    if i < |log| { EligibleAreEligible(a, log, i + 1); }
  }

  /** Pending rows have pairwise distinct ids. */
  lemma {:induction false} EligibleDistinct(a: Agent, log: seq<Entry>, i: nat)
    requires UniqueIds(log)
    ensures forall x, y :: 0 <= x < y < |EligibleFrom(a, log, i)| ==>
      EligibleFrom(a, log, i)[x].id != EligibleFrom(a, log, i)[y].id
    ensures forall e :: e in EligibleFrom(a, log, i) ==> TargetIndex(a, log, e.id) >= i
    decreases |log| - i
  {
    if i < |log| {
      EligibleDistinct(a, log, i + 1);
      if Eligible(a, log[i]) { TargetIndexUnique(a, log, i); }
    }
  }

  /** Cutting a window shorter cuts its compatible prefix at the same place. */
  lemma {:induction false} CompatibleCut(inputs: seq<Entry>, i: nat, k: nat, key: Option<string>)
    requires i <= k <= |inputs|
    ensures CompatibleFrom(inputs[..k], i, key) == Min(k, CompatibleFrom(inputs, i, key))
    decreases k - i
  {
    if i < k {
      CompatibleCut(inputs, i + 1, k, key);
      CompatibleCut(inputs, i + 1, k, inputs[i].scopeKey);
    }
  }
}
