/**
 A start that cannot read the scope checkpoint.

 Such a start resolves no baseline, opens the persistence circuit and goes on: the write that makes the
 resolved baseline durable reads the sidecar again, and when that second read works it puts the empty
 baseline over the durable one, unless a window is held. The rule the program follows is to replay and
 never to skip; these lemmas say what exactly is replayed.
*/
module AmbientBlindStart {
  import opened Common
  import opened AmbientLog
  import opened AmbientContinuity
  import opened AmbientBudget
  import opened AmbientCursor

  /** A start whose first read of the checkpoint failed. */
  function BlindStart(a: Agent, s: Scope, ensure: Io): Scope {
    Register(a, s.log, s.disk, if s.worker.Some? then s.worker.value.failure else None, "", NoBlock, false, ensure)
  }

  /** The baseline is lost when nothing is held and the second write reaches the disk. */
  predicate LosesBaseline(s: Scope, ensure: Io) { s.disk.windowId == "" && !ensure.Lost? }

  /** The eligible rows from position i up to position j. */
  function EligibleIn(a: Agent, log: seq<Entry>, i: nat, j: nat): (rows: seq<Entry>)
    ensures rows == [] <==> forall k :: i <= k < j && k < |log| ==> !Eligible(a, log[k])
    decreases |log| - i
  {
    if i >= j || i >= |log| then []
    else (if Eligible(a, log[i]) then [log[i]] else []) + EligibleIn(a, log, i + 1, j)
  }

  lemma {:induction false} EligibleSplits(a: Agent, log: seq<Entry>, i: nat, j: nat)
    requires i <= j
    ensures EligibleFrom(a, log, i) == EligibleIn(a, log, i, j) + EligibleFrom(a, log, j)
    decreases |log| - i
  {
    if i < j && i < |log| {
      EligibleSplits(a, log, i + 1, j);
      var head := if Eligible(a, log[i]) then [log[i]] else [];
      calc {
        EligibleFrom(a, log, i);
        head + (EligibleIn(a, log, i + 1, j) + EligibleFrom(a, log, j));
        (head + EligibleIn(a, log, i + 1, j)) + EligibleFrom(a, log, j);
      }
    }
  }

  /** The eligible rows that only the lost baseline had passed. */
  function Returning(a: Agent, s: Scope, ensure: Io): seq<Entry> {
    if LosesBaseline(s, ensure)
    then EligibleIn(a, s.log, ArtifactsFloor(a, s.log, |s.log|), Start(a, s.log, s.disk.baselineId))
    else []
  }

  /** A blind start never skips: what the disk had pending stays pending, behind exactly the rows that come
      back. No pass runs until a later start succeeds. */
  lemma BlindStartReplaysExactly(a: Agent, s: Scope, ensure: Io, head: Id, now: nat)
    ensures var t := BlindStart(a, s, ensure);
            && t.worker.Some? && Budget(a, t.worker.value.failure, head, now) == None
            && OnDisk(a, t) == Returning(a, s, ensure) + OnDisk(a, s)
  {
    if LosesBaseline(s, ensure) {
      EligibleSplits(a, s.log, ArtifactsFloor(a, s.log, |s.log|), Start(a, s.log, s.disk.baselineId));
    }
  }

  /** So the bound on a poisoned input holds only between blind starts: an input that was given up comes back
      with the first start that cannot read the checkpoint. */
  lemma BlindStartRevivesDeadLetter(a: Agent, s: Scope, now: nat, io: Io, ensure: Io)
    requires WellFormed(a) && Inv(a, s) && !ensure.Lost?
    requires Enabled(a, s, Fail(Poison, now, io)) && DeadLettersNow(s, Poison, io)
    ensures var head := s.worker.value.phase.window[0];
            var t := Step(a, s, Fail(Poison, now, io));
            && head !in OnDisk(a, t)
            && head in OnDisk(a, BlindStart(a, Step(a, t, Crash), ensure))
  {
    hide StepFail, Inv, ArtifactsFloor, EligibleIn;
    DeadLettered(a, s, now, io);
    var t := Step(a, Step(a, s, Fail(Poison, now, io)), Crash);
    var floor := ArtifactsFloor(a, s.log, |s.log|);
    assert LosesBaseline(t, ensure) && OnDisk(a, BlindStart(a, t, ensure)) == EligibleFrom(a, s.log, floor);
    EligibleSplits(a, s.log, floor, Start(a, s.log, s.worker.value.baseline));
  }

  lemma DeadLettered(a: Agent, s: Scope, now: nat, io: Io)
    requires WellFormed(a) && Inv(a, s)
    requires Enabled(a, s, Fail(Poison, now, io)) && DeadLettersNow(s, Poison, io)
    ensures var t := Step(a, s, Fail(Poison, now, io));
            && Current(a, s) != [] && s.worker.value.phase.window[0] == Current(a, s)[0]
            && t.log == s.log && t.worker.Some? && t.disk.windowId == ""
            && Current(a, s)[0] !in OnDisk(a, t)
  {
    var start := Start(a, s.log, s.worker.value.baseline);
    BaselineAtHead(a, s.log, s.worker.value.baseline);
    EligibleDistinct(a, s.log, start);
  }
}
