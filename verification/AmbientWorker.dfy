/**
 The worker as the program runs it: fields updated in place, loops over the log,
 a retry record mutated on every outcome. Every method is the corresponding step
 of the protocol in AmbientCursor.
*/
module AmbientWorker {
  import opened Common
  import opened AmbientLog
  import opened AmbientContinuity
  import opened AmbientBudget
  import opened AmbientCursor

  /** The loop that cuts a window where a second sitting begins. */
  method CutCompatiblePrefix(inputs: seq<Entry>) returns (prefix: seq<Entry>)
    ensures prefix == CompatiblePrefix(inputs)
  {
    var key: Option<string> := None;
    for i := 0 to |inputs|
      invariant CompatibleFrom(inputs, 0, None) == CompatibleFrom(inputs, i, key)
    {
      if inputs[i].scopeKey.Some? {
        if key.None? {
          key := inputs[i].scopeKey;
        } else if inputs[i].scopeKey != key {
          return inputs[..i];
        }
      }
    }
    return inputs;
  }

  lemma BeginSteps(a: Agent, s: Scope, minBatch: nat, now: nat, hold: Io, clear: Io)
    requires s.worker.Some? && s.worker.value.phase.Idle?
    ensures Step(a, s, Event.Begin(minBatch, now, hold, clear)) == StepBegin(a, s, minBatch, now, hold, clear)
  {
  }

  lemma RestartSteps(a: Agent, s: Scope, bootHead: Id, repair: Io, supersede: Io, ensure: Io)
    requires s.worker.Some? ==> s.worker.value.phase.Idle?
    ensures var b := Bootstrap(a, s.log, s.disk, bootHead, repair, supersede);
            Step(a, s, Event.Restart(bootHead, repair, supersede, ensure)) ==
            AmbientCursor.Register(a, s.log, b.0, if s.worker.Some? then s.worker.value.failure else None,
                                   b.1, b.2, b.3, ensure)
  {
  }

  /** Publishing the head as consumed, however the write ends, keeps memory and sidecar consistent. */
  lemma PublishKeepsInv(a: Agent, s: Scope, io: Io)
    requires Inv(a, s) && s.worker.Some? && s.worker.value.phase.Idle? && Current(a, s) != []
    ensures var t := s.(disk := Persist(s.disk, BaselineCheckpoint(a, s.disk, Current(a, s)[0].id), io).0);
            Inv(a, t) && Current(a, t) == Current(a, s) &&
            OnDisk(a, t) == if io.Lost? then OnDisk(a, s) else Current(a, s)[1..]
  {
    BaselineAtHead(a, s.log, s.worker.value.baseline);
    PendingAfterBaseline(a, s.log, s.worker.value.baseline, 0);
  }

  class AmbientWorker {
    const agent: Agent
    var log: seq<Entry>
    var disk: Checkpoint
    var up: bool
    var baseline: Id
    var failure: Option<Failure>
    var phase: Phase

    /** The protocol state the fields stand for. */
    ghost function View(): Scope
      reads this
    {
      Scope(log, disk, if up then Some(Worker(baseline, failure, phase)) else None)
    }

    /** A process that has not started its worker yet. */
    constructor (agent: Agent, log: seq<Entry>, disk: Checkpoint)
      ensures this.agent == agent && View() == Scope(log, disk, None)
    {
      this.agent, this.log, this.disk := agent, log, disk;
      up, baseline, failure, phase := false, "", None, Idle;
    }

    method Append(e: Entry)
      modifies this`log
      ensures Foreign(agent, old(View()), e) ==> View() == Step(agent, old(View()), Event.Append(e))
    {
      log := log + [e];
    }

    /** One durable write of the sidecar. */
    method WriteDisk(next: Checkpoint, io: Io) returns (ok: bool)
      modifies this`disk
      ensures (disk, ok) == Persist(old(disk), next, io)
    {
      if !io.Lost? { disk := next; }
      ok := io.Durable?;
    }

    method RecordCheckpointFailure(head: Id)
      modifies this`failure
      ensures failure == Some(OpenPersistence(old(failure), head))
    {
      if failure.None? || (head != "" && failure.value.windowId != head) {
        failure := Some(NewFailure(head));
      }
      failure := Some(failure.value.(persistenceOpen := true, providerOpen := true, backoffUntil := 0));
    }

    /** Make the head the held window, the baseline staying before it. However the write ends, memory and
        sidecar stay consistent and nothing pending moves; acknowledged, a restart finds the head held. */
    method PersistHeldWindow(head: Id, io: Io) returns (ok: bool)
      requires up
      modifies this`disk
      ensures (disk, ok) == Persist(old(disk), HeldCheckpoint(agent, old(disk), head, baseline), io)
      ensures HoldsHead(old(View()), head) ==>
          Inv(agent, View()) && Current(agent, View()) == Current(agent, old(View()))
      ensures HoldsHead(old(View()), head) && ok ==>
        && disk.windowId == head && OnDisk(agent, View()) == Current(agent, View())
        && VisibleIndex(agent, log, disk.baselineId) < VisibleIndex(agent, log, head)
    {
      ghost var before := View();
      ok := WriteDisk(
        Checkpoint(agent.name, agent.scopeRoom, agent.inputKind, agent.artifactKind, agent.cursorKey,
                   head, baseline, NoBlock, disk.firstRunAnchor, true), io);
      if HoldsHead(before, head) {
        HoldKeepsInv(agent, before, io, failure);
        PendingAfterBaseline(agent, log, baseline, 0);
      }
    }

    /** A consistent worker between passes, and the head of what it has pending. */
    ghost predicate HoldsHead(s: Scope, head: Id) {
      && Inv(agent, s) && s.worker.Some? && s.worker.value.phase.Idle?
      && Current(agent, s) != [] && head == Current(agent, s)[0].id
    }

    /** Publish the head as consumed. What a restart finds pending afterwards is what was pending without the
        head, or, if the write was lost, what it would have found before; memory is untouched. */
    method PersistBaseline(head: Id, io: Io) returns (ok: bool)
      requires up
      modifies this`disk
      ensures (disk, ok) == Persist(old(disk), BaselineCheckpoint(agent, old(disk), head), io)
      ensures HoldsHead(old(View()), head) ==>
          Inv(agent, View()) && Current(agent, View()) == Current(agent, old(View()))
      ensures HoldsHead(old(View()), head) ==>
        OnDisk(agent, View()) == if io.Lost? then old(OnDisk(agent, View())) else Current(agent, View())[1..]
    {
      ghost var before := View();
      ok := WriteDisk(
        Checkpoint(agent.name, agent.scopeRoom, agent.inputKind, agent.artifactKind, agent.cursorKey,
                   "", head, NoBlock, disk.firstRunAnchor, true), io);
      if HoldsHead(before, head) { PublishKeepsInv(agent, before, io); }
    }

    /** The durable marker goes first; only then is the circuit published as closed. */
    method ClearFailure(io: Io)
      requires up
      modifies this`disk, this`failure
      ensures View() == Clear(agent, old(View()), io)
    {
      if disk.windowId != "" {
        var ok := WriteDisk(disk.(windowId := ""), io);
        if !ok {
          RecordCheckpointFailure("");
          return;
        }
      }
      failure := None;
    }

    method AttemptBudget(head: Id, now: nat) returns (proceed: bool, limit: nat)
      ensures Budget(agent, failure, head, now) == if proceed then Some(limit) else None
    {
      if failure.None? { return true, agent.maxBatch; }
      var record := failure.value;
      if record.persistenceOpen || record.continuityOpen { return false, 0; }
      if record.windowId != head { return true, agent.maxBatch; }
      if record.providerOpen { return false, 0; }
      if now < record.backoffUntil { return false, 0; }
      limit := BatchCeiling(agent.maxBatch, agent.minBatch, record.attempts);
      proceed := true;
    }

    /** A pass whose head is known: spend the retry budget, then make the head durable. */
    method Attempt(head: Id, need: nat, now: nat, hold: Io)
      requires up && phase.Idle?
      requires Pending(agent, log, baseline) != [] && head == Pending(agent, log, baseline)[0].id
      modifies this
      ensures Budget(agent, old(failure), head, now) == None ==> View() == old(View())
      ensures Budget(agent, old(failure), head, now).Some? ==>
        View() == StepAdmitted(agent, old(View()), need, Budget(agent, old(failure), head, now).value, hold)
    {
      var proceed, limit := AttemptBudget(head, now);
      if !proceed { return; }
      var held := PersistHeldWindow(head, hold);
      if !held {
        RecordCheckpointFailure(head);
        return;
      }
      phase := Admitted(need, limit);
    }

    /** The guarded pass up to the durable hold. */
    method Begin(minBatch: nat, now: nat, hold: Io, clear: Io)
      requires up && phase.Idle?
      modifies this
      ensures View() == Step(agent, old(View()), Event.Begin(minBatch, now, hold, clear))
    {
      BeginSteps(agent, View(), minBatch, now, hold, clear);
      var need := if minBatch < 1 then 1 else minBatch;
      var peek := UnconsumedEntries(agent, log, if agent.minBatch < 1 then 1 else agent.minBatch, baseline);
      if |peek| == 0 || |peek| < need {
        if failure.Some? && failure.value.continuityOpen { return; }
        ClearFailure(clear);
        return;
      }
      Attempt(peek[0].id, need, now, hold);
    }

    /** The admitted pass reads its window and calls the provider with it. */
    method Read(clear: Io)
      requires up && phase.Admitted?
      modifies this
      ensures View() == Step(agent, old(View()), Event.Read(clear))
    {
      var need, granted := phase.need, phase.limit;
      var limit := if granted == 0 || granted > agent.maxBatch then agent.maxBatch else granted;
      var inputs := UnconsumedEntries(agent, log, limit, baseline);
      inputs := CutCompatiblePrefix(inputs);
      if |inputs| < need {
        phase := Idle;
        ClearFailure(clear);
        return;
      }
      phase := Calling(inputs);
    }

    /** The producer appends its artifact. */
    method Land(artifact: Entry)
      requires up && phase.Calling?
      modifies this`log, this`phase
      ensures ArtifactFor(agent, old(View()), old(phase.window), artifact) ==>
        View() == Step(agent, old(View()), Event.Land(artifact))
    {
      log := log + [artifact];
      phase := Landed;
    }

    method Settle(clear: Io)
      requires up && phase.Landed?
      modifies this
      ensures View() == Step(agent, old(View()), Event.Settle(clear))
    {
      phase := Idle;
      ClearFailure(clear);
    }

    /** Count a provider hold against the head. */
    method CountHold(head: Id, now: nat)
      modifies this`failure
      ensures failure == Some(HoldFailure(old(failure), head, now))
    {
      var record := if failure.None? || failure.value.windowId != head then NewFailure(head) else failure.value;
      if record.attempts < MAX_WINDOW_ATTEMPTS { record := record.(attempts := record.attempts + 1); }
      if record.attempts >= MAX_WINDOW_ATTEMPTS {
        record := record.(providerOpen := true, backoffUntil := 0);
      } else {
        var backoff := HoldBackoff(BACKOFF_BASE, BACKOFF_CAP, record.attempts);
        record := record.(backoffUntil := now + backoff);
      }
      failure := Some(record);
    }

    /** A recoverable provider failure. */
    method RecordHold(now: nat, io: Io)
      requires up && phase.Calling? && |phase.window| > 0
      modifies this
      ensures View() == Step(agent, old(View()), Event.Fail(Hold, now, io))
    {
      hide HoldFailure, HoldsHead, Inv;
      var head := phase.window[0].id;
      phase := Idle;
      CountHold(head, now);
      var ok := PersistHeldWindow(head, io);
      if !ok { RecordCheckpointFailure(head); }
    }

    /** A poison failure: back off, or at the cap publish the dead letter and only then advance. */
    method RecordPoison(now: nat, io: Io)
      requires up && phase.Calling? && |phase.window| > 0
      modifies this
      ensures View() == Step(agent, old(View()), Event.Fail(Poison, now, io))
    {
      var head := phase.window[0].id;
      phase := Idle;
      var record := if failure.None? || failure.value.windowId != head then NewFailure(head) else failure.value;
      record := record.(attempts := record.attempts + 1);
      if record.attempts >= MAX_WINDOW_ATTEMPTS {
        failure := None;
        var ok := PersistBaseline(head, io);
        if !ok {
          RecordCheckpointFailure(head);
          return;
        }
        baseline := head;
      } else {
        record := record.(backoffUntil := now + PoisonBackoff(BACKOFF_BASE, BACKOFF_CAP, record.attempts));
        failure := Some(record);
      }
    }

    /** Resolve the checkpoint: validate, rewrite when it changed, supersede a stale block. */
    method Resolve(bootHead: Id, repair: Io, supersede: Io) returns (resolved: Id, blocked: Block, read: bool)
      modifies this`disk
      ensures (disk, resolved, blocked, read) == Bootstrap(agent, log, old(disk), bootHead, repair, supersede)
    {
      if !disk.stored {
        var (first, reason, anchored) := FirstBaseline(agent, log, bootHead);
        resolved, blocked, read := first, reason, true;
        disk := ABSENT;
        if anchored { read := WriteDisk(AnchoredAt(agent, first), supersede); }
        return;
      }
      var (validated, changed) := Validate(agent, log, bootHead, disk);
      resolved, blocked, read := disk.baselineId, disk.blocked, true;
      if changed {
        read := WriteDisk(validated, repair);
        resolved, blocked := validated.baselineId, validated.blocked;
      }
      if read {
        var anchor := Supersedes(agent, log, bootHead, disk);
        if anchor.Some? {
          read := WriteDisk(AnchoredAt(agent, anchor.value), supersede);
          if read { resolved, blocked := anchor.value, NoBlock; }
        }
      }
    }

    /** Make the resolved baseline durable and register it. */
    method Register(resolved: Id, blocked: Block, read: bool, ensure: Io)
      modifies this
      ensures View() == AmbientCursor.Register(agent, log, old(disk), old(failure), resolved, blocked, read, ensure)
      ensures log == old(log)
    {
      var next := disk;
      if next.windowId == "" { next := next.(baselineId := resolved, blocked := blocked); }
      next := Stamp(agent, next);
      var ok := WriteDisk(next, ensure);
      if !ok || !read {
        RecordCheckpointFailure("");
      } else if blocked != NoBlock {
        failure := Some(OpenContinuity(failure));
      } else {
        failure := None;
      }
      up, baseline, phase := true, next.baselineId, Idle;
    }

    /** A worker start: resolve the checkpoint, make it durable, register the baseline, and reset
        the circuits only when nothing went wrong. */
    method Restart(bootHead: Id, repair: Io, supersede: Io, ensure: Io)
      requires up ==> phase.Idle?
      modifies this
      ensures View() == Step(agent, old(View()), Event.Restart(bootHead, repair, supersede, ensure))
    {
      RestartSteps(agent, View(), bootHead, repair, supersede, ensure);
      if !up { failure := None; }
      var resolved, blocked, read := Resolve(bootHead, repair, supersede);
      Register(resolved, blocked, read, ensure);
    }
  }
}
