/**
 When the retry record of a head is forgotten: a common minimum never forgets,
 one forgotten head can always be pushed past the bound, and two alternating
 minimums spend without end.
*/
module AmbientForgetting {
  import opened Common
  import opened AmbientLog
  import opened AmbientContinuity
  import opened AmbientBudget
  import opened AmbientCursor
  import opened AmbientSpend

  // ---- One minimum for every pass --------------------------------------------------------

  /** Every pass of the run asks for the same minimum. */
  predicate SameMinimum(events: seq<Event>, minBatch: nat) {
    forall i :: 0 <= i < |events| && events[i].Begin? ==> events[i].minBatch == minBatch
  }

  /** No pass that needs `need` rows can find this window short, however far its batch was halved. */
  predicate Ready(a: Agent, need: nat, pending: seq<Entry>) {
    need <= |pending| && need <= a.minBatch && need <= a.maxBatch && need <= CompatibleFrom(pending, 0, None)
  }

  /** A head that has cost a call is ready, and an admitted pass cannot read less than the smaller bound. */
  ghost predicate ReadyInv(a: Agent, need: nat, s: Scope, spent: seq<Id>) {
    s.worker.Some? ==>
      var phase := s.worker.value.phase;
      && (Current(a, s) != [] && (Count(spent, Current(a, s)[0].id) > 0 || phase.Calling?) ==>
          Ready(a, need, Current(a, s)))
      && (phase.Admitted? ==>
            phase.need == need <= a.minBatch && Min(a.minBatch, a.maxBatch) <= ReadLimit(a, phase.limit))
  }

  lemma WindowSize(a: Agent, pending: seq<Entry>, limit: nat)
    ensures |WindowOf(a, pending, limit)| == Min(ReadLimit(a, limit), CompatibleFrom(pending, 0, None))
  {
    if ReadLimit(a, limit) <= |pending| { CompatibleCut(pending, 0, ReadLimit(a, limit), None); }
  }

  lemma ReadyGrows(a: Agent, need: nat, pending: seq<Entry>, e: Entry)
    requires Ready(a, need, pending)
    ensures Ready(a, need, pending + [e])
  {
    assert (pending + [e])[..|pending|] == pending;
    CompatibleCut(pending + [e], 0, |pending|, None);
  }

  /** A pass with the common minimum never finds a spent head short. */
  lemma ReadyRemembers(a: Agent, minBatch: nat, s: Scope, spent: seq<Id>, ev: Event)
    requires WellFormed(a) && ReadyInv(a, Max(1, minBatch), s, spent) && (ev.Begin? ==> ev.minBatch == minBatch)
    ensures !Forgets(a, s, spent, ev)
  {
    if Forgets(a, s, spent, ev) && ev.Read? { WindowSize(a, Current(a, s), s.worker.value.phase.limit); }
  }

  lemma AppendKeepsReady(a: Agent, need: nat, s: Scope, spent: seq<Id>, history: seq<Disposal>, e: Entry)
    requires WellFormed(a) && Inv(a, s) && SpendInv(a, s, spent, history) && ReadyInv(a, need, s, spent)
        && Foreign(a, s, e)
    ensures ReadyInv(a, need, s.(log := s.log + [e]), spent)
  {
    AppendExtendsCurrent(a, s, e);
    CountAbsent(spent, e.id);
    if Ready(a, need, Current(a, s)) { ReadyGrows(a, need, Current(a, s), e); }
    assert !Eligible(a, e) ==> Current(a, s.(log := s.log + [e])) == Current(a, s);
  }

  lemma BeginKeepsReady(a: Agent, s: Scope, spent: seq<Id>, minBatch: nat, now: nat, hold: Io, clear: Io)
    requires WellFormed(a) && Inv(a, s) && ReadyInv(a, Max(1, minBatch), s, spent)
    requires s.worker.Some? && s.worker.value.phase.Idle?
    ensures ReadyInv(a, Max(1, minBatch), StepBegin(a, s, minBatch, now, hold, clear), spent)
  {
    hide Inv;
    BeginKeepsInv(a, s, minBatch, now, hold, clear);
  }

  lemma ReadKeepsReady(a: Agent, need: nat, s: Scope, spent: seq<Id>, clear: Io)
    requires WellFormed(a) && Inv(a, s) && ReadyInv(a, need, s, spent)
    requires s.worker.Some? && s.worker.value.phase.Admitted?
    ensures ReadyInv(a, need, StepRead(a, s, clear), spent)
  {
    ReadKeepsInv(a, s, clear);
    WindowSize(a, Current(a, s), s.worker.value.phase.limit);
  }

  lemma FailKeepsReady(a: Agent, need: nat, s: Scope, spent: seq<Id>, history: seq<Disposal>, kind: FailKind, now: nat,
      io: Io)
    requires WellFormed(a) && Inv(a, s) && ReadyInv(a, need, s, spent) && Enabled(a, s, Fail(kind, now, io))
    requires SpendInv(a, StepFail(a, s, kind, now, io), spent + [s.worker.value.phase.window[0].id], history)
    ensures ReadyInv(a, need, StepFail(a, s, kind, now, io), spent + [s.worker.value.phase.window[0].id])
  {
    FailKeepsInv(a, s, kind, now, io);
  }

  lemma StepKeepsReady(a: Agent, minBatch: nat, s: Scope, spent: seq<Id>, history: seq<Disposal>, ev: Event)
    requires WellFormed(a) && Inv(a, s) && SpendInv(a, s, spent, history) && ReadyInv(a, Max(1, minBatch), s, spent)
    requires StepSpends(a, s, spent, history, ev) && (ev.Begin? ==> ev.minBatch == minBatch)
    ensures ReadyInv(a, Max(1, minBatch), Step(a, s, ev), SpentAfter(a, s, spent, ev))
  {
    var need := Max(1, minBatch);
    if !Enabled(a, s, ev) {
    } else if ev.Append? {
      AppendKeepsReady(a, need, s, spent, history, ev.entry);
    } else if ev.Begin? {
      BeginKeepsReady(a, s, spent, minBatch, ev.now, ev.hold, ev.clear);
    } else if ev.Read? {
      ReadKeepsReady(a, need, s, spent, ev.clear);
    } else if ev.Fail? {
      FailKeepsReady(a, need, s, spent, history + Disposals(a, s, ev), ev.kind, ev.now, ev.io);
    } else if ev.Settle? {
      ClearKeepsInv(a, s.(worker := Some(s.worker.value.(phase := Idle))), ev.clear);
    }
  }

  lemma {:induction false} RunKeepsReady(a: Agent, minBatch: nat, s: Scope, events: seq<Event>)
    requires WellFormed(a) && Inv(a, s) && s.worker == None && SameMinimum(events, minBatch)
    ensures Remembers(a, s, events) && ReadyInv(a, Max(1, minBatch), Run(a, s, events), Spent(a, s, events))
    ensures SpendInv(a, Run(a, s, events), Spent(a, s, events), History(a, s, events))
  {
    if events != [] {
      var prefix, ev := events[..|events| - 1], events[|events| - 1];
      var t, spent, history := Run(a, s, prefix), Spent(a, s, prefix), History(a, s, prefix);
      RunKeepsReady(a, minBatch, s, prefix);
      RunKeepsInv(a, s, prefix);
      ReadyRemembers(a, minBatch, t, spent, ev);
      StepKeepsSpend(a, t, spent, history, ev);
      StepKeepsReady(a, minBatch, t, spent, history, ev);
    }
  }

  /** When every pass asks for the same minimum, no pass forgets a head: rows only arrive and halving
      stops at the minimum, so a head that was once called is never short again. */
  lemma CommonMinimumRemembers(a: Agent, s: Scope, events: seq<Event>, minBatch: nat)
    requires WellFormed(a) && Inv(a, s) && s.worker == None && SameMinimum(events, minBatch)
    ensures Remembers(a, s, events)
  {
    RunKeepsReady(a, minBatch, s, events);
  }

  // ---- Runs one after the other --------------------------------------------------------------

  lemma {:induction false} RunAppend(a: Agent, s: Scope, x: seq<Event>, y: seq<Event>)
    ensures Run(a, s, x + y) == Run(a, Run(a, s, x), y)
    ensures Spent(a, s, x + y) == SpentFrom(a, Run(a, s, x), Spent(a, s, x), y)
    ensures History(a, s, x + y) == History(a, s, x) + History(a, Run(a, s, x), y)
  {
    hide Step, SpentAfter, Disposals;
    if y == [] {
      assert x + y == x;
    } else {
      var front := y[..|y| - 1];
      RunAppend(a, s, x, front);
      assert (x + y)[..|x + y| - 1] == x + front;
    }
  }

  lemma RunOne(a: Agent, s: Scope, ev: Event, spent: seq<Id>)
    ensures Run(a, s, [ev]) == Step(a, s, ev)
    ensures SpentFrom(a, s, spent, [ev]) == SpentAfter(a, s, spent, ev)
    ensures History(a, s, [ev]) == Disposals(a, s, ev)
  {
    assert [ev][..0] == [];
    assert Run(a, s, []) == s;
  }

  lemma {:induction false} SpentFromAppend(a: Agent, s: Scope, spent: seq<Id>, x: seq<Event>, y: seq<Event>)
    ensures SpentFrom(a, s, spent, x + y) == SpentFrom(a, Run(a, s, x), SpentFrom(a, s, spent, x), y)
  {
    hide Step, SpentAfter, Disposals;
    if y == [] {
      assert x + y == x;
    } else {
      var front := y[..|y| - 1];
      SpentFromAppend(a, s, spent, x, front);
      RunAppend(a, s, x, front);
      assert (x + y)[..|x + y| - 1] == x + front;
    }
  }

  // ---- A call that fails ---------------------------------------------------------------------

  /** One guarded pass whose call fails, with a minimum of one and every write durable. */
  function FailingPass(kind: FailKind, now: nat): seq<Event> {
    [Begin(1, now, Durable, Durable), Read(Durable), Fail(kind, now, Durable)]
  }

  /** An idle worker whose record lets the head be called at `now` for the (k+1)-th time. */
  ghost predicate Callable(a: Agent, s: Scope, head: Id, k: nat, now: nat) {
    && Inv(a, s) && s.worker.Some? && s.worker.value.phase.Idle?
    && Current(a, s) != [] && Current(a, s)[0].id == head
    && var f := s.worker.value.failure;
       if f.None? then k == 0
       else f.value.windowId == head && f.value.attempts == k && f.value.backoffUntil <= now
            && !f.value.providerOpen && !f.value.persistenceOpen && !f.value.continuityOpen
  }

  /** Begin admits a callable head with a limit that is not zero. */
  lemma BeginAdmits(a: Agent, s: Scope, head: Id, k: nat, now: nat)
    requires WellFormed(a) && Callable(a, s, head, k, now)
    ensures var t := Step(a, s, Begin(1, now, Durable, Durable));
            && Inv(a, t) && Current(a, t) == Current(a, s) && t.log == s.log && t.worker.Some?
            && t.worker.value.failure == s.worker.value.failure
            && t.worker.value.phase.Admitted? && t.worker.value.phase.need == 1
  {
    BeginKeepsInv(a, s, 1, now, Durable, Durable);
  }

  /** Reading with a minimum of one always finds a window. */
  lemma ReadCalls(a: Agent, s: Scope)
    requires WellFormed(a) && Inv(a, s) && s.worker.Some? && s.worker.value.phase.Admitted?
        && s.worker.value.phase.need == 1
    ensures var t := StepRead(a, s, Durable);
            && Inv(a, t) && Current(a, t) == Current(a, s) && t.log == s.log && t.worker.Some?
            && t.worker.value.failure == s.worker.value.failure && t.worker.value.phase.Calling?
            && |t.worker.value.phase.window| > 0 && t.worker.value.phase.window[0].id == Current(a, s)[0].id
  {
    ReadKeepsInv(a, s, Durable);
    WindowSize(a, Current(a, s), s.worker.value.phase.limit);
    SomeCompatible(Current(a, s));
  }

  /** Begin and Read bring a callable head to the provider. */
  lemma CallReached(a: Agent, s: Scope, head: Id, k: nat, now: nat)
    requires WellFormed(a) && Callable(a, s, head, k, now)
    ensures var t := Step(a, Step(a, s, Begin(1, now, Durable, Durable)), Read(Durable));
            && Inv(a, t) && Current(a, t) == Current(a, s) && t.log == s.log && t.worker.Some?
            && t.worker.value.failure == s.worker.value.failure && t.worker.value.phase.Calling?
            && |t.worker.value.phase.window| > 0 && t.worker.value.phase.window[0].id == head
  {
    hide StepBegin, StepRead, Inv;
    BeginAdmits(a, s, head, k, now);
    ReadCalls(a, Step(a, s, Begin(1, now, Durable, Durable)));
  }

  lemma SomeCompatible(inputs: seq<Entry>)
    requires inputs != []
    ensures CompatibleFrom(inputs, 0, None) >= 1
  {
  }

  /** What is the same before and after a stretch of a run that only spends `calls`. */
  ghost predicate OnlySpends(a: Agent, s: Scope, spent: seq<Id>, events: seq<Event>, calls: seq<Id>) {
    && SpentFrom(a, s, spent, events) == spent + calls
    && Current(a, Run(a, s, events)) == Current(a, s)
    && History(a, s, events) == []
  }

  lemma OneSpends(a: Agent, s: Scope, spent: seq<Id>, ev: Event, calls: seq<Id>)
    requires SpentAfter(a, s, spent, ev) == spent + calls
    requires Current(a, Step(a, s, ev)) == Current(a, s) && Disposals(a, s, ev) == []
    ensures OnlySpends(a, s, spent, [ev], calls) && Run(a, s, [ev]) == Step(a, s, ev)
  {
    RunOne(a, s, ev, spent);
  }

  lemma ThenSpends(a: Agent, s: Scope, spent: seq<Id>, x: seq<Event>, xs: seq<Id>, y: seq<Event>, ys: seq<Id>)
    requires OnlySpends(a, s, spent, x, xs) && OnlySpends(a, Run(a, s, x), spent + xs, y, ys)
    ensures OnlySpends(a, s, spent, x + y, xs + ys) && Run(a, s, x + y) == Run(a, Run(a, s, x), y)
  {
    hide Step, Run, SpentAfter, SpentFrom, Disposals, History, Current;
    RunAppend(a, s, x, y);
    SpentFromAppend(a, s, spent, x, y);
    assert spent + xs + ys == spent + (xs + ys);
  }

  /** A failed call on a head with k attempts that is not the last one allowed leaves it callable again. */
  lemma FailCounts(a: Agent, s: Scope, head: Id, k: nat, kind: FailKind, now: nat)
    requires WellFormed(a) && Inv(a, s) && Enabled(a, s, Fail(kind, now, Durable))
        && s.worker.value.phase.window[0].id == head
    requires FailureFor(s.worker.value.failure, head).attempts == k < MAX_WINDOW_ATTEMPTS
    requires kind.Poison? ==> k + 1 < MAX_WINDOW_ATTEMPTS
    requires s.worker.value.failure.Some? ==>
      var f := s.worker.value.failure.value;
      f.windowId == head && !f.providerOpen && !f.persistenceOpen && !f.continuityOpen
    ensures var t := StepFail(a, s, kind, now, Durable);
            && Current(a, t) == Current(a, s) && Disposals(a, s, Fail(kind, now, Durable)) == []
            && (k + 1 < MAX_WINDOW_ATTEMPTS ==> Callable(a, t, head, k + 1, now + BACKOFF_CAP))
  {
    FailKeepsInv(a, s, kind, now, Durable);
    BackoffFormsAgree(BACKOFF_BASE, BACKOFF_CAP, k + 1);
  }

  /** The pass spends one call on the head, disposes of nothing and counts the attempt. */
  lemma PassSpends(a: Agent, s: Scope, spent: seq<Id>, head: Id, k: nat, kind: FailKind, now: nat)
    requires WellFormed(a) && Callable(a, s, head, k, now) && k < MAX_WINDOW_ATTEMPTS
    requires kind.Poison? ==> k + 1 < MAX_WINDOW_ATTEMPTS
    ensures OnlySpends(a, s, spent, FailingPass(kind, now), [head])
    ensures k + 1 < MAX_WINDOW_ATTEMPTS ==>
      Callable(a, Run(a, s, FailingPass(kind, now)), head, k + 1, now + BACKOFF_CAP)
  {
    hide Run, SpentFrom, History, StepBegin, StepRead, StepFail, Inv;
    var x, y, z := Begin(1, now, Durable, Durable), Read(Durable), Fail(kind, now, Durable);
    var b := Step(a, s, x);
    var c := Step(a, b, y);
    CallReached(a, s, head, k, now);
    BeginKeepsInv(a, s, 1, now, Durable, Durable);
    FailCounts(a, c, head, k, kind, now);
    OneSpends(a, s, spent, x, []);
    OneSpends(a, b, spent, y, []);
    OneSpends(a, c, spent, z, [head]);
    Three(a, s, spent, x, y, z, [head]);
    assert [x] + [y] + [z] == FailingPass(kind, now);
  }

  lemma Three(a: Agent, s: Scope, spent: seq<Id>, x: Event, y: Event, z: Event, calls: seq<Id>)
    requires var b := Step(a, s, x); var c := Step(a, b, y);
             OnlySpends(a, s, spent, [x], []) && OnlySpends(a, b, spent, [y], []) && OnlySpends(a, c, spent, [z], calls)
    ensures OnlySpends(a, s, spent, [x] + [y] + [z], calls)
    ensures Run(a, s, [x] + [y] + [z]) == Step(a, Step(a, Step(a, s, x), y), z)
  {
    var b := Step(a, s, x);
    RunOne(a, s, x, spent);
    RunOne(a, b, y, spent);
    RunOne(a, Step(a, b, y), z, spent);
    assert spent + [] == spent;
    ThenSpends(a, s, spent, [x], [], [y], []);
    ThenSpends(a, s, spent, [x] + [y], [], [z], calls);
    assert [] + calls == calls;
  }

  /** Held calls one full backoff apart. */
  function HeldPasses(n: nat): seq<Event> {
    if n == 0 then [] else HeldPasses(n - 1) + FailingPass(Hold, (n - 1) * BACKOFF_CAP)
  }

  /** A head without a record can be called n times, up to the bound, and is still the head. */
  lemma {:induction false} HeldPassesSpend(a: Agent, s: Scope, spent: seq<Id>, head: Id, n: nat)
    requires WellFormed(a) && Callable(a, s, head, 0, 0) && n <= MAX_WINDOW_ATTEMPTS
    ensures OnlySpends(a, s, spent, HeldPasses(n), Repeated(head, n))
    ensures n < MAX_WINDOW_ATTEMPTS ==> Callable(a, Run(a, s, HeldPasses(n)), head, n, n * BACKOFF_CAP)
  {
    hide Run, OnlySpends, Callable;
    NothingSpends(a, s, spent);
    if n > 0 {
      var front, now := HeldPasses(n - 1), (n - 1) * BACKOFF_CAP;
      HeldPassesSpend(a, s, spent, head, n - 1);
      PassSpends(a, Run(a, s, front), spent + Repeated(head, n - 1), head, n - 1, Hold, now);
      ThenSpends(a, s, spent, front, Repeated(head, n - 1), FailingPass(Hold, now), [head]);
    }
  }

  lemma NothingSpends(a: Agent, s: Scope, spent: seq<Id>)
    ensures OnlySpends(a, s, spent, [], []) && Run(a, s, []) == s
  {
  }

  function Repeated(head: Id, n: nat): seq<Id> { if n == 0 then [] else Repeated(head, n - 1) + [head] }

  lemma {:induction false} CountRepeated(spent: seq<Id>, head: Id, n: nat)
    ensures Count(spent + Repeated(head, n), head) == Count(spent, head) + n
  {
    if n == 0 {
      assert spent + [] == spent;
    } else {
      CountRepeated(spent, head, n - 1);
      assert spent + (Repeated(head, n - 1) + [head]) == spent + Repeated(head, n - 1) + [head];
      CountPush(spent + Repeated(head, n - 1), head, head);
    }
  }

  // ---- Forgetting breaks the bound ---------------------------------------------------------------

  /** A forgetting step leaves the head where it is, with no record of it. */
  lemma ForgottenHeadIsCallable(a: Agent, s: Scope, spent: seq<Id>, ev: Event)
    requires WellFormed(a) && Inv(a, s) && Forgets(a, s, spent, ev)
    ensures var t := Step(a, s, ev);
            && Callable(a, t, Current(a, s)[0].id, 0, 0) && t.worker.value.failure == None
            && SpentAfter(a, s, spent, ev) == spent
  {
    hide Sound, WindowOf;
    if ev.Begin? { BeginKeepsInv(a, s, ev.minBatch, ev.now, ev.hold, ev.clear); } else { ReadKeepsInv(a, s, ev.clear); }
  }

  /** The converse of the bound: once a pass forgets a head that has cost n calls, four more calls can be
      spent on it before the next start, and it is still pending and not dead-lettered. */
  lemma ForgottenHeadExceedsTheBound(a: Agent, s: Scope, events: seq<Event>, ev: Event)
    requires WellFormed(a) && Inv(a, s) && Forgets(a, Run(a, s, events), Spent(a, s, events), ev)
    ensures var head := Current(a, Run(a, s, events))[0].id; var all := events + [ev] + HeldPasses(MAX_WINDOW_ATTEMPTS);
            && Count(Spent(a, s, all), head) ==
                Count(Spent(a, s, events), head) + MAX_WINDOW_ATTEMPTS > MAX_WINDOW_ATTEMPTS
            && Current(a, Run(a, s, all)) != [] && Current(a, Run(a, s, all))[0].id == head
            && DeadLettered(head) !in History(a, s, all)
  {
    var t, spent := Run(a, s, events), Spent(a, s, events);
    var head, more := Current(a, t)[0].id, HeldPasses(MAX_WINDOW_ATTEMPTS);
    RunKeepsInv(a, s, events);
    ForgottenHeadIsCallable(a, t, spent, ev);
    HeldPassesSpend(a, Step(a, t, ev), spent, head, MAX_WINDOW_ATTEMPTS);
    SpentAcross(a, s, events, ev, more);
    CountRepeated(spent, head, MAX_WINDOW_ATTEMPTS);
    PendingIsNotDeadLettered(a, s, events + [ev] + more, head);
  }

  lemma SpentAcross(a: Agent, s: Scope, events: seq<Event>, ev: Event, more: seq<Event>)
    ensures var t := Run(a, s, events); var all := events + [ev] + more;
            && Run(a, s, all) == Run(a, Step(a, t, ev), more)
            && Spent(a, s, all) == SpentFrom(a, Step(a, t, ev), SpentAfter(a, t, Spent(a, s, events), ev), more)
  {
    RunOne(a, Run(a, s, events), ev, Spent(a, s, events));
    RunAppend(a, s, events, [ev]);
    RunAppend(a, s, events + [ev], more);
  }

  lemma PendingIsNotDeadLettered(a: Agent, s: Scope, events: seq<Event>, head: Id)
    requires WellFormed(a) && Inv(a, s) && Current(a, Run(a, s, events)) != []
        && Current(a, Run(a, s, events))[0].id == head
    ensures DeadLettered(head) !in History(a, s, events)
  {
    hide Step, Inv;
    NothingTwice(a, s, events);
    DistinctSplit(Flatten(History(a, s, events)), Ids(Current(a, Run(a, s, events))));
    if DeadLettered(head) in History(a, s, events) { FlattenHas(History(a, s, events), DeadLettered(head)); }
  }

  lemma DistinctSplit(done: seq<Id>, pending: seq<Id>)
    requires Distinct(done + pending) && |pending| > 0
    ensures pending[0] !in done
  {
    forall i | 0 <= i < |done| ensures done[i] != pending[0] {
      assert (done + pending)[i] == done[i] && (done + pending)[|done|] == pending[0];
    }
  }

  lemma {:induction false} FlattenHas(ds: seq<Disposal>, d: Disposal)
    requires d in ds && d.DeadLettered?
    ensures d.id in Flatten(ds)
  {
    if ds[|ds| - 1] != d {
      assert d in ds[..|ds| - 1] by { assert ds == ds[..|ds| - 1] + [ds[|ds| - 1]]; }
      FlattenHas(ds[..|ds| - 1], d);
    }
  }

  /** Some beginning of the run, continued as it may be, spends more than four calls on one head. */
  ghost predicate Exceedable(a: Agent, s: Scope, events: seq<Event>) {
    exists n, more, head :: 0 <= n <= |events| && Exceeds(a, s, events[..n] + more, head)
  }

  ghost predicate Exceeds(a: Agent, s: Scope, events: seq<Event>, head: Id) {
    Count(Spent(a, s, events), head) > MAX_WINDOW_ATTEMPTS
  }

  /** A run that forgets a head it has spent calls on has a beginning that can be continued past the bound. */
  lemma {:induction false} ForgettingRunsExceedTheBound(a: Agent, s: Scope, events: seq<Event>)
    requires WellFormed(a) && Inv(a, s) && !Remembers(a, s, events)
    ensures Exceedable(a, s, events)
  {
    hide Run, Inv, Current, Spent;
    var m := |events| - 1;
    var prefix, ev := events[..m], events[m];
    if !Remembers(a, s, prefix) {
      ForgettingRunsExceedTheBound(a, s, prefix);
      var n, more, head :| 0 <= n <= m && Exceeds(a, s, prefix[..n] + more, head);
      assert prefix[..n] == events[..n];
    } else {
      ForgottenHeadExceedsTheBound(a, s, prefix, ev);
      var head := Current(a, Run(a, s, prefix))[0].id;
      assert prefix + [ev] == events[..m + 1];
      assert Exceeds(a, s, events[..m + 1] + HeldPasses(MAX_WINDOW_ATTEMPTS), head);
    }
  }

  // ---- Two minimums that alternate ------------------------------------------------------------------

  /** A wake-up call that fails, then the ticker's pass, which finds the queue short. */
  function Cycle(a: Agent): seq<Event> {
    FailingPass(Poison, 0) + [Begin(a.minBatch, 0, Durable, Durable)]
  }

  function Cycles(a: Agent, n: nat): seq<Event> {
    if n == 0 then [] else Cycles(a, n - 1) + Cycle(a)
  }

  /** An idle worker without a record and fewer rows than the ticker asks for. */
  ghost predicate Starved(a: Agent, s: Scope, head: Id) {
    Inv(a, s) && s.worker.Some? && s.worker.value.phase.Idle? && s.worker.value.failure == None
    && 0 < |Current(a, s)| < a.minBatch && Current(a, s)[0].id == head
  }

  lemma CycleSpends(a: Agent, s: Scope, spent: seq<Id>, head: Id)
    requires WellFormed(a) && Starved(a, s, head)
    ensures OnlySpends(a, s, spent, Cycle(a), [head]) && Starved(a, Run(a, s, Cycle(a)), head)
  {
    var ev := Begin(a.minBatch, 0, Durable, Durable);
    var t := Run(a, s, FailingPass(Poison, 0));
    PassSpends(a, s, spent, head, 0, Poison, 0);
    TickerForgets(a, t, head);
    OneSpends(a, t, spent + [head], ev, []);
    ThenSpends(a, s, spent, FailingPass(Poison, 0), [head], [ev], []);
    assert [head] + [] == [head];
  }

  /** The ticker's pass drops the record of a head it finds alone. */
  lemma TickerForgets(a: Agent, s: Scope, head: Id)
    requires WellFormed(a) && Callable(a, s, head, 1, BACKOFF_CAP) && |Current(a, s)| < a.minBatch
    ensures var ev := Begin(a.minBatch, 0, Durable, Durable);
            && Starved(a, Step(a, s, ev), head) && Current(a, Step(a, s, ev)) == Current(a, s)
            && Disposals(a, s, ev) == [] && forall spent :: SpentAfter(a, s, spent, ev) == spent
  {
    BeginKeepsInv(a, s, a.minBatch, 0, Durable, Durable);
  }

  lemma {:induction false} CyclesSpend(a: Agent, s: Scope, head: Id, n: nat)
    requires WellFormed(a) && Starved(a, s, head)
    ensures OnlySpends(a, s, [], Cycles(a, n), Repeated(head, n)) && Starved(a, Run(a, s, Cycles(a, n)), head)
  {
    hide Run, OnlySpends, Starved;
    NothingSpends(a, s, []);
    if n > 0 {
      CyclesSpend(a, s, head, n - 1);
      assert [] + Repeated(head, n - 1) == Repeated(head, n - 1);
      CycleSpends(a, Run(a, s, Cycles(a, n - 1)), Repeated(head, n - 1), head);
      ThenSpends(a, s, [], Cycles(a, n - 1), Repeated(head, n - 1), Cycle(a), [head]);
    }
  }

  /** The bound fails without end where wake-ups and the ticker alternate on a queue shorter than the
      ticker's minimum: for every n there is a run that spends n failing calls on one head after one start
      and disposes of nothing. */
  lemma AlternatingMinimumsSpendWithoutEnd(a: Agent, s: Scope, n: nat)
    requires WellFormed(a) && Inv(a, s) && s.worker == None && 0 < |Current(a, s)| < a.minBatch
    ensures var all := [] + [Restart("", Durable, Durable, Durable)] + Cycles(a, n);
            Count(Spent(a, s, all), Current(a, s)[0].id) == n && History(a, s, all) == []
  {
    hide Run, SpentFrom, Step, SpentAfter, Disposals, Inv, Cycles;
    var start := Restart("", Durable, Durable, Durable);
    StartIsClean(a, s, start);
    CyclesSpend(a, Step(a, s, start), Current(a, s)[0].id, n);
    SpentAcross(a, s, [], start, Cycles(a, n));
    CountRepeated([], Current(a, s)[0].id, n);
    RunOne(a, s, start, []);
    RunAppend(a, s, [start], Cycles(a, n));
    assert [] + [start] == [start];
  }

  lemma StartIsClean(a: Agent, s: Scope, start: Event)
    requires WellFormed(a) && Inv(a, s) && s.worker == None && 0 < |Current(a, s)| < a.minBatch
    requires start == Restart("", Durable, Durable, Durable)
    ensures Starved(a, Step(a, s, start), Current(a, s)[0].id) && Current(a, Step(a, s, start)) == Current(a, s)
    ensures SpentAfter(a, s, [], start) == [] && Disposals(a, s, start) == []
  {
    RestartKeepsInv(a, s, "", Durable, Durable, Durable);
    SoundCheckpointSurvives(a, s.log, "", s.disk);
  }

  /** Such a queue exists: one row, and a ticker that asks for two. */
  lemma StarvedQueueExists()
    ensures exists a, s :: WellFormed(a) && Inv(a, s) && s.worker == None && |Current(a, s)| == 1 < a.minBatch
  {
    var a := Agent("w", "in", "out", "c", "", "", 2, 4, false, false);
    var row := Entry("1", "in", "", "", false, false, true, true, None);
    assert |a.inputKind| != |a.artifactKind|;
    OneRowScope(a, row);
  }

  lemma OneRowScope(a: Agent, row: Entry)
    requires WellFormed(a) && Eligible(a, row) && row.id != ""
    ensures var s := Scope([row], Stamp(a, ABSENT), None); Inv(a, s) && Current(a, s) == [row]
  {
    var log := [row];
    assert EligibleFrom(a, log, 1) == [];
    assert ArtifactsFloor(a, log, 0) == 0 && ArtifactFloor(a, log, 0) == 0;
    assert ArtifactsFloor(a, log, 1) == 0;
  }
}
