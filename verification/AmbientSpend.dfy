/**
 How many failing provider calls one head can cost between two worker starts.
*/
module AmbientSpend {
  import opened Common
  import opened AmbientLog
  import opened AmbientContinuity
  import opened AmbientBudget
  import opened AmbientCursor

  /** The heads of the failing calls since the last start, in order. */
  ghost function SpentAfter(a: Agent, s: Scope, spent: seq<Id>, ev: Event): seq<Id> {
    if !Enabled(a, s, ev) then spent
    else if ev.Crash? || ev.Restart? then []
    else if ev.Fail? then spent + [s.worker.value.phase.window[0].id]
    else spent
  }

  ghost function SpentFrom(a: Agent, s: Scope, spent: seq<Id>, events: seq<Event>): seq<Id> {
    if events == [] then spent else
      SpentAfter(a, Run(a, s, events[..|events| - 1]), SpentFrom(a, s, spent, events[..|events| - 1]),
          events[|events| - 1])
  }

  ghost function Spent(a: Agent, s: Scope, events: seq<Event>): seq<Id> { SpentFrom(a, s, [], events) }

  /** A clear that drops the retry record: there is no held marker to clear first, or clearing it succeeds. */
  predicate Drops(s: Scope, clear: Io) { s.disk.windowId == "" || clear.Durable? }

  /** A pass that finds less than its minimum while calls have already been spent on the head, and drops the
      head's retry record for it: at the peek, or after the window read. */
  ghost predicate Forgets(a: Agent, s: Scope, spent: seq<Id>, ev: Event) {
    && Enabled(a, s, ev) && s.worker.Some? && Current(a, s) != [] && Count(spent, Current(a, s)[0].id) > 0
    && ((ev.Begin? && |Peek(a, Current(a, s))| < Max(1, ev.minBatch) && Drops(s, ev.clear)
         && !(s.worker.value.failure.Some? && s.worker.value.failure.value.continuityOpen))
        || (ev.Read? && |WindowOf(a, Current(a, s), s.worker.value.phase.limit)| < s.worker.value.phase.need
            && Drops(s, ev.clear)))
  }

  /** No pass of the run forgets a head it has spent calls on. */
  ghost predicate Remembers(a: Agent, s: Scope, events: seq<Event>) {
    events == [] ||
    (var prefix := events[..|events| - 1];
     Remembers(a, s, prefix) && !Forgets(a, Run(a, s, prefix), Spent(a, s, prefix), events[|events| - 1]))
  }

  /** An id that is not ahead of the head: no id, or a row of the log that is not behind the head in the queue. */
  ghost predicate NotAhead(a: Agent, s: Scope, id: Id) {
    id == "" ||
    (VisibleIndex(a, s.log, id) >= 0 && forall k :: 1 <= k < |Current(a, s)| ==> Current(a, s)[k].id != id)
  }

  predicate CircuitOpen(f: Option<Failure>) { f.Some? && (f.value.providerOpen || f.value.persistenceOpen) }

  /** The retry record and the calls spent on the head tell the same story. */
  ghost predicate HeadInv(a: Agent, s: Scope, spent: seq<Id>) {
    s.worker.Some? && Current(a, s) != [] ==>
      var w := s.worker.value; var f := w.failure; var head := Current(a, s)[0].id; var n := Count(spent, head);
      && (f.Some? && f.value.windowId == head ==> f.value.attempts == n || f.value.persistenceOpen)
      && (f.Some? && f.value.windowId == head && !CircuitOpen(f) ==> f.value.attempts < MAX_WINDOW_ATTEMPTS)
      && (n > 0 ==> f.Some? && f.value.windowId == head)
      && (n >= MAX_WINDOW_ATTEMPTS ==> CircuitOpen(f))
      && (w.phase.Landed? ==> n == 0)
      && (w.phase.Admitted? || w.phase.Calling? ==> n < MAX_WINDOW_ATTEMPTS && FailureFor(f, head).attempts == n)
  }

  /** Every id spent on, and the one the retry record names, is behind us or is the head. */
  ghost predicate Known(a: Agent, s: Scope, spent: seq<Id>) {
    && (s.worker.None? ==> spent == [])
    && (forall id :: id in spent ==> id != "" && NotAhead(a, s, id))
    && (s.worker.Some? && s.worker.value.failure.Some? ==> NotAhead(a, s, s.worker.value.failure.value.windowId))
  }

  /** The head of the queue, if there is one. */
  function Front(a: Agent, s: Scope): Option<Id> {
    if Current(a, s) == [] then None else Some(Current(a, s)[0].id)
  }

  /** No id cost more than four calls; one that cost four is dead-lettered or still in front. */
  ghost predicate Tally(spent: seq<Id>, history: seq<Disposal>, front: Option<Id>) {
    forall id :: Count(spent, id) <= MAX_WINDOW_ATTEMPTS &&
      (Count(spent, id) == MAX_WINDOW_ATTEMPTS ==> DeadLettered(id) in history || front == Some(id))
  }

  ghost predicate SpendInv(a: Agent, s: Scope, spent: seq<Id>, history: seq<Disposal>) {
    Known(a, s, spent) && Tally(spent, history, Front(a, s)) && HeadInv(a, s, spent)
  }

  // ---- Counting ----------------------------------------------------------------------------

  lemma CountPush(s: seq<Id>, x: Id, y: Id)
    ensures Count(s + [x], y) == Count(s, y) + if x == y then 1 else 0
  {
    assert (s + [x])[..|s|] == s;
  }

  lemma {:induction false} CountAbsent(s: seq<Id>, x: Id)
    ensures Count(s, x) > 0 <==> x in s
  {
    if s != [] {
      CountAbsent(s[..|s| - 1], x);
      assert s == s[..|s| - 1] + [s[|s| - 1]];
    }
  }

  /** A row behind the head has cost nothing yet. */
  lemma BehindIsUnspent(a: Agent, s: Scope, spent: seq<Id>, history: seq<Disposal>, k: nat)
    requires SpendInv(a, s, spent, history) && 1 <= k < |Current(a, s)|
    ensures Count(spent, Current(a, s)[k].id) == 0
    ensures s.worker.Some? && s.worker.value.failure.Some? && Current(a, s)[k].id != "" ==>
      s.worker.value.failure.value.windowId != Current(a, s)[k].id
  {
    CountAbsent(spent, Current(a, s)[k].id);
  }

  // ---- Steps that drop a prefix of what is pending -------------------------------------------

  lemma NotAheadAfterDrop(a: Agent, s: Scope, t: Scope, n: nat, id: Id)
    requires Inv(a, s) && n <= |Current(a, s)| && Current(a, t) == Current(a, s)[n..]
    requires t.log == s.log || (exists e :: t.log == s.log + [e] && Fresh(s.log, e))
    requires NotAhead(a, s, id)
    ensures NotAhead(a, t, id)
  {
    if id != "" && t.log != s.log {
      var e :| t.log == s.log + [e] && Fresh(s.log, e);
      AppendKeepsVisible(a, s.log, e, id);
    }
  }

  /** Nothing has been spent on the present head, and no record speaks of it. */
  lemma FreshHead(a: Agent, s: Scope, t: Scope, spent: seq<Id>, history: seq<Disposal>, n: nat)
    requires Inv(a, s) && SpendInv(a, s, spent, history)
    requires 0 < n < |Current(a, s)| && Current(a, t) == Current(a, s)[n..]
    ensures Count(spent, Current(a, t)[0].id) == 0 && Current(a, t)[0].id != ""
    ensures s.worker.Some? && s.worker.value.failure.Some? ==>
        s.worker.value.failure.value.windowId != Current(a, t)[0].id
  {
    BehindIsUnspent(a, s, spent, history, n);
    PendingIdIsRow(a, s, n);
  }

  lemma PendingIdIsRow(a: Agent, s: Scope, k: nat)
    requires Inv(a, s) && k < |Current(a, s)|
    ensures Current(a, s)[k].id != "" && VisibleIndex(a, s.log, Current(a, s)[k].id) >= 0
  {
    PendingAfterBaseline(a, s.log, BaselineNow(s), k);
    BaselinesAnchored(a, s);
  }

  lemma HeadIsNotAhead(a: Agent, s: Scope)
    requires Inv(a, s) && Current(a, s) != []
    ensures NotAhead(a, s, Current(a, s)[0].id)
  {
    PendingIdIsRow(a, s, 0);
    EligibleDistinct(a, s.log, Start(a, s.log, BaselineNow(s)));
  }

  lemma AppendKeepsSpend(a: Agent, s: Scope, spent: seq<Id>, history: seq<Disposal>, e: Entry)
    requires WellFormed(a) && Inv(a, s) && SpendInv(a, s, spent, history) && Foreign(a, s, e)
    ensures SpendInv(a, s.(log := s.log + [e]), spent, history)
  {
    var t := s.(log := s.log + [e]);
    AppendExtendsCurrent(a, s, e);
    forall id | NotAhead(a, s, id) ensures NotAhead(a, t, id) && id != e.id {
      if id != "" { AppendKeepsVisible(a, s.log, e, id); }
    }
    CountAbsent(spent, e.id);
    assert !Eligible(a, e) ==> Current(a, t) == Current(a, s);
  }

  /** Any step that keeps the log and what is pending, and whose new record respects the head. */
  lemma SameHeadKeepsSpend(a: Agent, s: Scope, t: Scope, spent: seq<Id>, history: seq<Disposal>)
    requires SpendInv(a, s, spent, history) && s.worker.Some? && t.worker.Some?
    requires t.log == s.log && Current(a, t) == Current(a, s)
    requires t.worker.value.failure.Some? ==> NotAhead(a, s, t.worker.value.failure.value.windowId)
    requires HeadInv(a, t, spent)
    ensures SpendInv(a, t, spent, history)
  {
  }

  lemma ClearKeepsSpend(a: Agent, s: Scope, spent: seq<Id>, history: seq<Disposal>, io: Io)
    requires Inv(a, s) && SpendInv(a, s, spent, history) && s.worker.Some? && s.worker.value.phase.Idle?
    requires Current(a, s) != [] && Drops(s, io) ==> Count(spent, Current(a, s)[0].id) == 0
    ensures SpendInv(a, Clear(a, s, io), spent, history)
  {
    ClearKeepsInv(a, s, io);
    if Current(a, s) != [] { PendingIdIsRow(a, s, 0); }
    SameHeadKeepsSpend(a, s, Clear(a, s, io), spent, history);
  }

  lemma AdmittedKeepsSpend(a: Agent, s: Scope, spent: seq<Id>, history: seq<Disposal>, need: nat, now: nat, hold: Io)
    requires WellFormed(a) && Inv(a, s) && SpendInv(a, s, spent, history) && 1 <= need
    requires s.worker.Some? && s.worker.value.phase.Idle? && Current(a, s) != []
    requires Budget(a, s.worker.value.failure, Current(a, s)[0].id, now).Some?
    ensures var limit := Budget(a, s.worker.value.failure, Current(a, s)[0].id, now).value;
            SpendInv(a, StepAdmitted(a, s, need, limit, hold), spent, history)
  {
    var limit := Budget(a, s.worker.value.failure, Current(a, s)[0].id, now).value;
    AdmittedKeepsInv(a, s, need, limit, hold);
    HeadIsNotAhead(a, s);
    PendingIdIsRow(a, s, 0);
    SameHeadKeepsSpend(a, s, StepAdmitted(a, s, need, limit, hold), spent, history);
  }

  lemma BeginKeepsSpend(a: Agent, s: Scope, spent: seq<Id>, history: seq<Disposal>, minBatch: nat, now: nat, hold: Io,
      clear: Io)
    requires WellFormed(a) && Inv(a, s) && SpendInv(a, s, spent, history)
    requires s.worker.Some? && s.worker.value.phase.Idle? && !Forgets(a, s, spent, Begin(minBatch, now, hold, clear))
    ensures SpendInv(a, StepBegin(a, s, minBatch, now, hold, clear), spent, history)
  {
    if |Peek(a, Current(a, s))| < Max(1, minBatch) {
      if !(s.worker.value.failure.Some? && s.worker.value.failure.value.continuityOpen) {
        ClearKeepsSpend(a, s, spent, history, clear);
      }
    } else if Budget(a, s.worker.value.failure, Current(a, s)[0].id, now).Some? {
      AdmittedKeepsSpend(a, s, spent, history, Max(1, minBatch), now, hold);
    }
  }

  lemma ShortReadKeepsSpend(a: Agent, s: Scope, spent: seq<Id>, history: seq<Disposal>, clear: Io)
    requires WellFormed(a) && Inv(a, s) && SpendInv(a, s, spent, history)
    requires s.worker.Some? && s.worker.value.phase.Admitted? && !Forgets(a, s, spent, Read(clear))
    requires |WindowOf(a, Current(a, s), s.worker.value.phase.limit)| < s.worker.value.phase.need
    ensures SpendInv(a, StepRead(a, s, clear), spent, history)
  {
    hide WindowOf, Sound;
    var idle := s.(worker := Some(s.worker.value.(phase := Idle)));
    SameHeadKeepsSpend(a, s, idle, spent, history);
    ClearKeepsSpend(a, idle, spent, history, clear);
  }

  lemma ReadKeepsSpend(a: Agent, s: Scope, spent: seq<Id>, history: seq<Disposal>, clear: Io)
    requires WellFormed(a) && Inv(a, s) && SpendInv(a, s, spent, history)
    requires s.worker.Some? && s.worker.value.phase.Admitted? && !Forgets(a, s, spent, Read(clear))
    ensures SpendInv(a, StepRead(a, s, clear), spent, history)
  {
    hide WindowOf, Sound;
    if |WindowOf(a, Current(a, s), s.worker.value.phase.limit)| < s.worker.value.phase.need {
      ShortReadKeepsSpend(a, s, spent, history, clear);
    } else {
      ReadKeepsInv(a, s, clear);
      SameHeadKeepsSpend(a, s, StepRead(a, s, clear), spent, history);
    }
  }

  /** One more call on the front, which had cost fewer than four. */
  lemma TallyPush(spent: seq<Id>, history: seq<Disposal>, head: Id, history': seq<Disposal>, front: Option<Id>)
    requires Tally(spent, history, Some(head)) && Count(spent, head) < MAX_WINDOW_ATTEMPTS
    requires forall d :: d in history ==> d in history'
    requires Count(spent, head) + 1 == MAX_WINDOW_ATTEMPTS ==> DeadLettered(head) in history' || front == Some(head)
    ensures Tally(spent + [head], history', front)
  {
    forall id ensures Count(spent + [head], id) == Count(spent, id) + if head == id then 1 else 0 {
      CountPush(spent, head, id);
    }
  }

  lemma KnownPush(a: Agent, s: Scope, spent: seq<Id>)
    requires Inv(a, s) && s.worker.Some? && Current(a, s) != [] && Known(a, s, spent)
    ensures Known(a, s, spent + [Current(a, s)[0].id])
  {
    HeadIsNotAhead(a, s);
    PendingIdIsRow(a, s, 0);
  }

  /** Known ids stay known when the front rows leave the queue. */
  lemma KnownAfterDrop(a: Agent, s: Scope, t: Scope, spent: seq<Id>, n: nat)
    requires Inv(a, s) && n <= |Current(a, s)| && Current(a, t) == Current(a, s)[n..] && Known(a, s, spent)
    requires t.log == s.log || (exists e :: t.log == s.log + [e] && Fresh(s.log, e))
    requires t.worker.Some? && (t.worker.value.failure.Some? ==> NotAhead(a, s, t.worker.value.failure.value.windowId))
    ensures Known(a, t, spent)
  {
    forall id | NotAhead(a, s, id) ensures NotAhead(a, t, id) { NotAheadAfterDrop(a, s, t, n, id); }
  }

  /** A record that has counted one more call on the head than before. */
  predicate Counted(f: Option<Failure>, head: Id, n: nat) {
    && f.Some? && f.value.windowId == head && (f.value.attempts == n || f.value.persistenceOpen)
    && (CircuitOpen(f) || f.value.attempts < MAX_WINDOW_ATTEMPTS) && (n >= MAX_WINDOW_ATTEMPTS ==> CircuitOpen(f))
  }

  /** A failing call that leaves the head in front and counts itself. */
  lemma CountedCallKeepsSpend(a: Agent, s: Scope, t: Scope, spent: seq<Id>, history: seq<Disposal>)
    requires Inv(a, s) && SpendInv(a, s, spent, history) && s.worker.Some? && s.worker.value.phase.Calling?
    requires t.log == s.log && Current(a, t) == Current(a, s) && t.worker.Some? && t.worker.value.phase.Idle?
    requires Counted(t.worker.value.failure, Current(a, s)[0].id, Count(spent, Current(a, s)[0].id) + 1)
    ensures SpendInv(a, t, spent + [Current(a, s)[0].id], history)
  {
    var head := Current(a, s)[0].id;
    HeadIsNotAhead(a, s);
    KnownPush(a, s, spent);
    KnownAfterDrop(a, s, t, spent + [head], 0);
    TallyPush(spent, history, head, history, Front(a, t));
    CountPush(spent, head, head);
  }

  lemma HoldKeepsSpend(a: Agent, s: Scope, spent: seq<Id>, history: seq<Disposal>, now: nat, io: Io)
    requires WellFormed(a) && Inv(a, s) && SpendInv(a, s, spent, history)
    requires Enabled(a, s, Fail(Hold, now, io))
    ensures SpendInv(a, StepFail(a, s, Hold, now, io), spent + [s.worker.value.phase.window[0].id], history)
  {
    FailKeepsInv(a, s, Hold, now, io);
    CountedCallKeepsSpend(a, s, StepFail(a, s, Hold, now, io), spent, history);
  }

  /** The fourth poison failure, published: the head leaves, the rest starts clean. */
  lemma DeadLetterKeepsSpend(a: Agent, s: Scope, spent: seq<Id>, history: seq<Disposal>, now: nat, io: Io)
    requires WellFormed(a) && Inv(a, s) && SpendInv(a, s, spent, history)
    requires Enabled(a, s, Fail(Poison, now, io)) && DeadLettersNow(s, Poison, io)
    ensures SpendInv(a, StepFail(a, s, Poison, now, io), spent + [s.worker.value.phase.window[0].id],
                     history + [DeadLettered(s.worker.value.phase.window[0].id)])
  {
    var t := StepFail(a, s, Poison, now, io);
    var head := Current(a, s)[0].id;
    FailKeepsInv(a, s, Poison, now, io);
    KnownPush(a, s, spent);
    KnownAfterDrop(a, s, t, spent + [head], 1);
    TallyPush(spent, history, head, history + [DeadLettered(head)], Front(a, t));
    if |Current(a, s)| > 1 {
      FreshHead(a, s, t, spent, history, 1);
      CountPush(spent, head, Current(a, t)[0].id);
      HeadsDiffer(a, s);
    }
  }

  lemma HeadsDiffer(a: Agent, s: Scope)
    requires Inv(a, s) && |Current(a, s)| > 1
    ensures Current(a, s)[0].id != Current(a, s)[1].id
  {
    EligibleDistinct(a, s.log, Start(a, s.log, BaselineNow(s)));
  }

  lemma PoisonKeepsSpend(a: Agent, s: Scope, spent: seq<Id>, history: seq<Disposal>, now: nat, io: Io)
    requires WellFormed(a) && Inv(a, s) && SpendInv(a, s, spent, history)
    requires Enabled(a, s, Fail(Poison, now, io)) && !DeadLettersNow(s, Poison, io)
    ensures SpendInv(a, StepFail(a, s, Poison, now, io), spent + [s.worker.value.phase.window[0].id], history)
  {
    FailKeepsInv(a, s, Poison, now, io);
    CountedCallKeepsSpend(a, s, StepFail(a, s, Poison, now, io), spent, history);
  }

  lemma LandKeepsSpend(a: Agent, s: Scope, spent: seq<Id>, history: seq<Disposal>, e: Entry)
    requires WellFormed(a) && Inv(a, s) && SpendInv(a, s, spent, history) && Enabled(a, s, Land(e))
    ensures SpendInv(a, Step(a, s, Land(e)), spent, history + Disposals(a, s, Land(e)))
  {
    var t := Step(a, s, Land(e));
    var n := |s.worker.value.phase.window|;
    LandKeepsInv(a, s, e);
    forall id | NotAhead(a, s, id) ensures NotAhead(a, t, id) { NotAheadAfterDrop(a, s, t, n, id); }
    if n < |Current(a, s)| { FreshHead(a, s, t, spent, history, n); }
  }

  lemma RestartKeepsSpend(a: Agent, s: Scope, spent: seq<Id>, history: seq<Disposal>, ev: Event)
    requires WellFormed(a) && Inv(a, s) && SpendInv(a, s, spent, history) && ev.Restart? && Enabled(a, s, ev)
    ensures SpendInv(a, Step(a, s, ev), [], history + Disposals(a, s, ev))
  {
    var t := Step(a, s, ev);
    RestartKeepsInv(a, s, ev.bootHead, ev.repair, ev.supersede, ev.ensure);
    RestartFailure(a, s, ev.bootHead, ev.repair, ev.supersede, ev.ensure);
    BaselinesAnchored(a, s);
    KnownAfterDrop(a, s, t, [], if OnDisk(a, s) == Current(a, s) then 0 else 1);
  }

  /** A restart of a sound scope keeps a record only behind an open persistence circuit. */
  lemma RestartFailure(a: Agent, s: Scope, bootHead: Id, repair: Io, supersede: Io, ensure: Io)
    requires Inv(a, s)
    ensures var f := StepRestart(a, s, bootHead, repair, supersede, ensure).worker.value.failure;
            f.Some? ==> (f.value.persistenceOpen && (f.value.windowId == "" ||
              (s.worker.Some? && s.worker.value.failure.Some?
                  && f.value.windowId == s.worker.value.failure.value.windowId)))
    ensures StepRestart(a, s, bootHead, repair, supersede, ensure).worker.value.phase.Idle?
  {
    SoundCheckpointSurvives(a, s.log, bootHead, s.disk);
  }

  lemma SettleKeepsSpend(a: Agent, s: Scope, spent: seq<Id>, history: seq<Disposal>, clear: Io)
    requires WellFormed(a) && Inv(a, s) && SpendInv(a, s, spent, history) && Enabled(a, s, Settle(clear))
    ensures SpendInv(a, Step(a, s, Settle(clear)), spent, history)
  {
    var idle := s.(worker := Some(s.worker.value.(phase := Idle)));
    SameHeadKeepsSpend(a, s, idle, spent, history);
    ClearKeepsSpend(a, idle, spent, history, clear);
  }

  /** The step, the calls it spends and the disposals it makes, taken together. */
  ghost predicate StepSpends(a: Agent, s: Scope, spent: seq<Id>, history: seq<Disposal>, ev: Event) {
    SpendInv(a, Step(a, s, ev), SpentAfter(a, s, spent, ev), history + Disposals(a, s, ev))
  }

  lemma FailStepSpends(a: Agent, s: Scope, spent: seq<Id>, history: seq<Disposal>, kind: FailKind, now: nat, io: Io)
    requires WellFormed(a) && Inv(a, s) && SpendInv(a, s, spent, history) && Enabled(a, s, Fail(kind, now, io))
    ensures StepSpends(a, s, spent, history, Fail(kind, now, io))
  {
    hide Inv, StepFail, SpendInv;
    assert history + [] == history;
    if kind.Hold? { HoldKeepsSpend(a, s, spent, history, now, io); }
    else if DeadLettersNow(s, kind, io) { DeadLetterKeepsSpend(a, s, spent, history, now, io); }
    else { PoisonKeepsSpend(a, s, spent, history, now, io); }
  }

  lemma AppendStepSpends(a: Agent, s: Scope, spent: seq<Id>, history: seq<Disposal>, e: Entry)
    requires WellFormed(a) && Inv(a, s) && SpendInv(a, s, spent, history) && Foreign(a, s, e)
    ensures StepSpends(a, s, spent, history, Append(e))
  {
    hide Inv, SpendInv, Foreign;
    AppendKeepsSpend(a, s, spent, history, e);
    assert history + Disposals(a, s, Append(e)) == history;
  }

  lemma BeginStepSpends(a: Agent, s: Scope, spent: seq<Id>, history: seq<Disposal>, minBatch: nat, now: nat, hold: Io,
      clear: Io)
    requires WellFormed(a) && Inv(a, s) && SpendInv(a, s, spent, history)
    requires s.worker.Some? && s.worker.value.phase.Idle? && !Forgets(a, s, spent, Begin(minBatch, now, hold, clear))
    ensures StepSpends(a, s, spent, history, Begin(minBatch, now, hold, clear))
  {
    hide Inv, SpendInv, StepBegin, Forgets;
    BeginKeepsSpend(a, s, spent, history, minBatch, now, hold, clear);
    assert history + Disposals(a, s, Begin(minBatch, now, hold, clear)) == history;
  }

  lemma ReadStepSpends(a: Agent, s: Scope, spent: seq<Id>, history: seq<Disposal>, clear: Io)
    requires WellFormed(a) && Inv(a, s) && SpendInv(a, s, spent, history)
    requires s.worker.Some? && s.worker.value.phase.Admitted? && !Forgets(a, s, spent, Read(clear))
    ensures StepSpends(a, s, spent, history, Read(clear))
  {
    hide Inv, SpendInv, StepRead, Forgets;
    ReadKeepsSpend(a, s, spent, history, clear);
    assert history + Disposals(a, s, Read(clear)) == history;
  }

  lemma SettleStepSpends(a: Agent, s: Scope, spent: seq<Id>, history: seq<Disposal>, clear: Io)
    requires WellFormed(a) && Inv(a, s) && SpendInv(a, s, spent, history) && Enabled(a, s, Settle(clear))
    ensures StepSpends(a, s, spent, history, Settle(clear))
  {
    hide Inv, SpendInv, Clear;
    SettleKeepsSpend(a, s, spent, history, clear);
    assert history + Disposals(a, s, Settle(clear)) == history;
  }

  lemma LandStepSpends(a: Agent, s: Scope, spent: seq<Id>, history: seq<Disposal>, e: Entry)
    requires WellFormed(a) && Inv(a, s) && SpendInv(a, s, spent, history) && Enabled(a, s, Land(e))
    ensures StepSpends(a, s, spent, history, Land(e))
  {
    hide Inv, SpendInv, Step;
    LandKeepsSpend(a, s, spent, history, e);
  }

  lemma RestartStepSpends(a: Agent, s: Scope, spent: seq<Id>, history: seq<Disposal>, ev: Event)
    requires WellFormed(a) && Inv(a, s) && SpendInv(a, s, spent, history) && ev.Restart? && Enabled(a, s, ev)
    ensures StepSpends(a, s, spent, history, ev)
  {
    hide Inv, SpendInv, Step;
    RestartKeepsSpend(a, s, spent, history, ev);
  }

  lemma IdleStepSpends(a: Agent, s: Scope, spent: seq<Id>, history: seq<Disposal>, ev: Event)
    requires SpendInv(a, s, spent, history) && !Enabled(a, s, ev)
    ensures StepSpends(a, s, spent, history, ev)
  {
    hide SpendInv;
    assert history + [] == history;
  }

  lemma CrashStepSpends(a: Agent, s: Scope, spent: seq<Id>, history: seq<Disposal>)
    requires WellFormed(a) && Inv(a, s) && SpendInv(a, s, spent, history) && s.worker.Some?
    ensures StepSpends(a, s, spent, history, Crash)
  {
  }

  lemma StepKeepsSpend(a: Agent, s: Scope, spent: seq<Id>, history: seq<Disposal>, ev: Event)
    requires WellFormed(a) && Inv(a, s) && SpendInv(a, s, spent, history) && !Forgets(a, s, spent, ev)
    ensures StepSpends(a, s, spent, history, ev)
  {
    hide Inv, SpendInv, StepSpends, Foreign;
    if !Enabled(a, s, ev) {
      IdleStepSpends(a, s, spent, history, ev);
    } else if ev.Land? {
      LandStepSpends(a, s, spent, history, ev.artifact);
    } else if ev.Fail? {
      FailStepSpends(a, s, spent, history, ev.kind, ev.now, ev.io);
    } else if ev.Crash? {
      CrashStepSpends(a, s, spent, history);
    } else if ev.Restart? {
      RestartStepSpends(a, s, spent, history, ev);
    } else if ev.Append? {
      AppendStepSpends(a, s, spent, history, ev.entry);
    } else if ev.Begin? {
      BeginStepSpends(a, s, spent, history, ev.minBatch, ev.now, ev.hold, ev.clear);
    } else if ev.Read? {
      ReadStepSpends(a, s, spent, history, ev.clear);
    } else {
      SettleStepSpends(a, s, spent, history, ev.clear);
    }
  }

  lemma {:induction false} RunKeepsSpend(a: Agent, s: Scope, events: seq<Event>)
    requires WellFormed(a) && Inv(a, s) && SpendInv(a, s, [], []) && Remembers(a, s, events)
    ensures SpendInv(a, Run(a, s, events), Spent(a, s, events), History(a, s, events))
  {
    if events != [] {
      var prefix := events[..|events| - 1];
      RunKeepsSpend(a, s, prefix);
      RunKeepsInv(a, s, prefix);
      StepKeepsSpend(a, Run(a, s, prefix), Spent(a, s, prefix), History(a, s, prefix), events[|events| - 1]);
    }
  }

  /** Between two worker starts at most four failing calls are spent on one head, whichever mix of
      holds and poison failures they are; and once four are, either exactly that input has been
      dead-lettered or it is still the head behind an open circuit. The one thing a run may not do is
      forget a head it has spent calls on. */
  lemma BoundedSpendPerHead(a: Agent, s: Scope, events: seq<Event>, head: Id)
    requires WellFormed(a) && Inv(a, s) && s.worker == None && Remembers(a, s, events)
    ensures Count(Spent(a, s, events), head) <= MAX_WINDOW_ATTEMPTS
    ensures Count(Spent(a, s, events), head) == MAX_WINDOW_ATTEMPTS ==>
      var t := Run(a, s, events);
      || DeadLettered(head) in History(a, s, events)
      || (Current(a, t) != [] && Current(a, t)[0].id == head && t.worker.Some? && CircuitOpen(t.worker.value.failure))
  {
    RunKeepsSpend(a, s, events);
  }
}
