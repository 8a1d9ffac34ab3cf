/**
 A recovery as the program runs it: it reads the journals once and then, journal
 by journal, loads the receipt, puts the digest in place and completes the
 execution, each on its own, while promoters, writers, transactions and other
 recoveries go on in between.
*/
module ReplayRecovery {
  import opened Common
  import opened ReplayStore
  import opened ReplayPromotion
  import opened R = ReplayPromotionRuns

  /** Where a recovery stands with the journal it is at. */
  datatype Phase = Loading | Upserting | Finishing | Ended(result: Result<(), Error>)

  /** A recovery: the journals it read, the one it is at, and, for the record, the receipts that had committed
      and the sittings that were pinned when it started. */
  datatype Recoverer = Recoverer(
    journals: seq<Journal>, next: nat, phase: Phase, known: set<Digest>, pinned: set<string>)

  /** What is durable, and the recoveries under way or ended, by number. */
  datatype System = System(world: World, recoverers: map<nat, Recoverer>)

  datatype Move = Other(event: Event) | Enter(id: nat) | Advance(id: nat, at: Time)

  const QUIET := System(R.START, map[])

  function Started(w: World): Recoverer {
    Recoverer(w.journals, 0, Loading, w.db.promotions.Keys, set s | s in w.digests && Pinned(w.digests, s))
  }

  /** One step of a recovery. */
  function AdvanceOne(w: World, r: Recoverer, at: Time): (World, Recoverer)
    requires r.next <= |r.journals| && (r.phase.Upserting? || r.phase.Finishing? ==> r.next < |r.journals|)
  {
    match r.phase
    case Ended(_) => (w, r)
    case Loading =>
      if r.next == |r.journals| then (w, r.(phase := Ended(Ok(()))))
      else
        var j := r.journals[r.next];
        if !Bearing(w, j) then (w, r.(next := r.next + 1))
        else if w.db.promotions[j.manifestDigest] != ReceiptOf(j) then (w, r.(phase := Ended(Err(Drift))))
        else (w, r.(phase := Upserting))
    case Upserting =>
      var upserted := FinalizeJournal(w.digests, r.journals[r.next]);
      if upserted.Err? then (w, r.(phase := Ended(Err(upserted.error))))
      else (w.(digests := upserted.value), r.(phase := Finishing))
    case Finishing =>
      var (db, finished) := FinalizePromoted(w.db, ReceiptOf(r.journals[r.next]), at);
      if finished.Err? then (w.(db := db), r.(phase := Ended(Err(finished.error))))
      else (w.(db := db), r.(next := r.next + 1, phase := Loading))
  }

  predicate InBounds(r: Recoverer) {
    r.next <= |r.journals| && (r.phase.Upserting? || r.phase.Finishing? ==> r.next < |r.journals|)
  }

  function Next(s: System, m: Move): System {
    match m
    case Other(e) => s.(world := Step(s.world, e))
    case Enter(id) => if id in s.recoverers then s else s.(recoverers := s.recoverers[id := Started(s.world)])
    case Advance(id, at) =>
      if id !in s.recoverers || !InBounds(s.recoverers[id]) then s
      else
        var (w, r) := AdvanceOne(s.world, s.recoverers[id], at);
        System(w, s.recoverers[id := r])
  }

  function Play(s: System, moves: seq<Move>): System {
    if moves == [] then s else Next(Play(s, moves[..|moves| - 1]), moves[|moves| - 1])
  }

  /** What a step of a recovery writes is what a promoter writes. */
  function Written(w: World, r: Recoverer, at: Time): seq<Event>
    requires InBounds(r)
  {
    match r.phase
    case Upserting => [Upsert(r.journals[r.next])]
    case Finishing => [Finish(r.journals[r.next], at)]
    case _ => []
  }

  function EventsOf(s: System, m: Move): seq<Event> {
    match m
    case Other(e) => [e]
    case Enter(_) => []
    case Advance(id, at) =>
      if id in s.recoverers && InBounds(s.recoverers[id]) then Written(s.world, s.recoverers[id], at) else []
  }

  /** The run of events that the moves make. */
  function Trace(s: System, moves: seq<Move>): seq<Event> {
    if moves == [] then []
    else
      var before := Play(s, moves[..|moves| - 1]);
      Trace(s, moves[..|moves| - 1]) + EventsOf(before, moves[|moves| - 1])
  }

  // ---- What a recovery knows at every step -------------------------------------------------------

  /** The recovery has been through this journal. */
  ghost predicate Through(w: World, pinned: set<string>, j: Journal) {
    StatusOf(w, j.manifestDigest) == Some(Completed) && Whole(j.recordedAt) && j.sitting !in pinned
  }

  /** The receipts a recovery found are in front of it or completed, and it fails only on a world in which no
      recovery can succeed. */
  ghost predicate RecInv(w: World, r: Recoverer) {
    && r.journals <= w.journals && InBounds(r)
    && (r.phase.Upserting? || r.phase.Finishing? ==>
          Bearing(w, r.journals[r.next])
          && w.db.promotions[r.journals[r.next].manifestDigest] == ReceiptOf(r.journals[r.next]))
    && (forall d :: d in r.known ==> d in w.db.promotions && FindJournal(r.journals, d) >= 0)
    && (forall s :: s in r.pinned ==> Pinned(w.digests, s))
    && (r.phase.Finishing? ==> r.journals[r.next].sitting !in r.pinned)
    && (forall k :: 0 <= k < r.next && r.journals[k].manifestDigest in r.known ==> Through(w, r.pinned, r.journals[k]))
    && (r.phase == Ended(Ok(())) ==> r.next == |r.journals|)
    && (r.phase.Ended? && r.phase.result.Err? ==> !Clear(w))
  }

  ghost predicate SysInv(s: System) {
    Inv(s.world) && forall id :: id in s.recoverers ==> RecInv(s.world, s.recoverers[id])
  }

  lemma StartedInv(w: World)
    requires Inv(w)
    ensures RecInv(w, Started(w))
  {
    forall d | d in w.db.promotions ensures FindJournal(w.journals, d) >= 0 { assert ReceiptInv(w, d); }
  }

  /** Nobody else's step disturbs a recovery. */
  lemma OthersKeepRecInv(w: World, v: World, r: Recoverer)
    requires Inv(w) && Inv(v) && Grows(w, v) && (Clear(v) ==> Clear(w)) && StillPinned(w, v) && RecInv(w, r)
    ensures RecInv(v, r)
  {
    hide Inv, Clear, Evolves;
    forall k | 0 <= k < r.next && r.journals[k].manifestDigest in r.known ensures Through(v, r.pinned, r.journals[k]) {
      StatusMoves(w, v, r.journals[k].manifestDigest);
    }
  }

  /** Nothing unpins a sitting. */
  ghost predicate StillPinned(w: World, v: World) {
    forall s :: Pinned(w.digests, s) ==> Pinned(v.digests, s)
  }

  lemma StepPins(w: World, e: Event)
    requires Inv(w)
    ensures StillPinned(w, Step(w, e))
  {
    if e.Upsert? && Committed(w, e.journal) && FinalizeJournal(w.digests, e.journal).Ok? {
      forall s ensures Pinned(FinalizeJournal(w.digests, e.journal).value, s) == Pinned(w.digests, s) {
        UpsertPins(w, e.journal, s);
      }
    }
    hide Inv, FinalizeJournal, FinalizePromoted, CommitPromotion, Apply;
  }

  lemma StepNeverClears(w: World, e: Event)
    requires Inv(w)
    ensures var v := Step(w, e); Inv(v) && Grows(w, v) && (Clear(v) ==> Clear(w)) && StillPinned(w, v)
  {
    hide Inv, Clear, Grows, Step, StillPinned;
    StepPins(w, e);
    StepKeepsInv(w, e);
    StepClearExactly(w, e);
  }

  lemma JournalHere(w: World, r: Recoverer)
    requires RecInv(w, r) && r.next < |r.journals|
    ensures r.journals[r.next] == w.journals[r.next] && r.journals[r.next] in w.journals
  {
  }

  /** A step of a recovery, by itself, writes what a promoter would. */
  lemma AdvanceWrites(w: World, r: Recoverer, at: Time)
    requires Inv(w) && RecInv(w, r)
    ensures AdvanceOne(w, r, at).0 == R.Run(w, Written(w, r, at))
  {
    hide Inv, FinalizeJournal, FinalizePromoted, Clear;
    if r.phase.Upserting? || r.phase.Finishing? {
      var j := r.journals[r.next];
      JournalHere(w, r);
      JournalCommitted(w, r.next);
      OneEvent(w, if r.phase.Upserting? then Upsert(j) else Finish(j, at));
      CommittedWrites(w, j, at);
    }
  }

  lemma CommittedWrites(w: World, j: Journal, at: Time)
    requires Committed(w, j)
    ensures Step(w, Upsert(j)) ==
            if FinalizeJournal(w.digests, j).Ok? then w.(digests := FinalizeJournal(w.digests, j).value) else w
    ensures Step(w, Finish(j, at)) == w.(db := FinalizePromoted(w.db, ReceiptOf(j), at).0)
  {
  }

  lemma OneEvent(w: World, e: Event)
    ensures R.Run(w, [e]) == Step(w, e)
  {
    hide Step;
    assert [e][..0] == [] && R.Run(w, []) == w;
  }

  lemma JournalCommitted(w: World, k: nat)
    requires Inv(w) && k < |w.journals| && Bearing(w, w.journals[k])
    ensures Committed(w, w.journals[k])
  {
    RecoverOne(w, k, 0);
  }

  lemma WrittenKeeps(w: World, r: Recoverer, at: Time)
    requires Inv(w) && RecInv(w, r)
    ensures var v := AdvanceOne(w, r, at).0; Inv(v) && Grows(w, v) && (Clear(v) ==> Clear(w)) && StillPinned(w, v)
  {
    hide Inv, Clear, Grows, AdvanceOne;
    AdvanceWrites(w, r, at);
    SameStoreGrows(w, w);
    if r.phase.Upserting? {
      OneEvent(w, Upsert(r.journals[r.next]));
      StepNeverClears(w, Upsert(r.journals[r.next]));
    } else if r.phase.Finishing? {
      OneEvent(w, Finish(r.journals[r.next], at));
      StepNeverClears(w, Finish(r.journals[r.next], at));
    }
  }

  /** Loading, a recovery fails on a receipt that does not read back, which no recovery gets past. */
  lemma LoadingKeeps(w: World, r: Recoverer, at: Time)
    requires Inv(w) && RecInv(w, r) && r.phase.Loading?
    ensures RecInv(w, AdvanceOne(w, r, at).1)
  {
    hide Inv, Clear, Through, FinalizeJournal, FinalizePromoted;
    if r.next < |r.journals| {
      if Bearing(w, r.journals[r.next]) { LoadingFound(w, r); } else { LoadingSkips(w, r); }
    }
  }

  lemma LoadingSkips(w: World, r: Recoverer)
    requires RecInv(w, r) && r.phase.Loading? && r.next < |r.journals| && !Bearing(w, r.journals[r.next])
    ensures RecInv(w, r.(next := r.next + 1))
  {
    hide Clear, StatusOf;
    assert r.journals[r.next].manifestDigest !in r.known;
  }

  lemma LoadingFound(w: World, r: Recoverer)
    requires Inv(w) && RecInv(w, r) && r.next < |r.journals| && Bearing(w, r.journals[r.next])
    ensures w.db.promotions[r.journals[r.next].manifestDigest] != ReceiptOf(r.journals[r.next]) ==> !Clear(w)
  {
    JournalHere(w, r);
    RecoverOne(w, r.next, 0);
  }

  /** Putting the digest in place, it fails on a pinned sitting. */
  lemma UpsertingKeeps(w: World, r: Recoverer, at: Time)
    requires Inv(w) && RecInv(w, r) && r.phase.Upserting?
    ensures var (v, after) := AdvanceOne(w, r, at);
            if after.phase.Ended?
            then v == w && after == r.(phase := after.phase) && after.phase.result.Err? && !Clear(w)
            else after == r.(phase := Finishing) && !Pinned(w.digests, r.journals[r.next].sitting)
  {
    JournalHere(w, r);
    RecoverOne(w, r.next, at);
    hide Inv, FinalizeJournal;
  }

  /** Completing the execution, it fails on a manifest that has failed. */
  lemma FinishingKeeps(w: World, r: Recoverer, at: Time)
    requires Inv(w) && RecInv(w, r) && r.phase.Finishing?
    ensures var (v, after) := AdvanceOne(w, r, at);
            if after.phase.Ended?
            then v == w && after == r.(phase := after.phase) && after.phase.result.Err? && !Clear(w)
            else after == r.(next := r.next + 1, phase := Loading) && Through(v, r.pinned, r.journals[r.next])
  {
    JournalHere(w, r);
    FinishedOrDead(w, r.next, at);
    hide Inv, FinalizeJournal, FinalizePromoted, Clear;
  }

  lemma FinishedOrDead(w: World, k: nat, at: Time)
    requires Inv(w) && k < |w.journals| && Bearing(w, w.journals[k])
    ensures var j := w.journals[k]; var (db, finished) := FinalizePromoted(w.db, ReceiptOf(j), at);
            && (w.db.promotions[j.manifestDigest] == ReceiptOf(j) ==> Whole(j.recordedAt))
            && if finished.Ok? then StatusOf(w.(db := db), j.manifestDigest) == Some(Completed)
               else db == w.db && !Clear(w)
  {
    var j := w.journals[k];
    RecoverOne(w, k, at);
    if Finishable(w, j) {
      AfterOneStatus(w, k, at, j.manifestDigest);
    } else {
      FinalizeRefuses(w.db, ReceiptOf(j), at);
      assert !AliveStatus(StatusOf(w, j.manifestDigest));
    }
  }

  lemma FinalizeRefuses(db: Db, p: Promotion, at: Time)
    requires FinalizePromoted(db, p, at).1.Err?
    ensures FinalizePromoted(db, p, at).0 == db
  {
  }

  /** A step of a recovery keeps what that recovery knows. */
  lemma AdvanceKeepsOwn(w: World, r: Recoverer, at: Time)
    requires Inv(w) && RecInv(w, r)
    ensures RecInv(AdvanceOne(w, r, at).0, AdvanceOne(w, r, at).1)
  {
    hide Inv, Clear, Grows, AdvanceOne;
    var (v, after) := AdvanceOne(w, r, at);
    WrittenKeeps(w, r, at);
    OthersKeepRecInv(w, v, r);
    if r.phase.Loading? {
      LoadingLeaves(w, r, at);
      LoadingKeeps(w, r, at);
    } else if r.phase.Upserting? {
      UpsertingKeeps(w, r, at);
    } else if r.phase.Finishing? {
      FinishingKeeps(w, r, at);
    } else {
      EndedStays(w, r, at);
    }
  }

  lemma LoadingLeaves(w: World, r: Recoverer, at: Time)
    requires InBounds(r) && r.phase.Loading?
    ensures AdvanceOne(w, r, at).0 == w
  {
  }

  lemma EndedStays(w: World, r: Recoverer, at: Time)
    requires InBounds(r) && r.phase.Ended?
    ensures AdvanceOne(w, r, at) == (w, r)
  {
  }

  lemma NextKeepsInv(s: System, m: Move)
    requires SysInv(s)
    ensures SysInv(Next(s, m)) && Next(s, m).world == R.Run(s.world, EventsOf(s, m))
  {
    hide Inv, Clear, Grows, RecInv, AdvanceOne, Written, StillPinned;
    match m
    case Other(e) =>
      OneEvent(s.world, e);
      StepNeverClears(s.world, e);
      forall id | id in s.recoverers ensures RecInv(Next(s, m).world, s.recoverers[id]) {
        OthersKeepRecInv(s.world, Next(s, m).world, s.recoverers[id]);
      }
    case Enter(id) => StartedInv(s.world);
    case Advance(id, at) =>
      if id in s.recoverers && InBounds(s.recoverers[id]) {
        AdvanceWrites(s.world, s.recoverers[id], at);
        WrittenKeeps(s.world, s.recoverers[id], at);
        AdvanceKeepsOwn(s.world, s.recoverers[id], at);
        var w := AdvanceOne(s.world, s.recoverers[id], at).0;
        forall other | other in s.recoverers ensures RecInv(w, s.recoverers[other]) {
          OthersKeepRecInv(s.world, w, s.recoverers[other]);
        }
      }
  }

  /** Whatever moves are made, the world is where the events they make lead. */
  lemma {:induction false} PlayKeepsInv(s: System, moves: seq<Move>)
    requires SysInv(s)
    ensures SysInv(Play(s, moves)) && Play(s, moves).world == R.Run(s.world, Trace(s, moves))
  {
    hide SysInv, Next, EventsOf;
    if moves != [] {
      var front := moves[..|moves| - 1];
      PlayKeepsInv(s, front);
      NextKeepsInv(Play(s, front), moves[|moves| - 1]);
      R.RunAppend(s.world, Trace(s, front), EventsOf(Play(s, front), moves[|moves| - 1]));
    }
  }

  lemma QuietIsSound()
    ensures SysInv(QUIET)
  {
  }

  // ---- What a recovery comes to, whatever goes on beside it -----------------------------------------

  /** The record a recovery was begun with stays. */
  lemma {:induction false} RecordStays(s: System, id: nat, moves: seq<Move>)
    requires id in s.recoverers
    ensures var t := Play(s, moves);
            id in t.recoverers && t.recoverers[id].known == s.recoverers[id].known
            && t.recoverers[id].pinned == s.recoverers[id].pinned
                && t.recoverers[id].journals == s.recoverers[id].journals
  {
    hide Step, FinalizeJournal, FinalizePromoted;
    if moves != [] { RecordStays(s, id, moves[..|moves| - 1]); }
  }

  /** A recovery begun on a sound system that ends well has completed every receipt that had committed when it
      began, and began on a world in which a recovery could succeed. */
  lemma EndedWell(s: System, id: nat, moves: seq<Move>)
    requires SysInv(s) && id !in s.recoverers
    requires var t := Play(Next(s, Enter(id)), moves); id in t.recoverers && t.recoverers[id].phase == Ended(Ok(()))
    ensures var t := Play(Next(s, Enter(id)), moves);
            forall d :: d in s.world.db.promotions ==> StatusOf(t.world, d) == Some(Completed)
    ensures Clear(s.world)
  {
    var b := Next(s, Enter(id));
    var t := Play(b, moves);
    NextKeepsInv(s, Enter(id));
    PlayKeepsInv(b, moves);
    RecordStays(b, id, moves);
    R.RunKeepsInv(b.world, Trace(b, moves));
    EndedMeans(s.world, t.world, t.recoverers[id]);
  }

  lemma EndedMeans(w: World, v: World, r: Recoverer)
    requires Inv(w) && Inv(v) && Grows(w, v) && RecInv(v, r) && r.phase == Ended(Ok(()))
    requires r.journals == w.journals && r.known == w.db.promotions.Keys
    requires r.pinned == set s | s in w.digests && Pinned(w.digests, s)
    ensures forall d :: d in w.db.promotions ==> StatusOf(v, d) == Some(Completed)
    ensures Clear(w)
  {
    hide Inv, Grows, StatusOf, Through, Clear;
    forall j | j in w.journals && Bearing(w, j) ensures Through(v, r.pinned, j) {
      var k :| 0 <= k < |r.journals| && r.journals[k] == j;
      assert Through(v, r.pinned, r.journals[k]);
    }
    forall d | d in w.db.promotions ensures StatusOf(v, d) == Some(Completed) {
      var j := r.journals[FindJournal(r.journals, d)];
      assert Through(v, r.pinned, j);
      RecoveredMeans(w, v, r, j);
    }
    ClearBefore(w, v, r);
  }

  lemma RecoveredMeans(w: World, v: World, r: Recoverer, j: Journal)
    requires Through(v, r.pinned, j) && r.pinned == set s | s in w.digests && Pinned(w.digests, s)
    ensures StatusOf(v, j.manifestDigest) == Some(Completed) && Whole(j.recordedAt) && !Pinned(w.digests, j.sitting)
  {
    hide StatusOf;
  }

  lemma ClearBefore(w: World, v: World, r: Recoverer)
    requires Inv(w) && Inv(v) && Grows(w, v) && r.pinned == set s | s in w.digests && Pinned(w.digests, s)
    requires forall d :: d in w.db.promotions ==> StatusOf(v, d) == Some(Completed)
    requires forall j :: j in w.journals && Bearing(w, j) ==> Through(v, r.pinned, j)
    ensures Clear(w)
  {
    hide Inv, Grows, StatusOf, Through;
    forall d | d in w.db.promotions ensures AliveStatus(StatusOf(w, d)) { AliveBefore(w, v, d); }
    forall j | j in w.journals && Bearing(w, j) ensures Whole(j.recordedAt) && !Pinned(w.digests, j.sitting) {
      RecoveredMeans(w, v, r, j);
    }
  }

  lemma AliveBefore(w: World, v: World, d: Digest)
    requires Inv(w) && Inv(v) && Grows(w, v) && d in w.db.promotions && StatusOf(v, d) == Some(Completed)
    ensures AliveStatus(StatusOf(w, d))
  {
    hide Inv, Grows;
    ReceiptStatus(w, d);
    StatusMoves(w, v, d);
  }

  /** Whatever promoters, writers, transactions and other recoveries do between its steps, a recovery that ends
      well has completed every receipt committed before it began. */
  lemma RecoveryCompletesWhatItFound(x: seq<Move>, id: nat, y: seq<Move>)
    requires id !in Play(QUIET, x).recoverers
    ensures var s := Play(QUIET, x); var t := Play(Next(s, Enter(id)), y);
            && id in t.recoverers
            && (t.recoverers[id].phase == Ended(Ok(())) ==>
                  forall d :: d in s.world.db.promotions ==> StatusOf(t.world, d) == Some(Completed))
  {
    var s := Play(QUIET, x);
    QuietIsSound();
    PlayKeepsInv(QUIET, x);
    RecordStays(Next(s, Enter(id)), id, y);
    if Play(Next(s, Enter(id)), y).recoverers[id].phase == Ended(Ok(())) { EndedWell(s, id, y); }
  }

  /** A recovery that fails, whatever went on beside it, has failed for good: none begun later ends well, and none
      that runs undisturbed succeeds. */
  lemma FailureIsForGood(x: seq<Move>, id: nat, y: seq<Move>, later: nat, z: seq<Move>, at: Time)
    requires var s := Play(QUIET, x);
             id in s.recoverers && s.recoverers[id].phase.Ended? && s.recoverers[id].phase.result.Err?
    requires later !in Play(Play(QUIET, x), y).recoverers
    ensures var t := Play(Play(QUIET, x), y); var u := Play(Next(t, Enter(later)), z);
            && later in u.recoverers && u.recoverers[later].phase != Ended(Ok(()))
            && Recover(t.world, at).1.Err?
  {
    hide Inv, Clear, RecInv, Recover, Next;
    var s := Play(QUIET, x);
    var t := Play(s, y);
    QuietIsSound();
    PlayKeepsInv(QUIET, x);
    PlayKeepsInv(s, y);
    NotClear(s, id);
    R.RunClearExactly(s.world, Trace(s, y));
    RecoverableWhileClear(t.world, at);
    BegunIsThere(t, later);
    RecordStays(Next(t, Enter(later)), later, z);
    if Play(Next(t, Enter(later)), z).recoverers[later].phase == Ended(Ok(())) { EndedWell(t, later, z); }
  }

  lemma BegunIsThere(s: System, id: nat)
    ensures id in Next(s, Enter(id)).recoverers
  {
  }

  lemma NotClear(s: System, id: nat)
    requires SysInv(s) && id in s.recoverers && s.recoverers[id].phase.Ended? && s.recoverers[id].phase.result.Err?
    ensures !Clear(s.world) && Inv(s.world)
  {
    assert RecInv(s.world, s.recoverers[id]);
  }

  // ---- Recovery first ------------------------------------------------------------------------------

  /** No commit since it began: the receipts it found are all there are. */
  lemma {:induction false} OnlyCommitsAdd(s: System, moves: seq<Move>)
    requires SysInv(s) && forall k :: 0 <= k < |moves| ==> !(moves[k].Other? && moves[k].event.Commit?)
    ensures Play(s, moves).world.db.promotions == s.world.db.promotions
  {
    hide Inv, RecInv, Step, AdvanceOne, Written;
    if moves != [] {
      var front, m := moves[..|moves| - 1], moves[|moves| - 1];
      OnlyCommitsAdd(s, front);
      PlayKeepsInv(s, front);
      MoveAdds(Play(s, front), m);
    }
  }

  lemma MoveAdds(s: System, m: Move)
    requires SysInv(s) && !(m.Other? && m.event.Commit?)
    ensures Next(s, m).world.db.promotions == s.world.db.promotions
  {
    hide Inv, RecInv, Step, AdvanceOne;
    NextKeepsInv(s, m);
    var es := EventsOf(s, m);
    if es != [] {
      OneEvent(s.world, es[0]);
      OnlyCommitsAddReceipts(s.world, es[0]);
      assert es == [es[0]];
    }
  }

  /** The engine's order: after a recovery that ended well, whatever else happened since it began short of a new
      commit, a reclaim at any clock reading kills no receipt. */
  lemma RecoverThenReclaimIsSafe(x: seq<Move>, id: nat, y: seq<Move>, now: Time)
    requires id !in Play(QUIET, x).recoverers
    requires forall k :: 0 <= k < |y| ==> !(y[k].Other? && y[k].event.Commit?)
    ensures var t := Play(Next(Play(QUIET, x), Enter(id)), y);
            && id in t.recoverers
            && (t.recoverers[id].phase == Ended(Ok(())) ==>
                  Done(t.world) && !Kills(t.world, Store(Reclaim(now))) && Alive(Step(t.world, Store(Reclaim(now)))))
  {
    hide Inv, RecInv, Step, Alive;
    var s := Play(QUIET, x);
    var b := Next(s, Enter(id));
    QuietIsSound();
    PlayKeepsInv(QUIET, x);
    NextKeepsInv(s, Enter(id));
    OnlyCommitsAdd(b, y);
    PlayKeepsInv(b, y);
    RecoveryCompletesWhatItFound(x, id, y);
    var t := Play(b, y);
    if t.recoverers[id].phase == Ended(Ok(())) {
      DoneHasNoElapsed(t.world, now);
      DoneIsAlive(t.world);
      StepAliveExactly(t.world, Store(Reclaim(now)));
    }
  }

  /** A recovery ended well, and no receipt has committed since it began. */
  predicate RecoveredSince(s: System) {
    exists id :: id in s.recoverers && s.recoverers[id].phase == Ended(Ok(()))
        && s.recoverers[id].known == s.world.db.promotions.Keys
  }

  /** Every reclaim follows such a recovery, and no owner gives up an execution whose receipt has committed. */
  ghost predicate Disciplined(s: System, moves: seq<Move>) {
    moves == [] ||
    (var before, m := Play(s, moves[..|moves| - 1]), moves[|moves| - 1];
     && Disciplined(s, moves[..|moves| - 1])
     && (m.Other? && m.event.Store? ==>
           if m.event.tx.Reclaim? then RecoveredSince(before) else !SomeGivenUp(before.world, m.event.tx)))
  }

  lemma RecoveredIsDone(s: System)
    requires SysInv(s) && RecoveredSince(s)
    ensures Done(s.world)
  {
    var id :| id in s.recoverers && s.recoverers[id].phase == Ended(Ok(()))
              && s.recoverers[id].known == s.world.db.promotions.Keys;
    var r := s.recoverers[id];
    forall d | d in s.world.db.promotions ensures StatusOf(s.world, d) == Some(Completed) {
      assert Through(s.world, r.pinned, r.journals[FindJournal(r.journals, d)]);
    }
  }

  lemma DisciplinedMoveKills(s: System, m: Move)
    requires SysInv(s)
    requires m.Other? && m.event.Store? ==>
      if m.event.tx.Reclaim? then RecoveredSince(s) else !SomeGivenUp(s.world, m.event.tx)
    ensures Alive(s.world) ==> Alive(Next(s, m).world)
  {
    hide Inv, RecInv, Step, Alive, AdvanceOne;
    NextKeepsInv(s, m);
    var es := EventsOf(s, m);
    if es != [] {
      OneEvent(s.world, es[0]);
      assert es == [es[0]];
      if es[0].Store? && es[0].tx.Reclaim? {
        RecoveredIsDone(s);
        DoneHasNoElapsed(s.world, es[0].tx.now);
      }
      StepAliveExactly(s.world, es[0]);
    }
  }

  lemma {:induction false} DisciplinedStaysAlive(s: System, moves: seq<Move>)
    requires SysInv(s) && Alive(s.world) && Disciplined(s, moves)
    ensures Alive(Play(s, moves).world)
  {
    hide SysInv, Alive, Next;
    if moves != [] {
      var front := moves[..|moves| - 1];
      DisciplinedStaysAlive(s, front);
      PlayKeepsInv(s, front);
      DisciplinedMoveKills(Play(s, front), moves[|moves| - 1]);
    }
  }

  /** When every reclaim follows a recovery with no commit since it began, no receipt is ever stranded: recovery
      succeeds after any such moves exactly while no sitting with a committed receipt is pinned and every receipt
      reads back, and then every one is completed. */
  lemma DisciplinedMovesRecoverExactly(moves: seq<Move>, at: Time)
    requires Disciplined(QUIET, moves)
    ensures var w := Play(QUIET, moves).world;
            && (Recover(w, at).1.Ok? <==> Fitting(w))
            && (Fitting(w) ==> Done(Recover(w, at).0))
  {
    hide Inv, RecInv, Recover, Done, Fitting, Next;
    QuietIsSound();
    PlayKeepsInv(QUIET, moves);
    DisciplinedStaysAlive(QUIET, moves);
    var w := Play(QUIET, moves).world;
    RecoverableWhileClear(w, at);
    if Fitting(w) { RecoveryCompletesAll(w, at); }
  }

  // ---- Undisturbed -----------------------------------------------------------------------------------

  /** A recovery that nothing disturbs, to its end. */
  function Alone(w: World, r: Recoverer, at: Time): (World, Result<(), Error>)
    requires InBounds(r)
    decreases |r.journals| - r.next,
              if r.phase.Loading? then 3 else if r.phase.Upserting? then 2 else if r.phase.Finishing? then 1 else 0
  {
    if r.phase.Ended? then (w, r.phase.result)
    else
      var (v, after) := AdvanceOne(w, r, at);
      Alone(v, after, at)
  }

  /** Step by step and undisturbed it is the walk over the journals. */
  lemma {:induction false} AloneIsRecover(w: World, r: Recoverer, at: Time)
    requires r.journals == w.journals && r.next <= |w.journals| && r.phase.Loading?
    ensures Alone(w, r, at) == RecoverFrom(w, r.next, at)
    decreases |r.journals| - r.next
  {
    hide FinalizeJournal, FinalizePromoted;
    if r.next == |w.journals| {
    } else {
      var j := w.journals[r.next];
      if !Bearing(w, j) {
        AloneIsRecover(w, r.(next := r.next + 1), at);
      } else if w.db.promotions[j.manifestDigest] == ReceiptOf(j) {
        var up := r.(phase := Upserting);
        assert Alone(w, r, at) == Alone(w, up, at);
        var upserted := FinalizeJournal(w.digests, j);
        if upserted.Ok? {
          var v := w.(digests := upserted.value);
          assert Alone(w, up, at) == Alone(v, r.(phase := Finishing), at);
          var (db, finished) := FinalizePromoted(w.db, ReceiptOf(j), at);
          var u := v.(db := db);
          if finished.Ok? {
            assert Alone(v, r.(phase := Finishing), at) == Alone(u, r.(next := r.next + 1, phase := Loading), at);
            AloneIsRecover(u, r.(next := r.next + 1, phase := Loading), at);
          } else {
            assert Alone(v, r.(phase := Finishing), at) == Alone(u, r.(phase := Ended(Err(finished.error))), at);
          }
        } else {
          assert Alone(w, up, at) == Alone(w, r.(phase := Ended(Err(upserted.error))), at);
        }
      }
    }
  }
}
