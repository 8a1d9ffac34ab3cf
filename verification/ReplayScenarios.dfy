/**
 Concrete runs from the empty store: the ways in which a committed promotion ends
 up out of recovery's reach, and a digest that recovery puts back.
*/
module ReplayScenarios {
  import opened Common
  import opened ReplayStore
  import opened ReplayPromotion
  import opened R = ReplayPromotionRuns
  import opened ReplayRecovery

  const MANIFEST := Manifest("d", "k", "t", "r", "s", 0, 1, ["x"], [MEETING_DIGEST], "sd", "a", "b", "c", 0, 1000, "")

  /** The journal of the only manifest, written at this clock reading. */
  function JournalOf(n: Nanos): Journal {
    Journal("d", "e", "t", "r", "s", "sd", "out", "text", "text", "a", "b", "c", n)
  }

  const STAGE := StageKey("d", "e", MEETING_DIGEST)
  const RUNNING := Row(MANIFEST, Running, Some("e"), Some(EXECUTION_LEASE), Some(0), None)
  const RECEIPT := StageReceipt(StageCompleted, 0, "in", Some("out"))

  function Beginning(): seq<Event> {
    [Store(Save(MANIFEST)), Store(Tx.Begin(MANIFEST, "e", 0, "in")), Store(Record(STAGE, RECEIPT, 1))]
  }

  lemma FindSingle(row: Row, d: Digest)
    ensures FindDigest([row], d) == if row.manifest.digest == d then 0 else -1
  {
    assert [row][..0] == [];
  }

  const PLANNED := Row(MANIFEST, Planned, None, None, None, None)

  lemma PlannedRuns()
    ensures SaveManifest(EMPTY, MANIFEST).0 == Create(EMPTY, MANIFEST)
    ensures Create(EMPTY, MANIFEST).rows == [PLANNED]
        && CursorKey("d", MEETING_DIGEST) in Create(EMPTY, MANIFEST).cursors
  {
    assert MEETING_DIGEST in MANIFEST.stages;
  }

  function Begun(db: Db): Db { db.(rows := [RUNNING], receipts := map[STAGE := StageReceipt(Prepared, 0, "in", None)]) }

  lemma BegunRuns(db: Db)
    requires db.rows == [PLANNED] && db.receipts == map[]
    ensures BeginExecution(db, MANIFEST, "e", 0, "in").0 == Begun(db)
  {
    FindSingle(PLANNED, "d");
    assert db.rows[0 := RUNNING] == [RUNNING];
  }

  lemma RecordedRuns(db: Db)
    requires db.rows == [RUNNING] && STAGE in db.receipts && db.receipts[STAGE].input == "in"
        && db.receipts[STAGE].ordinal == 0
    requires CursorKey("d", MEETING_DIGEST) in db.cursors && db.promotions == map[]
    ensures var after := RecordStageReceipt(db, STAGE, RECEIPT, 1).0;
            after.rows == [RUNNING] && STAGE in after.receipts && after.receipts[STAGE] == RECEIPT
                && after.promotions == map[]
  {
    FindSingle(RUNNING, "d");
  }

  lemma ThreeSteps(w: World, x: Event, y: Event, z: Event)
    ensures R.Run(w, [x, y, z]) == Step(Step(Step(w, x), y), z)
  {
    hide Step;
    RunStep(w, [], x);
    RunStep(w, [x], y);
    RunStep(w, [x, y], z);
    assert [] + [x] == [x] && [x] + [y] == [x, y] && [x, y] + [z] == [x, y, z];
  }

  lemma StoreStep(db: Db, tx: Tx, after: Db)
    requires !tx.Promote? && Apply(db, tx) == after
    ensures Step(World(db, [], map[]), Store(tx)) == World(after, [], map[])
  {
  }

  lemma BeginningRuns()
    ensures var w := R.Run(START, Beginning());
            w.db.rows == [RUNNING] && STAGE in w.db.receipts && w.db.receipts[STAGE] == RECEIPT &&
            w.db.promotions == map[] && w.journals == [] && w.digests == map[]
  {
    ThreeSteps(START, Beginning()[0], Beginning()[1], Beginning()[2]);
    var db1 := Create(EMPTY, MANIFEST);
    var db2 := Begun(db1);
    assert Apply(EMPTY, Save(MANIFEST)) == db1 && db1.rows == [PLANNED]
        && CursorKey("d", MEETING_DIGEST) in db1.cursors by {
      PlannedRuns();
    }
    StoreStep(EMPTY, Save(MANIFEST), db1);
    assert Apply(db1, Tx.Begin(MANIFEST, "e", 0, "in")) == db2 by { BegunRuns(db1); }
    StoreStep(db1, Tx.Begin(MANIFEST, "e", 0, "in"), db2);
    RecordedRuns(db2);
    StoreStep(db2, Record(STAGE, RECEIPT, 1), Apply(db2, Record(STAGE, RECEIPT, 1)));
  }

  lemma Reachable(es: seq<Event>)
    ensures Inv(R.Run(START, es))
  {
    R.RunKeepsInv(START, es);
  }

  /** The execution as it stands before it ends: its digest stage recorded, this much journalled, committed and
      shown. */
  predicate Standing(w: World, journals: seq<Journal>, promotions: map<Digest, Promotion>, digests: map<string, Doc>) {
    && w.db.rows == [RUNNING] && STAGE in w.db.receipts && w.db.receipts[STAGE] == RECEIPT
    && w.db.promotions == promotions && w.journals == journals && w.digests == digests
  }

  /** The receipt as its row keeps it. */
  function KeptOf(n: Nanos): map<Digest, Promotion> { map["d" := AsKept(ReceiptOf(JournalOf(n)))] }

  lemma PersistsJournal(w: World, n: Nanos, digests: map<string, Doc>)
    requires Standing(w, [], map[], digests)
    ensures Standing(Step(w, Persist(JournalOf(n))), [JournalOf(n)], map[], digests)
  {
  }

  lemma CommitsReceipt(w: World, n: Nanos, digests: map<string, Doc>)
    requires Standing(w, [JournalOf(n)], map[], digests) && 0 <= n <= 1000
    ensures Standing(Step(w, Commit(JournalOf(n), 1)), [JournalOf(n)], KeptOf(n), digests)
  {
    FindSingle(RUNNING, "d");
    assert PromotionExact(w.db, ReceiptOf(JournalOf(n)), 1);
  }

  /** Journal and commit, from where the digests stand. */
  lemma PromotesFrom(es: seq<Event>, n: Nanos, digests: map<string, Doc>)
    requires Standing(R.Run(START, es), [], map[], digests) && 0 <= n <= 1000
    ensures Standing(R.Run(START, es + [Persist(JournalOf(n))]), [JournalOf(n)], map[], digests)
    ensures Standing(R.Run(START, es + [Persist(JournalOf(n))] + [Commit(JournalOf(n), 1)]),
                     [JournalOf(n)], KeptOf(n), digests)
  {
    hide Step, Standing;
    R.RunStep(START, es, Persist(JournalOf(n)));
    PersistsJournal(R.Run(START, es), n, digests);
    R.RunStep(START, es + [Persist(JournalOf(n))], Commit(JournalOf(n), 1));
    CommitsReceipt(R.Run(START, es + [Persist(JournalOf(n))]), n, digests);
  }

  /** Plan, begin, record, journal, commit. */
  function Committed(n: Nanos): seq<Event> { Beginning() + [Persist(JournalOf(n))] + [Commit(JournalOf(n), 1)] }

  lemma CommittedStands(n: Nanos)
    requires 0 <= n <= 1000
    ensures Standing(R.Run(START, Committed(n)), [JournalOf(n)], KeptOf(n), map[])
  {
    hide Step;
    BeginningRuns();
    PromotesFrom(Beginning(), n, map[]);
  }

  /** The only receipt reads back, its manifest runs and its sitting is not pinned. */
  lemma StandingIsClear(w: World)
    requires Inv(w) && Standing(w, [JournalOf(0)], KeptOf(0), w.digests) && !Pinned(w.digests, "s")
    ensures Clear(w)
  {
    FindSingle(RUNNING, "d");
  }

  /** The receipt's lease has elapsed: whatever happens after a reclaim, no recovery succeeds. */
  lemma ElapsesFrom(w: World, es: seq<Event>, at: Time)
    requires Inv(w) && Standing(w, [JournalOf(0)], KeptOf(0), map[])
    ensures Recover(w, at).1.Ok? && SomeElapsed(w, EXECUTION_LEASE)
    ensures Recover(R.Run(Step(w, Store(Reclaim(EXECUTION_LEASE))), es), at).1.Err?
  {
    StandingIsClear(w);
    FindSingle(RUNNING, "d");
    assert Elapsed(w, "d", EXECUTION_LEASE);
    RecoverableWhileClear(w, at);
    ReclaimStrandsExactly(w, EXECUTION_LEASE, es, at);
  }

  /** The stranding is reachable: after a crash that lasts longer than the lease, planning's reclaim ends
      recovery for good. */
  lemma StrandingIsReachable(es: seq<Event>, at: Time)
    ensures var w := R.Run(START, Committed(0));
            && Recover(w, at).1.Ok? && SomeElapsed(w, EXECUTION_LEASE)
            && Recover(R.Run(Step(w, Store(Reclaim(EXECUTION_LEASE))), es), at).1.Err?
  {
    hide Inv, Step, Recover;
    CommittedStands(0);
    Reachable(Committed(0));
    ElapsesFrom(R.Run(START, Committed(0)), es, at);
  }

  // ---- A commit after the recovery ------------------------------------------------------------------

  function Others(es: seq<Event>): seq<Move> {
    if es == [] then [] else Others(es[..|es| - 1]) + [Other(es[|es| - 1])]
  }

  lemma {:induction false} PlayOthers(s: System, es: seq<Event>)
    ensures Play(s, Others(es)) == s.(world := R.Run(s.world, es))
  {
    hide Step;
    if es != [] {
      PlayOthers(s, es[..|es| - 1]);
      PlayOne(s, Others(es[..|es| - 1]), Other(es[|es| - 1]));
    }
  }

  lemma PlayOne(s: System, moves: seq<Move>, m: Move)
    ensures Play(s, moves + [m]) == Next(Play(s, moves), m)
  {
    assert (moves + [m])[..|moves|] == moves;
  }

  /** A recovery that starts while one journal has no receipt yet ends after it. */
  function Overtaken(at: Time): seq<Move> {
    Others(Beginning() + [Persist(JournalOf(0))]) + [Enter(0)] + [Advance(0, at)] + [Advance(0, at)]
  }

  lemma OvertakenEnds(at: Time)
    ensures var s := Play(QUIET, Overtaken(at));
            && s.world == R.Run(START, Beginning() + [Persist(JournalOf(0))])
            && 0 in s.recoverers && s.recoverers[0].phase == Ended(Ok(()))
  {
    hide Step;
    var es := Beginning() + [Persist(JournalOf(0))];
    var start := Others(es);
    BeginningRuns();
    PromotesFrom(Beginning(), 0, map[]);
    PlayOthers(QUIET, es);
    PlayOne(QUIET, start, Enter(0));
    PlayOne(QUIET, start + [Enter(0)], Advance(0, at));
    PlayOne(QUIET, start + [Enter(0)] + [Advance(0, at)], Advance(0, at));
  }

  /** Nor is a recovery before the reclaim enough: where another engine's commit falls between the two, it is
      stranded. */
  lemma CommitBetweenStrands(first: Time, es: seq<Event>, at: Time)
    ensures var s := Play(QUIET, Overtaken(first) + [Other(Commit(JournalOf(0), 1))]);
            && 0 in s.recoverers && s.recoverers[0].phase == Ended(Ok(()))
            && SomeElapsed(s.world, EXECUTION_LEASE)
            && Recover(R.Run(Step(s.world, Store(Reclaim(EXECUTION_LEASE))), es), at).1.Err?
  {
    hide Inv, Step, Recover;
    var before := Beginning() + [Persist(JournalOf(0))];
    OvertakenEnds(first);
    PlayOne(QUIET, Overtaken(first), Other(Commit(JournalOf(0), 1)));
    R.RunStep(START, before, Commit(JournalOf(0), 1));
    CommittedStands(0);
    Reachable(Committed(0));
    ElapsesFrom(R.Run(START, Committed(0)), es, at);
  }

  // ---- A closed meeting -----------------------------------------------------------------------------

  lemma PinnedIsJammed(w: World, es: seq<Event>, at: Time)
    requires Inv(w) && w.journals == [JournalOf(0)] && "d" in w.db.promotions && Pinned(w.digests, "s")
    ensures Recover(R.Run(w, es), at).1.Err?
  {
    assert JournalOf(0) in w.journals && Bearing(w, JournalOf(0));
    assert !Clear(w);
    hide Inv, Clear, Recover, Step;
    RecoverableWhileClear(w, at);
    FailedRecoveriesStayFailed(w, at, es, at);
  }

  lemma ClosesAt(w: World, body: string)
    requires body != ""
    ensures Step(w, Close("s", body)) == w.(digests := w.digests["s" := Doc(body, "", true)])
  {
  }

  lemma ClosedStands(body: string)
    requires body != ""
    ensures Standing(R.Run(START, Beginning() + [Close("s", body)]), [], map[], map["s" := Doc(body, "", true)])
  {
    BeginningRuns();
    R.RunStep(START, Beginning(), Close("s", body));
    ClosesAt(R.Run(START, Beginning()), body);
    assert map[]["s" := Doc(body, "", true)] == map["s" := Doc(body, "", true)];
  }

  /** Promoting into a meeting that is already closed: the receipt commits, the digest cannot be put in place,
      and no recovery, of any sitting, ever succeeds again, although the execution runs and its lease holds. */
  lemma PromotingAClosedMeetingJams(body: string, now: Time, es: seq<Event>, at: Time)
    requires body != "" && now < EXECUTION_LEASE
    ensures var closed := Beginning() + [Close("s", body)];
            var w := R.Run(START, closed + [Persist(JournalOf(0))] + [Commit(JournalOf(0), 1)]);
            && "d" in w.db.promotions && StatusOf(w, "d") == Some(Running) && !Elapsed(w, "d", now)
            && FinalizeJournal(w.digests, JournalOf(0)) == Err(Drift)
            && Recover(R.Run(w, es), at).1.Err?
  {
    hide Inv, Step, Recover;
    var closed := Beginning() + [Close("s", body)];
    var all := closed + [Persist(JournalOf(0))] + [Commit(JournalOf(0), 1)];
    ClosedStands(body);
    PromotesFrom(closed, 0, map["s" := Doc(body, "", true)]);
    Reachable(all);
    FindSingle(RUNNING, "d");
    PinnedIsJammed(R.Run(START, all), es, at);
  }

  /** The promotion carried through. */
  function Promoted(at: Time): seq<Event> { Committed(0) + [Upsert(JournalOf(0))] + [Finish(JournalOf(0), at)] }

  lemma PromotedStands(at: Time)
    ensures var w := R.Run(START, Promoted(at));
            && w.journals == [JournalOf(0)] && "d" in w.db.promotions && StatusOf(w, "d") == Some(Completed)
            && w.digests == map["s" := DocOf(JournalOf(0))]
  {
    var u := R.Run(START, Committed(0));
    CommittedStands(0);
    R.RunStep(START, Committed(0), Upsert(JournalOf(0)));
    R.RunStep(START, Committed(0) + [Upsert(JournalOf(0))], Finish(JournalOf(0), at));
    FindSingle(RUNNING, "d");
    var v := R.Run(START, Committed(0) + [Upsert(JournalOf(0))]);
    assert v.digests == map["s" := DocOf(JournalOf(0))] && v.db == u.db && v.journals == u.journals;
    var ended := RUNNING.(status := Completed, completedAt := Some(at), lease := None);
    assert v.db.rows[0 := ended] == [ended];
    FindSingle(ended, "d");
  }

  /** Closing a meeting after a promotion that was carried through: recovery replays the promotion's journal, is
      refused by the pinned digest, and never succeeds again. */
  lemma ClosingAPromotedMeetingJams(body: string, done: Time, es: seq<Event>, at: Time)
    requires body != ""
    ensures var w := R.Run(START, Promoted(done) + [Close("s", body)]);
            && StatusOf(w, "d") == Some(Completed) && w.digests == map["s" := Doc(body, "", true)]
            && Recover(R.Run(START, Promoted(done)), at).1.Ok?
            && Recover(R.Run(w, es), at).1.Err?
  {
    hide Inv, Step, Recover;
    var u := R.Run(START, Promoted(done));
    PromotedStands(done);
    Reachable(Promoted(done));
    PromotedIsClear(u);
    RecoverableWhileClear(u, at);
    R.RunStep(START, Promoted(done), Close("s", body));
    ClosesAt(u, body);
    Reachable(Promoted(done) + [Close("s", body)]);
    PinnedIsJammed(R.Run(START, Promoted(done) + [Close("s", body)]), es, at);
  }

  lemma PromotedIsClear(w: World)
    requires Inv(w) && w.journals == [JournalOf(0)] && StatusOf(w, "d") == Some(Completed)
    requires w.digests == map["s" := DocOf(JournalOf(0))]
    ensures Clear(w)
  {
    forall d | d in w.db.promotions ensures AliveStatus(StatusOf(w, d)) { assert ReceiptInv(w, d); }
  }

  // ---- A fraction of a microsecond -------------------------------------------------------------------

  /** A receipt whose clock reading is not a whole number of microseconds: committing it again is drift, and no
      recovery ever succeeds. */
  lemma FractionIsDrift(n: Nanos, es: seq<Event>, clock: Time, at: Time)
    requires 0 < n < 1000
    ensures var w := R.Run(START, Committed(n));
            && "d" in w.db.promotions && StatusOf(w, "d") == Some(Running)
            && CommitPromotion(w.db, ReceiptOf(JournalOf(n)), clock).1 == Err(Drift)
            && Recover(R.Run(w, es), at).1.Err?
  {
    var w := R.Run(START, Committed(n));
    CommittedStands(n);
    Reachable(Committed(n));
    FindSingle(RUNNING, "d");
    FractionJams(w, n, es, at);
    KeptIfWhole(ReceiptOf(JournalOf(n)));
  }

  lemma FractionJams(w: World, n: Nanos, es: seq<Event>, at: Time)
    requires Inv(w) && w.journals == [JournalOf(n)] && "d" in w.db.promotions && !Whole(n)
    ensures Recover(R.Run(w, es), at).1.Err?
  {
    assert JournalOf(n) in w.journals && Bearing(w, JournalOf(n));
    assert !Clear(w);
    hide Inv, Clear, Recover, Step;
    RecoverableWhileClear(w, at);
    FailedRecoveriesStayFailed(w, at, es, at);
  }

  // ---- A digest that recovery overwrites ------------------------------------------------------------

  /** A reader-visible digest written by a live writer after a promotion is put back to the promoted text by
      the next recovery. */
  lemma LiveDigestIsOverwritten(body: string, done: Time, at: Time)
    requires body != ""
    ensures var w := R.Run(START, Promoted(done) + [Live("s", body)]);
            && "s" in w.digests && w.digests["s"] == Doc(body, "", false)
            && Recover(w, at).1.Ok? && "s" in Recover(w, at).0.digests
            && Recover(w, at).0.digests["s"] == DocOf(JournalOf(0))
  {
    hide Inv, Recover;
    PromotedStands(done);
    R.RunStep(START, Promoted(done), Live("s", body));
    Reachable(Promoted(done) + [Live("s", body)]);
    OverwrittenFrom(R.Run(START, Promoted(done) + [Live("s", body)]), at);
  }

  lemma OverwrittenFrom(w: World, at: Time)
    requires Inv(w) && w.journals == [JournalOf(0)] && "d" in w.db.promotions && StatusOf(w, "d") == Some(Completed)
    requires !Pinned(w.digests, "s")
    ensures Recover(w, at).1.Ok? && "s" in Recover(w, at).0.digests
    ensures Recover(w, at).0.digests["s"] == DocOf(JournalOf(0))
  {
    forall d | d in w.db.promotions ensures AliveStatus(StatusOf(w, d)) { assert ReceiptInv(w, d); }
    assert Clear(w);
    hide Inv, RecoverFrom;
    RecoverableWhileClear(w, at);
    RecoverExactly(w, 0, at);
    assert LastBearing(w.journals, w.db.promotions, "s", 1) == -1;
    assert LastBearing(w.journals, w.db.promotions, "s", 0) == 0;
    assert DigestRecovered(w, 0, Recover(w, at).0, "s");
  }
}
