/**
 Whole runs of the promotion protocol: any interleaving of promoters, live and
 closing digest writers, store transactions and the writes of recoveries, which
 are those of promoters. A promoter that crashes simply takes no further step,
 so every prefix of every promotion is a run.
*/
module ReplayPromotionRuns {
  import opened Common
  import opened ReplayStore
  import opened ReplayPromotion

  datatype Event =
    | Persist(journal: Journal)
    | Commit(journal: Journal, clock: Time)
    | Upsert(journal: Journal)
    | Finish(journal: Journal, at: Time)
    | Live(sitting: string, body: string)
    | Close(sitting: string, body: string)
    | Store(tx: Tx)

  const START := World(EMPTY, [], map[])

  /** The journal's receipt is in the table, as the table keeps it. */
  predicate Committed(w: World, j: Journal) {
    j in w.journals && j.manifestDigest in w.db.promotions && w.db.promotions[j.manifestDigest] == AsKept(ReceiptOf(j))
  }

  /** One atomic step. A promoter reaches Commit only after its journal persisted and Upsert only
      after its receipt committed; a step that is refused changes nothing. */
  function Step(w: World, e: Event): World {
    match e
    case Persist(j) => if WellFormed(j) then PersistJournal(w, j).0 else w
    case Commit(j, clock) => if j in w.journals then w.(db := CommitPromotion(w.db, ReceiptOf(j), clock).0) else w
    case Upsert(j) =>
      if Committed(w, j) && FinalizeJournal(w.digests, j).Ok? then w.(digests := FinalizeJournal(w.digests, j).value)
          else w
    case Finish(j, at) => if Committed(w, j) then w.(db := FinalizePromoted(w.db, ReceiptOf(j), at).0) else w
    case Live(sitting, body) => Write(w, sitting, Doc(body, "", false))
    case Close(sitting, body) => Write(w, sitting, Doc(body, "", true))
    case Store(tx) => if tx.Promote? then w else w.(db := Apply(w.db, tx))
  }

  /** A digest written by the meeting's own workers; without a sitting or a text it is refused. */
  function Write(w: World, sitting: string, doc: Doc): World {
    if sitting == "" || doc.body == "" then w else w.(digests := UpsertDigest(w.digests, sitting, doc).0)
  }

  function Run(w: World, es: seq<Event>): World {
    if es == [] then w else Step(Run(w, es[..|es| - 1]), es[|es| - 1])
  }

  /** What no step ever undoes: rows only move along the state machine, journals and receipts stay. */
  ghost predicate Grows(w: World, v: World) {
    && Evolves(w.db.rows, v.db.rows)
    && w.journals <= v.journals
    && forall d :: d in w.db.promotions ==> d in v.db.promotions && v.db.promotions[d] == w.db.promotions[d]
  }

  lemma GrowsIsTransitive(w: World, v: World, u: World)
    requires Grows(w, v) && Grows(v, u)
    ensures Grows(w, u)
  {
    forall i | 0 <= i < |w.db.rows| ensures Reaches(w.db.rows[i], u.db.rows[i]) {
      assert Reaches(w.db.rows[i], v.db.rows[i]) && Reaches(v.db.rows[i], u.db.rows[i]);
    }
  }

  // ---- Each step keeps the invariant ------------------------------------------------------

  lemma {:induction false} FindAppended(js: seq<Journal>, j: Journal, d: Digest)
    requires FindJournal(js, j.manifestDigest) < 0
    ensures FindJournal(js + [j], d) == if d == j.manifestDigest then |js| else FindJournal(js, d)
  {
    assert (js + [j])[..|js|] == js;
  }

  lemma PersistKeepsInv(w: World, j: Journal)
    requires Inv(w) && WellFormed(j)
    ensures Inv(PersistJournal(w, j).0) && Grows(w, PersistJournal(w, j).0)
  {
    if FindJournal(w.journals, j.manifestDigest) < 0 {
      var v := w.(journals := w.journals + [j]);
      assert JournalsInv(v.journals) by {
        assert forall i :: 0 <= i < |w.journals| ==> v.journals[i] == w.journals[i];
      }
      forall d | d in v.db.promotions ensures ReceiptInv(v, d) {
        assert ReceiptInv(w, d);
        FindAppended(w.journals, j, d);
      }
      forall s | s in v.digests ensures DigestInv(v, s) { assert DigestInv(w, s); }
    }
  }

  lemma CommitEffects(db: Db, p: Promotion, clock: Time)
    ensures var after := CommitPromotion(db, p, clock).0;
            || after == db
            || (&& p.manifestDigest !in db.promotions
                && after == db.(promotions := db.promotions[p.manifestDigest := AsKept(p)])
                && FindDigest(db.rows, p.manifestDigest) >= 0
                && db.rows[FindDigest(db.rows, p.manifestDigest)].executionId == Some(p.executionId)
                && db.rows[FindDigest(db.rows, p.manifestDigest)].status == Running)
  {
  }

  lemma JournalIsUnique(js: seq<Journal>, k: nat)
    requires JournalsInv(js) && k < |js|
    ensures FindJournal(js, js[k].manifestDigest) == k
  {
    assert js[FindJournal(js, js[k].manifestDigest)].manifestDigest == js[k].manifestDigest;
  }

  function WithReceipt(w: World, j: Journal): World {
    w.(db := w.db.(promotions := w.db.promotions[j.manifestDigest := AsKept(ReceiptOf(j))]))
  }

  lemma ReceiptsKept(w: World, k: nat)
    requires k < |w.journals| && JournalsInv(w.journals)
    requires forall d :: d in w.db.promotions ==> ReceiptInv(w, d)
    requires FindDigest(w.db.rows, w.journals[k].manifestDigest) >= 0
    requires w.db.rows[FindDigest(w.db.rows, w.journals[k].manifestDigest)].executionId ==
        Some(w.journals[k].executionId)
    ensures var v := WithReceipt(w, w.journals[k]); forall d :: d in v.db.promotions ==> ReceiptInv(v, d)
  {
    hide JournalsInv;
    var v := WithReceipt(w, w.journals[k]);
    JournalIsUnique(w.journals, k);
    forall d | d in v.db.promotions ensures ReceiptInv(v, d) {
      if d in w.db.promotions { assert ReceiptInv(w, d); }
    }
  }

  lemma AddReceiptKeepsInv(w: World, k: nat)
    requires Inv(w) && k < |w.journals| && !Bearing(w, w.journals[k])
    requires FindDigest(w.db.rows, w.journals[k].manifestDigest) >= 0
    requires w.db.rows[FindDigest(w.db.rows, w.journals[k].manifestDigest)].executionId ==
        Some(w.journals[k].executionId)
    ensures var v := WithReceipt(w, w.journals[k]); Inv(v) && Grows(w, v)
  {
    hide RowsValid, JournalsInv, ReceiptInv, DigestInv, Evolves;
    ReceiptsKept(w, k);
    DigestsKept(w, w.journals[k]);
    SameRowsEvolve(w.db.rows);
  }

  lemma DigestsKept(w: World, j: Journal)
    requires !Bearing(w, j) && forall s :: s in w.digests ==> DigestInv(w, s)
    ensures var v := WithReceipt(w, j); forall s :: s in v.digests ==> DigestInv(v, s)
  {
    forall s | s in w.digests ensures DigestInv(WithReceipt(w, j), s) { assert DigestInv(w, s); }
  }

  lemma SameRowsEvolve(rows: seq<Row>)
    ensures Evolves(rows, rows)
  {
  }

  lemma CommitKeepsInv(w: World, j: Journal, clock: Time)
    requires Inv(w) && j in w.journals
    ensures Inv(w.(db := CommitPromotion(w.db, ReceiptOf(j), clock).0))
    ensures Grows(w, w.(db := CommitPromotion(w.db, ReceiptOf(j), clock).0))
  {
    var db := CommitPromotion(w.db, ReceiptOf(j), clock).0;
    CommitEffects(w.db, ReceiptOf(j), clock);
    if db != w.db {
      var k :| 0 <= k < |w.journals| && w.journals[k] == j;
      AddReceiptKeepsInv(w, k);
    }
  }

  lemma UpsertStepKeepsInv(w: World, j: Journal)
    requires Inv(w) && Committed(w, j) && FinalizeJournal(w.digests, j).Ok?
    ensures Inv(w.(digests := FinalizeJournal(w.digests, j).value))
  {
    var i :| 0 <= i < |w.journals| && w.journals[i] == j;
    UpsertKeepsInv(w, i);
    RecoverOne(w, i, 0);
  }

  lemma ApplyEffects(db: Db, tx: Tx)
    requires Valid(db) && !tx.Promote?
    ensures Valid(Apply(db, tx)) && Evolves(db.rows, Apply(db, tx).rows) && Apply(db, tx).promotions == db.promotions
  {
    ApplyKeepsValid(db, tx);
    StepsEvolve(db.rows, Apply(db, tx).rows);
  }

  lemma StoreKeepsInv(w: World, tx: Tx)
    requires Inv(w) && !tx.Promote?
    ensures Inv(w.(db := Apply(w.db, tx))) && Grows(w, w.(db := Apply(w.db, tx)))
  {
    var db := Apply(w.db, tx);
    assert Valid(db) && Evolves(w.db.rows, db.rows) && db.promotions == w.db.promotions by { ApplyEffects(w.db, tx); }
    RowsKeepInv(w, db);
  }

  lemma FinishGrows(w: World, p: Promotion, at: Time)
    requires Inv(w)
    ensures Grows(w, w.(db := FinalizePromoted(w.db, p, at).0))
  {
    FinalizeEffects(w.db, p, at);
  }

  lemma AfterOneGrows(w: World, i: nat, at: Time)
    requires Inv(w) && i < |w.journals|
    ensures Grows(w, AfterOne(w, i, at))
  {
    FinalizeEffects(w.db, ReceiptOf(w.journals[i]), at);
  }

  /** A recovery, complete or cut short by an error, undoes nothing. */
  lemma {:induction false} RecoverGrows(w: World, i: nat, at: Time)
    requires Inv(w) && i <= |w.journals|
    ensures Grows(w, RecoverFrom(w, i, at).0)
    decreases |w.journals| - i
  {
    hide Inv, Grows, FinalizePromoted, FinalizeJournal, Recoverable;
    SameStoreGrows(w, w);
    if i < |w.journals| {
      if !Bearing(w, w.journals[i]) {
        RecoverGrows(w, i + 1, at);
      } else {
        var v := AfterOne(w, i, at);
        AfterOneKeepsInv(w, i, at);
        AfterOneGrows(w, i, at);
        if Recoverable(w, w.journals[i]) {
          RecoverUnfold(w, i, at);
          RecoverGrows(v, i + 1, at);
          GrowsIsTransitive(w, v, RecoverFrom(v, i + 1, at).0);
        } else {
          RecoverStops(w, i, at);
        }
      }
    }
  }

  lemma RecoveryKeepsInv(w: World, at: Time)
    requires Inv(w)
    ensures Inv(Recover(w, at).0) && Grows(w, Recover(w, at).0)
  {
    RecoverExactly(w, 0, at);
    RecoverGrows(w, 0, at);
  }

  lemma WriteKeepsInv(w: World, sitting: string, doc: Doc)
    requires Inv(w) && doc.manifest == ""
    ensures Inv(Write(w, sitting, doc))
  {
    var v := Write(w, sitting, doc);
    forall d | d in v.db.promotions ensures ReceiptInv(v, d) { assert ReceiptInv(w, d); }
    forall s | s in v.digests ensures DigestInv(v, s) {
      if s in w.digests { assert DigestInv(w, s); }
    }
  }

  lemma SameStoreGrows(w: World, v: World)
    requires v.db == w.db && v.journals == w.journals
    ensures Grows(w, v)
  {
  }

  lemma StepKeepsInv(w: World, e: Event)
    requires Inv(w)
    ensures Inv(Step(w, e)) && Grows(w, Step(w, e))
  {
    hide Inv, Grows, FinalizePromoted, CommitPromotion, Recover;
    SameStoreGrows(w, w);
    if Step(w, e).db == w.db && Step(w, e).journals == w.journals { SameStoreGrows(w, Step(w, e)); }
    match e
    case Persist(j) => if WellFormed(j) { PersistKeepsInv(w, j); }
    case Commit(j, clock) => if j in w.journals { CommitKeepsInv(w, j, clock); }
    case Upsert(j) => if Committed(w, j) && FinalizeJournal(w.digests, j).Ok? { UpsertStepKeepsInv(w, j); }
    case Finish(j, at) =>
      if Committed(w, j) {
        FinalizeKeepsInv(w, ReceiptOf(j), at);
        FinishGrows(w, ReceiptOf(j), at);
      }
    case Live(s, body) => WriteKeepsInv(w, s, Doc(body, "", false));
    case Close(s, body) => WriteKeepsInv(w, s, Doc(body, "", true));
    case Store(tx) => if !tx.Promote? { StoreKeepsInv(w, tx); }
  }

  lemma {:induction false} RunKeepsInv(w: World, es: seq<Event>)
    requires Inv(w)
    ensures Inv(Run(w, es)) && Grows(w, Run(w, es))
  {
    if es != [] {
      RunKeepsInv(w, es[..|es| - 1]);
      var v := Run(w, es[..|es| - 1]);
      StepKeepsInv(v, es[|es| - 1]);
      GrowsIsTransitive(w, v, Run(w, es));
    }
  }

  // ---- Receipt first -------------------------------------------------------------------------

  /** Whatever steps were taken and wherever promoters stopped: a sitting shows a promoted digest only
      if a receipt for that manifest, sitting and body committed, and the receipt's journal is durable. */
  lemma PromotedDigestHasReceipt(es: seq<Event>, sitting: string)
    requires var w := Run(START, es); sitting in w.digests && w.digests[sitting].manifest != ""
    ensures var w := Run(START, es); var d := w.digests[sitting].manifest;
            && d in w.db.promotions && w.db.promotions[d].sitting == sitting
            && exists j :: j in w.journals && AsKept(ReceiptOf(j)) == w.db.promotions[d]
                && DocOf(j) == w.digests[sitting]
  {
    RunKeepsInv(START, es);
    var w := Run(START, es);
    assert DigestInv(w, sitting);
    var d := w.digests[sitting].manifest;
    assert ReceiptInv(w, d);
    var j := w.journals[FindJournal(w.journals, d)];
    assert j in w.journals && AsKept(ReceiptOf(j)) == w.db.promotions[d] && DocOf(j) == w.digests[sitting];
  }

  // ---- What a successful recovery means ----------------------------------------------------------

  /** Every committed receipt's manifest is completed, and its sitting shows a receipt-bearing journal's
      digest: its own, unless a newer one of the same sitting replaced it. */
  lemma RecoveryFinishesEveryReceipt(w: World, at: Time, d: Digest)
    requires Inv(w) && Recover(w, at).1.Ok? && d in w.db.promotions
    ensures var v := Recover(w, at).0; var sitting := w.db.promotions[d].sitting;
            && StatusOf(v, d) == Some(Completed)
            && (var last := LastBearing(w.journals, w.db.promotions, sitting, 0);
                last >= FindJournal(w.journals, d) >= 0 && sitting in v.digests
                    && v.digests[sitting] == DocOf(w.journals[last]))
  {
    RecoverExactly(w, 0, at);
    assert ReceiptInv(w, d);
    var k := FindJournal(w.journals, d);
    assert NamedFrom(w, 0, d);
    LastIsLast(w.journals, w.db.promotions, w.db.promotions[d].sitting, 0, k);
    assert DigestRecovered(w, 0, Recover(w, at).0, w.db.promotions[d].sitting);
  }

  lemma {:induction false} LastIsLast(js: seq<Journal>, promotions: map<Digest, Promotion>, sitting: string, i: nat,
      k: nat)
    requires i <= k < |js| && js[k].manifestDigest in promotions && js[k].sitting == sitting
    ensures LastBearing(js, promotions, sitting, i) >= k
    decreases |js| - i
  {
    if i < k { LastIsLast(js, promotions, sitting, i + 1, k); }
  }

  /** Every receipt-bearing manifest is completed, and could be recovered again. */
  ghost predicate AllSettled(w: World) {
    forall j :: j in w.journals && Bearing(w, j) ==>
      StatusOf(w, j.manifestDigest) == Some(Completed) && Whole(j.recordedAt) && !Pinned(w.digests, j.sitting)
  }

  /** With nothing left to complete, a recovery does not touch the store. */
  lemma {:induction false} RecoverSettled(w: World, i: nat, at: Time)
    requires Inv(w) && i <= |w.journals| && AllSettled(w)
    ensures RecoverFrom(w, i, at).0.db == w.db && RecoverFrom(w, i, at).0.journals == w.journals
    ensures RecoverFrom(w, i, at).1 == Ok(())
    decreases |w.journals| - i
  {
    hide Inv, FinalizePromoted, FinalizeJournal, AllSettled;
    if i < |w.journals| {
      if !Bearing(w, w.journals[i]) {
        RecoverSettled(w, i + 1, at);
      } else {
        SettledStays(w, i, at);
        RecoverUnfold(w, i, at);
        AfterOneKeepsInv(w, i, at);
        RecoverSettled(AfterOne(w, i, at), i + 1, at);
      }
    }
  }

  lemma SettledStays(w: World, i: nat, at: Time)
    requires Inv(w) && i < |w.journals| && AllSettled(w) && Bearing(w, w.journals[i])
    ensures AfterOne(w, i, at).db == w.db && AllSettled(AfterOne(w, i, at)) && Recoverable(w, w.journals[i])
  {
    hide ReceiptInv, DigestInv, Valid;
    assert w.journals[i] in w.journals;
    AfterOneFrame(w, i, at);
    var v := AfterOne(w, i, at);
    forall j | j in v.journals && Bearing(v, j)
      ensures StatusOf(v, j.manifestDigest) == Some(Completed) && Whole(j.recordedAt) && !Pinned(v.digests, j.sitting)
    {
      assert j in w.journals && Bearing(w, j);
    }
  }

  /** After a successful recovery every receipt is settled. */
  lemma RecoverySettles(w: World, at: Time)
    requires Inv(w) && Recover(w, at).1.Ok?
    ensures AllSettled(Recover(w, at).0)
  {
    RecoverExactly(w, 0, at);
    hide Inv, RecoverFrom;
    var v := Recover(w, at).0;
    forall j | j in v.journals && Bearing(v, j)
      ensures StatusOf(v, j.manifestDigest) == Some(Completed) && Whole(j.recordedAt) && !Pinned(v.digests, j.sitting)
    {
      var k :| 0 <= k < |w.journals| && w.journals[k] == j;
      assert Bearing(w, w.journals[k]);
      assert NamedFrom(w, 0, j.manifestDigest);
      LastIsLast(w.journals, w.db.promotions, j.sitting, 0, k);
      assert DigestRecovered(w, 0, v, j.sitting);
    }
  }

  /** Recovering twice equals recovering once, at whatever clock reading. */
  lemma RecoveringTwiceIsRecoveringOnce(w: World, at: Time, later: Time)
    requires Inv(w) && Recover(w, at).1.Ok?
    ensures Recover(Recover(w, at).0, later) == (Recover(w, at).0, Ok(()))
  {
    hide Inv, Recovered;
    var v := Recover(w, at).0;
    RecoverExactly(w, 0, at);
    RecoverySettles(w, at);
    RecoverSettled(v, 0, later);
    RecoverExactly(v, 0, later);
    SameDigests(w, v, Recover(v, later).0);
  }

  lemma SameDigests(w: World, v: World, u: World)
    requires Recovered(w, 0, v) && Recovered(v, 0, u)
    ensures u.digests == v.digests
  {
    forall s ensures (s in u.digests <==> s in v.digests) && (s in v.digests ==> u.digests[s] == v.digests[s]) {
      assert DigestRecovered(w, 0, v, s) && DigestRecovered(v, 0, u, s);
    }
  }

  /** Recovery also replays journals that finished long ago: it leaves a sitting's digest alone exactly
      when the sitting has no receipt-bearing journal or already shows the newest one. Any other
      writer's newer digest of a promoted sitting is overwritten. */
  lemma RecoveryOverwritesOtherWriters(w: World, at: Time, sitting: string)
    requires Inv(w) && Recover(w, at).1.Ok? && sitting in w.digests
    ensures var v := Recover(w, at).0; var last := LastBearing(w.journals, w.db.promotions, sitting, 0);
            && sitting in v.digests
            && (v.digests[sitting] == w.digests[sitting] <==> last < 0 || w.digests[sitting] == DocOf(w.journals[last]))
  {
    RecoverExactly(w, 0, at);
    assert DigestRecovered(w, 0, Recover(w, at).0, sitting);
  }

  // ---- Recovery before reclaim -------------------------------------------------------------------

  lemma StatusMoves(w: World, v: World, d: Digest)
    requires Inv(w) && Inv(v) && Grows(w, v) && StatusOf(w, d).Some?
    ensures StatusOf(v, d).Some?
    ensures Terminal(StatusOf(w, d).value) ==> StatusOf(v, d) == StatusOf(w, d)
  {
    var i := FindDigest(w.db.rows, d);
    assert Reaches(w.db.rows[i], v.db.rows[i]);
    DigestIsUnique(v.db, i);
  }

  /** A receipt whose manifest ended in any terminal status but completed blocks every later recovery,
      of every sitting, whatever happens in between. */
  lemma StrandedReceiptBlocksRecovery(w: World, j: Journal, es: seq<Event>, at: Time)
    requires Inv(w) && j in w.journals && Bearing(w, j)
    requires StatusOf(w, j.manifestDigest).Some? && Terminal(StatusOf(w, j.manifestDigest).value)
    requires StatusOf(w, j.manifestDigest) != Some(Completed)
    ensures Recover(Run(w, es), at).1.Err?
  {
    var v := Run(w, es);
    RunKeepsInv(w, es);
    StatusMoves(w, v, j.manifestDigest);
    RecoverExactly(v, 0, at);
    var k :| 0 <= k < |w.journals| && w.journals[k] == j;
    assert v.journals[k] == j && Bearing(v, v.journals[k]);
    assert !Finishable(v, v.journals[k]);
  }

  lemma StepReclaims(w: World, now: Time)
    ensures Step(w, Store(Reclaim(now))) == w.(db := ReclaimExpired(w.db, now))
  {
  }

  lemma ReclaimStatus(w: World, d: Digest, now: Time)
    requires Inv(w) && FindDigest(w.db.rows, d) >= 0
    ensures StatusOf(w.(db := ReclaimExpired(w.db, now)), d) ==
            Some(ReclaimRow(w.db.rows[FindDigest(w.db.rows, d)], now).status)
  {
    FindSameDigest(ReclaimExpired(w.db, now).rows, w.db.rows, d);
  }

  // ---- Which runs can be recovered -----------------------------------------------------------------

  predicate AliveStatus(s: Option<Status>) { s == Some(Running) || s == Some(Completed) }

  /** Every committed receipt's manifest is still running or completed. */
  ghost predicate Alive(w: World) { forall d :: d in w.db.promotions ==> AliveStatus(StatusOf(w, d)) }

  /** Every committed receipt reads back as it was written, and its sitting's digest is not pinned. */
  ghost predicate Fitting(w: World) {
    forall j :: j in w.journals && Bearing(w, j) ==> Whole(j.recordedAt) && !Pinned(w.digests, j.sitting)
  }

  ghost predicate Clear(w: World) { Alive(w) && Fitting(w) }

  /** A recovery succeeds exactly while no committed receipt's manifest has failed, none has a fraction of a
      microsecond in its time, and none is for a sitting whose digest is pinned. */
  lemma RecoverableWhileClear(w: World, at: Time)
    requires Inv(w)
    ensures Recover(w, at).1.Ok? <==> Clear(w)
  {
    RecoverExactly(w, 0, at);
    hide RecoverFrom, Valid, DigestInv;
    if AllRecoverable(w, 0) {
      forall d | d in w.db.promotions ensures AliveStatus(StatusOf(w, d)) {
        assert ReceiptInv(w, d);
        assert Recoverable(w, w.journals[FindJournal(w.journals, d)]);
      }
      forall j | j in w.journals && Bearing(w, j) ensures Whole(j.recordedAt) && !Pinned(w.digests, j.sitting) {
        var k :| 0 <= k < |w.journals| && w.journals[k] == j;
        assert Recoverable(w, w.journals[k]);
      }
    }
    if Clear(w) {
      forall k | 0 <= k < |w.journals| && Bearing(w, w.journals[k]) ensures Recoverable(w, w.journals[k]) {
        assert AliveStatus(StatusOf(w, w.journals[k].manifestDigest));
      }
    }
  }

  /** Some transaction's row of a committed receipt: running, and its lease has elapsed. */
  predicate Elapsed(w: World, d: Digest, now: Time) {
    var i := FindDigest(w.db.rows, d);
    d in w.db.promotions && i >= 0 && w.db.rows[i].status == Running && Reclaimable(w.db.rows[i], now)
  }

  ghost predicate SomeElapsed(w: World, now: Time) { exists d :: Elapsed(w, d, now) }

  /** The owner ends this row otherwise than by completing it. */
  predicate Abandons(row: Row, tx: Tx) {
    tx.Complete? && tx.status in {Failed, Drifted} && tx.digest == row.manifest.digest
        && Owns(row, tx.executionId, tx.clock)
  }

  /** The owner gives up an execution whose receipt has committed. */
  predicate GivesUp(w: World, tx: Tx, d: Digest) {
    d in w.db.promotions && FindDigest(w.db.rows, d) >= 0 && Abandons(w.db.rows[FindDigest(w.db.rows, d)], tx)
  }

  ghost predicate SomeGivenUp(w: World, tx: Tx) { exists d :: GivesUp(w, tx, d) }

  /** The steps that end a receipt's manifest otherwise than by completing it. */
  ghost predicate Kills(w: World, e: Event) {
    e.Store? && if e.tx.Reclaim? then SomeElapsed(w, e.tx.now) else SomeGivenUp(w, e.tx)
  }

  /** A reclaim keeps a live receipt alive exactly when its lease has not elapsed. */
  lemma ReclaimKeepsAliveExactly(w: World, d: Digest, now: Time)
    requires Inv(w) && d in w.db.promotions && AliveStatus(StatusOf(w, d))
    ensures AliveStatus(StatusOf(w.(db := ReclaimExpired(w.db, now)), d)) <==> !Elapsed(w, d, now)
  {
    ReclaimStatus(w, d, now);
  }

  lemma CompleteKeepsRowAlive(db: Db, tx: Tx, i: nat)
    requires Valid(db) && i < |db.rows| && AliveStatus(Some(db.rows[i].status)) && tx.Complete?
    ensures i < |Apply(db, tx).rows|
    ensures AliveStatus(Some(Apply(db, tx).rows[i].status)) <==> !Abandons(db.rows[i], tx)
  {
    DigestIsUnique(db, i);
  }

  /** A transaction other than a reclaim takes a running row to failed exactly when its owner gives it up. */
  lemma StoreKeepsRowAlive(db: Db, tx: Tx, i: nat)
    requires Valid(db) && i < |db.rows| && AliveStatus(Some(db.rows[i].status)) && !tx.Reclaim? && !tx.Promote?
    ensures i < |Apply(db, tx).rows|
    ensures AliveStatus(Some(Apply(db, tx).rows[i].status)) <==>
            !Abandons(db.rows[i], tx)
  {
    hide Valid, CompleteExecution;
    if tx.Complete? {
      CompleteKeepsRowAlive(db, tx, i);
    } else {
      ApplyKeepsValid(db, tx);
      assert Edge(db.rows[i], Apply(db, tx).rows[i]);
    }
  }

  lemma StoreKeepsAliveExactly(w: World, tx: Tx, d: Digest)
    requires Inv(w) && !tx.Reclaim? && !tx.Promote? && d in w.db.promotions && AliveStatus(StatusOf(w, d))
    ensures AliveStatus(StatusOf(w.(db := Apply(w.db, tx)), d)) <==> !GivesUp(w, tx, d)
  {
    var v := w.(db := Apply(w.db, tx));
    var i := FindDigest(w.db.rows, d);
    StoreKeepsRowAlive(w.db, tx, i);
    assert Valid(v.db) && v.db.rows[i].manifest.digest == d by {
      ApplyEffects(w.db, tx);
      assert Reaches(w.db.rows[i], v.db.rows[i]);
    }
    DigestIsUnique(v.db, i);
  }

  lemma StorePromotions(w: World, tx: Tx)
    requires Inv(w)
    ensures Step(w, Store(tx)).db.promotions == w.db.promotions
  {
    if !tx.Promote? { ApplyEffects(w.db, tx); }
  }

  lemma StoreAliveExactly(w: World, tx: Tx)
    requires Inv(w) && Alive(w)
    ensures Alive(Step(w, Store(tx))) <==> !Kills(w, Store(tx))
  {
    hide Inv, Apply, StatusOf, GivesUp, Elapsed;
    var v := Step(w, Store(tx));
    StorePromotions(w, tx);
    if tx.Promote? {
      OnlyCompletesGiveUp(w, tx);
    } else if tx.Reclaim? {
      StepReclaims(w, tx.now);
      forall d | d in w.db.promotions ensures AliveStatus(StatusOf(v, d)) <==> !Elapsed(w, d, tx.now) {
        ReclaimKeepsAliveExactly(w, d, tx.now);
      }
      forall d | Elapsed(w, d, tx.now) ensures d in w.db.promotions { ElapsedBears(w, d, tx.now); }
    } else {
      forall d | d in w.db.promotions ensures AliveStatus(StatusOf(v, d)) <==> !GivesUp(w, tx, d) {
        StoreKeepsAliveExactly(w, tx, d);
      }
      forall d | GivesUp(w, tx, d) ensures d in w.db.promotions { GivesUpBears(w, tx, d); }
    }
  }

  lemma OnlyCompletesGiveUp(w: World, tx: Tx)
    requires !tx.Complete?
    ensures !SomeGivenUp(w, tx)
  {
  }

  lemma ElapsedBears(w: World, d: Digest, now: Time)
    requires Elapsed(w, d, now)
    ensures d in w.db.promotions
  {
  }

  lemma GivesUpBears(w: World, tx: Tx, d: Digest)
    requires GivesUp(w, tx, d)
    ensures d in w.db.promotions
  {
  }

  lemma CommitKeepsAlive(w: World, j: Journal, clock: Time)
    requires Inv(w) && Alive(w)
    ensures Alive(Step(w, Commit(j, clock)))
  {
    var v := Step(w, Commit(j, clock));
    CommitEffects(w.db, ReceiptOf(j), clock);
    forall d | d in v.db.promotions ensures AliveStatus(StatusOf(v, d)) {
      if d in w.db.promotions { assert AliveStatus(StatusOf(w, d)); }
    }
  }

  lemma FinishIsStore(w: World, j: Journal, at: Time)
    requires Committed(w, j)
    ensures Step(w, Finish(j, at)) == Step(w, Store(Finalize(ReceiptOf(j), at)))
  {
  }

  lemma FinishKeepsAlive(w: World, j: Journal, at: Time)
    requires Inv(w) && Alive(w)
    ensures Alive(Step(w, Finish(j, at)))
  {
    hide Inv, Alive;
    var tx := Finalize(ReceiptOf(j), at);
    if Committed(w, j) {
      FinishIsStore(w, j, at);
      StoreAliveExactly(w, tx);
      OnlyCompletesGiveUp(w, tx);
    }
  }

  lemma SameStoreKeepsAlive(w: World, v: World)
    requires Alive(w) && v.db == w.db
    ensures Alive(v)
  {
    forall d | d in v.db.promotions ensures AliveStatus(StatusOf(v, d)) { assert AliveStatus(StatusOf(w, d)); }
  }

  /** Every committed receipt's manifest is completed. */
  ghost predicate Done(w: World) { forall d :: d in w.db.promotions ==> StatusOf(w, d) == Some(Completed) }

  lemma {:induction false} RecoverKeepsPromotions(w: World, i: nat, at: Time)
    requires i <= |w.journals|
    ensures RecoverFrom(w, i, at).0.db.promotions == w.db.promotions
    decreases |w.journals| - i
  {
    if i < |w.journals| {
      var j := w.journals[i];
      if Bearing(w, j) && FinalizeJournal(w.digests, j).Ok? {
        RecoverKeepsPromotions(
          World(FinalizePromoted(w.db, ReceiptOf(j), at).0, w.journals, FinalizeJournal(w.digests, j).value),
          i + 1, at);
      } else {
        RecoverKeepsPromotions(w, i + 1, at);
      }
    }
  }

  /** A successful recovery completes every receipt and adds none. */
  lemma RecoveryCompletesAll(w: World, at: Time)
    requires Inv(w) && Recover(w, at).1.Ok?
    ensures Recover(w, at).0.db.promotions == w.db.promotions && Done(Recover(w, at).0)
  {
    RecoverKeepsPromotions(w, 0, at);
    forall d | d in w.db.promotions ensures StatusOf(Recover(w, at).0, d) == Some(Completed) {
      RecoveryFinishesEveryReceipt(w, at, d);
    }
  }

  /** A receipt's execution has started: its manifest is running or terminal. */
  lemma ReceiptStatus(w: World, d: Digest)
    requires Inv(w) && d in w.db.promotions
    ensures StatusOf(w, d).Some? && (StatusOf(w, d) == Some(Running)
        || (Terminal(StatusOf(w, d).value) && StatusOf(w, d) != Some(Expired)))
  {
    assert ReceiptInv(w, d);
    assert RowShape(w.db.rows[FindDigest(w.db.rows, d)]);
  }

  /** A receipt that is dead stays dead. */
  lemma DeadStaysDead(w: World, v: World)
    requires Inv(w) && Inv(v) && Grows(w, v) && Alive(v)
    ensures Alive(w)
  {
    hide Inv, Evolves;
    forall d | d in w.db.promotions ensures AliveStatus(StatusOf(w, d)) {
      ReceiptStatus(w, d);
      StatusMoves(w, v, d);
    }
  }

  lemma StepKeepsAlive(w: World, e: Event)
    requires Inv(w) && Alive(w) && !e.Store?
    ensures Alive(Step(w, e))
  {
    match e
    case Commit(j, clock) => CommitKeepsAlive(w, j, clock);
    case Finish(j, at) => FinishKeepsAlive(w, j, at);
    case Persist(j) => SameStoreKeepsAlive(w, Step(w, e));
    case Upsert(j) => SameStoreKeepsAlive(w, Step(w, e));
    case Live(_, _) => SameStoreKeepsAlive(w, Step(w, e));
    case Close(_, _) => SameStoreKeepsAlive(w, Step(w, e));
  }

  /** What one step does to recoverability: it lasts exactly when the step kills no receipt. */
  lemma StepAliveExactly(w: World, e: Event)
    requires Inv(w)
    ensures Alive(Step(w, e)) <==> Alive(w) && !Kills(w, e)
  {
    hide Inv, Alive, Step, Grows;
    StepKeepsInv(w, e);
    if Alive(Step(w, e)) { DeadStaysDead(w, Step(w, e)); }
    if Alive(w) {
      if e.Store? { StoreAliveExactly(w, e.tx); } else { StepKeepsAlive(w, e); }
    }
  }

  // ---- What becomes of the fit --------------------------------------------------------------------

  /** A commit that takes: it adds the journal's receipt. */
  predicate Takes(w: World, j: Journal, clock: Time) {
    j in w.journals && CommitPromotion(w.db, ReceiptOf(j), clock).1 == Ok(true)
  }

  /** The digest of a promoted sitting is pinned, or a receipt commits that does not read back or whose sitting
      is pinned already. */
  ghost predicate Jams(w: World, e: Event) {
    match e
    case Close(s, body) => s != "" && body != "" && exists j :: j in w.journals && Bearing(w, j) && j.sitting == s
    case Commit(j, clock) => Takes(w, j, clock) && !(Whole(j.recordedAt) && !Pinned(w.digests, j.sitting))
    case _ => false
  }

  lemma SameJournalsFit(w: World, v: World)
    requires v.journals == w.journals && v.db.promotions == w.db.promotions
    requires forall s :: Pinned(v.digests, s) == Pinned(w.digests, s)
    ensures Fitting(v) <==> Fitting(w)
  {
    assert forall j :: j in w.journals ==> (Bearing(v, j) <==> Bearing(w, j));
  }

  lemma HasJournal(w: World, d: Digest)
    requires Inv(w) && d in w.db.promotions
    ensures FindJournal(w.journals, d) >= 0
  {
    assert ReceiptInv(w, d);
  }

  lemma PersistFits(w: World, j: Journal)
    requires Inv(w)
    ensures Fitting(Step(w, Persist(j))) <==> Fitting(w)
  {
    var v := Step(w, Persist(j));
    if v.journals != w.journals {
      if j.manifestDigest in w.db.promotions { HasJournal(w, j.manifestDigest); }
      assert forall k :: k in v.journals && Bearing(v, k) <==> k in w.journals && Bearing(w, k);
    }
  }

  lemma CommitFits(w: World, j: Journal, clock: Time)
    requires Inv(w)
    ensures Fitting(Step(w, Commit(j, clock))) <==> Fitting(w) && !Jams(w, Commit(j, clock))
  {
    var v := Step(w, Commit(j, clock));
    CommitEffects(w.db, ReceiptOf(j), clock);
    if Takes(w, j, clock) {
      var k :| 0 <= k < |w.journals| && w.journals[k] == j;
      JournalIsUnique(w.journals, k);
      forall x | x in w.journals ensures Bearing(v, x) <==> Bearing(w, x) || x == j {
        var i :| 0 <= i < |w.journals| && w.journals[i] == x;
        JournalIsUnique(w.journals, i);
      }
    } else {
      assert v == w;
    }
  }

  /** Putting a committed digest in place pins and unpins nothing. */
  lemma UpsertPins(w: World, j: Journal, s: string)
    requires Inv(w) && Committed(w, j) && FinalizeJournal(w.digests, j).Ok?
    ensures Pinned(FinalizeJournal(w.digests, j).value, s) == Pinned(w.digests, s)
  {
    var i :| 0 <= i < |w.journals| && w.journals[i] == j;
    RecoverOne(w, i, 0);
    hide Inv, FinalizeJournal;
  }

  lemma UpsertFits(w: World, j: Journal)
    requires Inv(w)
    ensures Fitting(Step(w, Upsert(j))) <==> Fitting(w)
  {
    hide Inv, FinalizeJournal, Committed, Fitting;
    if Committed(w, j) && FinalizeJournal(w.digests, j).Ok? {
      forall s ensures Pinned(FinalizeJournal(w.digests, j).value, s) == Pinned(w.digests, s) { UpsertPins(w, j, s); }
      SameJournalsFit(w, Step(w, Upsert(j)));
    }
  }

  lemma CloseFits(w: World, sitting: string, body: string)
    requires Inv(w)
    ensures Fitting(Step(w, Close(sitting, body))) <==> Fitting(w) && !Jams(w, Close(sitting, body))
  {
    var v := Step(w, Close(sitting, body));
    if sitting != "" && body != "" {
      assert forall s :: Pinned(v.digests, s) <==> Pinned(w.digests, s) || s == sitting;
      assert forall j :: j in w.journals ==> (Bearing(v, j) <==> Bearing(w, j));
    }
  }

  lemma StoreFits(w: World, e: Event)
    requires Inv(w) && (e.Store? || e.Finish?)
    ensures Fitting(Step(w, e)) <==> Fitting(w)
  {
    OnlyCommitsAddReceipts(w, e);
    SameJournalsFit(w, Step(w, e));
  }

  /** What one step does to the fit of the receipts. */
  lemma StepFitsExactly(w: World, e: Event)
    requires Inv(w)
    ensures Fitting(Step(w, e)) <==> Fitting(w) && !Jams(w, e)
  {
    hide Inv, Fitting;
    match e
    case Persist(j) => PersistFits(w, j);
    case Commit(j, clock) => CommitFits(w, j, clock);
    case Upsert(j) => UpsertFits(w, j);
    case Live(s, body) => SameJournalsFit(w, Step(w, e));
    case Close(s, body) => CloseFits(w, s, body);
    case Store(tx) => StoreFits(w, e);
    case Finish(j, at) => StoreFits(w, e);
  }

  // ---- The exact condition ------------------------------------------------------------------------

  /** The steps after which no recovery succeeds any more. */
  ghost predicate Blocks(w: World, e: Event) { Kills(w, e) || Jams(w, e) }

  lemma StepClearExactly(w: World, e: Event)
    requires Inv(w)
    ensures Clear(Step(w, e)) <==> Clear(w) && !Blocks(w, e)
  {
    hide Inv, Alive, Fitting, Step, Kills, Jams;
    StepAliveExactly(w, e);
    StepFitsExactly(w, e);
  }

  /** No step of the run kills a receipt. */
  ghost predicate KillFree(w: World, es: seq<Event>) {
    es == [] || (KillFree(w, es[..|es| - 1]) && !Kills(Run(w, es[..|es| - 1]), es[|es| - 1]))
  }

  /** No step of the run blocks recovery. */
  ghost predicate BlockFree(w: World, es: seq<Event>) {
    es == [] || (BlockFree(w, es[..|es| - 1]) && !Blocks(Run(w, es[..|es| - 1]), es[|es| - 1]))
  }

  lemma {:induction false} RunAliveExactly(w: World, es: seq<Event>)
    requires Inv(w)
    ensures Alive(Run(w, es)) <==> Alive(w) && KillFree(w, es)
  {
    hide Alive, Inv, Step;
    if es != [] {
      RunAliveExactly(w, es[..|es| - 1]);
      RunKeepsInv(w, es[..|es| - 1]);
      StepAliveExactly(Run(w, es[..|es| - 1]), es[|es| - 1]);
    }
  }

  lemma {:induction false} RunClearExactly(w: World, es: seq<Event>)
    requires Inv(w)
    ensures Clear(Run(w, es)) <==> Clear(w) && BlockFree(w, es)
  {
    hide Clear, Inv, Step;
    if es != [] {
      RunClearExactly(w, es[..|es| - 1]);
      RunKeepsInv(w, es[..|es| - 1]);
      StepClearExactly(Run(w, es[..|es| - 1]), es[|es| - 1]);
    }
  }

  /** After any run from the empty store, with promoters, writers, recoveries and reclaims interleaved as they
      may be, a recovery succeeds exactly when no step of the run blocked it: no reclaim found a committed
      receipt's lease elapsed, no owner gave up an execution whose receipt had committed, no meeting with a
      committed receipt was closed, and no receipt committed for a closed one or with a time that is not a whole
      number of microseconds. */
  lemma RunsRecoverExactly(es: seq<Event>, at: Time)
    ensures Recover(Run(START, es), at).1.Ok? <==> BlockFree(START, es)
    ensures BlockFree(START, es) ==> Done(Recover(Run(START, es), at).0)
  {
    RunClearExactly(START, es);
    RunKeepsInv(START, es);
    RecoverableWhileClear(Run(START, es), at);
    if BlockFree(START, es) { RecoveryCompletesAll(Run(START, es), at); }
  }

  /** A recovery that fails has failed for good: whatever happens next, no later one succeeds. */
  lemma FailedRecoveriesStayFailed(w: World, at: Time, es: seq<Event>, later: Time)
    requires Inv(w) && Recover(w, at).1.Err?
    ensures Recover(Run(w, es), later).1.Err?
  {
    hide Inv, Clear, Recover;
    RecoverableWhileClear(w, at);
    RunClearExactly(w, es);
    RunKeepsInv(w, es);
    RecoverableWhileClear(Run(w, es), later);
  }

  /** The reclaim that planning does on its own: it leaves recovery possible exactly when it was possible
      and no committed receipt's lease has elapsed; otherwise no later recovery ever succeeds. */
  lemma ReclaimStrandsExactly(w: World, now: Time, es: seq<Event>, at: Time)
    requires Inv(w)
    ensures var reclaimed := Step(w, Store(Reclaim(now)));
            && (Recover(reclaimed, at).1.Ok? <==> Recover(w, at).1.Ok? && !SomeElapsed(w, now))
            && (SomeElapsed(w, now) ==> Recover(Run(reclaimed, es), at).1.Err?)
  {
    hide Inv, Clear, Step, Grows, Recover, SomeElapsed;
    var reclaimed := Step(w, Store(Reclaim(now)));
    StepKeepsInv(w, Store(Reclaim(now)));
    StepClearExactly(w, Store(Reclaim(now)));
    RecoverableWhileClear(w, at);
    RecoverableWhileClear(reclaimed, at);
    RunKeepsInv(reclaimed, es);
    RunClearExactly(reclaimed, es);
    RecoverableWhileClear(Run(reclaimed, es), at);
  }

  // ---- Completed receipts -------------------------------------------------------------------------

  lemma FinishPromotions(w: World, j: Journal, at: Time)
    requires Inv(w)
    ensures FinalizePromoted(w.db, ReceiptOf(j), at).0.promotions == w.db.promotions
  {
    FinalizeEffects(w.db, ReceiptOf(j), at);
  }

  /** Only a commit adds a receipt. */
  lemma OnlyCommitsAddReceipts(w: World, e: Event)
    requires Inv(w) && !e.Commit?
    ensures Step(w, e).db.promotions == w.db.promotions
  {
    hide Inv, FinalizePromoted;
    match e
    case Finish(j, at) => if Committed(w, j) { FinishPromotions(w, j, at); }
    case Store(tx) => StorePromotions(w, tx);
    case _ =>
  }

  lemma StepKeepsDone(w: World, e: Event)
    requires Inv(w) && Done(w) && !e.Commit?
    ensures Done(Step(w, e))
  {
    StepKeepsInv(w, e);
    OnlyCommitsAddReceipts(w, e);
    forall d | d in w.db.promotions ensures StatusOf(Step(w, e), d) == Some(Completed) {
      StatusMoves(w, Step(w, e), d);
    }
  }

  lemma {:induction false} RunKeepsDone(w: World, es: seq<Event>)
    requires Inv(w) && Done(w) && forall k :: 0 <= k < |es| ==> !es[k].Commit?
    ensures Inv(Run(w, es)) && Done(Run(w, es))
  {
    if es != [] {
      RunKeepsDone(w, es[..|es| - 1]);
      StepKeepsInv(Run(w, es[..|es| - 1]), es[|es| - 1]);
      StepKeepsDone(Run(w, es[..|es| - 1]), es[|es| - 1]);
    }
  }

  lemma DoneHasNoElapsed(w: World, now: Time)
    requires Done(w)
    ensures !SomeElapsed(w, now)
  {
  }

  lemma DoneIsAlive(w: World)
    requires Done(w)
    ensures Alive(w)
  {
  }

  lemma {:induction false} RunAppend(w: World, x: seq<Event>, y: seq<Event>)
    ensures Run(w, x + y) == Run(Run(w, x), y)
  {
    hide Step;
    if y == [] {
      assert x + y == x;
    } else {
      RunAppend(w, x, y[..|y| - 1]);
      assert (x + y)[..|x + y| - 1] == x + y[..|y| - 1];
    }
  }

  lemma RunStep(w: World, es: seq<Event>, e: Event)
    ensures Run(w, es + [e]) == Step(Run(w, es), e)
  {
    hide Step;
    assert (es + [e])[..|es|] == es;
  }
}
