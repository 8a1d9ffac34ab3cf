/**
 Promotion of a replayed meeting digest: journal, receipt, digest, completion,
 each durable on its own, by any number of promoters and recoveries that may
 stop after any step.

 The content hash is modelled as the content itself, the simplest injective hash.
*/
module ReplayPromotion {
  import opened Common
  import opened ReplayStore

  function BodyDigest(body: string): Digest { body }

  datatype Journal = Journal(
    manifestDigest: Digest, executionId: string, tenant: string, room: string, sitting: string,
    sourceDigest: Digest, stageOutput: Digest, bodyDigest: Digest, body: string,
    approval: string, rollback: string, release: string, recordedAt: Nanos)

  /** A sitting's current digest; `manifest` is "" unless a promotion wrote it. The digest a closing meeting is
      finalized with is pinned: only another finalization replaces it. */
  datatype Doc = Doc(body: string, manifest: Digest, pinned: bool)

  /** Everything durable: the store, the journal entries in append order, the current digests. */
  datatype World = World(db: Db, journals: seq<Journal>, digests: map<string, Doc>)

  function ReceiptOf(j: Journal): Promotion {
    Promotion(j.manifestDigest, j.executionId, j.tenant, j.room, j.sitting, j.sourceDigest, j.stageOutput,
              j.bodyDigest, j.approval, j.rollback, j.release, j.recordedAt)
  }

  function DocOf(j: Journal): Doc { Doc(j.body, j.manifestDigest, false) }

  predicate WellFormed(j: Journal) {
    j.manifestDigest != "" && j.executionId != "" && j.sitting != "" && j.bodyDigest != ""
        && BodyDigest(j.body) == j.bodyDigest
  }

  // ---- The four steps ----------------------------------------------------------------

  function FindJournal(js: seq<Journal>, d: Digest): (r: int)
    ensures -1 <= r < |js|
    ensures r >= 0 ==> js[r].manifestDigest == d
    ensures r < 0 ==> forall i :: 0 <= i < |js| ==> js[i].manifestDigest != d
  {
    if js == [] then -1 else if js[|js| - 1].manifestDigest == d then |js| - 1 else FindJournal(js[..|js| - 1], d)
  }

  /** Journal first: a hidden, inert body. The same journal again is success; a different one is drift. */
  function PersistJournal(w: World, j: Journal): (World, Result<(), Error>) {
    var i := FindJournal(w.journals, j.manifestDigest);
    if i >= 0 then (w, if w.journals[i] == j then Ok(()) else Err(Drift))
    else (w.(journals := w.journals + [j]), Ok(()))
  }

  /** The current digest of a sitting is pinned. */
  predicate Pinned(digests: map<string, Doc>, sitting: string) { sitting in digests && digests[sitting].pinned }

  /** Replace a sitting's current digest, unless it is pinned and the new one is not; the entry that is current
      afterwards is what the caller gets, without an error either way. */
  function UpsertDigest(digests: map<string, Doc>, sitting: string, doc: Doc): (map<string, Doc>, Doc) {
    if !doc.pinned && Pinned(digests, sitting) then (digests, digests[sitting]) else (digests[sitting := doc], doc)
  }

  /** Make the journalled body the sitting's current digest, unless it already is. */
  function FinalizeJournal(digests: map<string, Doc>, j: Journal): Result<map<string, Doc>, Error> {
    if j.manifestDigest == "" || j.bodyDigest == "" || BodyDigest(j.body) != j.bodyDigest || j.sitting == "" then
      Err(Drift)
    else if j.sitting in digests && digests[j.sitting].manifest == j.manifestDigest then
      if BodyDigest(digests[j.sitting].body) != j.bodyDigest then Err(Drift) else Ok(digests)
    else
      var (after, entry) := UpsertDigest(digests, j.sitting, DocOf(j));
      if BodyDigest(entry.body) != j.bodyDigest || entry.manifest != j.manifestDigest then Err(Drift) else Ok(after)
  }

  /** Recovery of journal i and everything after it; it stops at the first error. */
  function RecoverFrom(w: World, i: nat, at: Time): (World, Result<(), Error>)
    requires i <= |w.journals|
    decreases |w.journals| - i
  {
    if i == |w.journals| then (w, Ok(())) else
    var j := w.journals[i];
    if j.manifestDigest !in w.db.promotions then RecoverFrom(w, i + 1, at)
    else if w.db.promotions[j.manifestDigest] != ReceiptOf(j) then (w, Err(Drift))
    else
      match FinalizeJournal(w.digests, j)
      case Err(e) => (w, Err(e))
      case Ok(digests) =>
        var (db, r) := FinalizePromoted(w.db, ReceiptOf(j), at);
        var next := World(db, w.journals, digests);
        if r.Err? then (next, Err(r.error)) else RecoverFrom(next, i + 1, at)
  }

  function Recover(w: World, at: Time): (World, Result<(), Error>) { RecoverFrom(w, 0, at) }

  // ---- What always holds ----------------------------------------------------------------

  predicate Bearing(w: World, j: Journal) { j.manifestDigest in w.db.promotions }

  /** A committed receipt names a started row and has its journal. */
  ghost predicate ReceiptInv(w: World, d: Digest)
    requires d in w.db.promotions
  {
    var p := w.db.promotions[d]; var i := FindDigest(w.db.rows, d); var k := FindJournal(w.journals, d);
    && p.manifestDigest == d
    && i >= 0 && w.db.rows[i].executionId == Some(p.executionId)
    && k >= 0 && AsKept(ReceiptOf(w.journals[k])) == p
  }

  /** A promoted digest has its receipt, for that sitting and that body, and is not pinned. */
  ghost predicate DigestInv(w: World, sitting: string)
    requires sitting in w.digests
  {
    var doc := w.digests[sitting];
    doc.manifest != "" ==>
      && !doc.pinned
      && doc.manifest in w.db.promotions
      && w.db.promotions[doc.manifest].sitting == sitting
      && w.db.promotions[doc.manifest].bodyDigest == BodyDigest(doc.body)
  }

  ghost predicate JournalsInv(js: seq<Journal>) {
    && (forall i :: 0 <= i < |js| ==> WellFormed(js[i]))
    && (forall i, k :: 0 <= i < |js| && 0 <= k < |js| && js[i].manifestDigest == js[k].manifestDigest ==> i == k)
  }

  ghost predicate Inv(w: World) {
    && Valid(w.db) && JournalsInv(w.journals)
    && (forall d :: d in w.db.promotions ==> ReceiptInv(w, d))
    && (forall s :: s in w.digests ==> DigestInv(w, s))
  }

  // ---- The exact effect of a recovery -------------------------------------------------------

  function StatusOf(w: World, d: Digest): Option<Status> {
    var i := FindDigest(w.db.rows, d);
    if i < 0 then None else Some(w.db.rows[i].status)
  }

  predicate Finishable(w: World, j: Journal) {
    StatusOf(w, j.manifestDigest) == Some(Running) || StatusOf(w, j.manifestDigest) == Some(Completed)
  }

  /** The newest receipt-bearing journal of a sitting from position i on, or -1. */
  function LastBearing(js: seq<Journal>, promotions: map<Digest, Promotion>, sitting: string, i: nat): (r: int)
    requires i <= |js|
    ensures r == -1 || (i <= r < |js| && js[r].manifestDigest in promotions && js[r].sitting == sitting)
    decreases |js| - i
  {
    if i == |js| then -1
    else if LastBearing(js, promotions, sitting, i + 1) >= 0 then LastBearing(js, promotions, sitting, i + 1)
    else if js[i].manifestDigest in promotions && js[i].sitting == sitting then i else -1
  }

  /** A journal recovery can finish: its row runs or has completed, its receipt reads back as it was written, and
      its sitting's digest is not pinned. */
  predicate Recoverable(w: World, j: Journal) {
    Finishable(w, j) && Whole(j.recordedAt) && !Pinned(w.digests, j.sitting)
  }

  /** What each step of recovering one journal comes to. */
  lemma RecoverOne(w: World, i: nat, at: Time)
    requires Inv(w) && i < |w.journals| && Bearing(w, w.journals[i])
    ensures var j := w.journals[i];
            && w.db.promotions[j.manifestDigest] == AsKept(ReceiptOf(j))
            && (w.db.promotions[j.manifestDigest] == ReceiptOf(j) <==> Whole(j.recordedAt))
            && FinalizeJournal(w.digests, j) ==
               (if Pinned(w.digests, j.sitting) then Err(Drift) else Ok(w.digests[j.sitting := DocOf(j)]))
            && (FinalizePromoted(w.db, ReceiptOf(j), at).1.Ok? <==> Finishable(w, j))
  {
    var j := w.journals[i];
    assert ReceiptInv(w, j.manifestDigest);
    assert FindJournal(w.journals, j.manifestDigest) == i;
    KeptIfWhole(ReceiptOf(j));
    if j.sitting in w.digests { DigestInPlace(w, j); }
  }

  /** A promoted digest is its journal's, and then putting it in place again changes nothing. */
  lemma DigestInPlace(w: World, j: Journal)
    requires j.sitting in w.digests && DigestInv(w, j.sitting) && WellFormed(j)
    requires Bearing(w, j) && w.db.promotions[j.manifestDigest] == AsKept(ReceiptOf(j))
    ensures w.digests[j.sitting].manifest == j.manifestDigest ==>
      w.digests[j.sitting] == DocOf(j) && w.digests[j.sitting := DocOf(j)] == w.digests
  {
  }

  /** Looking a digest up depends on the digests of the rows only. */
  lemma {:induction false} FindSameDigest(x: seq<Row>, y: seq<Row>, d: Digest)
    requires |x| == |y| && forall k :: 0 <= k < |x| ==> x[k].manifest.digest == y[k].manifest.digest
    ensures FindDigest(x, d) == FindDigest(y, d)
  {
    if x != [] { FindSameDigest(x[..|x| - 1], y[..|y| - 1], d); }
  }

  /** The world after journal i has been recovered. */
  function AfterOne(w: World, i: nat, at: Time): World
    requires i < |w.journals|
  {
    var j := w.journals[i];
    World(FinalizePromoted(w.db, ReceiptOf(j), at).0, w.journals, w.digests[j.sitting := DocOf(j)])
  }

  /** Completing one row touches no other row, no receipt and no journal. */
  lemma AfterOneFrame(w: World, i: nat, at: Time)
    requires Inv(w) && i < |w.journals| && Bearing(w, w.journals[i]) && Finishable(w, w.journals[i])
    ensures var j := w.journals[i]; var db := AfterOne(w, i, at).db;
            && db == w.db.(rows := db.rows) && |db.rows| == |w.db.rows|
            && (forall k :: 0 <= k < |db.rows| ==> db.rows[k].manifest == w.db.rows[k].manifest)
            && (forall k :: 0 <= k < |db.rows| ==> db.rows[k].executionId == w.db.rows[k].executionId)
            && (forall k :: 0 <= k < |db.rows| ==>
                  db.rows[k].status == if w.db.rows[k].manifest.digest == j.manifestDigest then Completed
                      else w.db.rows[k].status)
            && (StatusOf(w, j.manifestDigest) == Some(Completed) ==> db == w.db)
  {
    var j := w.journals[i];
    RecoverOne(w, i, at);
    hide ReceiptInv, DigestInv, JournalsInv;
    CompletedFrame(w.db, ReceiptOf(j), at);
  }

  /** A promoted execution that can be finished: its row is completed, and nothing else changes. */
  lemma CompletedFrame(db: Db, p: Promotion, at: Time)
    requires Valid(db) && FinalizePromoted(db, p, at).1.Ok?
    ensures var after := FinalizePromoted(db, p, at).0;
            && after == db.(rows := after.rows) && |after.rows| == |db.rows|
            && (forall k :: 0 <= k < |db.rows| ==> after.rows[k].manifest == db.rows[k].manifest)
            && (forall k :: 0 <= k < |db.rows| ==> after.rows[k].executionId == db.rows[k].executionId)
            && (forall k :: 0 <= k < |db.rows| ==>
                  after.rows[k].status ==
                  if db.rows[k].manifest.digest == p.manifestDigest then Completed else db.rows[k].status)
            && (db.rows[FindDigest(db.rows, p.manifestDigest)].status == Completed ==> after == db)
  {
    var r := FindDigest(db.rows, p.manifestDigest);
    assert forall k :: 0 <= k < |db.rows| && k != r ==> db.rows[k].manifest.digest != p.manifestDigest;
  }

  /** Writing a committed journal's digest keeps the invariant. */
  lemma UpsertKeepsInv(w: World, i: nat)
    requires Inv(w) && i < |w.journals| && Bearing(w, w.journals[i])
    ensures Inv(w.(digests := w.digests[w.journals[i].sitting := DocOf(w.journals[i])]))
  {
    var j := w.journals[i];
    var v := w.(digests := w.digests[j.sitting := DocOf(j)]);
    assert ReceiptInv(w, j.manifestDigest) && FindJournal(w.journals, j.manifestDigest) == i;
    forall d | d in v.db.promotions ensures ReceiptInv(v, d) { assert ReceiptInv(w, d); }
    forall s | s in v.digests ensures DigestInv(v, s) {
      if s != j.sitting { assert DigestInv(w, s); }
    }
  }

  /** Moving rows along the state machine keeps the invariant. */
  lemma RowsKeepInv(w: World, db: Db)
    requires Inv(w) && Valid(db) && db.promotions == w.db.promotions && Evolves(w.db.rows, db.rows)
    ensures Inv(w.(db := db))
  {
    var v := w.(db := db);
    forall d | d in v.db.promotions ensures ReceiptInv(v, d) {
      assert ReceiptInv(w, d);
      var i := FindDigest(w.db.rows, d);
      assert Reaches(w.db.rows[i], db.rows[i]);
      DigestIsUnique(db, i);
    }
    forall s | s in v.digests ensures DigestInv(v, s) { assert DigestInv(w, s); }
  }

  lemma AfterOneKeepsInv(w: World, i: nat, at: Time)
    requires Inv(w) && i < |w.journals| && Bearing(w, w.journals[i])
    ensures Inv(AfterOne(w, i, at))
  {
    var j := w.journals[i];
    var db := AfterOne(w, i, at).db;
    UpsertKeepsInv(w, i);
    FinalizeKeepsInv(w.(digests := w.digests[j.sitting := DocOf(j)]), ReceiptOf(j), at);
  }

  lemma FinalizeEffects(db: Db, p: Promotion, at: Time)
    requires Valid(db)
    ensures var after := FinalizePromoted(db, p, at).0;
        Valid(after) && Evolves(db.rows, after.rows) && after.promotions == db.promotions
  {
    FinalizeKeepsValid(db, p, at);
    StepsEvolve(db.rows, FinalizePromoted(db, p, at).0.rows);
  }

  lemma FinalizeKeepsInv(w: World, p: Promotion, at: Time)
    requires Inv(w)
    ensures Inv(w.(db := FinalizePromoted(w.db, p, at).0))
  {
    var db := FinalizePromoted(w.db, p, at).0;
    assert Valid(db) && Evolves(w.db.rows, db.rows) && db.promotions == w.db.promotions by {
      FinalizeEffects(w.db, p, at);
    }
    RowsKeepInv(w, db);
  }

  lemma AfterOneStatus(w: World, i: nat, at: Time, d: Digest)
    requires Inv(w) && i < |w.journals| && Bearing(w, w.journals[i]) && Finishable(w, w.journals[i])
    ensures StatusOf(AfterOne(w, i, at), d) == if d == w.journals[i].manifestDigest then Some(Completed)
        else StatusOf(w, d)
  {
    hide FinalizePromoted, ReceiptInv, DigestInv, Valid;
    AfterOneFrame(w, i, at);
    FindSameDigest(AfterOne(w, i, at).db.rows, w.db.rows, d);
  }

  /** d has a receipt and a journal at or after position i. */
  predicate NamedFrom(w: World, i: nat, d: Digest)
    requires i <= |w.journals|
  {
    d in w.db.promotions && exists k :: i <= k < |w.journals| && w.journals[k].manifestDigest == d
  }

  /** Only rows' progress and digests may differ. */
  ghost predicate SameShape(w: World, w': World) {
    && w'.journals == w.journals && w'.db == w.db.(rows := w'.db.rows) && |w'.db.rows| == |w.db.rows|
    && forall k :: 0 <= k < |w.db.rows| ==> w'.db.rows[k].manifest == w.db.rows[k].manifest
  }

  /** Exactly the rows of receipt-bearing journals from position i on are completed. */
  ghost predicate RowsRecovered(w: World, i: nat, w': World)
    requires i <= |w.journals|
  {
    forall d :: StatusOf(w', d) == if NamedFrom(w, i, d) then Some(Completed) else StatusOf(w, d)
  }

  /** Every sitting with a receipt-bearing journal from position i on shows the newest of them;
      every other sitting's digest is what it was. */
  ghost predicate DigestRecovered(w: World, i: nat, w': World, sitting: string)
    requires i <= |w.journals|
  {
    var last := LastBearing(w.journals, w.db.promotions, sitting, i);
    if last >= 0 then sitting in w'.digests && w'.digests[sitting] == DocOf(w.journals[last])
    else
      && (sitting in w'.digests <==> sitting in w.digests)
      && (sitting in w.digests ==> w'.digests[sitting] == w.digests[sitting])
  }

  ghost predicate Recovered(w: World, i: nat, w': World)
    requires i <= |w.journals|
  {
    SameShape(w, w') && RowsRecovered(w, i, w') && forall s :: DigestRecovered(w, i, w', s)
  }

  ghost predicate AllRecoverable(w: World, i: nat)
    requires i <= |w.journals|
  {
    forall k :: i <= k < |w.journals| && Bearing(w, w.journals[k]) ==> Recoverable(w, w.journals[k])
  }

  lemma ComposeRows(w: World, i: nat, at: Time, w': World)
    requires Inv(w) && i < |w.journals| && Bearing(w, w.journals[i]) && Finishable(w, w.journals[i])
    requires RowsRecovered(AfterOne(w, i, at), i + 1, w')
    ensures RowsRecovered(w, i, w')
  {
    hide FinalizePromoted, ReceiptInv, DigestInv, Valid, StatusOf;
    var v := AfterOne(w, i, at);
    AfterOneFrame(w, i, at);
    forall d ensures StatusOf(w', d) == if NamedFrom(w, i, d) then Some(Completed) else StatusOf(w, d) {
      AfterOneStatus(w, i, at, d);
      assert NamedFrom(w, i, d) <==> (d == w.journals[i].manifestDigest || NamedFrom(v, i + 1, d));
    }
  }

  lemma ComposeDigest(w: World, i: nat, v: World, w': World, sitting: string)
    requires i < |w.journals| && Bearing(w, w.journals[i])
    requires v.journals == w.journals && v.db.promotions == w.db.promotions
    requires v.digests == w.digests[w.journals[i].sitting := DocOf(w.journals[i])]
    requires DigestRecovered(v, i + 1, w', sitting)
    ensures DigestRecovered(w, i, w', sitting)
  {
  }

  lemma ComposeRecoverable(w: World, i: nat, at: Time)
    requires Inv(w) && i < |w.journals| && Bearing(w, w.journals[i]) && Recoverable(w, w.journals[i])
    ensures AllRecoverable(AfterOne(w, i, at), i + 1) <==> AllRecoverable(w, i)
  {
    hide FinalizePromoted, ReceiptInv, DigestInv, Valid;
    var v := AfterOne(w, i, at);
    AfterOneFrame(w, i, at);
    forall k | i + 1 <= k < |w.journals| ensures Recoverable(v, w.journals[k]) <==> Recoverable(w, w.journals[k]) {
      AfterOneStatus(w, i, at, w.journals[k].manifestDigest);
    }
  }

  lemma ComposeShape(w: World, i: nat, at: Time, w': World)
    requires Inv(w) && i < |w.journals| && Bearing(w, w.journals[i]) && Finishable(w, w.journals[i])
    requires SameShape(AfterOne(w, i, at), w')
    ensures SameShape(w, w')
  {
    AfterOneFrame(w, i, at);
  }

  lemma SkipOne(w: World, i: nat, w': World)
    requires Inv(w) && i < |w.journals| && !Bearing(w, w.journals[i]) && Recovered(w, i + 1, w')
    ensures Recovered(w, i, w')
  {
    forall s ensures DigestRecovered(w, i, w', s) { assert DigestRecovered(w, i + 1, w', s); }
    assert forall d :: NamedFrom(w, i, d) <==> NamedFrom(w, i + 1, d);
  }

  /** Recovering a journal that can be recovered goes on with the next one. */
  lemma RecoverUnfold(w: World, i: nat, at: Time)
    requires Inv(w) && i < |w.journals| && Bearing(w, w.journals[i]) && Recoverable(w, w.journals[i])
    ensures RecoverFrom(w, i, at) == RecoverFrom(AfterOne(w, i, at), i + 1, at)
  {
    hide Inv, FinalizeJournal, FinalizePromoted;
    RecoverOne(w, i, at);
  }

  /** One that cannot be recovered stops the recovery, and nothing is lost. */
  lemma RecoverStops(w: World, i: nat, at: Time)
    requires Inv(w) && i < |w.journals| && Bearing(w, w.journals[i]) && !Recoverable(w, w.journals[i])
    ensures RecoverFrom(w, i, at).1.Err? && Inv(RecoverFrom(w, i, at).0)
    ensures RecoverFrom(w, i, at).0 == w || RecoverFrom(w, i, at).0 == AfterOne(w, i, at)
  {
    RecoverOne(w, i, at);
    AfterOneKeepsInv(w, i, at);
    hide Inv, FinalizeJournal, FinalizePromoted;
  }

  /** The effect of recovering one journal and then the rest. */
  lemma RecoveredFront(w: World, i: nat, at: Time, w': World)
    requires Inv(w) && i < |w.journals| && Bearing(w, w.journals[i]) && Recoverable(w, w.journals[i])
    requires AfterOne(w, i, at).journals == w.journals && Recovered(AfterOne(w, i, at), i + 1, w')
    ensures Recovered(w, i, w')
  {
    var v := AfterOne(w, i, at);
    AfterOneFrame(w, i, at);
    ComposeShape(w, i, at, w');
    ComposeRows(w, i, at, w');
    forall s ensures DigestRecovered(w, i, w', s) {
      assert DigestRecovered(v, i + 1, w', s);
      ComposeDigest(w, i, v, w', s);
    }
  }

  /** A recovery succeeds exactly when every receipt-bearing manifest is still running or already completed, no
      sitting of one is pinned, and every receipt reads back as it was written; and a successful recovery has
      exactly the effect described by Recovered. */
  lemma {:induction false} RecoverExactly(w: World, i: nat, at: Time)
    requires Inv(w) && i <= |w.journals|
    ensures RecoverFrom(w, i, at).1.Ok? <==> AllRecoverable(w, i)
    ensures RecoverFrom(w, i, at).1.Ok? ==> Recovered(w, i, RecoverFrom(w, i, at).0)
    ensures Inv(RecoverFrom(w, i, at).0)
    decreases |w.journals| - i
  {
    hide Inv, FinalizeJournal, FinalizePromoted, Recoverable, SameShape, RowsRecovered, DigestRecovered;
    if i == |w.journals| {
      NothingRecovered(w);
    } else if !Bearing(w, w.journals[i]) {
      RecoverExactly(w, i + 1, at);
      if RecoverFrom(w, i, at).1.Ok? { SkipOne(w, i, RecoverFrom(w, i, at).0); }
    } else if !Recoverable(w, w.journals[i]) {
      RecoverStops(w, i, at);
    } else {
      var v := AfterOne(w, i, at);
      AfterOneKeepsInv(w, i, at);
      RecoverExactly(v, i + 1, at);
      ComposeRecoverable(w, i, at);
      RecoverUnfold(w, i, at);
      if RecoverFrom(v, i + 1, at).1.Ok? { RecoveredFront(w, i, at, RecoverFrom(v, i + 1, at).0); }
    }
  }

  lemma NothingRecovered(w: World)
    ensures Recovered(w, |w.journals|, w)
  {
  }
}
