/**
 The replay store: manifests with a status and an execution lease, stage
 receipts, stage cursors and promotion receipts. Every operation is one
 serializable transaction: it either returns a value with its whole effect, or
 an error with no effect at all.
*/
module ReplayStore {
  import opened Common

  type Digest = string
  /** An instant as the tables keep it, in microseconds. */
  type Time = int

  /** An instant as the program reads it from its clock, in nanoseconds. */
  type Nanos = int

  datatype Status = Planned | Running | Completed | Failed | Drifted | Expired

  datatype Error = Invalid | Unauthorized | Unavailable | Drift | AlreadyActive | Constraint

  /** A manifest; `rest` stands for the fields no transaction looks into. */
  datatype Manifest = Manifest(
    digest: Digest, idempotencyKey: string, tenant: string, room: string, sitting: string,
    startAfter: nat, endAt: nat, sources: seq<string>, stages: seq<string>, sourceDigest: Digest,
    approval: string, rollback: string, release: string,
    generatedAt: Time, expiresAt: Time, rest: string)

  datatype Row = Row(
    manifest: Manifest, status: Status, executionId: Option<string>, lease: Option<Time>,
    startedAt: Option<Time>, completedAt: Option<Time>)

  datatype StageStatus = Prepared | StageCompleted | StageFailed | StageDrifted

  datatype StageKey = StageKey(digest: Digest, executionId: string, stage: string)

  datatype StageReceipt = StageReceipt(status: StageStatus, ordinal: nat, input: Digest, output: Option<Digest>)

  datatype CursorKey = CursorKey(digest: Digest, stage: string)

  datatype Cursor = Cursor(through: nat, output: Option<Digest>)

  datatype Promotion = Promotion(
    manifestDigest: Digest, executionId: string, tenant: string, room: string, sitting: string,
    sourceDigest: Digest, stageOutput: Digest, bodyDigest: Digest,
    approval: string, rollback: string, release: string, recordedAt: Nanos)

  datatype Db = Db(
    rows: seq<Row>, receipts: map<StageKey, StageReceipt>,
    cursors: map<CursorKey, Cursor>, promotions: map<Digest, Promotion>)

  const EXECUTION_LEASE: Time := 300_000_000
  const CLOCK_SKEW: Time := 60_000_000
  const MEETING_DIGEST := "meeting_digest"

  /** What the column keeps of a clock reading. */
  function Micros(n: Nanos): Time { n / 1000 }

  predicate Whole(n: Nanos) { n % 1000 == 0 }

  /** A receipt as its row reads back. */
  function AsKept(p: Promotion): Promotion { p.(recordedAt := 1000 * Micros(p.recordedAt)) }

  /** A receipt reads back as it was written exactly when its clock reading was a whole number of microseconds. */
  lemma KeptIfWhole(p: Promotion)
    ensures AsKept(p) == p <==> Whole(p.recordedAt)
    ensures AsKept(AsKept(p)) == AsKept(p)
  {
  }

  // ---- Row predicates and lookups -------------------------------------------------

  predicate Active(s: Status) { s == Planned || s == Running }

  predicate Terminal(s: Status) { !Active(s) }

  predicate SameKey(m: Manifest, n: Manifest) { m.tenant == n.tenant && m.idempotencyKey == n.idempotencyKey }

  predicate SameSitting(m: Manifest, n: Manifest) { m.tenant == n.tenant && m.room == n.room && m.sitting == n.sitting }

  /** The retry comparison: everything but the digest and the two clock readings. */
  predicate EquivalentForRetry(m: Manifest, n: Manifest) {
    m.(digest := "", generatedAt := 0, expiresAt := 0) == n.(digest := "", generatedAt := 0, expiresAt := 0)
  }

  function FindKey(rows: seq<Row>, m: Manifest): (r: int)
    ensures -1 <= r < |rows|
    ensures r >= 0 ==> SameKey(rows[r].manifest, m)
    ensures r < 0 ==> forall i :: 0 <= i < |rows| ==> !SameKey(rows[i].manifest, m)
  {
    if rows == [] then -1
    else if SameKey(rows[|rows| - 1].manifest, m) then |rows| - 1
    else FindKey(rows[..|rows| - 1], m)
  }

  function FindActive(rows: seq<Row>, m: Manifest): (r: int)
    ensures -1 <= r < |rows|
    ensures r >= 0 ==> Active(rows[r].status) && SameSitting(rows[r].manifest, m)
    ensures r < 0 ==> forall i :: 0 <= i < |rows| ==> !(Active(rows[i].status) && SameSitting(rows[i].manifest, m))
  {
    if rows == [] then -1
    else if Active(rows[|rows| - 1].status) && SameSitting(rows[|rows| - 1].manifest, m) then |rows| - 1
    else FindActive(rows[..|rows| - 1], m)
  }

  function FindDigest(rows: seq<Row>, d: Digest): (r: int)
    ensures -1 <= r < |rows|
    ensures r >= 0 ==> rows[r].manifest.digest == d
    ensures r < 0 ==> forall i :: 0 <= i < |rows| ==> rows[i].manifest.digest != d
  {
    if rows == [] then -1
    else if rows[|rows| - 1].manifest.digest == d then |rows| - 1
    else FindDigest(rows[..|rows| - 1], d)
  }

  predicate Distinct(s: seq<string>) { forall i, j :: 0 <= i < j < |s| ==> s[i] != s[j] }

  /** The table constraints a manifest row and its child rows must satisfy. */
  predicate SchemaAccepts(m: Manifest) {
    && m.startAfter < m.endAt && 1 <= |m.sources| <= 48 && m.generatedAt < m.expiresAt
    && m.tenant != "" && m.room != "" && m.sitting != "" && m.approval != "" && m.rollback != "" && m.release != ""
    && Distinct(m.sources) && Distinct(m.stages) && "board" !in m.stages
  }

  // ---- Transactions -------------------------------------------------------------------

  function Create(db: Db, m: Manifest): Db {
    db.(rows := db.rows + [Row(m, Planned, None, None, None, None)],
        cursors := db.cursors + (map k: string | k in m.stages :: CursorKey(m.digest, k) := Cursor(m.startAfter, None)))
  }

  /** Plan: a retry returns the first stored manifest; a sitting has at most one active manifest. */
  function SaveManifest(db: Db, m: Manifest): (Db, Result<(Manifest, bool), Error>) {
    var keyed := FindKey(db.rows, m);
    var active := FindActive(db.rows, m);
    var stored := FindDigest(db.rows, m.digest);
    if keyed >= 0 then
      (db, if EquivalentForRetry(db.rows[keyed].manifest, m) then Ok((db.rows[keyed].manifest, false)) else Err(Drift))
    else if active >= 0 then
      (db, if EquivalentForRetry(db.rows[active].manifest, m) then Ok((db.rows[active].manifest, false))
          else Err(AlreadyActive))
    else if !SchemaAccepts(m) then (db, Err(Constraint))
    else if stored >= 0 then (db, Ok((db.rows[stored].manifest, false)))
    else (Create(db, m), Ok((m, true)))
  }

  /** Begin: the bool says the execution already existed. */
  function BeginExecution(db: Db, m: Manifest, executionId: string, now: Time, sourcesDigest: Digest)
    : (Db, Result<(string, bool), Error>)
  {
    var i := FindDigest(db.rows, m.digest);
    if i < 0 then (db, Err(Unavailable)) else
    var row := db.rows[i];
    if row.status == Completed || row.status == Running then
      (db, Ok((if row.executionId.Some? then row.executionId.value else "", true)))
    else if row.status != Planned || now >= row.manifest.expiresAt then (db, Err(Unauthorized))
    else if m.stages == [] then (db, Err(Invalid))
    else
      var begun := row.(status := Running, executionId := Some(executionId), startedAt := Some(now),
          lease := Some(now + EXECUTION_LEASE));
      var first := StageKey(m.digest, executionId, m.stages[0]);
      if first in db.receipts then (db, Err(Constraint))
      else (db.(rows := db.rows[i := begun],
                receipts := db.receipts[first := StageReceipt(Prepared, 0, sourcesDigest, None)]),
            Ok((executionId, false)))
  }

  /** The row a live execution may write to: running, owned, lease not elapsed. */
  predicate Owns(row: Row, executionId: string, now: Time) {
    row.status == Running && row.executionId == Some(executionId) && row.lease.Some? && row.lease.value > now
  }

  function RenewExecutionLease(db: Db, d: Digest, executionId: string, now: Time, expiresAt: Time)
    : (Db, Result<(), Error>)
  {
    var i := FindDigest(db.rows, d);
    if executionId == "" || expiresAt <= now then (db, Err(Invalid))
    else if i < 0 || !Owns(db.rows[i], executionId, now) then (db, Err(Drift))
    else (db.(rows := db.rows[i := db.rows[i].(lease := Some(expiresAt))]), Ok(()))
  }

  /** Record: upsert under the stage key; a completed stage also advances its cursor. */
  function RecordStageReceipt(db: Db, key: StageKey, receipt: StageReceipt, clock: Time): (Db, Result<(), Error>) {
    var i := FindDigest(db.rows, key.digest);
    if i < 0 then (db, Err(Unavailable))
    else if !Owns(db.rows[i], key.executionId, clock) then (db, Err(Drift))
    else if key.stage == "board" then (db, Err(Constraint))
    else if key in db.receipts && db.receipts[key].input != receipt.input then (db, Err(Drift))
    else
      // A conflicting row keeps its ordinal and input.
      var merged := if key in db.receipts then db.receipts[key].(status := receipt.status, output := receipt.output)
          else receipt;
      var recorded := db.(receipts := db.receipts[key := merged]);
      if receipt.status != StageCompleted then (recorded, Ok(()))
      else if receipt.output.None? then (db, Err(Invalid))
      else
        var c := CursorKey(key.digest, key.stage);
        if c !in db.cursors then (db, Err(Drift))
        else (recorded.(cursors := db.cursors[c := Cursor(db.rows[i].manifest.endAt, receipt.output)]), Ok(()))
  }

  /** Complete: only the owner of a live lease may end a running execution. */
  function CompleteExecution(db: Db, d: Digest, executionId: string, status: Status, at: Time, clock: Time)
    : (Db, Result<(), Error>)
  {
    var i := FindDigest(db.rows, d);
    if status != Completed && status != Failed && status != Drifted then (db, Err(Invalid))
    else if i < 0 || !Owns(db.rows[i], executionId, clock) then (db, Err(Drift))
    else (db.(rows := db.rows[i := db.rows[i].(status := status, completedAt := Some(at), lease := None)]), Ok(()))
  }

  predicate Reclaimable(row: Row, now: Time) {
    || (row.status == Planned && row.manifest.expiresAt <= now)
    || (row.status == Running && row.lease.Some? && row.lease.value <= now)
  }

  function ReclaimRow(row: Row, now: Time): Row {
    if !Reclaimable(row, now) then row
    else if row.status == Planned then row.(status := Expired, completedAt := Some(now))
    else row.(status := Failed, completedAt := Some(now), lease := None)
  }

  /** Whether one of the first n rows, on being reclaimed, fails this stage receipt closed. */
  predicate FailedClosed(rows: seq<Row>, n: nat, k: StageKey, now: Time)
    requires n <= |rows|
  {
    exists i :: 0 <= i < n && Reclaimable(rows[i], now) && rows[i].status == Running &&
      rows[i].manifest.digest == k.digest && rows[i].executionId == Some(k.executionId)
  }

  function FailPrepared(r: StageReceipt, failed: bool): StageReceipt {
    if failed && r.status == Prepared then r.(status := StageFailed) else r
  }

  function FailReceipts(receipts: map<StageKey, StageReceipt>, rows: seq<Row>, n: nat, now: Time)
    : map<StageKey, StageReceipt>
    requires n <= |rows|
  {
    map k | k in receipts :: FailPrepared(receipts[k], FailedClosed(rows, n, k, now))
  }

  /** Reclaim: every elapsed authorization or lease becomes terminal. */
  function ReclaimExpired(db: Db, now: Time): Db {
    db.(rows := seq(|db.rows|, i requires 0 <= i < |db.rows| => ReclaimRow(db.rows[i], now)),
        receipts := FailReceipts(db.receipts, db.rows, |db.rows|, now))
  }

  function ReclaimCount(rows: seq<Row>, n: nat, now: Time): nat
    requires n <= |rows|
  {
    if n == 0 then 0 else ReclaimCount(rows, n - 1, now) + if Reclaimable(rows[n - 1], now) then 1 else 0
  }

  /** The receipts update of one reclaimed execution. */
  function FailExecution(receipts: map<StageKey, StageReceipt>, row: Row): map<StageKey, StageReceipt> {
    map k | k in receipts ::
      FailPrepared(receipts[k], row.manifest.digest == k.digest && row.executionId == Some(k.executionId))
  }

  /** Reclaiming one more row fails the receipts of that row's execution, and no others. */
  lemma ReclaimOneMore(receipts: map<StageKey, StageReceipt>, rows: seq<Row>, n: nat, now: Time)
    requires n < |rows|
    ensures FailReceipts(receipts, rows, n + 1, now) ==
            if Reclaimable(rows[n], now) && rows[n].status == Running
                then FailExecution(FailReceipts(receipts, rows, n, now), rows[n])
            else FailReceipts(receipts, rows, n, now)
  {
    var running := Reclaimable(rows[n], now) && rows[n].status == Running;
    forall k | k in receipts
      ensures FailedClosed(rows, n + 1, k, now) <==> (FailedClosed(rows, n, k, now) ||
        (running && rows[n].manifest.digest == k.digest && rows[n].executionId == Some(k.executionId)))
    {
    }
  }

  /** What the insert trigger demands of a promotion receipt. */
  predicate PromotionExact(db: Db, p: Promotion, clock: Time) {
    var i := FindDigest(db.rows, p.manifestDigest);
    i >= 0 &&
    (var row := db.rows[i]; var m := row.manifest; var k := StageKey(p.manifestDigest, p.executionId, MEETING_DIGEST);
     && row.status == Running && row.executionId == Some(p.executionId)
     && m.tenant == p.tenant && m.room == p.room && m.sitting == p.sitting
     && m.approval == p.approval && m.rollback == p.rollback && m.release == p.release
     && m.sourceDigest == p.sourceDigest
     && k in db.receipts && db.receipts[k].status == StageCompleted && db.receipts[k].output == Some(p.stageOutput)
     && row.startedAt.Some? && row.startedAt.value <= Micros(p.recordedAt) <= clock + CLOCK_SKEW)
  }

  /** Commit a promotion receipt; one that reads back identical is success without a write. */
  function CommitPromotion(db: Db, p: Promotion, clock: Time): (Db, Result<bool, Error>) {
    if p.executionId == "" || p.tenant == "" || p.room == "" || p.sitting == "" then (db, Err(Invalid))
    else if p.manifestDigest in db.promotions then
      (db, if db.promotions[p.manifestDigest] == p then Ok(false) else Err(Drift))
    else if !PromotionExact(db, p, clock) then (db, Err(Constraint))
    else (db.(promotions := db.promotions[p.manifestDigest := AsKept(p)]), Ok(true))
  }

  /** Finish an execution whose promotion committed, whatever became of its lease. */
  function FinalizePromoted(db: Db, p: Promotion, at: Time): (Db, Result<(), Error>) {
    var i := FindDigest(db.rows, p.manifestDigest);
    if p.executionId == "" then (db, Err(Invalid))
    else if i < 0 || p.manifestDigest !in db.promotions || db.rows[i].executionId.None? then (db, Err(Unavailable))
    else if db.rows[i].executionId != Some(p.executionId)
        || db.promotions[p.manifestDigest].executionId != p.executionId then
      (db, Err(Drift))
    else if db.rows[i].status == Completed then (db, Ok(()))
    else if db.rows[i].status != Running then (db, Err(Drift))
    else (db.(rows := db.rows[i := db.rows[i].(status := Completed, completedAt := Some(at), lease := None)]), Ok(()))
  }

  // ---- Whole runs of transactions --------------------------------------------------------

  datatype Tx =
    | Save(manifest: Manifest)
    | Begin(manifest: Manifest, executionId: string, now: Time, sourcesDigest: Digest)
    | Renew(digest: Digest, executionId: string, now: Time, until: Time)
    | Record(key: StageKey, receipt: StageReceipt, clock: Time)
    | Complete(digest: Digest, executionId: string, status: Status, at: Time, clock: Time)
    | Reclaim(now: Time)
    | Promote(promotion: Promotion, clock: Time)
    | Finalize(promotion: Promotion, at: Time)

  function Apply(db: Db, tx: Tx): Db {
    match tx
    case Save(m) => SaveManifest(db, m).0
    case Begin(m, e, now, d) => BeginExecution(db, m, e, now, d).0
    case Renew(d, e, now, until) => RenewExecutionLease(db, d, e, now, until).0
    case Record(k, r, clock) => RecordStageReceipt(db, k, r, clock).0
    case Complete(d, e, st, at, clock) => CompleteExecution(db, d, e, st, at, clock).0
    case Reclaim(now) => ReclaimExpired(db, now)
    case Promote(p, clock) => CommitPromotion(db, p, clock).0
    case Finalize(p, at) => FinalizePromoted(db, p, at).0
  }

  function Run(db: Db, txs: seq<Tx>): Db {
    if txs == [] then db else Apply(Run(db, txs[..|txs| - 1]), txs[|txs| - 1])
  }

  const EMPTY := Db([], map[], map[], map[])

  /** The status constraint of the table. */
  predicate RowShape(row: Row) {
    match row.status
    case Planned => row.executionId.None? && row.lease.None? && row.startedAt.None? && row.completedAt.None?
    case Running => row.executionId.Some? && row.lease.Some? && row.startedAt.Some? && row.completedAt.None?
    case Expired => row.executionId.None? && row.lease.None? && row.startedAt.None? && row.completedAt.Some?
    case _ => row.executionId.Some? && row.lease.None? && row.startedAt.Some? && row.completedAt.Some?
  }

  ghost predicate DistinctDigests(rows: seq<Row>) {
    forall i, j :: 0 <= i < |rows| && 0 <= j < |rows| && rows[i].manifest.digest == rows[j].manifest.digest ==> i == j
  }

  ghost predicate DistinctKeys(rows: seq<Row>) {
    forall i, j :: 0 <= i < |rows| && 0 <= j < |rows| && SameKey(rows[i].manifest, rows[j].manifest) ==> i == j
  }

  predicate ActivePair(x: Row, y: Row) { Active(x.status) && Active(y.status) && SameSitting(x.manifest, y.manifest) }

  ghost predicate OneActivePerSitting(rows: seq<Row>) {
    forall i, j :: 0 <= i < |rows| && 0 <= j < |rows| && ActivePair(rows[i], rows[j]) ==> i == j
  }

  ghost predicate RowsValid(rows: seq<Row>) {
    && (forall i :: 0 <= i < |rows| ==> RowShape(rows[i]))
    && DistinctDigests(rows) && DistinctKeys(rows) && OneActivePerSitting(rows)
  }

  ghost predicate Valid(db: Db) { RowsValid(db.rows) }

  /** Where a row can get to: the manifest is immutable, a terminal row never changes again, an
      execution id once set stays, and a running row never becomes planned or expired. */
  predicate Reaches(before: Row, after: Row) {
    && after.manifest == before.manifest
    && (Terminal(before.status) ==> after == before)
    && (before.executionId.Some? ==> after.executionId == before.executionId)
    && (before.status == Running ==> after.status != Planned && after.status != Expired)
  }

  /** One transaction at most starts or expires a planned row. */
  predicate Edge(before: Row, after: Row) {
    Reaches(before, after) && (before.status == Planned ==> after.status in {Planned, Running, Expired})
  }

  /** Rows are never removed or reordered. */
  ghost predicate Evolves(before: seq<Row>, after: seq<Row>) {
    |before| <= |after| && forall i :: 0 <= i < |before| ==> Reaches(before[i], after[i])
  }

  ghost predicate Steps(before: seq<Row>, after: seq<Row>) {
    |before| <= |after| && forall i :: 0 <= i < |before| ==> Edge(before[i], after[i])
  }

  lemma StepsEvolve(x: seq<Row>, y: seq<Row>)
    requires Steps(x, y)
    ensures Evolves(x, y)
  {
    forall i | 0 <= i < |x| ensures Reaches(x[i], y[i]) { assert Edge(x[i], y[i]); }
  }

  lemma EvolvesIsTransitive(x: seq<Row>, y: seq<Row>, z: seq<Row>)
    requires Evolves(x, y) && Steps(y, z)
    ensures Evolves(x, z)
  {
    forall i | 0 <= i < |x| ensures Reaches(x[i], z[i]) {
      assert Reaches(x[i], y[i]) && Edge(y[i], z[i]);
    }
  }

  /** Moving one row along an edge, without reviving it. */
  lemma ReplaceKeepsValid(rows: seq<Row>, i: nat, row: Row)
    requires RowsValid(rows) && i < |rows| && RowShape(row) && Edge(rows[i], row)
    ensures RowsValid(rows[i := row]) && Steps(rows, rows[i := row])
  {
    assert Active(row.status) ==> Active(rows[i].status);
  }

  lemma CreateKeepsValid(rows: seq<Row>, row: Row)
    requires RowsValid(rows) && row == Row(row.manifest, Planned, None, None, None, None)
    requires FindKey(rows, row.manifest) < 0 && FindActive(rows, row.manifest) < 0
        && FindDigest(rows, row.manifest.digest) < 0
    ensures RowsValid(rows + [row]) && Steps(rows, rows + [row])
  {
    var after := rows + [row];
    forall i, j | 0 <= i < |after| && 0 <= j < |after| && SameKey(after[i].manifest, after[j].manifest) ensures i == j {
      assert forall k :: 0 <= k < |rows| ==> after[k] == rows[k] && !SameKey(rows[k].manifest, row.manifest);
    }
    forall i, j | 0 <= i < |after| && 0 <= j < |after| && ActivePair(after[i], after[j]) ensures i == j {
      assert forall k :: 0 <= k < |rows| ==> after[k] == rows[k] && !ActivePair(rows[k], row);
    }
  }

  lemma ReclaimKeepsValid(db: Db, now: Time)
    requires Valid(db)
    ensures Valid(ReclaimExpired(db, now)) && Steps(db.rows, ReclaimExpired(db, now).rows)
  {
    var rows := ReclaimExpired(db, now).rows;
    forall i | 0 <= i < |rows| ensures rows[i] == ReclaimRow(db.rows[i], now) && RowShape(rows[i])
        && Edge(db.rows[i], rows[i]) {
      assert RowShape(db.rows[i]);
    }
    assert forall i :: 0 <= i < |rows| && Active(rows[i].status) ==> Active(db.rows[i].status);
  }

  lemma BeginKeepsValid(db: Db, m: Manifest, executionId: string, now: Time, d: Digest)
    requires Valid(db)
    ensures var after := BeginExecution(db, m, executionId, now, d).0; Valid(after) && Steps(db.rows, after.rows)
  {
    var i := FindDigest(db.rows, m.digest);
    if i >= 0 && RowShape(db.rows[i]) && db.rows[i].status == Planned {
      ReplaceKeepsValid(db.rows, i, db.rows[i].(status := Running, executionId := Some(executionId),
                                                startedAt := Some(now), lease := Some(now + EXECUTION_LEASE)));
    }
  }

  lemma LeaseKeepsValid(db: Db, d: Digest, executionId: string, now: Time, expiresAt: Time)
    requires Valid(db)
    ensures var after := RenewExecutionLease(db, d, executionId, now, expiresAt).0;
        Valid(after) && Steps(db.rows, after.rows)
  {
    var i := FindDigest(db.rows, d);
    if i >= 0 && RowShape(db.rows[i]) && db.rows[i].status == Running {
      ReplaceKeepsValid(db.rows, i, db.rows[i].(lease := Some(expiresAt)));
    }
  }

  lemma EndKeepsValid(rows: seq<Row>, i: nat, status: Status, at: Time)
    requires RowsValid(rows) && i < |rows| && rows[i].status == Running && status in {Completed, Failed, Drifted}
    ensures var after := rows[i := rows[i].(status := status, completedAt := Some(at), lease := None)];
            RowsValid(after) && Steps(rows, after)
  {
    assert RowShape(rows[i]);
    ReplaceKeepsValid(rows, i, rows[i].(status := status, completedAt := Some(at), lease := None));
  }

  lemma SaveKeepsValid(db: Db, m: Manifest)
    requires Valid(db)
    ensures var after := SaveManifest(db, m).0; Valid(after) && Steps(db.rows, after.rows)
  {
    var row := Row(m, Planned, None, None, None, None);
    if FindKey(db.rows, m) < 0 && FindActive(db.rows, m) < 0 && FindDigest(db.rows, m.digest) < 0 {
      CreateKeepsValid(db.rows, row);
      assert Create(db, m).rows == db.rows + [row];
    }
  }

  lemma CompleteKeepsValid(db: Db, d: Digest, executionId: string, status: Status, at: Time, clock: Time)
    requires Valid(db)
    ensures var after := CompleteExecution(db, d, executionId, status, at, clock).0;
        Valid(after) && Steps(db.rows, after.rows)
  {
    var i := FindDigest(db.rows, d);
    if i >= 0 && db.rows[i].status == Running && status in {Completed, Failed, Drifted} {
      EndKeepsValid(db.rows, i, status, at);
    }
  }

  lemma FinalizeKeepsValid(db: Db, p: Promotion, at: Time)
    requires Valid(db)
    ensures var after := FinalizePromoted(db, p, at).0; Valid(after) && Steps(db.rows, after.rows)
  {
    var i := FindDigest(db.rows, p.manifestDigest);
    if i >= 0 && db.rows[i].status == Running { EndKeepsValid(db.rows, i, Completed, at); }
  }

  lemma ApplyKeepsValid(db: Db, tx: Tx)
    requires Valid(db)
    ensures Valid(Apply(db, tx)) && Steps(db.rows, Apply(db, tx).rows)
  {
    match tx
    case Save(m) => SaveKeepsValid(db, m);
    case Begin(m, e, now, d) => BeginKeepsValid(db, m, e, now, d);
    case Renew(d, e, now, until) => LeaseKeepsValid(db, d, e, now, until);
    case Record(k, r, clock) => assert Apply(db, tx).rows == db.rows;
    case Complete(d, e, st, at, clock) => CompleteKeepsValid(db, d, e, st, at, clock);
    case Reclaim(now) => ReclaimKeepsValid(db, now);
    case Promote(p, clock) => assert Apply(db, tx).rows == db.rows;
    case Finalize(p, at) => FinalizeKeepsValid(db, p, at);
  }

  /** Over any serial order of transactions: unique digests and keys, at most one active manifest per
      sitting, well-shaped rows; and from any point on, every row only moves along the state machine:
      terminal rows never change again, an execution id once set stays, manifests are immutable. */
  lemma {:induction false} RunKeepsValid(db: Db, txs: seq<Tx>)
    requires Valid(db)
    ensures Valid(Run(db, txs)) && Evolves(db.rows, Run(db, txs).rows)
  {
    if txs != [] {
      RunKeepsValid(db, txs[..|txs| - 1]);
      ApplyKeepsValid(Run(db, txs[..|txs| - 1]), txs[|txs| - 1]);
      EvolvesIsTransitive(db.rows, Run(db, txs[..|txs| - 1]).rows, Run(db, txs).rows);
    }
  }

  lemma EveryReachableStoreIsValid(txs: seq<Tx>)
    ensures Valid(Run(EMPTY, txs))
  {
    RunKeepsValid(EMPTY, txs);
  }

  lemma KeyIsUnique(db: Db, i: nat, m: Manifest)
    requires Valid(db) && i < |db.rows| && SameKey(db.rows[i].manifest, m)
    ensures FindKey(db.rows, m) == i
  {
    var k := FindKey(db.rows, m);
    assert SameKey(db.rows[k].manifest, db.rows[i].manifest);
  }

  /** A save that is retried later, after any transactions, returns the manifest first stored,
      whatever clock readings and digest the retry carries. */
  lemma RetriedSaveReturnsFirst(db: Db, m: Manifest, txs: seq<Tx>, retry: Manifest)
    requires Valid(db) && SaveManifest(db, m).1.Ok?
    requires EquivalentForRetry(SaveManifest(db, m).1.value.0, retry)
    ensures SaveManifest(Run(SaveManifest(db, m).0, txs), retry) ==
            (Run(SaveManifest(db, m).0, txs), Ok((SaveManifest(db, m).1.value.0, false)))
  {
    var (after, r) := SaveManifest(db, m);
    var first := r.value.0;
    ApplyKeepsValid(db, Save(m));
    var i := if FindKey(db.rows, m) >= 0 then FindKey(db.rows, m)
             else if FindActive(db.rows, m) >= 0 then FindActive(db.rows, m)
             else if FindDigest(db.rows, m.digest) >= 0 then FindDigest(db.rows, m.digest) else |db.rows|;
    assert after.rows[i].manifest == first;
    RunKeepsValid(after, txs);
    KeyIsUnique(Run(after, txs), i, retry);
  }

  /** Once a manifest is terminal no later write of any execution reaches it: a zombie that wakes after
      being reclaimed is refused by every operation, after any further transactions. */
  lemma TerminalIsFenced(db: Db, txs: seq<Tx>, i: nat, executionId: string, stage: string, receipt: StageReceipt,
                         status: Status, now: Time, until: Time)
    requires Valid(db) && i < |db.rows| && Terminal(db.rows[i].status)
    ensures var later := Run(db, txs); var d := db.rows[i].manifest.digest;
            && i < |later.rows| && later.rows[i] == db.rows[i]
            && RecordStageReceipt(later, StageKey(d, executionId, stage), receipt, now) == (later, Err(Drift))
            && RenewExecutionLease(later, d, executionId, now, until).0 == later
            && RenewExecutionLease(later, d, executionId, now, until).1.Err?
            && CompleteExecution(later, d, executionId, status, now, now).0 == later
            && CompleteExecution(later, d, executionId, status, now, now).1.Err?
  {
    RunKeepsValid(db, txs);
    DigestIsUnique(Run(db, txs), i);
  }

  lemma DigestIsUnique(db: Db, i: nat)
    requires Valid(db) && i < |db.rows|
    ensures FindDigest(db.rows, db.rows[i].manifest.digest) == i
  {
    assert db.rows[FindDigest(db.rows, db.rows[i].manifest.digest)].manifest.digest == db.rows[i].manifest.digest;
  }
}
