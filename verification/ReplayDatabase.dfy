/**
 The replay store as tables updated in place. Every method is one transaction:
 it keeps the table constraints, moves rows only along the state machine, and
 has exactly the effect of the transaction of the same name in ReplayStore.
*/
module ReplayDatabase {
  import opened Common
  import opened ReplayStore

  /** A running row of this manifest, owned by this execution under a live lease. */
  ghost predicate Held(rows: seq<Row>, d: Digest, executionId: string, now: Time) {
    exists i :: 0 <= i < |rows| && rows[i].manifest.digest == d && Owns(rows[i], executionId, now)
  }

  /** A planned row of this manifest whose authorization has not run out. */
  ghost predicate Beginnable(rows: seq<Row>, d: Digest, now: Time) {
    exists i :: 0 <= i < |rows| && rows[i].manifest.digest == d && rows[i].status == Planned
        && now < rows[i].manifest.expiresAt
  }

  /** An execution that a promotion receipt may finish, or already has. */
  ghost predicate Promotable(rows: seq<Row>, d: Digest, executionId: string) {
    exists i :: 0 <= i < |rows| && rows[i].manifest.digest == d && rows[i].executionId == Some(executionId)
                && rows[i].status in {Running, Completed}
  }

  /** Only rows of this manifest may differ. */
  ghost predicate OthersKept(before: seq<Row>, after: seq<Row>, d: Digest) {
    |after| == |before| && forall i :: 0 <= i < |before| && before[i].manifest.digest != d ==> after[i] == before[i]
  }

  class ReplayDatabase {
    var rows: seq<Row>
    var receipts: map<StageKey, StageReceipt>
    var cursors: map<CursorKey, Cursor>
    var promotions: map<Digest, Promotion>

    ghost function View(): Db
      reads this
    {
      Db(rows, receipts, cursors, promotions)
    }

    /** The table constraints: unique digests and keys, well-shaped rows, one active manifest per sitting. */
    ghost predicate Valid()
      reads this`rows
    {
      RowsValid(rows)
    }

    constructor ()
      ensures View() == EMPTY && Valid()
    {
      rows, receipts, cursors, promotions := [], map[], map[], map[];
    }

    /** One cursor row per stage, standing at the start of the range. */
    method InsertCursors(d: Digest, stages: seq<string>, through: nat)
      modifies this`cursors
      ensures cursors == old(cursors) + map k: string | k in stages :: CursorKey(d, k) := Cursor(through, None)
    {
      for i := 0 to |stages|
        invariant cursors == old(cursors) + map k: string | k in stages[..i] :: CursorKey(d, k) := Cursor(through, None)
      {
        cursors := cursors[CursorKey(d, stages[i]) := Cursor(through, None)];
        assert stages[..i + 1] == stages[..i] + [stages[i]];
      }
      assert stages[..|stages|] == stages;
    }

    method SaveManifest(m: Manifest) returns (r: Result<(Manifest, bool), Error>)
      requires Valid()
      modifies this`rows, this`cursors
      ensures Valid() && Evolves(old(rows), rows)
      ensures r.Err? ==> View() == old(View())
      ensures (View(), r) == ReplayStore.SaveManifest(old(View()), m)
    {
      SaveKeepsValid(View(), m);
      StepsEvolve(rows, ReplayStore.SaveManifest(View(), m).0.rows);
      var keyed := FindKey(rows, m);
      if keyed >= 0 {
        if !EquivalentForRetry(rows[keyed].manifest, m) { return Err(Drift); }
        return Ok((rows[keyed].manifest, false));
      }
      var active := FindActive(rows, m);
      if active >= 0 {
        if !EquivalentForRetry(rows[active].manifest, m) { return Err(AlreadyActive); }
        return Ok((rows[active].manifest, false));
      }
      if !SchemaAccepts(m) { return Err(Constraint); }
      var stored := FindDigest(rows, m.digest);
      if stored >= 0 { return Ok((rows[stored].manifest, false)); }
      rows := rows + [Row(m, Planned, None, None, None, None)];
      InsertCursors(m.digest, m.stages, m.startAfter);
      return Ok((m, true));
    }

    /** Start a planned, unexpired manifest: only its row and the prepared receipt of its first stage are
        written, and the execution owns the row. Anything else changes nothing. */
    method BeginExecution(m: Manifest, executionId: string, now: Time, sourcesDigest: Digest)
      returns (r: Result<(string, bool), Error>)
      requires Valid()
      modifies this`rows, this`receipts
      ensures Valid() && Evolves(old(rows), rows) && OthersKept(old(rows), rows, m.digest)
      ensures (r.Ok? && !r.value.1) <==>
        Beginnable(old(rows), m.digest, now) && m.stages != []
            && StageKey(m.digest, executionId, m.stages[0]) !in old(receipts)
      ensures r.Ok? && !r.value.1 ==>
        && Held(rows, m.digest, executionId, now)
        && var first := StageKey(m.digest, executionId, m.stages[0]);
           receipts == old(receipts)[first := StageReceipt(Prepared, 0, sourcesDigest, None)]
      ensures r.Err? || r.value.1 ==> View() == old(View())
      ensures (View(), r) == ReplayStore.BeginExecution(old(View()), m, executionId, now, sourcesDigest)
    {
      BeginKeepsValid(View(), m, executionId, now, sourcesDigest);
      StepsEvolve(rows, ReplayStore.BeginExecution(View(), m, executionId, now, sourcesDigest).0.rows);
      var i := FindDigest(rows, m.digest);
      if i < 0 { return Err(Unavailable); }
      if rows[i].status == Completed || rows[i].status == Running {
        return Ok((if rows[i].executionId.Some? then rows[i].executionId.value else "", true));
      }
      if rows[i].status != Planned || now >= rows[i].manifest.expiresAt { return Err(Unauthorized); }
      if m.stages == [] { return Err(Invalid); }
      var first := StageKey(m.digest, executionId, m.stages[0]);
      if first in receipts { return Err(Constraint); }
      rows := rows[i := rows[i].(status := Running, executionId := Some(executionId), startedAt := Some(now),
          lease := Some(now + EXECUTION_LEASE))];
      receipts := receipts[first := StageReceipt(Prepared, 0, sourcesDigest, None)];
      return Ok((executionId, false));
    }

    /** Extend a lease: exactly the owner of a live one may, only that row's lease changes, and the execution
        owns the row until the new expiry. */
    method RenewExecutionLease(d: Digest, executionId: string, now: Time, expiresAt: Time)
      returns (r: Result<(), Error>)
      requires Valid()
      modifies this`rows
      ensures Valid() && Evolves(old(rows), rows) && OthersKept(old(rows), rows, d)
      ensures r.Ok? <==> executionId != "" && now < expiresAt && Held(old(rows), d, executionId, now)
      ensures r.Ok? ==> forall i :: 0 <= i < |rows| && rows[i].manifest.digest == d ==>
          rows[i] == old(rows)[i].(lease := Some(expiresAt))
      ensures r.Ok? ==> forall t :: t < expiresAt ==> Held(rows, d, executionId, t)
      ensures r.Err? ==> rows == old(rows)
      ensures (View(), r) == ReplayStore.RenewExecutionLease(old(View()), d, executionId, now, expiresAt)
    {
      LeaseKeepsValid(View(), d, executionId, now, expiresAt);
      StepsEvolve(rows, ReplayStore.RenewExecutionLease(View(), d, executionId, now, expiresAt).0.rows);
      if executionId == "" || expiresAt <= now { return Err(Invalid); }
      var i := FindDigest(rows, d);
      if i < 0 || !Owns(rows[i], executionId, now) { return Err(Drift); }
      rows := rows[i := rows[i].(lease := Some(expiresAt))];
      assert forall t :: t < expiresAt ==> Owns(rows[i], executionId, t);
      return Ok(());
    }

    method RecordStageReceipt(key: StageKey, receipt: StageReceipt, clock: Time) returns (r: Result<(), Error>)
      modifies this`receipts, this`cursors
      ensures (View(), r) == ReplayStore.RecordStageReceipt(old(View()), key, receipt, clock)
    {
      var i := FindDigest(rows, key.digest);
      if i < 0 { return Err(Unavailable); }
      if !Owns(rows[i], key.executionId, clock) { return Err(Drift); }
      if key.stage == "board" { return Err(Constraint); }
      var before := receipts;
      if key in receipts {
        if receipts[key].input != receipt.input { return Err(Drift); }
        receipts := receipts[key := receipts[key].(status := receipt.status, output := receipt.output)];
      } else {
        receipts := receipts[key := receipt];
      }
      if receipt.status == StageCompleted {
        if receipt.output.None? {
          receipts := before;
          return Err(Invalid);
        }
        var c := CursorKey(key.digest, key.stage);
        if c !in cursors {
          receipts := before;
          return Err(Drift);
        }
        cursors := cursors[c := Cursor(rows[i].manifest.endAt, receipt.output)];
      }
      return Ok(());
    }

    /** End a running execution: exactly the owner of a live lease may, only that row changes, and it becomes
        terminal without a lease. */
    method CompleteExecution(d: Digest, executionId: string, status: Status, at: Time, clock: Time)
      returns (r: Result<(), Error>)
      requires Valid()
      modifies this`rows
      ensures Valid() && Evolves(old(rows), rows) && OthersKept(old(rows), rows, d)
      ensures r.Ok? <==> status in {Completed, Failed, Drifted} && Held(old(rows), d, executionId, clock)
      ensures r.Ok? ==> Ended(d, status, at) && forall t :: !Held(rows, d, executionId, t)
      ensures r.Err? ==> rows == old(rows)
      ensures (View(), r) == ReplayStore.CompleteExecution(old(View()), d, executionId, status, at, clock)
    {
      CompleteKeepsValid(View(), d, executionId, status, at, clock);
      StepsEvolve(rows, ReplayStore.CompleteExecution(View(), d, executionId, status, at, clock).0.rows);
      if status != Completed && status != Failed && status != Drifted { return Err(Invalid); }
      var i := FindDigest(rows, d);
      if i < 0 || !Owns(rows[i], executionId, clock) { return Err(Drift); }
      rows := rows[i := rows[i].(status := status, completedAt := Some(at), lease := None)];
      return Ok(());
    }

    /** Every row of this manifest ended with this status at this time, and holds no lease. */
    ghost predicate Ended(d: Digest, status: Status, at: Time)
      reads this`rows
    {
      forall i :: 0 <= i < |rows| && rows[i].manifest.digest == d ==>
        rows[i].status == status && rows[i].lease.None? && rows[i].completedAt == Some(at)
    }

    /** The loop over the reclaim candidates: rows and their open receipts, one candidate at a time. */
    method ReclaimExpired(now: Time) returns (count: nat)
      requires Valid()
      modifies this`rows, this`receipts
      ensures Valid() && Evolves(old(rows), rows)
      ensures View() == ReplayStore.ReclaimExpired(old(View()), now)
          && count == ReclaimCount(old(rows), |old(rows)|, now)
    {
      hide RowsValid, Evolves, Steps;
      count := 0;
      ghost var was, before := rows, View();
      for i := 0 to |rows|
        invariant |rows| == |was| && count == ReclaimCount(was, i, now)
        invariant forall j :: 0 <= j < i ==> rows[j] == ReclaimRow(was[j], now)
        invariant forall j :: i <= j < |rows| ==> rows[j] == was[j]
        invariant receipts == FailReceipts(old(receipts), was, i, now)
      {
        ReclaimOneMore(old(receipts), was, i, now);
        if Reclaimable(rows[i], now) {
          var row := rows[i];
          count := count + 1;
          if row.status == Planned {
            rows := rows[i := row.(status := Expired, completedAt := Some(now))];
          } else {
            receipts := FailExecution(receipts, row);
            rows := rows[i := row.(status := Failed, completedAt := Some(now), lease := None)];
          }
        }
      }
      assert rows == ReplayStore.ReclaimExpired(before, now).rows;
      ReclaimKeepsValid(before, now);
      StepsEvolve(was, ReplayStore.ReclaimExpired(before, now).rows);
    }

    /** Commit a receipt: the first one of a manifest is never replaced, one that reads back identical is success
        without a write, and a new one is accepted exactly when it matches its running execution. The row keeps
        its time in microseconds, so committing it again succeeds exactly for a whole number of them. */
    method CommitPromotion(p: Promotion, clock: Time) returns (r: Result<bool, Error>)
      modifies this`promotions
      ensures forall d :: d in old(promotions) ==> d in promotions && promotions[d] == old(promotions)[d]
      ensures forall d :: d in promotions && d != p.manifestDigest ==> d in old(promotions)
      ensures r.Ok? ==>
        p.manifestDigest in promotions && promotions[p.manifestDigest] == if r.value then AsKept(p) else p
      ensures r == Ok(true) ==> (ReplayStore.CommitPromotion(View(), p, clock).1.Ok? <==> Whole(p.recordedAt))
      ensures r == Ok(true) ==>
        p.manifestDigest !in old(promotions) && Promotable(rows, p.manifestDigest, p.executionId)
      ensures r != Ok(true) ==> promotions == old(promotions)
      ensures (View(), r) == ReplayStore.CommitPromotion(old(View()), p, clock)
    {
      KeptIfWhole(p);
      if p.executionId == "" || p.tenant == "" || p.room == "" || p.sitting == "" { return Err(Invalid); }
      if p.manifestDigest in promotions {
        if promotions[p.manifestDigest] != p { return Err(Drift); }
        return Ok(false);
      }
      if !PromotionExact(Db(rows, receipts, cursors, promotions), p, clock) { return Err(Constraint); }
      promotions := promotions[p.manifestDigest := AsKept(p)];
      return Ok(true);
    }

    /** Finish a promoted execution, whatever became of its lease: exactly one that its own receipt covers and
        that still runs or has completed. Only its row changes, and a completed one not at all. */
    method FinalizePromoted(p: Promotion, at: Time) returns (r: Result<(), Error>)
      requires Valid()
      modifies this`rows
      ensures Valid() && Evolves(old(rows), rows) && OthersKept(old(rows), rows, p.manifestDigest)
      ensures r.Ok? <==>
        && p.executionId != "" && p.manifestDigest in promotions
        && promotions[p.manifestDigest].executionId == p.executionId
        && Promotable(old(rows), p.manifestDigest, p.executionId)
      ensures r.Ok? ==> forall i :: 0 <= i < |rows| && rows[i].manifest.digest == p.manifestDigest ==>
        rows[i].status == Completed && (old(rows)[i].status == Completed ==> rows[i] == old(rows)[i])
      ensures r.Err? ==> rows == old(rows)
      ensures (View(), r) == ReplayStore.FinalizePromoted(old(View()), p, at)
    {
      FinalizeKeepsValid(View(), p, at);
      StepsEvolve(rows, ReplayStore.FinalizePromoted(View(), p, at).0.rows);
      if p.executionId == "" { return Err(Invalid); }
      var i := FindDigest(rows, p.manifestDigest);
      if i < 0 || p.manifestDigest !in promotions || rows[i].executionId.None? { return Err(Unavailable); }
      if rows[i].executionId != Some(p.executionId) || promotions[p.manifestDigest].executionId != p.executionId {
        return Err(Drift);
      }
      if rows[i].status == Completed { return Ok(()); }
      if rows[i].status != Running { return Err(Drift); }
      rows := rows[i := rows[i].(status := Completed, completedAt := Some(at), lease := None)];
      return Ok(());
    }
  }
}
