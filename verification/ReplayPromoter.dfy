/** The promoter as the object that writes journal, receipt and digest one durable step at a time. */
module ReplayPromoter {
  import opened Common
  import opened ReplayStore
  import opened ReplayPromotion
  import opened R = ReplayPromotionRuns
  import Store = ReplayDatabase

  class ReplayPromoter {
    const store: Store.ReplayDatabase
    var journals: seq<Journal>
    var digests: map<string, Doc>

    ghost function View(): World
      reads this, store
    {
      World(store.View(), journals, digests)
    }

    constructor (store: Store.ReplayDatabase)
      ensures this.store == store && View() == World(store.View(), [], map[])
    {
      this.store := store;
      journals, digests := [], map[];
    }

    /** Append the journal entry once: no entry is ever changed or removed, success means exactly that this
        entry is durable, and it is refused exactly when another entry stands under its digest. */
    method PersistJournal(j: Journal) returns (r: Result<(), Error>)
      requires Inv(View())
      modifies this`journals
      ensures (WellFormed(j) ==> Inv(View())) && old(journals) <= journals
      ensures r.Ok? <==> j in journals
      ensures r.Err? <==> exists k :: k in old(journals) && k.manifestDigest == j.manifestDigest && k != j
      ensures forall k :: k in journals && k != j ==> k in old(journals)
      ensures (View(), r) == ReplayPromotion.PersistJournal(old(View()), j)
    {
      if WellFormed(j) { PersistKeepsInv(View(), j); }
      OneJournalPerDigest(journals, j.manifestDigest);
      var i := FindJournal(journals, j.manifestDigest);
      if i >= 0 {
        return if journals[i] == j then Ok(()) else Err(Drift);
      }
      journals := journals + [j];
      return Ok(());
    }

    /** Replace the sitting's current digest unless it is pinned and the new one is not; what is returned is what is
        current afterwards. */
    method UpsertDigest(sitting: string, doc: Doc) returns (entry: Doc)
      modifies this`digests
      ensures sitting in digests && digests[sitting] == entry
      ensures entry == if Pinned(old(digests), sitting) && !doc.pinned then old(digests)[sitting] else doc
      ensures (digests, entry) == ReplayPromotion.UpsertDigest(old(digests), sitting, doc)
    {
      if !doc.pinned && sitting in digests && digests[sitting].pinned { return digests[sitting]; }
      digests := digests[sitting := doc];
      entry := doc;
    }

    /** Put the journalled body in place unless this manifest's digest is already there: success means that
        the sitting shows this manifest's body and no other sitting changes. Once the receipt has committed it is
        refused exactly when the sitting's digest is pinned. */
    method FinalizeJournal(j: Journal) returns (r: Result<(), Error>)
      modifies this`digests
      ensures r.Ok? ==> j.sitting in digests && digests[j.sitting].manifest == j.manifestDigest
                        && BodyDigest(digests[j.sitting].body) == j.bodyDigest
      ensures forall s :: s != j.sitting ==>
          (s in digests <==> s in old(digests)) && (s in digests ==> digests[s] == old(digests)[s])
      ensures Inv(old(View())) && Committed(old(View()), j) ==>
        Inv(View()) && (r.Ok? <==> !Pinned(old(digests), j.sitting)) && (r.Ok? ==> digests[j.sitting] == DocOf(j))
      ensures r.Ok? <==> ReplayPromotion.FinalizeJournal(old(digests), j).Ok?
      ensures r.Ok? ==> Ok(digests) == ReplayPromotion.FinalizeJournal(old(digests), j)
      ensures r.Err? ==> digests == old(digests) && r.error == ReplayPromotion.FinalizeJournal(old(digests), j).error
    {
      if Inv(View()) && Committed(View(), j) { CommittedFinalizes(View(), j); }
      if j.manifestDigest == "" || j.bodyDigest == "" || BodyDigest(j.body) != j.bodyDigest || j.sitting == "" {
        return Err(Drift);
      }
      if j.sitting in digests && digests[j.sitting].manifest == j.manifestDigest {
        if BodyDigest(digests[j.sitting].body) != j.bodyDigest { return Err(Drift); }
        return Ok(());
      }
      PinnedRefuses(digests, j);
      hide Inv, Committed;
      var entry := UpsertDigest(j.sitting, DocOf(j));
      if BodyDigest(entry.body) != j.bodyDigest || entry.manifest != j.manifestDigest { return Err(Drift); }
      return Ok(());
    }

    /** Journal, then receipt, then digest, dying before step `alive`. Whatever happens, what is durable
        afterwards is a run of the first `done` steps; success means that all three are done. Refused before the
        second, it has left no receipt; from there on it is pending. */
    method Promote(j: Journal, clock: Time, alive: nat) returns (r: Result<(), Error>, done: nat)
      requires Inv(View()) && WellFormed(j)
      modifies this`journals, this`digests, store
      ensures Inv(View()) && Grows(old(View()), View())
      ensures done <= 3 && done <= alive
      ensures View() == R.Run(old(View()), [Persist(j), Commit(j, clock), Upsert(j)][..done])
      ensures done <= 1 ==> store.promotions == old(store.promotions)
      ensures done >= 2 ==> Committed(View(), j)
      ensures r.Ok? ==>
        done == 3 && Committed(View(), j) && j.sitting in digests && digests[j.sitting].manifest == j.manifestDigest
    {
      hide Inv, Grows, PromotionExact, R.Run, CommitPromotion;
      ghost var steps := [Persist(j), Commit(j, clock), Upsert(j)];
      ghost var start := View();
      PrefixesKeepInv(start, steps);
      RunThree(start, Persist(j), Commit(j, clock), Upsert(j));
      done := 0;
      r := Err(Unavailable);
      if alive == 0 { return; }
      var persisted := PersistJournal(j);
      if persisted.Err? { return persisted, 0; }
      done := 1;
      assert View() == R.Run(start, steps[..1]) && j in journals;
      if alive == 1 { return; }
      CommitTook(View(), j, clock);
      var committed := store.CommitPromotion(ReceiptOf(j), clock);
      if committed.Err? { return Err(committed.error), 1; }
      done := 2;
      assert View() == R.Run(start, steps[..2]);
      if alive == 2 { return; }
      var finalized := FinalizeJournal(j);
      if finalized.Err? { return finalized, 2; }
      done := 3;
      r := Ok(());
    }

    /** Recover one journal: nothing without a receipt, otherwise its digest and then its completion. */
    method RecoverJournal(i: nat, at: Time) returns (r: Result<(), Error>)
      requires store.Valid() && i < |journals|
      modifies this`digests, store
      ensures store.Valid() && journals == old(journals)
      ensures RecoverFrom(old(View()), i, at) == if r.Err? then (View(), r) else RecoverFrom(View(), i + 1, at)
    {
      hide Inv, RowsValid;
      var j := journals[i];
      if j.manifestDigest !in store.promotions { return Ok(()); }
      if store.promotions[j.manifestDigest] != ReceiptOf(j) { return Err(Drift); }
      r := FinalizeJournal(j);
      if r.Err? { return; }
      r := store.FinalizePromoted(ReceiptOf(j), at);
    }

    /** Walk the journals in append order; stop at the first error. It succeeds exactly while no committed
        receipt's manifest has failed, none has a fraction of a microsecond in its time and no sitting of one is
        pinned, and then every one is completed. */
    method Recover(at: Time) returns (r: Result<(), Error>)
      requires Inv(View())
      modifies this`digests, store
      ensures Inv(View()) && Grows(old(View()), View())
      ensures r.Ok? <==> Clear(old(View()))
      ensures r.Ok? ==> Done(View())
      ensures (View(), r) == ReplayPromotion.Recover(old(View()), at)
    {
      RecoverMeans(View(), at);
      assert store.Valid();
      hide Inv, Grows, Clear, Done;
      var i := 0;
      ghost var start := View();
      while i < |journals|
        invariant i <= |journals| && journals == start.journals && store.Valid()
        invariant RecoverFrom(start, 0, at) == RecoverFrom(View(), i, at)
      {
        var recovered := RecoverJournal(i, at);
        if recovered.Err? { return recovered; }
        i := i + 1;
      }
      return Ok(());
    }
  }

  lemma PrefixesKeepInv(w: World, es: seq<Event>)
    requires Inv(w)
    ensures forall k :: 0 <= k <= |es| ==> Inv(R.Run(w, es[..k])) && Grows(w, R.Run(w, es[..k]))
  {
    forall k | 0 <= k <= |es| ensures Inv(R.Run(w, es[..k])) && Grows(w, R.Run(w, es[..k])) { RunKeepsInv(w, es[..k]); }
  }

  /** What a recovery keeps, when it succeeds and what it then leaves. */
  lemma RecoverMeans(w: World, at: Time)
    requires Inv(w)
    ensures Inv(ReplayPromotion.Recover(w, at).0) && Grows(w, ReplayPromotion.Recover(w, at).0)
    ensures ReplayPromotion.Recover(w, at).1.Ok? <==> Clear(w)
    ensures ReplayPromotion.Recover(w, at).1.Ok? ==> Done(ReplayPromotion.Recover(w, at).0)
  {
    RecoveryKeepsInv(w, at);
    RecoverableWhileClear(w, at);
    if Clear(w) { RecoveryCompletesAll(w, at); }
  }

  /** A commit that succeeds leaves the journal's receipt as the table keeps it. */
  lemma CommitTook(w: World, j: Journal, clock: Time)
    requires Inv(w) && j in w.journals
    ensures CommitPromotion(w.db, ReceiptOf(j), clock).1.Ok? ==> Committed(Step(w, Commit(j, clock)), j)
  {
    if CommitPromotion(w.db, ReceiptOf(j), clock).1.Ok? && j.manifestDigest in w.db.promotions {
      var k :| 0 <= k < |w.journals| && w.journals[k] == j;
      RecoverOne(w, k, 0);
    }
  }

  lemma OneJournalPerDigest(js: seq<Journal>, d: Digest)
    requires JournalsInv(js)
    ensures forall k :: k in js && k.manifestDigest == d ==> FindJournal(js, d) >= 0 && js[FindJournal(js, d)] == k
  {
  }

  /** A committed journal's digest is accepted unless the sitting is pinned. */
  lemma CommittedFinalizes(w: World, j: Journal)
    requires Inv(w) && Committed(w, j)
    ensures FinalizeJournal(w.digests, j) ==
            if Pinned(w.digests, j.sitting) then Err(Drift) else Ok(w.digests[j.sitting := DocOf(j)])
    ensures Inv(w.(digests := w.digests[j.sitting := DocOf(j)]))
  {
    var i :| 0 <= i < |w.journals| && w.journals[i] == j;
    RecoverOne(w, i, 0);
    UpsertKeepsInv(w, i);
  }

  /** Refused, nothing has been written. */
  lemma PinnedRefuses(digests: map<string, Doc>, j: Journal)
    requires j.manifestDigest != "" && j.bodyDigest != "" && BodyDigest(j.body) == j.bodyDigest && j.sitting != ""
    ensures var (after, entry) := ReplayPromotion.UpsertDigest(digests, j.sitting, DocOf(j));
            BodyDigest(entry.body) != j.bodyDigest || entry.manifest != j.manifestDigest ==> after == digests
  {
  }

  lemma RunThree(w: World, a: Event, b: Event, c: Event)
    ensures var es := [a, b, c];
            && R.Run(w, es[..0]) == w && R.Run(w, es[..1]) == Step(w, a)
            && R.Run(w, es[..2]) == Step(Step(w, a), b) && R.Run(w, es[..3]) == Step(Step(Step(w, a), b), c)
  {
    var es := [a, b, c];
    assert es[..1] == [a] && es[..1][..0] == [] && es[..2][..1] == es[..1] && es[..3][..2] == es[..2];
  }
}
