/**
 The admission store of one process, over the file it shares with the others.
 Each method is one critical section under the file lock; `durable` says whether
 its atomic replace succeeds.
*/
module AdmissionStore {
  import opened Common
  import opened AdmissionOrder
  import opened AdmissionAnchors
  import opened AdmissionRollover

  class AnchorFile {
    var records: Option<seq<Anchor>>

    constructor ()
      ensures records == None
    {
      records := None;
    }

    ghost function Rows(): seq<Anchor>
      reads this
    {
      if records.None? then [] else records.value
    }

    /** What every replace leaves behind. */
    ghost predicate Valid()
      reads this
    {
      Strict(Rows()) && AllValid(Rows())
    }

    /** Sort and replace, or fail and leave the file alone. */
    method Persist(rs: seq<Anchor>, durable: bool) returns (ok: bool)
      requires AllValid(rs) && Strict(Sort(rs))
      modifies this
      ensures ok == durable
      ensures Rows() == if durable then Sort(rs) else old(Rows())
    {
      if durable { records := Some(Sort(rs)); }
      return durable;
    }
  }

  lemma ValidLoads(rs: seq<Anchor>)
    requires Strict(rs) && AllValid(rs)
    ensures Loadable(rs) && Sort(rs) == rs
  {
    StrictIsSortedUnique(rs);
    NeighboursFindEveryRepeat(rs);
    SortStrict(rs);
  }

  lemma ResolvedOneMore(rs: seq<Anchor>, i: nat, p: Pending, commit: bool)
    requires i < |rs|
    ensures Resolved(rs[..i + 1], p, commit) == Resolved(rs[..i], p, commit) + ResolveRow(rs[i], p, commit)
  {
    assert rs[..i + 1][..i] == rs[..i];
  }

  /** The resolution loop: rows kept in order, and whether any matched. */
  method ResolveRows(records: seq<Anchor>, p: Pending, commit: bool) returns (resolved: seq<Anchor>, changed: bool)
    ensures resolved == Resolved(records, p, commit)
    ensures !changed ==> resolved == records
  {
    hide Matches;
    changed, resolved := false, [];
    for i := 0 to |records|
      invariant resolved == Resolved(records[..i], p, commit)
      invariant !changed ==> resolved == records[..i]
    {
      ResolvedOneMore(records, i, p, commit);
      if !Matches(records[i], p) {
        resolved := resolved + [records[i]];
      } else {
        changed := true;
        if commit { resolved := resolved + [records[i].(pending := "")]; }
      }
    }
    assert records[..|records|] == records;
  }

  /** The map agrees with StartOf on every sitting. */
  ghost predicate StartsOf(starts: map<Sitting, Anchor>, rs: seq<Anchor>) {
    forall s :: (s in starts <==> StartOf(rs, s).Some?) && (s in starts ==> starts[s] == StartOf(rs, s).value)
  }

  lemma StartsOneMore(starts: map<Sitting, Anchor>, rs: seq<Anchor>, r: Anchor)
    requires StartsOf(starts, rs)
    ensures var better := r.pending == ""
        && (SittingOf(r) !in starts || r.admittedAt < starts[SittingOf(r)].admittedAt);
            StartsOf(if better then starts[SittingOf(r) := r] else starts, rs + [r])
  {
    assert (rs + [r])[..|rs|] == rs;
  }

  method EarliestBySitting(records: seq<Anchor>) returns (starts: map<Sitting, Anchor>)
    ensures StartsOf(starts, records)
  {
    starts := map[];
    for i := 0 to |records|
      invariant StartsOf(starts, records[..i])
    {
      var r := records[i];
      StartsOneMore(starts, records[..i], r);
      assert records[..i + 1] == records[..i] + [r];
      if r.pending == "" && (SittingOf(r) !in starts || r.admittedAt < starts[SittingOf(r)].admittedAt) {
        starts := starts[SittingOf(r) := r];
      }
    }
    assert records[..|records|] == records;
  }

  /** The listing order of starts: by time, then room, then sitting. */
  predicate StartsBefore(x: Anchor, y: Anchor) {
    if x.admittedAt != y.admittedAt then x.admittedAt < y.admittedAt
    else if x.key.room != y.key.room then StringLess(x.key.room, y.key.room)
    else StringLess(x.key.sitting, y.key.sitting)
  }

  /** In listing order, one row a sitting. */
  ghost predicate Listed(starts: seq<Anchor>) {
    && (forall i, j :: 0 <= i < j < |starts| ==> !StartsBefore(starts[j], starts[i]))
    && (forall i, j :: 0 <= i < j < |starts| ==> SittingOf(starts[i]) != SittingOf(starts[j]))
  }

  /** Not-before is transitive, so a row may be put where it is not before its left neighbour. */
  lemma NotBeforeTransitive(x: Anchor, y: Anchor, z: Anchor)
    requires !StartsBefore(y, x) && !StartsBefore(z, y)
    ensures !StartsBefore(z, x)
  {
    StringOrder(x.key.room, y.key.room);
    StringOrder(y.key.room, z.key.room);
    StringOrder(x.key.sitting, y.key.sitting);
    StringOrder(y.key.sitting, z.key.sitting);
    if StringLess(x.key.room, y.key.room) && StringLess(y.key.room, z.key.room) {
      StringTransitive(x.key.room, y.key.room, z.key.room);
    }
    if StringLess(x.key.sitting, y.key.sitting) && StringLess(y.key.sitting, z.key.sitting) {
      StringTransitive(x.key.sitting, y.key.sitting, z.key.sitting);
    }
    StringOrder(x.key.room, z.key.room);
    StringOrder(x.key.sitting, z.key.sitting);
  }

  lemma BeforeIsNotAfter(x: Anchor, y: Anchor)
    requires StartsBefore(x, y)
    ensures !StartsBefore(y, x)
  {
    StringOrder(x.key.room, y.key.room);
    StringOrder(x.key.sitting, y.key.sitting);
  }

  function InsertStart(starts: seq<Anchor>, a: Anchor): seq<Anchor> {
    if starts == [] || !StartsBefore(a, starts[|starts| - 1]) then starts + [a]
    else InsertStart(starts[..|starts| - 1], a) + [starts[|starts| - 1]]
  }

  lemma {:induction false} InsertStartKeeps(starts: seq<Anchor>, a: Anchor)
    requires Listed(starts) && forall x :: x in starts ==> SittingOf(x) != SittingOf(a)
    ensures Listed(InsertStart(starts, a))
    ensures forall x :: x in InsertStart(starts, a) <==> x in starts || x == a
  {
    hide StartsBefore, SittingOf;
    var n := |starts| - 1;
    if starts != [] && StartsBefore(a, starts[n]) {
      var front, last := starts[..n], starts[n];
      assert starts == front + [last];
      InsertStartKeeps(front, a);
      BeforeIsNotAfter(a, last);
      var out := InsertStart(front, a);
      forall i | 0 <= i < |out| ensures !StartsBefore(last, out[i]) && SittingOf(out[i]) != SittingOf(last) {
        assert out[i] in out;
      }
    } else if starts != [] {
      forall i | 0 <= i < |starts| ensures !StartsBefore(a, starts[i]) {
        if i < n { NotBeforeTransitive(starts[i], starts[n], a); }
      }
    }
  }

  /** The map's values, listed. */
  method ListStarts(earliest: map<Sitting, Anchor>) returns (starts: seq<Anchor>)
    requires forall s :: s in earliest ==> SittingOf(earliest[s]) == s
    ensures Listed(starts)
    ensures forall a :: a in starts <==> SittingOf(a) in earliest && earliest[SittingOf(a)] == a
  {
    starts := [];
    var left := earliest.Keys;
    while left != {}
      invariant left <= earliest.Keys && Listed(starts)
      invariant forall a :: a in starts <==>
        SittingOf(a) in earliest && SittingOf(a) !in left && earliest[SittingOf(a)] == a
    {
      var s :| s in left;
      InsertStartKeeps(starts, earliest[s]);
      starts := InsertStart(starts, earliest[s]);
      left := left - {s};
    }
  }

  /** The search for a key. */
  method FindRow(records: seq<Anchor>, key: Key) returns (index: int)
    ensures index == Find(records, key)
  {
    for i := 0 to |records|
      invariant forall j :: 0 <= j < i ==> records[j].key != key
    {
      if records[i].key == key { return i; }
    }
    return -1;
  }

  lemma RecordedIsValid(rs: seq<Anchor>, c: Anchor)
    requires Strict(rs) && AllValid(rs) && ValidAnchor(c)
    ensures Strict(Recorded(rs, c)) && AllValid(Recorded(rs, c)) && Sort(Recorded(rs, c)) == Recorded(rs, c)
    ensures At(Recorded(rs, c), c.key) == Some(Earlier(At(rs, c.key), c))
  {
    RecordedAt(rs, c);
    SortStrict(Recorded(rs, c));
  }

  class AdmissionAnchorStore {
    const file: AnchorFile
    var cache: seq<Anchor>

    constructor (file: AnchorFile)
      ensures this.file == file
    {
      this.file := file;
      cache := [];
    }

    /** Record a first admission; what is returned is what the file holds for that key. */
    method RecordFirst(candidate: Anchor, durable: bool) returns (r: Result<Anchor, Error>)
      requires file.Valid()
      modifies this`cache, file
      ensures file.Valid() && file.Rows() == AdmissionAnchors.Apply(old(file.Rows()), Offer(candidate, durable))
      ensures r.Ok? ==>
        ValidAnchor(candidate) && At(file.Rows(), candidate.key) == Some(r.value) && cache == file.Rows()
      ensures r.Ok? ==> r.value == Earlier(At(old(file.Rows()), candidate.key), candidate)
      ensures r.Err? ==> (!ValidAnchor(candidate) || !durable) && file.Rows() == old(file.Rows())
    {
      if !ValidAnchor(candidate) { return Err(Invalid); }
      ghost var rows := file.Rows();
      ValidLoads(rows);
      RecordedIsValid(rows, candidate);
      var loaded := Load(file.records);
      var records := loaded.value;
      var index := FindRow(records, candidate.key);
      if index >= 0 && records[index].admittedAt <= candidate.admittedAt {
        cache := records;
        return Ok(records[index]);
      }
      records := if index < 0 then Sort(records + [candidate]) else records[index := candidate];
      var replaced := Replace(records, durable);
      if !replaced { return Err(Unavailable); }
      return Ok(candidate);
    }

    /** Persist the edited rows and, on success, remember them. */
    method Replace(records: seq<Anchor>, durable: bool) returns (ok: bool)
      requires AllValid(records) && Sort(records) == records && Strict(records)
      modifies this`cache, file
      ensures ok == durable
      ensures file.Rows() == if ok then records else old(file.Rows())
      ensures ok ==> cache == records
    {
      ok := file.Persist(records, durable);
      if ok { cache := records; }
    }

    method Lookup(key: Key) returns (r: Option<Anchor>)
      requires file.Valid()
      modifies this`cache
      ensures r == At(file.Rows(), key) && cache == file.Rows()
    {
      ValidLoads(file.Rows());
      var loaded := Load(file.records);
      cache := loaded.value;
      var index := FindRow(cache, key);
      return if index < 0 then None else Some(cache[index]);
    }

    /** Commit or discard the rows staged for one successor, in one replace. */
    method ResolvePendingRollover(p: Pending, commit: bool, durable: bool) returns (r: Result<(), Error>)
      requires file.Valid()
      modifies this`cache, file
      ensures file.Valid() && file.Rows() == AdmissionAnchors.Apply(old(file.Rows()), Resolve(p, commit, durable))
      ensures r.Ok? ==> file.Rows() == Resolved(old(file.Rows()), p, commit) && cache == file.Rows()
      ensures r.Err? ==> !durable
    {
      ghost var rows := file.Rows();
      ValidLoads(rows);
      ResolvedValid(rows, p, commit);
      ValidLoads(Resolved(rows, p, commit));
      var loaded := Load(file.records);
      var records := loaded.value;
      var resolved, changed := ResolveRows(records, p, commit);
      if !changed {
        cache := records;
        return Ok(());
      }
      var replaced := Replace(resolved, durable);
      if !replaced { return Err(Unavailable); }
      return Ok(());
    }

    /** The earliest unmarked admission of every sitting, one each, earliest first and then by room and
        sitting. */
    method SittingStarts() returns (starts: seq<Anchor>)
      requires file.Valid()
      modifies this`cache
      ensures cache == file.Rows() && Listed(starts)
      ensures forall s :: StartOf(file.Rows(), s).Some? <==> exists a :: a in starts && SittingOf(a) == s
      ensures forall a :: a in starts ==>
        StartOf(file.Rows(), SittingOf(a)) == Some(a) && Earliest(file.Rows(), SittingOf(a), a)
    {
      ValidLoads(file.Rows());
      var loaded := Load(file.records);
      cache := loaded.value;
      var earliest := EarliestBySitting(cache);
      forall s | s in earliest ensures Earliest(cache, s, earliest[s]) { StartIsEarliest(cache, s); }
      starts := ListStarts(earliest);
    }

    /** Stage the occupants of a rollover one durable offer at a time; at the first failure the stage is
        aborted. For a fresh successor a failed stage whose abort is durable leaves the file as it was, and a
        complete one reports the least admission time it offered and everyone it carried, in their order. */
    method StageRollover(names: seq<string>, carried: seq<Anchor>, p: Pending, durable: seq<bool>, abortDurable: bool)
      returns (ok: bool, startedAt: Option<int>, participants: seq<string>)
      requires file.Valid() && |names| == |durable| == |carried| && StagedFor(carried, p)
      modifies this`cache, file
      ensures file.Valid()
      ensures ok ==> file.Rows() == Offers(old(file.Rows()), carried)
      ensures !ok && abortDurable && Fresh(old(file.Rows()), p) ==> file.Rows() == old(file.Rows())
      ensures ok && Fresh(old(file.Rows()), p) ==> startedAt == if carried == [] then None else Some(Least(carried))
      ensures participants == if ok then names else []
    {
      startedAt, participants := None, [];
      ghost var rows := file.Rows();
      assert Staged(rows, carried, 0) == rows;
      assert carried[..|carried|] == carried && names[..|names|] == names;
      assert Staged(rows, carried, |carried|) == Offers(rows, carried) && Named(names, |names|) == names;
      assert Reported(carried, |carried|) == if carried == [] then None else Some(Least(carried));
      hide Earlier, AdmissionAnchors.Apply, At, Resolved, ValidAnchor, Strict, StagedFor, Fresh;
      hide Staged, Reported, Named;
      for i := 0 to |carried|
        invariant file.Valid() && file.Rows() == Staged(rows, carried, i) && participants == Named(names, i)
        invariant Fresh(rows, p) ==> startedAt == Reported(carried, i)
      {
        var r := RecordFirst(carried[i], durable[i]);
        if r.Err? {
          var aborted := ResolvePendingRollover(p, false, abortDurable);
          AbortedStage(rows, carried, i, p, abortDurable, file.Rows());
          return false, None, [];
        }
        participants := participants + [names[i]];
        StageOneMore(rows, carried, names, i, durable[i], file.Rows());
        if Fresh(rows, p) { ReportOneMore(rows, carried, i, p); }
        if startedAt.None? || r.value.admittedAt < startedAt.value { startedAt := Some(r.value.admittedAt); }
      }
      ok := true;
    }
  }

  /** The file, the reported time and the names after the first i occupants. */
  ghost function Staged(rs: seq<Anchor>, cs: seq<Anchor>, i: nat): seq<Anchor>
    requires i <= |cs|
  {
    Offers(rs, cs[..i])
  }

  ghost function Reported(cs: seq<Anchor>, i: nat): Option<int>
    requires i <= |cs|
  {
    if i == 0 then None else Some(Least(cs[..i]))
  }

  ghost function Named(names: seq<string>, i: nat): seq<string>
    requires i <= |names|
  {
    names[..i]
  }

  lemma AbortedStage(rs: seq<Anchor>, cs: seq<Anchor>, i: nat, p: Pending, durable: bool, after: seq<Anchor>)
    requires Strict(rs) && i <= |cs| && StagedFor(cs, p)
    requires after == AdmissionAnchors.Apply(Staged(rs, cs, i), Resolve(p, false, durable))
    ensures durable && Fresh(rs, p) ==> after == rs
  {
    StageThenAbortRestores(rs, cs[..i], p);
  }

  /** The report so far and the next returned row. */
  lemma ReportOneMore(rs: seq<Anchor>, cs: seq<Anchor>, i: nat, p: Pending)
    requires Strict(rs) && i < |cs| && StagedFor(cs, p) && Fresh(rs, p)
    ensures var kept := Earlier(At(Staged(rs, cs, i), cs[i].key), cs[i]).admittedAt;
            Reported(cs, i + 1) == Some(if i == 0 then kept else Min(Reported(cs, i).value, kept))
    ensures Reported(cs, i).None? <==> i == 0
  {
    hide Offers, At, Earlier, StagedFor, Fresh, Strict, Least;
    LeastOneMore(cs, i);
    ReturnedBetween(rs, cs, i, p);
  }

  lemma LeastOneMore(cs: seq<Anchor>, i: nat)
    requires i < |cs|
    ensures Least(cs[..i + 1])
            == if i == 0 then cs[i].admittedAt else Min(Least(cs[..i]), cs[i].admittedAt)
  {
    assert cs[..i + 1][..i] == cs[..i];
  }

  lemma ReturnedBetween(rs: seq<Anchor>, cs: seq<Anchor>, i: nat, p: Pending)
    requires Strict(rs) && i < |cs| && StagedFor(cs, p) && Fresh(rs, p)
    ensures Least(cs[..i + 1]) <= Earlier(At(Staged(rs, cs, i), cs[i].key), cs[i]).admittedAt <= cs[i].admittedAt
  {
    hide Offers, At, Earlier, Fresh, Strict, Least;
    assert cs[..i + 1][..i] == cs[..i];
    ReturnedAtLeast(rs, cs[..i + 1], p);
  }

  lemma StageOneMore(rs: seq<Anchor>, cs: seq<Anchor>, names: seq<string>, i: nat, durable: bool, after: seq<Anchor>)
    requires i < |cs| == |names| && Strict(Staged(rs, cs, i)) && ValidAnchor(cs[i])
    requires after == AdmissionAnchors.Apply(Staged(rs, cs, i), Offer(cs[i], durable))
    requires At(after, cs[i].key) == Some(Earlier(At(Staged(rs, cs, i), cs[i].key), cs[i]))
    ensures after == Staged(rs, cs, i + 1) && Named(names, i + 1) == Named(names, i) + [names[i]]
  {
    assert cs[..i + 1][..i] == cs[..i];
    if !durable { RecordedUnchanged(Offers(rs, cs[..i]), cs[i]); }
  }

  lemma RecordedUnchanged(rs: seq<Anchor>, c: Anchor)
    requires Strict(rs) && At(rs, c.key) == Some(Earlier(At(rs, c.key), c))
    ensures Recorded(rs, c) == rs
  {
    RecordedAt(rs, c);
    SameRowsSameFile(Recorded(rs, c), rs);
  }
}
