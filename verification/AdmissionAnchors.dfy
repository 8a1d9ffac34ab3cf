/**
 The first-admission file: one row per principal and sitting, kept by any number
 of processes that each reload it under a shared file lock, edit it and replace
 it atomically. A manual rollover stages rows for a successor sitting and later
 commits or discards them in one replace.
*/
module AdmissionAnchors {
  import opened Common
  import opened AdmissionOrder

  datatype Error = Invalid | Unavailable

  predicate IsHexDigest(s: string) {
    |s| == 64 && forall i :: 0 <= i < 64 ==> '0' <= s[i] <= '9' || 'a' <= s[i] <= 'f'
  }

  const NO_TIME := 0

  predicate ValidAnchor(a: Anchor) {
    && a.key.tenant != "" && a.key.room != "" && a.key.sitting != "" && a.key.id != "" && a.admittedAt != NO_TIME
    && (a.key.kind == "user" || (a.key.kind == "guest" && IsHexDigest(a.key.id)))
  }

  predicate AllValid(rs: seq<Anchor>) { forall i :: 0 <= i < |rs| ==> ValidAnchor(rs[i]) }

  // ---- Loading: only neighbours are compared ------------------------------------------------

  predicate NoAdjacentRepeat(rs: seq<Anchor>) { forall i :: 0 < i < |rs| ==> rs[i - 1].key != rs[i].key }

  predicate Loadable(rs: seq<Anchor>) { AllValid(rs) && NoAdjacentRepeat(rs) }

  method Load(disk: Option<seq<Anchor>>) returns (r: Result<seq<Anchor>, Error>)
    ensures r.Ok? <==> disk.None? || Loadable(disk.value)
    ensures r.Ok? ==> r.value == if disk.None? then [] else disk.value
  {
    if disk.None? { return Ok([]); }
    var records := disk.value;
    for i := 0 to |records|
      invariant AllValid(records[..i]) && NoAdjacentRepeat(records[..i])
    {
      if !ValidAnchor(records[i]) || (i > 0 && records[i - 1].key == records[i].key) { return Err(Unavailable); }
    }
    assert records[..|records|] == records;
    return Ok(records);
  }

  /** On a sorted file, the only kind that is ever written, comparing neighbours finds every repeated key. */
  lemma {:induction false} NeighboursFindEveryRepeat(rs: seq<Anchor>)
    requires Sorted(rs)
    ensures NoAdjacentRepeat(rs) <==> UniqueKeys(rs)
  {
    if NoAdjacentRepeat(rs) {
      forall i, j | 0 <= i < j < |rs| ensures rs[i].key != rs[j].key {
        KeyOrder(rs[i].key, rs[i + 1].key);
        if i + 1 < j {
          KeyOrder(rs[i + 1].key, rs[j].key);
          if rs[i + 1].key != rs[j].key { KeyTransitive(rs[i].key, rs[i + 1].key, rs[j].key); }
          KeyOrder(rs[i].key, rs[j].key);
          KeyOrder(rs[i].key, rs[i].key);
        }
      }
    }
  }

  /** The order is what makes it enough: x, y, x passes the check with x repeated. */
  lemma UnsortedRepeatPasses(x: Anchor, y: Anchor)
    requires ValidAnchor(x) && ValidAnchor(y) && x.key != y.key
    ensures Loadable([x, y, x]) && !UniqueKeys([x, y, x])
  {
    var rs := [x, y, x];
    assert rs[0].key == rs[2].key;
  }

  // ---- First admission ----------------------------------------------------------------------

  /** The file after one offer: the row of the key is the earlier of the two, the older on a tie. */
  function Recorded(rs: seq<Anchor>, c: Anchor): seq<Anchor> {
    var i := Find(rs, c.key);
    if i < 0 then Sort(rs + [c])
    else if c.admittedAt < rs[i].admittedAt then rs[i := c]
    else rs
  }

  function Offers(rs: seq<Anchor>, cs: seq<Anchor>): seq<Anchor> {
    if cs == [] then rs else Recorded(Offers(rs, cs[..|cs| - 1]), cs[|cs| - 1])
  }

  function Earlier(old_: Option<Anchor>, c: Anchor): Anchor {
    if old_.Some? && old_.value.admittedAt <= c.admittedAt then old_.value else c
  }

  lemma ReplaceStrict(rs: seq<Anchor>, i: nat, c: Anchor)
    requires Strict(rs) && i < |rs| && rs[i].key == c.key
    ensures Strict(rs[i := c])
    ensures forall k :: At(rs[i := c], k) == if k == c.key then Some(c) else At(rs, k)
  {
    var out := rs[i := c];
    AtIs(out, i);
    forall k | k != c.key ensures At(out, k) == At(rs, k) {
      if Find(rs, k) >= 0 { AtIs(out, Find(rs, k)); }
      if Find(out, k) >= 0 { assert out[Find(out, k)] == rs[Find(out, k)]; }
    }
  }

  lemma InsertedAt(rs: seq<Anchor>, c: Anchor)
    requires Strict(rs) && Find(rs, c.key) < 0
    ensures Strict(Sort(rs + [c])) && (AllValid(rs) && ValidAnchor(c) ==> AllValid(Sort(rs + [c])))
    ensures forall k :: At(Sort(rs + [c]), k) == if k == c.key then Some(c) else At(rs, k)
  {
    var out := Insert(rs, c);
    SortAppended(rs, c);
    InsertStrict(rs, c);
    forall k ensures At(out, k) == if k == c.key then Some(c) else At(rs, k) { InsertAt(rs, c, k); }
    forall j | 0 <= j < |out| ensures out[j] in rs || out[j] == c { assert out[j] in out; }
  }

  /** One offer keeps the file strictly sorted and changes the row of its own key only. */
  lemma RecordedAt(rs: seq<Anchor>, c: Anchor)
    requires Strict(rs)
    ensures Strict(Recorded(rs, c))
    ensures forall k :: At(Recorded(rs, c), k) == if k == c.key then Some(Earlier(At(rs, k), c)) else At(rs, k)
    ensures AllValid(rs) && ValidAnchor(c) ==> AllValid(Recorded(rs, c))
  {
    var i := Find(rs, c.key);
    if i < 0 {
      assert At(rs, c.key) == None;
      InsertedAt(rs, c);
    } else {
      assert At(rs, c.key) == Some(rs[i]);
      if c.admittedAt < rs[i].admittedAt { ReplaceStrict(rs, i, c); }
    }
  }

  /** cs[i] is the earliest-arriving offer for its key among those with the least admission time. */
  ghost predicate Wins(cs: seq<Anchor>, i: nat)
    requires i < |cs|
  {
    forall j :: 0 <= j < |cs| && cs[j].key == cs[i].key ==>
      cs[i].admittedAt <= cs[j].admittedAt && (j < i ==> cs[i].admittedAt < cs[j].admittedAt)
  }

  ghost predicate Offered(cs: seq<Anchor>, k: Key) { exists i :: 0 <= i < |cs| && cs[i].key == k }

  /** The row kept for a key: what was there, if no offer is earlier, and otherwise the winning offer. */
  ghost predicate Kept(before: Option<Anchor>, cs: seq<Anchor>, k: Key, after: Option<Anchor>) {
    && (after.None? <==> before.None? && !Offered(cs, k))
    && (after.Some? ==>
          || (after == before && forall j :: 0 <= j < |cs| && cs[j].key == k ==>
              after.value.admittedAt <= cs[j].admittedAt)
          || (exists i :: 0 <= i < |cs| && cs[i].key == k && Wins(cs, i) && after == Some(cs[i])
                && (before.Some? ==> cs[i].admittedAt < before.value.admittedAt)))
  }

  lemma WinsFront(cs: seq<Anchor>, c: Anchor, i: nat)
    requires i < |cs| && Wins(cs, i) && (c.key == cs[i].key ==> cs[i].admittedAt <= c.admittedAt)
    ensures Wins(cs + [c], i)
  {
    var all := cs + [c];
    assert forall j :: 0 <= j < |cs| ==> all[j] == cs[j];
  }

  lemma OfferedMore(cs: seq<Anchor>, c: Anchor, k: Key)
    ensures Offered(cs + [c], k) <==> Offered(cs, k) || c.key == k
  {
    var all := cs + [c];
    assert forall j :: 0 <= j < |cs| ==> all[j] == cs[j];
    assert all[|cs|] == c;
  }

  /** An offer that is kept out, or is for another key, leaves what was kept. */
  lemma KeptStays(before: Option<Anchor>, cs: seq<Anchor>, c: Anchor, k: Key, middle: Option<Anchor>)
    requires Kept(before, cs, k, middle)
    requires k == c.key ==> middle.Some? && middle.value.admittedAt <= c.admittedAt
    ensures Kept(before, cs + [c], k, middle)
  {
    var all := cs + [c];
    OfferedMore(cs, c, k);
    assert forall j :: 0 <= j < |cs| ==> all[j] == cs[j];
    if middle.Some? && !(middle == before && forall j :: 0 <= j < |cs| && cs[j].key == k ==>
        middle.value.admittedAt <= cs[j].admittedAt) {
      var i :| 0 <= i < |cs| && cs[i].key == k && Wins(cs, i) && middle == Some(cs[i])
                && (before.Some? ==> cs[i].admittedAt < before.value.admittedAt);
      WinsFront(cs, c, i);
      assert all[i].key == k && Wins(all, i) && middle == Some(all[i]);
    }
  }

  /** An offer earlier than what was kept is the new winner. */
  lemma KeptReplaced(before: Option<Anchor>, cs: seq<Anchor>, c: Anchor, middle: Option<Anchor>)
    requires Kept(before, cs, c.key, middle)
    requires middle.None? || c.admittedAt < middle.value.admittedAt
    ensures Kept(before, cs + [c], c.key, Some(c))
  {
    var all := cs + [c];
    OfferedMore(cs, c, c.key);
    assert forall j :: 0 <= j < |cs| ==> all[j] == cs[j];
    assert all[|cs|] == c;
    forall j | 0 <= j < |cs| && cs[j].key == c.key ensures c.admittedAt < cs[j].admittedAt {
      assert Offered(cs, c.key);
    }
    assert Wins(all, |cs|);
  }

  lemma KeptStep(before: Option<Anchor>, cs: seq<Anchor>, k: Key, middle: Option<Anchor>)
    requires cs != [] && Kept(before, cs[..|cs| - 1], k, middle)
    ensures var c := cs[|cs| - 1]; Kept(before, cs, k, if k == c.key then Some(Earlier(middle, c)) else middle)
  {
    var front, c := cs[..|cs| - 1], cs[|cs| - 1];
    assert cs == front + [c];
    if k == c.key && (middle.None? || c.admittedAt < middle.value.admittedAt) {
      KeptReplaced(before, front, c, middle);
    }
    else { KeptStays(before, front, c, k, middle); }
  }

  /** Over any offers from any processes the file stays strictly sorted, and for every key its row is the
      minimum offered, with the cutoff, watermark and rollover marker of the first offer to attain it. */
  lemma {:induction false} FirstAdmissionIsMinimum(rs: seq<Anchor>, cs: seq<Anchor>, k: Key)
    requires Strict(rs)
    ensures Strict(Offers(rs, cs))
    ensures Kept(At(rs, k), cs, k, At(Offers(rs, cs), k))
  {
    if cs != [] {
      var prior := Offers(rs, cs[..|cs| - 1]);
      FirstAdmissionIsMinimum(rs, cs[..|cs| - 1], k);
      RecordedAt(prior, cs[|cs| - 1]);
      KeptStep(At(rs, k), cs, k, At(prior, k));
    }
  }

  // ---- Rollover --------------------------------------------------------------------------------

  datatype Pending = Pending(room: string, sitting: string, predecessor: string)

  predicate Matches(a: Anchor, p: Pending) {
    a.key.room == p.room && a.key.sitting == p.sitting && a.pending == p.predecessor
  }

  function ResolveRow(r: Anchor, p: Pending, commit: bool): seq<Anchor> {
    if !Matches(r, p) then [r] else if commit then [r.(pending := "")] else []
  }

  /** Commit clears the marker of the matching rows; abort removes them. */
  function Resolved(rs: seq<Anchor>, p: Pending, commit: bool): seq<Anchor> {
    if rs == [] then [] else Resolved(rs[..|rs| - 1], p, commit) + ResolveRow(rs[|rs| - 1], p, commit)
  }

  lemma {:induction false} ResolvedKeys(rs: seq<Anchor>, p: Pending, commit: bool)
    requires Strict(rs)
    ensures Strict(Resolved(rs, p, commit))
    ensures forall x :: x in Resolved(rs, p, commit) ==>
        exists r :: r in rs && x in ResolveRow(r, p, commit) && x.key == r.key
    ensures forall r, x :: r in rs && x in ResolveRow(r, p, commit) ==> x in Resolved(rs, p, commit)
  {
    if rs != [] {
      var n := |rs| - 1;
      ResolvedKeys(rs[..n], p, commit);
      var before := Resolved(rs[..n], p, commit);
      var out := Resolved(rs, p, commit);
      assert rs == rs[..n] + [rs[n]];
      forall i | 0 <= i < |before| ensures KeyLess(before[i].key, rs[n].key) {
        assert before[i] in before;
        var r :| r in rs[..n] && before[i].key == r.key;
      }
      forall i, j | 0 <= i < j < |out| ensures KeyLess(out[i].key, out[j].key) {
        if j == |before| { assert out[j] in ResolveRow(rs[n], p, commit) && out[j].key == rs[n].key; }
      }
      forall x | x in out ensures exists r :: r in rs && x in ResolveRow(r, p, commit) && x.key == r.key {
        if x in before {
          var r :| r in rs[..n] && x in ResolveRow(r, p, commit) && x.key == r.key;
          assert r in rs;
        } else {
          assert x in ResolveRow(rs[n], p, commit) && rs[n] in rs;
        }
      }
    }
  }

  function ResolveAt(r: Option<Anchor>, p: Pending, commit: bool): Option<Anchor> {
    if r.None? || !Matches(r.value, p) then r else if commit then Some(r.value.(pending := "")) else None
  }

  lemma MemberAt(rs: seq<Anchor>, x: Anchor)
    requires Strict(rs)
    ensures x in rs <==> At(rs, x.key) == Some(x)
  {
    if x in rs {
      var i :| 0 <= i < |rs| && rs[i] == x;
      AtIs(rs, i);
    }
  }

  /** Resolution acts row by row and touches matching rows only. */
  lemma ResolvedAt(rs: seq<Anchor>, p: Pending, commit: bool, k: Key)
    requires Strict(rs)
    ensures Strict(Resolved(rs, p, commit))
    ensures At(Resolved(rs, p, commit), k) == ResolveAt(At(rs, k), p, commit)
  {
    ResolvedKeys(rs, p, commit);
    var out := Resolved(rs, p, commit);
    var r := At(rs, k);
    if r.Some? {
      MemberAt(rs, r.value);
      var want := ResolveAt(r, p, commit);
      if want.Some? {
        assert want.value in ResolveRow(r.value, p, commit);
        MemberAt(out, want.value);
      }
    }
    if At(out, k).Some? {
      var x := At(out, k).value;
      MemberAt(out, x);
      var s :| s in rs && x in ResolveRow(s, p, commit) && x.key == s.key;
      MemberAt(rs, s);
    }
  }

  /** Resolving twice, either way, is resolving once. */
  lemma ResolutionIsIdempotent(rs: seq<Anchor>, p: Pending, commit: bool, again: bool)
    requires Strict(rs) && p.predecessor != ""
    ensures Resolved(Resolved(rs, p, commit), p, again) == Resolved(rs, p, commit)
  {
    var once := Resolved(rs, p, commit);
    var twice := Resolved(once, p, again);
    forall k ensures At(twice, k) == At(once, k) && Strict(once) && Strict(twice) {
      ResolvedAt(rs, p, commit, k);
      ResolvedAt(once, p, again, k);
    }
    ResolvedKeys(rs, p, commit);
    ResolvedKeys(once, p, again);
    SameRowsSameFile(twice, once);
  }

  /** The staged candidates: all for the pending successor and carrying its marker. */
  ghost predicate StagedFor(cs: seq<Anchor>, p: Pending) { forall i :: 0 <= i < |cs| ==> Matches(cs[i], p) }

  ghost predicate Undisturbed(rs: seq<Anchor>, cs: seq<Anchor>, p: Pending) {
    forall r :: r in rs ==> !Matches(r, p) && forall i :: 0 <= i < |cs| && cs[i].key == r.key ==>
        r.admittedAt <= cs[i].admittedAt
  }

  /** No row of the successor sitting yet. */
  predicate Fresh(rs: seq<Anchor>, p: Pending) {
    forall i :: 0 <= i < |rs| ==> !(rs[i].key.room == p.room && rs[i].key.sitting == p.sitting)
  }

  lemma AbortAt(rs: seq<Anchor>, cs: seq<Anchor>, p: Pending, k: Key)
    requires Strict(rs) && StagedFor(cs, p)
    ensures var after := At(Resolved(Offers(rs, cs), p, false), k); var before := At(rs, k);
            && (after == before || after == None)
            && (before.Some? ==>
                  (after == before <==> !Matches(before.value, p) &&
                                        forall i :: 0 <= i < |cs| && cs[i].key == k ==>
                                            before.value.admittedAt <= cs[i].admittedAt))
  {
    FirstAdmissionIsMinimum(rs, cs, k);
    ResolvedAt(Offers(rs, cs), p, false, k);
    var staged := At(Offers(rs, cs), k);
    if staged.Some? && staged != At(rs, k) {
      var i :| 0 <= i < |cs| && cs[i].key == k && staged == Some(cs[i]);
      assert Matches(cs[i], p);
    }
  }

  /** Staging any prefix of the occupants and then aborting restores the file byte for byte exactly when
      no row was already staged for that successor and no existing row is later than an offer for its key.
      In particular it does for a fresh successor sitting. */
  lemma StageThenAbortRestores(rs: seq<Anchor>, cs: seq<Anchor>, p: Pending)
    requires Strict(rs) && StagedFor(cs, p)
    ensures Resolved(Offers(rs, cs), p, false) == rs <==> Undisturbed(rs, cs, p)
    ensures Fresh(rs, p) ==> Resolved(Offers(rs, cs), p, false) == rs
  {
    var out := Resolved(Offers(rs, cs), p, false);
    FirstAdmissionIsMinimum(rs, cs, Key("", "", "", "", ""));
    ResolvedKeys(Offers(rs, cs), p, false);
    if Undisturbed(rs, cs, p) {
      forall k ensures At(out, k) == At(rs, k) {
        AbortAt(rs, cs, p, k);
        if At(rs, k).Some? { MemberAt(rs, At(rs, k).value); }
      }
      SameRowsSameFile(out, rs);
    }
    if out == rs {
      forall r | r in rs ensures !Matches(r, p) && forall i :: 0 <= i < |cs| && cs[i].key == r.key ==>
          r.admittedAt <= cs[i].admittedAt {
        MemberAt(rs, r);
        AbortAt(rs, cs, p, r.key);
      }
    }
  }

  /** For a fresh successor sitting, commit adds exactly one unmarked row per distinct carried principal,
      the first of its earliest offers, and leaves every other row alone. */
  lemma StageThenCommitAddsAnchors(rs: seq<Anchor>, cs: seq<Anchor>, p: Pending, k: Key)
    requires Strict(rs) && StagedFor(cs, p) && Fresh(rs, p) && p.predecessor != ""
    ensures var out := Resolved(Offers(rs, cs), p, true);
            && Strict(out)
            && (!Offered(cs, k) ==> At(out, k) == At(rs, k))
            && (Offered(cs, k) ==> exists i ::
                  0 <= i < |cs| && cs[i].key == k && Wins(cs, i) && At(out, k) == Some(cs[i].(pending := "")))
  {
    hide Kept, Fresh, Offers, Resolved;
    StagedAt(rs, cs, p, k);
    FirstAdmissionIsMinimum(rs, cs, k);
    ResolvedAt(Offers(rs, cs), p, true, k);
  }

  /** A staging onto a fresh successor keeps every other row and puts the winning offers. */
  lemma StagedAt(rs: seq<Anchor>, cs: seq<Anchor>, p: Pending, k: Key)
    requires Strict(rs) && StagedFor(cs, p) && Fresh(rs, p)
    ensures var staged := At(Offers(rs, cs), k);
            && (!Offered(cs, k) ==> staged == At(rs, k) && (staged.Some? ==> !Matches(staged.value, p)))
            && (Offered(cs, k) ==> exists i ::
                  0 <= i < |cs| && cs[i].key == k && Matches(cs[i], p) && Wins(cs, i) && staged == Some(cs[i]))
  {
    FirstAdmissionIsMinimum(rs, cs, k);
    if At(rs, k).Some? { MemberAt(rs, At(rs, k).value); }
    if Offered(cs, k) {
      var j :| 0 <= j < |cs| && cs[j].key == k;
      assert Matches(cs[j], p);
      var i :| 0 <= i < |cs| && cs[i].key == k && Wins(cs, i) && At(Offers(rs, cs), k) == Some(cs[i]);
      assert Matches(cs[i], p);
    }
  }

  // ---- Sitting starts -----------------------------------------------------------------------------

  datatype Sitting = Sitting(tenant: string, room: string, sitting: string)

  function SittingOf(a: Anchor): Sitting { Sitting(a.key.tenant, a.key.room, a.key.sitting) }

  /** The earliest unmarked admission of a sitting, the first in file order on a tie. */
  function StartOf(rs: seq<Anchor>, s: Sitting): Option<Anchor> {
    if rs == [] then None else
    var prior := StartOf(rs[..|rs| - 1], s);
    var r := rs[|rs| - 1];
    if r.pending == "" && SittingOf(r) == s && (prior.None? || r.admittedAt < prior.value.admittedAt) then Some(r)
        else prior
  }

  ghost predicate Earliest(rs: seq<Anchor>, s: Sitting, a: Anchor) {
    && a in rs && a.pending == "" && SittingOf(a) == s
    && forall i :: 0 <= i < |rs| && SittingOf(rs[i]) == s && rs[i].pending == "" ==> a.admittedAt <= rs[i].admittedAt
  }

  lemma {:induction false} StartIsEarliest(rs: seq<Anchor>, s: Sitting)
    ensures var start := StartOf(rs, s);
            && (start.None? <==> forall i :: 0 <= i < |rs| && SittingOf(rs[i]) == s ==> rs[i].pending != "")
            && (start.Some? ==> Earliest(rs, s, start.value))
  {
    if rs != [] {
      StartIsEarliest(rs[..|rs| - 1], s);
      assert rs == rs[..|rs| - 1] + [rs[|rs| - 1]];
    }
  }

  function Unmarked(rs: seq<Anchor>): seq<Anchor> {
    if rs == [] then []
    else Unmarked(rs[..|rs| - 1]) + if rs[|rs| - 1].pending == "" then [rs[|rs| - 1]] else []
  }

  lemma {:induction false} UnmarkedStart(rs: seq<Anchor>, s: Sitting)
    ensures StartOf(Unmarked(rs), s) == StartOf(rs, s)
  {
    if rs != [] {
      var n := |rs| - 1;
      UnmarkedStart(rs[..n], s);
      if rs[n].pending == "" { assert Unmarked(rs)[..|Unmarked(rs)| - 1] == Unmarked(rs[..n]); }
      else { assert Unmarked(rs) == Unmarked(rs[..n]); }
    }
  }

  lemma {:induction false} UnmarkedRows(rs: seq<Anchor>)
    requires Strict(rs)
    ensures Strict(Unmarked(rs)) && forall x :: x in Unmarked(rs) <==> x in rs && x.pending == ""
  {
    if rs != [] {
      var n := |rs| - 1;
      UnmarkedRows(rs[..n]);
      assert rs == rs[..n] + [rs[n]];
      forall i | 0 <= i < |Unmarked(rs[..n])| ensures KeyLess(Unmarked(rs[..n])[i].key, rs[n].key) {
        assert Unmarked(rs[..n])[i] in Unmarked(rs[..n]);
      }
    }
  }

  lemma UnmarkedAt(rs: seq<Anchor>, k: Key)
    requires Strict(rs)
    ensures At(Unmarked(rs), k) == if At(rs, k).Some? && At(rs, k).value.pending == "" then At(rs, k) else None
  {
    UnmarkedRows(rs);
    if At(rs, k).Some? {
      MemberAt(rs, At(rs, k).value);
      MemberAt(Unmarked(rs), At(rs, k).value);
    }
    if At(Unmarked(rs), k).Some? {
      MemberAt(Unmarked(rs), At(Unmarked(rs), k).value);
      MemberAt(rs, At(Unmarked(rs), k).value);
    }
  }

  /** Whichever single replace of the staging loop a crash follows, every sitting's start is what it was
      before the rollover began; in particular the staged sitting has none. */
  lemma StagingIsInvisible(rs: seq<Anchor>, cs: seq<Anchor>, p: Pending, crash: nat, s: Sitting)
    requires Strict(rs) && StagedFor(cs, p) && Fresh(rs, p) && p.predecessor != "" && crash <= |cs|
    ensures StartOf(Offers(rs, cs[..crash]), s) == StartOf(rs, s)
    ensures s.room == p.room && s.sitting == p.sitting ==> StartOf(Offers(rs, cs[..crash]), s) == None
  {
    var staged := Offers(rs, cs[..crash]);
    FirstAdmissionIsMinimum(rs, cs[..crash], Key("", "", "", "", ""));
    UnmarkedRows(staged);
    UnmarkedRows(rs);
    forall k ensures At(Unmarked(staged), k) == At(Unmarked(rs), k) {
      FirstAdmissionIsMinimum(rs, cs[..crash], k);
      UnmarkedAt(staged, k);
      UnmarkedAt(rs, k);
      if At(rs, k).Some? { MemberAt(rs, At(rs, k).value); }
      if At(staged, k).Some? && At(staged, k) != At(rs, k) {
        var i :| 0 <= i < crash && cs[..crash][i].key == k && At(staged, k) == Some(cs[..crash][i]);
        assert Matches(cs[i], p);
      }
    }
    SameRowsSameFile(Unmarked(staged), Unmarked(rs));
    UnmarkedStart(staged, s);
    UnmarkedStart(rs, s);
    StartIsEarliest(rs, s);
  }

  // ---- Whole runs ---------------------------------------------------------------------------------

  /** One locked operation of some process; `durable` is false when its replace failed. */
  datatype Op =
    | Offer(candidate: Anchor, durable: bool)
    | Resolve(pending: Pending, commit: bool, durable: bool)

  function Apply(rs: seq<Anchor>, op: Op): seq<Anchor> {
    match op
    case Offer(c, durable) => if ValidAnchor(c) && durable then Recorded(rs, c) else rs
    case Resolve(p, commit, durable) => if durable then Resolved(rs, p, commit) else rs
  }

  function RunFrom(rs: seq<Anchor>, ops: seq<Op>): seq<Anchor> {
    if ops == [] then rs else Apply(RunFrom(rs, ops[..|ops| - 1]), ops[|ops| - 1])
  }

  /** From the missing file. */
  function Run(ops: seq<Op>): seq<Anchor> { RunFrom([], ops) }

  lemma ResolvedValid(rs: seq<Anchor>, p: Pending, commit: bool)
    requires Strict(rs) && AllValid(rs)
    ensures Strict(Resolved(rs, p, commit)) && AllValid(Resolved(rs, p, commit))
  {
    ResolvedKeys(rs, p, commit);
    forall i | 0 <= i < |Resolved(rs, p, commit)| ensures ValidAnchor(Resolved(rs, p, commit)[i]) {
      var x := Resolved(rs, p, commit)[i];
      assert x in Resolved(rs, p, commit);
      var r :| r in rs && x in ResolveRow(r, p, commit) && x.key == r.key;
    }
  }

  /** Whatever any number of processes do, and whichever replaces fail, the file on disk is strictly sorted
      and valid, so it always loads again. */
  lemma {:induction false} FileAlwaysLoads(ops: seq<Op>)
    ensures Strict(Run(ops)) && AllValid(Run(ops)) && Loadable(Run(ops))
  {
    if ops != [] {
      FileAlwaysLoads(ops[..|ops| - 1]);
      var rs := Run(ops[..|ops| - 1]);
      match ops[|ops| - 1]
      case Offer(c, durable) => RecordedAt(rs, c);
      case Resolve(p, commit, durable) => ResolvedValid(rs, p, commit);
    }
    StrictIsSortedUnique(Run(ops));
    NeighboursFindEveryRepeat(Run(ops));
  }
}
