/** The key order of the admission file, and sorting by it. */
module AdmissionOrder {
  import opened Common

  /** Byte order of strings. */
  predicate StringLess(s: string, t: string) {
    if s == "" || t == "" then s == "" && t != ""
    else s[0] < t[0] || (s[0] == t[0] && StringLess(s[1..], t[1..]))
  }

  lemma {:induction false} StringOrder(s: string, t: string)
    ensures StringLess(s, t) || StringLess(t, s) || s == t
    ensures !(StringLess(s, t) && StringLess(t, s)) && !StringLess(s, s)
  {
    if s != "" && t != "" {
      StringOrder(s[1..], t[1..]);
      assert s == [s[0]] + s[1..] && t == [t[0]] + t[1..];
    }
    if s != "" && t == "" { StringOrder(s[1..], s[1..]); }
  }

  lemma {:induction false} StringTransitive(s: string, t: string, u: string)
    requires StringLess(s, t) && StringLess(t, u)
    ensures StringLess(s, u)
  {
    if s != "" && t != "" && u != "" && s[0] == t[0] && t[0] == u[0] { StringTransitive(s[1..], t[1..], u[1..]); }
  }

  /** One principal in one sitting. */
  datatype Key = Key(tenant: string, room: string, sitting: string, kind: string, id: string)

  predicate KeyLess(x: Key, y: Key) {
    if x.tenant != y.tenant then StringLess(x.tenant, y.tenant)
    else if x.room != y.room then StringLess(x.room, y.room)
    else if x.sitting != y.sitting then StringLess(x.sitting, y.sitting)
    else if x.kind != y.kind then StringLess(x.kind, y.kind)
    else StringLess(x.id, y.id)
  }

  /** The key order is total and strict. */
  lemma KeyOrder(x: Key, y: Key)
    ensures KeyLess(x, y) || KeyLess(y, x) || x == y
    ensures !(KeyLess(x, y) && KeyLess(y, x)) && !KeyLess(x, x)
  {
    StringOrder(x.tenant, y.tenant);
    StringOrder(x.room, y.room);
    StringOrder(x.sitting, y.sitting);
    StringOrder(x.kind, y.kind);
    StringOrder(x.id, y.id);
    StringOrder(x.id, x.id);
  }

  lemma KeyTransitive(x: Key, y: Key, z: Key)
    requires KeyLess(x, y) && KeyLess(y, z)
    ensures KeyLess(x, z)
  {
    StringOrder(x.tenant, y.tenant);
    StringOrder(x.room, y.room);
    StringOrder(x.sitting, y.sitting);
    StringOrder(x.kind, y.kind);
    if x.tenant != y.tenant && y.tenant != z.tenant { StringTransitive(x.tenant, y.tenant, z.tenant); }
    if x.room != y.room && y.room != z.room && StringLess(x.room, y.room) && StringLess(y.room, z.room) {
      StringTransitive(x.room, y.room, z.room);
    }
    if x.sitting != y.sitting && y.sitting != z.sitting && StringLess(x.sitting, y.sitting)
        && StringLess(y.sitting, z.sitting) {
      StringTransitive(x.sitting, y.sitting, z.sitting);
    }
    if x.kind != y.kind && y.kind != z.kind && StringLess(x.kind, y.kind) && StringLess(y.kind, z.kind) {
      StringTransitive(x.kind, y.kind, z.kind);
    }
    if StringLess(x.id, y.id) && StringLess(y.id, z.id) { StringTransitive(x.id, y.id, z.id); }
  }

  /** `pending` is "" except on a row staged for a rollover, where it is the predecessor's id. */
  datatype Anchor = Anchor(key: Key, admittedAt: int, cutoff: nat, watermark: int, pending: string)

  // ---- Sorted files -----------------------------------------------------------------------

  /** Sorted with every key once. */
  ghost predicate Strict(rs: seq<Anchor>) {
    forall i, j :: 0 <= i < j < |rs| ==> KeyLess(rs[i].key, rs[j].key)
  }

  ghost predicate Sorted(rs: seq<Anchor>) {
    forall i, j :: 0 <= i < j < |rs| ==> !KeyLess(rs[j].key, rs[i].key)
  }

  ghost predicate UniqueKeys(rs: seq<Anchor>) {
    forall i, j :: 0 <= i < |rs| && 0 <= j < |rs| && rs[i].key == rs[j].key ==> i == j
  }

  /** A sorted file without a repeated key is strictly sorted, and conversely. */
  lemma StrictIsSortedUnique(rs: seq<Anchor>)
    ensures Strict(rs) <==> Sorted(rs) && UniqueKeys(rs)
  {
    if Strict(rs) {
      forall i, j | 0 <= i < j < |rs| ensures !KeyLess(rs[j].key, rs[i].key) { KeyOrder(rs[i].key, rs[j].key); }
      forall i, j | 0 <= i < |rs| && 0 <= j < |rs| && rs[i].key == rs[j].key ensures i == j {
        KeyOrder(rs[i].key, rs[j].key);
      }
    }
    if Sorted(rs) && UniqueKeys(rs) {
      forall i, j | 0 <= i < j < |rs| ensures KeyLess(rs[i].key, rs[j].key) { KeyOrder(rs[i].key, rs[j].key); }
    }
  }

  function Find(rs: seq<Anchor>, k: Key): (r: int)
    ensures -1 <= r < |rs|
    ensures r >= 0 ==> rs[r].key == k && forall i :: 0 <= i < r ==> rs[i].key != k
    ensures r < 0 ==> forall i :: 0 <= i < |rs| ==> rs[i].key != k
  {
    if rs == [] then -1
    else if Find(rs[..|rs| - 1], k) >= 0 then Find(rs[..|rs| - 1], k)
    else if rs[|rs| - 1].key == k then |rs| - 1 else -1
  }

  /** The row of a key, if any. */
  function At(rs: seq<Anchor>, k: Key): Option<Anchor> {
    if Find(rs, k) < 0 then None else Some(rs[Find(rs, k)])
  }

  lemma AtIs(rs: seq<Anchor>, i: nat)
    requires Strict(rs) && i < |rs|
    ensures At(rs, rs[i].key) == Some(rs[i])
  {
    StrictIsSortedUnique(rs);
    assert rs[Find(rs, rs[i].key)].key == rs[i].key;
  }

  /** A strictly sorted file is determined by its rows: there is nothing an unstable sort could choose. */
  lemma {:induction false} SameRowsSameFile(x: seq<Anchor>, y: seq<Anchor>)
    requires Strict(x) && Strict(y) && forall k :: At(x, k) == At(y, k)
    ensures x == y
  {
    if x != [] && y != [] {
      AtIs(x, 0);
      AtIs(y, 0);
      assert At(y, x[0].key) == Some(x[0]) && At(x, y[0].key) == Some(y[0]);
      var i := Find(x, y[0].key);
      var j := Find(y, x[0].key);
      if i > 0 && j > 0 {
        KeyOrder(x[0].key, y[0].key);
        assert false;
      }
      assert x[0] == y[0];
      forall k ensures At(x[1..], k) == At(y[1..], k) {
        AtTail(x, k);
        AtTail(y, k);
      }
      SameRowsSameFile(x[1..], y[1..]);
      assert x == [x[0]] + x[1..] && y == [y[0]] + y[1..];
    } else if x != [] {
      AtIs(x, 0);
    } else if y != [] {
      AtIs(y, 0);
    }
  }

  lemma AtTail(x: seq<Anchor>, k: Key)
    requires Strict(x) && x != []
    ensures At(x[1..], k) == if k == x[0].key then None else At(x, k)
  {
    StrictIsSortedUnique(x);
    if k != x[0].key && Find(x, k) >= 0 {
      AtIs(x[1..], Find(x, k) - 1);
    }
  }

  // ---- Sorting -----------------------------------------------------------------------------

  function Insert(rs: seq<Anchor>, a: Anchor): seq<Anchor> {
    if rs == [] || !KeyLess(a.key, rs[|rs| - 1].key) then rs + [a]
    else Insert(rs[..|rs| - 1], a) + [rs[|rs| - 1]]
  }

  function Sort(rs: seq<Anchor>): seq<Anchor> {
    if rs == [] then [] else Insert(Sort(rs[..|rs| - 1]), rs[|rs| - 1])
  }

  lemma {:induction false} InsertStrict(rs: seq<Anchor>, a: Anchor)
    requires Strict(rs) && Find(rs, a.key) < 0
    ensures Strict(Insert(rs, a)) && |Insert(rs, a)| == |rs| + 1
    ensures forall x :: x in Insert(rs, a) <==> x in rs || x == a
  {
    if rs != [] {
      var n := |rs| - 1;
      KeyOrder(a.key, rs[n].key);
      if KeyLess(a.key, rs[n].key) {
        InsertStrict(rs[..n], a);
        assert rs == rs[..n] + [rs[n]];
        forall i | 0 <= i < |Insert(rs, a)| - 1 ensures KeyLess(Insert(rs, a)[i].key, rs[n].key) {
          assert Insert(rs, a)[i] in Insert(rs[..n], a);
        }
      } else {
        forall i | 0 <= i < n ensures KeyLess(rs[i].key, a.key) { KeyTransitive(rs[i].key, rs[n].key, a.key); }
      }
    }
  }

  lemma {:induction false} InsertAt(rs: seq<Anchor>, a: Anchor, k: Key)
    requires Strict(rs) && Find(rs, a.key) < 0
    ensures At(Insert(rs, a), k) == if k == a.key then Some(a) else At(rs, k)
  {
    InsertStrict(rs, a);
    var out := Insert(rs, a);
    if k == a.key {
      assert a in out;
      var i :| 0 <= i < |out| && out[i] == a;
      AtIs(out, i);
    } else if Find(rs, k) >= 0 {
      assert rs[Find(rs, k)] in out;
      var i :| 0 <= i < |out| && out[i] == rs[Find(rs, k)];
      AtIs(out, i);
    } else {
      assert forall x :: x in out ==> x.key != k;
    }
  }

  /** Sorting a sorted file changes nothing. */
  lemma {:induction false} SortStrict(rs: seq<Anchor>)
    requires Strict(rs)
    ensures Sort(rs) == rs
  {
    if rs != [] {
      var n := |rs| - 1;
      SortStrict(rs[..n]);
      if n > 0 { KeyOrder(rs[n - 1].key, rs[n].key); }
    }
  }

  lemma SortAppended(rs: seq<Anchor>, a: Anchor)
    requires Strict(rs)
    ensures Sort(rs + [a]) == Insert(rs, a)
  {
    assert (rs + [a])[..|rs|] == rs;
    SortStrict(rs);
  }
}
