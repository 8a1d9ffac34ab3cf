/**
 The manual rollover among other processes: the file lock is taken and released
 by every single offer, so admissions and resolutions of other sittings fall
 between the steps of a staging.
*/
module AdmissionRollover {
  import opened Common
  import opened AdmissionOrder
  import opened AdmissionAnchors

  // ---- Interleaved staging ----------------------------------------------------------------

  predicate OfSuccessor(k: Key, p: Pending) { k.room == p.room && k.sitting == p.sitting }

  /** The operation is about the successor sitting. */
  predicate Touches(op: Op, p: Pending) {
    match op
    case Offer(c, _) => OfSuccessor(c.key, p)
    case Resolve(q, _, _) => q.room == p.room && q.sitting == p.sitting
  }

  /** Staging offers of this rollover, and operations of others about other sittings. */
  ghost predicate Interleaving(ops: seq<Op>, p: Pending) {
    forall i :: 0 <= i < |ops| && Touches(ops[i], p) ==> ops[i].Offer? && Matches(ops[i].candidate, p)
  }

  /** What the other processes do. */
  function Others(ops: seq<Op>, p: Pending): seq<Op> {
    if ops == [] then []
    else Others(ops[..|ops| - 1], p) + if Touches(ops[|ops| - 1], p) then [] else [ops[|ops| - 1]]
  }

  lemma OthersRun(rs: seq<Anchor>, ops: seq<Op>, p: Pending)
    requires ops != []
    ensures var front, last := ops[..|ops| - 1], ops[|ops| - 1];
            RunFrom(rs, Others(ops, p)) ==
            if Touches(last, p) then RunFrom(rs, Others(front, p)) else Apply(RunFrom(rs, Others(front, p)), last)
  {
    var front, last := Others(ops[..|ops| - 1], p), ops[|ops| - 1];
    if Touches(last, p) {
      assert front + [] == front;
    } else {
      assert (front + [last])[..|front|] == front;
    }
  }

  /** One operation, row by row. */
  function ApplyAt(r: Option<Anchor>, op: Op, k: Key): Option<Anchor> {
    match op
    case Offer(c, durable) => if ValidAnchor(c) && durable && k == c.key then Some(Earlier(r, c)) else r
    case Resolve(p, commit, durable) => if durable then ResolveAt(r, p, commit) else r
  }

  lemma AppliedAt(rs: seq<Anchor>, op: Op, k: Key)
    requires Strict(rs)
    ensures Strict(Apply(rs, op)) && At(Apply(rs, op), k) == ApplyAt(At(rs, k), op, k)
  {
    match op
    case Offer(c, durable) => RecordedAt(rs, c);
    case Resolve(p, commit, durable) => ResolvedAt(rs, p, commit, k);
  }

  lemma {:induction false} RunIsStrict(rs: seq<Anchor>, ops: seq<Op>)
    requires Strict(rs)
    ensures Strict(RunFrom(rs, ops))
  {
    if ops != [] {
      RunIsStrict(rs, ops[..|ops| - 1]);
      AppliedAt(RunFrom(rs, ops[..|ops| - 1]), ops[|ops| - 1], Key("", "", "", "", ""));
    }
  }

  /** Where two files stand that differ by a staging: the successor's rows are the staged ones, and every
      other row is the same. */
  ghost predicate Apart(with: Option<Anchor>, without: Option<Anchor>, k: Key, p: Pending) {
    if OfSuccessor(k, p) then without == None && (with.Some? ==> Matches(with.value, p)) else with == without
  }

  lemma AtHasKey(rs: seq<Anchor>, k: Key)
    ensures At(rs, k).Some? ==> At(rs, k).value.key == k
  {
  }

  lemma {:induction false} StaysApart(rs: seq<Anchor>, ops: seq<Op>, p: Pending, k: Key)
    requires Strict(rs) && Fresh(rs, p) && Interleaving(ops, p)
    ensures Apart(At(RunFrom(rs, ops), k), At(RunFrom(rs, Others(ops, p)), k), k, p)
  {
    if ops == [] {
      AtHasKey(rs, k);
    } else {
      var front, last := ops[..|ops| - 1], ops[|ops| - 1];
      var x, y := RunFrom(rs, front), RunFrom(rs, Others(front, p));
      StaysApart(rs, front, p, k);
      RunIsStrict(rs, front);
      RunIsStrict(rs, Others(front, p));
      OthersRun(rs, ops, p);
      AppliedAt(x, last, k);
      AppliedAt(y, last, k);
      AtHasKey(x, k);
      AtHasKey(y, k);
      StepStaysApart(At(x, k), At(y, k), last, k, p);
    }
  }

  lemma StepStaysApart(with: Option<Anchor>, without: Option<Anchor>, op: Op, k: Key, p: Pending)
    requires Apart(with, without, k, p) && (Touches(op, p) ==> op.Offer? && Matches(op.candidate, p))
    requires (with.Some? ==> with.value.key == k) && (without.Some? ==> without.value.key == k)
    ensures Apart(ApplyAt(with, op, k), if Touches(op, p) then without else ApplyAt(without, op, k), k, p)
  {
  }

  /** Abort after any interleaving: whatever the staging got done, and whatever other processes admitted,
      committed or discarded in between, the file is the one the other processes alone would have left. */
  lemma InterleavedStageThenAbort(prior: seq<Op>, ops: seq<Op>, p: Pending)
    requires Fresh(Run(prior), p) && Interleaving(ops, p)
    ensures Resolved(RunFrom(Run(prior), ops), p, false) == RunFrom(Run(prior), Others(ops, p))
  {
    var rs := Run(prior);
    var with, without := RunFrom(rs, ops), RunFrom(rs, Others(ops, p));
    FileAlwaysLoads(prior);
    RunIsStrict(rs, ops);
    RunIsStrict(rs, Others(ops, p));
    forall k ensures Strict(Resolved(with, p, false)) && At(Resolved(with, p, false), k) == At(without, k) {
      StaysApart(rs, ops, p, k);
      ResolvedAt(with, p, false, k);
      AtHasKey(with, k);
    }
    ResolvedKeys(with, p, false);
    SameRowsSameFile(Resolved(with, p, false), without);
  }

  /** Until it commits, an interleaved staging moves no sitting's start, whoever looks and whenever it dies. */
  lemma InterleavedStagingIsInvisible(prior: seq<Op>, ops: seq<Op>, p: Pending, s: Sitting)
    requires Fresh(Run(prior), p) && Interleaving(ops, p) && p.predecessor != ""
    ensures StartOf(RunFrom(Run(prior), ops), s) == StartOf(RunFrom(Run(prior), Others(ops, p)), s)
  {
    var rs := Run(prior);
    var with, without := RunFrom(rs, ops), RunFrom(rs, Others(ops, p));
    FileAlwaysLoads(prior);
    RunIsStrict(rs, ops);
    RunIsStrict(rs, Others(ops, p));
    UnmarkedRows(with);
    UnmarkedRows(without);
    forall k ensures At(Unmarked(with), k) == At(Unmarked(without), k) {
      StaysApart(rs, ops, p, k);
      UnmarkedAt(with, k);
      UnmarkedAt(without, k);
    }
    SameRowsSameFile(Unmarked(with), Unmarked(without));
    UnmarkedStart(with, s);
    UnmarkedStart(without, s);
  }

  // ---- An abort that removes an older row ------------------------------------------------------

  /** The successor was not fresh: a principal already admitted to it, at a later clock reading than the
      staged offer, is overwritten by the staging and removed by the abort. */
  lemma AbortRemovesAnAdmission(admitted: Anchor, staged: Anchor, p: Pending)
    requires ValidAnchor(admitted) && ValidAnchor(staged) && staged.key == admitted.key && Matches(staged, p)
    requires admitted.pending == "" != p.predecessor && staged.admittedAt < admitted.admittedAt
    ensures Run([Offer(admitted, true)]) == [admitted]
    ensures Resolved(Offers(Run([Offer(admitted, true)]), [staged]), p, false) == []
  {
    var before := [admitted];
    assert [Offer(admitted, true)][..0] == [];
    InsertFirst(admitted);
    assert RunFrom([], []) == [];
    assert Run([Offer(admitted, true)]) == before;
    assert [staged][..0] == [] && Offers(before, []) == before;
    FindOnly(admitted);
    assert before[0 := staged] == [staged];
    assert Offers(before, [staged]) == [staged];
    assert Resolved([], p, false) == [] && [staged][..0] == [];
  }

  lemma InsertFirst(a: Anchor)
    ensures Recorded([], a) == [a]
  {
    assert [] + [a] == [a] && [a][..0] == [];
    assert Sort([]) == [] && Insert([], a) == [a];
  }

  lemma FindOnly(a: Anchor)
    ensures Find([a], a.key) == 0
  {
    assert [a][..0] == [];
  }

  /** Such rows exist. */
  lemma AbortCanRemove()
    ensures exists admitted, staged, p ::
      && ValidAnchor(admitted) && ValidAnchor(staged) && staged.key == admitted.key && Matches(staged, p)
      && admitted.pending == "" != p.predecessor && staged.admittedAt < admitted.admittedAt
  {
    var k := Key("t", "r", "s", "user", "u");
    var admitted, staged, p := Anchor(k, 2, 0, 0, ""), Anchor(k, 1, 0, 0, "q"), Pending("r", "s", "q");
    assert ValidAnchor(admitted) && ValidAnchor(staged) && Matches(staged, p) && p.predecessor != "";
  }

  // ---- The start a rollover reports ---------------------------------------------------------------

  /** The least admission time offered. */
  function Least(cs: seq<Anchor>): int
    requires cs != []
  {
    if |cs| == 1 then cs[0].admittedAt else Min(Least(cs[..|cs| - 1]), cs[|cs| - 1].admittedAt)
  }

  lemma {:induction false} LeastIsLeast(cs: seq<Anchor>)
    requires cs != []
    ensures forall i :: 0 <= i < |cs| ==> Least(cs) <= cs[i].admittedAt
    ensures exists i :: 0 <= i < |cs| && cs[i].admittedAt == Least(cs)
  {
    if |cs| == 1 {
      assert cs[0].admittedAt == Least(cs);
    } else {
      var front := cs[..|cs| - 1];
      LeastIsLeast(front);
      var i :| 0 <= i < |front| && front[i].admittedAt == Least(front);
      assert cs[i].admittedAt == Least(front) && cs[|cs| - 1].admittedAt >= Least(cs);
      assert Least(cs) in {cs[i].admittedAt, cs[|cs| - 1].admittedAt};
      assert forall j :: 0 <= j < |front| ==> cs[j] == front[j];
    }
  }

  /** What the offers of a staging return: for a fresh successor nothing earlier than the least offer. */
  lemma ReturnedAtLeast(rs: seq<Anchor>, cs: seq<Anchor>, p: Pending)
    requires Strict(rs) && cs != [] && StagedFor(cs, p) && Fresh(rs, p)
    ensures var c := cs[|cs| - 1]; var kept := Earlier(At(Offers(rs, cs[..|cs| - 1]), c.key), c);
            Least(cs) <= kept.admittedAt <= c.admittedAt
  {
    var front, c := cs[..|cs| - 1], cs[|cs| - 1];
    LeastIsLeast(cs);
    FirstAdmissionIsMinimum(rs, front, c.key);
    AtHasKey(rs, c.key);
    var kept := At(Offers(rs, front), c.key);
    if kept.Some? && kept.value.admittedAt <= c.admittedAt {
      assert Matches(c, p) && At(rs, c.key) == None;
      var i :| 0 <= i < |front| && kept == Some(front[i]);
      assert cs[i] == front[i];
    }
  }

  /** The start a staging reports is the start its successor sitting has once the rollover commits. */
  lemma ReportedStartIsTheStart(rs: seq<Anchor>, cs: seq<Anchor>, p: Pending, s: Sitting)
    requires Strict(rs) && cs != [] && StagedFor(cs, p) && Fresh(rs, p) && p.predecessor != ""
    requires s.room == p.room && s.sitting == p.sitting && forall i :: 0 <= i < |cs| ==> cs[i].key.tenant == s.tenant
    ensures var start := StartOf(Resolved(Offers(rs, cs), p, true), s);
            start.Some? && start.value.admittedAt == Least(cs)
  {
    var out := Resolved(Offers(rs, cs), p, true);
    LeastIsLeast(cs);
    var m :| 0 <= m < |cs| && cs[m].admittedAt == Least(cs);
    assert Matches(cs[m], p);
    var row := CommittedRow(rs, cs, p, m);
    StartIsEarliest(out, s);
    var k :| 0 <= k < |out| && out[k] == row;
    assert SittingOf(out[k]) == s && out[k].pending == "";
    var start := StartOf(out, s).value;
    CommittedIsOffered(rs, cs, p, start);
  }

  /** The row the commit leaves for the principal of offer m: no later than that offer. */
  ghost function CommittedRow(rs: seq<Anchor>, cs: seq<Anchor>, p: Pending, m: nat): (row: Anchor)
    requires Strict(rs) && m < |cs| && StagedFor(cs, p) && Fresh(rs, p) && p.predecessor != ""
    ensures row in Resolved(Offers(rs, cs), p, true) && row.pending == "" && row.key == cs[m].key
    ensures row.admittedAt <= cs[m].admittedAt
  {
    var k := cs[m].key;
    StageThenCommitAddsAnchors(rs, cs, p, k);
    assert Offered(cs, k);
    MemberAt(Resolved(Offers(rs, cs), p, true), At(Resolved(Offers(rs, cs), p, true), k).value);
    At(Resolved(Offers(rs, cs), p, true), k).value
  }

  /** Every row of the successor after the commit is one of the offers, unmarked. */
  lemma CommittedIsOffered(rs: seq<Anchor>, cs: seq<Anchor>, p: Pending, row: Anchor)
    requires Strict(rs) && cs != [] && StagedFor(cs, p) && Fresh(rs, p) && p.predecessor != ""
    requires row in Resolved(Offers(rs, cs), p, true) && OfSuccessor(row.key, p)
    ensures Least(cs) <= row.admittedAt
  {
    StageThenCommitAddsAnchors(rs, cs, p, row.key);
    MemberAt(Resolved(Offers(rs, cs), p, true), row);
    AtHasKey(rs, row.key);
    LeastIsLeast(cs);
  }
}
