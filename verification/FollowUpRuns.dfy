/**
 Whole runs of follow-ups on a stored body, in terms of the workers' outputs: when
 every version can be read back, and when one cannot.
*/
module FollowUpRuns {
  import opened Common
  import opened Text
  import opened VersionArchive
  import opened StoredText
  import opened StoredArchive
  import opened ForgedHeading

  // ---- A boundary once stored ------------------------------------------------------------------

  /** Some line of the text is a version boundary once the store has broken and trimmed the lines. */
  ghost predicate ShowsBoundary(s: string) {
    exists k :: 0 <= k < |Lines(Breaks(s))| && IsHeading(Trim(Lines(Breaks(s))[k]))
  }

  /** Some line of an output that survives the filter is one. */
  ghost predicate StoresBoundary(output: string) {
    exists i :: 0 <= i < |Kept(output)| && ShowsBoundary(Kept(output)[i])
  }

  ghost predicate AnyHeading(lines: seq<string>) { exists k :: 0 <= k < |lines| && IsHeading(Trim(lines[k])) }

  lemma AnyOfBoth(x: seq<string>, y: seq<string>)
    ensures AnyHeading(x + y) <==> AnyHeading(x) || AnyHeading(y)
  {
    hide IsHeading, Trim;
    var all := x + y;
    if k :| 0 <= k < |x| && IsHeading(Trim(x[k])) { assert all[k] == x[k]; }
    if k :| 0 <= k < |y| && IsHeading(Trim(y[k])) { assert all[|x| + k] == y[k]; }
    if k :| 0 <= k < |all| && IsHeading(Trim(all[k])) { assert all[k] == if k < |x| then x[k] else y[k - |x|]; }
  }

  lemma BlankShowsNone()
    ensures !AnyHeading([""]) && !ShowsBoundary("")
  {
    assert Trim("") == "" && !IsHeading("") && Lines("") == [""];
  }

  lemma {:induction false} CoreMembers(lines: seq<string>, x: string)
    requires x != ""
    ensures x in Core(lines) <==> x in lines
    ensures x in Tail(lines) <==> x in lines
  {
    if lines != [] {
      CoreMembers(lines[1..], x);
      assert lines == [lines[0]] + lines[1..];
    }
  }

  /** What the store keeps of a text has a boundary exactly when the text shows one. */
  lemma InkedBoundary(s: string)
    ensures NoHeading(Inked(s)) <==> !ShowsBoundary(s)
  {
    hide Trim, Breaks, Lines, IsHeading, Core;
    var raw := Lines(Breaks(s));
    var lines := TrimAll(raw);
    BlankIsNone();
    if k :| 0 <= k < |raw| && IsHeading(Trim(raw[k])) {
      assert lines[k] == Trim(raw[k]);
      CoreMembers(lines, lines[k]);
      var i :| 0 <= i < |Core(lines)| && Core(lines)[i] == lines[k];
    }
    if i :| 0 <= i < |Core(lines)| && IsHeading(Core(lines)[i]) {
      CoreMembers(lines, Core(lines)[i]);
      var k :| 0 <= k < |lines| && lines[k] == Core(lines)[i];
      assert IsHeading(Trim(raw[k]));
    }
  }

  // ---- Texts put together -------------------------------------------------------------------------

  lemma ShowsAfterReturn(s: string)
    ensures ShowsBoundary(s + "\r") <==> ShowsBoundary(s)
  {
    hide IsHeading, Trim, Breaks;
    var empty := "";
    BreaksSnoc(s, '\r');
    SplitConcat(Breaks(s), empty);
    assert Breaks(s) + "\n" + empty == Breaks(s) + "\n" && Lines(empty) == [""];
    AnyOfBoth(Lines(Breaks(s)), [""]);
    BlankShowsNone();
  }

  /** A text shows a boundary exactly when one of its parts does. */
  lemma ShowsBeside(x: string, y: string)
    ensures ShowsBoundary(x + "\n" + y) <==> ShowsBoundary(x) || ShowsBoundary(y)
  {
    hide IsHeading, Trim, Breaks, Lines;
    if EndsBare(x) {
      BreaksConcat(x, y);
      SplitConcat(Breaks(x), Breaks(y));
      AnyOfBoth(Lines(Breaks(x)), Lines(Breaks(y)));
    } else {
      var x' := x[..|x| - 1];
      assert x == x' + "\r" && x + "\n" + y == x' + "\r\n" + y;
      ShowsAfterReturn(x');
      BreaksPair(x', y);
      SplitConcat(Breaks(x'), Breaks(y));
      AnyOfBoth(Lines(Breaks(x')), Lines(Breaks(y)));
    }
  }

  lemma {:induction false} ShowsJoined(lines: seq<string>)
    requires lines != []
    ensures ShowsBoundary(Join(lines, "\n")) <==> exists i :: 0 <= i < |lines| && ShowsBoundary(lines[i])
  {
    hide ShowsBoundary;
    if |lines| == 1 {
      assert ShowsBoundary(lines[0]) <==> ShowsBoundary(Join(lines, "\n"));
    } else {
      ShowsJoined(lines[1..]);
      ShowsBeside(lines[0], Join(lines[1..], "\n"));
      assert Join(lines, "\n") == lines[0] + "\n" + Join(lines[1..], "\n");
      if i :| 0 <= i < |lines| && ShowsBoundary(lines[i]) && i > 0 { assert lines[1..][i - 1] == lines[i]; }
      if i :| 0 <= i < |lines| - 1 && ShowsBoundary(lines[1..][i]) { assert lines[i + 1] == lines[1..][i]; }
    }
  }

  // ---- Trimming ----------------------------------------------------------------------------------

  /** White space in front of a text shows nothing. */
  lemma ShowsBehind(c: char, s: string)
    requires IsSpace(c)
    ensures ShowsBoundary([c] + s) <==> ShowsBoundary(s)
  {
    var t, empty := [c] + s, "";
    assert t[1..] == s;
    if c == '\n' {
      assert t == empty + "\n" + s;
      ShowsBeside(empty, s);
      BlankShowsNone();
    } else if c == '\r' && s != "" && s[0] == '\n' {
      assert t == "\r" + s;
      BreaksReturn(s);
      assert Breaks(t) == Breaks(s);
    } else if c == '\r' {
      assert t == "\r" + s;
      BreaksReturn(s);
      assert Breaks(t) == empty + "\n" + Breaks(s);
      SplitConcat(empty, Breaks(s));
      AnyOfBoth([""], Lines(Breaks(s)));
      BlankShowsNone();
    } else {
      assert Breaks(t) == [c] + Breaks(s);
      FirstLineSpace(c, Breaks(s));
    }
  }

  lemma FirstLineSpace(c: char, t: string)
    requires IsSpace(c) && c != '\n'
    ensures AnyHeading(Lines([c] + t)) <==> AnyHeading(Lines(t))
  {
    var lines := Lines(t);
    assert ([c] + t)[1..] == t;
    var first := [c] + lines[0];
    assert first[1..] == lines[0] && Trim(first) == Trim(lines[0]);
    assert lines == [lines[0]] + lines[1..];
    AnyOfBoth([first], lines[1..]);
    AnyOfBoth([lines[0]], lines[1..]);
    SameHeading(first, lines[0]);
  }

  lemma SameHeading(x: string, y: string)
    requires Trim(x) == Trim(y)
    ensures AnyHeading([x]) <==> AnyHeading([y])
  {
    hide IsHeading, Trim;
    assert [x][0] == x && [y][0] == y;
  }

  lemma {:induction false} TrimSpaceAfter(s: string, c: char)
    requires IsSpace(c)
    ensures Trim(s + [c]) == Trim(s)
  {
    var t := s + [c];
    if s == "" {
      assert t[1..] == "";
    } else if IsSpace(s[0]) {
      assert t[1..] == s[1..] + [c];
      TrimSpaceAfter(s[1..], c);
    } else {
      assert t[..|t| - 1] == s;
    }
  }

  /** Nor does white space behind it. */
  lemma ShowsBefore(s: string, c: char)
    requires IsSpace(c)
    ensures ShowsBoundary(s + [c]) <==> ShowsBoundary(s)
  {
    if c == '\n' {
      var empty := "";
      assert s + [c] == s + "\n" + empty;
      ShowsBeside(s, empty);
      BlankShowsNone();
    } else if c == '\r' {
      assert s + [c] == s + "\r";
      ShowsAfterReturn(s);
    } else {
      BreaksSnoc(s, c);
      LastLineSpace(Breaks(s), c);
    }
  }

  lemma LastLineSpace(t: string, c: char)
    requires IsSpace(c) && c != '\n'
    ensures AnyHeading(Lines(t + [c])) <==> AnyHeading(Lines(t))
  {
    LinesSnoc(t, c);
    var lines := Lines(t);
    var front, last := lines[..|lines| - 1], lines[|lines| - 1];
    assert lines == front + [last];
    TrimSpaceAfter(last, c);
    AnyOfBoth(front, [last]);
    AnyOfBoth(front, [last + [c]]);
    SameHeading(last, last + [c]);
  }

  lemma {:induction false} ShowsTrimLeft(s: string)
    ensures ShowsBoundary(TrimLeft(s)) <==> ShowsBoundary(s)
  {
    if s != "" && IsSpace(s[0]) {
      ShowsTrimLeft(s[1..]);
      assert [s[0]] + s[1..] == s;
      ShowsBehind(s[0], s[1..]);
    }
  }

  lemma {:induction false} ShowsTrimRight(s: string)
    ensures ShowsBoundary(TrimRight(s)) <==> ShowsBoundary(s)
  {
    if s != "" && IsSpace(s[|s| - 1]) {
      ShowsTrimRight(s[..|s| - 1]);
      assert s[..|s| - 1] + [s[|s| - 1]] == s;
      ShowsBefore(s[..|s| - 1], s[|s| - 1]);
    }
  }

  lemma ShowsTrimmed(s: string)
    ensures ShowsBoundary(Trim(s)) <==> ShowsBoundary(s)
  {
    ShowsTrimLeft(s);
    ShowsTrimRight(TrimLeft(s));
  }

  /** A stored text can be told from the versions below it exactly when the text shows no boundary. */
  lemma StoredIsGood(s: string)
    ensures Good(Stored(s)) <==> !ShowsBoundary(s)
  {
    StoredIsKept(s);
    InkedBoundary(Trim(s));
    ShowsTrimmed(s);
    assert !IsHeading("");
  }

  /** What is stored of an output can be told from the versions below it exactly when no line of the output that
      survives the filter is a boundary once stored. */
  lemma StoredOutputIsGood(output: string)
    ensures Good(Stored(Sanitize(output))) <==> !StoresBoundary(output)
  {
    hide Good, ShowsBoundary, IsHeading;
    var kept := Kept(output);
    StoredIsGood(Sanitize(output));
    ShowsTrimmed(Join(kept, "\n"));
    if kept != [] { ShowsJoined(kept); } else { BlankShowsNone(); }
  }

  // ---- A version that is lost ----------------------------------------------------------------------

  lemma {:induction false} BeforeIsShorter(x: seq<string>, rest: seq<string>, k: nat)
    requires k < |x| && x[k] != ""
    ensures |TextBefore(x + rest, k)| < |Join(x, "\n")|
  {
    assert (x + rest)[0] == x[0] && (x + rest)[1..] == x[1..] + rest;
    if k > 0 { BeforeIsShorter(x[1..], rest, k - 1); } else { assert TextBefore(x + rest, 0) == ""; }
  }

  lemma TrimIsShorter(s: string)
    ensures |Trim(s)| <= |s|
  {
    LeftIsShorter(s);
    RightIsShorter(TrimLeft(s));
  }

  lemma {:induction false} LeftIsShorter(s: string)
    ensures |TrimLeft(s)| <= |s|
  {
    if s != "" { LeftIsShorter(s[1..]); }
  }

  lemma {:induction false} RightIsShorter(s: string)
    ensures |TrimRight(s)| <= |s|
  {
    if s != "" { RightIsShorter(s[..|s| - 1]); }
  }

  lemma {:induction false} FirstHeadingIn(x: seq<string>, rest: seq<string>)
    requires !NoHeading(x)
    ensures HeadingAt(x + rest, 0) < |x| && IsHeading(x[HeadingAt(x + rest, 0)])
  {
    assert (x + rest)[0] == x[0] && (x + rest)[1..] == x[1..] + rest;
    if !IsHeading(x[0]) {
      var i :| 0 <= i < |x| && IsHeading(x[i]);
      assert x[1..][i - 1] == x[i];
      FirstHeadingIn(x[1..], rest);
    }
  }

  /** A text whose front lines have a boundary splits inside them. */
  lemma SplitsInside(text: string, x: seq<string>, rest: seq<string>)
    requires Lines(text) == x + rest && !NoHeading(x)
    ensures |SplitVersions(text).0| < |Join(x, "\n")|
  {
    var k := HeadingAt(x + rest, 0);
    FirstHeadingIn(x, rest);
    assert !IsHeading("");
    BeforeIsShorter(x, rest, k);
    var front := TextBefore(x + rest, k);
    TrimIsShorter(front);
    TrimIsShorter(TrimSuffix(Trim(front), RULE));
  }

  /** Whatever body it is merged into, a version with a boundary in it does not read back. */
  lemma BoundaryIsLost(prior: string, output: string, version: int, stamp: string)
    requires StoresBoundary(output)
    ensures SplitVersions(Stored(Merge(prior, output, version, stamp))).0 != Stored(Sanitize(output))
  {
    hide Good, StoresBoundary;
    StoredOutputIsGood(output);
    var san := Sanitize(output);
    var below := MergeBelow(prior, output, version, stamp);
    TrimIsTidy(Join(KeepOrdinary(Lines(Trim(output))), "\n"));
    BoundaryOnTop(san, below);
  }

  /** A merged text is the new version, and something from the rule on. */
  ghost function MergeBelow(prior: string, output: string, version: int, stamp: string): (below: string)
    ensures Merge(prior, output, version, stamp) == Sanitize(output) + "\n\n" + below
    ensures below != "" && !IsSpace(below[0])
  {
    MergeParts(prior, output, version, stamp);
    var (latest, archive) := SplitVersions(prior);
    var block := Heading(version, stamp) + "\n\n" + latest + (if archive != "" then "\n\n" + archive else "");
    RULE + "\n\n" + Cap(block, MAX_ARCHIVED)
  }

  lemma MergeParts(prior: string, output: string, version: int, stamp: string)
    ensures var (latest, archive) := SplitVersions(prior);
            var block := Heading(version, stamp) + "\n\n" + latest + (if archive != "" then "\n\n" + archive else "");
            var below := RULE + "\n\n" + Cap(block, MAX_ARCHIVED);
            Merge(prior, output, version, stamp) == Sanitize(output) + "\n\n" + below && !IsSpace(below[0])
  {
    hide SplitVersions, Heading, Cap, Sanitize;
  }

  lemma BoundaryOnTop(san: string, below: string)
    requires Tidy(san) && below != "" && !IsSpace(below[0]) && !Good(Stored(san))
    ensures SplitVersions(Stored(san + "\n\n" + below)).0 != Stored(san)
  {
    hide IsSpace, IsHeading, SplitVersions, Stored, Inked, Lines;
    InkedWithBoundary(san);
    StoredOnTop(san, below);
    var rest := if Inked(Trim(below)) == [] then [] else [""] + Inked(Trim(below));
    SplitsInside(Stored(san + "\n\n" + below), Inked(san), rest);
  }

  lemma InkedWithBoundary(san: string)
    requires Tidy(san) && !Good(Stored(san))
    ensures san != "" && Inked(san) != [] && !NoHeading(Inked(san)) && Stored(san) == Join(Inked(san), "\n")
  {
    hide IsHeading, Trim;
    StoredIsKept(san);
    StoredIsInk(san);
    TidyIsTrimmed(san);
    BlankIsNone();
    NothingInked();
  }

  /** The lines of a stored text begin with those of its tidy front. */
  lemma StoredOnTop(san: string, below: string)
    requires Tidy(san) && Inked(san) != [] && san != "" && below != "" && !IsSpace(below[0])
    ensures Lines(Stored(san + "\n\n" + below)) ==
            Inked(san) + if Inked(Trim(below)) == [] then [] else [""] + Inked(Trim(below))
  {
    hide IsSpace, Stored, Inked, Lines;
    TrimTop(san, below);
    TidyEndsBare(san);
    InkGlue(san, Trim(below));
    StoredIsKept(san + "\n\n" + below);
  }

  lemma NothingInked()
    ensures Inked("") == []
  {
    KeptIsInk("");
    assert Lines("") == [""] && TrimAll([""]) == [""] && [""][1..] == [];
  }

  lemma TrimTop(san: string, below: string)
    requires Tidy(san) && san != "" && below != "" && !IsSpace(below[0])
    ensures Trim(san + "\n\n" + below) == san + "\n\n" + Trim(below)
  {
    TrimAppend(san + "\n\n", below);
  }

  // ---- Whole runs ------------------------------------------------------------------------------------

  datatype FollowUp = FollowUp(output: string, stamp: string)

  /** The stored body after the follow-ups; version numbers start at v. */
  function Body(first: string, runs: seq<FollowUp>, v: int): string {
    if runs == [] then Stored(first)
    else
      var n := |runs| - 1;
      Stored(Merge(Body(first, runs[..n], v), runs[n].output, v + n, runs[n].stamp))
  }

  /** The latest version, as stored. */
  function Latest(first: string, runs: seq<FollowUp>): string {
    if runs == [] then Stored(first) else Stored(Sanitize(runs[|runs| - 1].output))
  }

  /** The version follow-up k replaced: body k, under number v + k, with the stamp it had. */
  function SectionAt(first: string, runs: seq<FollowUp>, v: int, k: nat): Section
    requires k < |runs|
  {
    Section(v + k, runs[k].stamp, Latest(first, runs[..k]))
  }

  /** Every version a follow-up replaced, newest first. */
  function Replaced(first: string, runs: seq<FollowUp>, v: int): seq<Section> {
    seq(|runs|, i requires 0 <= i < |runs| => SectionAt(first, runs, v, |runs| - 1 - i))
  }

  lemma SectionAtFront(first: string, runs: seq<FollowUp>, v: int, k: nat)
    requires k < |runs| - 1
    ensures SectionAt(first, runs[..|runs| - 1], v, k) == SectionAt(first, runs, v, k)
  {
    hide Latest;
    assert runs[..|runs| - 1][..k] == runs[..k];
  }

  lemma ReplacedFront(first: string, runs: seq<FollowUp>, v: int)
    requires runs != []
    ensures Replaced(first, runs, v) == [SectionAt(first, runs, v, |runs| - 1)] + Replaced(first, runs[..|runs| - 1], v)
  {
    hide Latest, SectionAt;
    var all := Replaced(first, runs, v);
    var parts := [SectionAt(first, runs, v, |runs| - 1)] + Replaced(first, runs[..|runs| - 1], v);
    forall i | 0 <= i < |runs| ensures all[i] == parts[i] {
      if i > 0 { SectionAtFront(first, runs, v, |runs| - 1 - i); }
    }
  }

  /** A first body with a text that shows no boundary, and follow-ups stamped by the server. */
  ghost predicate Started(first: string, runs: seq<FollowUp>) {
    && Stored(first) != "" && !ShowsBoundary(first)
    && forall i :: 0 <= i < |runs| ==> GoodStamp(runs[i].stamp)
  }

  ghost predicate Unbounded(runs: seq<FollowUp>) {
    forall i :: 0 <= i < |runs| ==> !StoresBoundary(runs[i].output)
  }

  lemma TakeFront(s: Section, prior: seq<Section>)
    ensures Take([s] + Take(prior, MAX_ARCHIVED), MAX_ARCHIVED) == Take([s] + prior, MAX_ARCHIVED)
    ensures |Take(prior, MAX_ARCHIVED)| <= MAX_ARCHIVED
  {
  }

  lemma LatestIsGood(first: string, runs: seq<FollowUp>)
    requires Started(first, runs) && Unbounded(runs)
    ensures Good(Latest(first, runs)) && (Latest(first, runs) != "" || runs != [])
  {
    hide Good, ShowsBoundary, StoresBoundary;
    if runs == [] { StoredIsGood(first); } else { StoredOutputIsGood(runs[|runs| - 1].output); }
  }

  /** One more follow-up on a body that holds. */
  lemma HoldsOneMore(latest: string, prior: seq<Section>, output: string, version: int, stamp: string)
    requires Good(latest) && AllGood(prior) && (latest != "" || prior != []) && GoodStamp(stamp)
    ensures AllGood([Section(version, stamp, latest)] + prior)
    ensures Stored(Merge(BodyText(latest, Take(prior, MAX_ARCHIVED)), output, version, stamp)) ==
            BodyText(Stored(Sanitize(output)), Take([Section(version, stamp, latest)] + prior, MAX_ARCHIVED))
  {
    hide Good, GoodStamp, Stored, BodyText, Merge;
    var s := Section(version, stamp, latest);
    TakeFront(s, prior);
    AllGoodTake(prior);
    AllGoodFront(s, prior);
    assert prior != [] ==> Take(prior, MAX_ARCHIVED) != [];
    MergeStores(latest, Take(prior, MAX_ARCHIVED), output, version, stamp);
  }

  lemma {:induction false} BodyHolds(first: string, runs: seq<FollowUp>, v: int)
    requires Started(first, runs) && Unbounded(runs)
    ensures AllGood(Replaced(first, runs, v))
    ensures Body(first, runs, v) == BodyText(Latest(first, runs), Take(Replaced(first, runs, v), MAX_ARCHIVED))
  {
    hide Good, ShowsBoundary, StoresBoundary, Stored, BodyText, Merge, Replaced, Sanitize, GoodStamp;
    if runs == [] {
      NoSections(first, v);
    } else {
      var n := |runs| - 1;
      var front := runs[..n];
      BodyHolds(first, front, v);
      LatestIsGood(first, front);
      ReplacedLength(first, front, v);
      ReplacedFront(first, runs, v);
      HoldsOneMore(Latest(first, front), Replaced(first, front, v), runs[n].output, v + n, runs[n].stamp);
    }
  }

  lemma ReplacedLength(first: string, runs: seq<FollowUp>, v: int)
    ensures |Replaced(first, runs, v)| == |runs|
  {
  }

  lemma NoSections(first: string, v: int)
    ensures Replaced(first, [], v) == [] && Take(Replaced(first, [], v), MAX_ARCHIVED) == []
        && BodyText(Stored(first), []) == Stored(first)
  {
  }

  /** After any number of follow-ups none of whose outputs stores a boundary, the stored body splits into the last
      output as stored and an archive of the at most four versions before it, newest first, each under its own
      number. */
  lemma ArchiveAfterFollowUps(first: string, runs: seq<FollowUp>, v: int)
    requires Started(first, runs) && Unbounded(runs)
    ensures var kept := Take(Replaced(first, runs, v), MAX_ARCHIVED);
            SplitVersions(Body(first, runs, v)) == (Latest(first, runs), if kept == [] then "" else ArchiveText(kept))
  {
    hide Good, Started, Unbounded, SplitVersions, ArchiveText;
    BodyHolds(first, runs, v);
    LatestIsGood(first, runs);
    AllGoodTake(Replaced(first, runs, v));
    SplitGivesBack(Latest(first, runs), Take(Replaced(first, runs, v), MAX_ARCHIVED));
  }

  /** After each of the follow-ups the latest version reads back. */
  ghost predicate AllReadBack(first: string, runs: seq<FollowUp>, v: int) {
    forall n :: 0 <= n <= |runs| ==> SplitVersions(Body(first, runs[..n], v)).0 == Latest(first, runs[..n])
  }

  /** Throughout a run every version reads back exactly when no output stores a boundary. */
  lemma EveryVersionReadsBackExactly(first: string, runs: seq<FollowUp>, v: int)
    requires Started(first, runs)
    ensures AllReadBack(first, runs, v) <==> Unbounded(runs)
  {
    hide StoresBoundary, ShowsBoundary, SplitVersions, Stored, GoodStamp;
    if Unbounded(runs) {
      forall n | 0 <= n <= |runs| ensures SplitVersions(Body(first, runs[..n], v)).0 == Latest(first, runs[..n]) {
        ArchiveAfterFollowUps(first, runs[..n], v);
      }
    }
    if i :| 0 <= i < |runs| && StoresBoundary(runs[i].output) {
      var upTo := runs[..i + 1];
      assert upTo[..i] == runs[..i] && upTo[i] == runs[i];
      BoundaryIsLost(Body(first, runs[..i], v), runs[i].output, v + i, runs[i].stamp);
      assert SplitVersions(Body(first, upTo, v)).0 != Latest(first, upTo);
    }
  }

  // ---- An output that is not forged and is lost all the same ----------------------------------------------

  /** A line, and an indented boundary below it: nothing is filtered, nothing is forged, and the store pulls the
      boundary to the margin. */
  lemma IndentedLaterBoundary(version: int, stamp: string)
    requires GoodStamp(stamp)
    ensures var output := "x\n " + Heading(version, stamp);
            !Forged(output) && Sanitize(output) == output && StoresBoundary(output)
  {
    hide Heading, IsHeading, ShowsBoundary;
    var h := Heading(version, stamp);
    var second := " " + h;
    HeadIsKept(Section(version, stamp, ""));
    IndentedKept(h, second);
    SecondShows(h, second);
    assert Kept("x\n " + h)[1] == second;
    LaterIsNotForged("x\n " + h, second);
  }

  lemma LaterIsNotForged(output: string, second: string)
    requires Kept(output) == ["x", second] && output == "x\n" + second && Tidy(output)
    ensures !Forged(output) && Sanitize(output) == output
  {
    var kept := Kept(output);
    assert !Blank("x") by { assert "x"[0] == 'x' && !IsSpace('x'); }
    assert TrimLeft("x") == "x" == Trim("x") && !IsHeading("x") && kept[0] == "x";
    assert FirstInk(kept) == 0;
    assert Join(kept, "\n") == output by { assert kept[1..] == [second]; }
    TidyIsTrimmed(output);
  }

  lemma IndentedKept(h: string, second: string)
    requires Lines(h) == [h] && h != "" && Tidy(h) && second == " " + h
    ensures Kept("x\n " + h) == ["x", second] && Tidy("x\n " + h) && "x\n " + h == "x\n" + second
  {
    hide IsHeading, Lines;
    var output := "x\n " + h;
    assert output[|output| - 1] == h[|h| - 1] && output[0] == 'x';
    TidyIsTrimmed(output);
    SplitConcat("x", second);
    assert output == "x" + "\n" + second;
    PlainLine("x");
    SpaceInFront(h, second);
    BothOrdinary(second);
    BothKept(second);
  }

  lemma PlainLine(s: string)
    requires '\n' !in s
    ensures Lines(s) == [s]
  {
    SplitPlain(s, '\n');
  }

  lemma SpaceInFront(h: string, second: string)
    requires Lines(h) == [h] && second == " " + h
    ensures Lines(second) == [second]
  {
    assert second[1..] == h;
  }

  lemma BothOrdinary(second: string)
    requires second != "" && second[0] == ' '
    ensures !IsHeading(second) && !IsHeading("x")
  {
    assert MARK[0] == '#' && "x"[0] == 'x';
  }

  lemma BothKept(second: string)
    requires !IsHeading(second) && !IsHeading("x")
    ensures KeepOrdinary(["x"] + [second]) == ["x", second]
  {
    hide IsHeading;
    var lines := ["x"] + [second];
    assert lines[..1] == ["x"] && ["x"][..0] == [];
    assert KeepOrdinary(["x"]) == ["x"];
  }

  lemma SecondShows(h: string, second: string)
    requires Lines(h) == [h] && IsHeading(h) && Tidy(h) && Ink(h) == h && AsStored(h) && h != "" && second == " " + h
    ensures ShowsBoundary(second)
  {
    KeptIsInk(h);
    InkedBoundary(h);
    assert second == [' '] + h;
    ShowsBehind(' ', h);
    assert Inked(h)[0] == h;
  }
}
