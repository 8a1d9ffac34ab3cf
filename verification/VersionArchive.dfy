/**
 How a thread's body keeps its versions: the latest on top, earlier ones below
 under numbered headings, at most four of them. One merge, before it is stored.
*/
module VersionArchive {
  import opened Common
  import opened Text

  const MARK := "## Previous run \U{B7} v"
  const DOT := " \U{B7} "
  const RULE := "---"
  const MAX_ARCHIVED: nat := 4

  predicate IsDigit(c: char) { '0' <= c <= '9' }

  /** After the version digits: a separator, then anything. */
  predicate AfterDigits(s: string) {
    if s != "" && IsDigit(s[0]) then AfterDigits(s[1..]) else DOT <= s
  }

  /** A version boundary: the mark, at least one digit, the separator. */
  predicate IsHeading(line: string) {
    MARK <= line && |line| > |MARK| && IsDigit(line[|MARK|]) && AfterDigits(line[|MARK|..])
  }

  function Lines(s: string): (r: seq<string>)
    ensures |r| >= 1
  {
    Split(s, '\n')
  }

  ghost predicate NoHeading(lines: seq<string>) { forall i :: 0 <= i < |lines| ==> !IsHeading(lines[i]) }

  /** The position of heading number n, counting from 0, or the number of lines. */
  function HeadingAt(lines: seq<string>, n: nat): (r: nat)
    ensures r <= |lines|
  {
    if lines == [] then 0
    else if !IsHeading(lines[0]) then 1 + HeadingAt(lines[1..], n)
    else if n == 0 then 0 else 1 + HeadingAt(lines[1..], n - 1)
  }

  /** The text in front of line k. */
  function TextBefore(lines: seq<string>, k: nat): string
    requires k <= |lines|
  {
    if k == 0 then "" else lines[0] + "\n" + TextBefore(lines[1..], k - 1)
  }

  function TrimSuffix(s: string, suffix: string): string {
    if |suffix| <= |s| && s[|s| - |suffix|..] == suffix then s[..|s| - |suffix|] else s
  }

  /** Latest version and archive. */
  function SplitVersions(text: string): (string, string) {
    var lines := Lines(text);
    var k := HeadingAt(lines, 0);
    if k == |lines| then (Trim(text), "")
    else (Trim(TrimSuffix(Trim(TextBefore(lines, k)), RULE)), Trim(Join(lines[k..], "\n")))
  }

  function KeepOrdinary(lines: seq<string>): seq<string> {
    if lines == [] then []
    else KeepOrdinary(lines[..|lines| - 1]) + if IsHeading(lines[|lines| - 1]) then [] else [lines[|lines| - 1]]
  }

  function Sanitize(output: string): string { Trim(Join(KeepOrdinary(Lines(Trim(output))), "\n")) }

  /** The filtering loop over a worker's output. */
  method StripRunMarkers(output: string) returns (r: string)
    ensures r == Sanitize(output)
  {
    var lines := Lines(Trim(output));
    var kept: seq<string> := [];
    for i := 0 to |lines|
      invariant kept == KeepOrdinary(lines[..i])
    {
      assert lines[..i + 1][..i] == lines[..i];
      if !IsHeading(lines[i]) { kept := kept + [lines[i]]; }
    }
    assert lines[..|lines|] == lines;
    r := Trim(Join(kept, "\n"));
  }

  function Digits(n: nat): (s: string)
    ensures s != "" && forall i :: 0 <= i < |s| ==> IsDigit(s[i])
  {
    if n < 10 then [('0' as int + n) as char] else Digits(n / 10) + [('0' as int + n % 10) as char]
  }

  function Heading(version: int, stamp: string): string {
    MARK + Digits(if version < 1 then 1 else version) + DOT + (if Trim(stamp) == "" then "unknown time"
        else Trim(stamp))
  }

  function Cap(archive: string, max: nat): string {
    var lines := Lines(archive);
    if max == 0 || HeadingAt(lines, max) == |lines| then archive else Trim(TextBefore(lines, HeadingAt(lines, max)))
  }

  function Merge(prior: string, output: string, version: int, stamp: string): string {
    var (latest, archive) := SplitVersions(prior);
    var block := Heading(version, stamp) + "\n\n" + latest + (if archive != "" then "\n\n" + archive else "");
    Sanitize(output) + "\n\n" + RULE + "\n\n" + Cap(block, MAX_ARCHIVED)
  }

  // ---- Lines and text -----------------------------------------------------------------------

  lemma {:induction false} SplitConcat(a: string, b: string)
    ensures Lines(a + "\n" + b) == Lines(a) + Lines(b)
  {
    if a == "" {
      assert (a + "\n" + b)[1..] == b;
    } else {
      assert (a + "\n" + b)[1..] == a[1..] + "\n" + b;
      SplitConcat(a[1..], b);
    }
  }

  lemma {:induction false} TextBeforeIs(a: string, lines: seq<string>, rest: seq<string>)
    requires lines == Lines(a)
    ensures TextBefore(lines + rest, |lines|) == a + "\n"
  {
    JoinSplit(a, '\n');
    TextBeforeJoin(lines, rest);
  }

  lemma {:induction false} TextBeforeJoin(lines: seq<string>, rest: seq<string>)
    requires lines != []
    ensures TextBefore(lines + rest, |lines|) == Join(lines, "\n") + "\n"
  {
    assert (lines + rest)[1..] == lines[1..] + rest;
    if |lines| == 1 {
      assert TextBefore(lines[1..] + rest, 0) == "";
    } else {
      TextBeforeJoin(lines[1..], rest);
    }
  }

  lemma {:induction false} HeadingAfter(x: seq<string>, y: seq<string>, n: nat)
    requires NoHeading(x)
    ensures HeadingAt(x + y, n) == |x| + HeadingAt(y, n)
  {
    if x == [] {
      assert x + y == y;
    } else {
      assert (x + y)[1..] == x[1..] + y;
      HeadingAfter(x[1..], y, n);
    }
  }

  lemma {:induction false} NoHeadingFound(x: seq<string>, n: nat)
    requires NoHeading(x)
    ensures HeadingAt(x, n) == |x|
  {
    if x != [] { NoHeadingFound(x[1..], n); }
  }

  lemma {:induction false} DigitsThenDot(d: string, rest: string)
    requires forall i :: 0 <= i < |d| ==> IsDigit(d[i])
    ensures AfterDigits(d + DOT + rest)
  {
    if d == "" {
      assert d + DOT + rest == DOT + rest && DOT[0] == ' ' && (DOT + rest)[0] == ' ';
    } else {
      assert (d + DOT + rest)[1..] == d[1..] + DOT + rest;
      DigitsThenDot(d[1..], rest);
    }
  }

  lemma HeadingIsHeading(version: int, stamp: string)
    ensures IsHeading(Heading(version, stamp))
  {
    var d := Digits(if version < 1 then 1 else version);
    var rest := if Trim(stamp) == "" then "unknown time" else Trim(stamp);
    var h := Heading(version, stamp);
    assert h == MARK + (d + DOT + rest);
    assert h[|MARK|..] == d + DOT + rest;
    DigitsThenDot(d, rest);
  }

  lemma HeadingIsLine(version: int, stamp: string)
    requires '\n' !in Trim(stamp)
    ensures Lines(Heading(version, stamp)) == [Heading(version, stamp)] && Tidy(Heading(version, stamp))
        && Heading(version, stamp) != ""
  {
    var d := Digits(if version < 1 then 1 else version);
    var rest := if Trim(stamp) == "" then "unknown time" else Trim(stamp);
    TrimIsTidy(stamp);
    assert '\n' !in d && '\n' !in DOT && '\n' !in MARK && '\n' !in rest;
    assert '\n' !in Heading(version, stamp);
    SplitPlain(Heading(version, stamp), '\n');
    assert Heading(version, stamp)[0] == MARK[0] == '#';
    assert Heading(version, stamp)[|Heading(version, stamp)| - 1] == rest[|rest| - 1];
  }

  // ---- Splitting -----------------------------------------------------------------------------

  ghost predicate Clean(body: string) { Tidy(body) && NoHeading(Lines(body)) }

  lemma {:induction false} TrimRightAppend(x: string, y: string)
    requires TrimRight(y) != ""
    ensures TrimRight(x + y) == x + TrimRight(y)
  {
    if IsSpace(y[|y| - 1]) {
      assert (x + y)[..|x + y| - 1] == x + y[..|y| - 1];
      TrimRightAppend(x, y[..|y| - 1]);
    }
  }

  lemma TrimAppend(x: string, y: string)
    requires x != "" && !IsSpace(x[0]) && y != "" && !IsSpace(y[0])
    ensures Trim(x + y) == x + Trim(y)
  {
    TrimRightHead(y);
    TrimRightAppend(x, y);
  }

  lemma TrimTwoBlanks(s: string)
    requires Tidy(s) && s != ""
    ensures Trim(s + "\n\n") == s
  {
    var t := s + "\n\n";
    assert t[..|t| - 1] == s + "\n" && (s + "\n")[..|s|] == s;
    assert TrimRight(t) == TrimRight(s + "\n") == TrimRight(s) == s;
  }

  lemma {:induction false} TextBeforeSum(x: seq<string>, rest: seq<string>, k: nat)
    requires k <= |rest|
    ensures TextBefore(x + rest, |x| + k) == TextBefore(x + rest, |x|) + TextBefore(rest, k)
  {
    if x == [] {
      assert x + rest == rest;
    } else {
      assert (x + rest)[1..] == x[1..] + rest;
      TextBeforeSum(x[1..], rest, k);
    }
  }

  lemma TrimRule(latest: string)
    requires Tidy(latest)
    ensures Trim(TrimSuffix(Trim(latest + "\n\n" + RULE + "\n\n"), RULE)) == latest
  {
    var t := latest + "\n\n" + RULE;
    if latest == "" {
      assert t + "\n\n" == "\n\n" + RULE + "\n\n";
      assert (t + "\n\n")[1..] == "\n" + RULE + "\n\n" && ("\n" + RULE + "\n\n")[1..] == RULE + "\n\n";
      assert TrimLeft(t + "\n\n") == TrimLeft("\n" + RULE + "\n\n") == TrimLeft(RULE + "\n\n") == RULE + "\n\n";
      TrimTwoBlanks(RULE);
      assert TrimSuffix(RULE, RULE) == "";
    } else {
      TrimTwoBlanks(t);
      assert t[|t| - |RULE|..] == RULE && t[..|t| - |RULE|] == latest + "\n\n";
      TrimTwoBlanks(latest);
    }
  }

  /** A text splits at the first heading, which is where its second part starts. */
  lemma SplitsBetween(a: string, block: string)
    requires NoHeading(Lines(a)) && HeadingAt(Lines(block), 0) == 0 && HeadingAt(Lines(block), 0) < |Lines(block)|
    ensures SplitVersions(a + "\n" + block) == (Trim(TrimSuffix(Trim(a + "\n"), RULE)), Trim(block))
  {
    SplitConcat(a, block);
    HeadingAfter(Lines(a), Lines(block), 0);
    TextBeforeIs(a, Lines(a), Lines(block));
    assert (Lines(a) + Lines(block))[|Lines(a)|..] == Lines(block);
    JoinSplit(block, '\n');
  }

  lemma FrontLines(latest: string)
    requires NoHeading(Lines(latest))
    ensures NoHeading(Lines(latest + "\n\n" + RULE + "\n"))
  {
    SplitConcat(latest, "");
    SplitConcat(latest + "\n", RULE);
    SplitConcat(latest + "\n\n" + RULE, "");
    assert latest + "\n" + "" == latest + "\n";
    assert latest + "\n" + "\n" + RULE == latest + "\n\n" + RULE;
    assert latest + "\n\n" + RULE + "\n" + "" == latest + "\n\n" + RULE + "\n";
    SplitPlain(RULE, '\n');
    assert !IsHeading("") && !IsHeading(RULE);
  }
}
