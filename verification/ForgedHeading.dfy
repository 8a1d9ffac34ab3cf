/**
 When sanitizing a worker's output leaves a version boundary in it after all. The
 filter looks at whole lines; the trim after it can pull an indented boundary to
 the margin.
*/
module ForgedHeading {
  import opened Common
  import opened Text
  import opened VersionArchive

  predicate Blank(line: string) { forall i :: 0 <= i < |line| ==> IsSpace(line[i]) }

  lemma {:induction false} BlankLeft(s: string)
    ensures TrimLeft(s) == "" <==> Blank(s)
  {
    if s != "" {
      BlankLeft(s[1..]);
      if IsSpace(s[0]) && Blank(s[1..]) { assert forall i :: 0 < i < |s| ==> s[i] == s[1..][i - 1]; }
      if Blank(s) { assert IsSpace(s[0]); }
    }
  }

  lemma {:induction false} BlankRight(s: string)
    ensures TrimRight(s) == "" <==> Blank(s)
    ensures TrimRight(s) <= s
  {
    if s != "" {
      BlankRight(s[..|s| - 1]);
      if Blank(s) { assert IsSpace(s[|s| - 1]); }
    }
  }

  // ---- The lines of a trimmed text --------------------------------------------------------

  function LeftLines(lines: seq<string>): (r: seq<string>)
    requires lines != []
    ensures 1 <= |r| <= |lines|
  {
    if TrimLeft(lines[0]) != "" || |lines| == 1 then [TrimLeft(lines[0])] + lines[1..] else LeftLines(lines[1..])
  }

  function RightLines(lines: seq<string>): (r: seq<string>)
    requires lines != []
    ensures 1 <= |r| <= |lines|
  {
    var n := |lines| - 1;
    if TrimRight(lines[n]) != "" || n == 0 then lines[..n] + [TrimRight(lines[n])] else RightLines(lines[..n])
  }

  lemma {:induction false} LinesOfTrimLeft(s: string)
    ensures Lines(TrimLeft(s)) == LeftLines(Lines(s))
  {
    if s == "" {
    } else if !IsSpace(s[0]) {
      assert Lines(s)[0] != "" && Lines(s)[0][0] == s[0];
      assert [Lines(s)[0]] + Lines(s)[1..] == Lines(s);
    } else {
      LinesOfTrimLeft(s[1..]);
      var rest := Lines(s[1..]);
      if s[0] == '\n' {
        assert ([""] + rest)[1..] == rest;
      } else {
        var first := [s[0]] + rest[0];
        assert first[1..] == rest[0] && TrimLeft(first) == TrimLeft(rest[0]);
        assert ([first] + rest[1..])[1..] == rest[1..];
      }
    }
  }

  function Snoc(lines: seq<string>, c: char): seq<string>
    requires lines != []
  {
    if c == '\n' then lines + [""] else lines[..|lines| - 1] + [lines[|lines| - 1] + [c]]
  }

  /** What a first character does to the lines of the rest. */
  function Prepend(x: char, lines: seq<string>): seq<string>
    requires lines != []
  {
    if x == '\n' then [""] + lines else [[x] + lines[0]] + lines[1..]
  }

  lemma PrependSnoc(x: char, lines: seq<string>, c: char)
    requires lines != []
    ensures Prepend(x, Snoc(lines, c)) == Snoc(Prepend(x, lines), c)
  {
    if x != '\n' && c != '\n' && |lines| == 1 {
      assert [x] + (lines[0] + [c]) == [x] + lines[0] + [c];
    } else if x != '\n' && c != '\n' {
      assert (lines[..|lines| - 1] + [lines[|lines| - 1] + [c]])[1..] ==
          lines[1..|lines| - 1] + [lines[|lines| - 1] + [c]];
    }
  }

  lemma LinesOne(c: char)
    ensures Lines([c]) == Snoc(Lines(""), c)
  {
    var one := [c];
    assert one[1..] == "" && Lines("") == [""];
    assert [c] + "" == [c] && "" + [c] == [c];
    assert [""] + [""] == ["", ""] && [""][1..] == [];
  }

  lemma {:induction false} LinesSnoc(s: string, c: char)
    ensures Lines(s + [c]) == Snoc(Lines(s), c)
  {
    hide Snoc;
    if s == "" {
      assert s + [c] == [c];
      LinesOne(c);
    } else {
      assert (s + [c])[1..] == s[1..] + [c];
      LinesSnoc(s[1..], c);
      PrependSnoc(s[0], Lines(s[1..]), c);
      LinesPrepend(s);
      LinesPrepend(s + [c]);
    }
  }

  lemma LinesPrepend(s: string)
    requires s != ""
    ensures Lines(s) == Prepend(s[0], Lines(s[1..]))
  {
  }

  lemma {:induction false} LinesOfTrimRight(s: string)
    ensures Lines(TrimRight(s)) == RightLines(Lines(s))
  {
    if s == "" {
    } else {
      var n := |s| - 1;
      var front := s[..n];
      assert s == front + [s[n]];
      LinesSnoc(front, s[n]);
      var before := Lines(front);
      var last := before[|before| - 1];
      if !IsSpace(s[n]) {
        assert (last + [s[n]])[|last|] == s[n];
        assert Lines(s)[..|Lines(s)| - 1] + [Lines(s)[|Lines(s)| - 1]] == Lines(s);
      } else {
        LinesOfTrimRight(front);
        if s[n] == '\n' {
          assert (before + [""])[..|before|] == before;
        } else {
          assert (last + [s[n]])[..|last|] == last && TrimRight(last + [s[n]]) == TrimRight(last);
          assert (before[..|before| - 1] + [last + [s[n]]])[..|before| - 1] == before[..|before| - 1];
        }
      }
    }
  }

  /** The first line with ink, or the number of lines. */
  function FirstInk(lines: seq<string>): (r: nat)
    ensures r <= |lines|
  {
    if lines == [] then 0 else if !Blank(lines[0]) then 0 else 1 + FirstInk(lines[1..])
  }

  predicate AllBlank(lines: seq<string>) { forall i :: 0 <= i < |lines| ==> Blank(lines[i]) }

  lemma {:induction false} LeftFirst(lines: seq<string>)
    requires lines != [] && FirstInk(lines) < |lines|
    ensures var i := FirstInk(lines); LeftLines(lines) == [TrimLeft(lines[i])] + lines[i + 1..]
  {
    BlankLeft(lines[0]);
    if Blank(lines[0]) { LeftFirst(lines[1..]); }
  }

  lemma {:induction false} LeftBlank(lines: seq<string>)
    requires lines != [] && FirstInk(lines) == |lines|
    ensures LeftLines(lines) == [""]
  {
    BlankLeft(lines[0]);
    if |lines| > 1 { LeftBlank(lines[1..]); }
  }

  lemma {:induction false} RightParts(lines: seq<string>)
    requires lines != []
    ensures forall j :: 0 <= j < |RightLines(lines)| ==> RightLines(lines)[j] <= lines[j]
    ensures RightLines(lines)[0] == if AllBlank(lines[1..]) then TrimRight(lines[0]) else lines[0]
  {
    var n := |lines| - 1;
    BlankRight(lines[n]);
    if n > 0 && TrimRight(lines[n]) == "" {
      RightParts(lines[..n]);
      assert forall i :: 0 <= i < n - 1 ==> lines[..n][1..][i] == lines[1..][i];
      assert lines[1..][n - 1] == lines[n];
      if AllBlank(lines[..n][1..]) {
        forall i | 0 <= i < n ensures Blank(lines[1..][i]) {
          if i < n - 1 { assert lines[1..][i] == lines[..n][1..][i]; }
        }
      }
    } else if n > 0 {
      assert lines[1..][n - 1] == lines[n];
    }
  }

  // ---- Headings --------------------------------------------------------------------------------

  lemma {:induction false} AfterDigitsExtends(x: string, y: string)
    requires AfterDigits(x) && x <= y
    ensures AfterDigits(y)
  {
    if x != "" && IsDigit(x[0]) { AfterDigitsExtends(x[1..], y[1..]); }
    else { assert DOT <= x <= y; assert y[0] == DOT[0]; }
  }

  /** Whatever starts with a boundary is one. */
  lemma HeadingExtends(x: string, y: string)
    requires IsHeading(x) && x <= y
    ensures IsHeading(y)
  {
    assert y[|MARK|] == x[|MARK|];
    AfterDigitsExtends(x[|MARK|..], y[|MARK|..]);
  }

  lemma {:induction false} KeptLines(lines: seq<string>)
    ensures NoHeading(KeepOrdinary(lines))
    ensures forall x :: x in KeepOrdinary(lines) ==> x in lines
  {
    if lines != [] {
      KeptLines(lines[..|lines| - 1]);
      assert lines == lines[..|lines| - 1] + [lines[|lines| - 1]];
    }
  }

  lemma {:induction false} LinesHaveNoBreaks(s: string)
    ensures forall x :: x in Lines(s) ==> '\n' !in x
  {
    if s != "" {
      LinesHaveNoBreaks(s[1..]);
      var rest := Lines(s[1..]);
      assert rest[0] in rest && forall x :: x in rest[1..] ==> x in rest;
    }
  }

  function Kept(output: string): seq<string> { KeepOrdinary(Lines(Trim(output))) }

  /** The first line with ink that survives the filter, pulled to the margin, is a boundary. */
  predicate Forged(output: string) {
    var kept := Kept(output); var i := FirstInk(kept);
    i < |kept| && IsHeading(if AllBlank(kept[i + 1..]) then Trim(kept[i]) else TrimLeft(kept[i]))
  }

  lemma TrimLines(kept: seq<string>)
    requires kept != [] && forall i :: 0 <= i < |kept| ==> '\n' !in kept[i]
    ensures Lines(Trim(Join(kept, "\n"))) == RightLines(LeftLines(kept))
  {
    SplitJoin(kept, '\n');
    LinesOfTrimLeft(Join(kept, "\n"));
    LinesOfTrimRight(TrimLeft(Join(kept, "\n")));
  }

  lemma ShapeOfSanitized(kept: seq<string>)
    requires kept != [] && NoHeading(kept)
    ensures var lines := RightLines(LeftLines(kept)); var i := FirstInk(kept);
            && (forall j :: 0 < j < |lines| ==> !IsHeading(lines[j]))
            && lines[0] == if i == |kept| then "" else if AllBlank(kept[i + 1..]) then Trim(kept[i])
                else TrimLeft(kept[i])
  {
    var i := FirstInk(kept);
    var left := LeftLines(kept);
    RightParts(left);
    if i == |kept| {
      LeftBlank(kept);
    } else {
      LeftFirst(kept);
      assert left[1..] == kept[i + 1..];
      forall j | 0 < j < |RightLines(left)| ensures !IsHeading(RightLines(left)[j]) {
        assert left[j] == kept[i + j];
        if IsHeading(RightLines(left)[j]) { HeadingExtends(RightLines(left)[j], left[j]); }
      }
    }
  }

  lemma LinesOfSanitized(output: string)
    ensures Lines(Sanitize(output)) == if Kept(output) == [] then [""] else RightLines(LeftLines(Kept(output)))
  {
    var kept := Kept(output);
    KeptLines(Lines(Trim(output)));
    LinesHaveNoBreaks(Trim(output));
    if kept != [] {
      forall i | 0 <= i < |kept| ensures '\n' !in kept[i] { assert kept[i] in kept; }
      TrimLines(kept);
    }
  }

  lemma OnlyFirstCounts(lines: seq<string>)
    requires lines != [] && forall j :: 0 < j < |lines| ==> !IsHeading(lines[j])
    ensures NoHeading(lines) <==> !IsHeading(lines[0])
  {
  }

  /** Sanitized output is clean, as archives need it, exactly when it is not forged. */
  lemma SanitizedIsCleanUnlessForged(output: string)
    ensures Clean(Sanitize(output)) <==> !Forged(output)
    ensures Forged(output) ==> IsHeading(Lines(Sanitize(output))[0])
  {
    var kept := Kept(output);
    var lines := Lines(Sanitize(output));
    LinesOfSanitized(output);
    assert !IsHeading("");
    if kept != [] {
      assert NoHeading(kept) by { KeptLines(Lines(Trim(output))); }
      ShapeOfSanitized(kept);
    }
    OnlyFirstCounts(lines);
    assert Tidy(Sanitize(output)) by { TrimIsTidy(Join(kept, "\n")); }
  }

  /** A boundary line followed by an indented one: the first is filtered out, the second is kept and then
      pulled to the margin, so the merged body splits in the wrong place. */
  lemma IndentedBoundaryIsForged(version: int, stamp: string)
    requires '\n' !in Trim(stamp)
    ensures var h := Heading(version, stamp); Forged(h + "\n " + h) && Sanitize(h + "\n " + h) == h
  {
    var h := Heading(version, stamp);
    HeadingIsLine(version, stamp);
    HeadingIsHeading(version, stamp);
    IndentedLines(h);
    OneLineKept(h, " " + h);
    TidyIsTrimmed(h + "\n " + h);
    TidyIsTrimmed(h);
    assert (" " + h)[1..] == h;
    assert TrimLeft(" " + h) == TrimLeft(h) == h;
    assert !Blank(" " + h) by { assert (" " + h)[1] == h[0]; }
  }

  lemma IndentedLines(h: string)
    requires '\n' !in h
    ensures Lines(h + "\n " + h) == [h, " " + h]
  {
    var second := " " + h;
    assert '\n' !in second;
    SplitPlain(h, '\n');
    SplitPlain(second, '\n');
    SplitConcat(h, second);
    assert h + "\n " + h == h + "\n" + second;
  }

  lemma OneLineKept(h: string, second: string)
    requires IsHeading(h) && second != "" && second[0] == ' '
    ensures KeepOrdinary([h, second]) == [second]
  {
    var lines := [h, second];
    assert !IsHeading(second) by { assert second[0] == ' ' && MARK[0] == '#'; }
    assert lines[..1] == [h] && [h][..0] == [];
    assert KeepOrdinary([h]) == [];
  }

  /** After a merge of a forged output the latest version reads as empty: the whole body went into the archive. */
  lemma ForgedOutputLosesTheBody(prior: string, output: string, version: int, stamp: string)
    requires Forged(output)
    ensures SplitVersions(Merge(prior, output, version, stamp)).0 == "" && Sanitize(output) != ""
  {
    SanitizedIsCleanUnlessForged(output);
    var body := Sanitize(output);
    assert Lines("") == [""] && !IsHeading("");
    var rest := MergeTail(prior, output, version, stamp);
    SplitConcat(body, rest);
    FrontHeading(body + "\n" + rest, Lines(body), Lines(rest));
  }

  /** What a merge writes after the line break that follows the new body. */
  lemma MergeTail(prior: string, output: string, version: int, stamp: string) returns (rest: string)
    ensures Merge(prior, output, version, stamp) == Sanitize(output) + "\n" + rest
  {
    var (latest, archive) := SplitVersions(prior);
    var block := Heading(version, stamp) + "\n\n" + latest + (if archive != "" then "\n\n" + archive else "");
    rest := "\n" + RULE + "\n\n" + Cap(block, MAX_ARCHIVED);
  }

  lemma FrontHeading(text: string, front: seq<string>, rest: seq<string>)
    requires front != [] && IsHeading(front[0]) && Lines(text) == front + rest
    ensures SplitVersions(text).0 == ""
  {
    assert Lines(text)[0] == front[0];
    assert TrimSuffix("", RULE) == "" && Trim("") == "";
  }
}
