/**
 What the memory store makes of a text: every line trimmed, runs of blank lines
 collapsed, carriage returns turned into line breaks.
*/
module StoredText {
  import opened Common
  import opened Text
  import opened VersionArchive

  /** Every carriage return, with or without its line feed, is a line break; `after` says that a return came
      just before, and its line feed is swallowed. */
  function Breaking(s: string, after: bool): string {
    if s == "" then ""
    else if s[0] == '\n' && after then Breaking(s[1..], false)
    else (if s[0] == '\r' then "\n" else [s[0]]) + Breaking(s[1..], s[0] == '\r')
  }

  function Breaks(s: string): string { Breaking(s, false) }

  function TrimAll(lines: seq<string>): seq<string> {
    seq(|lines|, i requires 0 <= i < |lines| => Trim(lines[i]))
  }

  /** Trimmed lines with every run of blank ones made one; `blank` says that the line before was blank. */
  function Collapse(lines: seq<string>, blank: bool): seq<string> {
    if lines == [] then []
    else if lines[0] != "" then [lines[0]] + Collapse(lines[1..], false)
    else (if blank then [] else [""]) + Collapse(lines[1..], true)
  }

  function Stored(s: string): string { Trim(Join(Collapse(TrimAll(Lines(Breaks(Trim(s)))), false), "\n")) }

  lemma {:induction false} CollapseSnoc(lines: seq<string>, x: string, blank: bool)
    ensures var before := if lines == [] then blank else lines[|lines| - 1] == "";
            Collapse(lines + [x], blank) == Collapse(lines, blank) + if x == "" && before then [] else [x]
  {
    if lines == [] {
      assert [x][1..] == [];
    } else {
      assert (lines + [x])[1..] == lines[1..] + [x];
      CollapseSnoc(lines[1..], x, lines[0] == "");
    }
  }

  /** What one more line adds. */
  lemma CollapseStep(lines: seq<string>, i: nat)
    requires i < |lines|
    ensures Collapse(TrimAll(lines[..i + 1]), false) ==
            Collapse(TrimAll(lines[..i]), false)
            + (if Trim(lines[i]) == "" && i > 0 && Trim(lines[i - 1]) == "" then [] else [Trim(lines[i])])
  {
    hide Trim, Collapse;
    assert TrimAll(lines[..i + 1]) == TrimAll(lines[..i]) + [Trim(lines[i])];
    CollapseSnoc(TrimAll(lines[..i]), Trim(lines[i]), false);
  }

  /** The normalising loop of the store. */
  method NormalizeEntryText(value: string) returns (r: string)
    ensures r == Stored(value)
  {
    var text := ReplaceAll(ReplaceAll(Trim(value), "\r\n", "\n"), "\r", "\n");
    BreaksIsReplace(Trim(value));
    var lines := Lines(text);
    hide Trim, Breaks, Lines;
    var normalized: seq<string>, blank := [], false;
    for i := 0 to |lines|
      invariant normalized == Collapse(TrimAll(lines[..i]), false)
      invariant blank == (i > 0 && Trim(lines[i - 1]) == "")
    {
      CollapseStep(lines, i);
      var line := Trim(lines[i]);
      if line == "" {
        if blank { continue; }
        blank := true;
        normalized := normalized + [""];
        continue;
      }
      blank := false;
      normalized := normalized + [line];
    }
    assert lines[..|lines|] == lines;
    r := Trim(Join(normalized, "\n"));
  }

  // ---- Line breaks ----------------------------------------------------------------------------

  lemma SwallowsOnlyFeeds(s: string)
    ensures s == "" || s[0] != '\n' ==> Breaking(s, true) == Breaking(s, false)
  {
  }

  /** The two replacements, one after the other. */
  lemma {:induction false} BreaksIsReplace(s: string)
    ensures ReplaceAll(ReplaceAll(s, "\r\n", "\n"), "\r", "\n") == Breaks(s)
  {
    if s != "" {
      var two, one := "\r\n", "\n";
      assert two[0] == '\r' && two[1] == '\n' && |two| == 2;
      if s[0] == '\r' && |s| > 1 && s[1] == '\n' {
        assert s[..2] == two && s == "" + two + s[2..] && Breaks("") == "";
        BreaksPair("", s[2..]);
        BreaksIsReplace(s[2..]);
        ReplaceCharConcat(one, ReplaceAll(s[2..], two, one), '\r', one);
        ReplaceOne('\n', '\r', one);
      } else {
        assert !(two <= s);
        SwallowsOnlyFeeds(s[1..]);
        BreaksIsReplace(s[1..]);
        ReplaceCharConcat([s[0]], ReplaceAll(s[1..], two, one), '\r', one);
        ReplaceOne(s[0], '\r', one);
      }
    }
  }

  predicate EndsBare(s: string) { s == "" || s[|s| - 1] != '\r' }

  lemma {:induction false} BreakingConcat(a: string, b: string, after: bool)
    ensures Breaking(a + b, after) == Breaking(a, after) + Breaking(b, if a == "" then after else a[|a| - 1] == '\r')
  {
    if a == "" {
      assert a + b == b;
    } else {
      assert (a + b)[1..] == a[1..] + b;
      BreakingConcat(a[1..], b, a[0] == '\r' && !(a[0] == '\n' && after));
    }
  }

  lemma BreaksConcat(a: string, b: string)
    requires EndsBare(a)
    ensures Breaks(a + "\n" + b) == Breaks(a) + "\n" + Breaks(b)
  {
    var rest := "\n" + b;
    assert a + "\n" + b == a + rest && rest[1..] == b;
    BreakingConcat(a, rest, false);
  }

  lemma BreaksPair(a: string, b: string)
    ensures Breaks(a + "\r\n" + b) == Breaks(a) + "\n" + Breaks(b)
  {
    var rest := "\r\n" + b;
    assert a + "\r\n" + b == a + rest && rest[1..] == "\n" + b && ("\n" + b)[1..] == b;
    BreakingConcat(a, rest, false);
  }

  /** A return in front. */
  lemma BreaksReturn(s: string)
    ensures Breaks("\r" + s) == if s != "" && s[0] == '\n' then Breaks(s) else "\n" + Breaks(s)
  {
    assert ("\r" + s)[1..] == s;
    SwallowsOnlyFeeds(s);
  }

  /** One more character that is no line feed. */
  lemma BreaksSnoc(s: string, c: char)
    requires c != '\n'
    ensures Breaks(s + [c]) == Breaks(s) + if c == '\r' then "\n" else [c]
  {
    BreakingConcat(s, [c], false);
    assert [c][1..] == "";
  }

  lemma {:induction false} NothingToBreak(s: string)
    requires '\r' !in s
    ensures Breaks(s) == s
  {
    if s != "" {
      assert s[0] in s && forall c :: c in s[1..] ==> c in s;
      NothingToBreak(s[1..]);
    }
  }

  // ---- The lines that are stored ----------------------------------------------------------------

  /** The lines with ink, one blank line where there were any between two of them. */
  function Core(lines: seq<string>): seq<string> {
    if lines == [] then [] else if lines[0] == "" then Core(lines[1..]) else [lines[0]] + Tail(lines[1..])
  }

  /** The same after a line with ink. */
  function Tail(lines: seq<string>): seq<string> {
    if lines == [] then []
    else if lines[0] != "" then [lines[0]] + Tail(lines[1..])
    else if Core(lines[1..]) == [] then [] else [""] + Core(lines[1..])
  }

  /** Two such stretches with a blank line between them. */
  function Glue(x: seq<string>, y: seq<string>): seq<string> {
    if x == [] then y else if y == [] then x else x + [""] + y
  }

  lemma {:induction false} CoreGlue(x: seq<string>, y: seq<string>)
    ensures Core(x + [""] + y) == Glue(Core(x), Core(y))
    ensures Tail(x + [""] + y) == if Core(y) == [] then Tail(x) else Tail(x) + [""] + Core(y)
  {
    var all := x + [""] + y;
    if x == [] {
      assert all[1..] == y;
    } else {
      assert all[0] == x[0] && all[1..] == x[1..] + [""] + y;
      CoreGlue(x[1..], y);
      if x[0] == "" && Core(x[1..]) != [] && Core(y) != [] {
        assert [""] + (Core(x[1..]) + [""] + Core(y)) == [""] + Core(x[1..]) + [""] + Core(y);
      } else if x[0] != "" && Core(y) != [] {
        assert [x[0]] + (Tail(x[1..]) + [""] + Core(y)) == [x[0]] + Tail(x[1..]) + [""] + Core(y);
      }
    }
  }

  function End(lines: seq<string>): seq<string> { if lines != [] && lines[|lines| - 1] == "" then [""] else [] }

  lemma {:induction false} CollapseIs(lines: seq<string>)
    ensures Collapse(lines, true) == if Core(lines) == [] then [] else Core(lines) + End(lines)
    ensures Collapse(lines, false) == Tail(lines) + End(lines)
  {
    if lines != [] {
      CollapseIs(lines[1..]);
      AllBlankEnd(lines);
      assert |lines| > 1 ==> End(lines) == End(lines[1..]);
      if lines[0] != "" {
        assert [lines[0]] + (Tail(lines[1..]) + End(lines[1..])) == [lines[0]] + Tail(lines[1..]) + End(lines[1..]);
      } else if Core(lines[1..]) != [] {
        assert [""] + (Core(lines[1..]) + End(lines[1..])) == [""] + Core(lines[1..]) + End(lines[1..]);
      }
    }
  }

  lemma {:induction false} AllBlankEnd(lines: seq<string>)
    ensures Core(lines) == [] && lines != [] ==> End(lines) == [""]
  {
    if |lines| > 1 { AllBlankEnd(lines[1..]); }
  }

  /** Trimmed lines without breaks, inked at both ends, and no two blank ones together. */
  ghost predicate Settled(lines: seq<string>) {
    && (forall i :: 0 <= i < |lines| ==> Tidy(lines[i]) && '\n' !in lines[i] && '\r' !in lines[i])
    && (lines != [] ==> lines[0] != "" && lines[|lines| - 1] != "")
    && (forall i :: 0 <= i < |lines| - 1 ==> lines[i] != "" || lines[i + 1] != "")
  }

  ghost predicate Plain(lines: seq<string>) {
    forall i :: 0 <= i < |lines| ==> Tidy(lines[i]) && '\n' !in lines[i] && '\r' !in lines[i]
  }

  lemma PlainTail(lines: seq<string>)
    requires lines != [] && Plain(lines)
    ensures Plain(lines[1..]) && Plain([lines[0]])
  {
  }

  lemma {:induction false} CoreIsSettled(lines: seq<string>)
    requires Plain(lines)
    ensures Settled(Core(lines))
    ensures Tail(lines) == [] || Settled(Tail(lines)) ||
            (Tail(lines)[0] == "" && Tail(lines)[1..] != [] && Settled(Tail(lines)[1..]))
  {
    if lines != [] {
      PlainTail(lines);
      CoreIsSettled(lines[1..]);
      if lines[0] != "" {
        InkBefore(lines[0], Tail(lines[1..]));
      } else if Core(lines[1..]) != [] {
        assert ([""] + Core(lines[1..]))[1..] == Core(lines[1..]);
      }
    }
  }

  lemma InkBefore(x: string, rest: seq<string>)
    requires x != "" && Plain([x])
    requires rest == [] || Settled(rest) || (rest[0] == "" && rest[1..] != [] && Settled(rest[1..]))
    ensures Settled([x] + rest)
  {
    var all := [x] + rest;
    assert [x][0] == x;
    if rest != [] && !Settled(rest) {
      var r := rest[1..];
      assert forall i :: 2 <= i < |all| ==> all[i] == r[i - 2];
    } else {
      assert forall i :: 1 <= i < |all| ==> all[i] == rest[i - 1];
    }
  }

  lemma {:induction false} SettledIsCore(lines: seq<string>)
    requires Settled(lines)
    ensures Core(lines) == lines
  {
    if lines != [] {
      SettledIsTail(lines[1..]);
      assert [lines[0]] + lines[1..] == lines;
    }
  }

  lemma {:induction false} SettledIsTail(lines: seq<string>)
    requires Plain(lines) && (lines != [] ==> lines[|lines| - 1] != "")
    requires forall i :: 0 <= i < |lines| - 1 ==> lines[i] != "" || lines[i + 1] != ""
    ensures Tail(lines) == lines
  {
    if lines != [] {
      if lines[0] != "" {
        SettledIsTail(lines[1..]);
        assert [lines[0]] + lines[1..] == lines;
      } else {
        assert Settled(lines[1..]) by { assert lines[1] != ""; }
        SettledIsTail(lines[1..][1..]);
        assert [lines[1]] + lines[1..][1..] == lines[1..] && [""] + lines[1..] == lines;
        assert Core(lines[1..]) == lines[1..];
      }
    }
  }

  // ---- Stored texts -------------------------------------------------------------------------------

  /** The lines a text leaves in the store, and their text. */
  function Inked(s: string): seq<string> { Core(TrimAll(Lines(Breaks(s)))) }

  function Ink(s: string): string { Join(Inked(s), "\n") }

  lemma {:induction false} BreaksHaveNoReturn(s: string, after: bool)
    ensures '\r' !in Breaking(s, after)
  {
    if s != "" { BreaksHaveNoReturn(s[1..], s[0] == '\r'); }
  }

  lemma NoReturns(s: string)
    ensures '\r' !in Breaks(s)
  {
    BreaksHaveNoReturn(s, false);
  }

  lemma {:induction false} LinePart(s: string, i: nat, c: char)
    requires i < |Lines(s)| && c in Lines(s)[i]
    ensures c != '\n' && c in s
  {
    if s != "" {
      var rest := Lines(s[1..]);
      assert forall x :: x in s[1..] ==> x in s;
      if s[0] == '\n' {
        assert i > 0 && Lines(s)[i] == rest[i - 1];
        LinePart(s[1..], i - 1, c);
      } else if i > 0 {
        assert Lines(s)[i] == rest[i];
        LinePart(s[1..], i, c);
      } else if c != s[0] {
        assert Lines(s)[0] == [s[0]] + rest[0];
        LinePart(s[1..], 0, c);
      }
    }
  }

  lemma {:induction false} TrimIsPart(s: string)
    ensures forall c :: c in Trim(s) ==> c in s
  {
    LeftIsPart(s);
    RightIsPart(TrimLeft(s));
  }

  lemma {:induction false} LeftIsPart(s: string)
    ensures forall c :: c in TrimLeft(s) ==> c in s
  {
    if s != "" && IsSpace(s[0]) {
      LeftIsPart(s[1..]);
      assert forall c :: c in s[1..] ==> c in s;
    }
  }

  lemma {:induction false} RightIsPart(s: string)
    ensures forall c :: c in TrimRight(s) ==> c in s
  {
    if s != "" && IsSpace(s[|s| - 1]) {
      RightIsPart(s[..|s| - 1]);
      assert forall c :: c in s[..|s| - 1] ==> c in s;
    }
  }

  lemma TrimmedArePlain(s: string)
    ensures Plain(TrimAll(Lines(Breaks(s))))
  {
    hide Trim, Breaks, Lines, Tidy;
    var lines := Lines(Breaks(s));
    forall i | 0 <= i < |lines| ensures Tidy(Trim(lines[i])) && '\n' !in Trim(lines[i]) && '\r' !in Trim(lines[i]) {
      TrimmedIsPlain(s, i);
    }
  }

  lemma TrimmedIsPlain(s: string, i: nat)
    requires i < |Lines(Breaks(s))|
    ensures var x := Trim(Lines(Breaks(s))[i]); Tidy(x) && '\n' !in x && '\r' !in x
  {
    hide Trim, Breaks, Lines, Tidy;
    var line := Lines(Breaks(s))[i];
    TrimIsTidy(line);
    TrimIsPart(line);
    NoReturns(s);
    if '\n' in Trim(line) { LinePart(Breaks(s), i, '\n'); }
    if '\r' in Trim(line) { LinePart(Breaks(s), i, '\r'); }
  }

  lemma InkedIsSettled(s: string)
    ensures Settled(Inked(s))
  {
    TrimmedArePlain(s);
    CoreIsSettled(TrimAll(Lines(Breaks(s))));
  }

  lemma {:induction false} SettledJoin(lines: seq<string>)
    requires lines != [] && (forall i :: 0 <= i < |lines| ==> Tidy(lines[i])) && lines[|lines| - 1] != ""
    ensures Join(lines, "\n") != "" && !IsSpace(Join(lines, "\n")[|Join(lines, "\n")| - 1])
    ensures lines[0] != "" ==> Tidy(Join(lines, "\n"))
  {
    if |lines| > 1 { SettledJoin(lines[1..]); }
  }

  /** The text of settled lines is tidy, and its lines are those lines. */
  lemma SettledText(lines: seq<string>)
    requires Settled(lines) && lines != []
    ensures var s := Join(lines, "\n"); Tidy(s) && s != "" && Lines(s) == lines
  {
    SettledJoin(lines);
    SplitJoin(lines, '\n');
  }

  lemma {:induction false} JoinFront(lines: seq<string>)
    requires lines != []
    ensures Join(lines + [""], "\n") == Join(lines, "\n") + "\n"
    ensures Join([""] + lines, "\n") == "\n" + Join(lines, "\n")
  {
    assert ([""] + lines)[1..] == lines;
    assert (lines + [""])[1..] == lines[1..] + [""];
    if |lines| == 1 {
      assert lines[1..] + [""] == [""];
    } else {
      JoinFront(lines[1..]);
    }
  }

  lemma TrimAround(s: string, front: bool, back: bool)
    requires Tidy(s) && s != ""
    ensures Trim((if front then "\n" else "") + s + (if back then "\n" else "")) == s
  {
    var u := s + (if back then "\n" else "");
    var t := (if front then "\n" else "") + u;
    assert (if front then "\n" else "") + s + (if back then "\n" else "") == t;
    if front { assert t[1..] == u; } else { assert t == u; }
    assert TrimLeft(t) == TrimLeft(u) == u;
    if back {
      assert u[|u| - 1] == '\n' && u[..|u| - 1] == s;
      assert TrimRight(u) == TrimRight(s) == s;
    } else {
      assert u == s;
    }
  }

  /** Trimming the collapsed lines leaves the inked ones. */
  lemma CollapsedText(lines: seq<string>)
    requires Plain(lines)
    ensures Trim(Join(Collapse(lines, false), "\n")) == Join(Core(lines), "\n")
  {
    hide Trim, Join, Collapse, Tail, Core, Plain;
    CollapseIs(lines);
    if Core(lines) == [] {
      TailOfBlank(lines);
      assert [] + End(lines) == End(lines);
      BlankText();
    } else {
      CoreIsSettled(lines);
      InkedText(lines);
    }
  }

  lemma InkedText(lines: seq<string>)
    requires Core(lines) != [] && Settled(Core(lines)) && Collapse(lines, false) == Tail(lines) + End(lines)
    ensures Trim(Join(Collapse(lines, false), "\n")) == Join(Core(lines), "\n")
  {
    hide Trim, Join, Collapse, Tail, Core, Plain, Settled;
    var core := Core(lines);
    TailOfInk(lines);
    var front, back := lines[0] == "", End(lines) != [];
    SettledText(core);
    AroundText(core, front, back);
    assert Collapse(lines, false) == (if front then [""] else []) + core + (if back then [""] else []);
    TrimAround(Join(core, "\n"), front, back);
  }

  lemma BlankText()
    ensures Trim(Join([""], "\n")) == "" && Trim(Join([], "\n")) == "" && Join([], "\n") == ""
  {
  }

  lemma AroundText(core: seq<string>, front: bool, back: bool)
    requires core != []
    ensures Join((if front then [""] else []) + core + (if back then [""] else []), "\n") ==
            (if front then "\n" else "") + Join(core, "\n") + (if back then "\n" else "")
  {
    JoinFront(core);
    if front { JoinFront([""] + core); }
    assert core + [] == core && [] + core == core && [""] + core + [] == [""] + core;
  }

  lemma TailOfBlank(lines: seq<string>)
    requires Core(lines) == []
    ensures Tail(lines) == []
  {
  }

  lemma TailOfInk(lines: seq<string>)
    requires Core(lines) != []
    ensures lines != [] && Tail(lines) == (if lines[0] == "" then [""] else []) + Core(lines)
  {
  }

  lemma StoredIsInk(s: string)
    ensures Stored(s) == Ink(Trim(s))
  {
    TrimmedArePlain(Trim(s));
    CollapsedText(TrimAll(Lines(Breaks(Trim(s)))));
  }

  /** As the store leaves a text: nothing, or settled lines. */
  ghost predicate AsStored(s: string) { s == "" || Settled(Lines(s)) }

  lemma StoredIsKept(s: string)
    ensures AsStored(Stored(s)) && Tidy(Stored(s))
    ensures Lines(Stored(s)) == if Inked(Trim(s)) == [] then [""] else Inked(Trim(s))
  {
    StoredIsInk(s);
    InkedIsSettled(Trim(s));
    if Inked(Trim(s)) != [] { SettledText(Inked(Trim(s))); }
  }

  /** What is stored stays as it is. */
  lemma KeptIsInk(s: string)
    requires AsStored(s)
    ensures Ink(s) == s && Tidy(s)
    ensures s != "" ==> Inked(s) == Lines(s)
  {
    if s == "" {
      assert Lines("") == [""] && TrimAll([""]) == [""];
      assert Core([""]) == [] by { assert [""][1..] == []; }
    } else {
      var lines := Lines(s);
      JoinSplit(s, '\n');
      SettledJoin(lines);
      NoReturnInJoin(lines);
      NothingToBreak(s);
      forall i | 0 <= i < |lines| ensures TrimAll(lines)[i] == lines[i] { TidyIsTrimmed(lines[i]); }
      assert TrimAll(lines) == lines;
      SettledIsCore(lines);
    }
  }

  lemma {:induction false} NoReturnInJoin(lines: seq<string>)
    requires forall i :: 0 <= i < |lines| ==> '\r' !in lines[i]
    ensures '\r' !in Join(lines, "\n")
  {
    if |lines| > 1 { NoReturnInJoin(lines[1..]); }
  }

  // ---- Texts with a blank line between them -------------------------------------------------------

  function GlueText(x: string, y: string): string {
    if x == "" then y else if y == "" then x else x + "\n\n" + y
  }

  lemma {:induction false} JoinMiddle(x: seq<string>, y: seq<string>)
    requires x != [] && y != []
    ensures Join(x + [""] + y, "\n") == Join(x, "\n") + "\n\n" + Join(y, "\n")
  {
    var all := x + [""] + y;
    if |x| == 1 {
      assert all[0] == x[0] && all[1..] == [""] + y;
      JoinFront(y);
      assert "\n" + ("\n" + Join(y, "\n")) == "\n\n" + Join(y, "\n");
    } else {
      assert all[0] == x[0] && all[1..] == x[1..] + [""] + y;
      JoinMiddle(x[1..], y);
    }
  }

  /** Storing two texts with a blank line between them is storing each. */
  lemma InkGlue(a: string, b: string)
    requires EndsBare(a)
    ensures Ink(a + "\n\n" + b) == GlueText(Ink(a), Ink(b))
    ensures Inked(a + "\n\n" + b) == Glue(Inked(a), Inked(b))
  {
    GlueLines(a, b);
    var x, y := TrimAll(Lines(Breaks(a))), TrimAll(Lines(Breaks(b)));
    CoreGlue(x, y);
    InkedIsSettled(a);
    InkedIsSettled(b);
    if Inked(a) != [] { SettledText(Inked(a)); }
    if Inked(b) != [] { SettledText(Inked(b)); }
    if Inked(a) != [] && Inked(b) != [] { JoinMiddle(Inked(a), Inked(b)); }
  }

  lemma GlueLines(a: string, b: string)
    requires EndsBare(a)
    ensures TrimAll(Lines(Breaks(a + "\n\n" + b))) == TrimAll(Lines(Breaks(a))) + [""] + TrimAll(Lines(Breaks(b)))
  {
    var empty := "";
    BreaksConcat(a + "\n", b);
    BreaksConcat(a, empty);
    assert a + "\n" + empty == a + "\n" && a + "\n" + "\n" + b == a + "\n\n" + b;
    SplitConcat(Breaks(a) + "\n" + empty, Breaks(b));
    SplitConcat(Breaks(a), empty);
    assert Lines(empty) == [""] && Trim("") == "";
  }
}
