/**
 The version archive over whole runs of follow-ups: every merge reads the stored
 body and what it makes is stored before the next one.
*/
module StoredArchive {
  import opened Common
  import opened Text
  import opened VersionArchive
  import opened StoredText
  import opened ForgedHeading

  datatype Section = Section(version: int, stamp: string, body: string)

  function Head(s: Section): string { Heading(s.version, s.stamp) }

  /** One archived version as it is stored. */
  function Chunk(s: Section): string { GlueText(Head(s), s.body) }

  /** The stored archive of the given sections, newest first. */
  function ArchiveText(ss: seq<Section>): string
    requires ss != []
  {
    if |ss| == 1 then Chunk(ss[0]) else Chunk(ss[0]) + "\n\n" + ArchiveText(ss[1..])
  }

  /** The stored body: the latest version, and the archive under a rule. */
  function BodyText(latest: string, ss: seq<Section>): string {
    if ss == [] then latest else GlueText(latest, RULE + "\n\n" + ArchiveText(ss))
  }

  /** A version that can be told from the ones below it. */
  ghost predicate Good(body: string) { AsStored(body) && NoHeading(Lines(body)) }

  predicate GoodStamp(stamp: string) { '\n' !in Trim(stamp) && '\r' !in Trim(stamp) }

  ghost predicate AllGood(ss: seq<Section>) {
    forall i :: 0 <= i < |ss| ==> Good(ss[i].body) && GoodStamp(ss[i].stamp)
  }

  // ---- The stored archive --------------------------------------------------------------------

  lemma HeadIsKept(s: Section)
    requires GoodStamp(s.stamp)
    ensures AsStored(Head(s)) && Ink(Head(s)) == Head(s) && Head(s) != "" && Head(s)[0] == '#' && Tidy(Head(s))
    ensures Lines(Head(s)) == [Head(s)] && IsHeading(Head(s))
  {
    HeadingIsLine(s.version, s.stamp);
    HeadingIsHeading(s.version, s.stamp);
    HeadHasNoReturn(s);
    KeptIsInk(Head(s));
    assert Head(s)[0] == MARK[0];
  }

  lemma HeadHasNoReturn(s: Section)
    requires GoodStamp(s.stamp)
    ensures '\r' !in Head(s) && '\n' !in Head(s)
  {
    var d := Digits(if s.version < 1 then 1 else s.version);
    var rest := if Trim(s.stamp) == "" then "unknown time" else Trim(s.stamp);
    assert '\r' !in d && '\r' !in DOT && '\r' !in MARK && '\r' !in rest;
    assert '\n' !in d && '\n' !in DOT && '\n' !in MARK && '\n' !in rest;
  }

  lemma TidyEndsBare(s: string)
    requires Tidy(s)
    ensures EndsBare(s)
  {
  }

  /** A chunk is a heading line and no other. */
  lemma ChunkLines(s: Section)
    requires Good(s.body) && GoodStamp(s.stamp)
    ensures var lines := Lines(Chunk(s)); lines[0] == Head(s) && NoHeading(lines[1..])
    ensures Tidy(Chunk(s)) && Chunk(s) != "" && Chunk(s)[0] == '#' && Ink(Chunk(s)) == Chunk(s)
  {
    hide Heading, IsHeading, GoodStamp, Ink;
    HeadIsKept(s);
    KeptIsInk(s.body);
    if s.body != "" { ChunkUnder(Head(s), s.body); }
  }

  lemma ChunkUnder(h: string, body: string)
    requires Tidy(h) && h != "" && Ink(h) == h && Lines(h) == [h] && Good(body) && Tidy(body) && Ink(body) == body != ""
    ensures var t := h + "\n\n" + body;
            Lines(t)[0] == h && NoHeading(Lines(t)[1..]) && Tidy(t) && t[0] == h[0] && Ink(t) == t
  {
    hide IsHeading, Ink, Lines;
    TidyEndsBare(h);
    InkGlue(h, body);
    MiddleLines(h, body);
    BlankIsNone();
    assert ([h] + [""] + Lines(body))[1..] == [""] + Lines(body);
  }

  lemma MiddleLines(a: string, b: string)
    ensures Lines(a + "\n\n" + b) == Lines(a) + [""] + Lines(b)
  {
    var empty := "";
    SplitConcat(a + "\n" + empty, b);
    SplitConcat(a, empty);
    assert Lines(empty) == [""];
    assert a + "\n" + empty + "\n" + b == a + "\n\n" + b;
  }

  lemma {:induction false} ArchiveIsKept(ss: seq<Section>)
    requires ss != [] && AllGood(ss)
    ensures var t := ArchiveText(ss); Tidy(t) && t != "" && t[0] == '#' && Ink(t) == t
  {
    ChunkLines(ss[0]);
    if |ss| > 1 {
      ArchiveIsKept(ss[1..]);
      TidyEndsBare(Chunk(ss[0]));
      InkGlue(Chunk(ss[0]), ArchiveText(ss[1..]));
    }
  }

  /** Heading n of the lines exists exactly for section n, and in front of it stand the sections before. */
  ghost predicate Cuts(lines: seq<string>, ss: seq<Section>, n: nat) {
    && (n == 0 ==> HeadingAt(lines, n) == 0)
    && (n >= |ss| ==> HeadingAt(lines, n) == |lines|)
    && (0 < n < |ss| ==>
          HeadingAt(lines, n) < |lines| && TextBefore(lines, HeadingAt(lines, n)) == ArchiveText(ss[..n]) + "\n\n")
  }

  /** Past lines that begin with their only heading, the headings are those of the rest. */
  lemma FirstIsHeading(lines: seq<string>, rest: seq<string>, n: nat)
    requires lines != [] && IsHeading(lines[0]) && NoHeading(lines[1..])
    ensures HeadingAt(lines + rest, n) == if n == 0 then 0 else |lines| + HeadingAt(rest, n - 1)
  {
    assert (lines + rest)[1..] == lines[1..] + rest;
    if n > 0 { HeadingAfter(lines[1..], rest, n - 1); }
  }

  lemma ChunkHeading(s: Section, rest: seq<string>, n: nat)
    requires Good(s.body) && GoodStamp(s.stamp)
    ensures HeadingAt(Lines(Chunk(s)) + rest, n) == if n == 0 then 0 else |Lines(Chunk(s))| + HeadingAt(rest, n - 1)
  {
    hide Good, GoodStamp, Chunk, IsHeading;
    ChunkLines(s);
    HeadIsKept(s);
    FirstIsHeading(Lines(Chunk(s)), rest, n);
  }

  lemma TextBeforeChunk(s: Section, rest: seq<string>, k: nat)
    requires k <= |rest|
    ensures TextBefore(Lines(Chunk(s)) + [""] + rest, |Lines(Chunk(s))| + 1 + k) ==
        Chunk(s) + "\n\n" + TextBefore(rest, k)
  {
    hide Chunk;
    TextBeforeMiddle(Chunk(s), rest, k);
  }

  lemma NothingBefore(rest: seq<string>)
    ensures TextBefore(rest, 0) == ""
  {
  }

  lemma TextBeforeOne(rest: seq<string>)
    ensures TextBefore([""] + rest, 1) == "\n"
  {
    assert ([""] + rest)[1..] == rest && TextBefore(rest, 0) == "";
  }

  lemma {:induction false} ArchiveHeadings(ss: seq<Section>, n: nat)
    requires ss != [] && AllGood(ss)
    ensures Cuts(Lines(ArchiveText(ss)), ss, n)
  {
    hide Good, GoodStamp, Chunk, Lines;
    if |ss| == 1 {
      assert Lines(Chunk(ss[0])) + [] == Lines(Chunk(ss[0]));
      ChunkHeading(ss[0], [], n);
    } else {
      var rest := Lines(ArchiveText(ss[1..]));
      MiddleLines(Chunk(ss[0]), ArchiveText(ss[1..]));
      if n > 0 { ArchiveHeadings(ss[1..], n - 1); }
      CutsFront(ss, rest, n);
    }
  }

  lemma CutsFront(ss: seq<Section>, rest: seq<string>, n: nat)
    requires |ss| > 1 && rest != [] && AllGood(ss) && (n > 0 ==> Cuts(rest, ss[1..], n - 1))
    ensures Cuts(Lines(Chunk(ss[0])) + [""] + rest, ss, n)
  {
    hide Good, GoodStamp, Chunk, Lines, TextBefore;
    var lines := Lines(Chunk(ss[0]));
    assert !IsHeading("") && lines + [""] + rest == lines + ([""] + rest);
    ChunkHeading(ss[0], [""] + rest, n);
    if n > 0 {
      HeadingAfter([""], rest, n - 1);
      if n < |ss| {
        TextBeforeChunk(ss[0], rest, HeadingAt(rest, n - 1));
        FrontSections(ss, n);
        NothingBefore(rest);
        var c := Chunk(ss[0]) + "\n\n";
        if n == 1 {
          assert c + "" == c;
        } else {
          assert c + (ArchiveText(ss[1..][..n - 1]) + "\n\n") == c + ArchiveText(ss[1..][..n - 1]) + "\n\n";
        }
      }
    }
  }

  lemma FrontSections(ss: seq<Section>, n: nat)
    requires 0 < n < |ss|
    ensures ArchiveText(ss[..n])
            == if n == 1 then Chunk(ss[0]) else Chunk(ss[0]) + "\n\n" + ArchiveText(ss[1..][..n - 1])
  {
    assert ss[..n][0] == ss[0];
    if n > 1 { assert ss[..n][1..] == ss[1..][..n - 1]; }
  }

  // ---- Splitting a stored body -------------------------------------------------------------------

  /** Splitting a stored body gives back the latest version and the archive. */
  lemma SplitGivesBack(latest: string, ss: seq<Section>)
    requires Good(latest) && AllGood(ss)
    ensures SplitVersions(BodyText(latest, ss)) == (latest, if ss == [] then "" else ArchiveText(ss))
  {
    KeptIsInk(latest);
    if ss == [] {
      NoHeadingFound(Lines(latest), 0);
      TidyIsTrimmed(latest);
    } else {
      ArchiveIsKept(ss);
      ArchiveHeadings(ss, 0);
      TidyIsTrimmed(ArchiveText(ss));
      if latest == "" { SplitBare(ArchiveText(ss)); } else { SplitUnder(latest, ArchiveText(ss)); }
    }
  }

  lemma SplitUnder(latest: string, archive: string)
    requires Tidy(latest) && latest != "" && NoHeading(Lines(latest)) && HeadingAt(Lines(archive), 0) == 0
    ensures SplitVersions(latest + "\n\n" + (RULE + "\n\n" + archive)) == (latest, Trim(archive))
  {
    var a := latest + "\n\n" + RULE + "\n";
    FrontLines(latest);
    TrimRule(latest);
    assert a + "\n" == latest + "\n\n" + RULE + "\n\n";
    assert a + "\n" + archive == latest + "\n\n" + (RULE + "\n\n" + archive);
    SplitsBetween(a, archive);
  }

  lemma SplitBare(archive: string)
    requires HeadingAt(Lines(archive), 0) == 0
    ensures SplitVersions(RULE + "\n\n" + archive) == ("", Trim(archive))
  {
    var a, empty := RULE + "\n", "";
    SplitConcat(RULE, empty);
    SplitPlain(RULE, '\n');
    assert RULE + "\n" + empty == a && Lines(empty) == [""] && !IsHeading("") && !IsHeading(RULE);
    assert NoHeading(Lines(a));
    assert a + "\n" == RULE + "\n\n" && a + "\n" + archive == RULE + "\n\n" + archive;
    SplitsBetween(a, archive);
    TrimTwoBlanks(RULE);
    assert TrimSuffix(RULE, RULE) == "" && Trim("") == "";
  }

  // ---- One merge, stored ---------------------------------------------------------------------------

  /** What a merge writes below the rule, before the cap. */
  function Block(s: Section, ss: seq<Section>): string {
    Head(s) + "\n\n" + s.body + if ss == [] then "" else "\n\n" + ArchiveText(ss)
  }

  lemma OpenSection(s: Section)
    requires Good(s.body) && GoodStamp(s.stamp)
    ensures Ink(Head(s) + "\n\n" + s.body) == Chunk(s) && EndsBare(Head(s) + "\n\n" + s.body)
  {
    hide GoodStamp, Ink, Heading;
    HeadIsKept(s);
    KeptIsInk(s.body);
    TidyEndsBare(Head(s));
    InkGlue(Head(s), s.body);
    OpenEndsBare(Head(s), s.body);
  }

  lemma GlueIsChunk(s: Section, ss: seq<Section>)
    requires Good(s.body) && GoodStamp(s.stamp) && AllGood(ss) && (ss != [] || s.body != "")
    ensures Ink(Block(s, ss)) == ArchiveText([s] + ss)
  {
    hide Good, GoodStamp, Ink, Chunk, Head;
    assert ([s] + ss)[0] == s && ([s] + ss)[1..] == ss;
    OpenSection(s);
    if ss != [] {
      ArchiveIsKept(ss);
      InkGlue(Head(s) + "\n\n" + s.body, ArchiveText(ss));
      ChunkIsText(s);
      BlockUnder(s, ss);
    } else {
      assert Block(s, ss) == Head(s) + "\n\n" + s.body;
    }
  }

  lemma BlockUnder(s: Section, ss: seq<Section>)
    requires ss != []
    ensures Block(s, ss) == Head(s) + "\n\n" + s.body + "\n\n" + ArchiveText(ss)
  {
    hide Head, ArchiveText;
    assert Head(s) + "\n\n" + s.body + ("\n\n" + ArchiveText(ss)) ==
        Head(s) + "\n\n" + s.body + "\n\n" + ArchiveText(ss);
  }

  lemma ChunkIsText(s: Section)
    requires Good(s.body) && GoodStamp(s.stamp)
    ensures Chunk(s) != ""
  {
    hide Good, GoodStamp;
    ChunkLines(s);
  }

  lemma BlockIsTidy(s: Section, ss: seq<Section>)
    requires Good(s.body) && GoodStamp(s.stamp) && AllGood(ss) && (ss != [] || s.body != "")
    ensures Tidy(Block(s, ss)) && Block(s, ss) != "" && Block(s, ss)[0] == '#'
  {
    hide Heading, ArchiveText, Good, GoodStamp, Ink;
    HeadIsKept(s);
    if ss != [] {
      ArchiveIsKept(ss);
      BlockUnder(s, ss);
      TidyBetween(Head(s), "\n\n" + s.body + "\n\n", ArchiveText(ss));
      assert Head(s) + ("\n\n" + s.body + "\n\n") + ArchiveText(ss) == Block(s, ss);
    } else {
      BodyIsTidy(s.body);
      TidyBetween(Head(s), "\n\n", s.body);
      assert Block(s, ss) == Head(s) + "\n\n" + s.body;
    }
  }

  lemma BodyIsTidy(body: string)
    requires Good(body)
    ensures Tidy(body)
  {
    KeptIsInk(body);
  }

  lemma TidyBetween(x: string, y: string, z: string)
    requires Tidy(x) && x != "" && Tidy(z) && z != ""
    ensures Tidy(x + y + z) && (x + y + z)[0] == x[0]
  {
    hide IsSpace;
    assert (x + y + z)[|x + y + z| - 1] == z[|z| - 1];
  }

  lemma OpenEndsBare(h: string, body: string)
    requires Tidy(body)
    ensures EndsBare(h + "\n\n" + body)
  {
  }

  lemma OpenLines(s: Section)
    requires Good(s.body) && GoodStamp(s.stamp)
    ensures var lines := Lines(Head(s) + "\n\n" + s.body); IsHeading(lines[0]) && NoHeading(lines[1..])
  {
    hide GoodStamp, Heading, IsHeading, AsStored;
    HeadIsKept(s);
    MiddleLines(Head(s), s.body);
    var lines := Lines(Head(s) + "\n\n" + s.body);
    assert lines[1..] == [""] + Lines(s.body);
    BlankIsNone();
  }

  lemma BlankIsNone()
    ensures !IsHeading("") && NoHeading([""])
  {
  }

  /** Where heading n of a block is: the block's own is the first, the others are those of its archive. */
  lemma BlockLines(s: Section, ss: seq<Section>, n: nat)
    requires Good(s.body) && GoodStamp(s.stamp) && n > 0
    ensures ss == [] ==> HeadingAt(Lines(Block(s, ss)), n) == |Lines(Block(s, ss))|
    ensures ss != [] ==>
      var rest, front := Lines(ArchiveText(ss)), Lines(Head(s) + "\n\n" + s.body) + [""];
      Lines(Block(s, ss)) == front + rest && HeadingAt(Lines(Block(s, ss)), n) == |front| + HeadingAt(rest, n - 1)
  {
    hide Good, GoodStamp, Head, IsHeading, ArchiveText;
    var h := Head(s) + "\n\n" + s.body;
    OpenLines(s);
    if ss == [] {
      assert Block(s, ss) == h && Lines(h) + [] == Lines(h);
      FirstIsHeading(Lines(h), [], n);
    } else {
      var rest := Lines(ArchiveText(ss));
      BlockUnder(s, ss);
      MiddleLines(h, ArchiveText(ss));
      FirstIsHeading(Lines(h), [""] + rest, n);
      assert Lines(h) + ([""] + rest) == Lines(h) + [""] + rest;
      BlankIsNone();
      HeadingAfter([""], rest, n - 1);
    }
  }

  lemma CapAll(archive: string, max: nat)
    requires HeadingAt(Lines(archive), max) == |Lines(archive)|
    ensures Cap(archive, max) == archive
  {
  }

  lemma CapCuts(archive: string, max: nat)
    requires max > 0 && HeadingAt(Lines(archive), max) < |Lines(archive)|
    ensures Cap(archive, max) == Trim(TextBefore(Lines(archive), HeadingAt(Lines(archive), max)))
  {
  }

  /** The cap leaves the newest four, and something that storing only tidies. */
  lemma CappedBlock(s: Section, ss: seq<Section>)
    requires Good(s.body) && GoodStamp(s.stamp) && AllGood(ss) && |ss| <= MAX_ARCHIVED && (ss != [] || s.body != "")
    ensures var capped := Cap(Block(s, ss), MAX_ARCHIVED);
            Tidy(capped) && capped != "" && capped[0] == '#' && Ink(capped) == ArchiveText(Take([s] + ss, MAX_ARCHIVED))
  {
    hide Good, GoodStamp, Lines, ArchiveText, Cap, Block, Ink, Tidy;
    if |ss| < MAX_ARCHIVED {
      BlockLines(s, ss, MAX_ARCHIVED);
      if ss != [] { ArchiveHeadings(ss, MAX_ARCHIVED - 1); }
      CapAll(Block(s, ss), MAX_ARCHIVED);
      GlueIsChunk(s, ss);
      BlockIsTidy(s, ss);
      assert Take([s] + ss, MAX_ARCHIVED) == [s] + ss;
    } else {
      FrontOfBlock(s, ss);
      assert AllGood(ss[..MAX_ARCHIVED - 1]);
      GlueIsChunk(s, ss[..MAX_ARCHIVED - 1]);
      BlockIsTidy(s, ss[..MAX_ARCHIVED - 1]);
      assert Take([s] + ss, MAX_ARCHIVED) == [s] + ss[..MAX_ARCHIVED - 1];
    }
  }

  /** With four sections below, the cap cuts in front of the oldest. */
  lemma FrontOfBlock(s: Section, ss: seq<Section>)
    requires Good(s.body) && GoodStamp(s.stamp) && AllGood(ss) && |ss| == MAX_ARCHIVED
    ensures Cap(Block(s, ss), MAX_ARCHIVED) == Block(s, ss[..MAX_ARCHIVED - 1])
  {
    hide Good, GoodStamp, Lines, ArchiveText, Cap, Head, TextBefore;
    var n := MAX_ARCHIVED;
    var h, rest := Head(s) + "\n\n" + s.body, Lines(ArchiveText(ss));
    BlockLines(s, ss, n);
    ArchiveHeadings(ss, n - 1);
    CapCuts(Block(s, ss), n);
    TextBeforeMiddle(h, rest, HeadingAt(rest, n - 1));
    var kept := Block(s, ss[..n - 1]);
    assert h + "\n\n" + (ArchiveText(ss[..n - 1]) + "\n\n") == kept + "\n\n";
    assert AllGood(ss[..n - 1]);
    BlockIsTidy(s, ss[..n - 1]);
    TrimTwoBlanks(kept);
  }

  lemma TextBeforeMiddle(h: string, rest: seq<string>, k: nat)
    requires k <= |rest|
    ensures TextBefore(Lines(h) + [""] + rest, |Lines(h)| + 1 + k) == h + "\n\n" + TextBefore(rest, k)
  {
    var lines := Lines(h);
    TextBeforeSum(lines + [""], rest, k);
    TextBeforeSum(lines, [""] + rest, 1);
    assert lines + ([""] + rest) == lines + [""] + rest;
    TextBeforeIs(h, lines, [""] + rest);
    TextBeforeOne(rest);
  }

  /** Storing what a merge wrote, given what stands below the rule. */
  lemma StoresMerged(san: string, capped: string)
    requires Tidy(san) && Tidy(capped) && capped != "" && !IsSpace(capped[0])
    ensures Stored(san + "\n\n" + RULE + "\n\n" + capped) ==
            GlueText(Stored(san), GlueText(RULE, Ink(capped)))
  {
    hide IsSpace;
    var below := RULE + "\n\n" + capped;
    RuleIsKept();
    InkGlue(RULE, capped);
    StoredIsInk(san);
    TidyIsTrimmed(san);
    var all := san + "\n\n" + RULE + "\n\n" + capped;
    assert all == san + "\n\n" + below;
    StoredIsInk(all);
    if san == "" {
      LeadingBreaks(below);
      StoredIsKept("");
    } else {
      TidyEndsBare(san);
      TidyIsTrimmed(all);
      InkGlue(san, below);
    }
  }

  lemma RuleIsKept()
    ensures EndsBare(RULE) && Ink(RULE) == RULE
  {
    SplitPlain(RULE, '\n');
    assert AsStored(RULE);
    KeptIsInk(RULE);
  }

  lemma LeadingBreaks(s: string)
    requires Tidy(s) && s != ""
    ensures Trim("" + "\n\n" + s) == s
  {
    var t := "" + "\n\n" + s;
    assert t[1..] == "\n" + s && t[1..][1..] == s;
    assert TrimLeft(t) == TrimLeft(t[1..]) == TrimLeft(t[1..][1..]) == s;
  }

  /** A merge into a stored body, stored again: the new version on top, the old one under its heading, and the
      newest four below. */
  lemma MergeStores(latest: string, ss: seq<Section>, output: string, version: int, stamp: string)
    requires Good(latest) && AllGood(ss) && |ss| <= MAX_ARCHIVED && (latest != "" || ss != []) && GoodStamp(stamp)
    ensures Stored(Merge(BodyText(latest, ss), output, version, stamp)) ==
            BodyText(Stored(Sanitize(output)), Take([Section(version, stamp, latest)] + ss, MAX_ARCHIVED))
  {
    var s := Section(version, stamp, latest);
    SplitGivesBack(latest, ss);
    if ss != [] { ArchiveIsKept(ss); }
    var capped := Cap(Block(s, ss), MAX_ARCHIVED);
    assert Merge(BodyText(latest, ss), output, version, stamp) ==
        Sanitize(output) + "\n\n" + RULE + "\n\n" + capped by {
      BlockIs(s, ss);
    }
    AllGoodFront(s, ss);
    CappedBlock(s, ss);
    TrimIsTidy(Join(KeepOrdinary(Lines(Trim(output))), "\n"));
    StoresMerged(Sanitize(output), capped);
    AllGoodTake([s] + ss);
    ArchiveIsKept(Take([s] + ss, MAX_ARCHIVED));
  }

  lemma BlockIs(s: Section, ss: seq<Section>)
    ensures Block(s, ss) == Head(s) + "\n\n" + s.body + (if ss == [] then "" else "\n\n" + ArchiveText(ss))
  {
  }

  lemma AllGoodFront(s: Section, ss: seq<Section>)
    requires Good(s.body) && GoodStamp(s.stamp) && AllGood(ss)
    ensures AllGood([s] + ss)
  {
    hide Good, GoodStamp;
  }

  lemma AllGoodTake(ss: seq<Section>)
    requires AllGood(ss)
    ensures AllGood(Take(ss, MAX_ARCHIVED))
  {
    hide Good, GoodStamp;
  }
}
