/**
 The citation receipt inside a research body: the printer appends a heading, the
 rows and a marker comment, and the verifier looks for the one marker and for the
 last heading before it. Matching the marker's pattern is the environment's.
*/
module ReceiptBody {
  import opened Common
  import opened Text
  import opened CitationReceipt

  /** One match of the marker pattern: where it starts and the fields it captures. */
  datatype Match = Match(start: nat, marker: Marker)

  datatype Scanner = Scanner(print_: Marker -> string, scan: string -> seq<Match>)

  const HEADING := "## Scout source receipt"

  /** The printed receipt. */
  function ReceiptText(sc: Scanner, r: Printed): string { HEADING + r.section + sc.print_(r.marker) }

  /** The verifier on a whole body. */
  function VerifyBody(env: Env, sc: Scanner, body: string): Result<Receipt, Error> {
    var found := sc.scan(body);
    if |found| != 1 || found[0].start > |body| then Err(Rejected)
    else
      var h := LastIndex(body[..found[0].start], HEADING);
      if h < 0 then Err(Rejected)
      else Verify(env, Printed(body[h + |HEADING|..found[0].start], found[0].marker))
  }

  // ---- Occurrences --------------------------------------------------------------------------

  predicate Occurs(s: string, d: string, i: nat) { i + |d| <= |s| && s[i..i + |d|] == d }

  ghost predicate Has(s: string, d: string) { exists i: nat :: Occurs(s, d, i) }

  lemma {:induction false} LastIndexIsLast(s: string, d: string)
    requires d != ""
    ensures LastIndex(s, d) >= 0 ==> Occurs(s, d, LastIndex(s, d))
    ensures forall i: nat :: Occurs(s, d, i) ==> i <= LastIndex(s, d)
  {
    if |s| >= |d| && s[|s| - |d|..] != d {
      LastIndexIsLast(s[..|s| - 1], d);
      forall i: nat | Occurs(s, d, i) ensures i <= LastIndex(s, d) {
        assert i + |d| < |s|;
        assert s[..|s| - 1][i..i + |d|] == s[i..i + |d|];
        assert Occurs(s[..|s| - 1], d, i);
      }
    }
  }

  /** An occurrence of a text without line breaks stays on one side of a break. */
  lemma OccursBeside(x: string, y: string, d: string, i: nat)
    requires '\n' !in d && Occurs(x + "\n" + y, d, i)
    ensures (i + |d| <= |x| && Occurs(x, d, i)) || (i > |x| && Occurs(y, d, i - |x| - 1))
  {
    var s := x + "\n" + y;
    assert forall k :: i <= k < i + |d| ==> s[k] == s[i..i + |d|][k - i] == d[k - i];
    assert s[|x|] == '\n';
    assert i + |d| <= |x| || i > |x|;
    if i > |x| {
      assert s[i..i + |d|] == y[i - |x| - 1..i - |x| - 1 + |d|];
    } else {
      assert s[i..i + |d|] == x[i..i + |d|];
    }
  }

  lemma HasBeside(x: string, y: string, d: string)
    requires '\n' !in d
    ensures Has(x + "\n" + y, d) <==> Has(x, d) || Has(y, d)
  {
    var s := x + "\n" + y;
    if i: nat :| Occurs(s, d, i) { OccursBeside(x, y, d, i); }
    if i: nat :| Occurs(x, d, i) {
      assert s[i..i + |d|] == x[i..i + |d|];
      assert Occurs(s, d, i);
    }
    if i: nat :| Occurs(y, d, i) {
      var k := |x| + 1 + i;
      assert s[k..k + |d|] == y[i..i + |d|];
      assert Occurs(s, d, k);
    }
  }

  /** What matters about the heading: it starts with #, has a blank third, ends in no blank, and contains
      neither a line break nor a dash. */
  predicate HeadingLike(d: string) {
    |d| >= 3 && d[0] == '#' && d[2] == ' ' && d[|d| - 1] != ' ' && '\n' !in d && '\U{2014}' !in d
  }

  lemma HeadingIsLike()
    ensures HeadingLike(HEADING)
  {
  }

  lemma OccursHasBlank(u: string, d: string, i: nat)
    requires HeadingLike(d) && Occurs(u, d, i)
    ensures ' ' in u
  {
    assert u[i + 2] == u[i..i + |d|][2];
  }

  /** In a titled row the heading stands inside the title, or the URL has a blank. */
  lemma OccursInTitle(t: string, dash: string, u: string, d: string, i: nat)
    requires HeadingLike(d) && dash == DASH && Occurs("- " + (t + dash + u), d, i)
    ensures (i >= 2 && Occurs(t, d, i - 2)) || ' ' in u
  {
    var line := "- " + (t + dash + u);
    var n := 2 + |t|;
    assert forall p :: i <= p < i + |d| ==> line[p] == line[i..i + |d|][p - i] == d[p - i];
    assert line[0] == '-' && line[1] == ' ' && line[n] == ' ' && line[n + 1] == '\U{2014}' && line[n + 2] == ' ';
    assert i >= 2 && (i + |d| <= n || i > n + 2);
    if i + |d| <= n {
      assert line[i..i + |d|] == t[i - 2..i - 2 + |d|];
    } else {
      assert line[i..i + |d|] == u[i - n - 3..i - n - 3 + |d|];
      OccursHasBlank(u, d, i - n - 3);
    }
  }

  lemma OccursInBare(u: string, d: string, i: nat)
    requires HeadingLike(d) && Occurs("- " + u, d, i)
    ensures ' ' in u
  {
    var line := "- " + u;
    assert line[i] == line[i..i + |d|][0] && line[0] == '-' && line[1] == ' ';
    assert line[i..i + |d|] == u[i - 2..i - 2 + |d|];
    OccursHasBlank(u, d, i - 2);
  }

  /** A printed row contains the heading exactly when its title does. */
  lemma LineHas(titles: map<string, string>, u: string, d: string)
    requires HeadingLike(d) && ' ' !in u
    ensures Has(Line(titles, u), d) <==> u in titles && titles[u] != "" && Has(titles[u], d)
  {
    var line := Line(titles, u);
    if u in titles && titles[u] != "" {
      var t := titles[u];
      if i: nat :| Occurs(line, d, i) { OccursInTitle(t, DASH, u, d, i); }
      if i: nat :| Occurs(t, d, i) {
        assert line[i + 2..i + 2 + |d|] == t[i..i + |d|];
        assert Occurs(line, d, i + 2);
      }
    } else if i: nat :| Occurs(line, d, i) {
      OccursInBare(u, d, i);
    }
  }

  /** No cited title contains the heading. */
  ghost predicate NoHeadingIn(titles: map<string, string>, urls: seq<string>) {
    forall u :: u in urls && u in titles && titles[u] != "" ==> !Has(titles[u], HEADING)
  }

  lemma {:induction false} JoinHas(lines: seq<string>, d: string)
    requires HeadingLike(d)
    ensures Has(Join(lines, "\n"), d) <==> exists k :: 0 <= k < |lines| && Has(lines[k], d)
  {
    if lines == [] {
    } else if |lines| == 1 {
      assert Has(lines[0], d) <==> Has(Join(lines, "\n"), d);
    } else {
      JoinHas(lines[1..], d);
      HasBeside(lines[0], Join(lines[1..], "\n"), d);
      assert Join(lines, "\n") == lines[0] + "\n" + Join(lines[1..], "\n");
      if k :| 0 <= k < |lines| && Has(lines[k], d) && k > 0 { assert lines[1..][k - 1] == lines[k]; }
      if k :| 0 <= k < |lines| - 1 && Has(lines[1..][k], d) { assert lines[k + 1] == lines[1..][k]; }
    }
  }

  /** The section contains the heading exactly when a cited title does. */
  lemma SectionHas(titles: map<string, string>, urls: seq<string>, d: string)
    requires d == HEADING && forall i :: 0 <= i < |urls| ==> ' ' !in urls[i]
    ensures Has(Section(titles, urls), d) <==> !NoHeadingIn(titles, urls)
  {
    HeadingIsLike();
    var lines := LinesOf(titles, urls);
    forall k | 0 <= k < |urls| ensures Has(lines[k], d) <==>
        urls[k] in titles && titles[urls[k]] != "" && Has(titles[urls[k]], d) {
      LineHas(titles, urls[k], d);
    }
    JoinHas(lines, d);
    var body := Join(lines, "\n");
    HasBeside("", body + "\n", d);
    HasBeside(body, "", d);
    assert "" + "\n" + (body + "\n") == "\n" + body + "\n" && body + "\n" + "" == body + "\n";
    HasBeside("", "", d);
    assert "" + "\n" + "" == "\n";
  }

  // ---- The round trip through a body ------------------------------------------------------------

  /** The heading found is the printed one exactly when no cited title contains it; otherwise it is a later one. */
  lemma HeadingFound(before: string, titles: map<string, string>, urls: seq<string>, d: string)
    requires d == HEADING && forall i :: 0 <= i < |urls| ==> ' ' !in urls[i]
    ensures var h := LastIndex(before + d + Section(titles, urls), d);
            if NoHeadingIn(titles, urls) then h == |before| else h > |before| + |d|
  {
    var section := Section(titles, urls);
    HeadingIsLike();
    SectionHas(titles, urls, d);
    PrintedOccurs(before, section, d);
    LastIndexIsLast(before + d + section, d);
    if LastIndex(before + d + section, d) > |before| {
      LaterIsInSection(before, section, d, LastIndex(before + d + section, d));
    }
    if i: nat :| Occurs(section, d, i) { SectionOccurs(before, section, d, i); }
  }

  lemma PrintedOccurs(before: string, section: string, d: string)
    ensures Occurs(before + d + section, d, |before|)
  {
    assert (before + d + section)[|before|..|before| + |d|] == d;
  }

  lemma SectionOccurs(before: string, section: string, d: string, i: nat)
    requires Occurs(section, d, i)
    ensures Occurs(before + d + section, d, |before| + |d| + i)
    ensures section != "" && d != "" && section[0] != d[0] ==> i > 0
  {
    var s, k := before + d + section, |before| + |d| + i;
    assert s[k..k + |d|] == section[i..i + |d|];
    assert d != "" ==> section[i..i + |d|][0] == section[i];
  }

  /** An occurrence after the printed heading is inside the section: the break between them is in none. */
  lemma LaterIsInSection(before: string, section: string, d: string, h: nat)
    requires HeadingLike(d) && section != "" && section[0] == '\n' && h > |before| && Occurs(before + d + section, d, h)
    ensures Has(section, d)
  {
    var s := before + d + section;
    var n := |before| + |d|;
    assert s[n] == '\n';
    assert forall k :: h <= k < h + |d| ==> s[k] == s[h..h + |d|][k - h] == d[k - h];
    assert h > n;
    assert s[h..h + |d|] == section[h - n..h - n + |d|];
    assert Occurs(section, d, h - n);
  }

  /** The scanner finds the printed marker and nothing else. */
  ghost predicate Finds(sc: Scanner, before: string, r: Printed, after: string) {
    sc.scan(before + ReceiptText(sc, r) + after) == [Match(|before + HEADING + r.section|, r.marker)]
  }

  /** The verifier reads the section from behind the last heading before the marker. */
  lemma BodySlice(env: Env, sc: Scanner, before: string, r: Printed, after: string)
    requires Finds(sc, before, r, after)
    ensures var h := LastIndex(before + HEADING + r.section, HEADING);
            VerifyBody(env, sc, before + ReceiptText(sc, r) + after) ==
            if h < 0 then Err(Rejected)
            else Verify(env, Printed((before + HEADING + r.section)[h + |HEADING|..], r.marker))
  {
    var front := before + HEADING + r.section;
    var body := before + ReceiptText(sc, r) + after;
    assert body == front + (sc.print_(r.marker) + after);
    assert body[..|front|] == front;
    var h := LastIndex(front, HEADING);
    if h >= 0 { assert body[h + |HEADING|..|front|] == front[h + |HEADING|..]; }
  }

  /** A receipt none of whose cited titles contains the heading verifies in any body as it does alone. */
  lemma BodyVerifiesAsPrinted(env: Env, sc: Scanner, before: string, rows: seq<string>, excluded: nat, p: Receipt,
      after: string)
    requires Sound(env) && Compact(env, rows, excluded, p).Ok? && NoHeadingIn(p.titles, Distinct(rows))
    requires Finds(sc, before, Compact(env, rows, excluded, p).value, after)
    ensures var r := Compact(env, rows, excluded, p).value;
            VerifyBody(env, sc, before + ReceiptText(sc, r) + after) == Verify(env, r)
  {
    var r := Compact(env, rows, excluded, p).value;
    CitedHaveNoBlank(env, rows, excluded, p);
    HeadingFound(before, p.titles, Distinct(rows), HEADING);
    BodySlice(env, sc, before, r, after);
    var front := before + HEADING + r.section;
    assert front[|before| + |HEADING|..] == r.section;
  }

  lemma CitedHaveNoBlank(env: Env, rows: seq<string>, excluded: nat, p: Receipt)
    requires Sound(env) && Compact(env, rows, excluded, p).Ok?
    ensures forall i :: 0 <= i < |Distinct(rows)| ==> env.host(Distinct(rows)[i]).Some? && ' ' !in Distinct(rows)[i]
  {
    DistinctIsSet(rows);
    forall i | 0 <= i < |Distinct(rows)| ensures env.host(Distinct(rows)[i]).Some? {
      assert Distinct(rows)[i] in rows;
      var k :| 0 <= k < |rows| && rows[k] == Distinct(rows)[i];
    }
  }

  // ---- A heading in a title ---------------------------------------------------------------------

  /** Cleaning never lengthens a title. */
  ghost predicate Shortens(env: Env) { forall t :: |env.clean(t)| <= |t| }

  function Length(lines: seq<string>): nat {
    if lines == [] then 0 else Length(lines[..|lines| - 1]) + |lines[|lines| - 1]| + 1
  }

  lemma LineFits(env: Env, titles: map<string, string>, u: string, t: string, text: string)
    requires Shortens(env) && ReadRow(env, text) == Cite(u, t)
        && (if t == "" then u !in titles else u in titles && titles[u] == t)
    ensures |Line(titles, u)| <= |text|
  {
    TrimShortens(text);
    TrimShortens(Trim(text)[2..]);
  }

  lemma TrimShortens(s: string)
    ensures |Trim(s)| <= |s|
  {
    LeftShortens(s);
    RightShortens(TrimLeft(s));
  }

  lemma {:induction false} LeftShortens(s: string)
    ensures |TrimLeft(s)| <= |s|
  {
    if s != "" { LeftShortens(s[1..]); }
  }

  lemma {:induction false} RightShortens(s: string)
    ensures |TrimRight(s)| <= |s|
  {
    if s != "" { RightShortens(s[..|s| - 1]); }
  }

  /** Titles are recorded for cited URLs only, and none is empty. */
  predicate OwnTitles(rows: Rows) { forall u :: u in rows.titles ==> u in rows.urls && rows.titles[u] != "" }

  function WithRow(rows: Rows, u: string, t: string): Rows {
    Rows(rows.urls + [u], if t == "" then rows.titles else rows.titles[u := t])
  }

  lemma OneMoreFits(env: Env, prior: Rows, u: string, t: string, text: string)
    requires Shortens(env) && ReadRow(env, text) == Cite(u, t) && u !in prior.urls && OwnTitles(prior)
    ensures var rows := WithRow(prior, u, t);
            OwnTitles(rows)
                && Length(LinesOf(rows.titles, rows.urls)) <= Length(LinesOf(prior.titles, prior.urls)) + |text| + 1
  {
    var rows := WithRow(prior, u, t);
    LineFits(env, rows.titles, u, t, text);
    SameLines(prior.titles, rows.titles, prior.urls);
    assert LinesOf(rows.titles, rows.urls) == LinesOf(rows.titles, prior.urls) + [Line(rows.titles, u)];
    LengthSnoc(LinesOf(prior.titles, prior.urls), Line(rows.titles, u));
  }

  /** Printing what was read takes no more room than it was read from. */
  lemma {:induction false} ReadingShortens(env: Env, lines: seq<string>)
    requires Shortens(env) && ReadRows(env, lines).Some?
    ensures var rows := ReadRows(env, lines).value;
        OwnTitles(rows) && Length(LinesOf(rows.titles, rows.urls)) <= Length(lines)
  {
    hide ReadRow, LinesOf, OwnTitles;
    if lines == [] {
      NothingRead();
    } else {
      var front, last := lines[..|lines| - 1], lines[|lines| - 1];
      ReadingShortens(env, front);
      var prior, row := ReadRows(env, front).value, ReadRow(env, last);
      if row.Cite? { OneMoreFits(env, prior, row.url, row.title, last); }
    }
  }

  lemma NothingRead()
    ensures OwnTitles(Rows([], map[])) && LinesOf(map[], []) == []
  {
  }

  lemma SameLines(x: map<string, string>, y: map<string, string>, urls: seq<string>)
    requires forall u :: u in urls ==> (u in x <==> u in y) && (u in x ==> x[u] == y[u])
    ensures LinesOf(x, urls) == LinesOf(y, urls)
  {
    forall i | 0 <= i < |urls| ensures Line(x, urls[i]) == Line(y, urls[i]) { assert urls[i] in urls; }
  }

  lemma LengthSnoc(lines: seq<string>, line: string)
    ensures Length(lines + [line]) == Length(lines) + |line| + 1
  {
    assert (lines + [line])[..|lines|] == lines;
  }

  lemma {:induction false} LengthCons(line: string, lines: seq<string>)
    ensures Length([line] + lines) == |line| + 1 + Length(lines)
  {
    if lines == [] {
      assert [line] + lines == [] + [line];
      LengthSnoc([], line);
    } else {
      var front, last := lines[..|lines| - 1], lines[|lines| - 1];
      LengthCons(line, front);
      assert [line] + lines == [line] + front + [last];
      LengthSnoc([line] + front, last);
    }
  }

  lemma {:induction false} JoinLength(lines: seq<string>)
    requires lines != []
    ensures Length(lines) == |Join(lines, "\n")| + 1
  {
    assert lines == [lines[0]] + lines[1..];
    LengthCons(lines[0], lines[1..]);
    if |lines| > 1 { JoinLength(lines[1..]); }
  }

  lemma SplitLength(s: string)
    ensures Length(Split(s, '\n')) == |s| + 1
  {
    JoinSplit(s, '\n');
    JoinLength(Split(s, '\n'));
  }

  /** A section that is too short cannot read back as these rows. */
  lemma TooShortToReadBack(env: Env, section: string, titles: map<string, string>, urls: seq<string>)
    requires Shortens(env) && urls != [] && |section| + 2 < |Section(titles, urls)|
    ensures var rows := ReadRows(env, Split(Trim(section), '\n'));
            rows.Some? ==> !(rows.value.urls == urls && rows.value.titles == CitedTitles(titles, urls))
  {
    var lines := Split(Trim(section), '\n');
    var rows := ReadRows(env, lines);
    if rows.Some? && rows.value.urls == urls && rows.value.titles == CitedTitles(titles, urls) {
      ReadingShortens(env, lines);
      CitedLines(titles, urls);
      SplitLength(Trim(section));
      TrimShortens(section);
      JoinLength(LinesOf(titles, urls));
    }
  }

  lemma CitedLines(titles: map<string, string>, urls: seq<string>)
    ensures LinesOf(CitedTitles(titles, urls), urls) == LinesOf(titles, urls)
  {
    forall i | 0 <= i < |urls| ensures Line(CitedTitles(titles, urls), urls[i]) == Line(titles, urls[i]) {
      assert urls[i] in urls;
    }
  }

  /** The whole round trip: printed into any body in which the marker is found, a compact receipt verifies to
      what it says exactly when no cited title contains the receipt heading, and the cited URLs are not the
      provider's own in another order. */
  lemma BodyReadsBackExactly(env: Env, sc: Scanner, before: string, rows: seq<string>, excluded: nat, p: Receipt,
      after: string)
    requires Sound(env) && Shortens(env) && ProviderOk(env, p) && Compact(env, rows, excluded, p).Ok?
    requires Finds(sc, before, Compact(env, rows, excluded, p).value, after)
    ensures var urls := Distinct(rows); var r := Compact(env, rows, excluded, p).value;
            VerifyBody(env, sc, before + ReceiptText(sc, r) + after) == Ok(Recovered(p, urls, Domains(env, urls))) <==>
            NoHeadingIn(p.titles, urls) && !(p.provider.count == |urls| && p.provider.digest != UrlDigest(urls))
  {
    var urls := Distinct(rows);
    var r := Compact(env, rows, excluded, p).value;
    if NoHeadingIn(p.titles, urls) {
      BodyVerifiesAsPrinted(env, sc, before, rows, excluded, p, after);
      CompactReceiptVerifies(env, rows, excluded, p);
    } else {
      CitedHaveNoBlank(env, rows, excluded, p);
      HeadingFound(before, p.titles, urls, HEADING);
      BodySlice(env, sc, before, r, after);
      var front := before + HEADING + r.section;
      var rest := front[LastIndex(front, HEADING) + |HEADING|..];
      assert |HEADING| > 2;
      MisreadSection(env, rest, rows, excluded, p);
    }
  }

  lemma MisreadSection(env: Env, rest: string, rows: seq<string>, excluded: nat, p: Receipt)
    requires Sound(env) && Shortens(env) && Compact(env, rows, excluded, p).Ok? && Distinct(rows) != []
    requires |rest| + 2 < |Compact(env, rows, excluded, p).value.section|
    ensures var urls := Distinct(rows); var r := Compact(env, rows, excluded, p).value;
            Verify(env, Printed(rest, r.marker)) != Ok(Recovered(p, urls, Domains(env, urls)))
  {
    var urls := Distinct(rows);
    var read := ReadRows(env, Split(Trim(rest), '\n'));
    TooShortToReadBack(env, rest, p.titles, urls);
    CitedHaveNoBlank(env, rows, excluded, p);
    if read.Some? && UrlDigest(read.value.urls) == UrlDigest(urls) && |read.value.urls| == |urls| {
      ReadUrlsHaveHosts(env, Split(Trim(rest), '\n'));
      UrlDigestIsInjective(read.value.urls, urls);
    }
  }

  lemma {:induction false} ReadUrlsHaveHosts(env: Env, lines: seq<string>)
    requires Sound(env) && ReadRows(env, lines).Some?
    ensures forall i :: 0 <= i < |ReadRows(env, lines).value.urls| ==>
      env.host(ReadRows(env, lines).value.urls[i]).Some? && '\n' !in ReadRows(env, lines).value.urls[i]
  {
    if lines != [] { ReadUrlsHaveHosts(env, lines[..|lines| - 1]); }
  }

  /** What the provider says about one URL titled with the heading itself. */
  function HeadingTitled(u: string): Receipt {
    Receipt({u}, map[u := HEADING], 1, 1, 1, Of("response"), UrlDigest([u]), Audit(1, 1, UrlDigest([u])), true)
  }

  /** The URL's host is known, its title is left alone by cleaning, and the scanner finds the marker. */
  ghost predicate Readable(env: Env, sc: Scanner, u: string, before: string, after: string) {
    && Sound(env) && Shortens(env) && env.host(u).Some? && env.clean(HEADING) == HEADING
    && (Compact(env, [u], 0, HeadingTitled(u)).Ok? ==>
          Finds(sc, before, Compact(env, [u], 0, HeadingTitled(u)).value, after))
  }

  lemma TitledIsPrinted(env: Env, u: string)
    requires env.host(u).Some?
    ensures Compact(env, [u], 0, HeadingTitled(u)).Ok? && Distinct([u]) == [u]
  {
    hide UrlDigest, Section;
    assert [u][..0] == [] && Distinct([u]) == [u];
    DomainsAppend(env, [], u);
    assert [] + [u] == [u] && Domains(env, [u]) == {env.host(u).value};
  }

  lemma HeadingIsNormal(env: Env, u: string)
    requires env.clean(HEADING) == HEADING
    ensures ProviderOk(env, HeadingTitled(u)) && !NoHeadingIn(HeadingTitled(u).titles, [u])
  {
    assert Tidy(HEADING) && '\n' !in HEADING;
    assert Occurs(HEADING, HEADING, 0);
    assert u in [u] && Has(HeadingTitled(u).titles[u], HEADING);
  }

  /** Such a receipt verifies on its own, and does not read back from a body, whatever surrounds it. */
  lemma HeadingTitleIsMisread(env: Env, sc: Scanner, u: string, before: string, after: string)
    requires Readable(env, sc, u, before, after)
    ensures var r := Compact(env, [u], 0, HeadingTitled(u));
            r.Ok? && Verify(env, r.value).Ok?
                && VerifyBody(env, sc, before + ReceiptText(sc, r.value) + after) != Verify(env, r.value)
  {
    hide Compact, Verify, VerifyBody, Sound, Shortens;
    TitledIsPrinted(env, u);
    HeadingIsNormal(env, u);
    CompactReceiptVerifies(env, [u], 0, HeadingTitled(u));
    BodyReadsBackExactly(env, sc, before, [u], 0, HeadingTitled(u), after);
  }

  /** Such an environment and scanner exist. */
  lemma MisreadingExists()
    ensures exists env, sc, u, before, after :: Readable(env, sc, u, before, after)
  {
    var u := "u";
    var env := TwoHosts(u, u);
    TitledIsPrinted(env, u);
    var r := Compact(env, [u], 0, HeadingTitled(u)).value;
    assert Readable(env, FindsAlways(Match(|"" + HEADING + r.section|, r.marker)), u, "", "");
  }

  function FindsAlways(m: Match): Scanner { Scanner(x => "", s => [m]) }

  // ---- A receipt that was read before it is printed again -----------------------------------------

  /** Cleaning leaves what it would leave alone. */
  ghost predicate Cleans(env: Env) { forall t :: Normal(env, env.clean(t)) }

  /** The title read from the line stands in it. */
  ghost predicate StandsIn(env: Env, line: string) {
    var row := ReadRow(env, line);
    row.Cite? && row.title != "" ==> exists x, y :: line == x + row.title + y
  }

  /** Every title of a section stands in its line, as those do that were printed clean. */
  ghost predicate PrintedClean(env: Env, section: string) {
    forall i :: 0 <= i < |Split(Trim(section), '\n')| ==> StandsIn(env, Split(Trim(section), '\n')[i])
  }

  lemma HasWithin(x: string, y: string, z: string, d: string)
    requires Has(y, d)
    ensures Has(x + y + z, d)
  {
    var i: nat :| Occurs(y, d, i);
    var s := x + y + z;
    assert s[|x| + i..|x| + i + |d|] == y[i..i + |d|];
    assert Occurs(s, d, |x| + i);
  }

  lemma {:induction false} TrimLeftWithin(s: string) returns (x: string)
    ensures s == x + TrimLeft(s)
  {
    if s == "" || !IsSpace(s[0]) {
      x := "";
    } else {
      var rest := TrimLeftWithin(s[1..]);
      x := [s[0]] + rest;
    }
  }

  lemma {:induction false} TrimRightWithin(s: string) returns (y: string)
    ensures s == TrimRight(s) + y
  {
    if s == "" || !IsSpace(s[|s| - 1]) {
      y := "";
    } else {
      var rest := TrimRightWithin(s[..|s| - 1]);
      y := rest + [s[|s| - 1]];
    }
  }

  lemma HasTrimmed(s: string, d: string)
    requires Has(Trim(s), d)
    ensures Has(s, d)
  {
    hide Has, TrimLeft, TrimRight;
    var x := TrimLeftWithin(s);
    var y := TrimRightWithin(TrimLeft(s));
    HasWithin(x, Trim(s), y, d);
    assert x + (Trim(s) + y) == x + Trim(s) + y;
  }

  /** A title with the heading in it was read from a section with the heading in it. */
  lemma TitleInSection(env: Env, section: string, i: nat)
    requires i < |Split(Trim(section), '\n')| && StandsIn(env, Split(Trim(section), '\n')[i])
    requires var row := ReadRow(env, Split(Trim(section), '\n')[i]);
        row.Cite? && row.title != "" && Has(row.title, HEADING)
    ensures Has(section, HEADING)
  {
    var lines := Split(Trim(section), '\n');
    var title := ReadRow(env, lines[i]).title;
    var x, y :| lines[i] == x + title + y;
    HasWithin(x, title, y, HEADING);
    HeadingIsLike();
    JoinHas(lines, HEADING);
    JoinSplit(Trim(section), '\n');
    HasTrimmed(section, HEADING);
  }

  /** Every title comes from some line. */
  ghost predicate FromLines(env: Env, lines: seq<string>, titles: map<string, string>) {
    forall u :: u in titles ==>
      titles[u] != "" && exists i :: 0 <= i < |lines| && ReadRow(env, lines[i]) == Cite(u, titles[u])
  }

  lemma {:induction false} TitlesAreRead(env: Env, lines: seq<string>)
    ensures ReadRows(env, lines).Some? ==> FromLines(env, lines, ReadRows(env, lines).value.titles)
  {
    hide ReadRow;
    if lines != [] && ReadRows(env, lines).Some? {
      var front, last := lines[..|lines| - 1], lines[|lines| - 1];
      TitlesAreRead(env, front);
      var titles := ReadRows(env, lines).value.titles;
      forall u | u in titles
        ensures titles[u] != "" && exists i :: 0 <= i < |lines| && ReadRow(env, lines[i]) == Cite(u, titles[u])
      {
        if ReadRow(env, last) != Cite(u, titles[u]) {
          var i :| 0 <= i < |front| && ReadRow(env, front[i]) == Cite(u, titles[u]);
          assert lines[i] == front[i];
        }
      }
    }
  }

  /** What follows the last occurrence does not contain another. */
  lemma NothingAfterLast(front: string, d: string)
    requires d != "" && LastIndex(front, d) >= 0
    ensures !Has(front[LastIndex(front, d) + |d|..], d)
  {
    var n := LastIndex(front, d) + |d|;
    LastIndexIsLast(front, d);
    if i: nat :| Occurs(front[n..], d, i) {
      assert front[n..][i..i + |d|] == front[n + i..n + i + |d|];
      assert Occurs(front, d, n + i);
    }
  }

  /** The section the verifier reads from a body. */
  function SectionOf(sc: Scanner, body: string): string
    requires |sc.scan(body)| == 1 && sc.scan(body)[0].start <= |body|
    requires LastIndex(body[..sc.scan(body)[0].start], HEADING) >= 0
  {
    var start := sc.scan(body)[0].start;
    body[LastIndex(body[..start], HEADING) + |HEADING|..start]
  }

  ghost predicate ReadsClean(env: Env, sc: Scanner, body: string) {
    VerifyBody(env, sc, body).Ok? && PrintedClean(env, SectionOf(sc, body))
  }

  /** No title of a receipt that was read from a body contains the heading, when its titles were printed clean. */
  lemma ReadTitlesHaveNoHeading(env: Env, sc: Scanner, body: string, u: string)
    requires ReadsClean(env, sc, body) && u in VerifyBody(env, sc, body).value.titles
    ensures var t := VerifyBody(env, sc, body).value.titles[u]; t != "" && !Has(t, HEADING)
    ensures Cleans(env) ==> Normal(env, VerifyBody(env, sc, body).value.titles[u])
  {
    hide ReadRow, Has, Normal, StandsIn;
    var start := sc.scan(body)[0].start;
    var front, section := body[..start], SectionOf(sc, body);
    assert section == front[LastIndex(front, HEADING) + |HEADING|..];
    NothingAfterLast(front, HEADING);
    var lines, titles := Split(Trim(section), '\n'), VerifyBody(env, sc, body).value.titles;
    TitlesAreRead(env, lines);
    var i :| 0 <= i < |lines| && ReadRow(env, lines[i]) == Cite(u, titles[u]);
    if Has(titles[u], HEADING) { TitleInSection(env, section, i); }
    TitlesAreClean(env, lines[i]);
  }

  lemma TitlesAreClean(env: Env, line: string)
    requires ReadRow(env, line).Cite?
    ensures Cleans(env) ==> Normal(env, ReadRow(env, line).title)
  {
  }

  /** Verify, compact, verify: a receipt read from a body whose titles were printed clean, printed again into any
      body, reads back to what it says, unless the cited URLs are the provider's own in another order. */
  lemma ReprintedReadsBack(env: Env, sc: Scanner, body: string, before: string, rows: seq<string>, excluded: nat,
      after: string)
    requires Sound(env) && Shortens(env) && Cleans(env) && ReadsClean(env, sc, body)
    requires var p := VerifyBody(env, sc, body).value; Compact(env, rows, excluded, p).Ok?
    requires Finds(sc, before, Compact(env, rows, excluded, VerifyBody(env, sc, body).value).value, after)
    ensures var p := VerifyBody(env, sc, body).value; var urls := Distinct(rows);
            var r := Compact(env, rows, excluded, p).value;
            VerifyBody(env, sc, before + ReceiptText(sc, r) + after) == Ok(Recovered(p, urls, Domains(env, urls))) <==>
            !(p.provider.count == |urls| && p.provider.digest != UrlDigest(urls))
  {
    var p := VerifyBody(env, sc, body).value;
    hide Compact, Finds, Verify, Sound, Shortens, ReadsClean;
    forall u | u in p.titles ensures !Has(p.titles[u], HEADING) && Normal(env, p.titles[u]) {
      ReadTitlesHaveNoHeading(env, sc, body, u);
    }
    ReadProvider(env, sc, body);
    BodyReadsBackExactly(env, sc, before, rows, excluded, p, after);
  }

  /** The audit facts of a receipt that was read. */
  lemma ReadProvider(env: Env, sc: Scanner, body: string)
    requires VerifyBody(env, sc, body).Ok?
    ensures VerifyBody(env, sc, body).value.response != Zeros
        && VerifyBody(env, sc, body).value.provider.digest != Zeros
  {
  }

  /** A clean printed row is one whose title stands in it. */
  lemma PrintedRowsStand(env: Env, titles: map<string, string>, u: string)
    requires Sound(env) && env.host(u).Some? && NormalTitles(env, titles)
    ensures StandsIn(env, Line(titles, u))
  {
    hide ReadRow, Line, Sound, NormalTitles;
    LineReadsBack(env, titles, u);
    if u in titles && titles[u] != "" { LineHoldsTitle(titles, u); }
  }

  lemma LineHoldsTitle(titles: map<string, string>, u: string)
    requires u in titles && titles[u] != ""
    ensures Line(titles, u) == "- " + titles[u] + (DASH + u)
  {
  }
}
