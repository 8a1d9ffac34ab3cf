/**
 The citation receipt: a list of cited URLs with provider-owned titles, and a
 marker binding counts and digests. Digests are modelled as the digested text,
 the simplest injective hash; the marker as its fields.
*/
module CitationReceipt {
  import opened Common
  import opened Text

  datatype Error = Rejected

  datatype Digest = Of(text: string) | Zeros

  /** `host` is the bare-URL contract; `clean` squeezes and truncates a title. */
  datatype Env = Env(host: string -> Option<string>, clean: string -> string)

  /** A bare URL has no blanks, so it cannot be mistaken for a titled row. */
  ghost predicate Sound(env: Env) {
    forall u :: env.host(u).Some? ==> u != "" && Tidy(u) && ' ' !in u && '\n' !in u
  }

  datatype Audit = Audit(count: nat, domains: nat, digest: Digest)

  datatype Marker = Marker(count: nat, domains: nat, searches: nat, response: Digest, digest: Digest,
      audit: Option<Audit>)

  datatype Receipt = Receipt(
    urls: set<string>, titles: map<string, string>, count: nat, domains: nat, searches: nat,
    response: Digest, digest: Digest, provider: Audit, audited: bool)

  datatype Printed = Printed(section: string, marker: Marker)

  const DASH := " \U{2014} "

  function UrlDigest(urls: seq<string>): Digest { Of(Join(urls, "\n")) }

  function UrlSet(urls: seq<string>): set<string> { set u | u in urls }

  function Domains(env: Env, urls: seq<string>): set<string> {
    set i | 0 <= i < |urls| && env.host(urls[i]).Some? :: env.host(urls[i]).value
  }

  // ---- Printing -------------------------------------------------------------------------------

  function Distinct(rows: seq<string>): seq<string> {
    if rows == [] then []
    else
      var prior := Distinct(rows[..|rows| - 1]);
      if rows[|rows| - 1] in prior then prior else prior + [rows[|rows| - 1]]
  }

  ghost predicate AllDifferent(s: seq<string>) {
    forall i, j :: 0 <= i < |s| && 0 <= j < |s| && s[i] == s[j] ==> i == j
  }

  lemma OneMoreDifferent(s: seq<string>, x: string)
    requires AllDifferent(s) && x !in s
    ensures AllDifferent(s + [x])
  {
    var t := s + [x];
    forall i, j | 0 <= i < |t| && 0 <= j < |t| && t[i] == t[j] ensures i == j {
      assert i < |s| ==> t[i] in s;
      assert j < |s| ==> t[j] in s;
    }
  }

  lemma {:induction false} DistinctIsSet(rows: seq<string>)
    ensures AllDifferent(Distinct(rows)) && forall x :: x in Distinct(rows) <==> x in rows
  {
    if rows != [] {
      DistinctIsSet(rows[..|rows| - 1]);
      if rows[|rows| - 1] !in Distinct(rows[..|rows| - 1]) {
        OneMoreDifferent(Distinct(rows[..|rows| - 1]), rows[|rows| - 1]);
      }
      assert rows == rows[..|rows| - 1] + [rows[|rows| - 1]];
    }
  }

  function Line(titles: map<string, string>, u: string): string {
    if u in titles && titles[u] != "" then "- " + (titles[u] + DASH + u) else "- " + u
  }

  function LinesOf(titles: map<string, string>, urls: seq<string>): seq<string> {
    seq(|urls|, i requires 0 <= i < |urls| => Line(titles, urls[i]))
  }

  predicate Citable(env: Env, rows: seq<string>, p: Receipt) {
    forall i :: 0 <= i < |rows| ==> env.host(rows[i]).Some? && rows[i] in p.urls
  }

  predicate Enough(p: Receipt, urls: seq<string>, domains: set<string>, excluded: nat) {
    && p.searches >= 1 && p.provider.count >= Max(1, |urls|) && p.provider.domains >= Max(1, |domains|)
    && (urls != [] || excluded > 0)
  }

  function Section(titles: map<string, string>, urls: seq<string>): string {
    if urls == [] then "\n" else "\n" + Join(LinesOf(titles, urls), "\n") + "\n"
  }

  function MarkerOf(p: Receipt, urls: seq<string>, domains: set<string>): Marker {
    Marker(|urls|, |domains|, p.searches, p.response, UrlDigest(urls), Some(p.provider))
  }

  /** The receipt of the evidence rows' distinct URLs, under the provider's audit facts. */
  function Compact(env: Env, rows: seq<string>, excluded: nat, p: Receipt): Result<Printed, Error> {
    var urls := Distinct(rows);
    if !Citable(env, rows, p) || !Enough(p, urls, Domains(env, urls), excluded) then Err(Rejected)
    else Ok(Printed(Section(p.titles, urls), MarkerOf(p, urls, Domains(env, urls))))
  }

  lemma DomainsAppend(env: Env, urls: seq<string>, u: string)
    requires env.host(u).Some?
    ensures Domains(env, urls + [u]) == Domains(env, urls) + {env.host(u).value}
  {
    var all := urls + [u];
    assert forall i :: 0 <= i < |urls| ==> all[i] == urls[i];
    assert all[|urls|] == u;
  }

  /** The printing loop. */
  method CompactReceipt(env: Env, rows: seq<string>, excluded: nat, p: Receipt) returns (r: Result<Printed, Error>)
    ensures r == Compact(env, rows, excluded, p)
  {
    var lines: seq<string>, urls: seq<string> := [], [];
    var domains: set<string>, seen: set<string> := {}, {};
    for i := 0 to |rows|
      invariant Citable(env, rows[..i], p)
      invariant urls == Distinct(rows[..i]) && lines == LinesOf(p.titles, urls)
      invariant domains == Domains(env, urls) && forall x :: x in seen <==> x in urls
    {
      var rawURL := rows[i];
      assert rows[..i + 1][..i] == rows[..i];
      var host := env.host(rawURL);
      if host.None? || rawURL !in p.urls { return Err(Rejected); }
      if rawURL in seen { continue; }
      DomainsAppend(env, urls, rawURL);
      seen := seen + {rawURL};
      lines := lines + [Line(p.titles, rawURL)];
      urls := urls + [rawURL];
      domains := domains + {host.value};
    }
    assert rows[..|rows|] == rows;
    if !Enough(p, urls, domains, excluded) { return Err(Rejected); }
    var section := if urls == [] then "\n" else "\n" + Join(lines, "\n") + "\n";
    return Ok(Printed(section, MarkerOf(p, urls, domains)));
  }

  // ---- Reading rows -------------------------------------------------------------------------------

  /** Where the last occurrence of d starts, or -1. */
  function LastIndex(s: string, d: string): (r: int)
    ensures r == -1 || (0 <= r <= |s| - |d| && s[r..r + |d|] == d)
  {
    if |s| < |d| then -1
    else if s[|s| - |d|..] == d then |s| - |d|
    else if s == "" then -1
    else
      var r := LastIndex(s[..|s| - 1], d);
      assert r >= 0 ==> s[..|s| - 1][r..r + |d|] == s[r..r + |d|];
      r
  }

  datatype Row = Bad | Blank | Cite(url: string, title: string)

  function ReadRow(env: Env, text: string): Row {
    var line := Trim(text);
    if line == "" then Blank
    else if !("- " <= line) then Bad
    else
      var source := Trim(line[2..]);
      if env.host(source).Some? then Cite(source, "")
      else
        var k := LastIndex(source, DASH);
        if k >= 0 && env.host(source[k + |DASH|..]).Some? then Cite(source[k + |DASH|..], env.clean(source[..k]))
            else Bad
  }

  datatype Rows = Rows(urls: seq<string>, titles: map<string, string>)

  function ReadRows(env: Env, lines: seq<string>): Option<Rows> {
    if lines == [] then Some(Rows([], map[]))
    else
      var prior := ReadRows(env, lines[..|lines| - 1]);
      if prior.None? then None
      else
        match ReadRow(env, lines[|lines| - 1])
        case Blank => prior
        case Bad => None
        case Cite(u, t) =>
          if u in prior.value.urls then None
          else Some(Rows(prior.value.urls + [u], if t == "" then prior.value.titles else prior.value.titles[u := t]))
  }

  function ProviderOf(m: Marker, digest: Digest): Audit {
    if m.audit.Some? then m.audit.value else Audit(m.count, m.domains, digest)
  }

  predicate MarkerFits(m: Marker, urls: seq<string>, domains: set<string>) {
    var p := ProviderOf(m, UrlDigest(urls));
    && m.count == |urls| && m.domains == |domains| && m.searches >= 1 && m.response != Zeros
    && m.digest == UrlDigest(urls)
    && p.count >= m.count && p.domains >= m.domains && p.count >= 1 && p.domains >= 1 && p.digest != Zeros
    && (p.count == m.count ==> p.digest == UrlDigest(urls))
  }

  function Verify(env: Env, r: Printed): Result<Receipt, Error> {
    match ReadRows(env, Split(Trim(r.section), '\n'))
    case None => Err(Rejected)
    case Some(rows) =>
      if !MarkerFits(r.marker, rows.urls, Domains(env, rows.urls)) then Err(Rejected)
      else Ok(Receipt(UrlSet(rows.urls), rows.titles, r.marker.count, r.marker.domains, r.marker.searches,
                      r.marker.response, UrlDigest(rows.urls), ProviderOf(r.marker, UrlDigest(rows.urls)),
                      r.marker.audit.Some?))
  }

  lemma ReadRowsMore(env: Env, lines: seq<string>, i: nat)
    requires i < |lines| && ReadRows(env, lines[..i]).None?
    ensures ReadRows(env, lines).None?
    decreases |lines|
  {
    if i == |lines| - 1 { assert lines[..|lines| - 1] == lines[..i]; }
    else {
      assert lines[..|lines| - 1][..i] == lines[..i];
      ReadRowsMore(env, lines[..|lines| - 1], i);
    }
  }

  lemma ReadRowsStep(env: Env, lines: seq<string>, i: nat)
    requires i < |lines|
    ensures lines[..i + 1][..i] == lines[..i]
    ensures ReadRows(env, lines[..i + 1]).None? ==> ReadRows(env, lines).None?
  {
    assert lines[..i + 1][..i] == lines[..i];
    if i + 1 < |lines| {
      if ReadRows(env, lines[..i + 1]).None? { ReadRowsMore(env, lines, i + 1); }
    } else {
      assert lines[..i + 1] == lines;
    }
  }

  /** The verifying loop. */
  method VerifyReceipt(env: Env, printed: Printed) returns (r: Result<Receipt, Error>)
    ensures r == Verify(env, printed)
  {
    var lines := Split(Trim(printed.section), '\n');
    var urls: seq<string>, titles: map<string, string> := [], map[];
    var domains: set<string> := {};
    for i := 0 to |lines|
      invariant ReadRows(env, lines[..i]) == Some(Rows(urls, titles))
      invariant domains == Domains(env, urls)
    {
      ReadRowsStep(env, lines, i);
      var row := ReadRow(env, lines[i]);
      match row
      case Blank =>
      case Bad => return Err(Rejected);
      case Cite(u, t) =>
        if u in urls { return Err(Rejected); }
        DomainsAppend(env, urls, u);
        if t != "" { titles := titles[u := t]; }
        urls := urls + [u];
        domains := domains + {env.host(u).value};
    }
    assert lines[..|lines|] == lines;
    var m := printed.marker;
    if !MarkerFits(m, urls, domains) { return Err(Rejected); }
    return Ok(Receipt(UrlSet(urls), titles, m.count, m.domains, m.searches, m.response, UrlDigest(urls),
        ProviderOf(m, UrlDigest(urls)), m.audit.Some?));
  }

  // ---- Reading back what was printed ------------------------------------------------------------------

  /** A title as the verifier itself leaves it. */
  ghost predicate Normal(env: Env, t: string) { t == "" || (Tidy(t) && '\n' !in t && env.clean(t) == t) }

  ghost predicate NormalTitles(env: Env, titles: map<string, string>) {
    forall u :: u in titles ==> Normal(env, titles[u])
  }

  lemma {:induction false} LastOf(title: string, d: string, url: string)
    requires |d| == 3 && d[2] == ' ' && ' ' !in url
    ensures LastIndex(title + d + url, d) == |title|
  {
    var s := title + d + url;
    if url == "" {
      assert s[|s| - 3..] == d;
    } else {
      assert url[|url| - 1] in url;
      assert s[|s| - 3..][2] == url[|url| - 1];
      assert s[..|s| - 1] == title + d + url[..|url| - 1];
      LastOf(title, d, url[..|url| - 1]);
    }
  }

  lemma BareRowReadsBack(env: Env, u: string)
    requires Sound(env) && env.host(u).Some?
    ensures ReadRow(env, "- " + u) == Cite(u, "")
  {
    var line := "- " + u;
    TidyIsTrimmed(line);
    assert line[2..] == u;
    TidyIsTrimmed(u);
  }

  lemma TitledSource(env: Env, t: string, d: string, u: string)
    requires Sound(env) && env.host(u).Some? && t != "" && Tidy(t) && |d| == 3 && d[0] == ' ' && d[2] == ' '
    ensures var source := t + d + u;
            && Trim(source) == source && env.host(source).None? && LastIndex(source, d) == |t|
            && source[|t| + 3..] == u && source[..|t|] == t
  {
    var source := t + d + u;
    TidyIsTrimmed(source);
    assert source[|t|] == d[0] == ' ';
    LastOf(t, d, u);
  }

  lemma BulletLine(source: string)
    requires source != "" && Tidy(source)
    ensures var line := "- " + source; Trim(line) == line && line[2..] == source && "- " <= line
  {
    TidyIsTrimmed("- " + source);
  }

  lemma TitledRowReadsBack(env: Env, t: string, u: string)
    requires Sound(env) && env.host(u).Some? && t != "" && Normal(env, t)
    ensures ReadRow(env, "- " + (t + DASH + u)) == Cite(u, t)
  {
    var d := DASH;
    var source := t + d + u;
    TitledSource(env, t, d, u);
    BulletLine(source);
    ReadTitled(env, "- " + source, source, |t|, u);
  }

  lemma ReadTitled(env: Env, line: string, source: string, k: nat, u: string)
    requires line != "" && Trim(line) == line && "- " <= line && Trim(line[2..]) == source && env.host(source).None?
    requires LastIndex(source, DASH) == k && source[k + |DASH|..] == u && env.host(u).Some?
    ensures ReadRow(env, line) == Cite(u, env.clean(source[..k]))
  {
  }

  lemma LineIsPlain(env: Env, t: string, u: string)
    requires Sound(env) && env.host(u).Some? && Normal(env, t)
    ensures Plain("- " + u) && Plain("- " + (t + DASH + u))
  {
    assert '\n' !in DASH;
  }

  ghost predicate Plain(line: string) { '\n' !in line && Tidy(line) && line != "" }

  /** A printed row reads back as its URL and title. */
  lemma LineReadsBack(env: Env, titles: map<string, string>, u: string)
    requires Sound(env) && env.host(u).Some? && NormalTitles(env, titles)
    ensures ReadRow(env, Line(titles, u)) == Cite(u, if u in titles then titles[u] else "")
    ensures Plain(Line(titles, u))
  {
    if u in titles && titles[u] != "" {
      TitledRowReadsBack(env, titles[u], u);
      LineIsPlain(env, titles[u], u);
    } else {
      BareRowReadsBack(env, u);
      LineIsPlain(env, "", u);
    }
  }

  /** The titles of the cited URLs. */
  function CitedTitles(titles: map<string, string>, urls: seq<string>): map<string, string> {
    map u | u in urls && u in titles && titles[u] != "" :: titles[u]
  }

  lemma {:induction false} LinesReadBack(env: Env, titles: map<string, string>, urls: seq<string>)
    requires Sound(env) && NormalTitles(env, titles)
    requires forall i :: 0 <= i < |urls| ==> env.host(urls[i]).Some?
    requires AllDifferent(urls)
    ensures ReadRows(env, LinesOf(titles, urls)) == Some(Rows(urls, CitedTitles(titles, urls)))
  {
    if urls != [] {
      var front, u := urls[..|urls| - 1], urls[|urls| - 1];
      assert urls == front + [u] && u !in front;
      LinesReadBack(env, titles, front);
      LineReadsBack(env, titles, u);
      assert LinesOf(titles, urls) == LinesOf(titles, front) + [Line(titles, u)];
      ReadRowsSnoc(env, LinesOf(titles, front), Line(titles, u), Rows(front, CitedTitles(titles, front)), u,
                   if u in titles then titles[u] else "");
      TitlesSnoc(titles, front, u);
    }
  }

  lemma ReadRowsSnoc(env: Env, lines: seq<string>, line: string, rows: Rows, u: string, t: string)
    requires ReadRows(env, lines) == Some(rows) && ReadRow(env, line) == Cite(u, t) && u !in rows.urls
    ensures ReadRows(env, lines + [line]) ==
        Some(Rows(rows.urls + [u], if t == "" then rows.titles else rows.titles[u := t]))
  {
    assert (lines + [line])[..|lines|] == lines;
  }

  lemma TitlesSnoc(titles: map<string, string>, urls: seq<string>, u: string)
    ensures CitedTitles(titles, urls + [u]) ==
            if u in titles && titles[u] != "" then CitedTitles(titles, urls)[u := titles[u]]
                else CitedTitles(titles, urls)
  {
  }

  lemma {:induction false} JoinedIsTidy(lines: seq<string>)
    requires lines != [] && forall i :: 0 <= i < |lines| ==> Tidy(lines[i]) && lines[i] != ""
    ensures Tidy(Join(lines, "\n")) && Join(lines, "\n") != ""
  {
    if |lines| > 1 { JoinedIsTidy(lines[1..]); }
  }

  lemma TrimBreaks(s: string)
    requires Tidy(s)
    ensures Trim("\n" + s + "\n") == s
  {
    var t := "\n" + s + "\n";
    assert t[1..] == s + "\n";
    if s == "" {
      assert t[1..] == "\n" && t[1..][1..] == "";
      assert TrimLeft(t) == TrimLeft(t[1..]) == TrimLeft(t[1..][1..]) == "";
    } else {
      var u := s + "\n";
      assert TrimLeft(t) == TrimLeft(u) == u;
      assert u[..|u| - 1] == s && TrimRight(u) == TrimRight(s) == s;
    }
  }

  lemma SectionReadsBack(env: Env, titles: map<string, string>, urls: seq<string>)
    requires Sound(env) && NormalTitles(env, titles)
    requires forall i :: 0 <= i < |urls| ==> env.host(urls[i]).Some?
    requires AllDifferent(urls)
    ensures ReadRows(env, Split(Trim(Section(titles, urls)), '\n')) == Some(Rows(urls, CitedTitles(titles, urls)))
  {
    var lines := LinesOf(titles, urls);
    if urls == [] {
      assert "\n"[1..] == "" && Trim("\n") == "";
      assert [""][..0] == [];
      assert ReadRows(env, [""]) == ReadRows(env, [""][..0]);
    } else {
      forall i | 0 <= i < |lines| ensures Plain(lines[i]) { LineReadsBack(env, titles, urls[i]); }
      JoinedIsTidy(lines);
      TrimBreaks(Join(lines, "\n"));
      SplitJoin(lines, '\n');
      LinesReadBack(env, titles, urls);
    }
  }

  /** What a compact receipt says about the provider. */
  function Recovered(p: Receipt, urls: seq<string>, domains: set<string>): Receipt {
    Receipt(UrlSet(urls), CitedTitles(p.titles, urls), |urls|, |domains|, p.searches, p.response, UrlDigest(urls),
        p.provider, true)
  }

  ghost predicate ProviderOk(env: Env, p: Receipt) {
    p.response != Zeros && p.provider.digest != Zeros && NormalTitles(env, p.titles)
  }

  /** The verifier accepts every compact receipt and recovers its URL set, titles, counts and digests, except
      exactly when as many URLs are cited as the provider returned under a different digest. */
  lemma CompactReceiptVerifies(env: Env, rows: seq<string>, excluded: nat, p: Receipt)
    requires Sound(env) && ProviderOk(env, p) && Compact(env, rows, excluded, p).Ok?
    ensures var urls := Distinct(rows);
            Verify(env, Compact(env, rows, excluded, p).value) ==
            if p.provider.count == |urls| && p.provider.digest != UrlDigest(urls) then Err(Rejected)
            else Ok(Recovered(p, urls, Domains(env, urls)))
  {
    var urls := Distinct(rows);
    DistinctIsSet(rows);
    forall i | 0 <= i < |urls| ensures env.host(urls[i]).Some? {
      assert urls[i] in rows;
      var k :| 0 <= k < |rows| && rows[k] == urls[i];
    }
    SectionReadsBack(env, p.titles, urls);
  }

  lemma UrlDigestIsInjective(x: seq<string>, y: seq<string>)
    requires x != [] && y != [] && UrlDigest(x) == UrlDigest(y)
    requires (forall i :: 0 <= i < |x| ==> '\n' !in x[i]) && (forall i :: 0 <= i < |y| ==> '\n' !in y[i])
    ensures x == y
  {
    SplitJoin(x, '\n');
    SplitJoin(y, '\n');
  }

  /** For a provider that returned the URLs `all`, in that order: the receipt is rejected exactly when every
      one of them is cited, in another order. */
  lemma OnlyReorderedFullCitationIsRejected(env: Env, rows: seq<string>, excluded: nat, p: Receipt, all: seq<string>)
    requires Sound(env) && ProviderOk(env, p) && Compact(env, rows, excluded, p).Ok?
    requires all != [] && p.urls == UrlSet(all) && p.provider.count == |all| && p.provider.digest == UrlDigest(all)
    requires forall i :: 0 <= i < |all| ==> env.host(all[i]).Some?
    requires AllDifferent(all)
    ensures Verify(env, Compact(env, rows, excluded, p).value).Err? <==>
            UrlSet(rows) == p.urls && Distinct(rows) != all
  {
    var urls := Distinct(rows);
    CompactReceiptVerifies(env, rows, excluded, p);
    DistinctIsSet(rows);
    forall i | 0 <= i < |rows| ensures rows[i] in all { assert rows[i] in p.urls; }
    DistinctSize(urls);
    DistinctSize(all);
    var used := UrlSet(urls);
    assert used == UrlSet(rows) && used <= p.urls;
    if |urls| == |all| {
      SubsetOfEqualSize(used, p.urls);
      if UrlDigest(urls) == UrlDigest(all) {
        forall i | 0 <= i < |urls| ensures '\n' !in urls[i] {
          assert urls[i] in rows;
          assert urls[i] in all;
        }
        UrlDigestIsInjective(urls, all);
      }
    }
  }

  /** What the provider says about exactly these URLs. */
  function FullReceipt(env: Env, all: seq<string>, searches: nat, response: Digest): Receipt {
    var n := |Domains(env, all)|;
    Receipt(UrlSet(all), map[], |all|, n, searches, response, UrlDigest(all), Audit(|all|, n, UrlDigest(all)), true)
  }

  /** Two URLs cited in the order the provider returned them verify; the same two the other way round are
      printed without complaint and then rejected. */
  lemma SwappedCitationsAreRejected(env: Env, x: string, y: string, searches: nat, response: Digest)
    requires Sound(env) && env.host(x).Some? && env.host(y).Some? && x != y && searches >= 1 && response != Zeros
    ensures var p := FullReceipt(env, [x, y], searches, response);
            && Compact(env, [x, y], 0, p).Ok? && Verify(env, Compact(env, [x, y], 0, p).value).Ok?
            && Compact(env, [y, x], 0, p).Ok? && Verify(env, Compact(env, [y, x], 0, p).value).Err?
  {
    var p := FullReceipt(env, [x, y], searches, response);
    PairIsCited(env, x, y, x, y, searches, response);
    PairIsCited(env, x, y, y, x, searches, response);
    OnlyReorderedFullCitationIsRejected(env, [x, y], 0, p, [x, y]);
    OnlyReorderedFullCitationIsRejected(env, [y, x], 0, p, [x, y]);
    assert [y, x][0] != [x, y][0];
  }

  lemma PairIsCited(env: Env, x: string, y: string, a: string, b: string, searches: nat, response: Digest)
    requires env.host(x).Some? && env.host(y).Some? && x != y && searches >= 1
    requires (a == x && b == y) || (a == y && b == x)
    ensures Distinct([a, b]) == [a, b] && UrlSet([a, b]) == UrlSet([x, y])
    ensures Compact(env, [a, b], 0, FullReceipt(env, [x, y], searches, response)).Ok?
  {
    hide UrlDigest, Domains, Section;
    PairIsDistinct(a, b);
    PairDomains(env, x, y);
    PairDomains(env, a, b);
  }

  lemma PairIsDistinct(a: string, b: string)
    requires a != b
    ensures Distinct([a, b]) == [a, b]
  {
    assert [a, b][..1] == [a] && [a][..0] == [];
    assert Distinct([a]) == [a];
  }

  lemma PairDomains(env: Env, x: string, y: string)
    requires env.host(x).Some? && env.host(y).Some?
    ensures Domains(env, [x, y]) == {env.host(x).value, env.host(y).value} && |Domains(env, [x, y])| >= 1
  {
    DomainsAppend(env, [], x);
    DomainsAppend(env, [x], y);
    assert [] + [x] == [x] && [x] + [y] == [x, y];
    assert |Domains(env, [x, y]) - {env.host(x).value}| >= 0;
  }

  /** Such an environment exists. */
  lemma SwappableCitationsExist()
    ensures exists env: Env, x, y :: Sound(env) && env.host(x).Some? && env.host(y).Some? && x != y
  {
    var x, y := "u", "vv";
    assert |x| != |y|;
    var env := TwoHosts(x, y);
    assert Sound(env) && env.host(x).Some? && env.host(y).Some?;
  }

  function TwoHosts(x: string, y: string): Env {
    Env(u => if u == x || u == y then Some(u) else None, t => t)
  }

  lemma {:induction false} DistinctSize(s: seq<string>)
    requires AllDifferent(s)
    ensures |UrlSet(s)| == |s|
  {
    if s != [] {
      var n := |s| - 1;
      DistinctSize(s[..n]);
      assert s == s[..n] + [s[n]];
      assert s[n] !in s[..n];
      assert UrlSet(s) == UrlSet(s[..n]) + {s[n]};
    }
  }

  lemma SubsetOfEqualSize(x: set<string>, y: set<string>)
    requires x <= y && |x| == |y|
    ensures x == y
  {
    assert |y - x| == 0;
  }
}
