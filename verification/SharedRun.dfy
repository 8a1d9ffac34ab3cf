/**
 Grounding an answer in messages: the longest run of words the answer shares with
 each message, by two rows of a table that are swapped and cleared, and the
 citations drawn from those runs.
*/
module SharedRun {
  import opened Common

  type Words = seq<string>

  // ---- The longest shared run ---------------------------------------------------------------

  /** The words before answer position i and before message position j agree for n words back. */
  predicate Shared(answer: Words, message: Words, i: nat, j: nat, n: nat) {
    n <= i <= |answer| && n <= j <= |message| && answer[i - n..i] == message[j - n..j]
  }

  /** How far back they agree: one cell of the table. */
  function Back(answer: Words, message: Words, i: nat, j: nat): (n: nat)
    requires i <= |answer| && j <= |message|
    ensures n <= i && n <= j
  {
    if i == 0 || j == 0 || answer[i - 1] != message[j - 1] then 0 else Back(answer, message, i - 1, j - 1) + 1
  }

  lemma {:induction false} BackIsLongest(answer: Words, message: Words, i: nat, j: nat, n: nat)
    requires i <= |answer| && j <= |message|
    ensures Shared(answer, message, i, j, n) <==> n <= Back(answer, message, i, j)
  {
    if n > 0 && i > 0 && j > 0 {
      if answer[i - 1] == message[j - 1] {
        BackIsLongest(answer, message, i - 1, j - 1, n - 1);
        if n <= i && n <= j {
          assert answer[i - n..i] == answer[i - n..i - 1] + [answer[i - 1]];
          assert message[j - n..j] == message[j - n..j - 1] + [message[j - 1]];
          if answer[i - n..i] == message[j - n..j] {
            assert answer[i - n..i - 1] == answer[i - n..i][..n - 1] == message[j - n..j][..n - 1] ==
                message[j - n..j - 1];
          }
        }
      } else if n <= i && n <= j {
        assert answer[i - n..i][n - 1] != message[j - n..j][n - 1];
      }
    }
  }

  /** A run of n words ending at answer position e: shared, as long as any shared run, and ending before
      any other of that length. */
  ghost predicate Best(answer: Words, message: Words, e: nat, n: nat) {
    && (exists j: nat :: Shared(answer, message, e, j, n))
    && (forall i: nat, j: nat, m: nat :: Shared(answer, message, i, j, m) ==> m <= n)
    && (forall i: nat, j: nat :: Shared(answer, message, i, j, n) && n > 0 ==> e <= i)
    && (n == 0 ==> e == 0)
  }

  lemma BestIsUnique(answer: Words, message: Words, e: nat, n: nat, e': nat, n': nat)
    requires Best(answer, message, e, n) && Best(answer, message, e', n')
    ensures e == e' && n == n'
  {
  }

  /** Every cell in the first i - 1 rows, and in the first j cells of row i, is accounted for by (len, end). */
  ghost predicate Seen(answer: Words, message: Words, i: nat, j: nat, len: nat, end: nat)
    requires i <= |answer| && j <= |message|
  {
    && end <= i && len <= end && (len == 0 <==> end == 0)
    && (len > 0 ==> exists q: nat :: q <= |message| && Back(answer, message, end, q) == len)
    && (forall p: nat, q: nat :: (p < i && q <= |message|) || (p == i && q <= j) ==>
          Back(answer, message, p, q) <= len && (Back(answer, message, p, q) == len > 0 ==> end <= p))
  }

  lemma SeenOneMore(answer: Words, message: Words, i: nat, j: nat, len: nat, end: nat)
    requires 0 < i <= |answer| && 0 < j <= |message| && Seen(answer, message, i, j - 1, len, end)
    ensures var n := Back(answer, message, i, j);
            if n > len then Seen(answer, message, i, j, n, i) else Seen(answer, message, i, j, len, end)
  {
  }

  lemma SeenAll(answer: Words, message: Words, len: nat, end: nat)
    requires Seen(answer, message, |answer|, |message|, len, end)
    ensures Best(answer, message, end, len)
  {
    if len > 0 {
      var q: nat :| q <= |message| && Back(answer, message, end, q) == len;
      BackIsLongest(answer, message, end, q, len);
    } else {
      assert Shared(answer, message, 0, 0, 0);
    }
    forall i: nat, j: nat, m: nat | Shared(answer, message, i, j, m) ensures m <= len && (m == len > 0 ==> end <= i) {
      BackIsLongest(answer, message, i, j, m);
    }
  }

  function ContentWords(stop: set<string>, words: Words): nat {
    if words == [] then 0 else ContentWords(stop, words[..|words| - 1]) + if words[|words| - 1] in stop then 0 else 1
  }

  method CountContentWords(stop: set<string>, words: Words) returns (count: nat)
    ensures count == ContentWords(stop, words)
  {
    count := 0;
    for i := 0 to |words|
      invariant count == ContentWords(stop, words[..i])
    {
      assert words[..i + 1][..i] == words[..i];
      if words[i] !in stop { count := count + 1; }
    }
    assert words[..|words|] == words;
  }

  /** One row of the table, from the row above it. */
  method FillRow(answer: Words, message: Words, i: nat, previous: array<nat>, current: array<nat>, len: nat, end: nat)
    returns (bestLen: nat, bestEnd: nat)
    requires 0 < i <= |answer| && previous != current && previous.Length == current.Length == |message| + 1
    requires forall q :: 0 <= q <= |message| ==> previous[q] == Back(answer, message, i - 1, q)
    requires current[0] == 0 && Seen(answer, message, i, 0, len, end)
    modifies current
    ensures forall q :: 0 <= q <= |message| ==> current[q] == Back(answer, message, i, q)
    ensures Seen(answer, message, i, |message|, bestLen, bestEnd)
  {
    bestLen, bestEnd := len, end;
    for j := 1 to |message| + 1
      invariant forall q :: 0 <= q < j ==> current[q] == Back(answer, message, i, q)
      invariant Seen(answer, message, i, j - 1, bestLen, bestEnd)
    {
      SeenOneMore(answer, message, i, j, bestLen, bestEnd);
      if answer[i - 1] == message[j - 1] {
        current[j] := previous[j - 1] + 1;
        if current[j] > bestLen {
          bestLen := current[j];
          bestEnd := i;
        }
      } else {
        current[j] := 0;
      }
    }
  }

  method Clear(row: array<nat>)
    modifies row
    ensures forall k :: 0 <= k < row.Length ==> row[k] == 0
  {
    for k := 0 to row.Length
      invariant forall m :: 0 <= m < k ==> row[m] == 0
    {
      row[k] := 0;
    }
  }

  /** The longest run of words in both lists, the earliest in the answer among the longest. */
  method LongestSharedRun(stop: set<string>, answer: Words, message: Words) returns (run: Words, content: nat)
    ensures run == BestRun(answer, message)
    ensures content == ContentWords(stop, run)
  {
    if |answer| == 0 || |message| == 0 {
      EmptyBest(answer, message);
      return [], 0;
    }
    var previous := new nat[|message| + 1](_ => 0);
    var current := new nat[|message| + 1](_ => 0);
    var bestLen: nat, bestEnd: nat := 0, 0;
    for i := 1 to |answer| + 1
      invariant previous != current && previous.Length == current.Length == |message| + 1
      invariant fresh(previous) && fresh(current)
      invariant forall q :: 0 <= q <= |message| ==> previous[q] == Back(answer, message, i - 1, q)
      invariant forall q :: 0 <= q <= |message| ==> current[q] == 0
      invariant Seen(answer, message, i - 1, |message|, bestLen, bestEnd)
    {
      NextRow(answer, message, i, bestLen, bestEnd);
      bestLen, bestEnd := FillRow(answer, message, i, previous, current, bestLen, bestEnd);
      previous, current := current, previous;
      Clear(current);
    }
    SeenAll(answer, message, bestLen, bestEnd);
    BestRunIs(answer, message, bestEnd, bestLen);
    if bestLen == 0 { return [], 0; }
    run := answer[bestEnd - bestLen..bestEnd];
    content := CountContentWords(stop, run);
  }

  lemma NextRow(answer: Words, message: Words, i: nat, len: nat, end: nat)
    requires 0 < i <= |answer| && Seen(answer, message, i - 1, |message|, len, end)
    ensures Seen(answer, message, i, 0, len, end)
  {
  }

  lemma EmptyBest(answer: Words, message: Words)
    requires answer == [] || message == []
    ensures BestRun(answer, message) == []
  {
    assert Shared(answer, message, 0, 0, 0);
    assert Best(answer, message, 0, 0);
    BestRunIs(answer, message, 0, 0);
  }

  /** Length and end of the best run among the first i rows, the last of them up to cell j. */
  function Scan(answer: Words, message: Words, i: nat, j: nat): (r: (nat, nat))
    requires i <= |answer| && j <= |message|
    ensures r.0 <= r.1 <= i
    decreases i, j
  {
    if i == 0 then (0, 0)
    else if j == 0 then Scan(answer, message, i - 1, |message|)
    else if Back(answer, message, i, j) > Scan(answer, message, i, j - 1).0 then (Back(answer, message, i, j), i)
    else Scan(answer, message, i, j - 1)
  }

  /** The longest shared run, the earliest in the answer among the longest. */
  function BestRun(answer: Words, message: Words): Words {
    var (len, end) := Scan(answer, message, |answer|, |message|);
    answer[end - len..end]
  }

  lemma {:induction false} ScanIsSeen(answer: Words, message: Words, i: nat, j: nat)
    requires i <= |answer| && j <= |message| && (i == 0 ==> j == |message|)
    ensures Seen(answer, message, i, j, Scan(answer, message, i, j).0, Scan(answer, message, i, j).1)
    decreases i, j
  {
    if i > 0 {
      if j == 0 {
        ScanIsSeen(answer, message, i - 1, |message|);
        NextRow(answer, message, i, Scan(answer, message, i, j).0, Scan(answer, message, i, j).1);
      } else {
        ScanIsSeen(answer, message, i, j - 1);
        SeenOneMore(answer, message, i, j, Scan(answer, message, i, j - 1).0, Scan(answer, message, i, j - 1).1);
      }
    }
  }

  lemma BestExists(answer: Words, message: Words)
    ensures var (len, end) := Scan(answer, message, |answer|, |message|); Best(answer, message, end, len)
  {
    ScanIsSeen(answer, message, |answer|, |message|);
    SeenAll(answer, message, Scan(answer, message, |answer|, |message|).0,
        Scan(answer, message, |answer|, |message|).1);
  }

  /** Being best picks out one run. */
  lemma BestRunIs(answer: Words, message: Words, e: nat, n: nat)
    requires Best(answer, message, e, n)
    ensures n <= e <= |answer| && BestRun(answer, message) == answer[e - n..e]
  {
    BestExists(answer, message);
    var (len, end) := Scan(answer, message, |answer|, |message|);
    BestIsUnique(answer, message, e, n, end, len);
  }

  /** A contiguous run of both lists. */
  ghost predicate IsShared(answer: Words, message: Words, run: Words) {
    exists i: nat, j: nat :: Shared(answer, message, i, j, |run|) && answer[i - |run|..i] == run
  }

  /** The run is contiguous in both lists and no run contiguous in both is longer. */
  lemma BestRunIsLongest(answer: Words, message: Words, other: Words)
    ensures IsShared(answer, message, BestRun(answer, message))
    ensures IsShared(answer, message, other) ==> |other| <= |BestRun(answer, message)|
  {
    BestExists(answer, message);
    var (n, e) := Scan(answer, message, |answer|, |message|);
    var j: nat :| Shared(answer, message, e, j, n);
    assert |BestRun(answer, message)| == n;
  }

  // ---- Citations ---------------------------------------------------------------------------------

  datatype Message = Message(id: string, author: string, role: string, words: Words)

  datatype Source = Source(messageId: string, author: string, quote: Words)

  datatype Candidate = Candidate(source: Source, strength: nat)

  const MIN_CONTENT_WORDS: nat := 3

  predicate Citable(m: Message) {
    m.role != "scout" && m.role != "assistant" && m.role != "error" && m.words != []
  }

  predicate Evidence(stop: set<string>, answer: Words, m: Message) {
    Citable(m) && ContentWords(stop, BestRun(answer, m.words)) >= MIN_CONTENT_WORDS
  }

  function CandidateOf(stop: set<string>, answer: Words, m: Message): Candidate {
    Candidate(Source(m.id, m.author, BestRun(answer, m.words)), ContentWords(stop, BestRun(answer, m.words)))
  }

  function Candidates(stop: set<string>, answer: Words, messages: seq<Message>): seq<Candidate> {
    if messages == [] then []
    else
      var m := messages[|messages| - 1];
      Candidates(stop, answer, messages[..|messages| - 1]) + if Evidence(stop, answer, m)
          then [CandidateOf(stop, answer, m)] else []
  }

  /** Insertion behind everything at least as strong. */
  function InsertStable(cs: seq<Candidate>, c: Candidate): seq<Candidate> {
    if cs == [] || cs[|cs| - 1].strength >= c.strength then cs + [c]
    else InsertStable(cs[..|cs| - 1], c) + [cs[|cs| - 1]]
  }

  function SortStable(cs: seq<Candidate>): seq<Candidate> {
    if cs == [] then [] else InsertStable(SortStable(cs[..|cs| - 1]), cs[|cs| - 1])
  }

  predicate StrongestFirst(cs: seq<Candidate>) { forall i, j :: 0 <= i < j < |cs| ==> cs[i].strength >= cs[j].strength }

  function OfStrength(cs: seq<Candidate>, n: nat): seq<Candidate> {
    if cs == [] then []
    else OfStrength(cs[..|cs| - 1], n) + if cs[|cs| - 1].strength == n then [cs[|cs| - 1]] else []
  }

  lemma {:induction false} OfStrengthSnoc(cs: seq<Candidate>, c: Candidate, n: nat)
    ensures OfStrength(cs + [c], n) == OfStrength(cs, n) + if c.strength == n then [c] else []
  {
    assert (cs + [c])[..|cs|] == cs;
  }

  lemma {:induction false} InsertMembers(cs: seq<Candidate>, c: Candidate)
    ensures multiset(InsertStable(cs, c)) == multiset(cs) + multiset{c}
    ensures forall d :: d in InsertStable(cs, c) ==> d in cs || d == c
  {
    if cs != [] && cs[|cs| - 1].strength < c.strength {
      var k := |cs| - 1;
      InsertMembers(cs[..k], c);
      assert cs == cs[..k] + [cs[k]];
    }
  }

  lemma {:induction false} InsertSorts(cs: seq<Candidate>, c: Candidate)
    requires StrongestFirst(cs)
    ensures StrongestFirst(InsertStable(cs, c))
  {
    if cs != [] && cs[|cs| - 1].strength < c.strength {
      var k := |cs| - 1;
      InsertSorts(cs[..k], c);
      InsertMembers(cs[..k], c);
      var front := InsertStable(cs[..k], c);
      forall i | 0 <= i < |front| ensures front[i].strength >= cs[k].strength {
        assert front[i] in front;
        assert forall d :: d in cs[..k] ==> d.strength >= cs[k].strength;
      }
    }
  }

  lemma {:induction false} InsertKeepsOrder(cs: seq<Candidate>, c: Candidate, n: nat)
    ensures OfStrength(InsertStable(cs, c), n) == OfStrength(cs, n) + if c.strength == n then [c] else []
  {
    if cs == [] || cs[|cs| - 1].strength >= c.strength {
      OfStrengthSnoc(cs, c, n);
    } else {
      var k := |cs| - 1;
      InsertKeepsOrder(cs[..k], c, n);
      OfStrengthSnoc(InsertStable(cs[..k], c), cs[k], n);
    }
  }

  /** Sorting orders by strength and loses nothing. */
  lemma {:induction false} SortSorts(cs: seq<Candidate>)
    ensures StrongestFirst(SortStable(cs)) && multiset(SortStable(cs)) == multiset(cs)
  {
    if cs != [] {
      var k := |cs| - 1;
      SortSorts(cs[..k]);
      InsertSorts(SortStable(cs[..k]), cs[k]);
      InsertMembers(SortStable(cs[..k]), cs[k]);
      assert cs == cs[..k] + [cs[k]];
    }
  }

  /** Among equally strong candidates the order of the messages is kept. */
  lemma {:induction false} SortIsStable(cs: seq<Candidate>, n: nat)
    ensures OfStrength(SortStable(cs), n) == OfStrength(cs, n)
  {
    if cs != [] {
      SortIsStable(cs[..|cs| - 1], n);
      InsertKeepsOrder(SortStable(cs[..|cs| - 1]), cs[|cs| - 1], n);
    }
  }

  function SourcesOf(cs: seq<Candidate>): seq<Source> { seq(|cs|, i requires 0 <= i < |cs| => cs[i].source) }

  /** What is cited of the candidates: all, or the strongest `limit`. */
  function Cited(cs: seq<Candidate>, limit: int): seq<Candidate> {
    if limit > 0 then Take(SortStable(cs), limit) else SortStable(cs)
  }

  method GroundAnswer(stop: set<string>, answer: Words, messages: seq<Message>,
      limit: int) returns (sources: seq<Source>)
    ensures sources == SourcesOf(Cited(Candidates(stop, answer, messages), limit))
  {
    sources := [];
    if |answer| == 0 || |messages| == 0 {
      NoAnswerNoCandidates(stop, answer, messages);
      return;
    }
    var candidates: seq<Candidate> := [];
    for i := 0 to |messages|
      invariant candidates == Candidates(stop, answer, messages[..i])
    {
      assert messages[..i + 1][..i] == messages[..i];
      var message := messages[i];
      if message.role == "scout" || message.role == "assistant" || message.role == "error" { continue; }
      if message.words == [] { continue; }
      var run, content := LongestSharedRun(stop, answer, message.words);
      if content < MIN_CONTENT_WORDS { continue; }
      candidates := candidates + [Candidate(Source(message.id, message.author, run), content)];
    }
    assert messages[..|messages|] == messages;
    var sorted := SortStable(candidates);
    for index := 0 to |sorted|
      invariant limit > 0 ==> index <= limit
      invariant sources == SourcesOf(sorted[..index])
    {
      if limit > 0 && index >= limit {
        assert sorted[..index] == Cited(candidates, limit);
        return;
      }
      sources := sources + [sorted[index].source];
      assert sorted[..index + 1] == sorted[..index] + [sorted[index]];
    }
    assert sorted[..|sorted|] == sorted;
    assert Cited(candidates, limit) == sorted;
  }

  lemma {:induction false} NoAnswerNoCandidates(stop: set<string>, answer: Words, messages: seq<Message>)
    requires answer == [] || messages == []
    ensures Candidates(stop, answer, messages) == []
  {
    if messages != [] {
      NoAnswerNoCandidates(stop, answer, messages[..|messages| - 1]);
      EmptyBest(answer, messages[|messages| - 1].words);
    }
  }

  lemma {:induction false} CandidateComesFrom(stop: set<string>, answer: Words, messages: seq<Message>,
      c: Candidate) returns (i: nat)
    requires c in Candidates(stop, answer, messages)
    ensures i < |messages| && Evidence(stop, answer, messages[i]) && c == CandidateOf(stop, answer, messages[i])
  {
    var n := |messages| - 1;
    if c in Candidates(stop, answer, messages[..n]) { i := CandidateComesFrom(stop, answer, messages[..n], c); } else {
      i := n;
    }
  }

  lemma {:induction false} EvidenceIsCandidate(stop: set<string>, answer: Words, messages: seq<Message>, i: nat)
    requires i < |messages| && Evidence(stop, answer, messages[i])
    ensures CandidateOf(stop, answer, messages[i]) in Candidates(stop, answer, messages)
  {
    if i < |messages| - 1 { EvidenceIsCandidate(stop, answer, messages[..|messages| - 1], i); }
  }

  /** A citation and the message it quotes. */
  ghost predicate Quotes(stop: set<string>, answer: Words, m: Message, c: Candidate) {
    && Citable(m) && c.source.messageId == m.id && c.source.author == m.author
    && IsShared(answer, m.words, c.source.quote)
    && (forall other :: IsShared(answer, m.words, other) ==> |other| <= |c.source.quote|)
    && ContentWords(stop, c.source.quote) == c.strength >= MIN_CONTENT_WORDS
  }

  lemma CandidateQuotes(stop: set<string>, answer: Words, m: Message)
    requires Evidence(stop, answer, m)
    ensures Quotes(stop, answer, m, CandidateOf(stop, answer, m))
  {
    var best := BestRun(answer, m.words);
    BestRunIsLongest(answer, m.words, best);
    forall other | IsShared(answer, m.words, other) ensures |other| <= |best| {
      BestRunIsLongest(answer, m.words, other);
    }
  }

  /** Every citation quotes a longest run of words shared with a message somebody other than the assistant
      wrote, with at least three content words in it. */
  lemma CitationsAreEvidence(stop: set<string>, answer: Words, messages: seq<Message>, limit: int, k: nat)
    requires k < |Cited(Candidates(stop, answer, messages), limit)|
    ensures exists i ::
      0 <= i < |messages| && Quotes(stop, answer, messages[i], Cited(Candidates(stop, answer, messages), limit)[k])
  {
    var all := Candidates(stop, answer, messages);
    var c := Cited(all, limit)[k];
    assert c in all by {
      SortSorts(all);
      assert c == SortStable(all)[k] && c in multiset(SortStable(all));
    }
    var i := CandidateComesFrom(stop, answer, messages, c);
    CandidateQuotes(stop, answer, messages[i]);
  }

  function LeftOut(cs: seq<Candidate>, limit: int): seq<Candidate> {
    var sorted := SortStable(cs);
    if 0 < limit < |sorted| then sorted[limit..] else []
  }

  /** The candidates split into the cited and the left out, and no candidate left out is stronger than one
      that is cited. */
  lemma NothingStrongerIsLeftOut(cs: seq<Candidate>, limit: int)
    ensures multiset(Cited(cs, limit)) + multiset(LeftOut(cs, limit)) == multiset(cs)
    ensures forall i, k :: 0 <= i < |LeftOut(cs, limit)| && 0 <= k < |Cited(cs, limit)| ==>
              LeftOut(cs, limit)[i].strength <= Cited(cs, limit)[k].strength
    ensures limit <= 0 || |Cited(cs, limit)| <= limit
  {
    var sorted := SortStable(cs);
    SortSorts(cs);
    if 0 < limit < |sorted| { assert sorted == sorted[..limit] + sorted[limit..]; }
    else { assert Cited(cs, limit) == sorted; }
  }

  // ---- What is not cited ----------------------------------------------------------------------------

  lemma {:induction false} NoStopwordsCount(stop: set<string>, words: Words)
    requires forall i :: 0 <= i < |words| ==> words[i] !in stop
    ensures ContentWords(stop, words) == |words|
  {
    if words != [] { NoStopwordsCount(stop, words[..|words| - 1]); }
  }

  lemma {:induction false} ContentAtMostLength(stop: set<string>, words: Words)
    ensures ContentWords(stop, words) <= |words|
  {
    if words != [] { ContentAtMostLength(stop, words[..|words| - 1]); }
  }

  /** The content words of the n answer words that end before position i. */
  function ContentAt(stop: set<string>, answer: Words, i: nat, n: nat): nat
    requires n <= i <= |answer|
  {
    ContentWords(stop, answer[i - n..i])
  }

  /** A shared run with enough content words that no shared run with too few comes before: none is longer, and
      none as long ends earlier in the answer. */
  ghost predicate Unhidden(stop: set<string>, answer: Words, words: Words, i: nat, j: nat, n: nat) {
    && Shared(answer, words, i, j, n) && ContentAt(stop, answer, i, n) >= MIN_CONTENT_WORDS
    && forall i': nat, j': nat, n': nat ::
         Shared(answer, words, i', j', n') && ContentAt(stop, answer, i', n') < MIN_CONTENT_WORDS ==>
           n' < n || (n' == n && i <= i')
  }

  /** A citable message is evidence exactly when it shares a run with three content words that no run with fewer
      hides, by being longer or by being as long and ending earlier. */
  lemma EvidenceExactly(stop: set<string>, answer: Words, m: Message)
    requires Citable(m)
    ensures Evidence(stop, answer, m) <==>
            exists i: nat, j: nat, n: nat :: Unhidden(stop, answer, m.words, i, j, n)
  {
    BestExists(answer, m.words);
    var (n, e) := Scan(answer, m.words, |answer|, |m.words|);
    BestRunIs(answer, m.words, e, n);
    var j: nat :| Shared(answer, m.words, e, j, n);
    if Evidence(stop, answer, m) { assert Unhidden(stop, answer, m.words, e, j, n); }
    if i: nat, j': nat, k: nat :| Unhidden(stop, answer, m.words, i, j', k) {
      ContentAtMostLength(stop, answer[i - k..i]);
      assert k <= n && (k == n ==> e <= i);
    }
  }

  /** For a message without stopwords, having evidence is exactly sharing some run with three content words. */
  lemma WithoutStopwordsNothingIsMissed(stop: set<string>, answer: Words, m: Message)
    requires Citable(m) && forall i :: 0 <= i < |m.words| ==> m.words[i] !in stop
    ensures Evidence(stop, answer, m) <==>
            exists run :: IsShared(answer, m.words, run) && ContentWords(stop, run) >= MIN_CONTENT_WORDS
  {
    var best := BestRun(answer, m.words);
    BestRunIsLongest(answer, m.words, best);
    var i: nat, j: nat :| Shared(answer, m.words, i, j, |best|) && answer[i - |best|..i] == best;
    assert forall k :: 0 <= k < |best| ==> best[k] == m.words[j - |best| + k];
    NoStopwordsCount(stop, best);
    forall run | IsShared(answer, m.words, run) ensures ContentWords(stop, run) <= |best| {
      BestRunIsLongest(answer, m.words, run);
      ContentAtMostLength(stop, run);
    }
  }

  /** In general the converse fails: only the longest run is looked at. A message that shares three content
      words in a row is not cited when it also shares four stopwords in a row: answer x y z p s s s s against
      message s s s s q x y z. */
  lemma LongerStopwordRunHidesEvidence(stop: set<string>, s: string, x: string, y: string, z: string, p: string,
      answer: Words, m: Message)
    requires s in stop && x !in stop && y !in stop && z !in stop
    requires |answer| == 8 && answer[0..3] == [x, y, z] && answer[3] == p && answer[4..8] == [s, s, s, s]
    requires |m.words| == 8 && m.words[0..4] == [s, s, s, s] && m.words[5..8] == [x, y, z] && p !in m.words
    ensures IsShared(answer, m.words, [x, y, z]) && ContentWords(stop, [x, y, z]) == 3
    ensures !Evidence(stop, answer, m)
  {
    ThreeShared(answer, m.words, x, y, z);
    NoStopwordsCount(stop, [x, y, z]);
    HiddenBehindFour(stop, answer, m, p, s);
  }

  lemma HiddenBehindFour(stop: set<string>, answer: Words, m: Message, p: string, s: string)
    requires s in stop && |answer| == |m.words| == 8 && answer[3] == p && p !in m.words
    requires answer[4..8] == m.words[0..4] == [s, s, s, s]
    ensures !Evidence(stop, answer, m)
  {
    var hidden := [s, s, s, s];
    assert ContentWords(stop, hidden) == 0 by { AllStopwords(stop, hidden); }
    assert BestRun(answer, m.words) == hidden by { FourIsBest(answer, m.words, p, s); }
    StopwordsAreNoEvidence(stop, answer, m, hidden);
  }

  lemma StopwordsAreNoEvidence(stop: set<string>, answer: Words, m: Message, run: Words)
    requires BestRun(answer, m.words) == run && ContentWords(stop, run) == 0
    ensures !Evidence(stop, answer, m)
  {
  }

  lemma FourIsBest(answer: Words, words: Words, p: string, s: string)
    requires |answer| == |words| == 8 && answer[3] == p && p !in words
    requires answer[4..8] == words[0..4] == [s, s, s, s]
    ensures BestRun(answer, words) == [s, s, s, s]
  {
    assert Shared(answer, words, 8, 4, 4);
    OnlyBehind(answer, words, p);
    assert Best(answer, words, 8, 4);
    BestRunIs(answer, words, 8, 4);
  }

  lemma ThreeShared(answer: Words, words: Words, x: string, y: string, z: string)
    requires |answer| == |words| == 8 && answer[0..3] == [x, y, z] == words[5..8]
    ensures IsShared(answer, words, [x, y, z])
  {
    var run := [x, y, z];
    assert Shared(answer, words, 3, 8, |run|) && answer[3 - |run|..3] == run;
  }

  /** A run of four cannot cross a word the message does not have. */
  lemma OnlyBehind(answer: Words, words: Words, p: string)
    requires |answer| == 8 && answer[3] == p && p !in words
    ensures forall i: nat, j: nat, m: nat :: Shared(answer, words, i, j, m) && m >= 4 ==> i == 8 && m == 4
  {
    forall i: nat, j: nat, m: nat | Shared(answer, words, i, j, m)
        ensures forall k :: i - m <= k < i ==> answer[k] in words {
      SharedWords(answer, words, i, j, m);
    }
  }

  lemma SharedWords(answer: Words, words: Words, i: nat, j: nat, m: nat)
    requires Shared(answer, words, i, j, m)
    ensures forall k :: i - m <= k < i ==> answer[k] in words
  {
    forall k | i - m <= k < i ensures answer[k] in words {
      assert answer[i - m..i][k - (i - m)] == answer[k];
      assert words[j - m..j][k - (i - m)] == words[j - m + (k - (i - m))];
    }
  }

  lemma {:induction false} AllStopwords(stop: set<string>, words: Words)
    requires forall i :: 0 <= i < |words| ==> words[i] in stop
    ensures ContentWords(stop, words) == 0
  {
    if words != [] { AllStopwords(stop, words[..|words| - 1]); }
  }
}
