/**
 The extractive-claim check: a shortened display of an admitted sentence may
 leave grammar words out and do nothing else. Texts are modelled by their token
 sequences.
*/
module ExtractiveClaim {
  import opened Text

  type Tokens = seq<string>

  const OMITTABLE: set<string> := {
    "a", "an", "the", "be", "been", "being", "is", "are", "was", "were",
    "do", "does", "did", "has", "have", "had", "that", "which", "who", "whom", "whose" }

  /** Strictly increasing positions at which the candidate spells out the display. */
  ghost predicate Embeds(candidate: Tokens, display: Tokens, at: seq<nat>) {
    && |at| == |display|
    && (forall i :: 0 <= i < |at| ==> at[i] < |candidate| && candidate[at[i]] == display[i])
    && (forall i, j :: 0 <= i < j < |at| ==> at[i] < at[j])
  }

  ghost predicate IsSubsequence(candidate: Tokens, display: Tokens) { exists at :: Embeds(candidate, display, at) }

  /** The display is the candidate with some omittable tokens deleted: the positions it leaves out all hold one. */
  ghost predicate OnlyOmissionsDeleted(candidate: Tokens, display: Tokens, omit: set<string>) {
    exists at :: Embeds(candidate, display, at) && Covers(candidate, at, omit)
  }

  // ---- The scan -----------------------------------------------------------------------------

  /** Matching each display token as early as possible. */
  predicate Greedy(candidate: Tokens, display: Tokens) {
    if display == [] then true
    else if candidate == [] then false
    else if candidate[0] == display[0] then Greedy(candidate[1..], display[1..])
    else Greedy(candidate[1..], display)
  }

  function Shift(at: seq<nat>): seq<nat> { seq(|at|, i requires 0 <= i < |at| => at[i] + 1) }

  lemma {:induction false} GreedyEmbeds(candidate: Tokens, display: Tokens) returns (at: seq<nat>)
    requires Greedy(candidate, display)
    ensures Embeds(candidate, display, at)
  {
    if display == [] {
      at := [];
    } else if candidate[0] == display[0] {
      var rest := GreedyEmbeds(candidate[1..], display[1..]);
      EmbedsTake(candidate, display, rest);
      at := [0] + Shift(rest);
    } else {
      var rest := GreedyEmbeds(candidate[1..], display);
      EmbedsSkip(candidate, display, rest);
      at := Shift(rest);
    }
  }

  lemma {:induction false} EmbeddingIsFound(candidate: Tokens, display: Tokens, at: seq<nat>)
    requires Embeds(candidate, display, at)
    ensures Greedy(candidate, display)
  {
    if display != [] {
      assert at[0] < |candidate|;
      var later := seq(|at|, i requires 0 <= i < |at| => if at[i] > 0 then at[i] - 1 else 0);
      if candidate[0] == display[0] {
        var tail := later[1..];
        assert forall i :: 0 <= i < |tail| ==> at[i + 1] > at[0] >= 0 && tail[i] == at[i + 1] - 1;
        EmbeddingIsFound(candidate[1..], display[1..], tail);
      } else {
        assert at[0] > 0;
        assert forall i :: 0 <= i < |at| ==> at[i] >= at[0] && later[i] == at[i] - 1;
        EmbeddingIsFound(candidate[1..], display, later);
      }
    }
  }

  /** The loop succeeds exactly when the display is a subsequence of the candidate. */
  method TokenSubsequence(candidate: Tokens, display: Tokens) returns (ok: bool)
    ensures ok <==> IsSubsequence(candidate, display)
  {
    GreedyIsSubsequence(candidate, display);
    var position := 0;
    for k := 0 to |display|
      invariant position <= |candidate|
      invariant Greedy(candidate, display) <==> Greedy(candidate[position..], display[k..])
    {
      while position < |candidate| && candidate[position] != display[k]
        invariant position <= |candidate|
        invariant Greedy(candidate, display) <==> Greedy(candidate[position..], display[k..])
      {
        assert candidate[position..][1..] == candidate[position + 1..];
        position := position + 1;
      }
      if position == |candidate| { return false; }
      assert candidate[position..][1..] == candidate[position + 1..] && display[k..][1..] == display[k + 1..];
      position := position + 1;
    }
    return true;
  }

  lemma GreedyIsSubsequence(candidate: Tokens, display: Tokens)
    ensures Greedy(candidate, display) <==> IsSubsequence(candidate, display)
  {
    if Greedy(candidate, display) { var at := GreedyEmbeds(candidate, display); }
    if IsSubsequence(candidate, display) {
      var at :| Embeds(candidate, display, at);
      EmbeddingIsFound(candidate, display, at);
    }
  }

  // ---- Content is kept -------------------------------------------------------------------------

  function Content(tokens: Tokens, omit: set<string>): Tokens {
    if tokens == [] then []
    else (if tokens[0] in omit then [] else [tokens[0]]) + Content(tokens[1..], omit)
  }

  lemma {:induction false} ContentShrinks(candidate: Tokens, display: Tokens, omit: set<string>)
    requires Greedy(candidate, display)
    ensures |Content(display, omit)| <= |Content(candidate, omit)|
  {
    if display != [] {
      if candidate[0] == display[0] { ContentShrinks(candidate[1..], display[1..], omit); }
      else { ContentShrinks(candidate[1..], display, omit); }
    }
  }

  /** Every position left out holds an omittable token. */
  ghost predicate Covers(candidate: Tokens, at: seq<nat>, omit: set<string>) {
    forall p :: 0 <= p < |candidate| && p !in at ==> candidate[p] in omit
  }

  lemma CoversTake(candidate: Tokens, rest: seq<nat>, omit: set<string>)
    requires candidate != [] && Covers(candidate[1..], rest, omit)
    ensures Covers(candidate, [0] + Shift(rest), omit)
  {
    var at := [0] + Shift(rest);
    ShiftMembers(rest, at, 1);
    forall p | 0 <= p < |candidate| && p !in at ensures candidate[p] in omit {
      assert at[0] == 0 && p - 1 !in rest;
      assert candidate[1..][p - 1] == candidate[p];
    }
  }

  lemma CoversSkip(candidate: Tokens, rest: seq<nat>, omit: set<string>)
    requires candidate != [] && candidate[0] in omit && Covers(candidate[1..], rest, omit)
    ensures Covers(candidate, Shift(rest), omit)
  {
    var at := Shift(rest);
    ShiftMembers(rest, at, 0);
    forall p | 0 <= p < |candidate| && p !in at ensures candidate[p] in omit {
      if p > 0 {
        assert p - 1 !in rest;
        assert candidate[1..][p - 1] == candidate[p];
      }
    }
  }

  lemma EmbedsTake(candidate: Tokens, display: Tokens, rest: seq<nat>)
    requires candidate != [] && display != [] && candidate[0] == display[0]
        && Embeds(candidate[1..], display[1..], rest)
    ensures Embeds(candidate, display, [0] + Shift(rest))
  {
  }

  lemma EmbedsSkip(candidate: Tokens, display: Tokens, rest: seq<nat>)
    requires candidate != [] && Embeds(candidate[1..], display, rest)
    ensures Embeds(candidate, display, Shift(rest))
  {
  }

  /** Counting content tokens along the scan: with equal content, no content token was skipped. */
  lemma {:induction false} SkippedAreOmittable(candidate: Tokens, display: Tokens, omit: set<string>)
    returns (at: seq<nat>)
    requires Greedy(candidate, display) && |Content(candidate, omit)| <= |Content(display, omit)|
    ensures Embeds(candidate, display, at) && Covers(candidate, at, omit)
    decreases candidate
  {
    if candidate == [] {
      at := [];
    } else if display != [] && candidate[0] == display[0] {
      var rest := SkippedAreOmittable(candidate[1..], display[1..], omit);
      CoversTake(candidate, rest, omit);
      EmbedsTake(candidate, display, rest);
      at := [0] + Shift(rest);
    } else {
      assert Greedy(candidate[1..], display);
      ContentShrinks(candidate[1..], display, omit);
      assert candidate[0] in omit;
      var rest := SkippedAreOmittable(candidate[1..], display, omit);
      CoversSkip(candidate, rest, omit);
      EmbedsSkip(candidate, display, rest);
      at := Shift(rest);
    }
  }

  lemma ShiftMembers(rest: seq<nat>, at: seq<nat>, from: nat)
    requires from <= |at| && at[from..] == Shift(rest)
    ensures forall q :: q in rest ==> q + 1 in at
  {
    forall q | q in rest ensures q + 1 in at {
      var i :| 0 <= i < |rest| && rest[i] == q;
      assert at[from..][i] == q + 1;
      assert at[from + i] == q + 1;
    }
  }

  lemma {:induction false} ContentAppend(x: Tokens, y: Tokens, omit: set<string>)
    ensures Content(x + y, omit) == Content(x, omit) + Content(y, omit)
  {
    if x == [] {
      assert x + y == y;
    } else {
      assert (x + y)[1..] == x[1..] + y;
      ContentAppend(x[1..], y, omit);
    }
  }

  lemma DropMatched(candidate: Tokens, display: Tokens, omit: set<string>, at: seq<nat>)
    requires Embeds(candidate, display, at) && Covers(candidate, at, omit)
    requires candidate != [] && at != [] && at[|at| - 1] == |candidate| - 1
    ensures Embeds(candidate[..|candidate| - 1], display[..|at| - 1], at[..|at| - 1])
    ensures Covers(candidate[..|candidate| - 1], at[..|at| - 1], omit)
  {
    var n := |candidate| - 1;
    var k := |at| - 1;
    assert at == at[..k] + [at[k]];
    assert forall p :: 0 <= p < n && p !in at[..k] ==> p !in at;
  }

  lemma DropSkipped(candidate: Tokens, display: Tokens, omit: set<string>, at: seq<nat>)
    requires Embeds(candidate, display, at) && Covers(candidate, at, omit)
    requires candidate != [] && (at == [] || at[|at| - 1] != |candidate| - 1)
    ensures Embeds(candidate[..|candidate| - 1], display, at) && Covers(candidate[..|candidate| - 1], at, omit)
    ensures candidate[|candidate| - 1] in omit
  {
    var n := |candidate| - 1;
    assert forall i :: 0 <= i < |at| ==> at[i] <= at[|at| - 1] < n;
    assert n !in at;
  }

  lemma ContentSnoc(tokens: Tokens, omit: set<string>)
    requires tokens != []
    ensures Content(tokens, omit) == Content(tokens[..|tokens| - 1], omit) + if tokens[|tokens| - 1] in omit then []
        else [tokens[|tokens| - 1]]
  {
    var last := tokens[|tokens| - 1];
    assert tokens == tokens[..|tokens| - 1] + [last];
    ContentAppend(tokens[..|tokens| - 1], [last], omit);
    assert [last][1..] == [];
  }

  lemma {:induction false} DeletingKeepsContent(candidate: Tokens, display: Tokens, omit: set<string>, at: seq<nat>)
    requires Embeds(candidate, display, at) && Covers(candidate, at, omit)
    ensures Content(candidate, omit) == Content(display, omit)
    decreases candidate
  {
    if candidate != [] {
      var n := |candidate| - 1;
      ContentSnoc(candidate, omit);
      if at != [] && at[|at| - 1] == n {
        DropMatched(candidate, display, omit, at);
        ContentSnoc(display, omit);
        DeletingKeepsContent(candidate[..n], display[..|at| - 1], omit, at[..|at| - 1]);
      } else {
        DropSkipped(candidate, display, omit, at);
        DeletingKeepsContent(candidate[..n], display, omit, at);
      }
    }
  }

  /** Being a subsequence with the same content tokens is exactly being the candidate with only omittable
      tokens deleted. */
  lemma SameContentIsOnlyOmissions(candidate: Tokens, display: Tokens, omit: set<string>)
    ensures IsSubsequence(candidate, display) && Content(candidate, omit) == Content(display, omit) <==>
            OnlyOmissionsDeleted(candidate, display, omit)
  {
    GreedyIsSubsequence(candidate, display);
    if IsSubsequence(candidate, display) && Content(candidate, omit) == Content(display, omit) {
      var at := SkippedAreOmittable(candidate, display, omit);
    }
    if OnlyOmissionsDeleted(candidate, display, omit) {
      var at :| Embeds(candidate, display, at) && Covers(candidate, at, omit);
      DeletingKeepsContent(candidate, display, omit, at);
    }
  }

  // ---- The gate ------------------------------------------------------------------------------------

  /** A text with the results of its tokenizers: every token, the tokens with the omittable ones left out, and
      the distinct topic tokens. */
  datatype Claim = Claim(text: string, all: Tokens, content: Tokens, topic: Tokens)

  /** The two tokenizers agree on the text. */
  predicate Agree(c: Claim) { c.content == Content(c.all, OMITTABLE) }

  predicate Displayable(text: string) { text != "" && Lower(text) != "n/a" && |text| <= 220 }

  /** The decision; `tidy` and `bound` stand for the pattern gates before and after the token checks. */
  method DisplayClaimAllowed(candidate: Claim, display: Claim, tidy: bool, bound: bool) returns (allowed: bool)
    ensures allowed ==> candidate.text != "" && display.text != ""
    ensures candidate.text == "" || !Displayable(display.text) ==> !allowed
    ensures candidate.text == display.text != "" && Displayable(display.text) ==> allowed
    ensures allowed && candidate.text != display.text ==>
              tidy && bound && |display.topic| >= 2 && IsSubsequence(candidate.topic, display.topic) &&
              IsSubsequence(candidate.all, display.all) && candidate.content == display.content
    ensures allowed && candidate.text != display.text && Agree(candidate) && Agree(display) ==>
              OnlyOmissionsDeleted(candidate.all, display.all, OMITTABLE)
  {
    if candidate.text == "" || !Displayable(display.text) { return false; }
    if display.text == candidate.text { return true; }
    if !tidy || |display.topic| < 2 { return false; }
    var onTopic := TokenSubsequence(candidate.topic, display.topic);
    if !onTopic { return false; }
    var inOrder := TokenSubsequence(candidate.all, display.all);
    if !inOrder || candidate.content != display.content || !bound { return false; }
    SameContentIsOnlyOmissions(candidate.all, display.all, OMITTABLE);
    return true;
  }
}
