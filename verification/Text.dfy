/** The string operations the text models share. */
module Text {
  /** Unicode white space. */
  predicate IsSpace(c: char) {
    || c == ' ' || '\t' <= c <= '\r' || c == '\U{85}' || c == '\U{A0}' || c == '\U{1680}'
        || '\U{2000}' <= c <= '\U{200A}'
    || c == '\U{2028}' || c == '\U{2029}' || c == '\U{202F}' || c == '\U{205F}' || c == '\U{3000}'
  }

  function TrimLeft(s: string): string {
    if s == "" || !IsSpace(s[0]) then s else TrimLeft(s[1..])
  }

  function TrimRight(s: string): string {
    if s == "" || !IsSpace(s[|s| - 1]) then s else TrimRight(s[..|s| - 1])
  }

  function Trim(s: string): string { TrimRight(TrimLeft(s)) }

  /** Without white space at either end. */
  predicate Tidy(s: string) { s == "" || (!IsSpace(s[0]) && !IsSpace(s[|s| - 1])) }

  lemma {:induction false} TrimRightHead(s: string)
    requires s != "" && !IsSpace(s[0])
    ensures TrimRight(s) != "" && TrimRight(s)[0] == s[0] && !IsSpace(TrimRight(s)[|TrimRight(s)| - 1])
  {
    if IsSpace(s[|s| - 1]) { TrimRightHead(s[..|s| - 1]); }
  }

  lemma {:induction false} TrimLeftHead(s: string)
    ensures TrimLeft(s) == "" || !IsSpace(TrimLeft(s)[0])
  {
    if s != "" && IsSpace(s[0]) { TrimLeftHead(s[1..]); }
  }

  lemma TrimIsTidy(s: string)
    ensures Tidy(Trim(s))
  {
    TrimLeftHead(s);
    if TrimLeft(s) != "" { TrimRightHead(TrimLeft(s)); }
  }

  lemma TidyIsTrimmed(s: string)
    requires Tidy(s)
    ensures Trim(s) == s
  {
  }

  lemma TrimPadded(s: string)
    requires Tidy(s)
    ensures Trim(" " + s + " ") == s
  {
    var t := " " + s + " ";
    assert t[1..] == s + " ";
    if s == "" {
      assert t == "  " && t[1..] == " " && t[1..][1..] == "";
      assert TrimLeft(t) == TrimLeft(t[1..]) == TrimLeft(t[1..][1..]) == "";
    } else {
      assert TrimLeft(t) == s + " ";
      var u := s + " ";
      assert u[..|u| - 1] == s && IsSpace(u[|u| - 1]) && TrimRight(s) == s;
    }
  }

  /** Every occurrence of old, from the left, replaced. */
  function ReplaceAll(s: string, old_: string, new_: string): string
    requires old_ != ""
  {
    if s == "" then ""
    else if old_ <= s then new_ + ReplaceAll(s[|old_|..], old_, new_)
    else [s[0]] + ReplaceAll(s[1..], old_, new_)
  }

  lemma {:induction false} ReplaceCharConcat(s: string, t: string, c: char, new_: string)
    ensures ReplaceAll(s + t, [c], new_) == ReplaceAll(s, [c], new_) + ReplaceAll(t, [c], new_)
  {
    if s == "" {
      assert s + t == t;
    } else {
      assert (s + t)[1..] == s[1..] + t;
      ReplaceCharConcat(s[1..], t, c, new_);
      assert [c] <= s <==> s[0] == c;
      assert [c] <= s + t <==> s[0] == c;
    }
  }

  lemma ReplaceOne(x: char, c: char, new_: string)
    ensures ReplaceAll([x], [c], new_) == if x == c then new_ else [x]
  {
    var s := [x];
    assert s[1..] == "" && ReplaceAll("", [c], new_) == "";
    assert [c] <= s <==> s[0] == c;
  }

  function Join(parts: seq<string>, sep: string): string {
    if parts == [] then "" else if |parts| == 1 then parts[0] else parts[0] + sep + Join(parts[1..], sep)
  }

  function Split(s: string, sep: char): (r: seq<string>)
    ensures |r| >= 1
  {
    if s == "" then [""]
    else
      var rest := Split(s[1..], sep);
      if s[0] == sep then [""] + rest else [[s[0]] + rest[0]] + rest[1..]
  }

  lemma {:induction false} SplitPlain(s: string, sep: char)
    requires sep !in s
    ensures Split(s, sep) == [s]
  {
    if s != "" {
      assert s[0] in s && forall c :: c in s[1..] ==> c in s;
      SplitPlain(s[1..], sep);
      assert [s[0]] + s[1..] == s;
    }
  }

  lemma {:induction false} SplitFirst(s: string, sep: char, t: string)
    requires sep !in s
    ensures Split(s + [sep] + t, sep) == [s] + Split(t, sep)
  {
    if s == "" {
      assert (s + [sep] + t)[1..] == t;
    } else {
      assert (s + [sep] + t)[1..] == s[1..] + [sep] + t;
      assert s[0] in s && forall c :: c in s[1..] ==> c in s;
      SplitFirst(s[1..], sep, t);
      assert [s[0]] + s[1..] == s;
    }
  }

  /** Splitting what was joined gives the parts back, when no part contains the separator. */
  lemma {:induction false} SplitJoin(parts: seq<string>, sep: char)
    requires parts != [] && forall i :: 0 <= i < |parts| ==> sep !in parts[i]
    ensures Split(Join(parts, [sep]), sep) == parts
  {
    if |parts| == 1 {
      SplitPlain(parts[0], sep);
    } else {
      var rest := Join(parts[1..], [sep]);
      assert Join(parts, [sep]) == parts[0] + [sep] + rest;
      assert Split(rest, sep) == parts[1..] by { SplitJoin(parts[1..], sep); }
      SplitFirst(parts[0], sep, rest);
      assert [parts[0]] + parts[1..] == parts;
    }
  }

  /** Splitting and joining give the text back. */
  lemma {:induction false} JoinSplit(s: string, sep: char)
    ensures Join(Split(s, sep), [sep]) == s
  {
    if s != "" {
      JoinSplit(s[1..], sep);
      var rest := Split(s[1..], sep);
      if s[0] == sep { assert ([""] + rest)[1..] == rest; }
      else if |rest| > 1 { assert ([[s[0]] + rest[0]] + rest[1..])[1..] == rest[1..]; }
    }
  }

  function LowerChar(c: char): char { if 'A' <= c <= 'Z' then (c as int + 32) as char else c }

  function Lower(s: string): string { seq(|s|, i requires 0 <= i < |s| => LowerChar(s[i])) }
}
