/** The text operations the program borrows from its language. */
module Text {
  predicate IsSpace(c: char) {
    9 as char <= c <= 13 as char || 28 as char <= c <= 32 as char || c == 133 as char || c == 160 as char
  }

  predicate IsQuote(c: char) { c == '"' }

  function StripLeft(s: string, drop: char -> bool): string {
    if s != [] && drop(s[0]) then StripLeft(s[1..], drop) else s
  }

  function StripRight(s: string, drop: char -> bool): string {
    if s != [] && drop(s[|s| - 1]) then StripRight(s[..|s| - 1], drop) else s
  }

  function Strip(s: string, drop: char -> bool): string {
    StripRight(StripLeft(s, drop), drop)
  }

  /** The text before the first `stop`, or all of it. */
  function Before(s: string, stop: char): string {
    if s == [] || s[0] == stop then [] else [s[0]] + Before(s[1..], stop)
  }

  function Occurrences(s: string, c: char): nat {
    if s == [] then 0 else Occurrences(s[1..], c) + if s[0] == c then 1 else 0
  }

  function Without(s: string, c: char): string {
    if s == [] then [] else (if s[0] == c then [] else [s[0]]) + Without(s[1..], c)
  }

  function Split(s: string, separator: char): (parts: seq<string>)
    ensures parts != []
  {
    if s == [] then [[]]
    else
      var rest := Split(s[1..], separator);
      if s[0] == separator then [[]] + rest else [[s[0]] + rest[0]] + rest[1..]
  }

  function LowerChar(c: char): char {
    if 'A' <= c <= 'Z' then c - 'A' + 'a' else c
  }

  function Lower(s: string): string {
    if s == [] then [] else [LowerChar(s[0])] + Lower(s[1..])
  }

  function UpperChar(c: char): char {
    if 'a' <= c <= 'z' then c - 'a' + 'A' else c
  }

  function Upper(s: string): string {
    if s == [] then [] else [UpperChar(s[0])] + Upper(s[1..])
  }

  lemma {:induction false} SplitPrepended(text: string, rest: string, separator: char)
    ensures Split(text + [separator] + rest, separator) == Split(text, separator) + Split(rest, separator)
  {
    if text == [] {
      assert ([] + [separator] + rest)[1..] == rest;
    } else {
      assert (text + [separator] + rest)[1..] == text[1..] + [separator] + rest;
      SplitPrepended(text[1..], rest, separator);
    }
  }

  lemma {:induction false} NothingToSplit(text: string, separator: char)
    requires separator !in text
    ensures Split(text, separator) == [text]
  {
    if text != [] {
      NothingToSplit(text[1..], separator);
      assert [text[0]] + text[1..] == text;
    }
  }

  lemma {:induction false} WithoutHasNone(s: string, c: char)
    ensures c !in Without(s, c)
  {
    if s != [] { WithoutHasNone(s[1..], c); }
  }

  lemma {:induction false} WithoutNothing(s: string, c: char)
    requires c !in s
    ensures Without(s, c) == s
  {
    if s != [] { WithoutNothing(s[1..], c); }
  }

  lemma {:induction false} StripsLeft(front: string, s: string, drop: char -> bool)
    requires forall c | c in front :: drop(c)
    ensures StripLeft(front + s, drop) == StripLeft(s, drop)
  {
    if front == [] {
      assert front + s == s;
    } else {
      assert (front + s)[1..] == front[1..] + s;
      StripsLeft(front[1..], s, drop);
    }
  }

  lemma {:induction false} StripsRight(s: string, back: string, drop: char -> bool)
    requires forall c | c in back :: drop(c)
    ensures StripRight(s + back, drop) == StripRight(s, drop)
  {
    if back == [] {
      assert s + back == s;
    } else {
      assert (s + back)[..|s + back| - 1] == s + back[..|back| - 1];
      StripsRight(s, back[..|back| - 1], drop);
    }
  }

  /** Stripping takes away exactly what is put around text whose ends stay. */
  lemma {:induction false} StripsAround(front: string, s: string, back: string, drop: char -> bool)
    requires forall c | c in front || c in back :: drop(c)
    requires s != [] && !drop(s[0]) && !drop(s[|s| - 1])
    ensures Strip(front + s + back, drop) == s
  {
    assert front + s + back == front + (s + back);
    StripsLeft(front, s + back, drop);
    assert (s + back)[0] == s[0];
    StripsRight(s, back, drop);
  }

  lemma {:induction false} BeforeTheFirst(s: string, stop: char, rest: string)
    requires stop !in s
    ensures Before(s + [stop] + rest, stop) == s
  {
    if s != [] {
      assert (s + [stop] + rest)[1..] == s[1..] + [stop] + rest;
      BeforeTheFirst(s[1..], stop, rest);
      assert (s + [stop] + rest)[0] == s[0];
    }
  }

  lemma {:induction false} OccurrencesAppend(a: string, b: string, c: char)
    ensures Occurrences(a + b, c) == Occurrences(a, c) + Occurrences(b, c)
  {
    if a == [] {
      assert a + b == b;
    } else {
      assert (a + b)[1..] == a[1..] + b;
      OccurrencesAppend(a[1..], b, c);
    }
  }

  lemma {:induction false} OccursExactly(s: string, c: char)
    ensures Occurrences(s, c) == 0 <==> c !in s
  {
    if s != [] { OccursExactly(s[1..], c); }
  }
}
