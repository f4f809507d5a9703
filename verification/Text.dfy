/** Strings cut at a separator and put together again, as JavaScript's split and join do; and its white space. */
module Text {
  /** What `\s` matches. */
  predicate Space(ch: char) {
    || ch in {' ', '\t', '\n', '\U{000B}', '\U{000C}', '\r', '\U{00A0}', '\U{1680}', '\U{2028}', '\U{2029}', '\U{202F}', '\U{205F}', '\U{3000}', '\U{FEFF}'}
    || '\U{2000}' <= ch <= '\U{200A}'
  }

  /** By code point: the white space and line terminators of ECMAScript. */
  lemma SpacesAre(ch: char)
    ensures Space(ch) <==>
            9 <= ch as int <= 13 || 0x2000 <= ch as int <= 0x200A ||
            ch as int in {0x20, 0xA0, 0x1680, 0x2028, 0x2029, 0x202F, 0x205F, 0x3000, 0xFEFF}
  {
  }

  /** `s.replace(/\s/g, '')`. */
  function Spaceless(s: string): (t: string)
    ensures forall ch <- t :: ch in s && !Space(ch)
  {
    if s == "" then "" else (if Space(s[0]) then "" else [s[0]]) + Spaceless(s[1..])
  }

  /** Nothing moves, and nothing goes but white space. */
  lemma {:induction false} SpacelessAppend(a: string, b: string)
    ensures Spaceless(a + b) == Spaceless(a) + Spaceless(b)
  {
    hide Space;
    if a == "" {
      assert a + b == b;
    } else {
      var first := Spaceless([a[0]]);
      assert (a + b)[0] == a[0] && (a + b)[1..] == a[1..] + b;
      OneOrNone(a);
      OneOrNone(a + b);
      hide Spaceless;
      SpacelessAppend(a[1..], b);
      assert first + (Spaceless(a[1..]) + Spaceless(b)) == (first + Spaceless(a[1..])) + Spaceless(b);
    }
  }

  lemma OneOrNone(s: string)
    requires s != ""
    ensures Spaceless(s) == Spaceless([s[0]]) + Spaceless(s[1..])
    ensures Spaceless([s[0]]) == if Space(s[0]) then "" else [s[0]]
  {
    hide Space;
    assert [s[0]][1..] == "";
  }

  function Join(parts: seq<string>, sep: char): string
    requires parts != []
  {
    if |parts| == 1 then parts[0] else parts[0] + ([sep] + Join(parts[1..], sep))
  }

  function Split(s: string, sep: char): (parts: seq<string>)
    ensures parts != []
  {
    if s == "" then [""]
    else
      var rest := Split(s[1..], sep);
      if s[0] == sep then [""] + rest else [[s[0]] + rest[0]] + rest[1..]
  }

  lemma {:induction false} SplitPlain(s: string, sep: char)
    requires sep !in s
    ensures Split(s, sep) == [s]
  {
    if s != "" {
      assert s[0] in s;
      SplitPlain(s[1..], sep);
      assert [s[0]] + s[1..] == s;
    }
  }

  lemma {:induction false} SplitAt(s: string, sep: char, rest: string)
    requires sep !in s
    ensures Split(s + ([sep] + rest), sep) == [s] + Split(rest, sep)
    decreases |s|
  {
    var whole := s + ([sep] + rest);
    if s == "" {
      assert whole[1..] == rest;
    } else {
      assert s[0] in s && whole[0] == s[0];
      assert whole[1..] == s[1..] + ([sep] + rest);
      SplitAt(s[1..], sep, rest);
      assert [s[0]] + s[1..] == s;
      assert ([s[1..]] + Split(rest, sep))[1..] == Split(rest, sep);
    }
  }

  /** Parts without the separator in them come apart as they were. */
  lemma {:induction false} SplitJoin(parts: seq<string>, sep: char)
    requires parts != [] && forall x <- parts :: sep !in x
    ensures Split(Join(parts, sep), sep) == parts
    decreases |parts|
  {
    assert parts[0] in parts;
    if |parts| == 1 {
      SplitPlain(parts[0], sep);
    } else {
      assert forall x <- parts[1..] :: x in parts;
      SplitAt(parts[0], sep, Join(parts[1..], sep));
      SplitJoin(parts[1..], sep);
    }
  }
}
