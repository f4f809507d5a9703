/**
 * What a web-chat guest's console visits leave in an agent's timeline
 * (src/api/guestConsoleLog.ts): two insertion-ordered maps, each with a hard
 * cap; a visit an hour, a refused method a day, ten names a day.
 */
module GuestConsoleLog {
  import opened Basics
  import Text

  const HOUR: int := 60 * 60_000
  const DAY: int := 24 * HOUR
  const NAMES_PER_DAY: nat := 10
  const MAX_KEYS: nat := 2000

  /** A guest at an agent (`agentId:userId`). */
  type Who = string

  /** A name to record a refusal under: the method's, or the one line for all the others. */
  datatype Name = Method(method_: string) | Others

  /** `open:<who>` and `refused:<who>:<name>`; a method's name has no colon in it. */
  datatype Key = Open(who: Who) | Refused(who: Who, name: Name)

  /** Since when, and how many distinct names were recorded. */
  datatype Budget = Budget(since: int, n: nat)

  // ---- insertion-ordered maps -----------------------------------------------------

  type Ordered<K, V> = seq<(K, V)>

  function Get<K(==), V>(m: Ordered<K, V>, k: K): Option<V> {
    if m == [] then None else if m[0].0 == k then Some(m[0].1) else Get(m[1..], k)
  }

  function Without<K(==), V>(m: Ordered<K, V>, k: K): Ordered<K, V> {
    if m == [] then [] else (if m[0].0 == k then [] else [m[0]]) + Without(m[1..], k)
  }

  /** Map.set on a key that is there: it keeps its place. */
  function Replace<K(==), V>(m: Ordered<K, V>, k: K, v: V): Ordered<K, V> {
    if m == [] then [] else [if m[0].0 == k then (k, v) else m[0]] + Replace(m[1..], k, v)
  }

  /** The oldest removed until at most MAX_KEYS are left. */
  function Capped<K, V>(m: Ordered<K, V>): Ordered<K, V> {
    if |m| <= MAX_KEYS then m else Capped(m[1..])
  }

  /** Put last, as new; the oldest make way. */
  function PutLast<K(==), V>(m: Ordered<K, V>, k: K, v: V): Ordered<K, V> { Capped(Without(m, k) + [(k, v)]) }

  // ---- what is recorded ---------------------------------------------------------------

  predicate Letter(c: char) { 'a' <= c <= 'z' || 'A' <= c <= 'Z' }
  predicate Word(c: char) { Letter(c) || '0' <= c <= '9' || c == '_' || c == '-' }

  /** METHOD_NAME: words joined by single dots, the first beginning with a letter. */
  predicate NamesAMethod(s: string) {
    s != "" && Letter(s[0]) && s[|s| - 1] != '.' && forall i :: 0 <= i < |s| ==> InAName(s, i)
  }

  /** A word's letter, or a dot that is the first of its kind. */
  predicate InAName(s: string, i: nat)
    requires i < |s|
  {
    Word(s[i]) || (s[i] == '.' && i > 0 && s[i - 1] != '.')
  }

  /** One or more letters, digits, dashes and underscores. */
  ghost predicate AWord(s: string) {
    s != "" && forall i :: 0 <= i < |s| ==>
      'a' <= s[i] <= 'z' || 'A' <= s[i] <= 'Z' || '0' <= s[i] <= '9' || s[i] == '-' || s[i] == '_'
  }

  /** A method's name is words with dots between them, the first of which begins with a letter. */
  lemma MethodNamesAre(s: string)
    ensures NamesAMethod(s) <==>
            exists words: seq<string> :: words != [] && (forall x <- words :: AWord(x)) && s == Text.Join(words, '.') &&
                                         s != "" && ('a' <= s[0] <= 'z' || 'A' <= s[0] <= 'Z')
  {
    assert NamesAMethod(s) <==> Dotted(s) && ('a' <= s[0] <= 'z' || 'A' <= s[0] <= 'Z');
    hide NamesAMethod, Dotted, AWord;
    if Dotted(s) {
      NameSplits(s);
    }
    forall words: seq<string> | words != [] && (forall x <- words :: AWord(x)) && s == Text.Join(words, '.')
      ensures Dotted(s)
    {
      JoinedWords(words);
    }
  }

  /** Words joined by dots: a word at each end, and no two dots in a row. */
  ghost predicate Dotted(s: string) {
    s != "" && Word(s[0]) && s[|s| - 1] != '.' && forall i :: 0 <= i < |s| ==> InAName(s, i)
  }

  lemma AWordIs(s: string)
    ensures AWord(s) <==> s != "" && forall i :: 0 <= i < |s| ==> Word(s[i])
    ensures !Word('.')
  {
  }

  lemma {:induction false} JoinedWords(words: seq<string>)
    requires words != [] && forall x <- words :: AWord(x)
    ensures Dotted(Text.Join(words, '.'))
    decreases |words|
  {
    var x := words[0];
    AWordIs(x);
    assert AWord(x);
    hide Word, AWord;
    if |words| > 1 {
      assert forall y <- words[1..] :: y in words;
      JoinedWords(words[1..]);
      var rest := Text.Join(words[1..], '.');
      var s := x + (['.'] + rest);
      assert Text.Join(words, '.') == s;
      forall i | 0 <= i < |s| ensures InAName(s, i) {
        if i > |x| {
          assert InAName(rest, i - |x| - 1) && s[i] == rest[i - |x| - 1];
          assert i > |x| + 1 ==> s[i - 1] == rest[i - |x| - 2];
        }
      }
    }
  }

  lemma {:induction false} NameSplits(s: string)
    requires Dotted(s)
    ensures exists words: seq<string> :: words != [] && (forall x <- words :: AWord(x)) && s == Text.Join(words, '.')
    decreases |s|
  {
    var k := FirstDot(s);
    AWordIs(s[..k]);
    hide Word, AWord;
    if k == |s| {
      assert s[..k] == s;
      assert Text.Join([s], '.') == s;
    } else {
      var rest := s[k + 1..];
      RestIsDotted(s, k);
      NameSplits(rest);
      var words: seq<string> :| words != [] && (forall x <- words :: AWord(x)) && rest == Text.Join(words, '.');
      var all := [s[..k]] + words;
      assert all[1..] == words && s == s[..k] + (['.'] + rest);
      assert Text.Join(all, '.') == s;
    }
  }

  lemma RestIsDotted(s: string, k: nat)
    requires Dotted(s) && 0 < k < |s| && s[k] == '.'
    ensures k + 1 < |s| && Dotted(s[k + 1..])
  {
    var rest := s[k + 1..];
    forall i | 0 <= i < |rest| ensures InAName(rest, i) {
      assert InAName(s, k + 1 + i) && rest[i] == s[k + 1 + i];
    }
    assert k + 1 < |s| ==> InAName(rest, 0);
  }

  /** Where the first dot is, or the end. */
  lemma FirstDot(s: string) returns (k: nat)
    requires Dotted(s)
    ensures 0 < k <= |s| && (k < |s| ==> s[k] == '.') && forall i :: 0 <= i < k ==> Word(s[i])
  {
    k := 1;
    while k < |s| && s[k] != '.'
      invariant 0 < k <= |s| && forall i :: 0 <= i < k ==> Word(s[i])
    {
      assert InAName(s, k);
      k := k + 1;
    }
  }

  type Last = Ordered<Key, int>
  type Names = Ordered<Who, Budget>

  predicate IsDue(last: Last, key: Key, every: int, now: int) {
    var at := Get(last, key);
    at.None? || now - at.value >= every
  }

  /** What `#due` leaves. */
  function Dued(last: Last, key: Key, every: int, now: int): Last {
    if IsDue(last, key, every, now) then PutLast(last, key, now) else last
  }

  predicate Fresh(names: Names, who: Who, now: int) {
    var b := Get(names, who);
    b.None? || now - b.value.since >= DAY
  }

  /** The guest's budget for a name not recorded today: theirs, or a new one. */
  function BudgetOf(names: Names, who: Who, now: int): Budget {
    if Fresh(names, who, now) then Budget(now, 0) else Get(names, who).value
  }

  function WithBudget(names: Names, who: Who, now: int): Names {
    if Fresh(names, who, now) then PutLast(names, who, Budget(now, 0)) else names
  }

  /** A name not recorded today is charged to the budget, or folded into the others. */
  predicate Charged(last: Last, who: Who, name: Name, now: int) {
    name != Others && IsDue(last, Refused(who, name), DAY, now)
  }

  function NameFor(last: Last, names: Names, who: Who, method_: string, now: int): Name {
    var name := if NamesAMethod(method_) then Method(method_) else Others;
    if Charged(last, who, name, now) && BudgetOf(names, who, now).n >= NAMES_PER_DAY then Others else name
  }

  function NamesAfter(last: Last, names: Names, who: Who, method_: string, now: int): Names {
    var name := if NamesAMethod(method_) then Method(method_) else Others;
    if !Charged(last, who, name, now) then names
    else
      var b := BudgetOf(names, who, now);
      var open := WithBudget(names, who, now);
      if b.n >= NAMES_PER_DAY then open else Replace(open, who, Budget(b.since, b.n + 1))
  }

  class ConsoleLog {
    var last: Last
    var names: Names
    const startup: set<string>

    /** `calls`: the owner-only calls the console app makes as it starts. */
    constructor (calls: set<string>)
      ensures last == [] && names == [] && startup == calls
    {
      last, names, startup := [], [], calls;
    }

    method Due(key: Key, every: int, now: int) returns (due: bool)
      modifies this`last
      ensures due == IsDue(old(last), key, every, now) && last == Dued(old(last), key, every, now)
    {
      var at := Get(last, key);
      if at.Some? && now - at.value < every { return false; }
      last := Without(last, key);
      last := last + [(key, now)];
      while |last| > MAX_KEYS
        invariant Capped(last) == PutLast(old(last), key, now)
      {
        last := last[1..];
      }
      return true;
    }

    method Opened(who: Who, now: int) returns (record: bool)
      modifies this`last
      ensures record == IsDue(old(last), Open(who), HOUR, now) && last == Dued(old(last), Open(who), HOUR, now)
    {
      record := Due(Open(who), HOUR, now);
    }

    method Refusal(who: Who, method_: string, now: int) returns (name: Option<Name>)
      modifies this
      ensures method_ in startup ==> name == None && last == old(last) && names == old(names)
      ensures method_ !in startup ==>
                var n := NameFor(old(last), old(names), who, method_, now);
                name == (if IsDue(old(last), Refused(who, n), DAY, now) then Some(n) else None) &&
                last == Dued(old(last), Refused(who, n), DAY, now) &&
                names == NamesAfter(old(last), old(names), who, method_, now)
    {
      if method_ in startup { return None; }
      var called := if NamesAMethod(method_) then Method(method_) else Others;
      if called != Others {
        var at := Get(last, Refused(who, called));
        if at.None? || now - at.value >= DAY {
          var b := Get(names, who);
          if b.None? || now - b.value.since >= DAY {
            OpenBudget(who, now);
            b := Some(Budget(now, 0));
          }
          if b.value.n >= NAMES_PER_DAY { called := Others; } else { names := Replace(names, who, Budget(b.value.since, b.value.n + 1)); }
        }
      }
      var due := Due(Refused(who, called), DAY, now);
      name := if due then Some(called) else None;
    }

    method OpenBudget(who: Who, now: int)
      modifies this`names
      ensures names == PutLast(old(names), who, Budget(now, 0))
    {
      names := Without(names, who);
      names := names + [(who, Budget(now, 0))];
      while |names| > MAX_KEYS
        invariant Capped(names) == PutLast(old(names), who, Budget(now, 0))
      {
        names := names[1..];
      }
    }
  }
}
