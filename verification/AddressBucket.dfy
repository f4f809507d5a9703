/**
 * The bucket a visitor's address is counted in (addressBucket in
 * src/api/trust.ts): for an IPv6 address its first four groups, whichever way
 * the address is written (section 2.2 of RFC 4291: leading zeros or none, one
 * run of zero groups as "::" or not, capitals or not).
 */
module AddressBucket {
  import opened Text
  import Throttle

  function Lower(s: string): string { seq(|s|, i requires 0 <= i < |s| => if 'A' <= s[i] <= 'Z' then (s[i] as int + 32) as char else s[i]) }

  predicate DoubleAt(s: string, i: int) { 0 <= i < |s| - 1 && s[i] == ':' && s[i + 1] == ':' }

  /** Where "::" first is, at or after `from`; -1 when nowhere. */
  function FindDouble(s: string, from: nat): (i: int)
    requires from <= |s|
    ensures i == -1 || DoubleAt(s, i)
    ensures forall j :: from <= j && (i == -1 || j < i) ==> !DoubleAt(s, j)
    decreases |s| - from
  {
    if from + 1 >= |s| then -1 else if DoubleAt(s, from) then from else FindDouble(s, from + 1)
  }

  /** The text up to its first "::". */
  function UpToDouble(s: string): string {
    var i := FindDouble(s, 0);
    if i < 0 then s else s[..i]
  }

  function Strip(g: string): string { if |g| > 1 && g[0] == '0' then Strip(g[1..]) else g }

  function Parts(s: string): seq<string> { if s == "" then [] else Split(s, ':') }

  function JoinAny(parts: seq<string>): string { if parts == [] then "" else Join(parts, ':') }

  function Repeat(s: string, n: int): seq<string> { if n <= 0 then [] else [s] + Repeat(s, n - 1) }

  function Stripped(groups: seq<string>): seq<string> { seq(|groups|, i requires 0 <= i < |groups| => Strip(groups[i])) }

  /** Zero groups in place of the "::". */
  function Filled(h: seq<string>, t: seq<string>): seq<string> { h + Repeat("0", 8 - |h| - |t|) + t }

  function Groups(lower: string): seq<string> {
    var i := FindDouble(lower, 0);
    if i < 0 then Parts(lower)
    else
      Filled(Parts(lower[..i]), Parts(UpToDouble(lower[i + 2..])))
  }

  /** addressBucket. */
  function Bucket(addr: string): string {
    if ':' !in addr then addr
    else
      var groups := Groups(Lower(addr));
      JoinAny(Stripped(if |groups| > 4 then groups[..4] else groups)) + "::/64"
  }

  // ---- how an address may be written -----------------------------------------------

  predicate HexDigit(c: char) { '0' <= c <= '9' || 'a' <= c <= 'f' }

  function DigitValue(c: char): nat
    requires HexDigit(c)
  {
    if c <= '9' then c as int - '0' as int else c as int - 'a' as int + 10
  }

  predicate Hex(g: string) { g != "" && forall c <- g :: HexDigit(c) }

  function Value(g: string): nat
    requires forall c <- g :: HexDigit(c)
  {
    if g == "" then 0 else
      assert g[|g| - 1] in g && forall c <- g[..|g| - 1] :: c in g;
      16 * Value(g[..|g| - 1]) + DigitValue(g[|g| - 1])
  }

  /** One group: one to four digits that say its value. */
  predicate SpellsGroup(g: string, v: nat) { Hex(g) && |g| <= 4 && Value(g) == v }

  predicate SpellsGroups(gs: seq<string>, vs: seq<nat>) {
    |gs| == |vs| && forall i :: 0 <= i < |gs| ==> SpellsGroup(gs[i], vs[i])
  }

  /** All eight groups; or some at each end, and "::" for the zeros (at least one) between them. */
  ghost predicate Spells(addr: string, a: seq<nat>)
    requires |a| == 8
  {
    (exists gs: seq<string> :: SpellsGroups(gs, a) && Lower(addr) == JoinAny(gs)) ||
    (exists l: seq<string>, r: seq<string> :: Compressed(l, r, a) && Lower(addr) == JoinAny(l) + "::" + JoinAny(r))
  }

  predicate Compressed(l: seq<string>, r: seq<string>, a: seq<nat>)
    requires |a| == 8
  {
    |l| + |r| <= 7 && SpellsGroups(l, a[..|l|]) && SpellsGroups(r, a[8 - |r|..]) && forall i :: |l| <= i < 8 - |r| ==> a[i] == 0
  }

  // ---- one group ----------------------------------------------------------------------

  /** The shortest spelling. */
  function Digits(v: nat): string {
    var last := if v % 16 < 10 then ('0' as int + v % 16) as char else ('a' as int + v % 16 - 10) as char;
    if v < 16 then [last] else Digits(v / 16) + [last]
  }

  lemma {:induction false} StripEnds(g: string)
    requires Hex(g) && |g| > 1
    ensures var front := g[..|g| - 1];
            Strip(g) == if Strip(front) == "0" then [g[|g| - 1]] else Strip(front) + [g[|g| - 1]]
  {
    var front := g[..|g| - 1];
    if g[0] == '0' {
      if |g| > 2 {
        assert forall c <- g[1..] :: c in g;
        StripEnds(g[1..]);
        assert g[1..][..|g| - 2] == front[1..];
      } else {
        assert front == "0" && g[1..] == [g[1]];
      }
    } else {
      assert g == front + [g[|g| - 1]];
    }
  }

  lemma {:induction false} StripIsShortest(g: string)
    requires Hex(g)
    ensures Strip(g) == Digits(Value(g)) && (Strip(g) == "0" <==> Value(g) == 0)
    decreases |g|
  {
    var last := g[|g| - 1];
    assert last in g;
    if |g| == 1 {
      assert g[..0] == "" && g == [last];
    } else {
      var front := g[..|g| - 1];
      assert forall c <- front :: c in g;
      StripIsShortest(front);
      StripEnds(g);
      Quotient(Value(front), DigitValue(last));
    }
  }

  lemma Quotient(q: nat, d: nat)
    requires d < 16
    ensures (16 * q + d) / 16 == q && (16 * q + d) % 16 == d && (16 * q + d < 16 <==> q == 0)
  {
  }

  lemma {:induction false} DigitsSpell(v: nat)
    ensures Hex(Digits(v)) && Value(Digits(v)) == v
  {
    var last := if v % 16 < 10 then ('0' as int + v % 16) as char else ('a' as int + v % 16 - 10) as char;
    if v < 16 {
      assert Digits(v) == [last] && [last][..0] == "";
    } else {
      DigitsSpell(v / 16);
      assert Digits(v)[..|Digits(v)| - 1] == Digits(v / 16);
    }
  }

  // ---- a whole address -------------------------------------------------------------------

  predicate NoDouble(s: string) { forall i :: 0 <= i < |s| - 1 ==> !DoubleAt(s, i) }

  /** Joined groups have no empty one: no colon at either end, and no "::". */
  lemma {:induction false} JoinedIsPlain(gs: seq<string>)
    requires forall g <- gs :: Hex(g)
    ensures var s := JoinAny(gs);
            NoDouble(s) && (s == "" <==> gs == []) && (s != "" ==> s[0] != ':' && s[|s| - 1] != ':') && (|gs| > 1 ==> ':' in s)
    decreases |gs|
  {
    if |gs| == 1 {
      GroupIsPlain(gs[0]);
    } else if gs != [] {
      assert forall g <- gs[1..] :: g in gs;
      JoinedIsPlain(gs[1..]);
      GroupIsPlain(gs[0]);
      OneMoreGroup(gs[0], JoinAny(gs[1..]));
    }
  }

  lemma GroupIsPlain(g: string)
    requires Hex(g)
    ensures NoDouble(g) && g[0] != ':' && g[|g| - 1] != ':' && ':' !in g
  {
    assert g[0] in g && g[|g| - 1] in g;
    assert forall i :: 0 <= i < |g| ==> g[i] in g;
  }

  lemma OneMoreGroup(g: string, rest: string)
    requires g != "" && ':' !in g && NoDouble(rest) && rest != "" && rest[0] != ':'
    ensures var s := g + ([':'] + rest); NoDouble(s) && ':' in s && s[0] == g[0] && s[|s| - 1] == rest[|rest| - 1]
  {
    var s := g + ([':'] + rest);
    assert s[|g|] == ':';
    forall i | 0 <= i < |s| - 1 ensures !DoubleAt(s, i) {
      if i < |g| {
        assert s[i] == g[i] && g[i] in g;
      } else {
        assert s[i + 1] == rest[i - |g|];
        assert i > |g| ==> s[i] == rest[i - |g| - 1] && !DoubleAt(rest, i - |g| - 1);
      }
    }
  }

  lemma PartsOfJoined(gs: seq<string>)
    requires forall g <- gs :: Hex(g)
    ensures Parts(JoinAny(gs)) == gs
  {
    JoinedIsPlain(gs);
    forall g | g in gs ensures ':' !in g { GroupIsPlain(g); }
    if gs != [] { SplitJoin(gs, ':'); }
  }

  lemma FindsItsDouble(l: string, r: string)
    requires NoDouble(l) && (l != "" ==> l[|l| - 1] != ':')
    ensures var s := l + "::" + r; FindDouble(s, 0) == |l| && s[..|l|] == l && s[|l| + 2..] == r
  {
    var s := l + "::" + r;
    assert s[|l|] == ':' && s[|l| + 1] == ':' && DoubleAt(s, |l|);
    forall j | 0 <= j < |l| ensures !DoubleAt(s, j) {
      assert s[j] == l[j] && (j + 1 < |l| ==> s[j + 1] == l[j + 1] && !DoubleAt(l, j));
    }
  }

  lemma {:induction false} RepeatIs(n: int)
    ensures |Repeat("0", n)| == (if n < 0 then 0 else n) && (forall g <- Repeat("0", n) :: g == "0") && SpellsGroup("0", 0)
  {
    assert "0"[..0] == "";
    if n > 0 { RepeatIs(n - 1); }
  }

  lemma SpelledAreHex(gs: seq<string>, vs: seq<nat>)
    requires SpellsGroups(gs, vs)
    ensures forall g <- gs :: Hex(g)
  {
    forall g | g in gs ensures Hex(g) {
      var i :| 0 <= i < |gs| && gs[i] == g;
      assert SpellsGroup(gs[i], vs[i]);
    }
  }

  lemma CompressedGroups(l: seq<string>, r: seq<string>, a: seq<nat>)
    requires |a| == 8 && Compressed(l, r, a)
    ensures SpellsGroups(Groups(JoinAny(l) + "::" + JoinAny(r)), a)
  {
    hide Groups, JoinAny, SpellsGroup, Repeat;
    SpelledAreHex(l, a[..|l|]);
    SpelledAreHex(r, a[8 - |r|..]);
    CompressedComesApart(l, r);
    RepeatIs(8 - |l| - |r|);
    Assembled(l, Repeat("0", 8 - |l| - |r|), r, a);
  }

  lemma CompressedComesApart(l: seq<string>, r: seq<string>)
    requires (forall g <- l :: Hex(g)) && (forall g <- r :: Hex(g))
    ensures Groups(JoinAny(l) + "::" + JoinAny(r)) == Filled(l, r)
  {
    hide *;
    JoinedIsPlain(l);
    JoinedIsPlain(r);
    FindsItsDouble(JoinAny(l), JoinAny(r));
    NoneToFind(JoinAny(r));
    PartsOfJoined(l);
    PartsOfJoined(r);
    GroupsAround(JoinAny(l) + "::" + JoinAny(r), |JoinAny(l)|, l, r);
  }

  lemma GroupsAround(lower: string, i: nat, h: seq<string>, t: seq<string>)
    requires i + 2 <= |lower| && FindDouble(lower, 0) == i
    requires Parts(lower[..i]) == h && Parts(UpToDouble(lower[i + 2..])) == t
    ensures Groups(lower) == Filled(h, t)
  {
    hide FindDouble, UpToDouble, Parts, Filled;
  }

  lemma NoneToFind(s: string)
    requires NoDouble(s)
    ensures FindDouble(s, 0) == -1 && UpToDouble(s) == s
  {
  }

  lemma Assembled(l: seq<string>, m: seq<string>, r: seq<string>, a: seq<nat>)
    requires |a| == 8 && Compressed(l, r, a) && |m| == 8 - |l| - |r| && (forall g <- m :: g == "0") && SpellsGroup("0", 0)
    ensures SpellsGroups(l + m + r, a)
  {
    hide SpellsGroup;
    forall i | 0 <= i < 8 ensures SpellsGroup((l + m + r)[i], a[i]) {
      if i < |l| {
        assert SpellsGroup(l[i], a[..|l|][i]);
      } else if i < 8 - |r| {
        assert m[i - |l|] in m;
      } else {
        assert SpellsGroup(r[i - (8 - |r|)], a[8 - |r|..][i - (8 - |r|)]);
      }
    }
  }

  lemma FullGroups(gs: seq<string>, a: seq<nat>)
    requires |a| == 8 && SpellsGroups(gs, a)
    ensures Groups(JoinAny(gs)) == gs && ':' in JoinAny(gs)
  {
    hide JoinAny, Hex, Parts, SpellsGroup;
    SpelledAreHex(gs, a);
    JoinedIsPlain(gs);
    NoneToFind(JoinAny(gs));
    PartsOfJoined(gs);
  }

  lemma LowerKeepsColons(s: string)
    ensures ':' in Lower(s) ==> ':' in s
  {
    if ':' in Lower(s) {
      var i :| 0 <= i < |s| && Lower(s)[i] == ':';
      assert s[i] == ':';
    }
  }

  /** Any spelling comes apart into eight groups that say the address. */
  lemma SpellingComesApart(addr: string, a: seq<nat>)
    requires |a| == 8 && Spells(addr, a)
    ensures ':' in addr && SpellsGroups(Groups(Lower(addr)), a)
  {
    hide Groups, SpellsGroups, Compressed, Lower;
    LowerKeepsColons(addr);
    if gs: seq<string> :| SpellsGroups(gs, a) && Lower(addr) == JoinAny(gs) {
      FullGroups(gs, a);
    } else {
      var l: seq<string>, r: seq<string> :| Compressed(l, r, a) && Lower(addr) == JoinAny(l) + "::" + JoinAny(r);
      CompressedGroups(l, r, a);
      assert Lower(addr)[|JoinAny(l)|] == ':';
    }
  }

  /** The shortest spellings of an address's first four groups. */
  function Prefix(a: seq<nat>): seq<string>
    requires |a| == 8
  {
    [Digits(a[0]), Digits(a[1]), Digits(a[2]), Digits(a[3])]
  }

  lemma BucketIsPrefix(addr: string, a: seq<nat>)
    requires |a| == 8 && Spells(addr, a)
    ensures Bucket(addr) == JoinAny(Prefix(a)) + "::/64"
  {
    hide Groups, Spells;
    SpellingComesApart(addr, a);
    var groups := Groups(Lower(addr));
    forall i | 0 <= i < 4 ensures Strip(groups[i]) == Digits(a[i]) {
      assert SpellsGroup(groups[i], a[i]);
      StripIsShortest(groups[i]);
    }
    assert Stripped(groups[..4]) == Prefix(a);
  }

  /** Every spelling of an address falls in one bucket, and two addresses share a bucket exactly when their first four groups are the same. */
  lemma OneBucketEachNetwork(one: string, a: seq<nat>, two: string, b: seq<nat>)
    requires |a| == 8 && |b| == 8 && Spells(one, a) && Spells(two, b)
    ensures Bucket(one) == Bucket(two) <==> a[..4] == b[..4]
  {
    hide Bucket, Spells, Digits, Join;
    BucketIsPrefix(one, a);
    BucketIsPrefix(two, b);
    if Bucket(one) == Bucket(two) {
      var x, y := JoinAny(Prefix(a)), JoinAny(Prefix(b));
      assert |x| == |y| && (x + "::/64")[..|x|] == x && (y + "::/64")[..|y|] == y;
      PrefixParts(a);
      PrefixParts(b);
      forall i | 0 <= i < 4 ensures a[i] == b[i] {
        assert Prefix(a)[i] == Prefix(b)[i];
        DigitsSpell(a[i]);
        DigitsSpell(b[i]);
      }
      assert a[..4] == b[..4];
    } else {
      assert a[..4] == b[..4] ==> forall i :: 0 <= i < 4 ==> a[i] == a[..4][i] == b[..4][i] == b[i];
    }
  }

  lemma PrefixParts(a: seq<nat>)
    requires |a| == 8
    ensures Parts(JoinAny(Prefix(a))) == Prefix(a)
  {
    DigitsSpell(a[0]);
    DigitsSpell(a[1]);
    DigitsSpell(a[2]);
    DigitsSpell(a[3]);
    PartsOfJoined(Prefix(a));
  }

  // ---- other addresses --------------------------------------------------------------------

  /** The same text but for the case of the letters A to Z. */
  ghost predicate SameButCase(a: string, b: string) {
    |a| == |b| && forall i :: 0 <= i < |a| ==>
      || a[i] == b[i]
      || ('A' <= a[i] <= 'Z' && b[i] as int - 'a' as int == a[i] as int - 'A' as int)
      || ('A' <= b[i] <= 'Z' && a[i] as int - 'a' as int == b[i] as int - 'A' as int)
  }

  /** Case makes no difference to a bucket. */
  lemma CaseAside(a: string, b: string)
    requires SameButCase(a, b) && ':' in a && ':' in b
    ensures Bucket(a) == Bucket(b)
  {
    assert Lower(a) == Lower(b);
  }

  /** An IPv4 address (or "unknown") is its own bucket: shared with no other address, of either kind. */
  lemma OthersAreTheirOwn(a: string, b: string)
    requires ':' !in a && a != b
    ensures Bucket(a) != Bucket(b) && Bucket(a) == a
  {
    if ':' in b {
      var groups := Groups(Lower(b));
      var head := JoinAny(Stripped(if |groups| > 4 then groups[..4] else groups));
      assert Bucket(b) == head + "::/64";
      assert Bucket(b)[|head|] == ':';
      assert ':' in Bucket(b);
    }
  }

  /** What comes after a second "::" plays no part. */
  lemma SecondDoubleIsIgnored(l: string, r: string, rest: string)
    requires NoDouble(l) && (l != "" ==> l[|l| - 1] != ':') && NoDouble(r) && (r != "" ==> r[0] != ':' && r[|r| - 1] != ':')
    ensures Groups(l + "::" + r + "::" + rest) == Groups(l + "::" + r)
  {
    assert l + "::" + r + "::" + rest == l + "::" + (r + "::" + rest);
    FindsItsDouble(l, r + "::" + rest);
    FindsItsDouble(l, r);
    FindsItsDouble(r, rest);
  }

  // ---- a visitor's bucket in the throttle -------------------------------------------------

  /** What publicClientAddress lets through: hex digits, colons and dots, or the word "unknown". */
  predicate SourceAddress(addr: string) {
    addr == "unknown" || forall c <- addr :: '0' <= c <= '9' || 'a' <= c <= 'f' || 'A' <= c <= 'F' || c == ':' || c == '.'
  }

  /** None of the letters the words looked for begin with ("user:" has an s, "pub:all" a p). */
  predicate Quiet(s: string) { forall i :: 0 <= i < |s| ==> s[i] != 's' && s[i] != 'p' }

  predicate AllQuiet(parts: seq<string>) { forall p <- parts :: Quiet(p) }

  lemma {:induction false} SplitQuiet(s: string)
    requires Quiet(s)
    ensures AllQuiet(Split(s, ':'))
  {
    if s != "" {
      SplitQuiet(s[1..]);
      var rest := Split(s[1..], ':');
      assert rest[0] in rest;
      assert Quiet([s[0]] + rest[0]);
    }
  }

  lemma {:induction false} JoinQuiet(parts: seq<string>)
    requires AllQuiet(parts)
    ensures Quiet(JoinAny(parts))
  {
    if |parts| > 1 {
      JoinQuiet(parts[1..]);
      assert parts[0] in parts && JoinAny(parts) == parts[0] + ([':'] + JoinAny(parts[1..]));
    }
  }

  lemma {:induction false} StripQuiet(g: string)
    requires Quiet(g)
    ensures Quiet(Strip(g))
  {
    if |g| > 1 && g[0] == '0' { StripQuiet(g[1..]); }
  }

  lemma {:induction false} RepeatQuiet(n: int)
    ensures AllQuiet(Repeat("0", n))
    decreases if n > 0 then n else 0
  {
    if n > 0 { RepeatQuiet(n - 1); }
  }

  lemma PartsQuiet(s: string)
    requires Quiet(s)
    ensures AllQuiet(Parts(s))
  {
    SplitQuiet(s);
  }

  lemma GroupsQuiet(lower: string)
    requires Quiet(lower)
    ensures AllQuiet(Groups(lower))
  {
    var i := FindDouble(lower, 0);
    if i < 0 {
      PartsQuiet(lower);
    } else {
      PartsQuiet(lower[..i]);
      PartsQuiet(UpToDouble(lower[i + 2..]));
      RepeatQuiet(8 - |Parts(lower[..i])| - |Parts(UpToDouble(lower[i + 2..]))|);
    }
  }

  lemma LowerQuiet(addr: string)
    requires SourceAddress(addr)
    ensures Quiet(Lower(addr)) && Quiet(addr)
  {
    if addr != "unknown" {
      assert forall i :: 0 <= i < |addr| ==> addr[i] in addr;
    }
  }

  lemma StrippedQuiet(groups: seq<string>)
    requires AllQuiet(groups)
    ensures AllQuiet(Stripped(groups))
  {
    forall i | 0 <= i < |groups| ensures Quiet(Strip(groups[i])) {
      assert groups[i] in groups;
      StripQuiet(groups[i]);
    }
  }

  lemma SuffixQuiet(head: string)
    requires Quiet(head)
    ensures Quiet(head + "::/64")
  {
  }

  lemma BucketQuiet(addr: string)
    requires SourceAddress(addr)
    ensures Quiet(Bucket(addr))
  {
    LowerQuiet(addr);
    hide Lower, SourceAddress;
    if ':' in addr {
      var groups := Groups(Lower(addr));
      GroupsQuiet(Lower(addr));
      hide Groups, Stripped, JoinAny, Quiet;
      var first := if |groups| > 4 then groups[..4] else groups;
      StrippedQuiet(first);
      JoinQuiet(Stripped(first));
      SuffixQuiet(JoinAny(Stripped(first)));
    }
  }

  lemma {:induction false} QuietHasNoWord(k: string)
    requires Quiet(k)
    ensures !Throttle.Includes(k, "user:") && !Throttle.EndsWith(k, "pub:all")
  {
    assert "user:"[1] == 's';
    if |k| >= 7 { assert k[|k| - 7..][0] == k[|k| - 7]; }
    if k != "" { QuietHasNoWord(k[1..]); }
  }

  lemma NotTheCeiling(b: string)
    requires !Throttle.EndsWith(b, "pub:all")
    ensures !Throttle.EndsWith("pub:ip:" + b, "pub:all")
  {
    var k := "pub:ip:" + b;
    Throttle.AtEndOfRest("ip:", b, "pub:all", 3);
    assert k == "pub:" + ("ip:" + b);
    assert k[0] == 'p' && k[1] == 'u' && k[2] == 'b' && k[3] == ':' && k[4] == 'i';
    if |b| >= 4 {
      assert k[|k| - 7..] == ("ip:" + b)[|b| - 4..];
    } else {
      assert k[|k| - 7..][0] == k[|b|] && k[|k| - 7..][4] == k[|b| + 4];
      assert "pub:all"[0] == 'p' && "pub:all"[4] == 'a';
    }
  }

  /** No visitor's bucket is taken for an account's, nor for the ceiling on everyone. */
  lemma VisitorsArePlain(addr: string, scope: Throttle.Scope)
    requires SourceAddress(addr)
    ensures var k := Throttle.Name(Throttle.OfClient(Throttle.Visitor(Bucket(addr))), scope);
            !Throttle.IsAccount(k) && !Throttle.IsCeiling(k)
  {
    var client := Throttle.OfClient(Throttle.Visitor(Bucket(addr)));
    BucketQuiet(addr);
    QuietHasNoWord(Bucket(addr));
    hide Bucket, Throttle.Includes, Throttle.EndsWith;
    Throttle.AccountsAreReadByName(client, scope);
    NotTheCeiling(Bucket(addr));
    Throttle.ScopeAside(Throttle.Plain(client), scope);
  }
}
