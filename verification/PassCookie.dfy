/**
 * The public pass as the text of a cookie (encodePass and decodePass in
 * src/api/publicAccess.ts): eight fields and a signature, joined by dots. The
 * signature, and how a number is written and read back, are parameters.
 */
module PassCookie {
  import opened Basics
  import opened Text

  datatype Pass = Pass(sess: string, minted: nat, seen: nat, sfAt: nat, used: bool, en: nat, g: nat)

  /** `parse` is None for what is not a finite number that is at least 0. */
  datatype Keys = Keys(sign: string -> string, show: nat -> string, parse: string -> Option<nat>)

  /** What the original's hash, HMAC (both base64url or hex) and number printing give it. */
  ghost predicate Fit(k: Keys) {
    (forall x :: '.' !in k.sign(x)) &&
    (forall n: nat :: '.' !in k.show(n) && k.parse(k.show(n)) == Some(n)) &&
    k.parse("0") == Some(0)
  }

  /** Where the last dot is (or -1). */
  function LastDot(s: string): (i: int)
    ensures -1 <= i < |s|
    ensures i >= 0 ==> s[i] == '.'
    ensures forall j :: i < j < |s| ==> s[j] != '.'
  {
    if s == "" then -1 else if s[|s| - 1] == '.' then |s| - 1 else LastDot(s[..|s| - 1])
  }

  function Fields(k: Keys, p: Pass): seq<string> {
    ["1", p.sess, k.show(p.minted), k.show(p.seen), k.show(p.sfAt), if p.used then "1" else "0", k.show(p.en), k.show(p.g)]
  }

  function Signed(k: Keys, body: string): string { body + "." + k.sign(body) }

  function Encode(k: Keys, p: Pass): string { Signed(k, Join(Fields(k, p), '.')) }

  function Decode(k: Keys, raw: string): Option<Pass> {
    var i := LastDot(raw);
    if i < 0 || raw[i + 1..] != k.sign(raw[..i]) then None else Read(k, Split(raw[..i], '.'))
  }

  /** The fields, once the signature is right; a pass from before generations has no eighth. */
  function Read(k: Keys, parts: seq<string>): Option<Pass> {
    if |parts| < 7 || parts[0] != "1" || parts[1] == "" then None
    else
      var minted, seen, sfAt, en := k.parse(parts[2]), k.parse(parts[3]), k.parse(parts[4]), k.parse(parts[6]);
      var g := k.parse(if |parts| > 7 then parts[7] else "0");
      if minted.None? || seen.None? || sfAt.None? || en.None? || g.None? then None
      else Some(Pass(parts[1], minted.value, seen.value, sfAt.value, parts[5] == "1", en.value, g.value))
  }

  /** Exactly what the fields of a signed body may say, and what they mean. */
  lemma ReadExactly(k: Keys, parts: seq<string>, p: Pass)
    ensures Read(k, parts) == Some(p) <==>
            && 7 <= |parts| && parts[0] == "1" && parts[1] == p.sess && |p.sess| > 0
            && k.parse(parts[2]) == Some(p.minted) && k.parse(parts[3]) == Some(p.seen) && k.parse(parts[4]) == Some(p.sfAt)
            && (p.used <==> parts[5] == "1") && k.parse(parts[6]) == Some(p.en)
            && (if 8 <= |parts| then k.parse(parts[7]) else k.parse("0")) == Some(p.g)
  {
  }

  // ---- what it is for -----------------------------------------------------------

  lemma LastDotOf(a: string, b: string)
    requires '.' !in b
    ensures LastDot(a + "." + b) == |a|
  {
    var s := a + "." + b;
    assert s[|a|] == '.';
    assert s[|a| + 1..] == b;
    assert forall j :: |a| < j < |s| ==> s[j] == b[j - |a| - 1];
  }

  /** Reading a signed body reads its fields. */
  lemma DecodeSigned(k: Keys, parts: seq<string>)
    requires parts != [] && '.' !in k.sign(Join(parts, '.')) && forall x <- parts :: '.' !in x
    ensures Decode(k, Signed(k, Join(parts, '.'))) == Read(k, parts)
  {
    var body := Join(parts, '.');
    LastDotOf(body, k.sign(body));
    assert Signed(k, body)[..|body|] == body;
    assert Signed(k, body)[|body| + 1..] == k.sign(body);
    SplitJoin(parts, '.');
  }

  /** A pass that was set is read back as it was. */
  lemma RoundTrip(k: Keys, p: Pass)
    requires Fit(k) && p.sess != "" && '.' !in p.sess
    ensures Decode(k, Encode(k, p)) == Some(p)
  {
    DecodeSigned(k, Fields(k, p));
  }

  /** So two different passes never share a cookie. */
  lemma CookiesDiffer(k: Keys, p: Pass, q: Pass)
    requires Fit(k) && p.sess != "" && '.' !in p.sess && q.sess != "" && '.' !in q.sess
    ensures Encode(k, p) == Encode(k, q) ==> p == q
  {
    RoundTrip(k, p);
    RoundTrip(k, q);
  }

  /** A pass from before generations is read with generation 0. */
  lemma OldPassesReadAsGenerationZero(k: Keys, p: Pass)
    requires Fit(k) && p.sess != "" && '.' !in p.sess
    ensures Decode(k, Signed(k, Join(Fields(k, p)[..7], '.'))) == Some(p.(g := 0))
  {
    assert forall x <- Fields(k, p)[..7] :: x in Fields(k, p);
    DecodeSigned(k, Fields(k, p)[..7]);
  }

  /** Nothing is accepted but a body with its own signature on it; so what is accepted says what somebody signed. */
  lemma OnlySignedBodiesAreRead(k: Keys, raw: string)
    requires Decode(k, raw).Some?
    ensures exists body: string :: raw == Signed(k, body) && Decode(k, raw) == Read(k, Split(body, '.'))
  {
    var i := LastDot(raw);
    assert raw == raw[..i] + "." + raw[i + 1..];
    assert raw == Signed(k, raw[..i]);
  }
}
