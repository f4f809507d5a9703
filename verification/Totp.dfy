/**
 * Authenticator codes (src/api/totp.ts, and their use in
 * src/api/secondFactor.ts): the truncation of section 5.3 of RFC 4226, the
 * three-step window of section 5.2 of RFC 6238, and over whole runs how many
 * codes of one authenticator can be accepted. The HMAC is a parameter.
 */
module Totp {
  import opened Basics
  import Text

  /** Dynamic truncation: four bytes from where the last byte's low half says, the top bit cleared. */
  function Truncate(mac: seq<Byte>): (bin: int)
    requires |mac| >= 20
    ensures 0 <= bin < 0x8000_0000
  {
    var off := mac[|mac| - 1] % 16;
    var a: int, b: int, c: int, d: int := mac[off], mac[off + 1], mac[off + 2], mac[off + 3];
    a % 128 * 0x100_0000 + b * 0x1_0000 + c * 0x100 + d
  }

  function Digit(n: nat): char { ('0' as int + n % 10) as char }

  /** The last `n` decimal digits, zeros in front. */
  function Padded(v: nat, n: nat): (s: string)
    ensures |s| == n
  {
    if n == 0 then "" else Padded(v / 10, n - 1) + [Digit(v)]
  }

  /** The number six digits spell. */
  function Value(s: string): int {
    if s == "" then 0 else 10 * Value(s[..|s| - 1]) + (s[|s| - 1] as int - '0' as int)
  }

  function Power10(n: nat): (p: nat)
    ensures p > 0
  {
    if n == 0 then 1 else 10 * Power10(n - 1)
  }

  /** The code an HMAC gives. */
  function Code(mac: seq<Byte>): string
    requires |mac| >= 20
  {
    Padded(Truncate(mac) % 1_000_000, 6)
  }

  lemma {:induction false} PaddedSpells(v: nat, n: nat)
    requires v < Power10(n)
    ensures forall c <- Padded(v, n) :: '0' <= c <= '9'
    ensures Value(Padded(v, n)) == v
  {
    if n > 0 {
      PaddedSpells(v / 10, n - 1);
      var s := Padded(v, n);
      assert s[..|s| - 1] == Padded(v / 10, n - 1);
    }
  }

  /** A code is always six digits, and they spell the truncated number's remainder. */
  lemma CodeIsSixDigits(mac: seq<Byte>)
    requires |mac| >= 20
    ensures |Code(mac)| == 6 && forall c <- Code(mac) :: '0' <= c <= '9'
    ensures Value(Code(mac)) == Truncate(mac) % 1_000_000
  {
    assert Power10(2) == 100;
    assert Power10(4) == 10_000;
    assert Power10(6) == 1_000_000;
    PaddedSpells(Truncate(mac) % 1_000_000, 6);
  }

  /**
   * Which bytes: the four that begin where the low half of the HMAC's last byte
   * says, read as one number, without its top bit (section 5.3 of RFC 4226).
   */
  lemma TruncationReads(mac: seq<Byte>, off: nat)
    requires |mac| >= 20 && off < 16 && exists high :: mac[|mac| - 1] == 16 * high + off
    ensures Truncate(mac) == ReadBE(mac[off..off + 4]) % 0x8000_0000
  {
    var b := mac[off..off + 4];
    assert b[..3][..2] == b[..2] && b[..2][..1] == b[..1] && b[..1][..0] == [];
    assert ReadBE(b[..1]) == b[0];
    assert ReadBE(b[..2]) == ReadBE(b[..1]) * 256 + b[1];
    assert ReadBE(b[..3]) == ReadBE(b[..2]) * 256 + b[2];
    var rest: int := b[1] as int * 0x1_0000 + b[2] as int * 0x100 + b[3] as int;
    assert ReadBE(b) == b[0] as int * 0x100_0000 + rest;
    TopBit(b[0], rest);
  }

  lemma TopBit(a: Byte, rest: int)
    requires 0 <= rest < 0x100_0000
    ensures (a as int * 0x100_0000 + rest) % 0x8000_0000 == a as int % 128 * 0x100_0000 + rest
  {
    assert a as int * 0x100_0000 + rest == 0x8000_0000 * (a as int / 128) + (a as int % 128 * 0x100_0000 + rest);
  }

  // ---- one check ------------------------------------------------------------------

  /** An authenticator: the code of each step. */
  type Codes = int -> string

  const STEP_MS: nat := 30_000

  /** totpStep. */
  function StepOf(atMs: nat): nat { atMs / STEP_MS }

  predicate SixDigits(typed: string) { |typed| == 6 && forall c <- typed :: '0' <= c <= '9' }

  /** The first of the three steps around `now` whose code was typed. */
  function Matched(codes: Codes, typed: string, now: nat): Option<int> {
    if codes(now - 1) == typed then Some(now - 1)
    else if codes(now) == typed then Some(now)
    else if codes(now + 1) == typed then Some(now + 1)
    else None
  }

  /** What totpVerify answers at this time, for a code typed with or without spaces. */
  function Verified(codes: Codes, code: string, atMs: nat, last: Option<int>): Option<int> {
    var typed := Text.Spaceless(code);
    if !SixDigits(typed) then None
    else
      var m := Matched(codes, typed, StepOf(atMs));
      if m.Some? && last.Some? && m.value <= last.value then None else m
  }

  /** totpVerify: every candidate is compared, whichever matches. */
  method TotpVerify(codes: Codes, code: string, atMs: nat, last: Option<int>) returns (step: Option<int>)
    ensures step == Verified(codes, code, atMs, last)
    ensures step.Some? ==> codes(step.value) == Text.Spaceless(code) && StepOf(atMs) - 1 <= step.value <= StepOf(atMs) + 1
    ensures step.Some? && last.Some? ==> last.value < step.value
  {
    var typed := Text.Spaceless(code);
    if !SixDigits(typed) { return None; }
    var now: int := StepOf(atMs);
    var candidates := [now - 1, now, now + 1];
    var matched: Option<int> := None;
    for i := 0 to 3
      invariant matched == if i > 0 && codes(now - 1) == typed then Some(now - 1)
                           else if i > 1 && codes(now) == typed then Some(now)
                           else if i > 2 && codes(now + 1) == typed then Some(now + 1)
                           else None
    {
      if codes(candidates[i]) == typed && matched == None { matched := Some(candidates[i]); }
    }
    step := if matched.Some? && last.Some? && matched.value <= last.value then None else matched;
  }

  /**
   * Exactly when a code is accepted, and for which step: six digits, once white
   * space is out of the way; the code of the step the clock is in, of the one
   * before or of the one after, the earliest if of more; and, when a step has
   * been claimed, only above that one.
   */
  lemma AcceptedExactly(codes: Codes, code: string, atMs: nat, last: Option<int>, now: nat, step: int)
    requires now * 30_000 <= atMs < (now + 1) * 30_000
    ensures var typed := Text.Spaceless(code);
            Verified(codes, code, atMs, last) == Some(step) <==>
              && |typed| == 6 && (forall i :: 0 <= i < 6 ==> '0' <= typed[i] <= '9')
              && now - 1 <= step <= now + 1 && codes(step) == typed
              && (forall earlier :: now - 1 <= earlier < step ==> codes(earlier) != typed)
              && (last.Some? ==> last.value < step)
  {
    assert StepOf(atMs) == now;
    var typed := Text.Spaceless(code);
    if |typed| == 6 {
      assert forall i :: 0 <= i < 6 ==> typed[i] in typed;
    }
  }

  // ---- runs -------------------------------------------------------------------------

  /** A code accepted: for which step, and at which step of the clock it was typed. */
  datatype Accepted = Accepted(step: int, at: nat)

  /** One authenticator: the last step claimed in the database, the requests that have matched and not yet claimed, and all that was accepted. */
  datatype World = World(last: Option<int>, matched: seq<Accepted>, accepted: seq<Accepted>)

  /** A request's check (reading the row as it is), and later its claim; `read` is what it saw, perhaps long out of date. */
  datatype Event = Check(code: string, atMs: nat, read: Option<int>) | Claim(k: nat)

  function Apply(codes: Codes, w: World, e: Event): World {
    match e
    case Check(code, atMs, read) =>
      var step := Verified(codes, code, atMs, read);
      if step.Some? then w.(matched := w.matched + [Accepted(step.value, StepOf(atMs))]) else w
    case Claim(k) =>
      if k >= |w.matched| then w
      else
        var m := w.matched[k];
        var v := w.(matched := w.matched[..k] + w.matched[k + 1..]);
        // advanceTotpStep: the row is changed only if its step is lower.
        if w.last.Some? && m.step <= w.last.value then v
        else v.(last := Some(m.step), accepted := w.accepted + [m])
  }

  function Run(codes: Codes, w: World, events: seq<Event>): World
    decreases |events|
  {
    if events == [] then w else Run(codes, Apply(codes, w, events[0]), events[1..])
  }

  /** A code that matches is on its way to being claimed. */
  lemma ChecksExactly(codes: Codes, w: World, code: string, atMs: nat, read: Option<int>)
    ensures var step := Verified(codes, code, atMs, read);
            Apply(codes, w, Check(code, atMs, read)) ==
            w.(matched := w.matched + if step.Some? then [Accepted(step.value, atMs / 30_000)] else [])
  {
    assert w.matched + [] == w.matched;
  }

  /** Its claim goes through exactly when its step is above every one claimed before; and it claims once. */
  lemma ClaimsExactly(codes: Codes, w: World, k: nat)
    requires k < |w.matched| && (forall a <- w.accepted :: w.last.Some? && a.step <= w.last.value)
    requires w.last.Some? ==> exists a <- w.accepted :: a.step == w.last.value
    ensures var m, v := w.matched[k], Apply(codes, w, Claim(k));
            && v.matched == w.matched[..k] + w.matched[k + 1..]
            && if forall a <- w.accepted :: a.step < m.step
               then v.accepted == w.accepted + [m] && v.last == Some(m.step)
               else v.accepted == w.accepted && v.last == w.last
  {
  }

  /** A run goes on from where it was. */
  lemma {:induction false} RunGoesOn(codes: Codes, w: World, events: seq<Event>, e: Event)
    ensures Run(codes, w, events + [e]) == Apply(codes, Run(codes, w, events), e)
    decreases |events|
  {
    hide Apply;
    if events == [] {
      assert [e][1..] == [];
    } else {
      assert (events + [e])[1..] == events[1..] + [e];
      RunGoesOn(codes, Apply(codes, w, events[0]), events[1..], e);
    }
  }

  predicate Rising(a: seq<Accepted>) { forall i, j :: 0 <= i < j < |a| ==> a[i].step < a[j].step }

  predicate Near(a: Accepted) { a.at - 1 <= a.step <= a.at + 1 }

  predicate Sound(w: World) {
    Rising(w.accepted) &&
    (forall a <- w.accepted :: Near(a) && w.last.Some? && a.step <= w.last.value) &&
    (forall a <- w.matched :: Near(a))
  }

  lemma ApplySound(codes: Codes, w: World, e: Event)
    requires Sound(w)
    ensures Sound(Apply(codes, w, e))
  {
    if e.Claim? && e.k < |w.matched| {
      assert w.matched[e.k] in w.matched;
    }
  }

  lemma {:induction false} RunSound(codes: Codes, w: World, events: seq<Event>)
    requires Sound(w)
    ensures Sound(Run(codes, w, events))
    decreases |events|
  {
    hide Sound, Apply;
    if events != [] {
      ApplySound(codes, w, events[0]);
      RunSound(codes, Apply(codes, w, events[0]), events[1..]);
    }
  }

  /** Those typed during the `k` steps of the clock that begin with `from`. */
  function Within(a: seq<Accepted>, from: nat, k: nat): seq<Accepted> {
    if a == [] then [] else (if from <= a[0].at < from + k then [a[0]] else []) + Within(a[1..], from, k)
  }

  /** Rising steps near their clocks: one for each step from `from - 1` to `from + k`, less those up to `low`. */
  lemma {:induction false} WithinIsBounded(a: seq<Accepted>, from: nat, k: nat, low: int)
    requires Rising(a) && forall x <- a :: Near(x) && x.step > low
    ensures var room := from + k - (if low < from - 2 then from - 2 else low);
            |Within(a, from, k)| <= if room < 0 then 0 else room
  {
    if a != [] {
      assert a[0] in a;
      assert forall x <- a[1..] :: x in a;
      if from <= a[0].at < from + k {
        assert forall i :: 0 <= i < |a[1..]| ==> a[1..][i].step > a[0].step;
        WithinIsBounded(a[1..], from, k, a[0].step);
      } else {
        WithinIsBounded(a[1..], from, k, low);
      }
    }
  }

  /**
   * In every run, however requests interleave between reading the row and
   * claiming the step: no step of one authenticator is accepted twice, and in
   * any k consecutive steps of the clock at most k + 2 codes are.
   */
  lemma NoStepTwice(codes: Codes, events: seq<Event>, from: nat, k: nat)
    ensures var a := Run(codes, World(None, [], []), events).accepted;
            Rising(a) && |Within(a, from, k)| <= k + 2
  {
    RunSound(codes, World(None, [], []), events);
    var a := Run(codes, World(None, [], []), events).accepted;
    if a != [] {
      assert forall x <- a :: x.step > a[0].step - 1;
      WithinIsBounded(a, from, k, a[0].step - 1);
    }
  }
}
