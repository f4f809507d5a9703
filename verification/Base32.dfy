/**
 * base32 as src/api/totp.ts writes and reads it (section 6 of RFC 4648,
 * without padding), against its meaning: one sequence of bits, cut into
 * eights on one side and into fives on the other. The two loops keep an
 * accumulator that must stay small enough for 32-bit shifts.
 */
module Base32 {
  import opened Basics
  import Text

  type Bits = seq<bool>

  /** What the loops' `value` may hold: far below the 2^31 where a 32-bit shift would wrap. */
  type Accumulator = x: int | 0 <= x < 0x1000

  /** The low `n` bits of a number, highest first. */
  function ToBits(v: nat, n: nat): (r: Bits)
    ensures |r| == n
  {
    if n == 0 then [] else ToBits(v / 2, n - 1) + [v % 2 == 1]
  }

  function FromBits(b: Bits): (v: nat) {
    if b == [] then 0 else 2 * FromBits(b[..|b| - 1]) + if b[|b| - 1] then 1 else 0
  }

  function BytesToBits(bytes: seq<Byte>): (r: Bits)
    ensures |r| == 8 * |bytes|
  {
    if bytes == [] then [] else ToBits(bytes[0], 8) + BytesToBits(bytes[1..])
  }

  /** Whole eights of bits; what is left over is dropped. */
  function BitsToBytes(b: Bits): (r: seq<Byte>)
    ensures |r| == |b| / 8
    decreases |b|
  {
    if |b| < 8 then [] else
      FromBitsSmall(b[..8]);
      [FromBits(b[..8])] + BitsToBytes(b[8..])
  }

  /** Fives of bits; the last is filled up with zeros. */
  function BitsToSymbols(b: Bits): (r: seq<nat>)
    ensures forall x <- r :: x < 32
    decreases |b|
  {
    if b == [] then []
    else if |b| < 5 then FromBitsSmall(b + Zeros(5 - |b|)); [FromBits(b + Zeros(5 - |b|))]
    else FromBitsSmall(b[..5]); [FromBits(b[..5])] + BitsToSymbols(b[5..])
  }

  function SymbolsToBits(symbols: seq<nat>): (r: Bits)
    ensures |r| == 5 * |symbols|
  {
    if symbols == [] then [] else ToBits(symbols[0], 5) + SymbolsToBits(symbols[1..])
  }

  function Zeros(n: nat): Bits { seq(n, _ => false) }

  /** The text for these bytes, and the bytes for a text of these symbols. */
  function EncodeSymbols(bytes: seq<Byte>): seq<nat> { BitsToSymbols(BytesToBits(bytes)) }
  function DecodeSymbols(symbols: seq<nat>): seq<Byte> { BitsToBytes(SymbolsToBits(symbols)) }

  lemma {:induction false} FromBitsSmall(b: Bits)
    ensures FromBits(b) < Pow2(|b|)
    ensures Pow2(5) == 32 && Pow2(8) == 256
  {
    if b != [] {
      FromBitsSmall(b[..|b| - 1]);
    } else {
      assert Pow2(3) == 8;
      assert Pow2(6) == 64;
    }
  }

  // ---- bits and numbers -----------------------------------------------------------

  lemma {:induction false} ToFrom(v: nat, n: nat)
    requires v < Pow2(n)
    ensures FromBits(ToBits(v, n)) == v
  {
    if n > 0 {
      ToFrom(v / 2, n - 1);
      assert ToBits(v, n)[..n - 1] == ToBits(v / 2, n - 1);
    }
  }

  lemma {:induction false} FromTo(b: Bits)
    ensures ToBits(FromBits(b), |b|) == b
  {
    if b != [] {
      FromTo(b[..|b| - 1]);
      assert b == b[..|b| - 1] + [b[|b| - 1]];
    }
  }

  /** `v >>> k`, and `v << k` where nothing is lost. */
  function Right(v: nat, k: nat): nat { if k == 0 then v else Right(v / 2, k - 1) }
  function Left(v: nat, k: nat): nat { if k == 0 then v else 2 * Left(v, k - 1) }

  /** A number's low bits, split: the upper ones are those of the number shifted down. */
  lemma {:induction false} SplitBits(v: nat, upper: nat, lower: nat)
    ensures ToBits(v, upper + lower) == ToBits(Right(v, lower), upper) + ToBits(v, lower)
  {
    if lower > 0 {
      SplitBits(v / 2, upper, lower - 1);
      assert ToBits(v, upper + lower) == ToBits(v / 2, upper + (lower - 1)) + [v % 2 == 1];
    }
  }

  /** Shifted up, a number's bits are followed by zeros. */
  lemma {:induction false} LeftBits(v: nat, n: nat, k: nat)
    ensures ToBits(Left(v, k), n + k) == ToBits(v, n) + Zeros(k)
  {
    if k > 0 {
      LeftBits(v, n, k - 1);
      assert Left(v, k) / 2 == Left(v, k - 1) && Left(v, k) % 2 == 0;
      assert Zeros(k) == Zeros(k - 1) + [false];
    }
  }

  /** `v & ((1 << n) - 1)`. */
  function Mask(v: nat, n: nat): (r: nat)
    ensures r < Pow2(n)
  {
    if n == 0 then 0 else 2 * Mask(v / 2, n - 1) + v % 2
  }

  lemma {:induction false} MaskBits(v: nat, n: nat)
    ensures ToBits(Mask(v, n), n) == ToBits(v, n)
  {
    if n > 0 {
      MaskBits(v / 2, n - 1);
      assert Mask(v, n) / 2 == Mask(v / 2, n - 1) && Mask(v, n) % 2 == v % 2;
    }
  }

  // ---- the two loops -----------------------------------------------------------------

  lemma {:induction false} SymbolsAppend(s: seq<nat>, x: nat)
    ensures SymbolsToBits(s + [x]) == SymbolsToBits(s) + ToBits(x, 5)
  {
    if s == [] {
      assert s + [x] == [x];
    } else {
      assert (s + [x])[0] == s[0] && (s + [x])[1..] == s[1..] + [x];
      SymbolsAppend(s[1..], x);
      Regroup(ToBits(s[0], 5), SymbolsToBits(s[1..]), ToBits(x, 5));
    }
  }

  lemma {:induction false} BytesAppend(s: seq<Byte>, x: Byte)
    ensures BytesToBits(s + [x]) == BytesToBits(s) + ToBits(x, 8)
  {
    if s == [] {
      assert s + [x] == [x];
    } else {
      assert (s + [x])[0] == s[0] && (s + [x])[1..] == s[1..] + [x];
      BytesAppend(s[1..], x);
      Regroup(ToBits(s[0], 8), BytesToBits(s[1..]), ToBits(x, 8));
    }
  }

  /** Symbols that spell these bits, but for fewer than five zeros, are the ones `BitsToSymbols` cuts. */
  lemma {:induction false} SymbolsAreCut(s: seq<nat>, b: Bits, pad: nat)
    requires pad < 5 && SymbolsToBits(s) == b + Zeros(pad) && forall x <- s :: x < 32
    ensures s == BitsToSymbols(b)
    decreases |s|
  {
    if s != [] {
      var bits := SymbolsToBits(s);
      assert s[0] in s && bits[..5] == ToBits(s[0], 5) && bits[5..] == SymbolsToBits(s[1..]);
      assert Pow2(5) == 32 by { FromBitsSmall([]); }
      ToFrom(s[0], 5);
      if |b| < 5 {
        assert |s| == 1;
        assert b + Zeros(5 - |b|) == bits[..5];
      } else {
        assert bits[..5] == b[..5] && bits[5..] == b[5..] + Zeros(pad);
        assert forall x <- s[1..] :: x in s;
        SymbolsAreCut(s[1..], b[5..], pad);
      }
    }
  }

  /** Bytes that spell these bits, but for fewer than eight left over, are the ones `BitsToBytes` cuts. */
  lemma {:induction false} BytesAreCut(s: seq<Byte>, b: Bits, rest: Bits)
    requires |rest| < 8 && b == BytesToBits(s) + rest
    ensures s == BitsToBytes(b)
    decreases |s|
  {
    if s != [] {
      assert b[..8] == ToBits(s[0], 8);
      assert b[8..] == BytesToBits(s[1..]) + rest;
      assert Pow2(8) == 256 by { FromBitsSmall([]); }
      ToFrom(s[0], 8);
      BytesAreCut(s[1..], b[8..], rest);
    }
  }

  /** Taking in `n` more bits. */
  lemma {:induction false} TakeIn(value: nat, bits: nat, x: nat, n: nat)
    requires x < Pow2(n)
    ensures ToBits(Left(value, n) + x, bits + n) == ToBits(value, bits) + ToBits(x, n)
  {
    if n > 0 {
      TakeIn(value, bits, x / 2, n - 1);
      var v := Left(value, n) + x;
      assert v / 2 == Left(value, n - 1) + x / 2 && v % 2 == x % 2;
      Regroup(ToBits(value, bits), ToBits(x / 2, n - 1), [x % 2 == 1]);
    }
  }

  lemma TakeInByte(done: seq<Byte>, b: Byte, out: seq<nat>, value: nat, bits: nat)
    requires SymbolsToBits(out) + ToBits(value, bits) == BytesToBits(done)
    ensures SymbolsToBits(out) + ToBits(Left(value, 8) + b, bits + 8) == BytesToBits(done + [b])
  {
    FromBitsSmall([]);
    BytesAppend(done, b);
    TakeIn(value, bits, b, 8);
    Regroup(SymbolsToBits(out), ToBits(value, bits), ToBits(b, 8));
  }

  lemma TakeInSymbol(done: seq<nat>, x: nat, out: seq<Byte>, value: nat, bits: nat)
    requires x < 32 && BytesToBits(out) + ToBits(value, bits) == SymbolsToBits(done)
    ensures BytesToBits(out) + ToBits(Left(value, 5) + x, bits + 5) == SymbolsToBits(done + [x])
  {
    FromBitsSmall([]);
    SymbolsAppend(done, x);
    TakeIn(value, bits, x, 5);
    Regroup(BytesToBits(out), ToBits(value, bits), ToBits(x, 5));
  }

  /** Giving out the top five, or the top eight. */
  lemma GiveOutSymbol(out: seq<nat>, value: nat, bits: nat)
    requires bits >= 5
    ensures var x := Mask(Right(value, bits - 5), 5);
            x < 32 && SymbolsToBits(out + [x]) + ToBits(value, bits - 5) == SymbolsToBits(out) + ToBits(value, bits)
  {
    var x := Mask(Right(value, bits - 5), 5);
    FromBitsSmall([]);
    SymbolsAppend(out, x);
    MaskBits(Right(value, bits - 5), 5);
    SplitBits(value, 5, bits - 5);
    Regroup(SymbolsToBits(out), ToBits(x, 5), ToBits(value, bits - 5));
  }

  lemma GiveOutByte(out: seq<Byte>, value: nat, bits: nat)
    requires bits >= 8
    ensures var x := Mask(Right(value, bits - 8), 8);
            x < 256 && BytesToBits(out + [x]) + ToBits(value, bits - 8) == BytesToBits(out) + ToBits(value, bits)
  {
    var x := Mask(Right(value, bits - 8), 8);
    FromBitsSmall([]);
    BytesAppend(out, x);
    MaskBits(Right(value, bits - 8), 8);
    SplitBits(value, 8, bits - 8);
    Regroup(BytesToBits(out), ToBits(x, 8), ToBits(value, bits - 8));
  }

  /** The last symbol is filled up with zeros. */
  lemma FillUp(out: seq<nat>, value: nat, bits: nat, b: Bits)
    requires 0 < bits < 5 && SymbolsToBits(out) + ToBits(value, bits) == b && forall x <- out :: x < 32
    ensures out + [Mask(Left(value, 5 - bits), 5)] == BitsToSymbols(b)
  {
    var x := Mask(Left(value, 5 - bits), 5);
    FromBitsSmall([]);
    LeftBits(value, bits, 5 - bits);
    MaskBits(Left(value, 5 - bits), 5);
    SymbolsAppend(out, x);
    Regroup(SymbolsToBits(out), ToBits(value, bits), Zeros(5 - bits));
    SymbolsAreCut(out + [x], b, 5 - bits);
  }

  lemma PowersUpTo(value: nat, bits: nat)
    requires bits < 8
    ensures Mask(value, bits) < Pow2(bits) <= (if bits < 5 then 16 else 128)
  {
    FromBitsSmall([]);
    assert Pow2(2) == 4 && Pow2(4) == 16 && Pow2(6) == 64 && Pow2(7) == 128;
  }

  /** No step's value reaches 2^12. */
  lemma StaysSmall(value: nat, bits: nat, x: nat)
    requires bits < 8 && value < Pow2(bits)
    ensures bits < 5 && x < 256 ==> Left(value, 8) + x < 0x1000
    ensures x < 32 ==> Left(value, 5) + x < 0x1000
  {
    PowersUpTo(value, bits);
    assert Left(value, 1) == 2 * value;
    assert Left(value, 2) == 4 * value;
    assert Left(value, 3) == 8 * value;
    assert Left(value, 4) == 16 * value;
    assert Left(value, 5) == 32 * value;
    assert Left(value, 6) == 64 * value;
    assert Left(value, 8) == 256 * value;
  }

  lemma Empty()
    ensures SymbolsToBits([]) == [] && BytesToBits([]) == [] && ToBits(0, 0) == [] && Pow2(0) == 1 && Zeros(0) == []
  {
  }

  /** base32Encode's loops, giving the symbols' numbers. */
  method EncodeLoop(buf: seq<Byte>) returns (out: seq<nat>)
    ensures out == EncodeSymbols(buf)
  {
    hide BitsToSymbols, SymbolsToBits, BytesToBits, ToBits, Mask, Left, Right, Pow2;
    var bits: nat, value: Accumulator := 0, 0;
    out := [];
    Empty();
    var i := 0;
    while i < |buf|
      invariant 0 <= i <= |buf|
      invariant bits < 5 && value < Pow2(bits)
      invariant forall x <- out :: x < 32
      invariant SymbolsToBits(out) + ToBits(value, bits) == BytesToBits(buf[..i])
    {
      assert buf[..i + 1] == buf[..i] + [buf[i]];
      TakeInByte(buf[..i], buf[i], out, value, bits);
      StaysSmall(value, bits, buf[i]);
      value := Left(value, 8) + buf[i];
      bits := bits + 8;
      while bits >= 5
        invariant forall x <- out :: x < 32
        invariant SymbolsToBits(out) + ToBits(value, bits) == BytesToBits(buf[..i + 1])
      {
        GiveOutSymbol(out, value, bits);
        out := out + [Mask(Right(value, bits - 5), 5)];
        bits := bits - 5;
      }
      MaskBits(value, bits);
      PowersUpTo(value, bits);
      value := Mask(value, bits);
      i := i + 1;
    }
    assert buf[..i] == buf;
    if bits > 0 {
      FillUp(out, value, bits, BytesToBits(buf));
      out := out + [Mask(Left(value, 5 - bits), 5)];
    } else {
      assert ToBits(value, 0) == Zeros(0) == [];
      SymbolsAreCut(out, BytesToBits(buf), 0);
    }
  }

  /** base32Decode's loop, on the symbols' numbers. */
  method DecodeLoop(symbols: seq<nat>) returns (out: seq<Byte>)
    requires forall x <- symbols :: x < 32
    ensures out == DecodeSymbols(symbols)
  {
    hide BitsToBytes, SymbolsToBits, BytesToBits, ToBits, Mask, Left, Right, Pow2;
    var bits: nat, value: Accumulator := 0, 0;
    out := [];
    Empty();
    for i := 0 to |symbols|
      invariant bits < 8 && value < Pow2(bits)
      invariant BytesToBits(out) + ToBits(value, bits) == SymbolsToBits(symbols[..i])
    {
      assert symbols[..i + 1] == symbols[..i] + [symbols[i]];
      assert symbols[i] in symbols;
      TakeInSymbol(symbols[..i], symbols[i], out, value, bits);
      StaysSmall(value, bits, symbols[i]);
      value := Left(value, 5) + symbols[i];
      bits := bits + 5;
      if bits >= 8 {
        GiveOutByte(out, value, bits);
        out := out + [Mask(Right(value, bits - 8), 8)];
        bits := bits - 8;
      }
      MaskBits(value, bits);
      PowersUpTo(value, bits);
      value := Mask(value, bits);
    }
    assert symbols[..|symbols|] == symbols;
    BytesAreCut(out, SymbolsToBits(symbols), ToBits(value, bits));
  }

  // ---- text -----------------------------------------------------------------------

  /** B32[x]: A to Z, then 2 to 7. */
  function Letter(x: nat): char
    requires x < 32
  {
    if x < 26 then ('A' as int + x) as char else ('2' as int + x - 26) as char
  }

  /** B32.indexOf(ch). */
  function IndexOf(ch: char): (i: int)
    ensures -1 <= i < 32
  {
    if 'A' <= ch <= 'Z' then ch as int - 'A' as int else if '2' <= ch <= '7' then ch as int - '2' as int + 26 else -1
  }

  function Upper(ch: char): char {
    if 'a' <= ch <= 'z' then (ch as int - 'a' as int + 'A' as int) as char else ch
  }

  predicate Skipped(ch: char) { Text.Space(ch) || ch == '=' || ch == '-' }

  /** What people type around the letters goes; small letters count as large ones. */
  function Clean(text: string): string {
    if text == "" then "" else (if Skipped(Upper(text[0])) then "" else [Upper(text[0])]) + Clean(text[1..])
  }

  function Letters(symbols: seq<nat>): string
    requires forall x <- symbols :: x < 32
  {
    seq(|symbols|, i requires 0 <= i < |symbols| => (assert symbols[i] in symbols; Letter(symbols[i])))
  }

  predicate Spelled(clean: string) { forall ch <- clean :: IndexOf(ch) >= 0 }

  function Indices(clean: string): (r: seq<nat>)
    requires Spelled(clean)
    ensures forall x <- r :: x < 32
  {
    seq(|clean|, i requires 0 <= i < |clean| => IndexOf(clean[i]))
  }

  function Encode(bytes: seq<Byte>): string { Letters(EncodeSymbols(bytes)) }

  function Decode(text: string): Option<seq<Byte>> {
    if Spelled(Clean(text)) then Some(DecodeSymbols(Indices(Clean(text)))) else None
  }

  /** base32Encode. */
  method EncodeText(buf: seq<Byte>) returns (text: string)
    ensures text == Encode(buf)
  {
    var symbols := EncodeLoop(buf);
    text := Letters(symbols);
  }

  /** base32Decode; None is the exception "not base32". */
  method DecodeText(text: string) returns (out: Option<seq<Byte>>)
    ensures out == Decode(text)
  {
    var clean := Clean(text);
    if !Spelled(clean) { return None; }
    var bytes := DecodeLoop(Indices(clean));
    out := Some(bytes);
  }

  // ---- the round trip -----------------------------------------------------------------

  /** The symbols cut from some bits spell those bits, with fewer than five zeros after them. */
  lemma {:induction false} CutSymbolsSpell(b: Bits)
    ensures exists pad :: 0 <= pad < 5 && SymbolsToBits(BitsToSymbols(b)) == b + Zeros(pad)
    decreases |b|
  {
    if b == [] {
      assert SymbolsToBits([]) == b + Zeros(0);
    } else if |b| < 5 {
      var last := b + Zeros(5 - |b|);
      FromTo(last);
      assert BitsToSymbols(b)[1..] == [];
      assert SymbolsToBits(BitsToSymbols(b)) == b + Zeros(5 - |b|);
    } else {
      CutSymbolsSpell(b[5..]);
      var pad :| 0 <= pad < 5 && SymbolsToBits(BitsToSymbols(b[5..])) == b[5..] + Zeros(pad);
      FromTo(b[..5]);
      assert BitsToSymbols(b)[1..] == BitsToSymbols(b[5..]);
      assert SymbolsToBits(BitsToSymbols(b)) == b + Zeros(pad);
    }
  }

  /** Reading back what was written, in symbols. */
  lemma SymbolRoundTrip(bytes: seq<Byte>)
    ensures DecodeSymbols(EncodeSymbols(bytes)) == bytes
  {
    var b := BytesToBits(bytes);
    CutSymbolsSpell(b);
    var pad :| 0 <= pad < 5 && SymbolsToBits(BitsToSymbols(b)) == b + Zeros(pad);
    BytesAreCut(bytes, b + Zeros(pad), Zeros(pad));
  }

  /** base32Decode(base32Encode(b)) is b, for every b; and so is any way of typing it that cleans up to the same letters. */
  lemma RoundTrip(bytes: seq<Byte>, text: string)
    requires Clean(text) == Clean(Encode(bytes))
    ensures Decode(text) == Some(bytes)
  {
    var letters := Encode(bytes);
    forall i | 0 <= i < |letters|
      ensures IndexOf(letters[i]) == EncodeSymbols(bytes)[i] && !Skipped(Upper(letters[i])) && Upper(letters[i]) == letters[i]
    {
      assert EncodeSymbols(bytes)[i] in EncodeSymbols(bytes);
    }
    CleanAlready(letters);
    assert Spelled(letters);
    assert Indices(letters) == EncodeSymbols(bytes);
    SymbolRoundTrip(bytes);
  }

  /** A character that people type between letters. */
  ghost predicate Between(ch: char) { Text.Space(ch) || ch == '-' || ch == '=' }

  /** These letters as somebody may type them: capitals or not, with anything of that kind between them. */
  ghost predicate TypedAs(text: string, letters: string) {
    if text == "" then letters == ""
    else if Between(text[0]) then TypedAs(text[1..], letters)
    else
      && letters != "" && TypedAs(text[1..], letters[1..])
      && (text[0] == letters[0] || ('A' <= letters[0] <= 'Z' && text[0] as int - 'a' as int == letters[0] as int - 'A' as int))
  }

  lemma {:induction false} TypedIsCleaned(text: string, letters: string)
    requires TypedAs(text, letters) && Spelled(letters)
    ensures Clean(text) == letters
  {
    if text != "" {
      if Between(text[0]) {
        BetweenIsSkipped(text[0]);
        hide Between, Skipped, Upper, IndexOf;
        TypedIsCleaned(text[1..], letters);
      } else {
        assert letters[0] in letters && IndexOf(letters[0]) >= 0;
        assert forall ch <- letters[1..] :: ch in letters;
        EitherCase(text[0], letters[0]);
        hide Between, Skipped, Upper, IndexOf;
        TypedIsCleaned(text[1..], letters[1..]);
        assert letters == [letters[0]] + letters[1..];
      }
    }
  }

  lemma BetweenIsSkipped(ch: char)
    requires Between(ch)
    ensures Skipped(Upper(ch))
  {
  }

  lemma EitherCase(typed: char, letter: char)
    requires IndexOf(letter) >= 0
    requires typed == letter || ('A' <= letter <= 'Z' && typed as int - 'a' as int == letter as int - 'A' as int)
    ensures Upper(typed) == letter && !Skipped(letter)
  {
    LetterIsNotSkipped(letter);
  }

  lemma LetterIsNotSkipped(ch: char)
    requires IndexOf(ch) >= 0
    ensures !Skipped(ch) && !Between(ch)
  {
  }

  /** However a key is typed, it is read: in small letters, in groups, with the padding or without. */
  lemma TypedAnyhow(bytes: seq<Byte>, text: string)
    requires TypedAs(text, Encode(bytes))
    ensures Decode(text) == Some(bytes)
  {
    EncodedIsSpelled(bytes);
    TypedIsCleaned(text, Encode(bytes));
    RoundTrip(bytes, Encode(bytes));
    CleanOfEncoded(bytes);
  }

  lemma EncodedIsSpelled(bytes: seq<Byte>)
    ensures Spelled(Encode(bytes))
  {
    var letters := Encode(bytes);
    forall i | 0 <= i < |letters| ensures IndexOf(letters[i]) >= 0 { assert EncodeSymbols(bytes)[i] in EncodeSymbols(bytes); }
  }

  lemma CleanOfEncoded(bytes: seq<Byte>)
    ensures Clean(Encode(bytes)) == Encode(bytes)
  {
    EncodedIsSpelled(bytes);
    var letters := Encode(bytes);
    forall i | 0 <= i < |letters| ensures !Skipped(Upper(letters[i])) && Upper(letters[i]) == letters[i] {
      assert letters[i] in letters;
      LetterIsNotSkipped(letters[i]);
    }
    CleanAlready(letters);
  }

  /** Exactly which texts are refused: those with a character that is no letter of the alphabet, large or small, and is not typed between letters. */
  lemma RefusedExactly(text: string)
    ensures Decode(text) == None <==>
            exists ch <- text :: !Between(ch) && !('A' <= ch <= 'Z') && !('a' <= ch <= 'z') && !('2' <= ch <= '7')
  {
    CleanSpells(text);
  }

  lemma {:induction false} CleanSpells(text: string)
    ensures Spelled(Clean(text)) <==>
            forall ch <- text :: Between(ch) || 'A' <= ch <= 'Z' || 'a' <= ch <= 'z' || '2' <= ch <= '7'
  {
    if text != "" {
      CleanSpells(text[1..]);
      var first := if Skipped(Upper(text[0])) then "" else [Upper(text[0])];
      OneSpells(text[0]);
      hide Skipped, Between, IndexOf, Upper;
      assert Spelled(Clean(text)) <==> Spelled(first) && Spelled(Clean(text[1..]));
      assert forall ch :: ch in text <==> ch == text[0] || ch in text[1..];
    }
  }

  lemma OneSpells(ch: char)
    ensures Skipped(Upper(ch)) || IndexOf(Upper(ch)) >= 0 <==> Between(ch) || 'A' <= ch <= 'Z' || 'a' <= ch <= 'z' || '2' <= ch <= '7'
    ensures Skipped(Upper(ch)) ==> Between(ch)
  {
  }

  lemma {:induction false} CleanAlready(text: string)
    requires forall i :: 0 <= i < |text| ==> !Skipped(Upper(text[i])) && Upper(text[i]) == text[i]
    ensures Clean(text) == text
  {
    if text != "" {
      CleanAlready(text[1..]);
      assert text == [text[0]] + text[1..];
    }
  }

  /** Two different keys never share a text. */
  lemma TextsDiffer(a: seq<Byte>, b: seq<Byte>)
    ensures Encode(a) == Encode(b) ==> a == b
  {
    RoundTrip(a, Encode(a));
    RoundTrip(b, Encode(b));
  }
}
