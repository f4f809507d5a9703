/**
 * WebSocket frames, as the console proxy reads and writes them (sections 5.2
 * to 5.4 of RFC 6455): FrameReader, encodeFrame and MessageAssembler of
 * src/api/consoleProxy.ts.
 *
 * A frame reader is fed chunks cut anywhere. `ReadAll` says what one long
 * buffer holds; the lemmas show that the reader finds the same frames in a
 * stream however it was cut, and that encodeFrame is its inverse.
 */
module WebSocketFrames {
  import opened Basics

  // ---- masks ---------------------------------------------------

  /** The low `bits` bits of a ^ b. */
  function XorBits(a: nat, b: nat, bits: nat): nat {
    if bits == 0 then 0 else (a + b) % 2 + 2 * XorBits(a / 2, b / 2, bits - 1)
  }

  lemma {:induction false} XorTwice(a: nat, b: nat, bits: nat)
    requires a < Pow2(bits)
    ensures XorBits(a, b, bits) < Pow2(bits)
    ensures XorBits(XorBits(a, b, bits), b, bits) == a
  {
    if bits > 0 {
      var half := XorBits(a / 2, b / 2, bits - 1);
      XorTwice(a / 2, b / 2, bits - 1);
      LowBit(a, b, half);
      hide Pow2;
      assert XorBits(a, b, bits) == (a + b) % 2 + 2 * half;
      assert XorBits((a + b) % 2 + 2 * half, b, bits) == a % 2 + 2 * (a / 2);
    }
  }

  lemma LowBit(a: nat, b: nat, half: nat)
    ensures var x := (a + b) % 2 + 2 * half; x / 2 == half && x % 2 == (a + b) % 2 && (x + b) % 2 == a % 2
  {
    assert ((a + b) % 2 + b) % 2 == a % 2;
  }

  /** a ^ b on bytes. */
  function Xor(a: Byte, b: Byte): (x: Byte) {
    XorTwice(a, b, 8);
    assert Pow2(8) == 256;
    XorBits(a, b, 8)
  }

  lemma XorInvolutive(a: Byte, b: Byte)
    ensures Xor(Xor(a, b), b) == a
  {
    XorTwice(a, b, 8);
    assert Pow2(8) == 256;
  }

  /** Bit k of a number, the lowest first. */
  predicate Bit(x: nat, k: nat) {
    if k == 0 then x % 2 == 1 else Bit(x / 2, k - 1)
  }

  lemma {:induction false} XorBitsAre(a: nat, b: nat, bits: nat, k: nat)
    requires k < bits
    ensures Bit(XorBits(a, b, bits), k) <==> Bit(a, k) != Bit(b, k)
  {
    var half := XorBits(a / 2, b / 2, bits - 1);
    LowBit(a, b, half);
    assert XorBits(a, b, bits) == (a + b) % 2 + 2 * half;
    if k > 0 { XorBitsAre(a / 2, b / 2, bits - 1, k - 1); }
    hide XorBits;
    assert ((a + b) % 2 == 1) == ((a % 2 == 1) != (b % 2 == 1));
  }

  /** Exclusive or, bit by bit: set exactly where one of the two is. */
  lemma XorIsBitwise(a: Byte, b: Byte, k: nat)
    requires k < 8
    ensures Bit(Xor(a, b), k) <==> Bit(a, k) != Bit(b, k)
  {
    XorBitsAre(a, b, 8, k);
  }

  type MaskKey = k: seq<Byte> | |k| == 4 witness [0, 0, 0, 0]

  /** Every payload byte against the masking key, which repeats every four bytes. */
  function Masked(payload: seq<Byte>, key: MaskKey): (m: seq<Byte>)
    ensures |m| == |payload|
  {
    seq(|payload|, i requires 0 <= i < |payload| => Xor(payload[i], key[i % 4]))
  }

  lemma MaskedTwice(payload: seq<Byte>, key: MaskKey)
    ensures Masked(Masked(payload, key), key) == payload
  {
    forall i | 0 <= i < |payload| ensures Masked(Masked(payload, key), key)[i] == payload[i] {
      XorInvolutive(payload[i], key[i % 4]);
    }
  }

  /** The masking loop, over the buffer it fills. */
  method MaskInto(out: array<Byte>, at: nat, payload: seq<Byte>, key: MaskKey)
    requires at + |payload| <= out.Length
    modifies out
    ensures out[..] == old(out[..at]) + Masked(payload, key) + old(out[at + |payload|..])
  {
    for i := 0 to |payload|
      invariant out[..at] == old(out[..at])
      invariant out[at + |payload|..] == old(out[at + |payload|..])
      invariant forall j :: 0 <= j < i ==> out[at + j] == Masked(payload, key)[j]
    {
      out[at + i] := Xor(payload[i], key[i % 4]);
    }
    assert out[at..at + |payload|] == Masked(payload, key);
    assert out[..] == out[..at] + out[at..at + |payload|] + out[at + |payload|..];
  }

  // ---- reading -------------------------------------------------------------

  datatype Frame = Frame(fin: bool, rsv: nat, opcode: nat, masked: bool, payload: seq<Byte>, raw: seq<Byte>)

  /** What the bytes at hand say about the next frame. */
  datatype Scan = NeedMore | TooLarge | Got(frame: Frame)

  /** The payload length, and where the field that says it ends; None until that field is here. */
  function LengthField(b: seq<Byte>): (r: Option<(nat, nat)>)
    ensures r.Some? ==> 2 <= r.value.0 <= |b|
  {
    if |b| < 2 then None
    else if b[1] % 128 == 126 then
      if |b| < 4 then None else Some((4, ReadBE(b[2..4])))
    else if b[1] % 128 == 127 then
      if |b| < 10 then None else Some((10, ReadBE(b[2..10])))
    else Some((2, b[1] % 128))
  }

  function ScanOne(b: seq<Byte>, max: nat): Scan {
    match LengthField(b)
    case None => NeedMore
    case Some((at, len)) => ScanBody(b, at, len, max)
  }

  /** The rest of a frame whose length field ends at `at` and says `len`. */
  function ScanBody(b: seq<Byte>, at: nat, len: nat, max: nat): Scan
    requires 2 <= at <= |b|
  {
    var masked := b[1] >= 128;
    var off := if masked then at + 4 else at;
    if len > max then TooLarge
    else if |b| < off + len then NeedMore
    else
      var body := b[off..off + len];
      var payload := if masked then Masked(body, b[at..at + 4]) else body;
      Got(Frame(b[0] >= 128, b[0] / 16 % 8, b[0] % 16, masked, payload, b[..off + len]))
  }

  /** A buffer read to its end: the whole frames in it, what is left, and whether the next one is over the cap. */
  datatype Reading = Reading(frames: seq<Frame>, rest: seq<Byte>, tooLarge: bool)

  function Before(frames: seq<Frame>, r: Reading): Reading {
    Reading(frames + r.frames, r.rest, r.tooLarge)
  }

  function ReadAll(b: seq<Byte>, max: nat): Reading
    decreases |b|
  {
    match ScanOne(b, max)
    case NeedMore => Reading([], b, false)
    case TooLarge => Reading([], b, true)
    case Got(f) => Before([f], ReadAll(b[|f.raw|..], max))
  }

  /** The frame reader. `Err` is the exception "frame too large". */
  class FrameReader {
    var buf: seq<Byte>
    const maxPayload: nat

    constructor (maxPayload: nat)
      ensures buf == [] && this.maxPayload == maxPayload
    {
      buf := [];
      this.maxPayload := maxPayload;
    }

    method Push(chunk: seq<Byte>) returns (r: Result<seq<Frame>, string>)
      modifies this
      ensures var all := ReadAll(old(buf) + chunk, maxPayload);
              && buf == all.rest
              && r == if all.tooLarge then Err("frame too large") else Ok(all.frames)
    {
      buf := buf + chunk;
      ghost var whole := buf;
      var out: seq<Frame> := [];
      while true
        invariant ReadAll(whole, maxPayload) == Before(out, ReadAll(buf, maxPayload))
        decreases |buf|
      {
        var next := Next(buf);
        match next {
          case NeedMore =>
            assert out + [] == out;
            return Ok(out);
          case TooLarge =>
            return Err("frame too large");
          case Got(f) =>
            ScanSelfContained(buf, maxPayload);
            BeforeTwice(out, [f], ReadAll(buf[|f.raw|..], maxPayload));
            out := out + [f];
            buf := buf[|f.raw|..];
        }
      }
    }

    method Unmasked(bytes: seq<Byte>, key: MaskKey) returns (payload: seq<Byte>)
      ensures payload == Masked(bytes, key)
    {
      var p := new Byte[|bytes|];
      MaskInto(p, 0, bytes, key);
      assert p[..] == Masked(bytes, key);
      payload := p[..];
    }

    /** One turn of the reading loop: it stops, throws, or cuts one frame off the front. */
    method Next(b: seq<Byte>) returns (s: Scan)
      ensures s == ScanOne(b, maxPayload)
    {
      hide Masked, ReadBE;
      if |b| < 2 { return NeedMore; }
      var masked := b[1] >= 128;
      var len: nat, off: nat := b[1] % 128, 2;
      if len == 126 {
        if |b| < 4 { return NeedMore; }
        len, off := ReadBE(b[2..4]), 4;
      } else if len == 127 {
        if |b| < 10 { return NeedMore; }
        len, off := ReadBE(b[2..10]), 10;
      }
      assert LengthField(b) == Some((off, len));
      if len > maxPayload { return TooLarge; }
      var maskAt := off;
      if masked { off := off + 4; }
      if |b| < off + len { return NeedMore; }
      var payload := b[off..off + len];
      if masked { payload := Unmasked(payload, b[maskAt..maskAt + 4]); }
      s := Got(Frame(b[0] >= 128, b[0] / 16 % 8, b[0] % 16, masked, payload, b[..off + len]));
    }
  }

  /** A length field, once here, stays what it is. */
  lemma LengthFieldTake(b: seq<Byte>, n: nat)
    requires LengthField(b).Some? && LengthField(b).value.0 <= n <= |b|
    ensures LengthField(b[..n]) == LengthField(b)
  {
    var at := LengthField(b).value.0;
    assert b[..n][2..at] == b[2..at];
  }

  lemma SliceOfTake(b: seq<Byte>, n: nat, i: nat, j: nat)
    requires i <= j <= n <= |b|
    ensures b[..n][i..j] == b[i..j]
  {
  }

  lemma ScanBodyTake(b: seq<Byte>, at: nat, len: nat, n: nat, max: nat)
    requires 2 <= at <= n <= |b|
    requires var off := if b[1] >= 128 then at + 4 else at; len <= max && off + len <= n
    ensures ScanBody(b[..n], at, len, max) == ScanBody(b, at, len, max)
  {
    hide Masked;
    var off := if b[1] >= 128 then at + 4 else at;
    SliceOfTake(b, n, off, off + len);
    SliceOfTake(b, n, 0, off + len);
    if b[1] >= 128 { SliceOfTake(b, n, at, at + 4); }
  }

  /** Nothing that arrives later changes a verdict already reached. */
  lemma ScanStable(b: seq<Byte>, c: seq<Byte>, max: nat)
    requires !ScanOne(b, max).NeedMore?
    ensures ScanOne(b + c, max) == ScanOne(b, max)
  {
    var d := b + c;
    var (at, len) := LengthField(b).value;
    assert b == d[..|b|];
    LengthFieldExtend(b, c);
    if len <= max {
      ScanBodyTake(d, at, len, |b|, max);
    }
  }

  lemma LengthFieldExtend(b: seq<Byte>, c: seq<Byte>)
    requires LengthField(b).Some?
    ensures LengthField(b + c) == LengthField(b)
  {
    var at := LengthField(b).value.0;
    assert (b + c)[2..at] == b[2..at];
  }

  /** A frame is found at the front of the buffer, whole, and its own bytes alone say the same. */
  lemma ScanSelfContained(b: seq<Byte>, max: nat)
    requires ScanOne(b, max).Got?
    ensures var f := ScanOne(b, max).frame;
            2 <= |f.raw| <= |b| && f.raw == b[..|f.raw|] && ScanOne(f.raw, max) == Got(f) && |f.payload| <= max
  {
    var (at, len) := LengthField(b).value;
    var n := |ScanOne(b, max).frame.raw|;
    LengthFieldTake(b, n);
    ScanBodyTake(b, at, len, n, max);
  }

  // ---- a frame against the bytes it was read from ------------------------------

  /** Four bytes as a number, the first the most significant. */
  ghost function Number(a: int, b: int, c: int, d: int): int { 0x100_0000 * a + 0x1_0000 * b + 0x100 * c + d }

  lemma TwoBytes(b: seq<Byte>)
    requires |b| == 2
    ensures ReadBE(b) == Number(0, 0, b[0], b[1])
  {
    assert b[..1] == [b[0]] && [b[0]][..0] == [];
    assert ReadBE([b[0]]) == b[0];
  }

  lemma FourBytes(b: seq<Byte>)
    requires |b| == 4
    ensures ReadBE(b) == Number(b[0], b[1], b[2], b[3])
  {
    TwoBytes(b[..2]);
    assert b[..3][..2] == b[..2];
    assert ReadBE(b[..3]) == ReadBE(b[..2]) * 256 + b[2];
  }

  /** The first 32 bits, then the last. */
  lemma EightBytes(b: seq<Byte>)
    requires |b| == 8
    ensures ReadBE(b) == 0x1_0000_0000 * Number(b[0], b[1], b[2], b[3]) + Number(b[4], b[5], b[6], b[7])
  {
    FourBytes(b[..4]);
    assert b[..7][..6] == b[..6] && b[..6][..5] == b[..5] && b[..5][..4] == b[..4];
    assert ReadBE(b[..5]) == ReadBE(b[..4]) * 256 + b[4];
    assert ReadBE(b[..6]) == ReadBE(b[..5]) * 256 + b[5];
    assert ReadBE(b[..7]) == ReadBE(b[..6]) * 256 + b[6];
  }

  /**
   * What section 5.2 of RFC 6455 says about the bytes before the payload,
   * number by number: how many there are, and the length they declare.
   */
  ghost predicate Declares(b: seq<Byte>, off: nat, len: nat) {
    && |b| >= 2
    && var key := if b[1] >= 128 then 4 else 0;
       if b[1] % 128 < 126 then off == 2 + key && len == b[1] % 128
       else if b[1] % 128 == 126 then |b| >= 4 && off == 4 + key && len == Number(0, 0, b[2], b[3])
       else
         && |b| >= 10 && off == 10 + key
         && len == 0x1_0000_0000 * Number(b[2], b[3], b[4], b[5]) + Number(b[6], b[7], b[8], b[9])
  }

  lemma LengthIsDeclared(b: seq<Byte>, off: nat, len: nat)
    ensures Declares(b, off, len) <==>
            LengthField(b).Some? && off == LengthField(b).value.0 + (if b[1] >= 128 then 4 else 0) && len == LengthField(b).value.1
  {
    if |b| >= 4 { TwoBytes(b[2..4]); }
    if |b| >= 10 { EightBytes(b[2..10]); }
  }

  /** Exactly when there is a frame at the front of the buffer, when it is over the cap, and when more bytes are needed. */
  lemma VerdictExactly(b: seq<Byte>, max: nat)
    ensures ScanOne(b, max).TooLarge? <==> exists off: nat, len: nat :: Declares(b, off, len) && len > max
    ensures ScanOne(b, max).Got? <==> exists off: nat, len: nat :: Declares(b, off, len) && len <= max && off + len <= |b|
  {
    hide Declares, LengthField, Masked;
    forall off: nat, len: nat
      ensures Declares(b, off, len) <==>
              LengthField(b).Some? && off == LengthField(b).value.0 + (if b[1] >= 128 then 4 else 0) && len == LengthField(b).value.1
    {
      LengthIsDeclared(b, off, len);
    }
    if LengthField(b).Some? {
      var (at, len) := LengthField(b).value;
      assert Declares(b, at + (if b[1] >= 128 then 4 else 0), len);
    }
  }

  /**
   * A frame as its bytes have it: the flags and opcode are the first byte's,
   * the payload is the declared number of bytes after the head, and each bit
   * of it, if the frame is masked, is the wire's bit changed by the key's,
   * the four bytes of which stand before the payload and repeat.
   */
  lemma FrameAsWritten(b: seq<Byte>, max: nat)
    requires ScanOne(b, max).Got?
    ensures var f := ScanOne(b, max).frame;
            var off := |f.raw| - |f.payload|;
            && 2 <= off <= |b| && Declares(b, off, |f.payload|) && f.raw == b[..off + |f.payload|]
            && f.rsv < 8 && f.opcode < 16 && b[0] == (if f.fin then 128 else 0) + 16 * f.rsv + f.opcode
            && (f.masked <==> b[1] >= 128)
            && (f.masked ==> off >= 6 && forall i, k :: 0 <= i < |f.payload| && 0 <= k < 8 ==>
                  (Bit(f.payload[i], k) <==> Bit(b[off + i], k) != Bit(b[off - 4 + i % 4], k)))
            && (!f.masked ==> f.payload == b[off..off + |f.payload|])
  {
    var f := ScanOne(b, max).frame;
    var (at, len) := LengthField(b).value;
    var off := if b[1] >= 128 then at + 4 else at;
    LengthIsDeclared(b, off, len);
    FirstByteIs(b[0]);
    hide Declares, LengthField;
    assert |f.payload| == len && |f.raw| == off + len;
    if f.masked {
      forall i, k | 0 <= i < len && 0 <= k < 8
        ensures Bit(f.payload[i], k) <==> Bit(b[off + i], k) != Bit(b[off - 4 + i % 4], k)
      {
        assert f.payload[i] == Xor(b[off..off + len][i], b[at..at + 4][i % 4]);
        XorIsBitwise(b[off + i], b[at + i % 4], k);
      }
    }
  }

  lemma FirstByteIs(x: Byte)
    ensures x == (if x >= 128 then 128 else 0) + 16 * (x / 16 % 8) + x % 16 && x / 16 % 8 < 8
  {
  }

  function Raws(frames: seq<Frame>): seq<seq<Byte>> {
    seq(|frames|, i requires 0 <= i < |frames| => frames[i].raw)
  }

  lemma RawsAppend(a: seq<Frame>, b: seq<Frame>)
    ensures Raws(a + b) == Raws(a) + Raws(b)
  {
  }

  /** No byte is invented, dropped or moved: the frames' raw bytes, then the leftover, are the input. */
  lemma {:induction false} ReadConserves(b: seq<Byte>, max: nat)
    ensures var r := ReadAll(b, max); Flatten(Raws(r.frames)) + r.rest == b
    decreases |b|
  {
    if ScanOne(b, max).Got? {
      ScanSelfContained(b, max);
      var f := ScanOne(b, max).frame;
      var b' := b[|f.raw|..];
      ReadConserves(b', max);
      var r' := ReadAll(b', max);
      RawsAppend([f], r'.frames);
      assert Raws([f]) == [f.raw];
      FlattenAppend([f.raw], Raws(r'.frames));
      assert Flatten([f.raw]) == f.raw + Flatten([f.raw][1..]);
    }
  }

  /** The first frame of a buffer is read off, whatever comes after the buffer. */
  lemma ReadStep(b: seq<Byte>, c: seq<Byte>, max: nat)
    requires ScanOne(b, max).Got?
    ensures var f := ScanOne(b, max).frame;
            2 <= |f.raw| <= |b| && ReadAll(b + c, max) == Before([f], ReadAll(b[|f.raw|..] + c, max))
  {
    ScanStable(b, c, max);
    ScanSelfContained(b, max);
    var n := |ScanOne(b, max).frame.raw|;
    assert (b + c)[n..] == b[n..] + c;
  }

  /** Reading in two goes is reading in one. */
  lemma {:induction false} ReadAppend(b: seq<Byte>, c: seq<Byte>, max: nat)
    ensures var r := ReadAll(b, max);
            ReadAll(b + c, max) == if r.tooLarge then r.(rest := r.rest + c) else Before(r.frames, ReadAll(r.rest + c, max))
    decreases |b|
  {
    match ScanOne(b, max) {
      case NeedMore =>
        assert [] + ReadAll(b + c, max).frames == ReadAll(b + c, max).frames;
      case TooLarge =>
        ScanStable(b, c, max);
      case Got(f) =>
        ReadStep(b, c, max);
        var b' := b[|f.raw|..];
        ReadAppend(b', c, max);
        BeforeTwice([f], ReadAll(b', max).frames, ReadAll(ReadAll(b', max).rest + c, max));
    }
  }

  lemma BeforeTwice(a: seq<Frame>, b: seq<Frame>, r: Reading)
    ensures Before(a, Before(b, r)) == Before(a + b, r)
  {
    assert a + (b + r.frames) == a + b + r.frames;
  }

  /** A reader fed one chunk after another: what each push delivers, until one throws. */
  function Feed(buf: seq<Byte>, chunks: seq<seq<Byte>>, max: nat): Reading
    decreases |chunks|
  {
    if chunks == [] then Reading([], buf, false)
    else
      var r := ReadAll(buf + chunks[0], max);
      if r.tooLarge then Reading([], r.rest, true) else Before(r.frames, Feed(r.rest, chunks[1..], max))
  }

  lemma {:induction false} FeedIsReadAll(buf: seq<Byte>, chunks: seq<seq<Byte>>, max: nat)
    requires ReadAll(buf, max) == Reading([], buf, false)
    ensures var fed, all := Feed(buf, chunks, max), ReadAll(buf + Flatten(chunks), max);
            && fed.tooLarge == all.tooLarge
            && fed.frames <= all.frames
            && (!all.tooLarge ==> fed == all)
    decreases |chunks|
  {
    if chunks == [] {
      assert buf + Flatten(chunks) == buf;
    } else {
      var b := buf + chunks[0];
      var r := ReadAll(b, max);
      assert buf + Flatten(chunks) == b + Flatten(chunks[1..]);
      ReadAppend(b, Flatten(chunks[1..]), max);
      if !r.tooLarge {
        RestIsStuck(b, max);
        FeedIsReadAll(r.rest, chunks[1..], max);
      }
    }
  }

  /** What is left over holds no whole frame. */
  lemma {:induction false} RestIsStuck(b: seq<Byte>, max: nat)
    requires !ReadAll(b, max).tooLarge
    ensures var rest := ReadAll(b, max).rest; ReadAll(rest, max) == Reading([], rest, false)
    decreases |b|
  {
    if ScanOne(b, max).Got? {
      RestIsStuck(b[|ScanOne(b, max).frame.raw|..], max);
    }
  }

  /**
   * However a stream is cut: it is refused in every cutting or in none, and
   * when it is not, the frames and the leftover are the same, and no byte is
   * lost.
   */
  lemma ChunkingIsInvisible(one: seq<seq<Byte>>, other: seq<seq<Byte>>, max: nat)
    requires Flatten(one) == Flatten(other)
    ensures Feed([], one, max).tooLarge == Feed([], other, max).tooLarge
    ensures !Feed([], one, max).tooLarge ==> Feed([], one, max) == Feed([], other, max)
    ensures var r := Feed([], one, max); !r.tooLarge ==> Flatten(Raws(r.frames)) + r.rest == Flatten(one)
  {
    FeedIsReadAll([], one, max);
    FeedIsReadAll([], other, max);
    assert [] + Flatten(one) == Flatten(one) && [] + Flatten(other) == Flatten(other);
    ReadConserves(Flatten(one), max);
  }

  /** Wherever a stream is read, every frame found in it can be the last one of a first chunk. */
  lemma {:induction false} CutAfter(s: seq<Byte>, max: nat, k: nat) returns (n: nat)
    requires k <= |ReadAll(s, max).frames|
    ensures n <= |s| && ReadAll(s[..n], max) == Reading(ReadAll(s, max).frames[..k], [], false)
    decreases k
  {
    hide ScanOne;
    if k == 0 {
      n := 0;
      NothingToRead(max);
    } else {
      var f := ScanOne(s, max).frame;
      ScanSelfContained(s, max);
      var tail := s[|f.raw|..];
      var m := CutAfter(tail, max, k - 1);
      n := |f.raw| + m;
      assert s[..n] == f.raw + tail[..m];
      ReadStep(f.raw, tail[..m], max);
      assert f.raw[|f.raw|..] + tail[..m] == tail[..m];
    }
  }

  /**
   * A push that throws keeps nothing of what it had read: of a stream with a
   * frame over the cap, cut in the right place, any number of the frames
   * before it is delivered.
   */
  lemma AnyPrefixMayBeAll(s: seq<Byte>, max: nat, k: nat) returns (cut: seq<seq<Byte>>)
    requires ReadAll(s, max).tooLarge && k <= |ReadAll(s, max).frames|
    ensures Flatten(cut) == s && Feed([], cut, max).tooLarge && Feed([], cut, max).frames == ReadAll(s, max).frames[..k]
  {
    var n := CutAfter(s, max, k);
    cut := [s[..n], s[n..]];
    hide ReadAll, Feed, Flatten;
    FeedTwo([], s[..n], s[n..], max);
    ReadAppend(s[..n], s[n..], max);
    Parts(s, n);
    var done := ReadAll(s, max).frames[..k];
    assert done + [] == done;
  }

  lemma Parts(s: seq<Byte>, n: nat)
    requires n <= |s|
    ensures s[..n] + s[n..] == s && [] + s[..n] == s[..n] && [] + s[n..] == s[n..]
  {
  }

  /** The frames delivered are the same however this stream is cut. */
  ghost predicate CutsNeverShow(s: seq<Byte>, max: nat) {
    forall one: seq<seq<Byte>>, other: seq<seq<Byte>> ::
      Flatten(one) == s && Flatten(other) == s ==> Feed([], one, max).frames == Feed([], other, max).frames
  }

  /**
   * Exactly which streams hide how they were cut: those with no frame over the
   * cap, and those whose very first frame is. In every other stream the cut
   * shows in what is delivered.
   */
  lemma ChunkingShowsOnError(s: seq<Byte>, max: nat)
    ensures CutsNeverShow(s, max) <==> !ReadAll(s, max).tooLarge || ReadAll(s, max).frames == []
  {
    hide ReadAll, Feed;
    var r := ReadAll(s, max);
    if !r.tooLarge || r.frames == [] {
      forall one: seq<seq<Byte>>, other: seq<seq<Byte>> | Flatten(one) == s && Flatten(other) == s
        ensures Feed([], one, max).frames == Feed([], other, max).frames
      {
        FedFromNothing(one, max);
        FedFromNothing(other, max);
      }
    } else {
      var none := AnyPrefixMayBeAll(s, max, 0);
      var one := AnyPrefixMayBeAll(s, max, 1);
      assert |Feed([], none, max).frames| == 0 && |Feed([], one, max).frames| == 1;
    }
  }

  lemma FedFromNothing(chunks: seq<seq<Byte>>, max: nat)
    ensures var fed, all := Feed([], chunks, max), ReadAll(Flatten(chunks), max);
            fed.frames <= all.frames && (!all.tooLarge ==> fed == all)
  {
    NothingToRead(max);
    FeedIsReadAll([], chunks, max);
    assert [] + Flatten(chunks) == Flatten(chunks);
  }

  lemma FeedOne(buf: seq<Byte>, chunk: seq<Byte>, max: nat)
    ensures var whole: seq<seq<Byte>> := [chunk];
            Flatten(whole) == chunk && Feed(buf, whole, max).tooLarge == ReadAll(buf + chunk, max).tooLarge &&
            Feed(buf, whole, max).frames == if ReadAll(buf + chunk, max).tooLarge then [] else ReadAll(buf + chunk, max).frames
  {
    hide ReadAll;
    var whole: seq<seq<Byte>> := [chunk];
    assert whole[1..] == [] && chunk + [] == chunk;
    var r := ReadAll(buf + chunk, max);
    assert r.frames + [] == r.frames;
  }

  lemma FeedTwo(buf: seq<Byte>, first: seq<Byte>, second: seq<Byte>, max: nat)
    ensures var cut: seq<seq<Byte>> := [first, second];
            var r := ReadAll(buf + first, max);
            Flatten(cut) == first + second && (!r.tooLarge ==> Feed(buf, cut, max) == Before(r.frames, Feed(r.rest, [second], max)))
    ensures var r := ReadAll(buf + first, max);
            !r.tooLarge && ReadAll(r.rest + second, max).tooLarge ==> Feed(r.rest, [second], max).tooLarge && Feed(r.rest, [second], max).frames == []
  {
    hide ReadAll;
    var cut: seq<seq<Byte>> := [first, second];
    assert cut[1..] == [second];
    FeedOne(ReadAll(buf + first, max).rest, second, max);
  }

  // ---- writing -------------------------------------------------------------

  /** The first two bytes and the length field. */
  function Head(opcode: nat, len: nat, masked: bool): (h: seq<Byte>)
    ensures |h| == if len < 126 then 2 else if len < 65536 then 4 else 10
  {
    var bit := if masked then 128 else 0;
    if len < 126 then [128 + opcode % 16, bit + len]
    else if len < 65536 then [128 + opcode % 16, bit + 126] + WriteBE(len, 2)
    else [128 + opcode % 16, bit + 127] + WriteBE(len, 8)
  }

  /** What follows the head: the random masking key and the masked payload, or the payload as it is. */
  function Body(payload: seq<Byte>, key: Option<MaskKey>): seq<Byte>
  {
    if key.Some? then key.value + Masked(payload, key.value) else payload
  }

  /** The bytes of one frame with FIN set. */
  function FrameBytes(opcode: nat, payload: seq<Byte>, key: Option<MaskKey>): seq<Byte>
  {
    Head(opcode, |payload|, key.Some?) + Body(payload, key)
  }

  /** encodeFrame: fills a buffer of exactly the frame's size. */
  method EncodeFrame(opcode: nat, payload: seq<Byte>, key: Option<MaskKey>) returns (out: array<Byte>)
    ensures fresh(out) && out[..] == FrameBytes(opcode, payload, key)
  {
    var len := |payload|;
    var head := if len < 126 then 2 else if len < 65536 then 4 else 10;
    var room := if key.Some? then 4 else 0;
    out := new Byte[head + room + len];
    PutHead(out, opcode, len, key.Some?);
    hide Masked;
    ghost var h := Head(opcode, len, key.Some?);
    if key.Some? {
      PutBytes(out, head, key.value);
      Laid(out[..], h, key.value, Masked(payload, key.value));
      MaskInto(out, head + 4, payload, key.value);
    } else {
      PutBytes(out, head, payload);
    }
  }

  lemma Laid(whole: seq<Byte>, a: seq<Byte>, b: seq<Byte>, c: seq<Byte>)
    requires |a| + |b| <= |whole| && whole == a + b + whole[|a| + |b|..]
    ensures whole[..|a| + |b|] == a + b && (a + b) + c + [] == a + (b + c)
  {
  }

  /** The first two bytes and the length field, in place. */
  method PutHead(out: array<Byte>, opcode: nat, len: nat, masked: bool)
    requires |Head(opcode, len, masked)| <= out.Length
    modifies out
    ensures out[..|Head(opcode, len, masked)|] == Head(opcode, len, masked)
  {
    out[0] := 128 + opcode % 16;
    if len < 126 {
      out[1] := len;
    } else {
      out[1] := if len < 65536 then 126 else 127;
      PutBytes(out, 2, WriteBE(len, if len < 65536 then 2 else 8));
    }
    if masked {
      out[1] := out[1] + 128;
    }
  }

  /** Buffer.copy and the fixed-width writes. */
  method PutBytes(out: array<Byte>, at: nat, bytes: seq<Byte>)
    requires at + |bytes| <= out.Length
    modifies out
    ensures out[..] == old(out[..at]) + bytes + old(out[at + |bytes|..])
  {
    forall i | 0 <= i < |bytes| {
      out[at + i] := bytes[i];
    }
    assert out[at..at + |bytes|] == bytes;
    assert out[..] == out[..at] + out[at..at + |bytes|] + out[at + |bytes|..];
  }

  lemma WidthsFit()
    ensures Pow256(2) == 65536 && Pow256(8) == 0x1_0000_0000_0000_0000
  {
    assert Pow256(4) == 0x1_0000_0000;
  }

  lemma FirstByte(opcode: nat)
    ensures (128 + opcode % 16) / 16 % 8 == 0 && (128 + opcode % 16) % 16 == opcode % 16
  {
  }

  lemma HeadThenLength(opcode: nat, len: nat, masked: bool, tail: seq<Byte>)
    requires len < 0x1_0000_0000_0000_0000
    ensures LengthField(Head(opcode, len, masked) + tail) == Some((|Head(opcode, len, masked)|, len))
  {
    var h := Head(opcode, len, masked);
    WidthsFit();
    if len >= 126 {
      assert (h + tail)[2..|h|] == WriteBE(len, |h| - 2);
      ReadWriteBE(len, |h| - 2);
    }
  }

  lemma EncodedSlices(opcode: nat, payload: seq<Byte>, key: Option<MaskKey>)
    ensures var raw, at := FrameBytes(opcode, payload, key), |Head(opcode, |payload|, key.Some?)|;
            && raw[0] == 128 + opcode % 16 && (raw[1] >= 128 <==> key.Some?)
            && |raw| == (if key.Some? then at + 4 else at) + |payload|
            && (key.Some? ==> raw[at..at + 4] == key.value && raw[at + 4..] == Masked(payload, key.value))
            && (key.None? ==> raw[at..] == payload)
  {
    hide Masked;
    var h := Head(opcode, |payload|, key.Some?);
    if key.Some? {
      Apart(h, key.value, Masked(payload, key.value));
    } else {
      Apart(h, [], payload);
      assert [] + payload == payload;
    }
  }

  lemma Apart(a: seq<Byte>, b: seq<Byte>, c: seq<Byte>)
    ensures var whole := a + (b + c);
            whole[|a|..] == b + c && whole[|a|..|a| + |b|] == b && whole[|a| + |b|..] == c
  {
  }

  lemma EncodedBody(opcode: nat, payload: seq<Byte>, key: Option<MaskKey>, max: nat)
    requires |payload| <= max
    ensures var raw, at := FrameBytes(opcode, payload, key), |Head(opcode, |payload|, key.Some?)|;
            ScanBody(raw, at, |payload|, max) == Got(Frame(true, 0, opcode % 16, key.Some?, payload, raw))
  {
    hide FrameBytes, Head, Masked;
    var raw := FrameBytes(opcode, payload, key);
    EncodedSlices(opcode, payload, key);
    FirstByte(opcode);
    assert raw[..|raw|] == raw;
    var off := |raw| - |payload|;
    assert raw[off..off + |payload|] == raw[off..];
    if key.Some? {
      MaskedTwice(payload, key.value);
    }
  }

  /** What encodeFrame writes, the reader reads back, whatever follows it on the wire. */
  lemma EncodeThenScan(opcode: nat, payload: seq<Byte>, key: Option<MaskKey>, tail: seq<Byte>, max: nat)
    requires |payload| <= max && |payload| < 0x1_0000_0000_0000_0000
    ensures var raw := FrameBytes(opcode, payload, key);
            ScanOne(raw + tail, max) == Got(Frame(true, 0, opcode % 16, key.Some?, payload, raw))
  {
    HeadThenLength(opcode, |payload|, key.Some?, Body(payload, key));
    EncodedBody(opcode, payload, key, max);
    ScanStable(FrameBytes(opcode, payload, key), tail, max);
  }

  /**
   * What is written, byte by byte: FIN and the opcode, the mask bit, the length
   * in the shortest of its forms, and nothing more than key and payload after.
   */
  lemma WrittenShortest(opcode: nat, payload: seq<Byte>, key: Option<MaskKey>)
    requires |payload| < 0x1_0000_0000_0000_0000
    ensures var raw, len := FrameBytes(opcode, payload, key), |payload|;
            && raw[0] == 128 + opcode % 16 && (raw[1] >= 128 <==> key.Some?)
            && raw[1] % 128 == (if len < 126 then len else if len < 65536 then 126 else 127)
            && Declares(raw, |raw| - len, len)
            && (key.Some? ==> raw[|raw| - len - 4..|raw| - len] == key.value)
  {
    var raw := FrameBytes(opcode, payload, key);
    EncodedSlices(opcode, payload, key);
    HeadThenLength(opcode, |payload|, key.Some?, Body(payload, key));
    LengthIsDeclared(raw, |raw| - |payload|, |payload|);
  }

  /** One call of encodeFrame. */
  datatype Outgoing = Outgoing(opcode: nat, payload: seq<Byte>, key: Option<MaskKey>) {
    ghost predicate Fits(max: nat) {
      |payload| <= max && |payload| < 0x1_0000_0000_0000_0000
    }
    function Bytes(): seq<Byte>
      {
      FrameBytes(opcode, payload, key)
    }
  }

  function Sent(out: seq<Outgoing>): seq<Byte>
  {
    if out == [] then [] else out[0].Bytes() + Sent(out[1..])
  }

  lemma ReadOne(b: seq<Byte>, max: nat)
    requires ScanOne(b, max).Got?
    ensures var f := ScanOne(b, max).frame; |f.raw| <= |b| && ReadAll(b, max) == Before([f], ReadAll(b[|f.raw|..], max))
  {
    ScanSelfContained(b, max);
  }

  lemma NothingToRead(max: nat)
    ensures ReadAll([], max) == Reading([], [], false)
  {
  }

  /** A stream of encoded frames reads back as those frames, one for one, with nothing left. */
  lemma {:induction false} StreamRoundTrip(out: seq<Outgoing>, max: nat)
    requires forall o <- out :: o.Fits(max)
    ensures var r := ReadAll(Sent(out), max);
            && !r.tooLarge && r.rest == [] && |r.frames| == |out|
            && forall i :: 0 <= i < |out| ==>
                 r.frames[i] == Frame(true, 0, out[i].opcode % 16, out[i].key.Some?, out[i].payload, out[i].Bytes())
  {
    hide ScanOne, FrameBytes;
    if out == [] {
      NothingToRead(max);
    } else {
      var o := out[0];
      var tail := Sent(out[1..]);
      StreamRoundTrip(out[1..], max);
      assert o.Fits(max);
      EncodeThenScan(o.opcode, o.payload, o.key, tail, max);
      Apart(o.Bytes(), [], tail);
      assert [] + tail == tail;
      ReadOne(o.Bytes() + tail, max);
    }
  }
}
