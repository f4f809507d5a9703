/**
 * The CBOR reader of src/api/webauthn.ts (the subset of RFC 8949 that
 * authenticators send: definite lengths, nesting up to 8, containers up to 64,
 * safe integers). `Parse` is what cborDecode does to the bytes before it;
 * items as the standard writes them, their encoding and their meaning are
 * defined apart from it, and the two are shown to agree both ways.
 */
module Cbor {
  import opened Basics

  /** What cborDecode gives back. A text string is kept as its bytes. */
  datatype Value =
    | Int(i: int)
    | Bytes(bytes: seq<Byte>)
    | Text(utf8: seq<Byte>)
    | Array(values: seq<Value>)
    | Table(entries: seq<(Value, Value)>)
    | Bool(b: bool)
    | Null

  datatype Error = TooDeep | Truncated | TooLarge | Indefinite | TooLong | Unsupported

  const DEEPEST: nat := 8
  const LONGEST: nat := 64
  const MAX_SAFE_INTEGER: nat := 0x1F_FFFF_FFFF_FFFF

  /** A value and how many bytes it took. */
  type Parsed = Result<(Value, nat), Error>
  type ParsedItems = Result<(seq<Value>, nat), Error>

  // ---- JavaScript's Map ---------------------------------------------------------

  /** Numbers, strings, booleans and null are keys by value; a Buffer, array or Map is a key of its own each time. */
  predicate ByValue(k: Value) { k.Int? || k.Text? || k.Bool? || k.Null? }

  /** Map.set: a key that is there keeps its place and takes the new value. */
  function Set(entries: seq<(Value, Value)>, k: Value, v: Value): seq<(Value, Value)> {
    if entries == [] then [(k, v)]
    else if ByValue(k) && entries[0].0 == k then [(k, v)] + entries[1..]
    else [entries[0]] + Set(entries[1..], k, v)
  }

  /** Keys and values in turn, set one after another. */
  function TableOf(flat: seq<Value>): seq<(Value, Value)> {
    if |flat| < 2 then [] else Set(TableOf(flat[..|flat| - 2]), flat[|flat| - 2], flat[|flat| - 1])
  }

  // ---- reading --------------------------------------------------------------------

  datatype Head = Head(major: nat, info: nat, n: nat, size: nat)

  /** How many bytes of number follow the first one. */
  function Width(info: nat): nat {
    match info
    case 24 => 1
    case 25 => 2
    case 26 => 4
    case 27 => 8
    case _ => 0
  }

  function ReadHead(s: seq<Byte>): (r: Result<Head, Error>)
    requires s != []
    ensures r.Ok? ==> 1 <= r.value.size <= |s| && r.value.major < 8
  {
    var first: int := s[0];
    var info := first % 32;
    if info > 27 then Err(Indefinite)
    else if |s| < 1 + Width(info) then Err(Truncated)
    else
      var n := if info < 24 then info else ReadBE(s[1..1 + Width(info)]);
      if n > MAX_SAFE_INTEGER then Err(TooLarge) else Ok(Head(first / 32, info, n, 1 + Width(info)))
  }

  function Parse(s: seq<Byte>, depth: nat): (r: Parsed)
    ensures r.Ok? ==> 1 <= r.value.1 <= |s|
    decreases |s|, 0
  {
    if depth > DEEPEST then Err(TooDeep)
    else if s == [] then Err(Truncated)
    else
      var head := ReadHead(s);
      if head.Err? then Err(head.error) else ParseBody(s[head.value.size..], head.value, depth)
  }

  /** The rest of an item, once its head is read. */
  function ParseBody(s: seq<Byte>, h: Head, depth: nat): (r: Parsed)
    requires h.size >= 1
    ensures r.Ok? ==> h.size <= r.value.1 <= h.size + |s|
    decreases |s|, 2 * h.n + 2
  {
    match h.major
    case 0 => Ok((Int(h.n), h.size))
    case 1 => Ok((Int(-1 - h.n), h.size))
    case 2 => if |s| < h.n then Err(Truncated) else Ok((Bytes(s[..h.n]), h.size + h.n))
    case 3 => if |s| < h.n then Err(Truncated) else Ok((Text(s[..h.n]), h.size + h.n))
    case 4 =>
      if h.n > LONGEST then Err(TooLong)
      else
        var items := ParseItems(s, h.n, depth + 1);
        if items.Err? then Err(items.error) else Ok((Array(items.value.0), h.size + items.value.1))
    case 5 =>
      if h.n > LONGEST then Err(TooLong)
      else
        var items := ParseItems(s, 2 * h.n, depth + 1);
        if items.Err? then Err(items.error) else Ok((Table(TableOf(items.value.0)), h.size + items.value.1))
    case 6 =>
      var item := Parse(s, depth + 1);
      if item.Err? then item else Ok((item.value.0, h.size + item.value.1))
    case _ =>
      if h.info == 20 then Ok((Bool(false), h.size))
      else if h.info == 21 then Ok((Bool(true), h.size))
      else if h.info == 22 || h.info == 23 then Ok((Null, h.size))
      else Err(Unsupported)
  }

  /** `n` items in a row. */
  function ParseItems(s: seq<Byte>, n: nat, depth: nat): (r: ParsedItems)
    ensures r.Ok? ==> |r.value.0| == n && r.value.1 <= |s|
    decreases |s|, n + 1
  {
    if n == 0 then Ok(([], 0))
    else
      var first := Parse(s, depth);
      if first.Err? then Err(first.error)
      else
        var rest := ParseItems(s[first.value.1..], n - 1, depth);
        if rest.Err? then rest else Ok(([first.value.0] + rest.value.0, first.value.1 + rest.value.1))
  }

  // ---- the reader itself -------------------------------------------------------------

  /** What is left from an offset, also when it is past the end. */
  function From(buf: seq<Byte>, at: nat): seq<Byte> { if at <= |buf| then buf[at..] else [] }

  /** The same answer, with the offset after the item in place of its length. */
  function Shifted(at: nat, r: Parsed): Parsed { if r.Err? then r else Ok((r.value.0, at + r.value.1)) }

  /** Items already read, and what reading the others gives. */
  function After(done: seq<Value>, len: nat, rest: ParsedItems): ParsedItems {
    if rest.Err? then rest else Ok((done + rest.value.0, len + rest.value.1))
  }

  /** One more item read. */
  lemma ItemRead(s: seq<Byte>, left: nat, depth: nat, done: seq<Value>, len: nat)
    requires left > 0
    ensures var first := Parse(s, depth);
            After(done, len, ParseItems(s, left, depth)) ==
            if first.Err? then Err(first.error)
            else After(done + [first.value.0], len + first.value.1, ParseItems(s[first.value.1..], left - 1, depth))
  {
    var first := Parse(s, depth);
    if first.Ok? {
      var rest := ParseItems(s[first.value.1..], left - 1, depth);
      if rest.Ok? {
        assert done + ([first.value.0] + rest.value.0) == (done + [first.value.0]) + rest.value.0;
      }
    }
  }

  /** Nothing read yet, and nothing left to read. */
  lemma NothingRead(r: ParsedItems, done: seq<Value>, len: nat)
    ensures forall s: seq<Byte>, depth: nat :: ParseItems(s, 0, depth) == Ok(([], 0))
    ensures After([], 0, r) == r && After(done, len, Ok(([], 0))) == Ok((done, len)) && TableOf([]) == []
  {
    assert done + [] == done;
    if r.Ok? { assert [] + r.value.0 == r.value.0; }
  }

  /** cborDecode. */
  method CborDecode(buf: seq<Byte>, at: nat, depth: nat) returns (r: Parsed)
    ensures r == Shifted(at, Parse(From(buf, at), depth))
    decreases |From(buf, at)|, 0
  {
    if depth > DEEPEST { return Err(TooDeep); }
    if at >= |buf| { return Err(Truncated); }
    var head := ReadHead(buf[at..]);
    if head.Err? { return Err(head.error); }
    var p := at + head.value.size;
    assert buf[at..][head.value.size..] == buf[p..];
    r := DecodeBody(buf, p, head.value, depth);
  }

  /** Its switch on the major type. */
  method DecodeBody(buf: seq<Byte>, p: nat, h: Head, depth: nat) returns (r: Parsed)
    requires 1 <= h.size <= p <= |buf|
    ensures r == Shifted(p - h.size, ParseBody(buf[p..], h, depth))
    decreases |From(buf, p)|, 2
  {
    hide Parse, ParseItems, TableOf;
    match h.major {
      case 0 => r := Ok((Int(h.n), p));
      case 1 => r := Ok((Int(-1 - h.n), p));
      case 2 =>
        if p + h.n > |buf| { return Err(Truncated); }
        assert buf[p..][..h.n] == buf[p..p + h.n];
        r := Ok((Bytes(buf[p..p + h.n]), p + h.n));
      case 3 =>
        if p + h.n > |buf| { return Err(Truncated); }
        assert buf[p..][..h.n] == buf[p..p + h.n];
        r := Ok((Text(buf[p..p + h.n]), p + h.n));
      case 4 =>
        if h.n > LONGEST { return Err(TooLong); }
        r := DecodeArray(buf, p, h.n, depth + 1);
      case 5 =>
        if h.n > LONGEST { return Err(TooLong); }
        r := DecodeTable(buf, p, h.n, depth + 1);
      case 6 => r := CborDecode(buf, p, depth + 1);
      case _ =>
        if h.info == 20 { return Ok((Bool(false), p)); }
        if h.info == 21 { return Ok((Bool(true), p)); }
        if h.info == 22 || h.info == 23 { return Ok((Null, p)); }
        r := Err(Unsupported);
    }
  }

  /** Its array loop. */
  method DecodeArray(buf: seq<Byte>, at: nat, n: nat, depth: nat) returns (r: Parsed)
    requires at <= |buf|
    ensures var items := ParseItems(buf[at..], n, depth);
            r == if items.Err? then Err(items.error) else Ok((Array(items.value.0), at + items.value.1))
    decreases |From(buf, at)|, 1
  {
    hide Parse, ParseItems, After;
    var arr: seq<Value>, p: nat := [], at;
    NothingRead(ParseItems(buf[at..], n, depth), [], 0);
    for i := 0 to n
      invariant at <= p <= |buf| && |arr| == i
      invariant After(arr, p - at, ParseItems(buf[p..], n - i, depth)) == ParseItems(buf[at..], n, depth)
    {
      ItemRead(buf[p..], n - i, depth, arr, p - at);
      var item := CborDecode(buf, p, depth);
      if item.Err? { return Err(item.error); }
      assert buf[p..][item.value.1 - p..] == buf[item.value.1..];
      arr := arr + [item.value.0];
      p := item.value.1;
    }
    NothingRead(ParseItems(buf[p..], 0, depth), arr, p - at);
    r := Ok((Array(arr), p));
  }

  lemma TableGrows(flat: seq<Value>, k: Value, v: Value)
    ensures TableOf(flat + [k] + [v]) == Set(TableOf(flat), k, v)
  {
    var more := flat + [k] + [v];
    assert more[..|more| - 2] == flat;
  }

  /** Its map loop: a key and a value each time. */
  method DecodeTable(buf: seq<Byte>, at: nat, n: nat, depth: nat) returns (r: Parsed)
    requires at <= |buf|
    ensures var items := ParseItems(buf[at..], 2 * n, depth);
            r == if items.Err? then Err(items.error) else Ok((Table(TableOf(items.value.0)), at + items.value.1))
    decreases |From(buf, at)|, 1
  {
    hide Parse, ParseItems, TableOf, Set, After;
    var entries: seq<(Value, Value)>, p: nat := [], at;
    ghost var flat: seq<Value> := [];
    NothingRead(ParseItems(buf[at..], 2 * n, depth), [], 0);
    for i := 0 to n
      invariant at <= p <= |buf| && |flat| == 2 * i && entries == TableOf(flat)
      invariant After(flat, p - at, ParseItems(buf[p..], 2 * n - 2 * i, depth)) == ParseItems(buf[at..], 2 * n, depth)
    {
      ItemRead(buf[p..], 2 * n - 2 * i, depth, flat, p - at);
      var k := CborDecode(buf, p, depth);
      if k.Err? { return Err(k.error); }
      assert buf[p..][k.value.1 - p..] == buf[k.value.1..];
      ItemRead(buf[k.value.1..], 2 * n - 2 * i - 1, depth, flat + [k.value.0], k.value.1 - at);
      var v := CborDecode(buf, k.value.1, depth);
      if v.Err? { return Err(v.error); }
      assert buf[k.value.1..][v.value.1 - k.value.1..] == buf[v.value.1..];
      TableGrows(flat, k.value.0, v.value.0);
      entries := Set(entries, k.value.0, v.value.0);
      flat := flat + [k.value.0] + [v.value.0];
      p := v.value.1;
    }
    NothingRead(ParseItems(buf[p..], 0, depth), flat, p - at);
    r := Ok((Table(entries), p));
  }
}
