/**
 * CBOR items as RFC 8949 writes them (section 3), what they are encoded as
 * and what they mean; and that cborDecode reads exactly the encodings of the
 * items it supports, for every suffix, in whichever form their numbers take.
 */
module CborItems {
  import opened Basics
  import opened Cbor

  /**
   * One item: the major type, the additional information that says how its
   * number is written, the number, and what follows: bytes (major types 2
   * and 3), or items (4: that many, 5: twice that many, 6: one).
   */
  datatype Item =
    | Atom(major: nat, info: nat, n: nat, payload: seq<Byte>)
    | Group(major: nat, info: nat, n: nat, items: seq<Item>)

  /** How many bytes the number is written in after the first one: none, or 1, 2, 4 or 8. */
  function Written(info: nat): nat { if info < 24 then 0 else Pow2(info - 24) }

  lemma WidthIsWritten(info: nat)
    requires info <= 27
    ensures Width(info) == Written(info)
  {
    assert Pow2(1) == 2 && Pow2(2) == 4 && Pow2(3) == 8;
  }

  /** The number can be written that way, and is a safe integer. */
  predicate HeadFits(info: nat, n: nat) {
    info <= 27 && n <= 0x1F_FFFF_FFFF_FFFF && if info < 24 then n == info else n < Pow256(Written(info))
  }

  /** An item the reader supports, but for how deep it is nested. */
  predicate Supported(item: Item) {
    HeadFits(item.info, item.n) &&
    match item
    case Atom(major, info, n, payload) =>
      if major == 2 || major == 3 then |payload| == n
      else payload == [] && (major == 0 || major == 1 || (major == 7 && 20 <= info <= 23))
    case Group(major, info, n, items) =>
      (forall x <- items :: Supported(x)) &&
      if major == 4 then n <= 64 && |items| == n
      else if major == 5 then n <= 64 && |items| == 2 * n
      else major == 6 && |items| == 1
  }

  function EncodeHead(major: nat, info: nat, n: nat): seq<Byte>
    requires major < 8 && info <= 27
  {
    [major * 32 + info] + if info < 24 then [] else WriteBE(n, Written(info))
  }

  function Encode(item: Item): (b: seq<Byte>)
    requires Supported(item)
    ensures |b| >= 1
    decreases item, 0
  {
    EncodeHead(item.major, item.info, item.n) + if item.Atom? then item.payload else EncodeAll(item.items)
  }

  function EncodeAll(items: seq<Item>): seq<Byte>
    requires forall x <- items :: Supported(x)
    decreases items, 1
  {
    if items == [] then [] else Encode(items[0]) + EncodeAll(items[1..])
  }

  function Meaning(item: Item): Value
    requires Supported(item)
    decreases item, 0
  {
    match item
    case Atom(major, info, n, payload) =>
      if major == 0 then Int(n)
      else if major == 1 then Int(-1 - n)
      else if major == 2 then Bytes(payload)
      else if major == 3 then Text(payload)
      else if info == 20 then Bool(false) else if info == 21 then Bool(true) else Null
    case Group(major, _, _, items) =>
      if major == 4 then Array(MeaningAll(items)) else if major == 5 then Table(TableOf(MeaningAll(items))) else Meaning(items[0])
  }

  function MeaningAll(items: seq<Item>): (r: seq<Value>)
    requires forall x <- items :: Supported(x)
    ensures |r| == |items|
    decreases items, 1
  {
    if items == [] then [] else [Meaning(items[0])] + MeaningAll(items[1..])
  }

  /** Nested no deeper than `room` below where it stands. */
  predicate Fits(item: Item, room: int)
    decreases item
  {
    room >= 0 && (item.Group? ==> forall x <- item.items :: Fits(x, room - 1))
  }

  predicate AllFit(items: seq<Item>, room: int) { forall x <- items :: Fits(x, room) }

  // ---- an encoding is read ---------------------------------------------------------

  lemma HeadIsRead(major: nat, info: nat, n: nat, rest: seq<Byte>)
    requires major < 8 && HeadFits(info, n)
    ensures var s := EncodeHead(major, info, n) + rest;
            s != [] && ReadHead(s) == Ok(Head(major, info, n, 1 + Width(info))) && s[1 + Width(info)..] == rest
  {
    var s := EncodeHead(major, info, n) + rest;
    WidthIsWritten(info);
    assert info < 24 ==> Width(info) == 0;
    hide Width, Written, Pow2, Pow256, WriteBE, ReadBE;
    FirstByte(major, info);
    assert s[0] == major * 32 + info;
    assert s[1 + Width(info)..] == rest;
    if info >= 24 {
      assert s[1..1 + Width(info)] == WriteBE(n, Width(info));
      ReadWriteBE(n, Width(info));
    }
  }

  lemma FirstByte(major: nat, info: nat)
    requires major < 8 && info < 32
    ensures (major * 32 + info) / 32 == major && (major * 32 + info) % 32 == info && major * 32 + info < 256
  {
  }

  /** What the body of an item is encoded as. */
  function EncodeBody(item: Item): seq<Byte>
    requires Supported(item)
  {
    if item.Atom? then item.payload else EncodeAll(item.items)
  }

  lemma EncodedParts(item: Item, rest: seq<Byte>)
    requires Supported(item)
    ensures item.major < 8
    ensures Encode(item) + rest == EncodeHead(item.major, item.info, item.n) + (EncodeBody(item) + rest)
    ensures |Encode(item)| == 1 + Width(item.info) + |EncodeBody(item)|
  {
    WidthIsWritten(item.info);
  }

  function Verdict<T>(fits: bool, value: T, len: nat): Result<(T, nat), Error> {
    if fits then Ok((value, len)) else Err(TooDeep)
  }

  /** Reading an encoding, whatever comes after it, gives the item's meaning and its exact length, unless it is nested too deep. */
  lemma {:induction false} EncodingIsRead(item: Item, rest: seq<Byte>, depth: nat)
    requires Supported(item)
    ensures Parse(Encode(item) + rest, depth) == Verdict(Fits(item, 8 - depth), Meaning(item), |Encode(item)|)
    decreases item, 1
  {
    if depth <= DEEPEST {
      var tail := EncodeBody(item) + rest;
      var h := Head(item.major, item.info, item.n, 1 + Width(item.info));
      EncodedParts(item, rest);
      HeadIsRead(item.major, item.info, item.n, tail);
      assert Parse(Encode(item) + rest, depth) == ParseBody(tail, h, depth);
      BodyIsRead(item, rest, depth);
    }
  }

  lemma {:induction false} BodyIsRead(item: Item, rest: seq<Byte>, depth: nat)
    requires Supported(item) && depth <= DEEPEST
    ensures ParseBody(EncodeBody(item) + rest, Head(item.major, item.info, item.n, 1 + Width(item.info)), depth) ==
            Verdict(Fits(item, DEEPEST - depth), Meaning(item), |Encode(item)|)
    decreases item, 0
  {
    hide Parse, ParseItems, TableOf, Encode, Fits, AllFit, EncodeAll, MeaningAll;
    EncodedParts(item, rest);
    WhatFits(item, [], DEEPEST - depth);
    if item.Group? {
      if item.major == 6 {
        TaggedFits(item, DEEPEST - depth);
        EncodingIsRead(item.items[0], rest, depth + 1);
      } else {
        EncodingsAreRead(item.items, rest, depth + 1);
      }
    } else {
      assert (item.payload + rest)[..|item.payload|] == item.payload;
    }
  }

  /** A tag fits, and is encoded, as the item it is on. */
  lemma TaggedFits(item: Item, room: nat)
    requires Supported(item) && item.Group? && item.major == 6
    ensures EncodeAll(item.items) == Encode(item.items[0]) && (Fits(item, room) <==> Fits(item.items[0], room - 1))
  {
    assert item.items == [item.items[0]];
    OneEncoded(item.items[0]);
  }

  lemma OneEncoded(item: Item)
    requires Supported(item)
    ensures EncodeAll([item]) == Encode(item)
  {
    assert [item][1..] == [];
  }

  lemma {:induction false} EncodingsAreRead(items: seq<Item>, rest: seq<Byte>, depth: nat)
    requires forall x <- items :: Supported(x)
    ensures ParseItems(EncodeAll(items) + rest, |items|, depth) == Verdict(AllFit(items, DEEPEST - depth), MeaningAll(items), |EncodeAll(items)|)
    decreases items, 1
  {
    hide Parse, Encode, Meaning, Fits, Supported, AllFit;
    WhatFits(Atom(0, 0, 0, []), items, DEEPEST - depth);
    if items != [] {
      assert items[0] in items;
      assert forall x <- items[1..] :: x in items;
      var others := EncodeAll(items[1..]) + rest;
      var s := EncodeAll(items) + rest;
      assert s == Encode(items[0]) + others;
      EncodingIsRead(items[0], others, depth);
      assert s[|Encode(items[0])|..] == others;
      EncodingsAreRead(items[1..], rest, depth);
    }
  }

  /** Whether a list fits, first one and rest; and whether an item does, by what is in it. */
  lemma WhatFits(item: Item, items: seq<Item>, room: int)
    ensures AllFit(items, room) <==> items == [] || (Fits(items[0], room) && AllFit(items[1..], room))
    ensures Fits(item, room) <==> room >= 0 && (item.Group? ==> AllFit(item.items, room - 1))
  {
    if items != [] { assert items == [items[0]] + items[1..]; }
  }

  // ---- what is read is an encoding ----------------------------------------------------

  lemma HeadReadBack(s: seq<Byte>)
    requires s != [] && ReadHead(s).Ok?
    ensures var h := ReadHead(s).value;
            HeadFits(h.info, h.n) && h.size == 1 + Width(h.info) && s[..h.size] == EncodeHead(h.major, h.info, h.n)
  {
    var h := ReadHead(s).value;
    WidthIsWritten(h.info);
    assert h.info < 24 ==> Width(h.info) == 0;
    hide Width, Written, Pow2, Pow256, WriteBE, ReadBE;
    if h.info >= 24 {
      WriteReadBE(s[1..1 + Width(h.info)]);
      assert s[..h.size] == [s[0]] + s[1..1 + Width(h.info)];
    } else {
      assert s[..1] == [s[0]];
    }
  }

  /** The item that was read: its encoding is exactly the bytes consumed, and its meaning the value returned. */
  predicate Explains(item: Item, s: seq<Byte>, depth: nat, value: Value, len: nat) {
    Supported(item) && Fits(item, 8 - depth) && len <= |s| && s[..len] == Encode(item) && Meaning(item) == value
  }

  lemma {:induction false} ReadIsEncoding(s: seq<Byte>, depth: nat) returns (item: Item)
    requires Parse(s, depth).Ok?
    ensures Explains(item, s, depth, Parse(s, depth).value.0, Parse(s, depth).value.1)
    decreases |s|, 0
  {
    var h := ReadHead(s).value;
    HeadReadBack(s);
    var tail := s[h.size..];
    item := BodyIsEncoding(tail, h, depth);
    var len := Parse(s, depth).value.1;
    hide ParseBody, EncodeHead, Meaning, EncodeAll;
    TakeInTwo(s, h.size, len);
  }

  lemma {:induction false} BodyIsEncoding(s: seq<Byte>, h: Head, depth: nat) returns (item: Item)
    requires depth <= DEEPEST && h.size == 1 + Width(h.info) && h.major < 8 && HeadFits(h.info, h.n) && ParseBody(s, h, depth).Ok?
    ensures var r := ParseBody(s, h, depth).value;
            Supported(item) && Fits(item, DEEPEST - depth) && Meaning(item) == r.0 &&
            item.major == h.major && item.info == h.info && item.n == h.n && s[..r.1 - h.size] == EncodeBody(item)
    decreases |s|, 2 * h.n + 2
  {
    hide Parse, ParseItems, TableOf;
    if h.major == 4 || h.major == 5 {
      var items := ItemsAreEncodings(s, if h.major == 4 then h.n else 2 * h.n, depth + 1);
      item := Group(h.major, h.info, h.n, items);
    } else if h.major == 6 {
      var inner := ReadIsEncoding(s, depth + 1);
      item := Group(h.major, h.info, h.n, [inner]);
      OneEncoded(inner);
    } else {
      item := Atom(h.major, h.info, h.n, if h.major == 2 || h.major == 3 then s[..h.n] else []);
    }
  }

  lemma {:induction false} ItemsAreEncodings(s: seq<Byte>, n: nat, depth: nat) returns (items: seq<Item>)
    requires ParseItems(s, n, depth).Ok?
    ensures var r := ParseItems(s, n, depth).value;
            (forall x <- items :: Supported(x)) && AllFit(items, DEEPEST - depth) && |items| == n &&
            s[..r.1] == EncodeAll(items) && MeaningAll(items) == r.0
    decreases |s|, n + 1
  {
    hide Parse, Encode, Meaning, Fits, Supported;
    if n == 0 {
      items := [];
    } else {
      var first := Parse(s, depth).value;
      var item := ReadIsEncoding(s, depth);
      var rest := s[first.1..];
      var others := ItemsAreEncodings(rest, n - 1, depth);
      items := [item] + others;
      assert items[1..] == others;
      var len := ParseItems(s, n, depth).value.1;
      TakeInTwo(s, first.1, len);
    }
  }

  // ---- main results ---------------------------------------------------------------------

  /**
   * The bytes before the reader decode to a value of `len` bytes exactly when
   * they begin with the encoding of a supported item, no deeper than allowed,
   * that is `len` bytes long and means that value.
   */
  lemma DecodesExactlyEncodings(s: seq<Byte>, depth: nat, value: Value, len: nat)
    ensures Parse(s, depth) == Ok((value, len)) <==> exists item: Item :: Explains(item, s, depth, value, len)
  {
    if Parse(s, depth) == Ok((value, len)) {
      var item := ReadIsEncoding(s, depth);
      assert Explains(item, s, depth, value, len);
    }
    if item: Item :| Explains(item, s, depth, value, len) {
      EncodingIsRead(item, s[len..], depth);
      assert s == Encode(item) + s[len..];
    }
  }

  /** What is read depends on nothing but the bytes it took; it takes at least one, and never more than there are. */
  lemma SelfDelimiting(s: seq<Byte>, depth: nat, other: seq<Byte>)
    requires Parse(s, depth).Ok?
    ensures var r := Parse(s, depth).value;
            1 <= r.1 <= |s| && Parse(s[..r.1] + other, depth) == Ok(r)
  {
    var item := ReadIsEncoding(s, depth);
    EncodingIsRead(item, other, depth);
  }

  lemma LongerReadsTheSame(s: seq<Byte>, depth: nat, k: nat)
    requires k <= |s| && Parse(s[..k], depth).Ok?
    ensures Parse(s, depth) == Parse(s[..k], depth)
  {
    var len := Parse(s[..k], depth).value.1;
    SelfDelimiting(s[..k], depth, s[len..]);
    assert s[..k][..len] + s[len..] == s;
  }

  /** And every byte of it is needed: nothing shorter can be read. */
  lemma NoPrefixIsRead(s: seq<Byte>, depth: nat, k: nat)
    requires Parse(s, depth).Ok? && k < Parse(s, depth).value.1
    ensures Parse(s[..k], depth).Err?
  {
    if Parse(s[..k], depth).Ok? {
      LongerReadsTheSame(s, depth, k);
    }
  }

  lemma FromIs(before: seq<Byte>, after: seq<Byte>, past: nat)
    ensures From(before + after, |before|) == after && (past >= |before + after| ==> From(before + after, past) == [])
  {
  }

  /** Read at an offset, an item is the one that stands there, and the offset after it comes back; past the end there is none. */
  lemma ReadsAtOffset(before: seq<Byte>, item: Item, rest: seq<Byte>, past: nat)
    requires Supported(item) && Fits(item, 8)
    ensures var buf := before + (Encode(item) + rest);
            && Shifted(|before|, Parse(From(buf, |before|), 0)) == Ok((Meaning(item), |before| + |Encode(item)|))
            && (past >= |buf| ==> Shifted(past, Parse(From(buf, past), 0)) == Err(Truncated))
  {
    hide Parse, From, Encode, Meaning, Fits, Supported;
    var tail := Encode(item) + rest;
    FromIs(before, tail, past);
    EncodingIsRead(item, rest, 0);
    NothingThere();
    assert Parse(From(before + tail, |before|), 0) == Ok((Meaning(item), |Encode(item)|));
  }

  lemma NothingThere()
    ensures Parse([], 0) == Err(Truncated)
  {
  }

  // ---- maps --------------------------------------------------------------------------------

  /** Map.get. */
  function Get(entries: seq<(Value, Value)>, k: Value): Option<Value> {
    if entries == [] then None else if entries[0].0 == k then Some(entries[0].1) else Get(entries[1..], k)
  }

  /** The value that follows the last appearance of a key. */
  function LastValue(flat: seq<Value>, k: Value): Option<Value> {
    if |flat| < 2 then None
    else if flat[|flat| - 2] == k then Some(flat[|flat| - 1])
    else LastValue(flat[..|flat| - 2], k)
  }

  lemma {:induction false} SetThenGet(entries: seq<(Value, Value)>, k: Value, v: Value, j: Value)
    requires ByValue(j)
    ensures Get(Set(entries, k, v), j) == if j == k then Some(v) else Get(entries, j)
  {
    if entries != [] {
      SetThenGet(entries[1..], k, v, j);
    }
  }

  function Keys(entries: seq<(Value, Value)>): seq<Value> { seq(|entries|, i requires 0 <= i < |entries| => entries[i].0) }

  /** What makes a JavaScript Map take two keys for one: they are the same number, string, boolean or null. */
  ghost predicate SameKey(a: Value, b: Value) { a == b && !a.Bytes? && !a.Array? && !a.Table? }

  /** The keys stand in the order in which each first appears; a byte string, array or map is a key of its own each time. */
  lemma {:induction false} KeysInOrder(entries: seq<(Value, Value)>, k: Value, v: Value)
    ensures Keys(Set(entries, k, v)) == if exists j <- Keys(entries) :: SameKey(j, k) then Keys(entries) else Keys(entries) + [k]
    ensures (forall j <- Keys(entries) :: !SameKey(j, k)) ==> Set(entries, k, v) == entries + [(k, v)]
  {
    if entries != [] {
      var rest := entries[1..];
      KeysInOrder(rest, k, v);
      assert Keys(entries) == [entries[0].0] + Keys(rest);
      assert forall j :: j in Keys(entries) <==> j == entries[0].0 || j in Keys(rest);
      if SameKey(entries[0].0, k) {
        assert Keys([(k, v)] + rest) == [k] + Keys(rest);
      } else {
        assert Keys([entries[0]] + Set(rest, k, v)) == [entries[0].0] + Keys(Set(rest, k, v));
        assert entries == [entries[0]] + rest;
      }
    }
  }

  /** So with a pair more. */
  lemma PairAppended(flat: seq<Value>, k: Value, v: Value)
    requires |flat| % 2 == 0
    ensures TableOf(flat + [k, v]) == Set(TableOf(flat), k, v)
  {
    assert (flat + [k, v])[..|flat|] == flat;
  }

  /** A key that appears more than once means its last value, as in the JavaScript Map the reader fills. */
  lemma {:induction false} LastOneCounts(flat: seq<Value>, k: Value)
    requires !k.Bytes? && !k.Array? && !k.Table?
    ensures Get(TableOf(flat), k) == LastValue(flat, k)
    decreases |flat|
  {
    if |flat| >= 2 {
      var shorter := flat[..|flat| - 2];
      LastOneCounts(shorter, k);
      SetThenGet(TableOf(shorter), flat[|flat| - 2], flat[|flat| - 1], k);
    }
  }
}
