/** Frames into messages (section 5.4 of RFC 6455): MessageAssembler of src/api/consoleProxy.ts. */
module MessageAssembly {
  import opened Basics
  import opened WebSocketFrames

  /** A control frame on its own, or a whole message: its frames and their joined payload. */
  datatype Item = Control(frame: Frame) | Message(opcode: nat, frames: seq<Frame>, data: seq<Byte>)

  /** The fragments of a message still open, and their payload bytes. */
  datatype Assembly = Assembly(frames: seq<Frame>, size: nat)

  const NOTHING := Assembly([], 0)

  /** One frame taken: the assembly afterwards, and the item it completed or the exception it raised. */
  datatype Taken = Taken(next: Assembly, out: Result<Option<Item>, string>)

  function Payloads(frames: seq<Frame>): seq<seq<Byte>> {
    seq(|frames|, i requires 0 <= i < |frames| => frames[i].payload)
  }

  function TakeOne(a: Assembly, f: Frame, max: nat): Taken {
    if f.rsv != 0 then Taken(a, Err("unexpected extension bits"))
    else if f.opcode >= 8 then Taken(a, Ok(Some(Control(f))))
    else if f.opcode != 0 && a.frames != [] then Taken(a, Err("interleaved message"))
    else if f.opcode == 0 && a.frames == [] then Taken(a, Err("continuation without a start"))
    else
      var b := Assembly(a.frames + [f], a.size + |f.payload|);
      if b.size > max then Taken(b, Err("message too large"))
      else if !f.fin then Taken(b, Ok(None))
      else Taken(NOTHING, Ok(Some(Message(b.frames[0].opcode, b.frames, Flatten(Payloads(b.frames))))))
  }

  class MessageAssembler {
    var frames: seq<Frame>
    var size: nat
    const maxMessage: nat

    constructor (maxMessage: nat)
      ensures State() == NOTHING && this.maxMessage == maxMessage
    {
      frames, size := [], 0;
      this.maxMessage := maxMessage;
    }

    function State(): Assembly
      reads this
    {
      Assembly(frames, size)
    }

    method Take(f: Frame) returns (out: Result<Option<Item>, string>)
      modifies this
      ensures Taken(State(), out) == TakeOne(old(State()), f, maxMessage)
    {
      if f.rsv != 0 { return Err("unexpected extension bits"); }
      if f.opcode >= 8 { return Ok(Some(Control(f))); }
      if f.opcode != 0 && frames != [] { return Err("interleaved message"); }
      if f.opcode == 0 && frames == [] { return Err("continuation without a start"); }
      frames := frames + [f];
      size := size + |f.payload|;
      if size > maxMessage { return Err("message too large"); }
      if !f.fin { return Ok(None); }
      var done := frames;
      frames, size := [], 0;
      return Ok(Some(Message(done[0].opcode, done, Flatten(Payloads(done)))));
    }
  }

  // ---- a whole stream of frames ----------------------------------------------

  datatype Assembled = Assembled(items: seq<Item>, left: Assembly, failed: bool)

  function Assemble(a: Assembly, frames: seq<Frame>, max: nat): Assembled
    decreases |frames|
  {
    if frames == [] then Assembled([], a, false)
    else
      var t := TakeOne(a, frames[0], max);
      if t.out.Err? then Assembled([], t.next, true)
      else
        var rest := Assemble(t.next, frames[1..], max);
        Assembled((if t.out.value.Some? then [t.out.value.value] else []) + rest.items, rest.left, rest.failed)
  }

  lemma {:induction false} AssembleAppend(a: Assembly, one: seq<Frame>, two: seq<Frame>, max: nat)
    ensures var r := Assemble(a, one, max);
            var more := Assemble(r.left, two, max);
            Assemble(a, one + two, max) == if r.failed then r else Assembled(r.items + more.items, more.left, more.failed)
    decreases |one|
  {
    hide TakeOne;
    if one == [] {
      assert one + two == two;
    } else {
      assert (one + two)[0] == one[0] && (one + two)[1..] == one[1..] + two;
      var t := TakeOne(a, one[0], max);
      if t.out.Ok? {
        AssembleAppend(t.next, one[1..], two, max);
        var first := if t.out.value.Some? then [t.out.value.value] else [];
        var rest := Assemble(t.next, one[1..], max);
        Regroup(first, rest.items, Assemble(rest.left, two, max).items);
      }
    }
  }

  /** Fragments of one message: a start, then continuations, none of them extended. */
  ghost predicate Fragments(frames: seq<Frame>) {
    forall i :: 0 <= i < |frames| ==>
      && frames[i].rsv == 0 && frames[i].opcode < 8
      && (frames[i].opcode == 0 <==> i > 0)
  }

  /** What the RFC calls a message: fragments of which the last alone has FIN, and the payload they carry. */
  ghost predicate WellFormed(item: Item, max: nat) {
    match item
    case Control(f) => f.rsv == 0 && f.opcode >= 8
    case Message(opcode, frames, data) =>
      && frames != [] && Fragments(frames)
      && (forall i :: 0 <= i < |frames| ==> (frames[i].fin <==> i == |frames| - 1))
      && opcode == frames[0].opcode
      && data == Flatten(Payloads(frames)) && |data| <= max
  }

  /** What an open assembly holds: fragments without FIN, and their byte count. */
  ghost predicate Open(a: Assembly) {
    && Fragments(a.frames)
    && (forall f <- a.frames :: !f.fin)
    && a.size == |Flatten(Payloads(a.frames))|
  }

  function DataFrames(frames: seq<Frame>): seq<Frame> {
    if frames == [] then []
    else (if frames[0].opcode < 8 then [frames[0]] else []) + DataFrames(frames[1..])
  }

  function ControlFrames(frames: seq<Frame>): seq<Frame> {
    if frames == [] then []
    else (if frames[0].opcode < 8 then [] else [frames[0]]) + ControlFrames(frames[1..])
  }

  function MessageFrames(items: seq<Item>): seq<Frame> {
    if items == [] then []
    else (if items[0].Message? then items[0].frames else []) + MessageFrames(items[1..])
  }

  function Controls(items: seq<Item>): seq<Frame> {
    if items == [] then []
    else (if items[0].Control? then [items[0].frame] else []) + Controls(items[1..])
  }

  lemma TakeKeepsOpen(a: Assembly, f: Frame, max: nat)
    requires Open(a)
    ensures var t := TakeOne(a, f, max);
            t.out.Ok? ==> Open(t.next) && (t.out.value.Some? ==> WellFormed(t.out.value.value, max))
  {
    assert Payloads(a.frames + [f]) == Payloads(a.frames) + [f.payload];
    FlattenOne(Payloads(a.frames), f.payload);
  }

  /**
   * The assembler loses, invents and reorders nothing: every item is well
   * formed, the messages' frames followed by the fragments still open are the
   * data frames of the stream, and the control frames come out as they came.
   */
  lemma {:induction false} AssembleConserves(a: Assembly, frames: seq<Frame>, max: nat)
    requires Open(a)
    ensures var r := Assemble(a, frames, max);
            && (forall item <- r.items :: WellFormed(item, max))
            && (!r.failed ==>
                  && Open(r.left)
                  && a.frames + DataFrames(frames) == MessageFrames(r.items) + r.left.frames
                  && ControlFrames(frames) == Controls(r.items))
    decreases |frames|
  {
    hide Open, WellFormed, Flatten, Payloads;
    if frames == [] {
      assert a.frames + [] == [] + a.frames;
    } else {
      var f := frames[0];
      var t := TakeOne(a, f, max);
      TakeKeepsOpen(a, f, max);
      if t.out.Ok? {
        AssembleConserves(t.next, frames[1..], max);
        var rest := Assemble(t.next, frames[1..], max);
        var r := Assemble(a, frames, max);
        var head := if f.opcode < 8 then [f] else [];
        Regroup(a.frames, head, DataFrames(frames[1..]));
        if t.out.value.Some? {
          assert r.items[1..] == rest.items;
          if t.out.value.value.Message? {
            Regroup(a.frames + head, MessageFrames(rest.items), rest.left.frames);
            assert t.next.frames + DataFrames(frames[1..]) == DataFrames(frames[1..]);
          } else {
            assert a.frames + head == a.frames;
            assert MessageFrames(r.items) == MessageFrames(rest.items);
          }
        } else {
          assert r.items == rest.items;
        }
      }
    }
  }

  /**
   * Exactly which frames end the connection, and with what reason: one with
   * extension bits; a data frame that starts a message inside another, or goes
   * on with none; and one that takes a message over the cap.
   */
  lemma RefusedExactly(a: Assembly, f: Frame, max: nat)
    ensures var why := if TakeOne(a, f, max).out.Err? then TakeOne(a, f, max).out.error else "";
            && (why == "unexpected extension bits" <==> f.rsv > 0)
            && (why == "interleaved message" <==> f.rsv == 0 && 0 < f.opcode < 8 && |a.frames| > 0)
            && (why == "continuation without a start" <==> f.rsv == 0 && f.opcode == 0 && |a.frames| == 0)
            && (why == "message too large" <==>
                  f.rsv == 0 && f.opcode < 8 && (f.opcode > 0 <==> |a.frames| == 0) && |f.payload| > max - a.size)
            && (TakeOne(a, f, max).out.Ok? <==> why == "")
  {
    assert "unexpected extension bits"[0] == 'u' && "interleaved message"[0] == 'i' && "continuation without a start"[0] == 'c'
        && "message too large"[0] == 'm';
  }

  lemma {:induction false} FragmentsStayOpen(frames: seq<Frame>, k: nat, max: nat)
    requires frames != [] && WellFormed(Message(frames[0].opcode, frames, Flatten(Payloads(frames))), max) && k < |frames|
    ensures Assemble(NOTHING, frames[..k], max) == Assembled([], Assembly(frames[..k], |Flatten(Payloads(frames[..k]))|), false)
    decreases k
  {
    if k == 0 {
      assert frames[..0] == [] && Payloads([]) == [];
    } else {
      FragmentsStayOpen(frames, k - 1, max);
      NextFragment(frames, k - 1, max);
      assert frames[..k] == frames[..k - 1] + [frames[k - 1]];
      AssembleAppend(NOTHING, frames[..k - 1], [frames[k - 1]], max);
    }
  }

  /** One more fragment, when there is room for the whole message. */
  lemma NextFragment(frames: seq<Frame>, k: nat, max: nat)
    requires frames != [] && WellFormed(Message(frames[0].opcode, frames, Flatten(Payloads(frames))), max) && k < |frames|
    ensures var a := Assembly(frames[..k], |Flatten(Payloads(frames[..k]))|);
            var b := Assembly(frames[..k + 1], |Flatten(Payloads(frames[..k + 1]))|);
            Assemble(a, [frames[k]], max) ==
            if k + 1 < |frames| then Assembled([], b, false)
            else Assembled([Message(frames[0].opcode, frames, Flatten(Payloads(frames)))], NOTHING, false)
  {
    var f := frames[k];
    assert frames[..k + 1] == frames[..k] + [f] && frames[..|frames|] == frames;
    assert Payloads(frames[..k + 1]) == Payloads(frames[..k]) + [f.payload];
    FlattenOne(Payloads(frames[..k]), f.payload);
    assert frames == frames[..k + 1] + frames[k + 1..];
    assert Payloads(frames) == Payloads(frames[..k + 1]) + Payloads(frames[k + 1..]);
    FlattenAppend(Payloads(frames[..k + 1]), Payloads(frames[k + 1..]));
    assert [f][1..] == [];
  }

  /** Every message that fits comes out whole: its frames, its opcode and its joined payload, and nothing is left open. */
  lemma MessageComesOut(frames: seq<Frame>, max: nat)
    requires frames != [] && WellFormed(Message(frames[0].opcode, frames, Flatten(Payloads(frames))), max)
    ensures Assemble(NOTHING, frames, max) == Assembled([Message(frames[0].opcode, frames, Flatten(Payloads(frames)))], NOTHING, false)
  {
    var k := |frames| - 1;
    FragmentsStayOpen(frames, k, max);
    NextFragment(frames, k, max);
    assert frames == frames[..k] + [frames[k]];
    AssembleAppend(NOTHING, frames[..k], [frames[k]], max);
  }

  /** And a control frame comes out at once, between fragments too, and leaves the message open around it as it was. */
  lemma ControlPassesThrough(a: Assembly, f: Frame, max: nat)
    requires f.rsv == 0 && f.opcode >= 8
    ensures Assemble(a, [f], max) == Assembled([Control(f)], a, false)
  {
    assert [f][1..] == [];
  }
}
