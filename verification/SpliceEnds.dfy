/**
 * How a spliced connection ends (spliceGuest in src/api/consoleProxy.ts):
 * exactly which bytes from either side end it, and what both sides are sent.
 */
module SpliceEnds {
  import opened Basics
  import opened WebSocketFrames
  import opened MessageAssembly
  import opened GuestMessages
  import opened GuestSplice

  /** Frames a browser may send: masked, assembling without an error, into control frames and text messages that parse. */
  ghost predicate BrowserMaySend(asm: Assembly, frames: seq<Frame>, env: Setup) {
    var all := Assemble(asm, frames, env.max);
    && (forall f <- frames :: f.masked) && !all.failed
    && forall item <- all.items :: ReadableItem(item, env)
  }

  /** A control frame, or a text message that parses. */
  ghost predicate ReadableItem(item: Item, env: Setup) {
    item.Control? || (item.opcode == 1 && env.parse(item.data).Some?)
  }

  /** Frames a gateway may send: not masked, and assembling without an error. */
  ghost predicate GatewayMaySend(asm: Assembly, frames: seq<Frame>, env: Setup) {
    (forall f <- frames :: !f.masked) && !Assemble(asm, frames, env.max).failed
  }

  lemma BrowserFrame(s: Link, f: Frame, env: Setup)
    ensures var t := ClientFrame(s, f, env);
            var taken := TakeOne(s.clientAsm, f, env.max);
            && (t.error.None? <==> f.masked && taken.out.Ok? && (taken.out.value.Some? ==> ReadableItem(taken.out.value.value, env)))
            && (t.error.None? ==> t.link.clientAsm == taken.next)
            && t.link.closed == s.closed
  {
    hide TakeOne;
  }

  lemma MoreItems(asm: Assembly, f: Frame, frames: seq<Frame>, max: nat)
    ensures var taken := TakeOne(asm, f, max);
            var all, rest := Assemble(asm, [f] + frames, max), Assemble(taken.next, frames, max);
            && (all.failed <==> taken.out.Err? || rest.failed)
            && (taken.out.Ok? ==> all.items == (if taken.out.value.Some? then [taken.out.value.value] else []) + rest.items)
  {
    hide TakeOne;
    assert ([f] + frames)[0] == f && ([f] + frames)[1..] == frames;
  }

  lemma {:induction false} BrowserFrames(s: Link, frames: seq<Frame>, env: Setup)
    ensures var t := ClientFrames(s, frames, env);
            (t.error.None? <==> BrowserMaySend(s.clientAsm, frames, env)) && t.link.closed == s.closed
    decreases |frames|
  {
    if frames != [] {
      BrowserFrame(s, frames[0], env);
      MoreItems(s.clientAsm, frames[0], frames[1..], env.max);
      assert frames == [frames[0]] + frames[1..];
      var t := ClientFrame(s, frames[0], env);
      hide ClientFrame, TakeOne, Assemble;
      if t.error.None? { BrowserFrames(t.link, frames[1..], env); }
      OneMore(s.clientAsm, frames, env);
    }
  }

  lemma OneMore(asm: Assembly, frames: seq<Frame>, env: Setup)
    requires frames != []
    ensures var f, taken := frames[0], TakeOne(asm, frames[0], env.max);
            BrowserMaySend(asm, frames, env) <==>
              f.masked && taken.out.Ok? && BrowserMaySend(taken.next, frames[1..], env) &&
              (taken.out.value.Some? ==> ReadableItem(taken.out.value.value, env))
  {
    MoreItems(asm, frames[0], frames[1..], env.max);
    assert frames == [frames[0]] + frames[1..];
    hide Assemble, TakeOne;
  }

  lemma {:induction false} GatewayFramesEnd(s: Link, frames: seq<Frame>, env: Setup)
    ensures var t := GatewayFrames(s, frames, env);
            (t.error.None? <==> GatewayMaySend(s.gatewayAsm, frames, env)) && t.link.closed == s.closed
    decreases |frames|
  {
    if frames != [] {
      var t := GatewayFrame(s, frames[0], env);
      var taken := TakeOne(s.gatewayAsm, frames[0], env.max);
      GatewayOne(s, frames[0], env);
      MoreItems(s.gatewayAsm, frames[0], frames[1..], env.max);
      assert frames == [frames[0]] + frames[1..];
      hide GatewayFrame, TakeOne, Assemble;
      if t.error.None? { GatewayFramesEnd(t.link, frames[1..], env); }
    }
  }

  lemma GatewayOne(s: Link, f: Frame, env: Setup)
    ensures var t := GatewayFrame(s, f, env);
            var taken := TakeOne(s.gatewayAsm, f, env.max);
            && (t.error.None? <==> !f.masked && taken.out.Ok?)
            && (t.error.None? ==> t.link.gatewayAsm == taken.next) && t.link.closed == s.closed
  {
    hide TakeOne;
  }

  /** Both sides are sent a close frame with this code and a reason that begins like this, last of all. */
  ghost predicate EndsWithClose(v: Link, code: nat, prefix: string, env: Setup) {
    exists why: string ::
      && |v.down| > 0 && v.down[|v.down| - 1] == CloseFrame(code, prefix + why, None)
      && |v.up| > 0 && v.up[|v.up| - 1] == CloseFrame(code, prefix + why, Some(env.closeKey))
  }

  /**
   * Exactly which chunks from the browser end the connection: those that
   * complete a frame over the cap, or bring a frame a browser may not send. Then
   * both sides are told so, as a refusal; and otherwise it stays open.
   */
  lemma BrowserEndsItExactly(s: Link, chunk: seq<Byte>, env: Setup)
    requires !s.closed
    ensures var r, v := ReadAll(s.clientBuf + chunk, env.max), OnClient(s, chunk, env);
            && (v.closed <==> r.tooLarge || !BrowserMaySend(s.clientAsm, r.frames, env))
            && (v.closed ==> EndsWithClose(v, 1008, "refused: ", env))
  {
    var r := ReadAll(s.clientBuf + chunk, env.max);
    var s1 := s.(clientBuf := r.rest);
    hide ReadAll, BrowserMaySend, CloseFrame, ClientFrames;
    BrowserFrames(s1, r.frames, env);
  }

  /** And the same of the gateway, whose fault is told as the gateway's. */
  lemma GatewayEndsItExactly(s: Link, chunk: seq<Byte>, env: Setup)
    requires !s.closed
    ensures var r, v := ReadAll(s.gatewayBuf + chunk, env.max), OnGateway(s, chunk, env);
            && (v.closed <==> r.tooLarge || !GatewayMaySend(s.gatewayAsm, r.frames, env))
            && (v.closed ==> EndsWithClose(v, 1011, "gateway: ", env))
  {
    var r := ReadAll(s.gatewayBuf + chunk, env.max);
    var s1 := s.(gatewayBuf := r.rest);
    hide ReadAll, GatewayMaySend, CloseFrame, GatewayFrames;
    GatewayFramesEnd(s1, r.frames, env);
  }

  /** Once closed, ending it again or any chunk that still arrives changes nothing. */
  lemma EndsOnce(s: Link, code: nat, reason: string, chunk: seq<Byte>, env: Setup)
    requires s.closed
    ensures End(s, code, reason, env) == s && OnClient(s, chunk, env) == s && OnGateway(s, chunk, env) == s
  {
  }

  lemma CarriedSays(code: nat, reason: string)
    requires code < 65536 && forall ch <- reason :: ch as int < 256
    ensures var p := ClosePayload(code, reason);
            && |p| == 2 + (if |reason| > 100 then 100 else |reason|) && 0x100 * (p[0] as int) + p[1] as int == code
            && forall i :: 0 <= i < |p| - 2 ==> p[2 + i] == reason[i] as int
  {
    var two := WriteBE(code, 2);
    assert two == WriteBE(code / 256, 1) + [code % 256];
    assert WriteBE(code / 256, 1) == WriteBE(code / 256 / 256, 0) + [code / 256 % 256];
    assert two[0] == code / 256 && two[1] == code % 256;
    hide WriteBE;
    assert forall i :: 0 <= i < |reason| ==> reason[i] in reason;
  }

  /** A close frame reads back as one: the code in its first two bytes, then the reason, a hundred characters of it at most. */
  lemma CloseFrameSays(code: nat, reason: string, key: Option<MaskKey>, tail: seq<Byte>, max: nat)
    requires max >= 102 && code < 65536 && forall ch <- reason :: ch as int < 256
    ensures var raw, said := CloseFrame(code, reason, key), ClosePayload(code, reason);
            && ScanOne(raw + tail, max) == Got(Frame(true, 0, 8, key.Some?, said, raw))
            && |said| == 2 + (if |reason| > 100 then 100 else |reason|) && 0x100 * (said[0] as int) + said[1] as int == code
            && forall i :: 0 <= i < |said| - 2 ==> said[2 + i] == reason[i] as int
  {
    CarriedSays(code, reason);
    CloseIsRead(code, reason, key, tail, max);
    hide CloseFrame, ClosePayload, ScanOne;
  }

  lemma CloseIsRead(code: nat, reason: string, key: Option<MaskKey>, tail: seq<Byte>, max: nat)
    requires max >= |ClosePayload(code, reason)| && |ClosePayload(code, reason)| < 200
    ensures var raw := CloseFrame(code, reason, key);
            ScanOne(raw + tail, max) == Got(Frame(true, 0, 8, key.Some?, ClosePayload(code, reason), raw))
  {
    hide ClosePayload, FrameBytes, ScanOne;
    EncodeThenScan(8, ClosePayload(code, reason), key, tail, max);
  }
}
