/**
 * A guest's browser socket spliced to the gateway: spliceGuest of
 * src/api/consoleProxy.ts.
 *
 * Two byte streams arrive in chunks cut anywhere and interleaved anyhow. The
 * main theorem reads the proxy's behaviour off the messages alone: what the
 * gateway has received is the admitted messages' own bytes, in order, and the
 * control frames; every message not admitted is answered once and leaves no
 * byte upstream.
 */
module GuestSplice {
  import opened Basics
  import opened WebSocketFrames
  import opened MessageAssembly
  import opened GuestMessages

  /**
   * What a session is set up with: how a request is judged and a reply
   * scrubbed (for guests: GuestSetup below). `parse` and `render` stand for
   * JSON over UTF-8, `wording` for the sentence an error code is explained
   * by, and `closeKey` for the random masking key.
   */
  datatype Setup = Setup(max: nat, judge: Json -> Verdict, scrub: (Json, map<string, string>) -> Scrubbed,
                         parse: seq<Byte> -> Option<Json>, render: Json -> seq<Byte>,
                         wording: (string, Option<string>) -> string, closeKey: MaskKey)

  /** The setup of a guest's session: the guests' allowlist, and other people taken out. */
  function GuestSetup(guest: Guest, env: Setup): Setup {
    env.(judge := GuestRequestVerdict, scrub := (msg, pending) => ScrubForGuest(msg, guest, pending))
  }

  /** How many tracked requests a guest may have waiting. */
  const MAX_GUEST_PENDING := 1000

  datatype Decision = Refused | Untracked | Forwarded(tracked: bool)

  /** What becomes of one request: refused by the verdict, not followable to its reply, or sent on. */
  function Decide(v: Verdict, pending: map<string, string>): Decision {
    if !v.allow then Refused
    else
      var rewritten := v.rpc.Some? && v.rpc.value in REWRITTEN;
      if (v.id.Some? && v.id.value in pending) || (rewritten && (v.id.None? || |pending| >= MAX_GUEST_PENDING))
      then Untracked else Forwarded(rewritten)
  }

  function OptionJson(s: Option<string>): Json {
    if s.Some? then JStr(s.value) else JNull
  }

  function Answer(id: Option<string>, code: string, message: string): Json {
    JObj(map["type" := JStr("res"), "id" := OptionJson(id), "ok" := JBool(false),
             "error" := JObj(map["code" := JStr(code), "message" := JStr(message)])])
  }

  function GuestRefusal(id: Option<string>, rpc: Option<string>, env: Setup): Json {
    Answer(id, "FORBIDDEN", env.wording("FORBIDDEN", rpc))
  }

  function GuestUntracked(id: Option<string>, rpc: Option<string>, env: Setup): Json {
    Answer(id, "UNAVAILABLE", env.wording("UNAVAILABLE", rpc))
  }

  /** What a request that is not sent on is answered with. */
  function Apology(d: Decision, v: Verdict, env: Setup): Json
    requires !d.Forwarded?
  {
    if d.Refused? then GuestRefusal(v.id, v.rpc, env) else GuestUntracked(v.id, v.rpc, env)
  }

  /** One thing the proxy did, in the order it did them. */
  datatype Entry =
    | ClientControl(frame: Frame)
    | Asked(message: Item, verdict: Verdict, decision: Decision)
    | Answered(reply: Item, out: Option<Json>)

  /** The splice between two events: both readers and assemblers, the tracked requests, and everything written so far. */
  datatype Link = Link(
    clientBuf: seq<Byte>, gatewayBuf: seq<Byte>,
    clientAsm: Assembly, gatewayAsm: Assembly,
    pending: map<string, string>, closed: bool,
    up: seq<seq<Byte>>, down: seq<seq<Byte>>,
    log: seq<Entry>)

  const FRESH := Link([], [], NOTHING, NOTHING, map[], false, [], [], [])

  function TextFrame(j: Json, env: Setup): seq<Byte> {
    FrameBytes(1, env.render(j), None)
  }

  function Ascii(s: string): seq<Byte> {
    seq(|s|, i requires 0 <= i < |s| => s[i] as int % 256)
  }

  /** What a close frame carries: the code in two bytes, then the reason, a hundred characters of it at most. */
  function ClosePayload(code: nat, reason: string): seq<Byte> {
    WriteBE(code, 2) + Ascii(if |reason| > 100 then reason[..100] else reason)
  }

  function CloseFrame(code: nat, reason: string, key: Option<MaskKey>): seq<Byte> {
    FrameBytes(8, ClosePayload(code, reason), key)
  }

  // ---- the handlers, as functions of the state -------------------------------

  function End(s: Link, code: nat, reason: string, env: Setup): Link {
    if s.closed then s
    else s.(closed := true, down := s.down + [CloseFrame(code, reason, None)], up := s.up + [CloseFrame(code, reason, Some(env.closeKey))])
  }

  /** A state, and the exception that ended the handler's loop, if one did. */
  datatype Turn = Turn(link: Link, error: Option<string>)

  function Judged(s: Link, item: Item, v: Verdict, env: Setup): Link
    requires item.Message?
  {
    var d := Decide(v, s.pending);
    var t := s.(log := s.log + [Asked(item, v, d)]);
    if d.Forwarded? then
      t.(pending := if d.tracked then t.pending[v.id.value := v.rpc.value] else t.pending, up := t.up + Raws(item.frames))
    else t.(down := t.down + [TextFrame(Apology(d, v, env), env)])
  }

  function ClientItem(s: Link, item: Item, env: Setup): Turn {
    match item
    case Control(f) => Turn(s.(up := s.up + [f.raw], log := s.log + [ClientControl(f)]), None)
    case Message(opcode, frames, data) =>
      if opcode != 1 then Turn(s, Some("binary message"))
      else match env.parse(data) {
        case None => Turn(s, Some("not JSON"))
        case Some(msg) => Turn(Judged(s, item, env.judge(msg), env), None)
      }
  }

  function ClientFrame(s: Link, f: Frame, env: Setup): Turn {
    if !f.masked then Turn(s, Some("unmasked client frame"))
    else
      var t := TakeOne(s.clientAsm, f, env.max);
      var s1 := s.(clientAsm := t.next);
      match t.out
      case Err(why) => Turn(s1, Some(why))
      case Ok(None) => Turn(s1, None)
      case Ok(Some(item)) => ClientItem(s1, item, env)
  }

  function ClientFrames(s: Link, frames: seq<Frame>, env: Setup): Turn
    decreases |frames|
  {
    if frames == [] then Turn(s, None)
    else
      var t := ClientFrame(s, frames[0], env);
      if t.error.Some? then t else ClientFrames(t.link, frames[1..], env)
  }

  function OnClient(s: Link, chunk: seq<Byte>, env: Setup): Link {
    if s.closed then s
    else
      var r := ReadAll(s.clientBuf + chunk, env.max);
      var s1 := s.(clientBuf := r.rest);
      var t := if r.tooLarge then Turn(s1, Some("frame too large")) else ClientFrames(s1, r.frames, env);
      if t.error.Some? then End(t.link, 1008, "refused: " + t.error.value, env) else t.link
  }

  /** What scrubbing makes of one item from the gateway: only text that parses is looked at. */
  function Scrub(item: Item, pending: map<string, string>, env: Setup): Scrubbed {
    if item.Message? && item.opcode == 1 && env.parse(item.data).Some?
    then env.scrub(env.parse(item.data).value, pending) else Scrubbed(None, pending)
  }

  function GatewayItem(s: Link, item: Item, env: Setup): Link {
    var scrubbed := Scrub(item, s.pending, env);
    s.(pending := scrubbed.pending,
       down := s.down + (match item
                         case Control(f) => [f.raw]
                         case Message(_, frames, _) => if scrubbed.out.Some? then [TextFrame(scrubbed.out.value, env)] else Raws(frames)),
       log := s.log + [Answered(item, scrubbed.out)])
  }

  function GatewayFrame(s: Link, f: Frame, env: Setup): Turn {
    if f.masked then Turn(s, Some("masked server frame"))
    else
      var t := TakeOne(s.gatewayAsm, f, env.max);
      var s1 := s.(gatewayAsm := t.next);
      match t.out
      case Err(why) => Turn(s1, Some(why))
      case Ok(None) => Turn(s1, None)
      case Ok(Some(item)) => Turn(GatewayItem(s1, item, env), None)
  }

  function GatewayFrames(s: Link, frames: seq<Frame>, env: Setup): Turn
    decreases |frames|
  {
    if frames == [] then Turn(s, None)
    else
      var t := GatewayFrame(s, frames[0], env);
      if t.error.Some? then t else GatewayFrames(t.link, frames[1..], env)
  }

  function OnGateway(s: Link, chunk: seq<Byte>, env: Setup): Link {
    if s.closed then s
    else
      var r := ReadAll(s.gatewayBuf + chunk, env.max);
      var s1 := s.(gatewayBuf := r.rest);
      var t := if r.tooLarge then Turn(s1, Some("frame too large")) else GatewayFrames(s1, r.frames, env);
      if t.error.Some? then End(t.link, 1011, "gateway: " + t.error.value, env) else t.link
  }

  // ---- the splice itself -----------------------------------------------------

  class Splice {
    const env: Setup
    const fromClient: FrameReader
    const fromGateway: FrameReader
    const clientMsgs: MessageAssembler
    const gatewayMsgs: MessageAssembler
    var pending: map<string, string>
    var closed: bool
    /** What has been written to each socket. */
    var up: seq<seq<Byte>>
    var down: seq<seq<Byte>>
    ghost var log: seq<Entry>

    ghost const Parts: set<object> := {this, fromClient, fromGateway, clientMsgs, gatewayMsgs}

    /** The parts are distinct and share one cap. They are constants, so this never changes. */
    ghost predicate Valid() {
      && fromClient != fromGateway && clientMsgs != gatewayMsgs
      && fromClient.maxPayload == env.max && fromGateway.maxPayload == env.max
      && clientMsgs.maxMessage == env.max && gatewayMsgs.maxMessage == env.max
    }

    ghost function State(): Link
      reads this, Parts
    {
      Link(fromClient.buf, fromGateway.buf, clientMsgs.State(), gatewayMsgs.State(), pending, closed, up, down, log)
    }

    constructor (env: Setup)
      ensures Valid() && State() == FRESH && this.env == env && fresh(Parts)
    {
      this.env := env;
      fromClient := new FrameReader(env.max);
      fromGateway := new FrameReader(env.max);
      clientMsgs := new MessageAssembler(env.max);
      gatewayMsgs := new MessageAssembler(env.max);
      pending, closed, up, down, log := map[], false, [], [], [];
    }

    method EndIt(code: nat, reason: string)
      requires Valid()
      modifies this
      ensures State() == End(old(State()), code, reason, env)
    {
      if closed { return; }
      closed := true;
      var toClient := EncodeFrame(8, ClosePayload(code, reason), None);
      down := down + [toClient[..]];
      var toGateway := EncodeFrame(8, ClosePayload(code, reason), Some(env.closeKey));
      up := up + [toGateway[..]];
    }

    method WriteDown(j: Json)
      modifies this`down
      ensures State() == old(State()).(down := old(down) + [TextFrame(j, env)])
    {
      var frame := EncodeFrame(1, env.render(j), None);
      down := down + [frame[..]];
    }

    /** client.on('data') */
    method OnClientData(chunk: seq<Byte>)
      requires Valid()
      modifies this, fromClient, clientMsgs
      ensures State() == OnClient(old(State()), chunk, env)
    {
      if closed { return; }
      var frames := fromClient.Push(chunk);
      if frames.Err? {
        EndIt(1008, "refused: " + frames.error);
        return;
      }
      ghost var start := State();
      var k := 0;
      while k < |frames.value|
        invariant 0 <= k <= |frames.value| && !closed
        invariant ClientFrames(start, frames.value, env) == ClientFrames(State(), frames.value[k..], env)
      {
        var error := TakeClientFrame(frames.value[k]);
        if error.Some? {
          EndIt(1008, "refused: " + error.value);
          return;
        }
        k := k + 1;
      }
    }

    /** One turn of the client loop. */
    method TakeClientFrame(f: Frame) returns (error: Option<string>)
      requires Valid()
      modifies this, clientMsgs
      ensures closed == old(closed)
      ensures Turn(State(), error) == ClientFrame(old(State()), f, env)
    {
      if !f.masked { return Some("unmasked client frame"); }
      var item := clientMsgs.Take(f);
      match item {
        case Err(why) => return Some(why);
        case Ok(None) => return None;
        case Ok(Some(Control(c))) =>
          up := up + [c.raw];
          log := log + [ClientControl(c)];
          return None;
        case Ok(Some(Message(opcode, frames, data))) =>
          if opcode != 1 { return Some("binary message"); }
          var parsed := env.parse(data);
          if parsed.None? { return Some("not JSON"); }
          TakeRequest(Message(opcode, frames, data), env.judge(parsed.value));
          return None;
      }
    }

    method TakeRequest(item: Item, v: Verdict)
      requires item.Message?
      modifies this
      ensures State() == Judged(old(State()), item, v, env)
    {
      ghost var d := Decide(v, pending);
      log := log + [Asked(item, v, d)];
      if !v.allow {
        assert d == Refused;
        WriteDown(GuestRefusal(v.id, v.rpc, env));
        return;
      }
      var rewritten := v.rpc.Some? && v.rpc.value in REWRITTEN;
      if (v.id.Some? && v.id.value in pending) || (rewritten && (v.id.None? || |pending| >= MAX_GUEST_PENDING)) {
        assert d == Untracked;
        WriteDown(GuestUntracked(v.id, v.rpc, env));
        return;
      }
      assert d == Forwarded(rewritten);
      if rewritten { pending := pending[v.id.value := v.rpc.value]; }
      WriteFramesUp(item.frames);
    }

    /** for (const fr of msg.frames) upstream.write(fr.raw) */
    method WriteFramesUp(frames: seq<Frame>)
      modifies this`up
      ensures State() == old(State()).(up := old(up) + Raws(frames))
    {
      var i := 0;
      while i < |frames|
        invariant 0 <= i <= |frames| && up == old(up) + Raws(frames[..i])
      {
        up := up + [frames[i].raw];
        i := i + 1;
      }
      assert frames[..i] == frames;
    }

    method WriteFramesDown(frames: seq<Frame>)
      modifies this`down
      ensures State() == old(State()).(down := old(down) + Raws(frames))
    {
      var i := 0;
      while i < |frames|
        invariant 0 <= i <= |frames| && down == old(down) + Raws(frames[..i])
      {
        down := down + [frames[i].raw];
        i := i + 1;
      }
      assert frames[..i] == frames;
    }

    /** upstream.on('data') */
    method OnGatewayData(chunk: seq<Byte>)
      requires Valid()
      modifies this, fromGateway, gatewayMsgs
      ensures State() == OnGateway(old(State()), chunk, env)
    {
      if closed { return; }
      var frames := fromGateway.Push(chunk);
      if frames.Err? {
        EndIt(1011, "gateway: " + frames.error);
        return;
      }
      ghost var start := State();
      var k := 0;
      while k < |frames.value|
        invariant 0 <= k <= |frames.value| && !closed
        invariant GatewayFrames(start, frames.value, env) == GatewayFrames(State(), frames.value[k..], env)
      {
        var error := TakeGatewayFrame(frames.value[k]);
        if error.Some? {
          EndIt(1011, "gateway: " + error.value);
          return;
        }
        k := k + 1;
      }
    }

    method TakeGatewayFrame(f: Frame) returns (error: Option<string>)
      requires Valid()
      modifies this, gatewayMsgs
      ensures closed == old(closed)
      ensures Turn(State(), error) == GatewayFrame(old(State()), f, env)
    {
      if f.masked { return Some("masked server frame"); }
      var item := gatewayMsgs.Take(f);
      match item {
        case Err(why) => return Some(why);
        case Ok(None) => return None;
        case Ok(Some(Control(c))) =>
          down := down + [c.raw];
          log := log + [Answered(Control(c), None)];
          return None;
        case Ok(Some(Message(opcode, frames, data))) =>
          TakeReply(Message(opcode, frames, data));
          return None;
      }
    }

    method TakeReply(item: Item)
      requires item.Message?
      modifies this
      ensures State() == GatewayItem(old(State()), item, env)
    {
      ghost var s := Scrub(item, pending, env);
      log := log + [Answered(item, s.out)];
      if item.opcode == 1 {
        var parsed := env.parse(item.data);
        if parsed.Some? {
          var scrubbed := env.scrub(parsed.value, pending);
          pending := scrubbed.pending;
          if scrubbed.out.Some? {
            WriteDown(scrubbed.out.value);
            return;
          }
        }
      }
      WriteFramesDown(item.frames);
    }

    /** Either socket closed or failed. */
    method Kill()
      requires Valid()
      modifies this`closed
      ensures State() == old(State()).(closed := true)
    {
      closed := true;
    }
  }
}
