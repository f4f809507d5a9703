/**
 * Guest isolation over whole runs of the splice (src/api/consoleProxy.ts,
 * spliceGuest): for every way the two streams are cut into chunks and
 * interleaved.
 */
module GuestIsolation {
  import opened Basics
  import opened WebSocketFrames
  import opened MessageAssembly
  import opened GuestMessages
  import opened GuestSplice

  /** What the two sockets do. */
  datatype Input = FromBrowser(chunk: seq<Byte>) | FromGateway(chunk: seq<Byte>) | SocketGone

  function Step(s: Link, i: Input, env: Setup): Link {
    match i
    case FromBrowser(chunk) => OnClient(s, chunk, env)
    case FromGateway(chunk) => OnGateway(s, chunk, env)
    case SocketGone => s.(closed := true)
  }

  function Run(inputs: seq<Input>, env: Setup): Link {
    if inputs == [] then FRESH else Step(Run(inputs[..|inputs| - 1], env), inputs[|inputs| - 1], env)
  }

  /** The bytes the browser sent while the connection was open. */
  function Browser(inputs: seq<Input>, env: Setup): seq<Byte> {
    if inputs == [] then []
    else
      var before := Browser(inputs[..|inputs| - 1], env);
      var last := inputs[|inputs| - 1];
      if last.FromBrowser? && !Run(inputs[..|inputs| - 1], env).closed then before + last.chunk else before
  }

  function Gateway(inputs: seq<Input>, env: Setup): seq<Byte> {
    if inputs == [] then []
    else
      var before := Gateway(inputs[..|inputs| - 1], env);
      var last := inputs[|inputs| - 1];
      if last.FromGateway? && !Run(inputs[..|inputs| - 1], env).closed then before + last.chunk else before
  }

  // ---- the item-level reading of a history -----------------------------------

  /** What one entry sends to the gateway: an admitted message's own frames, a control frame, nothing else. */
  function Upstream(e: Entry): seq<seq<Byte>> {
    match e
    case ClientControl(f) => [f.raw]
    case Asked(m, _, d) => if d.Forwarded? && m.Message? then Raws(m.frames) else []
    case Answered(_, _) => []
  }

  /** What one entry sends to the guest: one answer to a request not sent on; a gateway item, rewritten or as it came. */
  function Downstream(e: Entry, env: Setup): seq<seq<Byte>> {
    match e
    case ClientControl(f) => []
    case Asked(m, v, d) => if d.Forwarded? then [] else [TextFrame(Apology(d, v, env), env)]
    case Answered(Control(f), _) => [f.raw]
    case Answered(Message(_, frames, _), out) => if out.Some? then [TextFrame(out.value, env)] else Raws(frames)
  }

  function UpWrites(log: seq<Entry>): seq<seq<Byte>> {
    if log == [] then [] else UpWrites(log[..|log| - 1]) + Upstream(log[|log| - 1])
  }

  function DownWrites(log: seq<Entry>, env: Setup): seq<seq<Byte>> {
    if log == [] then [] else DownWrites(log[..|log| - 1], env) + Downstream(log[|log| - 1], env)
  }

  /** The tracked requests a history leaves waiting. */
  function PendingAfter(log: seq<Entry>, env: Setup): map<string, string> {
    if log == [] then map[] else Waiting(PendingAfter(log[..|log| - 1], env), log[|log| - 1], env)
  }

  function Waiting(p: map<string, string>, e: Entry, env: Setup): map<string, string> {
    match e
    case ClientControl(_) => p
    case Asked(_, v, d) => if d == Forwarded(true) && v.id.Some? && v.rpc.Some? then p[v.id.value := v.rpc.value] else p
    case Answered(reply, _) => Scrub(reply, p, env).pending
  }

  /** Judged by what it says and by the requests waiting at that moment, and by nothing else. */
  ghost predicate JudgedRightly(e: Entry, waiting: map<string, string>, env: Setup) {
    match e
    case ClientControl(f) => f.opcode >= 8
    case Asked(m, v, d) =>
      && m.Message? && m.opcode == 1 && env.parse(m.data).Some?
      && v == env.judge(env.parse(m.data).value)
      && d == Decide(v, waiting)
    case Answered(reply, out) => out == Scrub(reply, waiting, env).out
  }

  ghost predicate Faithful(log: seq<Entry>, env: Setup) {
    log == [] || (Faithful(log[..|log| - 1], env) && JudgedRightly(log[|log| - 1], PendingAfter(log[..|log| - 1], env), env))
  }

  function ClientItems(log: seq<Entry>): seq<Item> {
    if log == [] then []
    else
      var before := ClientItems(log[..|log| - 1]);
      match log[|log| - 1]
      case ClientControl(f) => before + [Control(f)]
      case Asked(m, _, _) => before + [m]
      case Answered(_, _) => before
  }

  function GatewayItems(log: seq<Entry>): seq<Item> {
    if log == [] then []
    else
      var before := GatewayItems(log[..|log| - 1]);
      if log[|log| - 1].Answered? then before + [log[|log| - 1].reply] else before
  }

  // ---- the invariant ---------------------------------------------------------

  /** Everything written and tracked is what the history says. */
  ghost predicate Accounted(s: Link, env: Setup) {
    s == FromLog(s, s.log, env) && Faithful(s.log, env)
  }

  /** An open link whose writes and tracked requests are those of a history. */
  function FromLog(s: Link, log: seq<Entry>, env: Setup): Link {
    s.(closed := false, log := log, pending := PendingAfter(log, env), up := UpWrites(log), down := DownWrites(log, env))
  }

  lemma Logged(log: seq<Entry>, e: Entry, env: Setup)
    ensures (log + [e])[..|log + [e]| - 1] == log
    ensures UpWrites(log + [e]) == UpWrites(log) + Upstream(e)
    ensures DownWrites(log + [e], env) == DownWrites(log, env) + Downstream(e, env)
  {
    assert (log + [e])[..|log|] == log;
  }

  /** The link after one more entry of its history. */
  function Added(s: Link, e: Entry, env: Setup): Link {
    s.(log := s.log + [e], pending := Waiting(s.pending, e, env), up := s.up + Upstream(e), down := s.down + Downstream(e, env))
  }

  lemma EntryAccounted(s: Link, e: Entry, env: Setup)
    requires Accounted(s, env) && JudgedRightly(e, s.pending, env)
    ensures Accounted(Added(s, e, env), env)
  {
    hide Upstream, Downstream, Waiting, JudgedRightly;
    Logged(s.log, e, env);
  }

  lemma EntryItems(log: seq<Entry>, e: Entry)
    ensures ClientItems(log + [e]) == ClientItems(log) + (match e case ClientControl(f) => [Control(f)] case Asked(m, _, _) => [m] case Answered(_, _) => [])
    ensures GatewayItems(log + [e]) == GatewayItems(log) + if e.Answered? then [e.reply] else []
  {
    assert (log + [e])[..|log|] == log;
  }

  lemma JudgedAdds(s: Link, m: Item, v: Verdict, env: Setup)
    requires m.Message?
    ensures Judged(s, m, v, env) == Added(s, Asked(m, v, Decide(v, s.pending)), env)
  {
    assert s.up + [] == s.up && s.down + [] == s.down;
  }

  lemma JudgedAccounted(s: Link, m: Item, msg: Json, env: Setup)
    requires Accounted(s, env) && m.Message? && m.opcode == 1 && env.parse(m.data) == Some(msg)
    ensures var t := Judged(s, m, env.judge(msg), env);
            && Accounted(t, env)
            && ClientItems(t.log) == ClientItems(s.log) + [m] && GatewayItems(t.log) == GatewayItems(s.log)
  {
    hide Accounted, ClientItems, GatewayItems, Judged, Decide;
    var v := env.judge(msg);
    var e := Asked(m, v, Decide(v, s.pending));
    JudgedAdds(s, m, v, env);
    EntryAccounted(s, e, env);
    EntryItems(s.log, e);
    assert GatewayItems(s.log) + [] == GatewayItems(s.log);
  }

  lemma ControlAccounted(s: Link, f: Frame, env: Setup)
    requires Accounted(s, env) && f.opcode >= 8
    ensures var t := s.(up := s.up + [f.raw], log := s.log + [ClientControl(f)]);
            && Accounted(t, env)
            && ClientItems(t.log) == ClientItems(s.log) + [Control(f)] && GatewayItems(t.log) == GatewayItems(s.log)
  {
    hide Accounted, ClientItems, GatewayItems;
    assert s.down + [] == s.down && GatewayItems(s.log) + [] == GatewayItems(s.log);
    EntryAccounted(s, ClientControl(f), env);
    EntryItems(s.log, ClientControl(f));
  }

  lemma ReplyAccounted(s: Link, reply: Item, env: Setup)
    requires Accounted(s, env)
    ensures var t := GatewayItem(s, reply, env);
            && Accounted(t, env)
            && ClientItems(t.log) == ClientItems(s.log) && GatewayItems(t.log) == GatewayItems(s.log) + [reply]
  {
    hide Accounted, ClientItems, GatewayItems;
    var e := Answered(reply, Scrub(reply, s.pending, env).out);
    assert s.up + [] == s.up && ClientItems(s.log) + [] == ClientItems(s.log);
    EntryAccounted(s, e, env);
    EntryItems(s.log, e);
  }

  /** One client frame: what the assembler completed is logged, unless the frame ends the connection. */
  lemma ClientFrameAccounted(s: Link, f: Frame, env: Setup)
    requires Accounted(s, env)
    ensures var t := ClientFrame(s, f, env);
            var taken := TakeOne(s.clientAsm, f, env.max);
            && Accounted(t.link, env)
            && t.link == FromLog(s, t.link.log, env).(clientAsm := t.link.clientAsm)
            && GatewayItems(t.link.log) == GatewayItems(s.log)
            && (t.error.None? ==>
                  && taken.out.Ok? && t.link.clientAsm == taken.next
                  && ClientItems(t.link.log) == ClientItems(s.log) + (if taken.out.value.Some? then [taken.out.value.value] else []))
            && (t.error.Some? ==> t.link.log == s.log)
  {
    hide Faithful, PendingAfter, UpWrites, DownWrites, ClientItems, GatewayItems, TextFrame, Decide, Apology;
    var taken := TakeOne(s.clientAsm, f, env.max);
    var s1 := s.(clientAsm := taken.next);
    if f.masked && taken.out.Ok? && taken.out.value.Some? {
      match taken.out.value.value {
        case Control(c) =>
          ControlAccounted(s1, c, env);
        case Message(opcode, frames, data) =>
          if opcode == 1 && env.parse(data).Some? {
            JudgedAccounted(s1, taken.out.value.value, env.parse(data).value, env);
          }
      }
    }
  }

  /** A batch of client frames: the items logged are the assembler's, or the first of them when the connection ends. */
  lemma {:induction false} ClientFramesAccounted(s: Link, frames: seq<Frame>, env: Setup)
    requires Accounted(s, env)
    ensures var t := ClientFrames(s, frames, env);
            var all := Assemble(s.clientAsm, frames, env.max);
            && Accounted(t.link, env)
            && t.link == FromLog(s, t.link.log, env).(clientAsm := t.link.clientAsm)
            && GatewayItems(t.link.log) == GatewayItems(s.log)
            && ClientItems(t.link.log) <= ClientItems(s.log) + all.items
            && (t.error.None? ==> !all.failed && t.link.clientAsm == all.left && ClientItems(t.link.log) == ClientItems(s.log) + all.items)
    decreases |frames|
  {
    hide ClientFrame, TakeOne, Faithful, UpWrites, DownWrites, PendingAfter, ClientItems, GatewayItems;
    if frames != [] {
      ClientFrameAccounted(s, frames[0], env);
      var t := ClientFrame(s, frames[0], env);
      if t.error.None? {
        ClientFramesAccounted(t.link, frames[1..], env);
        var taken := TakeOne(s.clientAsm, frames[0], env.max);
        var rest := Assemble(taken.next, frames[1..], env.max);
        var one := if taken.out.value.Some? then [taken.out.value.value] else [];
        Regroup(ClientItems(s.log), one, rest.items);
      }
    }
  }

  lemma GatewayFrameAccounted(s: Link, f: Frame, env: Setup)
    requires Accounted(s, env)
    ensures var t := GatewayFrame(s, f, env);
            var taken := TakeOne(s.gatewayAsm, f, env.max);
            && Accounted(t.link, env)
            && t.link == FromLog(s, t.link.log, env).(gatewayAsm := t.link.gatewayAsm)
            && ClientItems(t.link.log) == ClientItems(s.log)
            && (t.error.None? ==>
                  && taken.out.Ok? && t.link.gatewayAsm == taken.next
                  && GatewayItems(t.link.log) == GatewayItems(s.log) + (if taken.out.value.Some? then [taken.out.value.value] else []))
            && (t.error.Some? ==> t.link.log == s.log)
  {
    hide TakeOne, Faithful, PendingAfter, UpWrites, DownWrites, ClientItems, GatewayItems, Scrub, TextFrame;
    var taken := TakeOne(s.gatewayAsm, f, env.max);
    if !f.masked && taken.out.Ok? && taken.out.value.Some? {
      ReplyAccounted(s.(gatewayAsm := taken.next), taken.out.value.value, env);
    }
  }

  lemma {:induction false} GatewayFramesAccounted(s: Link, frames: seq<Frame>, env: Setup)
    requires Accounted(s, env)
    ensures var t := GatewayFrames(s, frames, env);
            var all := Assemble(s.gatewayAsm, frames, env.max);
            && Accounted(t.link, env)
            && t.link == FromLog(s, t.link.log, env).(gatewayAsm := t.link.gatewayAsm)
            && ClientItems(t.link.log) == ClientItems(s.log)
            && GatewayItems(t.link.log) <= GatewayItems(s.log) + all.items
            && (t.error.None? ==> !all.failed && t.link.gatewayAsm == all.left && GatewayItems(t.link.log) == GatewayItems(s.log) + all.items)
    decreases |frames|
  {
    hide GatewayFrame, TakeOne, Faithful, UpWrites, DownWrites, PendingAfter, ClientItems, GatewayItems;
    if frames != [] {
      GatewayFrameAccounted(s, frames[0], env);
      var t := GatewayFrame(s, frames[0], env);
      if t.error.None? {
        GatewayFramesAccounted(t.link, frames[1..], env);
        var taken := TakeOne(s.gatewayAsm, frames[0], env.max);
        var rest := Assemble(taken.next, frames[1..], env.max);
        var one := if taken.out.value.Some? then [taken.out.value.value] else [];
        Regroup(GatewayItems(s.log), one, rest.items);
      }
    }
  }

  /** All the messages and control frames in a byte stream, read as one. */
  function ItemsIn(bytes: seq<Byte>, max: nat): seq<Item> {
    Assemble(NOTHING, ReadAll(bytes, max).frames, max).items
  }

  /** A reader and its assembler have got exactly as far as the bytes go. */
  ghost predicate CaughtUp(bytes: seq<Byte>, buf: seq<Byte>, asm: Assembly, items: seq<Item>, max: nat) {
    var r := ReadAll(bytes, max);
    !r.tooLarge && r.rest == buf && Assemble(NOTHING, r.frames, max) == Assembled(items, asm, false)
  }

  /** One more chunk: the stream's items are those so far and those of the chunk's frames. */
  lemma ChunkExtends(bytes: seq<Byte>, buf: seq<Byte>, asm: Assembly, items: seq<Item>, chunk: seq<Byte>, max: nat)
    requires CaughtUp(bytes, buf, asm, items, max)
    ensures var r := ReadAll(buf + chunk, max);
            var more := Assemble(asm, r.frames, max);
            && ItemsIn(bytes + chunk, max) == items + more.items
            && (!r.tooLarge && !more.failed ==> CaughtUp(bytes + chunk, r.rest, more.left, items + more.items, max))
  {
    ReadAppend(bytes, chunk, max);
    AssembleAppend(NOTHING, ReadAll(bytes, max).frames, ReadAll(buf + chunk, max).frames, max);
  }

  /** After the proxy's own close frame, nothing. */
  ghost predicate ClosedWith(writes: seq<seq<Byte>>, before: seq<seq<Byte>>, key: Option<MaskKey>) {
    writes == before || exists code: nat, reason :: writes == before + [CloseFrame(code, reason, key)]
  }

  /** What holds between any two events of a run. */
  ghost predicate Isolated(s: Link, browser: seq<Byte>, gateway: seq<Byte>, env: Setup) {
    && Faithful(s.log, env)
    && s.pending == PendingAfter(s.log, env)
    && (!s.closed ==>
          && Accounted(s, env)
          && CaughtUp(browser, s.clientBuf, s.clientAsm, ClientItems(s.log), env.max)
          && CaughtUp(gateway, s.gatewayBuf, s.gatewayAsm, GatewayItems(s.log), env.max))
    && ClientItems(s.log) <= ItemsIn(browser, env.max)
    && GatewayItems(s.log) <= ItemsIn(gateway, env.max)
    && ClosedWith(s.up, UpWrites(s.log), Some(env.closeKey))
    && ClosedWith(s.down, DownWrites(s.log, env), None)
  }

  lemma ClientChunkIsolated(s: Link, browser: seq<Byte>, gateway: seq<Byte>, chunk: seq<Byte>, env: Setup)
    requires Isolated(s, browser, gateway, env) && !s.closed
    ensures Isolated(OnClient(s, chunk, env), browser + chunk, gateway, env)
  {
    hide ClientFrames, ReadAll, Assemble, Faithful, UpWrites, DownWrites, PendingAfter, ClientItems, GatewayItems, CloseFrame;
    ChunkExtends(browser, s.clientBuf, s.clientAsm, ClientItems(s.log), chunk, env.max);
    var r := ReadAll(s.clientBuf + chunk, env.max);
    var s1 := s.(clientBuf := r.rest);
    if !r.tooLarge {
      ClientFramesAccounted(s1, r.frames, env);
    }
  }

  lemma GatewayChunkIsolated(s: Link, browser: seq<Byte>, gateway: seq<Byte>, chunk: seq<Byte>, env: Setup)
    requires Isolated(s, browser, gateway, env) && !s.closed
    ensures Isolated(OnGateway(s, chunk, env), browser, gateway + chunk, env)
  {
    hide GatewayFrames, ReadAll, Assemble, Faithful, UpWrites, DownWrites, PendingAfter, ClientItems, GatewayItems, CloseFrame;
    ChunkExtends(gateway, s.gatewayBuf, s.gatewayAsm, GatewayItems(s.log), chunk, env.max);
    var r := ReadAll(s.gatewayBuf + chunk, env.max);
    var s1 := s.(gatewayBuf := r.rest);
    if !r.tooLarge {
      GatewayFramesAccounted(s1, r.frames, env);
    }
  }

  lemma {:induction false} RunIsolated(inputs: seq<Input>, env: Setup)
    ensures Isolated(Run(inputs, env), Browser(inputs, env), Gateway(inputs, env), env)
  {
    if inputs != [] {
      var before := inputs[..|inputs| - 1];
      RunIsolated(before, env);
      var s := Run(before, env);
      if !s.closed {
        match inputs[|inputs| - 1] {
          case FromBrowser(chunk) => ClientChunkIsolated(s, Browser(before, env), Gateway(before, env), chunk, env);
          case FromGateway(chunk) => GatewayChunkIsolated(s, Browser(before, env), Gateway(before, env), chunk, env);
          case SocketGone =>
        }
      }
    }
  }

  /**
   * Guest isolation. In every run: each client message was judged on its own
   * text and on the requests then waiting; the gateway got, in order, the raw
   * frames of the messages so admitted (each whole and in one piece) and the
   * control frames, and after a close frame nothing; the guest got, in order,
   * one answer for every message not admitted and the gateway's own items as
   * scrubbed; and the messages are those of the browser's byte stream, all of
   * them while the connection is open, the first of them once it has ended.
   */
  lemma GuestsAreIsolated(inputs: seq<Input>, env: Setup)
    ensures var s := Run(inputs, env);
            && Faithful(s.log, env)
            && ClosedWith(s.up, UpWrites(s.log), Some(env.closeKey))
            && ClosedWith(s.down, DownWrites(s.log, env), None)
            && ClientItems(s.log) <= ItemsIn(Browser(inputs, env), env.max)
            && GatewayItems(s.log) <= ItemsIn(Gateway(inputs, env), env.max)
            && (!s.closed ==>
                  && s.up == UpWrites(s.log) && s.down == DownWrites(s.log, env)
                  && ClientItems(s.log) == ItemsIn(Browser(inputs, env), env.max)
                  && GatewayItems(s.log) == ItemsIn(Gateway(inputs, env), env.max))
  {
    RunIsolated(inputs, env);
  }

  /** Once closed, nothing more is written either way. */
  lemma {:induction false} ClosedIsSilent(inputs: seq<Input>, more: seq<Input>, env: Setup)
    requires Run(inputs, env).closed
    ensures Run(inputs + more, env) == Run(inputs, env)
    decreases |more|
  {
    if more == [] {
      assert inputs + more == inputs;
    } else {
      ClosedIsSilent(inputs, more[..|more| - 1], env);
      assert (inputs + more)[..|inputs + more| - 1] == inputs + more[..|more| - 1];
    }
  }
}
