/**
 * The splice as guests have it (src/api/consoleProxy.ts): over whole runs with
 * the guests' own allowlist and scrubbing, what they may ask, what they are
 * shown, and which of their requests are tracked.
 */
module GuestRuns {
  import opened Basics
  import opened WebSocketFrames
  import opened MessageAssembly
  import opened GuestMessages
  import opened GuestSplice
  import opened GuestIsolation
  import opened GuestView
  import Tracking = ReplyTracking

  /** What one entry of a guest's history stands for. */
  ghost predicate GuestEntry(e: Entry, waiting: map<string, string>, guest: Guest, env: Setup) {
    match e
    case ClientControl(_) => true
    case Asked(m, _, d) => d.Forwarded? ==> Admissible(m, env)
    case Answered(reply, out) => AsShown(reply, out, waiting, guest, env)
  }

  /** A request the guest may make: a text message naming a method on the list, and connecting as an operator only. */
  ghost predicate Admissible(m: Item, env: Setup) {
    m.Message? && m.opcode == 1 && env.parse(m.data).Some? && Askable(env.parse(m.data).value)
  }

  /** An item of the gateway's, as handed over: an object in a text message shows nobody else. */
  ghost predicate AsShown(reply: Item, out: Option<Json>, waiting: map<string, string>, guest: Guest, env: Setup) {
    match reply
    case Control(_) => out == None
    case Message(opcode, _, data) =>
      if opcode == 1 && env.parse(data).Some? && env.parse(data).value.JObj?
      then ShowsNobodyElse(env.parse(data).value, Handed(env.parse(data).value, out), guest, waiting)
      else out == None
  }

  lemma JudgedIsGuests(e: Entry, waiting: map<string, string>, guest: Guest, env: Setup)
    requires JudgedRightly(e, waiting, GuestSetup(guest, env))
    ensures GuestEntry(e, waiting, guest, env)
  {
    hide ShowsNobodyElse, ScrubEvent, ScrubHello, RewriteReply, GuestRequestVerdict, Askable;
    if e.Asked? && e.message.Message? && env.parse(e.message.data).Some? {
      AskedExactly(env.parse(e.message.data).value);
    }
    if e.Answered? && e.reply.Message? && e.reply.opcode == 1 && env.parse(e.reply.data).Some? {
      var msg := env.parse(e.reply.data).value;
      if msg.JObj? {
        hide ScrubForGuest;
        DeliveredIsClean(msg, guest, waiting);
      }
    }
  }

  lemma {:induction false} EntryWasJudged(log: seq<Entry>, i: nat, env: Setup)
    requires Faithful(log, env) && i < |log|
    ensures JudgedRightly(log[i], PendingAfter(log[..i], env), env)
  {
    hide JudgedRightly, PendingAfter;
    if i < |log| - 1 {
      EntryWasJudged(log[..|log| - 1], i, env);
      assert log[..|log| - 1][..i] == log[..i];
    }
  }

  /**
   * In every run of a guest's session, every chunking and interleaving: the
   * gateway's bytes are those of the messages admitted (and control frames),
   * each of which asks for a method guests may use; and the guest's are the
   * answers to the rest and the gateway's items, in none of which they are
   * shown anyone else where people are shown.
   */
  lemma GuestsAskAndSeeTheirOwn(inputs: seq<Input>, guest: Guest, env: Setup)
    ensures var setup := GuestSetup(guest, env);
            var s := Run(inputs, setup);
            && ClosedWith(s.up, UpWrites(s.log), Some(env.closeKey))
            && ClosedWith(s.down, DownWrites(s.log, setup), None)
            && forall i :: 0 <= i < |s.log| ==> GuestEntry(s.log[i], PendingAfter(s.log[..i], setup), guest, env)
  {
    hide Run, GuestEntry, JudgedRightly, ClosedWith, Faithful;
    var setup := GuestSetup(guest, env);
    GuestsAreIsolated(inputs, setup);
    var log := Run(inputs, setup).log;
    forall i | 0 <= i < |log| ensures GuestEntry(log[i], PendingAfter(log[..i], setup), guest, env) {
      EntryWasJudged(log, i, setup);
      JudgedIsGuests(log[i], PendingAfter(log[..i], setup), guest, env);
    }
  }

  // ---- the tracked requests ----------------------------------------------------

  /** What a history tells the table: each request judged, and each message of the gateway's that was read. */
  function Heard(log: seq<Entry>, env: Setup): seq<Tracking.Event> {
    if log == [] then [] else Heard(log[..|log| - 1], env) + HeardOf(log[|log| - 1], env)
  }

  function HeardOf(e: Entry, env: Setup): seq<Tracking.Event> {
    match e
    case ClientControl(_) => []
    case Asked(_, v, _) => [Tracking.Ask(v)]
    case Answered(reply, _) =>
      if reply.Message? && reply.opcode == 1 && env.parse(reply.data).Some? then [Tracking.Event(env.parse(reply.data).value)] else []
  }

  /** The same with each reply's addressee left open. */
  function Unaddressed(events: seq<Tracking.Event>): seq<Tracking.Event> {
    seq(|events|, i requires 0 <= i < |events| => if events[i].Reply? then Tracking.Event(events[i].msg) else events[i])
  }

  /** Whom a reply answers makes no difference to what is tracked. */
  lemma {:induction false} AddresseeAside(events: seq<Tracking.Event>, guest: Guest)
    ensures Tracking.AfterAll(Tracking.EMPTY, Unaddressed(events), guest).pending == Tracking.AfterAll(Tracking.EMPTY, events, guest).pending
  {
    hide ScrubForGuest, Decide;
    if events != [] {
      var before := events[..|events| - 1];
      assert Unaddressed(events)[..|events| - 1] == Unaddressed(before);
      AddresseeAside(before, guest);
    }
  }

  lemma {:induction false} HistoryIsTable(log: seq<Entry>, guest: Guest, env: Setup)
    requires Faithful(log, GuestSetup(guest, env))
    ensures PendingAfter(log, GuestSetup(guest, env)) == Tracking.AfterAll(Tracking.EMPTY, Heard(log, env), guest).pending
  {
    if log != [] {
      var before := log[..|log| - 1];
      HistoryIsTable(before, guest, env);
      EntryIsEvent(Tracking.AfterAll(Tracking.EMPTY, Heard(before, env), guest), log[|log| - 1], guest, env);
      hide JudgedRightly, Waiting, HeardOf, Tracking.After;
      var told := HeardOf(log[|log| - 1], env);
      if told == [] {
        assert Heard(log, env) == Heard(before, env);
      } else {
        assert Heard(log, env)[..|Heard(log, env)| - 1] == Heard(before, env);
      }
    }
  }

  lemma EntryIsEvent(t: Tracking.Table, e: Entry, guest: Guest, env: Setup)
    requires JudgedRightly(e, t.pending, GuestSetup(guest, env))
    ensures var told := HeardOf(e, env);
            && |told| <= 1
            && Waiting(t.pending, e, GuestSetup(guest, env)) == if told == [] then t.pending else Tracking.After(t, told[0], guest).pending
  {
    hide ScrubForGuest;
  }

  /** Every way to say whom the gateway's replies in this run answered. */
  ghost predicate Accounts(events: seq<Tracking.Event>, inputs: seq<Input>, guest: Guest, env: Setup) {
    Unaddressed(events) == Heard(Run(inputs, GuestSetup(guest, env)).log, env)
  }

  /** The table of ReplyTracking is the splice's own: its pending map is the one every run has. */
  lemma TableIsTheSplices(inputs: seq<Input>, events: seq<Tracking.Event>, guest: Guest, env: Setup)
    requires Accounts(events, inputs, guest, env)
    ensures Run(inputs, GuestSetup(guest, env)).pending == Tracking.AfterAll(Tracking.EMPTY, events, guest).pending
  {
    hide Run, Faithful;
    RunIsolated(inputs, GuestSetup(guest, env));
    HistoryIsTable(Run(inputs, GuestSetup(guest, env)).log, guest, env);
    AddresseeAside(events, guest);
  }

  /** In every run of a guest's session at most a thousand requests are tracked, and only methods whose replies are rewritten. */
  lemma PendingIsBounded(inputs: seq<Input>, guest: Guest, env: Setup)
    ensures var p := Run(inputs, GuestSetup(guest, env)).pending;
            |p| <= 1000 && forall id <- p :: p[id] == "health" || p[id] == "agents.list"
  {
    hide Run, Faithful;
    RunIsolated(inputs, GuestSetup(guest, env));
    var log := Run(inputs, GuestSetup(guest, env)).log;
    HistoryIsTable(log, guest, env);
    Tracking.PendingIsBounded(Heard(log, env), guest);
  }

  /**
   * In every run of a guest's session whose gateway answers only what it was
   * sent, and in which no ids clash: the next successful object reply to a
   * tracked request is written to the guest rewritten as its method says, and
   * that request, and no other, is then no longer tracked.
   */
  lemma ReplyIsRewritten(inputs: seq<Input>, events: seq<Tracking.Event>, guest: Guest, env: Setup,
                         to: nat, reply: Item, msg: Json)
    requires Accounts(events, inputs, guest, env) && Tracking.Orderly(events, guest)
    requires var t := Tracking.AfterAll(Tracking.EMPTY, events, guest);
             to in t.waiting && Tracking.Tracked(t.waiting[to]) && Tracking.Answers(msg, t.waiting[to]) && ObjectReply(msg)
    requires reply.Message? && reply.opcode == 1 && env.parse(reply.data) == Some(msg)
    ensures var setup := GuestSetup(guest, env);
            var s, r := Run(inputs, setup), Tracking.AfterAll(Tracking.EMPTY, events, guest).waiting[to];
            var next := GatewayItem(s, reply, setup);
            && r.id.value in s.pending && next.pending == s.pending - {r.id.value}
            && next.down == s.down + [TextFrame(JObj(msg.fields["payload" := RewriteReply(r.rpc, msg.fields["payload"], guest)]), env)]
  {
    TableIsTheSplices(inputs, events, guest, env);
    Tracking.RepliesAreRewrittenOnce(events, guest, to, msg);
    hide Run, ScrubForGuest, RewriteReply, Tracking.AfterAll, Tracking.Orderly, ObjectReply, Tracking.Answers, FrameBytes;
  }
}
