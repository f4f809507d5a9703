/**
 * Which reply belongs to which request (src/api/consoleProxy.ts, the `pending`
 * map of spliceGuest and scrubForGuest): a reply that must be rewritten is
 * found by the id of the request it answers.
 *
 * A table holds the tracked requests as the proxy knows them and, beside
 * them, every request really waiting at the gateway.
 */
module ReplyTracking {
  import opened Basics
  import opened GuestMessages
  import opened GuestSplice

  datatype Request = Request(id: Option<string>, rpc: string)

  datatype Table = Table(pending: map<string, string>, waiting: map<nat, Request>, next: nat)

  const EMPTY := Table(map[], map[], 0)

  datatype Event = Ask(v: Verdict) | Reply(to: nat, msg: Json) | Event(msg: Json)

  /** A request answered, and what the guest was handed (None: as it came). */
  function AfterAsk(t: Table, v: Verdict): Table {
    var d := Decide(v, t.pending);
    if !d.Forwarded? || v.rpc.None? then t
    else Table(if d.tracked && v.id.Some? then t.pending[v.id.value := v.rpc.value] else t.pending,
               t.waiting[t.next := Request(v.id, v.rpc.value)], t.next + 1)
  }

  function AfterReply(t: Table, to: nat, msg: Json, guest: Guest): Table {
    t.(pending := ScrubForGuest(msg, guest, t.pending).pending, waiting := t.waiting - {to})
  }

  function After(t: Table, e: Event, guest: Guest): Table {
    match e
    case Ask(v) => AfterAsk(t, v)
    case Reply(to, msg) => AfterReply(t, to, msg, guest)
    case Event(msg) => t.(pending := ScrubForGuest(msg, guest, t.pending).pending)
  }

  function AfterAll(t: Table, events: seq<Event>, guest: Guest): Table {
    if events == [] then t else After(AfterAll(t, events[..|events| - 1], guest), events[|events| - 1], guest)
  }

  predicate Tracked(r: Request) { r.id.Some? && r.rpc in REWRITTEN }

  /** A message of the gateway's that answers this request: under its id, and a hello only to connect. */
  predicate Answers(msg: Json, r: Request) {
    && Get(msg, "type") == Some(JStr("res"))
    && (if r.id.Some? then Get(msg, "id").Some? && Text(Get(msg, "id").value) == r.id.value else Get(msg, "id").None?)
    && (HelloReply(msg) ==> r.rpc == "connect")
  }

  /** A gateway that answers only requests still waiting. */
  predicate Proper(t: Table, e: Event) {
    match e
    case Ask(v) => true
    case Reply(to, msg) => to in t.waiting && Answers(msg, t.waiting[to])
    case Event(msg) => Get(msg, "type") != Some(JStr("res"))
  }

  /** A request to be tracked whose id an untracked one, still waiting, already has. */
  predicate Clash(t: Table, v: Verdict) {
    && Decide(v, t.pending) == Forwarded(true)
    && exists k <- t.waiting :: t.waiting[k].id == v.id
  }

  /** A run in which the gateway behaves. */
  ghost predicate ProperRun(t: Table, events: seq<Event>, guest: Guest) {
    events == [] ||
    (ProperRun(t, events[..|events| - 1], guest) && Proper(AfterAll(t, events[..|events| - 1], guest), events[|events| - 1]))
  }

  /** And no clash of ids. */
  ghost predicate Orderly(events: seq<Event>, guest: Guest) {
    events == [] ||
    (var t := AfterAll(EMPTY, events[..|events| - 1], guest);
     var e := events[|events| - 1];
     Orderly(events[..|events| - 1], guest) && Proper(t, e) && (e.Ask? ==> !Clash(t, e.v)))
  }

  /** Every id in `pending` is a tracked request's, still waiting. */
  ghost predicate Backed(t: Table) {
    forall id <- t.pending :: exists k :: k in t.waiting && Tracked(t.waiting[k]) && t.waiting[k].id.value == id
  }

  /** `pending` is exactly the tracked requests still waiting, and none of those shares its id. */
  ghost predicate Exact(t: Table) {
    && (forall k <- t.waiting :: k < t.next)
    && Backed(t)
    && (forall k <- t.waiting :: Tracked(t.waiting[k]) ==>
          && t.waiting[k].id.value in t.pending && t.pending[t.waiting[k].id.value] == t.waiting[k].rpc
          && forall j <- t.waiting :: t.waiting[j].id == t.waiting[k].id ==> j == k)
  }

  lemma AskKeepsExact(t: Table, v: Verdict)
    requires Exact(t) && !Clash(t, v)
    ensures Exact(AfterAsk(t, v))
  {
    AskBacks(t, v);
    hide Backed;
  }

  lemma AskBacks(t: Table, v: Verdict)
    requires Backed(t) && forall k <- t.waiting :: k < t.next
    ensures Backed(AfterAsk(t, v))
  {
    var u := AfterAsk(t, v);
    if u != t {
      forall id | id in u.pending
        ensures exists k :: k in u.waiting && Tracked(u.waiting[k]) && u.waiting[k].id.value == id
      {
        if id in t.pending {
          var k :| k in t.waiting && Tracked(t.waiting[k]) && t.waiting[k].id.value == id;
          assert u.waiting[k] == t.waiting[k];
        } else {
          assert u.waiting[t.next].id == Some(id);
        }
      }
    }
  }

  /** What scrubbing does to a reply and to the table, read off the request it answers. */
  lemma ReplyIsFound(t: Table, to: nat, msg: Json, guest: Guest)
    requires Exact(t) && to in t.waiting && Answers(msg, t.waiting[to])
    ensures var r := t.waiting[to];
            var s := ScrubForGuest(msg, guest, t.pending);
            && s.pending == (if Tracked(r) then t.pending - {r.id.value} else t.pending)
            && (Tracked(r) && ObjectReply(msg) ==>
                  s.out == Some(JObj(msg.fields["payload" := RewriteReply(r.rpc, msg.fields["payload"], guest)])))
            && (!Tracked(r) && !HelloReply(msg) ==> s.out == None)
  {
    var r := t.waiting[to];
    assert !Tracked(r) && r.id.Some? ==> r.id.value !in t.pending;
  }

  lemma ReplyKeepsExact(t: Table, to: nat, msg: Json, guest: Guest)
    requires Exact(t) && to in t.waiting && Answers(msg, t.waiting[to])
    ensures Exact(AfterReply(t, to, msg, guest))
  {
    hide ScrubForGuest, ObjectReply, HelloReply;
    ReplyIsFound(t, to, msg, guest);
    var u := AfterReply(t, to, msg, guest);
    forall id | id in u.pending
      ensures exists k :: k in u.waiting && Tracked(u.waiting[k]) && u.waiting[k].id.value == id
    {
      var k :| k in t.waiting && Tracked(t.waiting[k]) && t.waiting[k].id.value == id;
      assert k != to && u.waiting[k] == t.waiting[k];
    }
  }

  /** In every orderly run the table is exact. */
  lemma {:induction false} OrderlyIsExact(events: seq<Event>, guest: Guest)
    requires Orderly(events, guest)
    ensures Exact(AfterAll(EMPTY, events, guest))
  {
    if events != [] {
      var before := events[..|events| - 1];
      OrderlyIsExact(before, guest);
      var t := AfterAll(EMPTY, before, guest);
      match events[|events| - 1] {
        case Ask(v) => AskKeepsExact(t, v);
        case Reply(to, msg) => ReplyKeepsExact(t, to, msg, guest);
        case Event(msg) =>
      }
    }
  }

  /**
   * In every orderly run, a successful object reply to a tracked request is
   * rewritten as its method says, and that request, and no other, is then
   * no longer tracked; any other reply but the hello passes as it came.
   */
  lemma RepliesAreRewrittenOnce(events: seq<Event>, guest: Guest, to: nat, msg: Json)
    requires Orderly(events, guest)
    requires var t := AfterAll(EMPTY, events, guest); to in t.waiting && Answers(msg, t.waiting[to])
    ensures var t := AfterAll(EMPTY, events, guest);
            var r, s := t.waiting[to], ScrubForGuest(msg, guest, t.pending);
            && (Tracked(r) ==> r.id.value in t.pending && s.pending == t.pending - {r.id.value})
            && (Tracked(r) && ObjectReply(msg) ==>
                  s.out == Some(JObj(msg.fields["payload" := RewriteReply(r.rpc, msg.fields["payload"], guest)])))
            && (!Tracked(r) ==> s.pending == t.pending && (HelloReply(msg) || s.out == None))
  {
    OrderlyIsExact(events, guest);
    ReplyIsFound(AfterAll(EMPTY, events, guest), to, msg, guest);
  }

  /** Whatever anyone sends: at most a thousand are tracked, and only methods whose replies are rewritten. */
  lemma {:induction false} PendingIsBounded(events: seq<Event>, guest: Guest)
    ensures var p := AfterAll(EMPTY, events, guest).pending;
            |p| <= MAX_GUEST_PENDING && forall id <- p :: p[id] in REWRITTEN
  {
    if events != [] {
      var before := events[..|events| - 1];
      PendingIsBounded(before, guest);
      var p := AfterAll(EMPTY, before, guest).pending;
      match events[|events| - 1] {
        case Ask(v) =>
        case Reply(_, msg) => ScrubOnlyDrops(msg, guest, p);
        case Event(msg) => ScrubOnlyDrops(msg, guest, p);
      }
    }
  }

  lemma ScrubOnlyDrops(msg: Json, guest: Guest, p: map<string, string>)
    ensures var q := ScrubForGuest(msg, guest, p).pending;
            |q| <= |p| && forall id <- q :: id in p && q[id] == p[id]
  {
    hide ScrubHello, RewriteReply, ScrubEvent;
    var q := ScrubForGuest(msg, guest, p).pending;
    if q != p {
      var id := Text(msg.fields["id"]);
      assert q.Keys == p.Keys - {id};
      assert |q| == |q.Keys| && |p| == |p.Keys|;
    }
  }

  // ---- the exact condition -----------------------------------------------------

  function ObjectAnswer(id: string): Json {
    JObj(map["type" := JStr("res"), "id" := JStr(id), "ok" := JBool(true), "payload" := JObj(map[])])
  }

  /** Numbers go up: no two requests have one. */
  ghost predicate Numbered(t: Table) { forall k <- t.waiting :: k < t.next }

  /** A tracked request still waiting, found under its id, which no other waiting request has. */
  ghost predicate Kept(t: Table, mine: nat) {
    && Numbered(t) && mine in t.waiting && Tracked(t.waiting[mine])
    && var r := t.waiting[mine];
       && r.id.value in t.pending && t.pending[r.id.value] == r.rpc
       && forall j <- t.waiting :: t.waiting[j].id == r.id ==> j == mine
  }

  /** What one event does to the id of a request it does not answer. */
  lemma EventKeeps(t: Table, e: Event, mine: nat, guest: Guest)
    requires Kept(t, mine) && Proper(t, e) && !(e.Reply? && e.to == mine)
    ensures Kept(After(t, e, guest), mine) && After(t, e, guest).waiting[mine] == t.waiting[mine]
  {
    hide ScrubForGuest, ObjectReply, HelloReply;
    match e {
      case Ask(v) =>
      case Reply(to, msg) => OthersReply(t, to, msg, mine, guest);
      case Event(msg) => NoReply(msg, guest, t.pending);
    }
  }

  lemma NoReply(msg: Json, guest: Guest, p: map<string, string>)
    requires Get(msg, "type") != Some(JStr("res"))
    ensures ScrubForGuest(msg, guest, p).pending == p
  {
  }

  lemma OthersReply(t: Table, to: nat, msg: Json, mine: nat, guest: Guest)
    requires Kept(t, mine) && to in t.waiting && to != mine && Answers(msg, t.waiting[to])
    ensures var id := t.waiting[mine].id.value;
            var p := ScrubForGuest(msg, guest, t.pending).pending;
            id in p && p[id] == t.pending[id]
  {
    assert t.waiting[to].id != t.waiting[mine].id;
  }

  /** Once answered, a number does not come back. */
  lemma {:induction false} NumbersGoUp(t: Table, events: seq<Event>, guest: Guest, k: nat)
    requires Numbered(t) && k < t.next
    ensures Numbered(AfterAll(t, events, guest)) && k < AfterAll(t, events, guest).next
    ensures k in AfterAll(t, events, guest).waiting ==> k in t.waiting
  {
    hide ScrubForGuest;
    if events != [] {
      NumbersGoUp(t, events[..|events| - 1], guest, k);
    }
  }

  lemma {:induction false} StaysKept(t: Table, events: seq<Event>, mine: nat, guest: Guest)
    requires ProperRun(t, events, guest) && Kept(t, mine) && mine in AfterAll(t, events, guest).waiting
    ensures Kept(AfterAll(t, events, guest), mine) && AfterAll(t, events, guest).waiting[mine] == t.waiting[mine]
  {
    if events != [] {
      var before, e := events[..|events| - 1], events[|events| - 1];
      var u := AfterAll(t, before, guest);
      NumbersGoUp(t, before, guest, mine);
      hide Kept, ScrubForGuest, Proper;
      StaysKept(t, before, mine, guest);
      EventKeeps(u, e, mine, guest);
    }
  }

  /** However the run goes on, whoever else asks or is answered, the reply to the request now admitted is rewritten. */
  ghost predicate AlwaysFound(t: Table, v: Verdict, guest: Guest)
    requires Decide(v, t.pending) == Forwarded(true)
  {
    var u := AfterAsk(t, v);
    forall events, msg ::
      ProperRun(u, events, guest) && t.next in AfterAll(u, events, guest).waiting &&
      Answers(msg, Request(v.id, v.rpc.value)) && ObjectReply(msg) ==>
        ScrubForGuest(msg, guest, AfterAll(u, events, guest).pending).out
        == Some(JObj(msg.fields["payload" := RewriteReply(v.rpc.value, msg.fields["payload"], guest)]))
  }

  /**
   * The property fails in the other runs, and only there: whatever the table,
   * the reply to a request being admitted is sure to be found if and only if
   * no untracked request is waiting under its id. (The guard looks in
   * `pending`, where untracked requests are not.)
   */
  lemma FoundIffNoClash(t: Table, v: Verdict, guest: Guest)
    requires Numbered(t) && Decide(v, t.pending) == Forwarded(true)
    ensures AlwaysFound(t, v, guest) <==> !Clash(t, v)
  {
    if Clash(t, v) {
      ClashLosesReply(t, v, guest);
    } else {
      var u := AfterAsk(t, v);
      assert Kept(u, t.next);
      forall events, msg | ProperRun(u, events, guest) && t.next in AfterAll(u, events, guest).waiting &&
                           Answers(msg, Request(v.id, v.rpc.value)) && ObjectReply(msg)
        ensures ScrubForGuest(msg, guest, AfterAll(u, events, guest).pending).out
                == Some(JObj(msg.fields["payload" := RewriteReply(v.rpc.value, msg.fields["payload"], guest)]))
      {
        StaysKept(u, events, t.next, guest);
        KeptIsFound(AfterAll(u, events, guest), t.next, msg, guest);
      }
    }
  }

  lemma KeptIsFound(t: Table, mine: nat, msg: Json, guest: Guest)
    requires Kept(t, mine) && Answers(msg, t.waiting[mine]) && ObjectReply(msg)
    ensures ScrubForGuest(msg, guest, t.pending).out
            == Some(JObj(msg.fields["payload" := RewriteReply(t.waiting[mine].rpc, msg.fields["payload"], guest)]))
  {
  }

  /** An object reply under this id takes its entry, and a second one is then passed as it came. */
  lemma TakenOnce(id: string, asked: string, p: map<string, string>, guest: Guest)
    requires id in p && p[id] == asked && asked != ""
    ensures var left := ScrubForGuest(ObjectAnswer(id), guest, p).pending;
            id !in left && ScrubForGuest(ObjectAnswer(id), guest, left).out == None
  {
    var msg := ObjectAnswer(id);
    assert ObjectReply(msg) && !HelloReply(msg) && Text(msg.fields["id"]) == id;
  }

  lemma AnswersUnderId(id: string, r: Request)
    requires r.id == Some(id)
    ensures Answers(ObjectAnswer(id), r) && ObjectReply(ObjectAnswer(id))
  {
  }

  /** With a clash, the older request's reply takes the entry and the tracked one's passes as it came. */
  lemma ClashLosesReply(t: Table, v: Verdict, guest: Guest)
    requires Numbered(t) && Clash(t, v)
    ensures !AlwaysFound(t, v, guest)
  {
    var k :| k in t.waiting && t.waiting[k].id == v.id;
    var id := v.id.value;
    var u := AfterAsk(t, v);
    hide ScrubForGuest, ObjectAnswer, Answers, ObjectReply;
    assert u.waiting[k] == t.waiting[k];
    AnswersUnderId(id, t.waiting[k]);
    AnswersUnderId(id, Request(v.id, v.rpc.value));
    OneEvent(u, Reply(k, ObjectAnswer(id)), guest);
    TakenOnce(id, v.rpc.value, u.pending, guest);
    var older := [Reply(k, ObjectAnswer(id))];
    assert ProperRun(u, older, guest) && t.next in AfterAll(u, older, guest).waiting;
  }

  lemma OneEvent(t: Table, e: Event, guest: Guest)
    ensures AfterAll(t, [e], guest) == After(t, e, guest) && (ProperRun(t, [e], guest) <==> Proper(t, e))
  {
    assert [e][..|[e]| - 1] == [];
  }
}
