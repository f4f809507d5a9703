/**
 * What a web-chat guest may ask the gateway, and what the gateway's answers
 * look like once other people are taken out of them: guestRequestVerdict,
 * scrubForGuest and guestAgentsList of src/api/consoleProxy.ts.
 *
 * Messages are JSON values. A number is kept as the text String(n) gives it.
 */
module GuestMessages {
  import opened Basics

  datatype Json =
    | JNull
    | JBool(b: bool)
    | JNum(text: string)
    | JStr(s: string)
    | JArr(items: seq<Json>)
    | JObj(fields: map<string, Json>)

  // ---- JavaScript's reading of a value ---------------------------------------

  /** `v && …`. */
  predicate Truthy(j: Json) {
    match j
    case JNull => false
    case JBool(b) => b
    case JNum(text) => text != "0"
    case JStr(s) => s != ""
    case JArr(_) => true
    case JObj(_) => true
  }

  /** A property read off a value that has none of that name is undefined. */
  function Get(j: Json, name: string): Option<Json> {
    if j.JObj? && name in j.fields then Some(j.fields[name]) else None
  }

  /** The decimal digits of an array index. */
  function Decimal(n: nat): string {
    if n < 10 then [('0' as int + n) as char] else Decimal(n / 10) + [('0' as int + n % 10) as char]
  }

  function Indexed(items: seq<Json>): map<string, Json> {
    if items == [] then map[]
    else Indexed(items[..|items| - 1])[Decimal(|items| - 1) := items[|items| - 1]]
  }

  /** `{ ...v }`. */
  function Spread(j: Json): map<string, Json> {
    match j
    case JObj(fields) => fields
    case JArr(items) => Indexed(items)
    case JStr(s) => Indexed(seq(|s|, i requires 0 <= i < |s| => JStr([s[i]])))
    case _ => map[]
  }

  /** String(v): what an id is remembered by. Arrays join their elements with commas. */
  function Text(j: Json): string {
    match j
    case JNull => "null"
    case JBool(b) => if b then "true" else "false"
    case JNum(text) => text
    case JStr(s) => s
    case JArr(items) => Joined(items)
    case JObj(_) => "[object Object]"
  }

  function Joined(items: seq<Json>): string {
    if items == [] then ""
    else
      var last := items[|items| - 1];
      var text := if last.JNull? then "" else Text(last);
      if |items| == 1 then text else Joined(items[..|items| - 1]) + "," + text
  }

  function Filter(items: seq<Json>, keep: Json -> bool): (kept: seq<Json>)
    ensures forall j <- kept :: keep(j) && j in items
  {
    if items == [] then []
    else (if keep(items[0]) then [items[0]] else []) + Filter(items[1..], keep)
  }

  function MapAll(items: seq<Json>, f: Json -> Json): (mapped: seq<Json>)
    ensures |mapped| == |items| && forall i :: 0 <= i < |items| ==> mapped[i] == f(items[i])
  {
    seq(|items|, i requires 0 <= i < |items| => f(items[i]))
  }

  // ---- guest to gateway ------------------------------------------------------

  /** The gateway RPCs a guest's chat needs. */
  const GUEST_METHODS: set<string> := {
    "connect",
    "chat.history", "chat.send", "chat.abort", "chat.message.get", "chat.metadata", "chat.startup", "chat.toolTitles",
    "agent", "agent.wait", "agent.identity.get", "agents.list",
    "sessions.list", "sessions.create", "sessions.get", "sessions.describe", "sessions.preview", "sessions.resolve",
    "sessions.search", "sessions.subscribe", "sessions.messages.subscribe", "sessions.messages.unsubscribe",
    "sessions.patch", "sessions.delete", "sessions.abort", "sessions.send", "sessions.steer", "sessions.title.prepare",
    "sessions.activitySummary.ensure", "sessions.setInvolvement", "sessions.viewers.set", "sessions.observer.visibility",
    "sessions.branches.list", "sessions.branches.switch", "sessions.fork", "sessions.compact", "sessions.groups.list",
    "sessions.catalog.list", "session.typing",
    "question.list", "question.get", "question.resolve",
    "health", "models.list", "commands.list", "tools.catalog", "gateway.identity.get",
    "users.self", "users.prefs.get", "users.prefs.set", "themes.list", "themes.get", "themes.set",
    "mentions.list", "mentions.dismiss", "push.web.vapidPublicKey"
  }

  datatype Verdict = Verdict(allow: bool, id: Option<string>, rpc: Option<string>)

  function GuestRequestVerdict(msg: Json): Verdict {
    if !msg.JObj? then Verdict(false, None, None)
    else
      var id := match Get(msg, "id") { case Some(JStr(s)) => Some(s) case Some(JNum(n)) => Some(n) case _ => None };
      if Get(msg, "type") != Some(JStr("req")) then Verdict(false, id, None)
      else match Get(msg, "method") {
        case Some(JStr(m)) => Verdict(MethodAllowed(m, Get(msg, "params")), id, Some(m))
        case _ => Verdict(false, id, None)
      }
  }

  /** On the list; and a guest connects as an operator only, never as a node. */
  predicate MethodAllowed(m: string, params: Option<Json>) {
    && m in GUEST_METHODS
    && (m == "connect" ==>
          var role := if params.Some? then Get(params.value, "role") else None;
          role.None? || role == Some(JStr("operator")))
  }

  // ---- gateway to guest ------------------------------------------------------

  /** The guest's agent and conversation, when they are confined to one. */
  datatype Scope = Scope(agentId: Option<string>, sessionKey: Option<string>)

  /** Who the guest is, and how the platform folds case. */
  datatype Guest = Guest(identity: string, scope: Scope, lower: string -> string)

  /** Replies the proxy rewrites, by the method asked. */
  const REWRITTEN: set<string> := {"health", "agents.list"}

  predicate SameIdentity(email: Option<Json>, guest: Guest) {
    email.Some? && email.value.JStr? && guest.lower(email.value.s) == guest.lower(guest.identity)
  }

  /** The gateway's own presence, or this guest's. */
  predicate OwnPresence(e: Json, guest: Guest) {
    e.JObj? && (Get(e, "mode") == Some(JStr("gateway"))
                || (Get(e, "user").Some? && SameIdentity(Get(Get(e, "user").value, "email"), guest)))
  }

  function ScrubPresence(list: Json, guest: Guest): Json {
    if list.JArr? then JArr(Filter(list.items, (e: Json) => OwnPresence(e, guest))) else list
  }

  predicate IsObject(j: Json) { j.JObj? || j.JArr? }

  predicate IsRecord(j: Json) { j.JObj? }

  /** `{ ...s, recent: [], count: undefined }`: a key set to undefined is not written out. */
  function ScrubSessions(s: Json): Json {
    if IsObject(s) then JObj((Spread(s) - {"count"})["recent" := JArr([])]) else s
  }

  function ScrubAgent(a: Json): Json {
    if !IsObject(a) then a
    else
      var fields := Spread(a);
      JObj(if "sessions" in fields && a.JObj? then fields["sessions" := ScrubSessions(fields["sessions"])] else fields)
  }

  function ScrubHealth(h: Json): Json {
    if !IsObject(h) then h
    else
      var out := Spread(h);
      var agents := if "agents" in out && out["agents"].JArr? && h.JObj? then out["agents" := JArr(MapAll(out["agents"].items, ScrubAgent))] else out;
      JObj(if "sessions" in agents && h.JObj? && Truthy(agents["sessions"]) then agents["sessions" := ScrubSessions(agents["sessions"])] else agents)
  }

  /** The part of the guest's session key after `agent:<agentId>:`. */
  function MainKey(scope: Scope): Option<string> {
    if scope.agentId.None? || scope.agentId.value == "" || scope.sessionKey.None? then None
    else
      var head := "agent:" + scope.agentId.value + ":";
      var key := scope.sessionKey.value;
      if head <= key && |key| > |head| then Some(key[|head|..]) else None
  }

  predicate Listed(agents: seq<Json>, id: string) {
    exists a <- agents :: Get(a, "id") == Some(JStr(id))
  }

  function WithoutMode(a: Json): Json {
    if a.JObj? then JObj(a.fields - {"defaultPermissionMode"}) else a
  }

  /** The agents a guest is told of: theirs alone, if it is there. */
  function Mine(agents: seq<Json>, scope: Scope): seq<Json> {
    var objects := Filter(agents, IsRecord);
    if scope.agentId.Some? && scope.agentId.value != "" && Listed(objects, scope.agentId.value)
    then Filter(objects, (a: Json) => Get(a, "id") == Some(JStr(scope.agentId.value))) else objects
  }

  /** And without the operator's permission mode. */
  function GuestAgents(agents: seq<Json>, scope: Scope): seq<Json> {
    MapAll(Mine(agents, scope), WithoutMode)
  }

  /** Their agent as the default one, and their conversation as its main one if there is a main one. */
  function WithOwnDefault(p: map<string, Json>, scope: Scope): map<string, Json>
    requires scope.agentId.Some?
  {
    var q := p["defaultId" := JStr(scope.agentId.value)];
    var key := MainKey(scope);
    if key.Some? && "mainKey" in q && q["mainKey"].JStr? then q["mainKey" := JStr(key.value)] else q
  }

  function GuestAgentsList(payload: Json, scope: Scope): Json {
    match Get(payload, "agents")
    case Some(JArr(items)) =>
      var agents := GuestAgents(items, scope);
      var p := payload.fields["agents" := JArr(agents)];
      JObj(if scope.agentId.Some? && scope.agentId.value != "" && Listed(agents, scope.agentId.value) then WithOwnDefault(p, scope) else p)
    case _ => payload
  }

  function GuestSessionDefaults(d: Json, scope: Scope): Json {
    if !d.JObj? || scope.agentId.None? || scope.agentId.value == "" then d
    else
      var fields := d.fields["defaultAgentId" := JStr(scope.agentId.value)];
      var key := MainKey(scope);
      if key.None? then JObj(fields)
      else
        var f := if "mainKey" in fields then fields["mainKey" := JStr(key.value)] else fields;
        JObj(if "mainSessionKey" in f then f["mainSessionKey" := JStr(scope.sessionKey.value)] else f)
  }

  function At(fields: map<string, Json>, name: string, f: Json -> Json): map<string, Json> {
    if name in fields then fields[name := f(fields[name])] else fields
  }

  function ScrubSnapshot(snap: Json, guest: Guest): Json {
    if !snap.JObj? then JObj(Spread(snap))
    else
      var a := At(snap.fields, "presence", (p: Json) => ScrubPresence(p, guest));
      var b := At(a, "health", ScrubHealth);
      JObj(At(b, "sessionDefaults", (d: Json) => GuestSessionDefaults(d, guest.scope)))
  }

  predicate GuestMethod(m: Json) { m.JStr? && m.s in GUEST_METHODS }

  function ScrubFeatures(features: Json): Json {
    match Get(features, "methods")
    case Some(JArr(methods)) => JObj(features.fields["methods" := JArr(Filter(methods, GuestMethod))])
    case _ => features
  }

  function ScrubHello(payload: map<string, Json>, guest: Guest): map<string, Json> {
    var a := if "snapshot" in payload && Truthy(payload["snapshot"])
             then payload["snapshot" := ScrubSnapshot(payload["snapshot"], guest)] else payload;
    At(a, "features", ScrubFeatures)
  }

  /** The message as rewritten (None: the bytes pass as they came), and the requests still waiting for an answer. */
  datatype Scrubbed = Scrubbed(out: Option<Json>, pending: map<string, string>)

  /** A successful reply with an object in it. */
  predicate ObjectReply(msg: Json) {
    && Get(msg, "type") == Some(JStr("res"))
    && Get(msg, "ok").Some? && Truthy(Get(msg, "ok").value)
    && Get(msg, "payload").Some? && IsObject(Get(msg, "payload").value)
  }

  /** The hello-ok reply to connect. */
  predicate HelloReply(msg: Json) {
    ObjectReply(msg) && Get(Get(msg, "payload").value, "type") == Some(JStr("hello-ok"))
  }

  function RewriteReply(asked: string, payload: Json, guest: Guest): Json {
    if asked == "health" then ScrubHealth(payload)
    else if asked == "agents.list" then GuestAgentsList(payload, guest.scope)
    else payload
  }

  function ScrubForGuest(msg: Json, guest: Guest, pending: map<string, string>): Scrubbed {
    if !msg.JObj? then Scrubbed(None, pending)
    else if ObjectReply(msg) then
      var payload := msg.fields["payload"];
      if HelloReply(msg) then Scrubbed(Some(JObj(msg.fields["payload" := JObj(ScrubHello(payload.fields, guest))])), pending)
      else
        var id := if "id" in msg.fields then Some(Text(msg.fields["id"])) else None;
        if id.None? || id.value !in pending || pending[id.value] == "" then Scrubbed(None, pending)
        else
          var asked := pending[id.value];
          Scrubbed(
            if asked in REWRITTEN then Some(JObj(msg.fields["payload" := RewriteReply(asked, payload, guest)])) else None,
            pending - {id.value})
    else
      var left := if Get(msg, "type") == Some(JStr("res")) && "id" in msg.fields then pending - {Text(msg.fields["id"])} else pending;
      Scrubbed(ScrubEvent(msg, guest), left)
  }

  function ScrubEvent(msg: Json, guest: Guest): Option<Json>
    requires msg.JObj?
  {
    if Get(msg, "type") != Some(JStr("event")) then None
    else if Get(msg, "event") == Some(JStr("presence")) then
      match Get(msg, "payload") {
        case Some(JArr(items)) => Some(JObj(msg.fields["payload" := ScrubPresence(JArr(items), guest)]))
        case Some(JObj(p)) =>
          if "presence" in p then Some(JObj(msg.fields["payload" := JObj(p["presence" := ScrubPresence(p["presence"], guest)])])) else None
        case _ => None
      }
    else if Get(msg, "event") == Some(JStr("health")) then
      Some(JObj(At(msg.fields, "payload", ScrubHealth)))
    else None
  }

  // ---- what the guest is spared ----------------------------------------------

  /** `j` is an object in which `name` is `v`. */
  ghost predicate Has(j: Json, name: string, v: Json) {
    j.JObj? && name in j.fields && j.fields[name] == v
  }

  /** An entry the guest may be shown: the gateway's own, or one whose user's email is the guest's address, however capitalised. */
  ghost predicate Showable(e: Json, guest: Guest) {
    && e.JObj?
    && (Has(e, "mode", JStr("gateway"))
        || ("user" in e.fields && e.fields["user"].JObj? && "email" in e.fields["user"].fields
            && var email := e.fields["user"].fields["email"];
               email.JStr? && guest.lower(email.s) == guest.lower(guest.identity)))
  }

  lemma OwnIsShowable(e: Json, guest: Guest)
    ensures OwnPresence(e, guest) <==> Showable(e, guest)
  {
  }

  /** No presence but the gateway's and the guest's own. */
  ghost predicate PresenceClean(list: Json, guest: Guest) {
    list.JArr? ==> forall e <- list.items :: Showable(e, guest)
  }

  lemma ScrubPresenceCleans(list: Json, guest: Guest)
    ensures PresenceClean(ScrubPresence(list, guest), guest)
  {
    if list.JArr? {
      forall e | e in ScrubPresence(list, guest).items ensures Showable(e, guest) { OwnIsShowable(e, guest); }
    }
  }

  /** A session summary that names no session and counts none. */
  ghost predicate SessionsClean(s: Json) {
    s.JObj? || s.JArr? ==> Has(s, "recent", JArr([])) && "count" !in s.fields
  }

  ghost predicate HealthClean(h: Json) {
    h.JObj? ==>
      && ("sessions" in h.fields ==> SessionsClean(h.fields["sessions"]))
      && ("agents" in h.fields && h.fields["agents"].JArr? ==>
            forall a <- h.fields["agents"].items :: a.JObj? && "sessions" in a.fields ==> SessionsClean(a.fields["sessions"]))
  }

  /** The guest's own agent is among these. */
  ghost predicate OwnThere(agents: seq<Json>, scope: Scope) {
    scope.agentId.Some? && scope.agentId.value != "" && exists a <- agents :: Has(a, "id", JStr(scope.agentId.value))
  }

  /** And then there is no other. */
  ghost predicate OwnAlone(agents: seq<Json>, scope: Scope) {
    OwnThere(agents, scope) ==> forall a <- agents :: Has(a, "id", JStr(scope.agentId.value))
  }

  /** No agent but the guest's own, when the list has it; and no operator's permission mode on any. */
  ghost predicate AgentsClean(p: Json, scope: Scope) {
    p.JObj? && "agents" in p.fields && p.fields["agents"].JArr? ==>
      var items := p.fields["agents"].items;
      && (forall a <- items :: a.JObj? && "defaultPermissionMode" !in a.fields)
      && OwnAlone(items, scope) && (OwnThere(items, scope) ==> Has(p, "defaultId", JStr(scope.agentId.value)))
  }

  ghost predicate HelloClean(p: Json, guest: Guest) {
    && p.JObj?
    && ("snapshot" in p.fields && p.fields["snapshot"].JObj? ==>
          var snap := p.fields["snapshot"].fields;
          && ("presence" in snap ==> PresenceClean(snap["presence"], guest))
          && ("health" in snap ==> HealthClean(snap["health"])))
    && ("features" in p.fields && p.fields["features"].JObj? && "methods" in p.fields["features"].fields
        && p.fields["features"].fields["methods"].JArr? ==>
          forall m <- p.fields["features"].fields["methods"].items :: m.JStr? && m.s in GUEST_METHODS)
  }

  lemma ScrubHealthCleans(h: Json)
    ensures HealthClean(ScrubHealth(h))
  {
    if h.JObj? {
      var out := ScrubHealth(h).fields;
      if "agents" in out && out["agents"].JArr? {
        forall a | a in out["agents"].items && a.JObj? && "sessions" in a.fields
          ensures SessionsClean(a.fields["sessions"])
        {
          var items := h.fields["agents"].items;
          var i :| 0 <= i < |items| && a == MapAll(items, ScrubAgent)[i];
          assert a == ScrubAgent(items[i]);
          if items[i].JArr? {
            IndexedKeys(items[i].items, "sessions");
          } else {
            assert a.fields["sessions"] == ScrubSessions(items[i].fields["sessions"]);
          }
        }
      }
    } else if h.JArr? {
      IndexedKeys(h.items, "sessions");
      IndexedKeys(h.items, "agents");
    }
  }

  /** An array's keys are decimal numbers. */
  lemma {:induction false} IndexedKeys(items: seq<Json>, name: string)
    requires name != "" && name[0] > '9'
    ensures name !in Indexed(items)
  {
    if items != [] {
      IndexedKeys(items[..|items| - 1], name);
      DecimalStarts(|items| - 1);
    }
  }

  lemma {:induction false} DecimalStarts(n: nat)
    ensures Decimal(n) != "" && Decimal(n)[0] <= '9'
  {
    if n >= 10 {
      DecimalStarts(n / 10);
    }
  }

  lemma ListedIs(agents: seq<Json>, id: string)
    ensures Listed(agents, id) <==> exists a <- agents :: Has(a, "id", JStr(id))
  {
    forall a: Json ensures Get(a, "id") == Some(JStr(id)) <==> Has(a, "id", JStr(id)) {}
  }

  lemma MineAre(items: seq<Json>, scope: Scope)
    ensures (forall a <- Mine(items, scope) :: a.JObj?) && OwnAlone(Mine(items, scope), scope)
  {
    var objects := Filter(items, IsRecord);
    forall a | a in Mine(items, scope) ensures a.JObj? {
      assert a in objects && IsRecord(a);
    }
    if scope.agentId.Some? { ListedIs(objects, scope.agentId.value); }
  }

  lemma GuestAgentsAre(items: seq<Json>, scope: Scope)
    ensures (forall a <- GuestAgents(items, scope) :: a.JObj? && "defaultPermissionMode" !in a.fields)
    ensures OwnAlone(GuestAgents(items, scope), scope)
  {
    var mine, agents := Mine(items, scope), GuestAgents(items, scope);
    MineAre(items, scope);
    forall a | a in agents
      ensures a.JObj? && "defaultPermissionMode" !in a.fields && exists b <- mine :: a == WithoutMode(b)
    {
      var i :| 0 <= i < |agents| && agents[i] == a;
      assert mine[i] in mine && a == WithoutMode(mine[i]);
    }
  }

  lemma GuestAgentsListCleans(p: Json, scope: Scope)
    ensures AgentsClean(GuestAgentsList(p, scope), scope)
  {
    if p.JObj? && "agents" in p.fields && p.fields["agents"].JArr? {
      ListIsTold(p, scope);
      GuestAgentsAre(p.fields["agents"].items, scope);
      hide GuestAgentsList, GuestAgents, OwnThere, OwnAlone;
    }
  }

  lemma ListIsTold(p: Json, scope: Scope)
    requires p.JObj? && "agents" in p.fields && p.fields["agents"].JArr?
    ensures var out, agents := GuestAgentsList(p, scope), GuestAgents(p.fields["agents"].items, scope);
            && out.JObj? && "agents" in out.fields && out.fields["agents"] == JArr(agents)
            && (OwnThere(agents, scope) ==> Has(out, "defaultId", JStr(scope.agentId.value)))
  {
    var agents := GuestAgents(p.fields["agents"].items, scope);
    if scope.agentId.Some? {
      ListedIs(agents, scope.agentId.value);
      OwnDefaultIs(p.fields["agents" := JArr(agents)], scope, "agents");
    }
    hide GuestAgents, MainKey, Listed, WithOwnDefault;
  }

  /** Of the list only the default and the main conversation change. */
  lemma OwnDefaultIs(p: map<string, Json>, scope: Scope, name: string)
    requires scope.agentId.Some?
    ensures var q := WithOwnDefault(p, scope);
            && "defaultId" in q && q["defaultId"] == JStr(scope.agentId.value)
            && (name != "defaultId" && name != "mainKey" ==> (name in q <==> name in p) && (name in p ==> q[name] == p[name]))
            && ("mainKey" in q <==> "mainKey" in p)
            && ("mainKey" in p ==> q["mainKey"] == if MainKey(scope).Some? && p["mainKey"].JStr? then JStr(MainKey(scope).value) else p["mainKey"])
  {
    hide MainKey;
    assert |"defaultId"| == 9 && |"mainKey"| == 7;
  }

  lemma {:induction false} FilterCounts(items: seq<Json>, keep: Json -> bool, e: Json)
    ensures multiset(Filter(items, keep))[e] == if keep(e) then multiset(items)[e] else 0
    ensures (forall j <- items :: keep(j)) ==> Filter(items, keep) == items
  {
    if items != [] {
      FilterCounts(items[1..], keep, e);
      assert items == [items[0]] + items[1..];
    }
  }

  /** Nothing more is taken out than other people: every own entry stays as often as it was there, and a clean list is left alone. */
  lemma PresenceKeepsOwn(items: seq<Json>, guest: Guest, e: Json)
    ensures var out := ScrubPresence(JArr(items), guest);
            && out.JArr?
            && multiset(out.items)[e] == (if Showable(e, guest) then multiset(items)[e] else 0)
            && (PresenceClean(JArr(items), guest) ==> out == JArr(items))
  {
    OwnIsShowable(e, guest);
    FilterCounts(items, (e: Json) => OwnPresence(e, guest), e);
  }

  /** And what stays keeps its order. */
  lemma {:induction false} FilterAppend(a: seq<Json>, b: seq<Json>, keep: Json -> bool)
    ensures Filter(a + b, keep) == Filter(a, keep) + Filter(b, keep)
  {
    if a == [] {
      assert a + b == b;
    } else {
      assert (a + b)[0] == a[0] && (a + b)[1..] == a[1..] + b;
      FilterAppend(a[1..], b, keep);
    }
  }

  /** Health loses nothing but the session summaries. */
  lemma HealthKeepsTheRest(h: map<string, Json>, name: string)
    ensures var out := ScrubHealth(JObj(h));
            && out.JObj? && out.fields.Keys == h.Keys
            && (name in h && name != "agents" && name != "sessions" ==> out.fields[name] == h[name])
            && ("agents" in h && h["agents"].JArr? ==>
                  && out.fields["agents"].JArr? && |out.fields["agents"].items| == |h["agents"].items|
                  && forall i :: 0 <= i < |h["agents"].items| && h["agents"].items[i].JObj? ==>
                       var a, b := h["agents"].items[i].fields, out.fields["agents"].items[i];
                       b.JObj? && b.fields.Keys == a.Keys && (name in a && name != "sessions" ==> b.fields[name] == a[name]))
  {
  }

  lemma ScrubAgentTwice(a: Json)
    ensures ScrubAgent(ScrubAgent(a)) == ScrubAgent(a)
  {
    if a.JArr? {
      IndexedKeys(a.items, "sessions");
    } else if a.JObj? && "sessions" in a.fields {
      ScrubSessionsTwice(a.fields["sessions"]);
    }
  }

  lemma ScrubSessionsTwice(s: Json)
    ensures ScrubSessions(ScrubSessions(s)) == ScrubSessions(s)
  {
    if IsObject(s) {
      var once := ScrubSessions(s).fields;
      assert (once - {"count"})["recent" := JArr([])] == once;
    }
  }

  lemma ScrubAgentsTwice(items: seq<Json>)
    ensures MapAll(MapAll(items, ScrubAgent), ScrubAgent) == MapAll(items, ScrubAgent)
  {
    forall i | 0 <= i < |items| ensures ScrubAgent(ScrubAgent(items[i])) == ScrubAgent(items[i]) {
      ScrubAgentTwice(items[i]);
    }
  }

  /** And a second scrub, of whatever health the gateway sends, finds nothing to do. */
  lemma ScrubHealthTwice(h: Json)
    ensures ScrubHealth(ScrubHealth(h)) == ScrubHealth(h)
  {
    hide ScrubAgent, ScrubSessions;
    if h.JArr? {
      IndexedKeys(h.items, "sessions");
      IndexedKeys(h.items, "agents");
    } else if h.JObj? {
      if "agents" in h.fields && h.fields["agents"].JArr? {
        ScrubAgentsTwice(h.fields["agents"].items);
      }
      if "sessions" in h.fields {
        ScrubSessionsTwice(h.fields["sessions"]);
        ScrubbedIsTruthy(h.fields["sessions"]);
      }
    }
  }

  lemma ScrubbedIsTruthy(s: Json)
    ensures Truthy(ScrubSessions(s)) == Truthy(s)
  {
  }

  /** The message the guest is handed: rewritten, or as it came. */
  function Handed(msg: Json, out: Option<Json>): Json {
    if out.Some? then out.value else msg
  }

  /** The gateway says yes: `ok` is there, and is none of the values JavaScript takes for false. */
  ghost predicate SaysYes(msg: Json) {
    Has(msg, "type", JStr("res")) && "ok" in msg.fields && msg.fields["ok"] !in {JNull, JBool(false), JNum("0"), JStr("")}
  }

  /** Of an answer or event `msg`, handed over as `told`: nobody else where people are shown, and all but its payload as it was. */
  ghost predicate ShowsNobodyElse(msg: Json, told: Json, guest: Guest, pending: map<string, string>)
    requires msg.JObj?
  {
    && told.JObj? && told.fields.Keys == msg.fields.Keys
    && (forall k <- msg.fields.Keys :: k != "payload" ==> told.fields[k] == msg.fields[k])
    && ("payload" in msg.fields ==>
          var said, payload := msg.fields["payload"], told.fields["payload"];
          && (SaysYes(msg) && Has(said, "type", JStr("hello-ok")) ==> HelloClean(payload, guest))
          && (SaysYes(msg) && (said.JObj? || said.JArr?) && !Has(said, "type", JStr("hello-ok")) &&
              "id" in msg.fields && Text(msg.fields["id"]) in pending ==>
                && (pending[Text(msg.fields["id"])] == "health" ==> HealthClean(payload))
                && (pending[Text(msg.fields["id"])] == "agents.list" ==> AgentsClean(payload, guest.scope)))
          && (Has(msg, "type", JStr("event")) && Has(msg, "event", JStr("presence")) ==>
                && PresenceClean(payload, guest)
                && (payload.JObj? && "presence" in payload.fields ==> PresenceClean(payload.fields["presence"], guest)))
          && (Has(msg, "type", JStr("event")) && Has(msg, "event", JStr("health")) ==> HealthClean(payload)))
  }

  lemma HelloReplyIsClean(msg: Json, guest: Guest, pending: map<string, string>)
    requires HelloReply(msg)
    ensures ShowsNobodyElse(msg, Handed(msg, ScrubForGuest(msg, guest, pending).out), guest, pending)
  {
    hide ScrubHello, ScrubHealth, GuestAgentsList, HelloClean, HealthClean, AgentsClean, PresenceClean, ScrubEvent, RewriteReply;
    HelloIsClean(msg.fields["payload"].fields, guest);
  }

  /** The reply to a tracked request, or to one that is not. */
  lemma ReplyIsClean(msg: Json, guest: Guest, pending: map<string, string>)
    requires ObjectReply(msg) && !HelloReply(msg)
    ensures ShowsNobodyElse(msg, Handed(msg, ScrubForGuest(msg, guest, pending).out), guest, pending)
  {
    hide ScrubHello, ScrubHealth, GuestAgentsList, HelloClean, HealthClean, AgentsClean, PresenceClean, ScrubEvent;
    ScrubHealthCleans(msg.fields["payload"]);
    GuestAgentsListCleans(msg.fields["payload"], guest.scope);
  }

  /** Anything else: events, and replies that carry no object. */
  lemma EventIsClean(msg: Json, guest: Guest, pending: map<string, string>)
    requires msg.JObj? && !ObjectReply(msg)
    ensures ShowsNobodyElse(msg, Handed(msg, ScrubForGuest(msg, guest, pending).out), guest, pending)
  {
    hide ScrubHealth, HelloClean, HealthClean, AgentsClean, Showable, OwnPresence;
    if "payload" in msg.fields {
      var p := msg.fields["payload"];
      ScrubHealthCleans(p);
      ScrubPresenceCleans(p, guest);
      if p.JObj? && "presence" in p.fields { ScrubPresenceCleans(p.fields["presence"], guest); }
    }
  }

  /**
   * Whatever the gateway says: the message the guest is handed (rewritten, or
   * as it came) shows nobody else where people are shown: not in a presence
   * or health event, not in the hello, not in the reply to a tracked request.
   */
  lemma DeliveredIsClean(msg: Json, guest: Guest, pending: map<string, string>)
    requires msg.JObj?
    ensures ShowsNobodyElse(msg, Handed(msg, ScrubForGuest(msg, guest, pending).out), guest, pending)
  {
    hide *;
    if HelloReply(msg) {
      HelloReplyIsClean(msg, guest, pending);
    } else if ObjectReply(msg) {
      ReplyIsClean(msg, guest, pending);
    } else {
      EventIsClean(msg, guest, pending);
    }
  }

  lemma HelloIsClean(payload: map<string, Json>, guest: Guest)
    ensures HelloClean(JObj(ScrubHello(payload, guest)), guest)
  {
    if "snapshot" in payload && payload["snapshot"].JObj? {
      var snap := payload["snapshot"].fields;
      hide ScrubHealth, HealthClean, ScrubPresence, PresenceClean;
      if "health" in snap {
        ScrubHealthCleans(snap["health"]);
      }
      if "presence" in snap {
        ScrubPresenceCleans(snap["presence"], guest);
      }
    } else if "snapshot" in payload && payload["snapshot"].JArr? {
      IndexedKeys(payload["snapshot"].items, "presence");
      IndexedKeys(payload["snapshot"].items, "health");
    } else if "snapshot" in payload && payload["snapshot"].JStr? {
      var s := payload["snapshot"].s;
      IndexedKeys(seq(|s|, i requires 0 <= i < |s| => JStr([s[i]])), "presence");
      IndexedKeys(seq(|s|, i requires 0 <= i < |s| => JStr([s[i]])), "health");
    }
  }
}
