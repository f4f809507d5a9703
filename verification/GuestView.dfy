/**
 * What guests may ask and what they are told (guestRequestVerdict,
 * scrubForGuest and what they use in src/api/consoleProxy.ts), read off the
 * fields of the messages alone: exactly which requests are admitted, and
 * exactly what of each message stays.
 */
module GuestView {
  import opened Basics
  import opened GuestMessages
  import opened GuestSplice
  import opened WebSocketFrames
  import Strings = Text

  // ---- asking ------------------------------------------------------------------

  /** A request for a method on the list; and to connect, as an operator or as nothing in particular. */
  ghost predicate Askable(msg: Json) {
    && Has(msg, "type", JStr("req"))
    && "method" in msg.fields && msg.fields["method"].JStr? && msg.fields["method"].s in GUEST_METHODS
    && (msg.fields["method"].s == "connect" && "params" in msg.fields && msg.fields["params"].JObj? && "role" in msg.fields["params"].fields ==>
          msg.fields["params"].fields["role"] == JStr("operator"))
  }

  /** Exactly which requests the verdict admits. */
  lemma AskedExactly(msg: Json)
    ensures GuestRequestVerdict(msg).allow <==> Askable(msg)
    ensures GuestRequestVerdict(msg).allow ==> GuestRequestVerdict(msg).rpc == Some(msg.fields["method"].s)
  {
  }

  /** A request is remembered by what its reply's id will read as; only a string or a number is an id. */
  lemma IdIsRemembered(msg: Json)
    requires msg.JObj?
    ensures var id := GuestRequestVerdict(msg).id;
            && (id.Some? <==> "id" in msg.fields && (msg.fields["id"].JStr? || msg.fields["id"].JNum?))
            && (id.Some? ==>
                  && id.value == Text(msg.fields["id"])
                  && id.value == if msg.fields["id"].JStr? then msg.fields["id"].s else msg.fields["id"].text)
  {
  }

  /**
   * Exactly which requests are sent on: those admitted, under no id that is
   * waiting, and, when their reply has to be rewritten, under an id and with
   * room for one more; and exactly those of the last kind are tracked.
   */
  lemma SentOnExactly(v: Verdict, pending: map<string, string>)
    ensures var rewritten := v.rpc == Some("health") || v.rpc == Some("agents.list");
            && (Decide(v, pending).Forwarded? <==>
                  && v.allow && (v.id.Some? ==> v.id.value !in pending.Keys)
                  && (rewritten ==> v.id.Some? && |pending| < 1000))
            && (Decide(v, pending) == Forwarded(true) ==> rewritten) && (Decide(v, pending) == Forwarded(false) ==> !rewritten)
            && (Decide(v, pending).Refused? <==> !v.allow)
  {
  }

  /** What a request that is not sent on is answered with: under its own id, not ok, and why. */
  lemma AnsweredUnderItsId(v: Verdict, pending: map<string, string>, env: Setup)
    requires !Decide(v, pending).Forwarded?
    ensures var answer := Apology(Decide(v, pending), v, env);
            && Has(answer, "type", JStr("res")) && Has(answer, "ok", JBool(false))
            && Has(answer, "id", if v.id.Some? then JStr(v.id.value) else JNull)
            && "error" in answer.fields && Has(answer.fields["error"], "code", JStr(if v.allow then "UNAVAILABLE" else "FORBIDDEN"))
  {
    assert |"type"| == 4 && |"id"| == 2 && |"ok"| == 2 && |"error"| == 5 && "id"[0] == 'i' && "ok"[0] == 'o';
  }

  // ---- presence ------------------------------------------------------------------

  /** The presence list a message shows: of an event the payload or its field, of a hello the snapshot's. */
  ghost function Shown(msg: Json): Option<Json> {
    if !msg.JObj? || "payload" !in msg.fields then None
    else
      var p := msg.fields["payload"];
      if Has(msg, "type", JStr("event")) && Has(msg, "event", JStr("presence")) then
        if p.JObj? && "presence" in p.fields then Some(p.fields["presence"]) else Some(p)
      else if SaysYes(msg) && Has(p, "type", JStr("hello-ok")) && "snapshot" in p.fields
              && p.fields["snapshot"].JObj? && "presence" in p.fields["snapshot"].fields then Some(p.fields["snapshot"].fields["presence"])
      else None
  }

  /**
   * Whichever way presence reaches the guest: an entry is in what they are
   * handed exactly as often as the gateway listed it if it is the gateway's
   * own or theirs, and not at all otherwise.
   */
  lemma PresenceExactly(msg: Json, guest: Guest, pending: map<string, string>, e: Json)
    requires Shown(msg).Some? && Shown(msg).value.JArr?
    ensures var told := Shown(Handed(msg, ScrubForGuest(msg, guest, pending).out));
            && told.Some? && told.value.JArr?
            && multiset(told.value.items)[e] == (if Showable(e, guest) then multiset(Shown(msg).value.items)[e] else 0)
  {
    PresenceKeepsOwn(Shown(msg).value.items, guest, e);
    PresenceIsScrubbed(msg, guest, pending);
  }

  lemma PresenceIsScrubbed(msg: Json, guest: Guest, pending: map<string, string>)
    requires Shown(msg).Some? && Shown(msg).value.JArr?
    ensures Shown(Handed(msg, ScrubForGuest(msg, guest, pending).out)) == Some(ScrubPresence(Shown(msg).value, guest))
  {
    if Has(msg, "type", JStr("event")) {
      EventPresence(msg, guest, pending);
    } else {
      HelloPresence(msg, guest, pending);
    }
  }

  lemma EventPresence(msg: Json, guest: Guest, pending: map<string, string>)
    requires Shown(msg).Some? && Shown(msg).value.JArr? && Has(msg, "type", JStr("event"))
    ensures Shown(Handed(msg, ScrubForGuest(msg, guest, pending).out)) == Some(ScrubPresence(Shown(msg).value, guest))
  {
    hide ScrubHealth;
  }

  lemma HelloPresence(msg: Json, guest: Guest, pending: map<string, string>)
    requires Shown(msg).Some? && Shown(msg).value.JArr? && !Has(msg, "type", JStr("event"))
    ensures Shown(Handed(msg, ScrubForGuest(msg, guest, pending).out)) == Some(ScrubPresence(Shown(msg).value, guest))
  {
    var p := msg.fields["payload"].fields;
    HelloKeepsTheRest(p, guest, "type");
    hide ScrubPresence, ScrubHello, RewriteReply, ScrubEvent;
    SnapshotKeepsTheRest(p["snapshot"].fields, guest, "presence");
  }

  // ---- the hello -----------------------------------------------------------------

  /** Of the hello nothing but snapshot and features changes, and of those nothing but what is named here. */
  lemma HelloKeepsTheRest(p: map<string, Json>, guest: Guest, name: string)
    ensures var out := ScrubHello(p, guest);
            && (name in out <==> name in p)
            && (name in p && name != "snapshot" && name != "features" ==> out[name] == p[name])
            && ("snapshot" in p && p["snapshot"].JObj? ==> out["snapshot"] == ScrubSnapshot(p["snapshot"], guest))
            && ("features" in p ==> out["features"] == ScrubFeatures(p["features"]))
  {
    assert |"snapshot"| == 8 && "snapshot"[0] == 's' && "features"[0] == 'f';
  }

  lemma SnapshotKeepsTheRest(snap: map<string, Json>, guest: Guest, name: string)
    ensures var out := ScrubSnapshot(JObj(snap), guest);
            && out.JObj? && (name in out.fields <==> name in snap)
            && (name in snap && name !in {"presence", "health", "sessionDefaults"} ==> out.fields[name] == snap[name])
            && ("presence" in snap ==> out.fields["presence"] == ScrubPresence(snap["presence"], guest))
            && ("health" in snap ==> out.fields["health"] == ScrubHealth(snap["health"]))
            && ("sessionDefaults" in snap ==> out.fields["sessionDefaults"] == GuestSessionDefaults(snap["sessionDefaults"], guest.scope))
  {
    hide ScrubPresence, ScrubHealth, GuestSessionDefaults;
    assert "presence"[0] == 'p' && "health"[0] == 'h' && "sessionDefaults"[0] == 's';
  }

  /** Advertised are exactly the methods on the list, as often as the gateway named them. */
  lemma FeaturesExactly(features: Json, m: Json)
    requires features.JObj? && "methods" in features.fields && features.fields["methods"].JArr?
    ensures var out := ScrubFeatures(features);
            && out.JObj? && out.fields.Keys == features.fields.Keys
            && (forall k <- features.fields.Keys :: k != "methods" ==> out.fields[k] == features.fields[k])
            && out.fields["methods"].JArr?
            && multiset(out.fields["methods"].items)[m]
               == (if m.JStr? && m.s in GUEST_METHODS then multiset(features.fields["methods"].items)[m] else 0)
  {
    FilterCounts(features.fields["methods"].items, GuestMethod, m);
  }

  /** The part of the guest's session key after the agent's prefix, when there is one: their conversation's name. */
  lemma ConversationIs(scope: Scope, rest: string)
    ensures MainKey(scope) == Some(rest) <==>
            scope.agentId.Some? && scope.agentId.value != "" && rest != "" &&
            scope.sessionKey == Some("agent:" + scope.agentId.value + ":" + rest)
  {
    if scope.agentId.Some? && scope.sessionKey.Some? {
      var head := "agent:" + scope.agentId.value + ":";
      var key := scope.sessionKey.value;
      if head <= key { assert key == head + key[|head|..]; }
      assert (head + rest)[|head|..] == rest;
    }
  }

  /** The session defaults name the guest's agent and, where a conversation is named, theirs. */
  lemma DefaultsAreOwn(d: map<string, Json>, scope: Scope, name: string)
    requires scope.agentId.Some? && scope.agentId.value != ""
    ensures var out := GuestSessionDefaults(JObj(d), scope);
            && out.JObj? && Has(out, "defaultAgentId", JStr(scope.agentId.value))
            && (name != "defaultAgentId" ==> (name in out.fields <==> name in d))
            && (name in d && name !in {"defaultAgentId", "mainKey", "mainSessionKey"} ==> out.fields[name] == d[name])
            && ("mainKey" in d ==> out.fields["mainKey"] == if MainKey(scope).Some? then JStr(MainKey(scope).value) else d["mainKey"])
            && ("mainSessionKey" in d ==>
                  out.fields["mainSessionKey"] == if MainKey(scope).Some? then JStr(scope.sessionKey.value) else d["mainSessionKey"])
  {
    assert |"defaultAgentId"| == 14 && |"mainKey"| == 7 && |"mainSessionKey"| == 14 && "mainSessionKey"[0] == 'm' && "defaultAgentId"[0] == 'd';
    assert MainKey(scope).Some? ==> scope.sessionKey.Some?;
    hide MainKey;
  }

  // ---- agents and health -----------------------------------------------------------

  /** An agent is told exactly when it is listed and, if the guest's own is, it is that one; without the operator's permission mode. */
  lemma AgentsExactly(items: seq<Json>, scope: Scope, b: Json)
    ensures b in GuestAgents(items, scope) <==>
            exists a :: a in items && a.JObj? && b == JObj(a.fields - {"defaultPermissionMode"}) &&
                        (OwnThere(items, scope) ==> Has(a, "id", JStr(scope.agentId.value)))
  {
    var mine := Mine(items, scope);
    forall a: Json ensures a in mine <==> a in items && a.JObj? && (OwnThere(items, scope) ==> Has(a, "id", JStr(scope.agentId.value))) {
      MineExactly(items, scope, a);
    }
    hide Mine;
    if b in GuestAgents(items, scope) {
      var i :| 0 <= i < |mine| && GuestAgents(items, scope)[i] == b;
      assert mine[i] in mine;
    }
    forall a | a in mine ensures WithoutMode(a) in GuestAgents(items, scope) {
      var i :| 0 <= i < |mine| && mine[i] == a;
      assert GuestAgents(items, scope)[i] == WithoutMode(a);
    }
  }

  lemma MineExactly(items: seq<Json>, scope: Scope, a: Json)
    ensures a in Mine(items, scope) <==> a in items && a.JObj? && (OwnThere(items, scope) ==> Has(a, "id", JStr(scope.agentId.value)))
  {
    var objects := Filter(items, IsRecord);
    forall x: Json ensures x in objects <==> x in items && x.JObj? { FilterHas(items, IsRecord, x); }
    if scope.agentId.Some? {
      var id := scope.agentId.value;
      ListedIs(objects, id);
      assert OwnThere(items, scope) <==> id != "" && Listed(objects, id);
      FilterHas(objects, (x: Json) => Get(x, "id") == Some(JStr(id)), a);
    }
  }

  lemma FilterHas(items: seq<Json>, keep: Json -> bool, e: Json)
    ensures e in Filter(items, keep) <==> e in items && keep(e)
  {
    FilterCounts(items, keep, e);
    assert e in Filter(items, keep) <==> multiset(Filter(items, keep))[e] > 0;
    assert e in items <==> multiset(items)[e] > 0;
  }

  /** A session summary loses the sessions it names and its count, and nothing else. */
  lemma SummaryKeepsTheRest(s: map<string, Json>, name: string)
    ensures var out := ScrubSessions(JObj(s));
            && out.JObj? && (name != "recent" && name != "count" ==> (name in out.fields <==> name in s) && (name in s ==> out.fields[name] == s[name]))
  {
  }

  /** A list of agents that is one: nothing changes but its agents and, when the guest's own is among them, the default and main conversation. */
  lemma ListKeepsTheRest(p: Json, scope: Scope, name: string)
    ensures var out := GuestAgentsList(p, scope);
            if p.JObj? && "agents" in p.fields && p.fields["agents"].JArr? then
              var agents := GuestAgents(p.fields["agents"].items, scope);
              var own := OwnThere(agents, scope);
              && out.JObj? && (name != "agents" && !(own && (name == "defaultId" || name == "mainKey")) ==>
                                 (name in out.fields <==> name in p.fields) && (name in p.fields ==> out.fields[name] == p.fields[name]))
              && (own && "mainKey" in p.fields ==>
                    "mainKey" in out.fields &&
                    out.fields["mainKey"] == if MainKey(scope).Some? && p.fields["mainKey"].JStr? then JStr(MainKey(scope).value) else p.fields["mainKey"])
            else out == p
  {
    if p.JObj? && "agents" in p.fields && p.fields["agents"].JArr? {
      var agents := GuestAgents(p.fields["agents"].items, scope);
      if scope.agentId.Some? {
        ListedIs(agents, scope.agentId.value);
        OwnDefaultIs(p.fields["agents" := JArr(agents)], scope, name);
      }
      assert |"agents"| == 6 && |"mainKey"| == 7;
      hide GuestAgents, MainKey, Listed, WithOwnDefault;
    }
  }

  /** Where there is nothing to tell a guest, nothing changes: no agent of theirs, no snapshot, no list of methods. */
  lemma NothingToTell(d: Json, scope: Scope, p: map<string, Json>, guest: Guest, features: Json)
    ensures scope.agentId == None || scope.agentId == Some("") || !d.JObj? ==> GuestSessionDefaults(d, scope) == d
    ensures "snapshot" in p && p["snapshot"] in {JNull, JBool(false), JNum("0"), JStr("")} ==>
              "snapshot" in ScrubHello(p, guest) && ScrubHello(p, guest)["snapshot"] == p["snapshot"]
    ensures !(features.JObj? && "methods" in features.fields && features.fields["methods"].JArr?) ==> ScrubFeatures(features) == features
  {
    assert "snapshot"[0] == 's' && "features"[0] == 'f';
  }

  // ---- everything else ---------------------------------------------------------------

  /** Messages that show no people pass as they came: other events, and replies to requests that are not tracked. */
  lemma OthersPass(msg: Json, guest: Guest, pending: map<string, string>)
    requires !msg.JObj? || !Has(msg, "type", JStr("event")) || (!Has(msg, "event", JStr("presence")) && !Has(msg, "event", JStr("health")))
    requires !(msg.JObj? && SaysYes(msg) && "id" in msg.fields && Text(msg.fields["id"]) in pending)
    requires !(msg.JObj? && SaysYes(msg) && "payload" in msg.fields && Has(msg.fields["payload"], "type", JStr("hello-ok")))
    ensures ScrubForGuest(msg, guest, pending).out == None
  {
  }

  /** And so does a reply that carries no object, or says no; it is not waited for any more. */
  lemma PlainRepliesPass(msg: Json, guest: Guest, pending: map<string, string>)
    requires Has(msg, "type", JStr("res"))
    requires SaysYes(msg) ==> "payload" !in msg.fields || !(msg.fields["payload"].JObj? || msg.fields["payload"].JArr?)
    ensures ScrubForGuest(msg, guest, pending) == Scrubbed(None, if "id" in msg.fields then pending - {Text(msg.fields["id"])} else pending)
  {
  }

  /** Whatever the proxy writes itself is one whole text frame, not masked, of the message's JSON. */
  lemma WrittenAsText(j: Json, env: Setup, tail: seq<Byte>, max: nat)
    requires |env.render(j)| <= max && |env.render(j)| < 0x1_0000_0000_0000_0000
    ensures ScanOne(TextFrame(j, env) + tail, max) == Got(Frame(true, 0, 1, false, env.render(j), TextFrame(j, env)))
  {
    EncodeThenScan(1, env.render(j), None, tail, max);
  }

  // ---- JavaScript's reading of a value -------------------------------------------------

  /** The number these digits spell. */
  ghost function Spelled(s: string): int {
    if s == "" then 0 else 10 * Spelled(s[..|s| - 1]) + (s[|s| - 1] as int - '0' as int)
  }

  /** A number's digits: they spell it, with no zero in front; so no two numbers share theirs. */
  lemma {:induction false} DecimalSpells(n: nat)
    ensures Spelled(Decimal(n)) == n && |Decimal(n)| > 0 && (forall i :: 0 <= i < |Decimal(n)| ==> '0' <= Decimal(n)[i] <= '9')
    ensures n > 0 ==> Decimal(n)[0] != '0'
  {
    if n < 10 {
      assert Decimal(n)[..0] == "";
    } else {
      DecimalSpells(n / 10);
      assert Decimal(n)[..|Decimal(n)| - 1] == Decimal(n / 10);
    }
  }

  /** An array spread has its items under their numbers, and nothing else. */
  lemma {:induction false} IndexedExactly(items: seq<Json>, i: nat, name: string)
    ensures i < |items| ==> Decimal(i) in Indexed(items) && Indexed(items)[Decimal(i)] == items[i]
    ensures name in Indexed(items) ==> exists k: nat :: k < |items| && name == Decimal(k)
  {
    if items != [] {
      IndexedExactly(items[..|items| - 1], i, name);
      DecimalSpells(i);
      DecimalSpells(|items| - 1);
    }
  }

  /** What spreading a value makes of it. */
  lemma SpreadExactly(j: Json)
    ensures Spread(j) ==
            if j.JObj? then j.fields
            else if j.JArr? then Indexed(j.items)
            else if j.JStr? then Indexed(seq(|j.s|, i requires 0 <= i < |j.s| => JStr([j.s[i]])))
            else map[]
  {
  }

  /** One item of an array, in the array's text. */
  ghost function ItemText(j: Json): string { if j == JNull then "" else Text(j) }

  /** An array's text is its items' with commas between them; the others' are their own. */
  lemma {:induction false} TextExactly(items: seq<Json>)
    ensures Text(JArr(items)) == if items == [] then "" else Strings.Join(seq(|items|, i requires 0 <= i < |items| => ItemText(items[i])), ',')
    ensures Text(JNull) == "null" && Text(JBool(true)) == "true" && Text(JBool(false)) == "false" && Text(JObj(map[])) == "[object Object]"
  {
    hide Text;
    if |items| > 1 {
      var shorter := items[..|items| - 1];
      TextExactly(shorter);
      var texts := seq(|items|, i requires 0 <= i < |items| => ItemText(items[i]));
      var fewer := seq(|shorter|, i requires 0 <= i < |shorter| => ItemText(shorter[i]));
      assert texts == fewer + [ItemText(items[|items| - 1])];
      JoinOneMore(fewer, ItemText(items[|items| - 1]), ',');
      ArrayText(shorter);
    }
    ArrayText(items);
    OthersText();
  }

  lemma ArrayText(items: seq<Json>)
    ensures Text(JArr(items)) ==
            if items == [] then ""
            else if |items| == 1 then ItemText(items[0])
            else Text(JArr(items[..|items| - 1])) + "," + ItemText(items[|items| - 1])
  {
  }

  lemma OthersText()
    ensures Text(JNull) == "null" && Text(JBool(true)) == "true" && Text(JBool(false)) == "false" && Text(JObj(map[])) == "[object Object]"
  {
  }

  lemma {:induction false} JoinOneMore(parts: seq<string>, last: string, sep: char)
    requires parts != []
    ensures Strings.Join(parts + [last], sep) == Strings.Join(parts, sep) + [sep] + last
    decreases |parts|
  {
    if |parts| == 1 {
      assert (parts + [last])[1..] == [last];
    } else {
      JoinOneMore(parts[1..], last, sep);
      assert (parts + [last])[1..] == parts[1..] + [last];
      assert parts[0] + ([sep] + (Strings.Join(parts[1..], sep) + [sep] + last)) == (parts[0] + ([sep] + Strings.Join(parts[1..], sep))) + [sep] + last;
    }
  }
}
