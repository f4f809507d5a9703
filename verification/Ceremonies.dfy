/**
 * Pending passkey ceremonies (issue, take and forgetCeremonies in
 * src/api/secondFactor.ts): a small insertion-ordered table per person and
 * kind, keyed by the challenge the browser signs. A challenge is used once, in
 * time, by the person and for the kind it was issued for, and never across a
 * change of that person's factors.
 */
module Ceremonies {
  import opened Basics

  const TTL: nat := 5 * 60_000
  const PENDING: nat := 5
  const SWEEP_ABOVE: nat := 2000

  datatype Kind = Get | Create

  type Owner = string
  type Key = (Kind, Owner)

  datatype Ticket = Ticket(challenge: string, exp: nat, gen: nat)

  /** Each key's tickets, oldest first. */
  type Table = map<Key, seq<Ticket>>

  function At(table: Table, key: Key): seq<Ticket> { if key in table then table[key] else [] }

  function Alive(mine: seq<Ticket>, now: nat): seq<Ticket> {
    if mine == [] then [] else (if now > mine[0].exp then [] else [mine[0]]) + Alive(mine[1..], now)
  }

  /** The newest `n`. */
  function Newest(mine: seq<Ticket>, n: nat): seq<Ticket> {
    if |mine| <= n then mine else mine[|mine| - n..]
  }

  function Without(mine: seq<Ticket>, challenge: string): seq<Ticket> {
    if mine == [] then [] else (if mine[0].challenge == challenge then [] else [mine[0]]) + Without(mine[1..], challenge)
  }

  function Find(mine: seq<Ticket>, challenge: string): Option<Ticket> {
    if mine == [] then None else if mine[0].challenge == challenge then Some(mine[0]) else Find(mine[1..], challenge)
  }

  function Swept(table: Table, now: nat): Table {
    map k | k in table && Alive(table[k], now) != [] :: Alive(table[k], now)
  }

  function Issue(table: Table, key: Key, t: Ticket, now: nat): Table {
    var grown := table[key := Newest(Alive(At(table, key), now), PENDING - 1) + [t]];
    if |grown| > SWEEP_ABOVE then Swept(grown, now) else grown
  }

  /** The table with the answer's challenge taken out, whatever becomes of the answer. */
  function TakeOut(table: Table, key: Key, sent: Option<string>): Table {
    if key !in table then table
    else
      var left := if sent.Some? then Without(table[key], sent.value) else table[key];
      if left == [] then table - {key} else table[key := left]
  }

  /** The challenge, if it is one pending for this person and kind, in time, under their present generation. */
  function Taken(table: Table, key: Key, sent: Option<string>, now: nat, gen: nat): Option<string> {
    if sent.None? then None
    else
      var c := Find(At(table, key), sent.value);
      if c.Some? && now <= c.value.exp && c.value.gen == gen then sent else None
  }

  function Forget(table: Table, o: Owner): Table { table - {(Get, o), (Create, o)} }

  // ---- the closure's functions --------------------------------------------------

  lemma {:induction false} AliveAppend(a: seq<Ticket>, t: Ticket, now: nat)
    ensures Alive(a + [t], now) == Alive(a, now) + if now > t.exp then [] else [t]
  {
    if a == [] {
      assert a + [t] == [t];
    } else {
      var first, last := if now > a[0].exp then [] else [a[0]], if now > t.exp then [] else [t];
      assert (a + [t])[0] == a[0] && (a + [t])[1..] == a[1..] + [t];
      AliveAppend(a[1..], t, now);
      assert Alive(a + [t], now) == first + (Alive(a[1..], now) + last);
      Regroup(first, Alive(a[1..], now), last);
    }
  }

  class Pending {
    var challenges: Table

    constructor ()
      ensures challenges == map[]
    {
      challenges := map[];
    }

    method KeepAlive(mine: seq<Ticket>, now: nat) returns (alive: seq<Ticket>)
      ensures alive == Alive(mine, now)
    {
      alive := [];
      var i := 0;
      while i < |mine|
        invariant 0 <= i <= |mine|
        invariant alive == Alive(mine[..i], now)
      {
        assert mine[..i + 1] == mine[..i] + [mine[i]];
        AliveAppend(mine[..i], mine[i], now);
        if now <= mine[i].exp { alive := alive + [mine[i]]; }
        i := i + 1;
      }
      assert mine[..i] == mine;
    }

    method MakeRoom(alive: seq<Ticket>) returns (mine: seq<Ticket>)
      ensures mine == Newest(alive, PENDING - 1)
    {
      mine := alive;
      ghost var gone := 0;
      while |mine| >= PENDING
        invariant gone <= |alive| && mine == alive[gone..]
        invariant gone > 0 ==> |mine| >= PENDING - 1
      {
        mine := mine[1..];
        gone := gone + 1;
      }
    }

    method NewCeremony(key: Key, challenge: string, now: nat, gen: nat)
      modifies this
      ensures challenges == Issue(old(challenges), key, Ticket(challenge, now + TTL, gen), now)
    {
      var mine := if key in challenges then challenges[key] else [];
      mine := KeepAlive(mine, now);
      mine := MakeRoom(mine);
      challenges := challenges[key := mine + [Ticket(challenge, now + TTL, gen)]];
      if |challenges| > SWEEP_ABOVE { Sweep(now); }
    }

    method Sweep(now: nat)
      modifies this
      ensures challenges == Swept(old(challenges), now)
    {
      var before := challenges;
      var todo := before.Keys;
      while todo != {}
        invariant todo <= before.Keys
        invariant forall k :: k in challenges <==> k in before && (k in todo || Alive(before[k], now) != [])
        invariant forall k <- challenges :: challenges[k] == if k in todo then before[k] else Alive(before[k], now)
      {
        var k :| k in todo;
        var left := KeepAlive(before[k], now);
        challenges := if left == [] then challenges - {k} else challenges[k := left];
        todo := todo - {k};
      }
    }

    method Take(key: Key, sent: Option<string>, now: nat, gen: nat) returns (challenge: Option<string>)
      modifies this
      ensures challenges == TakeOut(old(challenges), key, sent)
      ensures challenge == Taken(old(challenges), key, sent, now, gen)
    {
      challenge := None;
      if key !in challenges { return; }
      var mine := challenges[key];
      if sent.Some? {
        var c := Find(mine, sent.value);
        if c.Some? && now <= c.value.exp && c.value.gen == gen { challenge := sent; }
        mine := Without(mine, sent.value);
      }
      challenges := if mine == [] then challenges - {key} else challenges[key := mine];
    }

    method ForgetCeremonies(o: Owner)
      modifies this
      ensures challenges == Forget(old(challenges), o)
    {
      challenges := challenges - {(Get, o)};
      challenges := challenges - {(Create, o)};
    }
  }

  // ---- runs ---------------------------------------------------------------------

  /** What was issued, for whom, when, under which generation. */
  datatype Issuance = Issuance(key: Key, at: nat, gen: nat)

  /** The table, the clock, everyone's generation, and the record: all that was issued, and all that was taken. */
  datatype World = World(table: Table, now: nat, gens: map<Owner, nat>, issued: map<string, Issuance>, taken: set<string>)

  datatype Event =
    | Tick(ms: nat)
    | Begin(key: Key, challenge: string)
    | Answer(key: Key, sent: Option<string>)
    | FactorsChanged(owner: Owner)
    | Forgotten(owner: Owner)

  function Gen(w: World, o: Owner): nat { if o in w.gens then w.gens[o] else 0 }

  /** What `take` answers now. */
  function Result(w: World, key: Key, sent: Option<string>): Option<string> {
    Taken(w.table, key, sent, w.now, Gen(w, key.1))
  }

  /** Challenges are 32 random bytes: one that was issued before is not issued again. */
  predicate Fresh(w: World, e: Event) { e.Begin? ==> e.challenge !in w.issued }

  function Apply(w: World, e: Event): World {
    match e
    case Tick(ms) => w.(now := w.now + ms)
    case Begin(key, challenge) =>
      w.(table := Issue(w.table, key, Ticket(challenge, w.now + TTL, Gen(w, key.1)), w.now),
         issued := w.issued[challenge := Issuance(key, w.now, Gen(w, key.1))])
    case Answer(key, sent) =>
      w.(table := TakeOut(w.table, key, sent), taken := w.taken + if Result(w, key, sent).Some? then {sent.value} else {})
    case FactorsChanged(o) => w.(gens := w.gens[o := Gen(w, o) + 1])
    case Forgotten(o) => w.(table := Forget(w.table, o))
  }

  function Run(w: World, events: seq<Event>): World
    decreases |events|
  {
    if events == [] then w else Run(Apply(w, events[0]), events[1..])
  }

  predicate FreshRun(w: World, events: seq<Event>)
    decreases |events|
  {
    events == [] || (Fresh(w, events[0]) && FreshRun(Apply(w, events[0]), events[1..]))
  }

  const START: World := World(map[], 0, map[], map[], {})

  predicate Distinct(mine: seq<Ticket>) {
    forall i, j :: 0 <= i < j < |mine| ==> mine[i].challenge != mine[j].challenge
  }

  /** A pending ticket is as it was issued, and has not been taken. */
  predicate Backed(w: World, key: Key, t: Ticket) {
    t.challenge in w.issued && t.challenge !in w.taken &&
    TTL <= t.exp && w.issued[t.challenge] == Issuance(key, t.exp - TTL, t.gen)
  }

  predicate Sound(w: World) {
    (forall key <- w.table :: |w.table[key]| <= PENDING && Distinct(w.table[key])) &&
    (forall key <- w.table :: forall t <- w.table[key] :: Backed(w, key, t)) &&
    (forall c <- w.taken :: c in w.issued) &&
    (forall c <- w.issued :: w.issued[c].gen <= Gen(w, w.issued[c].key.1) && w.issued[c].at <= w.now)
  }

  lemma {:induction false} AliveKeeps(mine: seq<Ticket>, now: nat)
    ensures var r := Alive(mine, now);
            |r| <= |mine| && (forall t <- r :: t in mine && now <= t.exp) && (Distinct(mine) ==> Distinct(r))
  {
    if mine != [] {
      AliveKeeps(mine[1..], now);
      var rest := Alive(mine[1..], now);
      assert forall t <- rest :: t in mine[1..];
      if Distinct(mine) {
        assert forall t <- mine[1..] :: t.challenge != mine[0].challenge;
      }
    }
  }

  lemma {:induction false} WithoutKeeps(mine: seq<Ticket>, challenge: string)
    ensures var r := Without(mine, challenge);
            |r| <= |mine| && (forall t <- r :: t in mine && t.challenge != challenge) && (Distinct(mine) ==> Distinct(r))
  {
    if mine != [] {
      WithoutKeeps(mine[1..], challenge);
      var rest := Without(mine[1..], challenge);
      assert forall t <- rest :: t in mine[1..];
      if Distinct(mine) {
        assert forall t <- mine[1..] :: t.challenge != mine[0].challenge;
      }
    }
  }

  lemma {:induction false} FindFinds(mine: seq<Ticket>, challenge: string)
    ensures var c := Find(mine, challenge); c.Some? ==> c.value in mine && c.value.challenge == challenge
  {
    if mine != [] {
      FindFinds(mine[1..], challenge);
    }
  }

  /** What is at each key was there before, but for a new ticket at its own; and stays within bounds. */
  predicate Kept(table: Table, after: Table, key: Key, t: Ticket) {
    (forall k <- after :: forall u <- after[k] :: u in At(table, k) || (k == key && u == t)) &&
    (forall k <- after :: |after[k]| <= PENDING && Distinct(after[k]))
  }

  lemma GrownKeeps(table: Table, key: Key, t: Ticket, now: nat)
    requires forall u <- At(table, key) :: u.challenge != t.challenge
    requires forall j <- table :: |table[j]| <= PENDING && Distinct(table[j])
    ensures Kept(table, table[key := Newest(Alive(At(table, key), now), PENDING - 1) + [t]], key, t)
  {
    var alive := Alive(At(table, key), now);
    AliveKeeps(At(table, key), now);
    var kept := Newest(alive, PENDING - 1);
    assert forall u <- kept :: u in alive;
    assert Distinct(kept);
    assert Distinct(kept + [t]);
  }

  lemma SweptKeeps(table: Table, grown: Table, key: Key, t: Ticket, now: nat)
    requires Kept(table, grown, key, t)
    ensures Kept(table, Swept(grown, now), key, t)
  {
    forall k | k in grown
      ensures |Alive(grown[k], now)| <= |grown[k]| && (forall u <- Alive(grown[k], now) :: u in grown[k]) && Distinct(Alive(grown[k], now))
    {
      AliveKeeps(grown[k], now);
    }
  }

  lemma BeginSound(w: World, e: Event)
    requires Sound(w) && Fresh(w, e) && e.Begin?
    ensures Sound(Apply(w, e))
  {
    var t := Ticket(e.challenge, w.now + TTL, Gen(w, e.key.1));
    NewTicketIsNew(w, e.key, e.challenge);
    hide Sound, Issue, Kept, At;
    IssueKeeps(w, e.key, t);
    KeptSound(w, Apply(w, e), e.key, t);
  }

  /** No pending ticket has a challenge that was not issued. */
  lemma NewTicketIsNew(w: World, key: Key, challenge: string)
    requires Sound(w) && challenge !in w.issued
    ensures forall u <- At(w.table, key) :: u.challenge != challenge
  {
    forall u | u in At(w.table, key) ensures u.challenge != challenge {
      assert Backed(w, key, u);
    }
  }

  lemma IssueKeeps(w: World, key: Key, t: Ticket)
    requires Sound(w) && forall u <- At(w.table, key) :: u.challenge != t.challenge
    ensures Kept(w.table, Issue(w.table, key, t, w.now), key, t)
  {
    hide Kept, Alive, Swept, Newest, Backed;
    var grown := w.table[key := Newest(Alive(At(w.table, key), w.now), PENDING - 1) + [t]];
    GrownKeeps(w.table, key, t, w.now);
    SweptKeeps(w.table, grown, key, t, w.now);
  }

  lemma KeptSound(w: World, v: World, key: Key, t: Ticket)
    requires Sound(w) && Kept(w.table, v.table, key, t) && t.challenge !in w.issued
    requires v == w.(table := v.table, issued := w.issued[t.challenge := Issuance(key, w.now, t.gen)])
    requires t.exp == w.now + TTL && t.gen == Gen(w, key.1)
    ensures Sound(v)
  {
    forall k, u | k in v.table && u in v.table[k] ensures Backed(v, k, u) {
      if u in At(w.table, k) { assert Backed(w, k, u); }
    }
  }

  /** An answer that is accepted names a ticket as it was issued, and not yet taken. */
  lemma ResultIsBacked(w: World, key: Key, sent: Option<string>)
    requires Sound(w)
    ensures Result(w, key, sent).Some? ==>
              sent.Some? && sent.value in w.issued && sent.value !in w.taken &&
              var i := w.issued[sent.value];
              i.key == key && i.at <= w.now <= i.at + TTL && i.gen == Gen(w, key.1)
  {
    if Result(w, key, sent).Some? {
      FindFinds(At(w.table, key), sent.value);
      assert Backed(w, key, Find(At(w.table, key), sent.value).value);
    }
  }

  lemma AnswerSound(w: World, e: Event)
    requires Sound(w) && e.Answer?
    ensures Sound(Apply(w, e))
  {
    var v := Apply(w, e);
    if e.sent.Some? {
      FindFinds(At(w.table, e.key), e.sent.value);
      WithoutKeeps(At(w.table, e.key), e.sent.value);
    }
    ResultIsBacked(w, e.key, e.sent);
    forall k, u | k in v.table && u in v.table[k] ensures Backed(v, k, u) {
      assert Backed(w, k, u);
    }
  }

  lemma ApplySound(w: World, e: Event)
    requires Sound(w) && Fresh(w, e)
    ensures Sound(Apply(w, e))
  {
    if e.Begin? {
      BeginSound(w, e);
    } else if e.Answer? {
      AnswerSound(w, e);
    }
  }

  lemma {:induction false} RunSound(w: World, events: seq<Event>)
    requires Sound(w) && FreshRun(w, events)
    ensures Sound(Run(w, events))
    decreases |events|
  {
    hide Sound, Fresh, Apply;
    if events != [] {
      ApplySound(w, events[0]);
      RunSound(Apply(w, events[0]), events[1..]);
    }
  }

  /**
   * In every run: an accepted answer names a challenge issued to this person
   * for this kind, at most five minutes ago, under the generation their
   * factors still have, and never taken before; at most five are pending.
   */
  lemma TakenOnceInTimeUnderOneGeneration(events: seq<Event>, key: Key, sent: Option<string>)
    requires FreshRun(START, events)
    ensures var w := Run(START, events);
            |At(w.table, key)| <= 5 &&
            (Result(w, key, sent).Some? ==>
               Result(w, key, sent) == sent && sent.value in w.issued && sent.value !in w.taken &&
               var i := w.issued[sent.value];
               i.key == key && i.at <= w.now <= i.at + 300_000 && i.gen == Gen(w, key.1))
  {
    hide Run, FreshRun;
    RunSound(START, events);
    ResultIsBacked(Run(START, events), key, sent);
  }

  /** And once taken, it is never taken again, whoever answers with it. */
  lemma {:induction false} NeverTakenTwice(w: World, events: seq<Event>, challenge: string, key: Key)
    requires Sound(w) && FreshRun(w, events) && challenge in w.taken
    ensures Result(Run(w, events), key, Some(challenge)) == None
    decreases |events|
  {
    if events == [] {
      ResultIsBacked(w, key, Some(challenge));
    } else {
      ApplySound(w, events[0]);
      NeverTakenTwice(Apply(w, events[0]), events[1..], challenge, key);
    }
  }

  // ---- a second tab ----------------------------------------------------------------

  /** The ticket is there, with at most `n` newer ones. */
  predicate Held(mine: seq<Ticket>, t: Ticket, n: nat) {
    exists i :: 0 <= i < |mine| && mine[i] == t && |mine| - i <= n + 1
  }

  lemma HeldBehind(x: seq<Ticket>, mine: seq<Ticket>, t: Ticket, n: nat)
    requires Held(mine, t, n)
    ensures Held(x + mine, t, n)
  {
    var i :| 0 <= i < |mine| && mine[i] == t && |mine| - i <= n + 1;
    assert (x + mine)[|x| + i] == t;
  }

  lemma {:induction false} AliveHolds(mine: seq<Ticket>, now: nat, t: Ticket, n: nat)
    requires Held(mine, t, n) && now <= t.exp
    ensures Held(Alive(mine, now), t, n)
  {
    var i :| 0 <= i < |mine| && mine[i] == t && |mine| - i <= n + 1;
    AliveKeeps(mine[1..], now);
    if i == 0 {
      assert Alive(mine, now)[0] == t;
    } else {
      assert mine[1..][i - 1] == t;
      AliveHolds(mine[1..], now, t, n);
      HeldBehind(if now > mine[0].exp then [] else [mine[0]], Alive(mine[1..], now), t, n);
    }
  }

  lemma {:induction false} WithoutHolds(mine: seq<Ticket>, challenge: string, t: Ticket, n: nat)
    requires Held(mine, t, n) && t.challenge != challenge
    ensures Held(Without(mine, challenge), t, n)
  {
    var i :| 0 <= i < |mine| && mine[i] == t && |mine| - i <= n + 1;
    WithoutKeeps(mine[1..], challenge);
    if i == 0 {
      assert Without(mine, challenge)[0] == t;
    } else {
      assert mine[1..][i - 1] == t;
      WithoutHolds(mine[1..], challenge, t, n);
      HeldBehind(if mine[0].challenge == challenge then [] else [mine[0]], Without(mine[1..], challenge), t, n);
    }
  }

  lemma NewestHolds(mine: seq<Ticket>, t: Ticket, n: nat, u: Ticket)
    requires Held(mine, t, n) && n + 1 < PENDING
    ensures Held(Newest(mine, PENDING - 1) + [u], t, n + 1)
  {
    var i :| 0 <= i < |mine| && mine[i] == t && |mine| - i <= n + 1;
    var r := Newest(mine, PENDING - 1);
    var j := i - (|mine| - |r|);
    assert r[j] == t;
    assert (r + [u])[j] == t;
  }

  /** Neither the ticket's own answer nor anything that voids it. */
  predicate Leaves(e: Event, key: Key, challenge: string) {
    match e
    case Answer(k, sent) => !(k == key && sent == Some(challenge))
    case FactorsChanged(o) => o != key.1
    case Forgotten(o) => o != key.1
    case _ => true
  }

  function Begun(events: seq<Event>, key: Key): nat {
    if events == [] then 0 else (if events[0].Begin? && events[0].key == key then 1 else 0) + Begun(events[1..], key)
  }

  lemma IssueHolds(table: Table, at: Key, u: Ticket, now: nat, key: Key, t: Ticket, n: nat)
    requires Held(At(table, key), t, n) && now <= t.exp && n + 1 < PENDING
    ensures Held(At(Issue(table, at, u, now), key), t, if at == key then n + 1 else n)
  {
    var grown := table[at := Newest(Alive(At(table, at), now), PENDING - 1) + [u]];
    AliveHolds(At(table, key), now, t, n);
    if at == key {
      NewestHolds(Alive(At(table, key), now), t, n, u);
    }
    AliveHolds(grown[key], now, t, if at == key then n + 1 else n);
  }

  lemma ApplyHolds(w: World, e: Event, key: Key, t: Ticket, n: nat)
    requires Held(At(w.table, key), t, n) && w.now <= t.exp && Leaves(e, key, t.challenge)
    requires e.Begin? && e.key == key ==> n + 1 < PENDING
    requires n < PENDING
    ensures Held(At(Apply(w, e).table, key), t, if e.Begin? && e.key == key then n + 1 else n)
    ensures Gen(Apply(w, e), key.1) == Gen(w, key.1)
  {
    if e.Begin? {
      if e.key == key {
        IssueHolds(w.table, e.key, Ticket(e.challenge, w.now + TTL, Gen(w, e.key.1)), w.now, key, t, n);
      } else {
        OtherIssueHolds(w.table, e.key, Ticket(e.challenge, w.now + TTL, Gen(w, e.key.1)), w.now, key, t, n);
      }
    } else if e.Answer? && e.sent.Some? && e.key == key {
      WithoutHolds(w.table[key], e.sent.value, t, n);
    }
  }

  lemma OtherIssueHolds(table: Table, at: Key, u: Ticket, now: nat, key: Key, t: Ticket, n: nat)
    requires Held(At(table, key), t, n) && now <= t.exp && at != key
    ensures Held(At(Issue(table, at, u, now), key), t, n)
  {
    AliveHolds(At(table, key), now, t, n);
  }

  lemma {:induction false} RunHolds(w: World, events: seq<Event>, key: Key, t: Ticket, n: nat)
    requires Held(At(w.table, key), t, n) && Run(w, events).now <= t.exp && n + Begun(events, key) < PENDING
    requires forall e <- events :: Leaves(e, key, t.challenge)
    ensures var v := Run(w, events);
            Held(At(v.table, key), t, n + Begun(events, key)) && Gen(v, key.1) == Gen(w, key.1)
    decreases |events|
  {
    hide Held, Leaves, Apply;
    if events != [] {
      var e := events[0];
      assert e in events;
      assert forall x <- events[1..] :: x in events;
      RunForward(w, events);
      RunForward(Apply(w, e), events[1..]);
      ApplyHolds(w, e, key, t, n);
      RunHolds(Apply(w, e), events[1..], key, t, if e.Begin? && e.key == key then n + 1 else n);
    }
  }

  lemma {:induction false} RunForward(w: World, events: seq<Event>)
    ensures w.now <= Run(w, events).now
    decreases |events|
  {
    if events != [] {
      RunForward(Apply(w, events[0]), events[1..]);
    }
  }

  lemma {:induction false} FindHeld(mine: seq<Ticket>, t: Ticket, n: nat)
    requires Held(mine, t, n) && Distinct(mine)
    ensures Find(mine, t.challenge) == Some(t)
  {
    var i :| 0 <= i < |mine| && mine[i] == t && |mine| - i <= n + 1;
    if i > 0 {
      assert mine[1..][i - 1] == t;
      FindHeld(mine[1..], t, n);
    }
  }

  /**
   * A tab's challenge survives other tabs: unless it is answered, expires, or
   * the person's factors change, it is still good after up to four more
   * ceremonies of the same kind, and any number of anyone else's.
   */
  lemma SecondTabIsHarmless(before: seq<Event>, key: Key, challenge: string, after: seq<Event>)
    requires FreshRun(START, before + ([Begin(key, challenge)] + after))
    requires forall e <- after :: Leaves(e, key, challenge)
    requires Begun(after, key) < PENDING
    requires var w := Run(START, before);
             Run(Apply(w, Begin(key, challenge)), after).now <= w.now + TTL
    ensures Result(Run(Apply(Run(START, before), Begin(key, challenge)), after), key, Some(challenge)) == Some(challenge)
  {
    var w := Run(START, before);
    var begin := [Begin(key, challenge)] + after;
    assert Sound(START);
    hide FreshRun, Sound, Apply, Leaves, Result;
    FreshSplit(START, before, begin);
    RunSound(START, before);
    TabLives(w, key, challenge, after);
  }

  lemma TabLives(w: World, key: Key, challenge: string, after: seq<Event>)
    requires Sound(w) && FreshRun(w, [Begin(key, challenge)] + after)
    requires forall e <- after :: Leaves(e, key, challenge)
    requires Begun(after, key) < PENDING && Run(Apply(w, Begin(key, challenge)), after).now <= w.now + TTL
    ensures Result(Run(Apply(w, Begin(key, challenge)), after), key, Some(challenge)) == Some(challenge)
  {
    hide *;
    var t := Ticket(challenge, w.now + TTL, Gen(w, key.1));
    var v := Apply(w, Begin(key, challenge));
    TabBegins(w, key, challenge, after);
    RunHolds(v, after, key, t, 0);
    RunSound(v, after);
    HeldResult(Run(v, after), key, t, Begun(after, key));
  }

  lemma TabBegins(w: World, key: Key, challenge: string, after: seq<Event>)
    requires Sound(w) && FreshRun(w, [Begin(key, challenge)] + after)
    ensures var v := Apply(w, Begin(key, challenge));
            Sound(v) && FreshRun(v, after) && v.now == w.now && Gen(v, key.1) == Gen(w, key.1) &&
            Held(At(v.table, key), Ticket(challenge, w.now + TTL, Gen(w, key.1)), 0)
  {
    hide Sound, Held, Issue;
    var e := Begin(key, challenge);
    assert ([e] + after)[0] == e && ([e] + after)[1..] == after;
    ApplySound(w, e);
    JustIssued(w.table, key, Ticket(challenge, w.now + TTL, Gen(w, key.1)), w.now);
  }

  lemma HeldResult(w: World, key: Key, t: Ticket, n: nat)
    requires Sound(w) && Held(At(w.table, key), t, n) && w.now <= t.exp && t.gen == Gen(w, key.1)
    ensures Result(w, key, Some(t.challenge)) == Some(t.challenge)
  {
    FindHeld(At(w.table, key), t, n);
  }

  lemma JustIssued(table: Table, key: Key, t: Ticket, now: nat)
    requires now <= t.exp
    ensures Held(At(Issue(table, key, t, now), key), t, 0)
  {
    var mine := Newest(Alive(At(table, key), now), PENDING - 1) + [t];
    assert mine[|mine| - 1] == t;
    AliveHolds(mine, now, t, 0);
  }

  lemma {:induction false} FreshSplit(w: World, first: seq<Event>, second: seq<Event>)
    requires FreshRun(w, first + second)
    ensures FreshRun(w, first) && FreshRun(Run(w, first), second)
    decreases |first|
  {
    hide Fresh, Apply;
    if first == [] {
      assert first + second == second;
    } else {
      assert (first + second)[1..] == first[1..] + second;
      assert (first + second)[0] == first[0];
      FreshSplit(Apply(w, first[0]), first[1..], second);
    }
  }
}
