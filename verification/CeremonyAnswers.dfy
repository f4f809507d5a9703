/**
 * Which challenges are good (src/api/secondFactor.ts, issue, take and
 * forgetCeremonies): for each thing that may happen, exactly what it makes of
 * every challenge, whoever's and of whichever kind.
 */
module CeremonyAnswers {
  import opened Basics
  import opened Ceremonies

  /** An answer with this challenge, by this person and for this kind, would be accepted now. */
  ghost predicate Good(w: World, key: Key, challenge: string) {
    Ceremonies.Result(w, key, Some(challenge)) == Some(challenge)
  }

  lemma {:induction false} AliveExactly(mine: seq<Ticket>, now: nat, t: Ticket)
    ensures t in Alive(mine, now) <==> t in mine && now <= t.exp
  {
    if mine != [] {
      AliveExactly(mine[1..], now, t);
      assert t in mine <==> t == mine[0] || t in mine[1..];
    }
  }

  lemma {:induction false} WithoutExactly(mine: seq<Ticket>, challenge: string, t: Ticket)
    ensures t in Without(mine, challenge) <==> t in mine && t.challenge != challenge
  {
    if mine != [] {
      WithoutExactly(mine[1..], challenge, t);
      assert t in mine <==> t == mine[0] || t in mine[1..];
    }
  }

  lemma {:induction false} FindExactly(mine: seq<Ticket>, challenge: string, t: Ticket)
    requires Distinct(mine)
    ensures Find(mine, challenge) == Some(t) <==> t in mine && t.challenge == challenge
  {
    if mine != [] {
      assert forall u <- mine[1..] :: u.challenge != mine[0].challenge;
      FindExactly(mine[1..], challenge, t);
      assert t in mine <==> t == mine[0] || t in mine[1..];
    }
  }

  /** What the good challenges under a key are, said of its tickets. */
  ghost predicate Told(w: World, key: Key, challenge: string) {
    Good(w, key, challenge) <==> exists t :: t in At(w.table, key) && t.challenge == challenge && w.now <= t.exp && t.gen == Gen(w, key.1)
  }

  /** Exactly which challenges are good: those pending for that person and kind, in time, under their present generation. */
  lemma GoodExactly(w: World, key: Key, challenge: string)
    requires Sound(w)
    ensures Told(w, key, challenge)
  {
    var mine := At(w.table, key);
    assert Distinct(mine);
    hide Sound;
    forall t ensures Find(mine, challenge) == Some(t) <==> t in mine && t.challenge == challenge {
      FindExactly(mine, challenge, t);
    }
    if Find(mine, challenge).Some? { assert Find(mine, challenge) == Some(Find(mine, challenge).value); }
  }

  /** A ceremony of another person or kind leaves the unexpired tickets here as they are. */
  lemma IssueElsewhere(table: Table, at: Key, u: Ticket, now: nat, key: Key, t: Ticket)
    requires at != key && now <= t.exp
    ensures t in At(Issue(table, at, u, now), key) <==> t in At(table, key)
  {
    AliveExactly(At(table, key), now, t);
  }

  /** One of this person and kind is there at once; it brings no other, and pushes none out while there is room. */
  lemma IssueHere(table: Table, key: Key, u: Ticket, now: nat, t: Ticket)
    requires now <= t.exp && now <= u.exp
    ensures u in At(Issue(table, key, u, now), key)
    ensures t in At(Issue(table, key, u, now), key) ==> t == u || t in At(table, key)
    ensures |At(table, key)| < PENDING && t in At(table, key) ==> t in At(Issue(table, key, u, now), key)
  {
    var alive := Alive(At(table, key), now);
    var mine := Newest(alive, PENDING - 1) + [u];
    AliveExactly(At(table, key), now, t);
    AliveKeeps(At(table, key), now);
    AliveExactly(mine, now, t);
    AliveExactly(mine, now, u);
    assert u in mine;
    assert t in mine ==> t == u || t in alive;
    assert |alive| < PENDING ==> alive == Newest(alive, PENDING - 1);
  }

  /**
   * What each event makes of each challenge. Time lets it lapse five minutes
   * after it was issued; a new ceremony adds its own and, while there is room
   * for five, takes none away; an answer takes the challenge it names; and a
   * change of a person's factors, or forgetting them, takes all of theirs.
   * Nothing else has any effect on it.
   */
  lemma EventsExactly(w: World, e: Event, key: Key, challenge: string)
    requires Sound(w) && Fresh(w, e)
    ensures var after, before := Good(Apply(w, e), key, challenge), Good(w, key, challenge);
            match e
            case Tick(ms) => after <==> before && challenge in w.issued && w.now + ms <= w.issued[challenge].at + 300_000
            case Begin(k, c) =>
              if c == challenge then after <==> k == key
              else (k != key || |At(w.table, key)| < 5 ==> (after <==> before)) && (after ==> before)
            case Answer(k, sent) => after <==> before && !(k == key && sent == Some(challenge))
            case FactorsChanged(o) => after <==> before && o != key.1
            case Forgotten(o) => after <==> before && o != key.1
  {
    ApplySound(w, e);
    GoodExactly(w, key, challenge);
    GoodExactly(Apply(w, e), key, challenge);
    match e
    case Tick(ms) => TickLapses(w, ms, key, challenge);
    case Begin(k, c) => BeginAdds(w, k, c, key, challenge);
    case Answer(k, sent) => AnswerTakes(w, k, sent, key, challenge);
    case FactorsChanged(o) => ChangeVoids(w, o, key, challenge);
    case Forgotten(o) => ForgottenGo(w, o, key, challenge);
  }

  lemma TickLapses(w: World, ms: nat, key: Key, challenge: string)
    requires Sound(w)
    requires Told(w, key, challenge) && Told(Apply(w, Tick(ms)), key, challenge)
    ensures Good(w, key, challenge) ==> challenge in w.issued
    ensures Good(Apply(w, Tick(ms)), key, challenge) <==> Good(w, key, challenge) && w.now + ms <= w.issued[challenge].at + 300_000
  {
    forall t | t in At(w.table, key) ensures Backed(w, key, t) {}
    hide Good, Sound;
  }

  lemma BeginAdds(w: World, k: Key, c: string, key: Key, challenge: string)
    requires Sound(w) && c !in w.issued && Told(w, key, challenge) && Told(Apply(w, Begin(k, c)), key, challenge)
    ensures var after, before := Good(Apply(w, Begin(k, c)), key, challenge), Good(w, key, challenge);
            if c == challenge then after <==> k == key
            else (k != key || |At(w.table, key)| < 5 ==> (after <==> before)) && (after ==> before)
  {
    NewTicketIsNew(w, key, c);
    hide Sound;
    if k == key { BeginHere(w, key, c, challenge); } else { BeginElsewhere(w, k, c, key, challenge); }
  }

  lemma BeginHere(w: World, key: Key, c: string, challenge: string)
    requires Told(w, key, challenge) && Told(Apply(w, Begin(key, c)), key, challenge)
    requires forall u <- At(w.table, key) :: u.challenge != c
    ensures var after, before := Good(Apply(w, Begin(key, c)), key, challenge), Good(w, key, challenge);
            if c == challenge then after
            else (|At(w.table, key)| < 5 ==> (after <==> before)) && (after ==> before)
  {
    var u := Ticket(c, w.now + TTL, Gen(w, key.1));
    forall t: Ticket | w.now <= t.exp
      ensures t in At(Issue(w.table, key, u, w.now), key) ==> t == u || t in At(w.table, key)
      ensures |At(w.table, key)| < 5 && t in At(w.table, key) ==> t in At(Issue(w.table, key, u, w.now), key)
    {
      IssueHere(w.table, key, u, w.now, t);
    }
    IssueHere(w.table, key, u, w.now, u);
    hide Good, Issue, At;
  }

  lemma BeginElsewhere(w: World, k: Key, c: string, key: Key, challenge: string)
    requires k != key && Told(w, key, challenge) && Told(Apply(w, Begin(k, c)), key, challenge)
    requires forall u <- At(w.table, key) :: u.challenge != c
    ensures var after, before := Good(Apply(w, Begin(k, c)), key, challenge), Good(w, key, challenge);
            (after <==> before) && (c == challenge ==> !after)
  {
    var u := Ticket(c, w.now + TTL, Gen(w, k.1));
    forall t: Ticket | w.now <= t.exp ensures t in At(Issue(w.table, k, u, w.now), key) <==> t in At(w.table, key) {
      IssueElsewhere(w.table, k, u, w.now, key, t);
    }
    hide Good, Issue, At;
  }

  lemma AnswerTakes(w: World, k: Key, sent: Option<string>, key: Key, challenge: string)
    requires Told(w, key, challenge) && Told(Apply(w, Answer(k, sent)), key, challenge)
    ensures Good(Apply(w, Answer(k, sent)), key, challenge) <==> Good(w, key, challenge) && !(k == key && sent == Some(challenge))
  {
    forall t: Ticket
      ensures t in At(TakeOut(w.table, k, sent), key) <==> t in At(w.table, key) && !(k == key && sent == Some(t.challenge))
    {
      if sent.Some? { WithoutExactly(At(w.table, key), sent.value, t); }
    }
    hide Good, TakeOut;
  }

  lemma ChangeVoids(w: World, o: Owner, key: Key, challenge: string)
    requires Sound(w)
    requires Told(w, key, challenge) && Told(Apply(w, FactorsChanged(o)), key, challenge)
    ensures Good(Apply(w, FactorsChanged(o)), key, challenge) <==> Good(w, key, challenge) && o != key.1
  {
    forall t | t in At(w.table, key) ensures t.gen <= Gen(w, key.1) { assert Backed(w, key, t); }
    hide Good, Sound;
  }

  lemma ForgottenGo(w: World, o: Owner, key: Key, challenge: string)
    requires Told(w, key, challenge) && Told(Apply(w, Forgotten(o)), key, challenge)
    ensures Good(Apply(w, Forgotten(o)), key, challenge) <==> Good(w, key, challenge) && o != key.1
  {
    assert key.0 == Get || key.0 == Create;
    hide Good;
  }

  /** A run goes on from where it was. */
  lemma {:induction false} RunGoesOn(w: World, events: seq<Event>, e: Event)
    ensures Run(w, events + [e]) == Apply(Run(w, events), e)
    decreases |events|
  {
    hide Apply;
    if events == [] {
      assert [e][1..] == [];
    } else {
      assert (events + [e])[1..] == events[1..] + [e];
      RunGoesOn(Apply(w, events[0]), events[1..], e);
    }
  }

  // ---- what is kept ---------------------------------------------------------------

  /** Above two thousand keys, nothing expired is kept under any of them; up to there, other keys are left alone. */
  lemma SweepsExactly(table: Table, key: Key, u: Ticket, now: nat, other: Key, t: Ticket)
    requires other != key && now <= u.exp
    ensures var v := Issue(table, key, u, now);
            if |table.Keys + {key}| > 2000
            then (other in v ==> v[other] != []) && (t in At(v, other) <==> t in At(table, other) && now <= t.exp)
            else (other in v <==> other in table) && At(v, other) == At(table, other)
  {
    AliveExactly(At(table, other), now, t);
    var grown := table[key := Newest(Alive(At(table, key), now), PENDING - 1) + [u]];
    assert grown.Keys == table.Keys + {key};
    assert |grown| == |grown.Keys|;
  }

  /** An answer leaves a key exactly while another ticket is pending under it. */
  lemma TakesOutExactly(table: Table, key: Key, sent: Option<string>)
    requires key in table && table[key] != []
    ensures key in TakeOut(table, key, sent) <==> exists t :: t in table[key] && sent != Some(t.challenge)
    ensures forall k :: k != key ==> (k in TakeOut(table, key, sent) <==> k in table) && At(TakeOut(table, key, sent), k) == At(table, k)
  {
    assert table[key][0] in table[key];
    if sent.Some? {
      var left := Without(table[key], sent.value);
      forall t ensures t in left <==> t in table[key] && t.challenge != sent.value { WithoutExactly(table[key], sent.value, t); }
      if left != [] { assert left[0] in left; }
    }
  }
}
