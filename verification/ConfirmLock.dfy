/**
 * Confirming a change card (resolveProposal and confirmerFor in
 * src/api/mgmtChat.ts): one confirmer per person holds one set of credentials,
 * and a chain of promises keeps a second confirm out until the first is done.
 */
module ConfirmLock {
  import opened Basics

  type Owner = string

  /** The request headers a confirm is replayed with. */
  type Headers = map<string, string>

  /** `Waiting`: at `await before`. `Inside`: between setAuth and finally. */
  datatype Stage = Waiting | Inside | Done

  /** One press of a card: whose, with what standing, which card, and the press whose chained promise it awaits. */
  datatype Press = Press(owner: Owner, headers: Headers, card: string, before: Option<nat>, stage: Stage)

  /** An owner's confirmer: the headers and proposal id every call it makes carries. */
  datatype Confirmer = Confirmer(headers: Headers, proposal: Option<string>)

  /** A call made while a press was inside, with what it carried. */
  datatype Call = Call(press: nat, headers: Headers, proposal: Option<string>)

  /** Every press so far, by arrival; `confirming` (whose chained promise an owner's next press will await); the confirmers; and what was entered and called. */
  datatype World = World(presses: seq<Press>, confirming: map<Owner, nat>, confirmers: map<Owner, Confirmer>, entered: seq<nat>, calls: seq<Call>)

  datatype Event =
    | Arrive(owner: Owner, headers: Headers, card: string)
    | Enter(p: nat)
    | CallOut(p: nat)
    | Finish(p: nat)

  /** before.then(() => mine): settled once that press is done and the chain before it is settled. */
  predicate Settled(presses: seq<Press>, chained: Option<nat>)
    decreases if chained.Some? then chained.value + 1 else 0
  {
    chained.Some? ==>
      var q := chained.value;
      q < |presses| && presses[q].stage == Done && (presses[q].before.Some? ==> presses[q].before.value < q && Settled(presses, presses[q].before))
  }

  function ConfirmerOf(w: World, o: Owner): Confirmer { if o in w.confirmers then w.confirmers[o] else Confirmer(map[], None) }

  predicate At(w: World, p: nat, stage: Stage) { p < |w.presses| && w.presses[p].stage == stage }

  function Staged(w: World, p: nat, stage: Stage): seq<Press>
    requires p < |w.presses|
  {
    w.presses[p := w.presses[p].(stage := stage)]
  }

  function Apply(w: World, e: Event): World {
    match e
    case Arrive(o, headers, card) =>
      var before := if o in w.confirming then Some(w.confirming[o]) else None;
      w.(presses := w.presses + [Press(o, headers, card, before, Waiting)], confirming := w.confirming[o := |w.presses|],
         confirmers := w.confirmers[o := ConfirmerOf(w, o)])
    case Enter(p) =>
      if At(w, p, Waiting) && Settled(w.presses, w.presses[p].before) then
        w.(presses := Staged(w, p, Inside), entered := w.entered + [p],
           confirmers := w.confirmers[w.presses[p].owner := Confirmer(w.presses[p].headers, Some(w.presses[p].card))])
      else w
    case CallOut(p) =>
      if At(w, p, Inside) then
        var c := ConfirmerOf(w, w.presses[p].owner);
        w.(calls := w.calls + [Call(p, c.headers, c.proposal)])
      else w
    case Finish(p) =>
      if At(w, p, Inside) then
        var o := w.presses[p].owner;
        w.(presses := Staged(w, p, Done), confirmers := w.confirmers[o := ConfirmerOf(w, o).(proposal := None)],
           confirming := if o in w.confirming && w.confirming[o] == p then w.confirming - {o} else w.confirming)
      else w
  }

  function Run(w: World, events: seq<Event>): World
    decreases |events|
  {
    if events == [] then w else Run(Apply(w, events[0]), events[1..])
  }

  const START: World := World([], map[], map[], [], [])

  // ---- the closure's state -----------------------------------------------------------

  class Confirmers {
    var presses: seq<Press>
    var confirming: map<Owner, nat>
    var confirmers: map<Owner, Confirmer>
    ghost var entered: seq<nat>
    ghost var calls: seq<Call>

    ghost function State(): World
      reads this
    {
      World(presses, confirming, confirmers, entered, calls)
    }

    constructor ()
      ensures State() == START
    {
      presses, confirming, confirmers, entered, calls := [], map[], map[], [], [];
    }

    method ConfirmerFor(o: Owner) returns (c: Confirmer)
      modifies this`confirmers
      ensures c == ConfirmerOf(old(State()), o) && confirmers == old(confirmers)[o := c]
    {
      if o in confirmers { return confirmers[o]; }
      c := Confirmer(map[], None);
      confirmers := confirmers[o := c];
    }

    /** Up to `await before`. */
    method BeginResolve(o: Owner, headers: Headers, card: string) returns (p: nat)
      modifies this
      ensures State() == Apply(old(State()), Arrive(o, headers, card)) && p == |old(presses)|
    {
      var c := ConfirmerFor(o);
      var before := if o in confirming then Some(confirming[o]) else None;
      p := |presses|;
      presses := presses + [Press(o, headers, card, before, Waiting)];
      confirming := confirming[o := p];
    }

    /** setAuth and setProposal, once `before` has settled. */
    method GoInside(p: nat)
      requires At(State(), p, Waiting) && Settled(presses, presses[p].before)
      modifies this
      ensures State() == Apply(old(State()), Enter(p))
    {
      var press := presses[p];
      presses := presses[p := press.(stage := Inside)];
      confirmers := confirmers[press.owner := Confirmer(press.headers, Some(press.card))];
      entered := entered + [p];
    }

    /** A call by the broker while the press is inside: what it carries. */
    method Requester(p: nat) returns (headers: Headers, proposal: Option<string>)
      requires At(State(), p, Inside)
      modifies this`calls
      ensures State() == Apply(old(State()), CallOut(p))
      ensures headers == ConfirmerOf(State(), presses[p].owner).headers && proposal == ConfirmerOf(State(), presses[p].owner).proposal
    {
      var o := presses[p].owner;
      var c := if o in confirmers then confirmers[o] else Confirmer(map[], None);
      headers, proposal := c.headers, c.proposal;
      calls := calls + [Call(p, headers, proposal)];
    }

    /** The finally block. */
    method Release(p: nat)
      requires At(State(), p, Inside)
      modifies this
      ensures State() == Apply(old(State()), Finish(p))
    {
      var o := presses[p].owner;
      var c := ConfirmerFor(o);
      confirmers := confirmers[o := c.(proposal := None)];
      presses := presses[p := presses[p].(stage := Done)];
      if o in confirming && confirming[o] == p { confirming := confirming - {o}; }
    }
  }

  // ---- what every run keeps --------------------------------------------------------------

  /** Every press of this owner's before `p` is done. */
  predicate EarlierDone(presses: seq<Press>, o: Owner, p: nat) {
    forall q :: 0 <= q < |presses| && q < p && presses[q].owner == o ==> presses[q].stage == Done
  }

  /** What `p` awaits: the press of the same owner just before it; or nothing, when all those are done. */
  predicate Chained(presses: seq<Press>, p: nat)
    requires p < |presses|
  {
    var o := presses[p].owner;
    match presses[p].before
    case None => EarlierDone(presses, o, p)
    case Some(q) => q < p && presses[q].owner == o && forall r :: q < r < p ==> presses[r].owner != o
  }

  /** Who is past the lock came after everyone of theirs was done; and the confirmer inside is their own. */
  predicate InTurn(w: World, p: nat)
    requires p < |w.presses|
  {
    var press := w.presses[p];
    (press.stage != Waiting ==> EarlierDone(w.presses, press.owner, p)) &&
    (press.stage == Inside ==> ConfirmerOf(w, press.owner) == Confirmer(press.headers, Some(press.card)))
  }

  /** `confirming` names an owner's last press while it is not done, and nothing once all are. */
  predicate Entry(w: World, o: Owner) {
    if o in w.confirming then
      var last := w.confirming[o];
      last < |w.presses| && w.presses[last].owner == o && w.presses[last].stage != Done &&
      forall r :: last < r < |w.presses| ==> w.presses[r].owner != o
    else EarlierDone(w.presses, o, |w.presses|)
  }

  ghost predicate Sound(w: World) {
    (forall p :: 0 <= p < |w.presses| ==> Chained(w.presses, p) && InTurn(w, p)) && forall o: Owner :: Entry(w, o)
  }

  lemma ArriveSound(w: World, o: Owner, headers: Headers, card: string)
    requires Sound(w)
    ensures Sound(Apply(w, Arrive(o, headers, card)))
  {
    var v := Apply(w, Arrive(o, headers, card));
    assert Entry(w, o);
    forall p | 0 <= p < |v.presses| ensures Chained(v.presses, p) && InTurn(v, p) {
      if p < |w.presses| { assert Chained(w.presses, p) && InTurn(w, p); }
    }
    forall x: Owner ensures Entry(v, x) { assert Entry(w, x); }
  }

  /** The chain before a press is settled only when all its owner's earlier presses are done. */
  lemma SettledMeansDone(w: World, p: nat)
    requires Sound(w) && p < |w.presses| && Settled(w.presses, w.presses[p].before)
    ensures EarlierDone(w.presses, w.presses[p].owner, p)
  {
    assert Chained(w.presses, p);
    if w.presses[p].before.Some? {
      assert InTurn(w, w.presses[p].before.value);
    }
  }

  lemma EnterSound(w: World, p: nat)
    requires Sound(w) && At(w, p, Waiting) && Settled(w.presses, w.presses[p].before)
    ensures Sound(Apply(w, Enter(p)))
  {
    var v := Apply(w, Enter(p));
    SettledMeansDone(w, p);
    forall q | 0 <= q < |v.presses| ensures Chained(v.presses, q) && InTurn(v, q) {
      assert Chained(w.presses, q) && InTurn(w, q);
    }
    forall x: Owner ensures Entry(v, x) { assert Entry(w, x); }
  }

  lemma FinishSound(w: World, p: nat)
    requires Sound(w) && At(w, p, Inside)
    ensures Sound(Apply(w, Finish(p)))
  {
    var v := Apply(w, Finish(p));
    assert InTurn(w, p);
    forall q | 0 <= q < |v.presses| ensures Chained(v.presses, q) && InTurn(v, q) {
      assert Chained(w.presses, q) && InTurn(w, q);
    }
    forall x: Owner ensures Entry(v, x) { assert Entry(w, x); }
  }

  lemma ApplySound(w: World, e: Event)
    requires Sound(w)
    ensures Sound(Apply(w, e))
  {
    hide Settled, Staged;
    match e
    case Arrive(o, headers, card) => ArriveSound(w, o, headers, card);
    case Enter(p) => if At(w, p, Waiting) && Settled(w.presses, w.presses[p].before) { EnterSound(w, p); }
    case CallOut(p) => CallSound(w, p);
    case Finish(p) => if At(w, p, Inside) { FinishSound(w, p); }
  }

  lemma CallSound(w: World, p: nat)
    requires Sound(w)
    ensures Sound(Apply(w, CallOut(p)))
  {
    var v := Apply(w, CallOut(p));
    forall q | 0 <= q < |v.presses| ensures Chained(v.presses, q) && InTurn(v, q) { assert Chained(w.presses, q) && InTurn(w, q); }
    forall x: Owner ensures Entry(v, x) { assert Entry(w, x); }
  }

  /** Entered in order of arrival, each once; and every call carried its own press's headers and card. */
  predicate Recorded(w: World) {
    (forall i :: 0 <= i < |w.entered| ==> w.entered[i] < |w.presses| && w.presses[w.entered[i]].stage != Waiting) &&
    (forall i, j :: 0 <= i < j < |w.entered| ==>
       w.entered[i] != w.entered[j] && (w.presses[w.entered[i]].owner == w.presses[w.entered[j]].owner ==> w.entered[i] < w.entered[j])) &&
    (forall c <- w.calls :: c.press < |w.presses| && c.headers == w.presses[c.press].headers && c.proposal == Some(w.presses[c.press].card))
  }

  lemma EnterRecorded(w: World, p: nat)
    requires Sound(w) && Recorded(w) && At(w, p, Waiting) && Settled(w.presses, w.presses[p].before)
    ensures Recorded(Apply(w, Enter(p)))
  {
    var v := Apply(w, Enter(p));
    SettledMeansDone(w, p);
    forall i | 0 <= i < |w.entered|
      ensures w.entered[i] != p && (w.presses[w.entered[i]].owner == w.presses[p].owner ==> w.entered[i] < p)
    {
      assert InTurn(w, w.entered[i]);
    }
  }

  lemma ApplyRecorded(w: World, e: Event)
    requires Sound(w) && Recorded(w)
    ensures Recorded(Apply(w, e))
  {
    hide Settled, Chained, Entry;
    match e
    case Arrive(_, _, _) =>
    case Enter(p) => if At(w, p, Waiting) && Settled(w.presses, w.presses[p].before) { EnterRecorded(w, p); }
    case CallOut(p) => if At(w, p, Inside) { assert InTurn(w, p); }
    case Finish(_) =>
  }

  lemma {:induction false} RunSound(w: World, events: seq<Event>)
    requires Sound(w) && Recorded(w)
    ensures Sound(Run(w, events)) && Recorded(Run(w, events))
    decreases |events|
  {
    hide Sound, Recorded, Apply;
    if events != [] {
      ApplySound(w, events[0]);
      ApplyRecorded(w, events[0]);
      RunSound(Apply(w, events[0]), events[1..]);
    }
  }

  // ---- main results ------------------------------------------------------------------------

  /**
   * In every run: at most one of an owner's confirms is inside at a time, they
   * go in in the order they arrived, and every call made inside one carries
   * that press's own headers and card.
   */
  lemma OneAtATimeInOrder(events: seq<Event>, p: nat, q: nat)
    ensures var w := Run(START, events);
            Recorded(w) &&
            (At(w, p, Inside) && At(w, q, Inside) && w.presses[p].owner == w.presses[q].owner ==> p == q)
  {
    assert Sound(START);
    hide Run, Chained, Entry;
    RunSound(START, events);
    var w := Run(START, events);
    if p < |w.presses| && q < |w.presses| {
      assert InTurn(w, p) && InTurn(w, q);
    }
  }

  /** The lock's entry is there exactly while one of the owner's confirms is not done. */
  lemma EntryGoesWithTheLast(events: seq<Event>, o: Owner)
    ensures var w := Run(START, events);
            o in w.confirming <==> exists p :: 0 <= p < |w.presses| && w.presses[p].owner == o && w.presses[p].stage != Done
  {
    assert Sound(START);
    hide Run, Chained, InTurn;
    RunSound(START, events);
    assert Entry(Run(START, events), o);
  }

  lemma {:induction false} DoneIsSettled(w: World, p: nat)
    requires Sound(w) && p < |w.presses| && EarlierDone(w.presses, w.presses[p].owner, p)
    ensures Settled(w.presses, w.presses[p].before)
    decreases p
  {
    assert Chained(w.presses, p);
    if w.presses[p].before.Some? {
      var q := w.presses[p].before.value;
      assert EarlierDone(w.presses, w.presses[q].owner, q);
      DoneIsSettled(w, q);
      assert Chained(w.presses, q);
    }
  }

  /** Nobody waits for ever on the lock itself: while a confirm is not done, the first such of its owner is inside, or may go in. */
  lemma FirstMayGoIn(events: seq<Event>, p: nat)
    requires var w := Run(START, events); p < |w.presses| && w.presses[p].stage != Done && EarlierDone(w.presses, w.presses[p].owner, p)
    ensures var w := Run(START, events); At(w, p, Inside) || Settled(w.presses, w.presses[p].before)
  {
    assert Sound(START);
    hide Run, Chained, InTurn, Entry;
    RunSound(START, events);
    DoneIsSettled(Run(START, events), p);
  }

  // ---- what each step does -------------------------------------------------------------------

  /** A press arrives last in line and changes nothing for anyone before it. */
  lemma ArrivesExactly(w: World, o: Owner, headers: Headers, card: string, x: Owner)
    ensures var v := Apply(w, Arrive(o, headers, card));
            var mine := v.presses[|w.presses|];
            && v.presses == w.presses + [mine] && v.entered == w.entered && v.calls == w.calls
            && mine.owner == o && mine.headers == headers && mine.card == card && mine.stage == Waiting
            && o in v.confirmers && ConfirmerOf(v, x) == ConfirmerOf(w, x)
  {
  }

  /** It goes in exactly when everyone of its owner's before it is done: with its own headers and card, and nobody else's touched. */
  lemma EntersExactly(w: World, p: nat, x: Owner)
    requires Sound(w)
    ensures var v := Apply(w, Enter(p));
            if At(w, p, Waiting) && EarlierDone(w.presses, w.presses[p].owner, p)
            then
              && v.presses == w.presses[p := w.presses[p].(stage := Inside)] && v.entered == w.entered + [p] && v.calls == w.calls
              && ConfirmerOf(v, x) == (if x == w.presses[p].owner then Confirmer(w.presses[p].headers, Some(w.presses[p].card)) else ConfirmerOf(w, x))
            else v == w
  {
    if At(w, p, Waiting) {
      if Settled(w.presses, w.presses[p].before) { SettledMeansDone(w, p); }
      if EarlierDone(w.presses, w.presses[p].owner, p) { DoneIsSettled(w, p); }
    }
  }

  /** A call made inside is on record as made, with that press's headers and card. */
  lemma CallsExactly(w: World, p: nat)
    requires Sound(w)
    ensures Apply(w, CallOut(p)) ==
            if At(w, p, Inside) then w.(calls := w.calls + [Call(p, w.presses[p].headers, Some(w.presses[p].card))]) else w
  {
    if At(w, p, Inside) { assert InTurn(w, p); }
  }

  /** The press of the same owner right after this one. */
  predicate NextOf(presses: seq<Press>, p: nat, q: nat)
    requires p < |presses|
  {
    p < q < |presses| && presses[q].owner == presses[p].owner && forall r :: p < r < q ==> presses[r].owner != presses[p].owner
  }

  /** When it is done its card is let go of, and no call carries it any more; the next of its owner's may go in. */
  lemma FinishesExactly(w: World, p: nat, q: nat, x: Owner)
    requires Sound(w) && At(w, p, Inside)
    ensures var v := Apply(w, Finish(p));
            && v.presses == w.presses[p := w.presses[p].(stage := Done)] && v.entered == w.entered && v.calls == w.calls
            && ConfirmerOf(v, x) == (if x == w.presses[p].owner then Confirmer(w.presses[p].headers, None) else ConfirmerOf(w, x))
            && (NextOf(w.presses, p, q) ==> EarlierDone(v.presses, v.presses[q].owner, q))
  {
    assert InTurn(w, p);
  }

  /** A run goes on from where it was. */
  lemma {:induction false} RunGoesOn(w: World, events: seq<Event>, e: Event)
    ensures Run(w, events + [e]) == Apply(Run(w, events), e)
    decreases |events|
  {
    hide Apply;
    if events == [] {
      assert [e][1..] == [];
    } else {
      assert (events + [e])[1..] == events[1..] + [e];
      RunGoesOn(Apply(w, events[0]), events[1..], e);
    }
  }
}
