/**
 * The throttle over whole runs (src/api/auth.ts): guesses reserve a place,
 * are checked off the event loop, count a miss, and release, in any
 * interleaving, with everything else that touches the counts in between.
 */
module ThrottleRuns {
  import opened Basics
  import opened Throttle

  /** One guess under way. */
  datatype Guess = Guess(keys: seq<string>, counted: bool, released: bool)

  datatype World = World(c: Counts, guesses: map<nat, Guess>, next: nat, clock: int)

  datatype Event =
    | Begin(keys: seq<string>, at: int)                        // reserve
    | Missed(g: nat, at: int, dropped: set<string>)            // noteFailure, by a guess that holds its place
    | End(g: nat, at: int)                                     // the function reserve returned
    | Elsewhere(keys: seq<string>, at: int, dropped: set<string>) // noteFailure by code that never reserved
    | Asked(keys: seq<string>, at: int)                        // throttled
    | Cleared(gone: set<string>, at: int)                      // clearFailures

  const START := World(NO_COUNTS, map[], 0, 0)

  function Apply(w: World, e: Event, cfg: Config): World {
    var w' := w.(clock := e.at);
    match e
    case Begin(keys, at) =>
      var (c, ok) := Reserved(w.c, keys, at, cfg);
      if ok then w'.(c := c, guesses := w.guesses[w.next := Guess(keys, false, false)], next := w.next + 1) else w'.(c := c)
    case Missed(g, at, dropped) =>
      if g !in w.guesses then w'
      else
        var c := NoteAll(w.c, w.guesses[g].keys, at, cfg);
        w'.(c := c.(failures := c.failures - dropped), guesses := w.guesses[g := w.guesses[g].(counted := true)])
    case End(g, _) =>
      if g !in w.guesses || w.guesses[g].released then w'
      else w'.(c := w.c.(pending := LetGo(w.c.pending, w.guesses[g].keys)), guesses := w.guesses[g := w.guesses[g].(released := true)])
    case Elsewhere(keys, at, dropped) =>
      var c := NoteAll(w.c, keys, at, cfg);
      w'.(c := c.(failures := c.failures - dropped))
    case Asked(keys, at) => w'.(c := Look(w.c, keys, at, cfg).0)
    case Cleared(gone, _) => w'.(c := w.c.(failures := w.c.failures - gone))
  }

  function Run(events: seq<Event>, cfg: Config): World {
    if events == [] then START else Apply(Run(events[..|events| - 1], cfg), events[|events| - 1], cfg)
  }

  /** The clock does not go back; a request's buckets are distinct; a guess counts its miss once, before it lets its place go. */
  ghost predicate Proper(w: World, e: Event) {
    && w.clock <= e.at
    && match e
       case Begin(keys, _) => Distinct(keys)
       case Missed(g, _, _) => g in w.guesses && !w.guesses[g].counted && !w.guesses[g].released
       case Elsewhere(keys, _, _) => Distinct(keys)
       case _ => true
  }

  ghost predicate ProperRun(events: seq<Event>, cfg: Config) {
    events == [] || (ProperRun(events[..|events| - 1], cfg) && Proper(Run(events[..|events| - 1], cfg), events[|events| - 1]))
  }

  /** What else may happen: a look and a refused guess only let go of what has expired; clearing takes those entries and no others. */
  lemma OthersTouchLittle(w: World, e: Event, cfg: Config, b: string)
    requires e.Asked? || e.Cleared? || (e.Begin? && !Reserved(w.c, e.keys, e.at, cfg).1)
    ensures var v := Apply(w, e, cfg);
            && v.guesses == w.guesses && v.next == w.next && v.clock == e.at && v.c.pending == w.c.pending && v.c.strikes == w.c.strikes
            && (b in v.c.failures ==> b in w.c.failures && v.c.failures[b] == w.c.failures[b])
            && (if e.Cleared? then b in v.c.failures <==> b in w.c.failures && b !in e.gone
                else b in w.c.failures && b !in v.c.failures ==> e.at > w.c.failures[b].until)
    ensures var v := Apply(w, e, cfg);
            e.Asked? && !Look(w.c, e.keys, e.at, cfg).1 && b in e.keys && b in v.c.failures ==> e.at <= v.c.failures[b].until
  {
    match e {
      case Asked(keys, at) => LookAt(w.c, keys, at, cfg, b); RefusedExactlyWhenFull(w.c, keys, at, cfg);
      case Begin(keys, at) => ProbeAt(w.c, keys, at, cfg, b);
      case Cleared(_, _) =>
    }
  }

  // ---- one bucket through each call --------------------------------------------

  lemma {:induction false} ProbeAt(c: Counts, keys: seq<string>, now: int, cfg: Config, b: string)
    ensures var (d, ok) := Probe(c, keys, now, cfg);
            && d.pending == c.pending && d.strikes == c.strikes
            && (forall t: int :: t >= now ==> Live(d, b, t) == Live(c, b, t))
            && (b in d.failures ==> b in c.failures && d.failures[b] == c.failures[b])
            && (b in c.failures && b !in d.failures ==> now > c.failures[b].until)
            && (ok && b in keys ==> Live(c, b, now) + InFlight(c, b) < LimitFor(b, cfg))
    decreases |keys|
  {
    if keys != [] {
      var d := Fresh(c, keys[0], now);
      ProbeAt(d, keys[1..], now, cfg, b);
      assert Live(d, b, now) == Live(c, b, now);
      if b in keys && b != keys[0] {
        assert b in keys[1..];
      }
    }
  }

  lemma {:induction false} LookAt(c: Counts, keys: seq<string>, now: int, cfg: Config, b: string)
    ensures var d := Look(c, keys, now, cfg).0;
            && d.pending == c.pending && d.strikes == c.strikes
            && (forall t: int :: t >= now ==> Live(d, b, t) == Live(c, b, t))
            && (b in d.failures ==> b in c.failures && d.failures[b] == c.failures[b])
            && (b in c.failures && b !in d.failures ==> now > c.failures[b].until)
    decreases |keys|
  {
    if keys != [] {
      LookAt(Fresh(c, keys[0], now), keys[1..], now, cfg, b);
    }
  }

  /** An entry that counts now, and counts as many as its bucket takes. */
  ghost predicate Full(c: Counts, k: string, now: int, cfg: Config) {
    k in c.failures && now <= c.failures[k].until && c.failures[k].n >= LimitFor(k, cfg)
  }

  /** `throttled` refuses exactly when one of the request's buckets is full; and if none is, none of them keeps an expired entry. */
  lemma {:induction false} RefusedExactlyWhenFull(c: Counts, keys: seq<string>, now: int, cfg: Config)
    ensures Look(c, keys, now, cfg).1 <==> exists k <- keys :: Full(c, k, now, cfg)
    ensures var d := Look(c, keys, now, cfg);
            !d.1 ==> forall k <- keys :: k in d.0.failures ==> now <= d.0.failures[k].until
    decreases |keys|
  {
    if keys != [] {
      var d := Fresh(c, keys[0], now);
      RefusedExactlyWhenFull(d, keys[1..], now, cfg);
      assert forall k: string :: Full(d, k, now, cfg) <==> Full(c, k, now, cfg);
      assert Look(c, keys, now, cfg).1 <==> Full(d, keys[0], now, cfg) || Look(d, keys[1..], now, cfg).1;
      assert forall k :: k in keys <==> k == keys[0] || k in keys[1..];
      LookAt(d, keys[1..], now, cfg, keys[0]);
    }
  }

  /** `reserve` gives a place exactly when every one of the request's buckets has room, the guesses in flight counted. */
  lemma PlacedExactlyWithRoom(c: Counts, keys: seq<string>, now: int, cfg: Config)
    ensures Reserved(c, keys, now, cfg).1 <==> forall k <- keys :: Live(c, k, now) + InFlight(c, k) < LimitFor(k, cfg)
  {
    RoomExactly(c, keys, now, cfg);
  }

  lemma {:induction false} RoomExactly(c: Counts, keys: seq<string>, now: int, cfg: Config)
    ensures Probe(c, keys, now, cfg).1 <==> forall k <- keys :: Live(c, k, now) + InFlight(c, k) < LimitFor(k, cfg)
    decreases |keys|
  {
    if keys != [] {
      var d := Fresh(c, keys[0], now);
      RoomExactly(d, keys[1..], now, cfg);
      assert forall k: string :: Live(d, k, now) == Live(c, k, now) && InFlight(d, k) == InFlight(c, k);
      assert forall k :: k in keys <==> k == keys[0] || k in keys[1..];
    }
  }

  lemma {:induction false} HeldAt(p: map<string, nat>, keys: seq<string>, b: string)
    requires Distinct(keys)
    ensures var q := Held(p, keys);
            (if b in q then q[b] else 0) == (if b in p then p[b] else 0) + (if b in keys then 1 else 0)
    decreases |keys|
  {
    if keys != [] {
      HeldAt(p[keys[0] := (if keys[0] in p then p[keys[0]] else 0) + 1], keys[1..], b);
    }
  }

  lemma {:induction false} LetGoAt(p: map<string, nat>, keys: seq<string>, b: string)
    requires Distinct(keys)
    ensures var q := LetGo(p, keys);
            var before := if b in p then p[b] else 0;
            (if b in q then q[b] else 0) == if b in keys && before > 0 then before - 1 else before
    decreases |keys|
  {
    if keys != [] {
      var k := keys[0];
      LetGoAt(if k in p && p[k] > 1 then p[k := p[k] - 1] else p - {k}, keys[1..], b);
    }
  }

  /** A miss adds one to each of its buckets, and touches no other. */
  lemma {:induction false} NoteAllAt(c: Counts, keys: seq<string>, now: int, cfg: Config, b: string)
    requires Distinct(keys)
    ensures var d := NoteAll(c, keys, now, cfg);
            && d.pending == c.pending
            && (b in keys ==>
                  && Live(d, b, now) == Live(c, b, now) + 1
                  && b in d.failures && d.failures[b] == NoteOne(c, b, now, cfg).failures[b])
            && (b !in keys ==> (b in d.failures <==> b in c.failures))
            && (b !in keys && b in c.failures ==> d.failures[b] == c.failures[b])
    decreases |keys|
  {
    if keys != [] {
      var k := keys[0];
      var d := NoteOne(c, k, now, cfg);
      NoteAllAt(d, keys[1..], now, cfg, b);
      if b == k {
        LockAtLeastZero(c, k, now, cfg);
      } else if b in keys {
        assert b in keys[1..];
        OtherBucket(c, k, now, cfg, b);
      }
    }
  }

  lemma LockAtLeastZero(c: Counts, k: string, now: int, cfg: Config)
    ensures Live(NoteOne(c, k, now, cfg), k, now) == Live(c, k, now) + 1
  {
  }

  lemma OtherBucket(c: Counts, k: string, now: int, cfg: Config, b: string)
    requires b != k
    ensures Noted(NoteOne(c, k, now, cfg), b, now, cfg) == Noted(c, b, now, cfg)
    ensures Fills(NoteOne(c, k, now, cfg), b, now, cfg) == Fills(c, b, now, cfg)
    ensures StrikeNumber(NoteOne(c, k, now, cfg), b, now) == StrikeNumber(c, b, now)
  {
  }

  // ---- the bound -----------------------------------------------------------------

  /** The guesses holding a place in bucket b. */
  ghost function Holding(gs: map<nat, Guess>, b: string): set<nat> {
    set g | g in gs && !gs[g].released && b in gs[g].keys
  }

  /** Those of them whose miss is not yet counted: still being checked, or about to be let go. */
  ghost function Unchecked(gs: map<nat, Guess>, b: string): set<nat> {
    set g | g in gs && !gs[g].released && !gs[g].counted && b in gs[g].keys
  }

  ghost predicate Bounded(w: World, b: string, cfg: Config) {
    && (forall g <- w.guesses :: g < w.next && Distinct(w.guesses[g].keys))
    && InFlight(w.c, b) == |Holding(w.guesses, b)|
    && Live(w.c, b, w.clock) + |Unchecked(w.guesses, b)| <= LimitFor(b, cfg)
  }

  lemma TimePasses(w: World, b: string, at: int, cfg: Config)
    requires Bounded(w, b, cfg) && w.clock <= at
    ensures Bounded(w.(clock := at), b, cfg)
  {
    var w' := w.(clock := at);
    assert Holding(w'.guesses, b) == Holding(w.guesses, b) && Unchecked(w'.guesses, b) == Unchecked(w.guesses, b);
  }

  lemma BeginBounded(w: World, keys: seq<string>, b: string, cfg: Config)
    requires Bounded(w, b, cfg) && Distinct(keys)
    ensures Bounded(Apply(w, Begin(keys, w.clock), cfg), b, cfg)
  {
    ProbeAt(w.c, keys, w.clock, cfg, b);
    var (d, ok) := Probe(w.c, keys, w.clock, cfg);
    var v := Apply(w, Begin(keys, w.clock), cfg);
    hide Probe, Holding, Unchecked;
    if ok {
      HeldAt(d.pending, keys, b);
      OneMoreGuess(w.guesses, w.next, keys, b);
      assert v.guesses == w.guesses[w.next := Guess(keys, false, false)];
      UncheckedHold(w.guesses, b);
    }
  }

  lemma UncheckedHold(gs: map<nat, Guess>, b: string)
    ensures |Unchecked(gs, b)| <= |Holding(gs, b)|
  {
    assert Unchecked(gs, b) <= Holding(gs, b);
    Smaller(Unchecked(gs, b), Holding(gs, b));
  }

  lemma OneMorePlace(gs: map<nat, Guess>, g: nat, keys: seq<string>, b: string)
    requires g !in gs
    ensures var more := gs[g := Guess(keys, false, false)];
            var mine: set<nat> := if b in keys then {g} else {};
            Holding(more, b) == Holding(gs, b) + mine
  {
  }

  lemma OneMoreCheck(gs: map<nat, Guess>, g: nat, keys: seq<string>, b: string)
    requires g !in gs
    ensures var more := gs[g := Guess(keys, false, false)];
            var mine: set<nat> := if b in keys then {g} else {};
            Unchecked(more, b) == Unchecked(gs, b) + mine
  {
  }

  lemma OneMoreGuess(gs: map<nat, Guess>, g: nat, keys: seq<string>, b: string)
    requires g !in gs
    ensures var more := gs[g := Guess(keys, false, false)];
            var one := if b in keys then 1 else 0;
            |Holding(more, b)| == |Holding(gs, b)| + one && |Unchecked(more, b)| == |Unchecked(gs, b)| + one
  {
    OneMorePlace(gs, g, keys, b);
    OneMoreCheck(gs, g, keys, b);
    assert g !in Holding(gs, b) && g !in Unchecked(gs, b);
    hide Holding, Unchecked;
  }

  lemma {:induction false} Smaller(a: set<nat>, b: set<nat>)
    requires a <= b
    ensures |a| <= |b|
  {
    assert b == a + (b - a);
    assert |b| == |a| + |b - a|;
  }

  lemma MissedBounded(w: World, g: nat, dropped: set<string>, b: string, cfg: Config)
    requires Bounded(w, b, cfg) && g in w.guesses && !w.guesses[g].counted && !w.guesses[g].released
    ensures Bounded(Apply(w, Missed(g, w.clock, dropped), cfg), b, cfg)
  {
    NoteAllAt(w.c, w.guesses[g].keys, w.clock, cfg, b);
    OneChecked(w.guesses, g, b);
    hide NoteAll, NoteOne, Holding, Unchecked, LimitFor;
  }

  /** A guess whose miss is counted still holds its place, and is not being checked any more. */
  lemma OneChecked(gs: map<nat, Guess>, g: nat, b: string)
    requires g in gs && !gs[g].counted && !gs[g].released
    ensures var more := gs[g := gs[g].(counted := true)];
            && Holding(more, b) == Holding(gs, b)
            && |Unchecked(more, b)| == |Unchecked(gs, b)| - (if b in gs[g].keys then 1 else 0)
  {
    var more := gs[g := gs[g].(counted := true)];
    assert Holding(more, b) == Holding(gs, b);
    if b in gs[g].keys {
      assert g in Unchecked(gs, b) && Unchecked(more, b) == Unchecked(gs, b) - {g};
    } else {
      assert Unchecked(more, b) == Unchecked(gs, b);
    }
  }

  lemma EndBounded(w: World, g: nat, b: string, cfg: Config)
    requires Bounded(w, b, cfg)
    ensures Bounded(Apply(w, End(g, w.clock), cfg), b, cfg)
  {
    if g in w.guesses && !w.guesses[g].released {
      LetGoAt(w.c.pending, w.guesses[g].keys, b);
      OneLess(w.guesses, g, b);
      hide LetGo, Holding, Unchecked, LimitFor;
    }
  }

  /** A guess that has let its place go is not counted any more. */
  lemma OneLess(gs: map<nat, Guess>, g: nat, b: string)
    requires g in gs && !gs[g].released
    ensures var less := gs[g := gs[g].(released := true)];
            && |Holding(less, b)| == |Holding(gs, b)| - (if b in gs[g].keys then 1 else 0)
            && |Unchecked(less, b)| <= |Unchecked(gs, b)|
            && (b in gs[g].keys ==> |Holding(gs, b)| > 0)
  {
    var less := gs[g := gs[g].(released := true)];
    assert Holding(less, b) == Holding(gs, b) - {g};
    assert Unchecked(less, b) == Unchecked(gs, b) - {g};
    Smaller(Unchecked(less, b), Unchecked(gs, b));
    if b in gs[g].keys {
      assert g in Holding(gs, b);
    }
  }

  lemma OthersBounded(w: World, e: Event, b: string, cfg: Config)
    requires Bounded(w, b, cfg) && e.at == w.clock
    requires e.Asked? || e.Cleared?
    ensures Bounded(Apply(w, e, cfg), b, cfg)
  {
    var v := Apply(w, e, cfg);
    assert Holding(v.guesses, b) == Holding(w.guesses, b) && Unchecked(v.guesses, b) == Unchecked(w.guesses, b);
    match e {
      case Asked(keys, at) => LookAt(w.c, keys, at, cfg, b);
      case Cleared(_, _) =>
    }
  }

  /** What a bucket still remembers, and the guesses still being checked against it, within its limit. */
  ghost predicate Within(w: World, b: string, cfg: Config) {
    Live(w.c, b, w.clock) + |Unchecked(w.guesses, b)| <= LimitFor(b, cfg)
  }

  /** A miss noted without a place held finds room left in bucket b, or drops its count at once. */
  ghost predicate RoomFor(w: World, e: Event, b: string, cfg: Config) {
    e.Elsewhere? && b in e.keys && b !in e.dropped ==>
      Live(w.c, b, e.at) + |Unchecked(w.guesses, b)| < LimitFor(b, cfg)
  }

  ghost predicate RoomThroughout(events: seq<Event>, b: string, cfg: Config) {
    events == [] ||
    (RoomThroughout(events[..|events| - 1], b, cfg) && RoomFor(Run(events[..|events| - 1], cfg), events[|events| - 1], b, cfg))
  }

  /** Between any two events of the run, and after the last. */
  ghost predicate WithinThroughout(events: seq<Event>, b: string, cfg: Config) {
    Within(Run(events, cfg), b, cfg) && (events == [] || WithinThroughout(events[..|events| - 1], b, cfg))
  }

  /** Exactly when a miss noted without a place held keeps the bound. */
  lemma UnreservedMissNeedsRoom(w: World, e: Event, b: string, cfg: Config)
    requires Bounded(w, b, cfg) && e.Elsewhere? && e.at == w.clock && Distinct(e.keys)
    ensures Bounded(Apply(w, e, cfg), b, cfg) <==> RoomFor(w, e, b, cfg)
    ensures Bounded(Apply(w, e, cfg), b, cfg) <==> Within(Apply(w, e, cfg), b, cfg)
  {
    var v := Apply(w, e, cfg);
    NoteAllAt(w.c, e.keys, e.at, cfg, b);
    assert Holding(v.guesses, b) == Holding(w.guesses, b) && Unchecked(v.guesses, b) == Unchecked(w.guesses, b);
  }

  lemma StepBounded(w0: World, e: Event, b: string, cfg: Config)
    requires Bounded(w0, b, cfg) && Proper(w0, e)
    ensures Bounded(Apply(w0, e, cfg), b, cfg) <==> RoomFor(w0, e, b, cfg)
    ensures Bounded(Apply(w0, e, cfg), b, cfg) <==> Within(Apply(w0, e, cfg), b, cfg)
  {
    TimePasses(w0, b, e.at, cfg);
    var w := w0.(clock := e.at);
    hide Live, LimitFor, Holding, Unchecked, NoteAll, Reserved, LetGo, Look;
    assert Apply(w0, e, cfg) == Apply(w, e, cfg);
    match e {
      case Begin(keys, _) => BeginBounded(w, keys, b, cfg);
      case Missed(g, _, dropped) => MissedBounded(w, g, dropped, b, cfg);
      case End(g, _) => EndBounded(w, g, b, cfg);
      case Elsewhere(_, _, _) => UnreservedMissNeedsRoom(w, e, b, cfg);
      case _ => OthersBounded(w, e, b, cfg);
    }
  }

  lemma {:induction false} RunBounded(events: seq<Event>, b: string, cfg: Config)
    requires ProperRun(events, cfg) && RoomThroughout(events, b, cfg)
    ensures Bounded(Run(events, cfg), b, cfg)
  {
    hide Apply, Bounded, RoomFor, Proper;
    if events == [] {
      StartBounded(b, cfg);
    } else {
      RunBounded(events[..|events| - 1], b, cfg);
      StepBounded(Run(events[..|events| - 1], cfg), events[|events| - 1], b, cfg);
    }
  }

  lemma StartBounded(b: string, cfg: Config)
    ensures Bounded(START, b, cfg) && Within(START, b, cfg)
  {
    assert Holding(START.guesses, b) == {} && Unchecked(START.guesses, b) == {};
  }

  /**
   * Over whole runs, exactly when the bound holds all the way: when every miss
   * that was noted without a place held found room.
   */
  lemma {:induction false} WithinExactlyWithRoom(events: seq<Event>, b: string, cfg: Config)
    requires ProperRun(events, cfg)
    ensures WithinThroughout(events, b, cfg) <==> RoomThroughout(events, b, cfg)
  {
    hide Apply, Bounded, RoomFor, Proper, Within;
    if events == [] {
      StartBounded(b, cfg);
    } else {
      var before := events[..|events| - 1];
      WithinExactlyWithRoom(before, b, cfg);
      if RoomThroughout(before, b, cfg) {
        RunBounded(before, b, cfg);
        StepBounded(Run(before, cfg), events[|events| - 1], b, cfg);
      }
    }
  }

  /** No miss of bucket b comes from code that never reserved. */
  ghost predicate GuessedThroughReserve(events: seq<Event>, b: string) {
    forall e <- events :: e.Elsewhere? ==> b !in e.keys
  }

  lemma {:induction false} ReservedHaveRoom(events: seq<Event>, b: string, cfg: Config)
    requires GuessedThroughReserve(events, b)
    ensures RoomThroughout(events, b, cfg)
  {
    if events != [] {
      assert events[|events| - 1] in events;
      assert forall e <- events[..|events| - 1] :: e in events;
      ReservedHaveRoom(events[..|events| - 1], b, cfg);
    }
  }

  /**
   * No burst outruns the limit. In every interleaving, the misses a bucket
   * still remembers and the guesses still being checked against it never
   * exceed its limit together, whatever is evicted or cleared meanwhile; and
   * `pending` is exactly the places held.
   */
  lemma GuessesNeverOutrunTheLimit(events: seq<Event>, b: string, cfg: Config)
    requires ProperRun(events, cfg) && GuessedThroughReserve(events, b)
    ensures var w := Run(events, cfg);
            && Live(w.c, b, w.clock) + |Unchecked(w.guesses, b)| <= LimitFor(b, cfg)
            && InFlight(w.c, b) == |Holding(w.guesses, b)|
  {
    ReservedHaveRoom(events, b, cfg);
    RunBounded(events, b, cfg);
  }

  /** A second release changes nothing at all. */
  lemma ReleasingTwiceIsHarmless(w: World, g: nat, cfg: Config)
    ensures var once := Apply(w, End(g, w.clock), cfg); Apply(once, End(g, w.clock), cfg) == once
  {
  }

  /** This many guesses at one bucket, all at once. */
  function Burst(b: string, n: nat): seq<Event> {
    if n == 0 then [] else Burst(b, n - 1) + [Begin([b], 0)]
  }

  /** With no miss on record and room for it, a guess gets its place. */
  lemma PlaceTaken(w: World, b: string, cfg: Config)
    requires w.c.failures == map[] && InFlight(w.c, b) < LimitFor(b, cfg)
    ensures var v := Apply(w, Begin([b], w.clock), cfg);
            && v == w.(c := v.c, guesses := w.guesses[w.next := Guess([b], false, false)], next := w.next + 1)
            && v.c.failures == map[] && InFlight(v.c, b) == InFlight(w.c, b) + 1
  {
    hide LimitFor, Held;
    assert [b][1..] == [];
    assert Probe(w.c, [b], w.clock, cfg) == (w.c, true);
    HeldAt(w.c.pending, [b], b);
  }

  /** What a burst of `n` guesses leaves, if the limit allows them all. */
  ghost predicate AllUnderWay(w: World, b: string, n: nat) {
    && w.clock == 0 && w.next == n && w.c.failures == map[] && InFlight(w.c, b) == n
    && (forall g <- w.guesses :: g < n) && |Unchecked(w.guesses, b)| == n
  }

  lemma OneMoreUnderWay(w: World, b: string, n: nat, cfg: Config)
    requires AllUnderWay(w, b, n) && n < LimitFor(b, cfg)
    ensures Proper(w, Begin([b], 0)) && AllUnderWay(Apply(w, Begin([b], 0), cfg), b, n + 1)
  {
    hide LimitFor, InFlight, Apply, Holding, Unchecked;
    PlaceTaken(w, b, cfg);
    OneMoreGuess(w.guesses, w.next, [b], b);
  }

  lemma {:induction false} BurstHolds(b: string, n: nat, cfg: Config)
    requires n <= LimitFor(b, cfg)
    ensures ProperRun(Burst(b, n), cfg) && GuessedThroughReserve(Burst(b, n), b)
    ensures AllUnderWay(Run(Burst(b, n), cfg), b, n)
  {
    if n == 0 {
      assert Unchecked(START.guesses, b) == {};
    } else {
      hide LimitFor, Apply, AllUnderWay, Proper;
      BurstHolds(b, n - 1, cfg);
      assert Burst(b, n)[..|Burst(b, n)| - 1] == Burst(b, n - 1);
      OneMoreUnderWay(Run(Burst(b, n - 1), cfg), b, n - 1, cfg);
    }
  }

  /**
   * Whatever the limit: guesses that fill it, and beside them one miss noted
   * without a place (as the recovery route's late one is, on the address
   * bucket), take the bucket over it.
   */
  lemma UnreservedMissOverruns(b: string, cfg: Config)
    ensures var events := Burst(b, LimitFor(b, cfg)) + [Elsewhere([b], 0, {})];
            ProperRun(events, cfg) && !Within(Run(events, cfg), b, cfg)
  {
    var burst, e := Burst(b, LimitFor(b, cfg)), Elsewhere([b], 0, {});
    var events := burst + [e];
    BurstHolds(b, LimitFor(b, cfg), cfg);
    ReservedHaveRoom(burst, b, cfg);
    RunBounded(burst, b, cfg);
    assert events[..|events| - 1] == burst;
    assert Distinct([b]);
    assert b in [b];
    StepBounded(Run(burst, cfg), e, b, cfg);
  }

  // ---- lockouts ------------------------------------------------------------------

  /** Bucket b locked at a time, with a strike number. */
  datatype Lockout = Lockout(at: int, strike: nat)

  /** The buckets an event counts a miss in. */
  function NotedKeys(w: World, e: Event): seq<string> {
    match e
    case Missed(g, _, _) => if g in w.guesses then w.guesses[g].keys else []
    case Elsewhere(keys, _, _) => keys
    case _ => []
  }

  function Lockouts(events: seq<Event>, b: string, cfg: Config): seq<Lockout> {
    if events == [] then []
    else
      var w := Run(events[..|events| - 1], cfg);
      var e := events[|events| - 1];
      Lockouts(events[..|events| - 1], b, cfg)
      + (if b in NotedKeys(w, e) && Fills(w.c, b, e.at, cfg) then [Lockout(e.at, StrikeNumber(w.c, b, e.at))] else [])
  }

  /** How long a lock lasts: one window, twice as long for each strike after the first, a day at most. */
  ghost function Backoff(strike: nat, cfg: Config): nat
    requires strike >= 1
  {
    var doubled := cfg.windowMs * Pow2(strike - 1);
    if doubled > 86_400_000 then 86_400_000 else doubled
  }

  /**
   * What one miss does in its bucket, and in no other: it is counted, in the
   * window that runs or in a new one; and if that fills a public bucket (other
   * than the ceiling on everyone) it is a strike, one more than the last day's
   * last one, and the bucket is locked from now for as long as that strike says.
   */
  lemma MissCountsExactly(c: Counts, k: string, now: int, cfg: Config, b: string)
    ensures var d := NoteOne(c, k, now, cfg);
            var runs := k in c.failures && now <= c.failures[k].until;
            var n := if runs then c.failures[k].n + 1 else 1;
            var strike := if k in c.strikes && now < c.strikes[k].until then c.strikes[k].n + 1 else 1;
            && d.pending == c.pending && k in d.failures && d.failures[k].n == n
            && (b != k ==> (b in d.failures <==> b in c.failures) && (b in c.failures ==> d.failures[b] == c.failures[b]))
            && if Includes(k, "pub:") && !EndsWith(k, "pub:all") && n == LimitFor(k, cfg)
               then d.failures[k].until == now + Backoff(strike, cfg) && k in d.strikes && d.strikes[k] == Strike(strike, now + 86_400_000)
               else d.failures[k].until == (if runs then c.failures[k].until else now + cfg.windowMs) && d.strikes == c.strikes
  {
  }

  /** Up to ten thousand strikes are kept; above that, those still remembered. */
  lemma StrikesKeptExactly(s: map<string, Strike>, now: int, k: string)
    ensures var kept := SweptStrikes(s, now);
            && (k in kept ==> k in s && kept[k] == s[k])
            && (k in kept <==> k in s && (|s| <= 10_000 || now <= s[k].until))
  {
  }

  /** Bucket b is neither cleared nor evicted. */
  ghost predicate Undisturbed(events: seq<Event>, b: string) {
    forall e <- events ::
      match e
      case Missed(_, _, dropped) => b !in dropped
      case Elsewhere(_, _, dropped) => b !in dropped
      case Cleared(gone, _) => b !in gone
      case _ => true
  }

  /** Since its last lockout: the bucket is full until the lock ends, and the strike is remembered for a day. */
  ghost predicate Since(w: World, last: Lockout, b: string, cfg: Config) {
    && last.strike >= 1 && last.at <= w.clock
    && (var until := last.at + LockMs(last.strike, cfg);
        w.clock > until || (b in w.c.failures && w.c.failures[b].until == until && w.c.failures[b].n >= LimitFor(b, cfg)))
    && (if b in w.c.strikes then w.c.strikes[b] == Strike(last.strike, last.at + STRIKE_MEMORY_MS)
        else w.clock > last.at + STRIKE_MEMORY_MS)
  }

  ghost predicate Good(w: World) {
    forall g <- w.guesses :: Distinct(w.guesses[g].keys)
  }

  lemma {:induction false} RunGood(events: seq<Event>, cfg: Config)
    requires ProperRun(events, cfg)
    ensures Good(Run(events, cfg))
  {
    hide NoteAll, Reserved, LetGo, Look;
    if events != [] {
      RunGood(events[..|events| - 1], cfg);
    }
  }

  /** The strikes of bucket b through one event's misses. */
  lemma {:induction false} StrikesAt(c: Counts, keys: seq<string>, now: int, cfg: Config, b: string)
    requires Distinct(keys)
    ensures var d := NoteAll(c, keys, now, cfg);
            && (b in keys && Fills(c, b, now, cfg) ==> b in d.strikes && d.strikes[b] == Strike(StrikeNumber(c, b, now), now + STRIKE_MEMORY_MS))
            && (!(b in keys && Fills(c, b, now, cfg)) ==>
                  && (b in d.strikes ==> b in c.strikes && d.strikes[b] == c.strikes[b])
                  && (b in c.strikes && b !in d.strikes ==> now > c.strikes[b].until))
    decreases |keys|
  {
    if keys != [] {
      var k := keys[0];
      StrikesAt(NoteOne(c, k, now, cfg), keys[1..], now, cfg, b);
      if b != k {
        OtherBucket(c, k, now, cfg, b);
      }
    }
  }

  lemma NotedSince(w: World, keys: seq<string>, last: Lockout, b: string, cfg: Config)
    requires Distinct(keys) && Since(w, last, b, cfg)
    ensures var v := w.(c := NoteAll(w.c, keys, w.clock, cfg));
            if b in keys && Fills(w.c, b, w.clock, cfg) then
              var now := Lockout(w.clock, StrikeNumber(w.c, b, w.clock));
              Spaced(last, now, cfg) && Since(v, now, b, cfg)
            else Since(v, last, b, cfg)
  {
    NoteAllAt(w.c, keys, w.clock, cfg, b);
    StrikesAt(w.c, keys, w.clock, cfg, b);
  }

  lemma FirstLockout(w: World, keys: seq<string>, b: string, cfg: Config)
    requires Distinct(keys) && b in keys && Fills(w.c, b, w.clock, cfg) && b !in w.c.strikes
    ensures var v := w.(c := NoteAll(w.c, keys, w.clock, cfg)); Since(v, Lockout(w.clock, 1), b, cfg)
  {
    NoteAllAt(w.c, keys, w.clock, cfg, b);
    StrikesAt(w.c, keys, w.clock, cfg, b);
  }

  /** How far apart two lockouts that follow each other are, and how their strikes follow. */
  ghost predicate Spaced(one: Lockout, two: Lockout, cfg: Config) {
    && one.strike >= 1
    && two.at > one.at + Backoff(one.strike, cfg)
    && two.strike == (if two.at < one.at + 86_400_000 then one.strike + 1 else 1)
  }

  ghost predicate AllSpaced(ls: seq<Lockout>, cfg: Config) {
    forall i :: 0 < i < |ls| ==> Spaced(ls[i - 1], ls[i], cfg)
  }

  /** The clock moves on; the bucket may lose an entry that has expired, and nothing else. */
  lemma QuietSince(w: World, v: World, last: Lockout, b: string, cfg: Config)
    requires Since(w, last, b, cfg) && w.clock <= v.clock && v.c.strikes == w.c.strikes
    requires b in v.c.failures ==> b in w.c.failures && v.c.failures[b] == w.c.failures[b]
    requires b in w.c.failures && b !in v.c.failures ==> v.clock > w.c.failures[b].until
    ensures Since(v, last, b, cfg)
  {
  }

  ghost predicate LockedOnce(w: World, ls: seq<Lockout>, b: string, cfg: Config) {
    if ls == [] then b !in w.c.strikes else AllSpaced(ls, cfg) && Since(w, ls[|ls| - 1], b, cfg)
  }

  lemma NotedStep(w: World, keys: seq<string>, ls: seq<Lockout>, b: string, cfg: Config)
    requires Distinct(keys) && LockedOnce(w, ls, b, cfg)
    ensures var v := w.(c := NoteAll(w.c, keys, w.clock, cfg));
            LockedOnce(v, ls + (if b in keys && Fills(w.c, b, w.clock, cfg) then [Lockout(w.clock, StrikeNumber(w.c, b, w.clock))] else []), b, cfg)
  {
    hide Since;
    var fills := b in keys && Fills(w.c, b, w.clock, cfg);
    if ls != [] {
      NotedSince(w, keys, ls[|ls| - 1], b, cfg);
    } else if fills {
      FirstLockout(w, keys, b, cfg);
    } else {
      StrikesAt(w.c, keys, w.clock, cfg, b);
    }
    assert ls + [] == ls;
  }

  /** A call that counts no miss. */
  lemma QuietStep(w: World, e: Event, ls: seq<Lockout>, b: string, cfg: Config)
    requires LockedOnce(w, ls, b, cfg) && e.at == w.clock
    requires e.Begin? || e.End? || e.Asked? || (e.Cleared? && b !in e.gone)
    ensures LockedOnce(Apply(w, e, cfg), ls, b, cfg)
  {
    match e {
      case Begin(keys, at) => ProbeAt(w.c, keys, at, cfg, b);
      case Asked(keys, at) => LookAt(w.c, keys, at, cfg, b);
      case _ =>
    }
    if ls != [] {
      QuietSince(w, Apply(w, e, cfg), ls[|ls| - 1], b, cfg);
    }
  }

  lemma {:induction false} LockoutsSpaced(events: seq<Event>, b: string, cfg: Config)
    requires ProperRun(events, cfg) && Undisturbed(events, b)
    ensures LockedOnce(Run(events, cfg), Lockouts(events, b, cfg), b, cfg)
  {
    if events != [] {
      var before := events[..|events| - 1];
      var e := events[|events| - 1];
      assert e in events;
      assert forall x <- before :: x in events;
      LockoutsSpaced(before, b, cfg);
      RunGood(before, cfg);
      LastEvent(Run(before, cfg), e, Lockouts(before, b, cfg), b, cfg);
    }
  }

  lemma LastEvent(w0: World, e: Event, ls: seq<Lockout>, b: string, cfg: Config)
    requires Good(w0) && Proper(w0, e) && LockedOnce(w0, ls, b, cfg) && Undisturbed([e], b)
    ensures LockedOnce(Apply(w0, e, cfg), ls + (if b in NotedKeys(w0, e) && Fills(w0.c, b, e.at, cfg) then [Lockout(e.at, StrikeNumber(w0.c, b, e.at))] else []), b, cfg)
  {
    var w := w0.(clock := e.at);
    assert e in [e];
    if ls != [] {
      QuietSince(w0, w, ls[|ls| - 1], b, cfg);
    }
    hide Since, Fills, StrikeNumber, NoteAll;
    assert ls + [] == ls;
    match e {
      case Missed(g, _, dropped) => NotedThenDropped(w, w.guesses[g].keys, dropped, Apply(w0, e, cfg), ls, b, cfg);
      case Elsewhere(keys, _, dropped) => NotedThenDropped(w, keys, dropped, Apply(w0, e, cfg), ls, b, cfg);
      case _ =>
        assert Apply(w, e, cfg) == Apply(w0, e, cfg);
        QuietStep(w, e, ls, b, cfg);
    }
  }

  lemma NotedThenDropped(w: World, keys: seq<string>, dropped: set<string>, v: World, ls: seq<Lockout>, b: string, cfg: Config)
    requires Distinct(keys) && LockedOnce(w, ls, b, cfg) && b !in dropped
    requires var c := NoteAll(w.c, keys, w.clock, cfg); v.clock == w.clock && v.c == c.(failures := c.failures - dropped)
    ensures LockedOnce(v, ls + (if b in keys && Fills(w.c, b, w.clock, cfg) then [Lockout(w.clock, StrikeNumber(w.c, b, w.clock))] else []), b, cfg)
  {
    hide Fills, StrikeNumber, NoteAll;
    NotedStep(w, keys, ls, b, cfg);
    var ls' := ls + (if b in keys && Fills(w.c, b, w.clock, cfg) then [Lockout(w.clock, StrikeNumber(w.c, b, w.clock))] else []);
    if ls' != [] {
      QuietSince(w.(c := NoteAll(w.c, keys, w.clock, cfg)), v, ls'[|ls'| - 1], b, cfg);
    }
  }

  /** Bucket b full, until then. */
  ghost predicate FullUntil(w: World, b: string, until: int, cfg: Config) {
    b in w.c.failures && w.c.failures[b].until == until && w.c.failures[b].n >= LimitFor(b, cfg)
  }

  lemma FullStays(w: World, e: Event, b: string, until: int, cfg: Config)
    requires Good(w) && Proper(w, e) && FullUntil(w, b, until, cfg) && e.at <= until && Undisturbed([e], b)
    ensures FullUntil(Apply(w, e, cfg), b, until, cfg)
  {
    assert e in [e];
    match e {
      case Begin(keys, at) => ProbeAt(w.c, keys, at, cfg, b);
      case Missed(g, at, _) => NoteAllAt(w.c, w.guesses[g].keys, at, cfg, b);
      case Elsewhere(keys, at, _) => NoteAllAt(w.c, keys, at, cfg, b);
      case Asked(keys, at) => LookAt(w.c, keys, at, cfg, b);
      case _ =>
    }
  }

  lemma {:induction false} FullThroughout(before: seq<Event>, after: seq<Event>, b: string, until: int, cfg: Config)
    requires ProperRun(before + after, cfg) && Undisturbed(after, b)
    requires FullUntil(Run(before, cfg), b, until, cfg) && Run(before + after, cfg).clock <= until
    ensures FullUntil(Run(before + after, cfg), b, until, cfg)
    decreases |after|
  {
    if after == [] {
      assert before + after == before;
    } else {
      var shorter, e := after[..|after| - 1], after[|after| - 1];
      assert (before + after)[..|before + after| - 1] == before + shorter;
      assert e in after && forall x <- shorter :: x in after;
      RunGood(before + shorter, cfg);
      hide NoteAll, Reserved, LetGo, Look, FullUntil;
      FullThroughout(before, shorter, b, until, cfg);
      FullStays(Run(before + shorter, cfg), e, b, until, cfg);
    }
  }

  /**
   * A bucket that is full is refused: in every run, until its window or its
   * lock ends, whoever asks in it, as long as nothing clears or evicts it;
   * neither a look nor a place is granted.
   */
  lemma FullIsRefused(before: seq<Event>, after: seq<Event>, keys: seq<string>, b: string, at: int, cfg: Config)
    requires ProperRun(before + after, cfg) && Undisturbed(after, b) && b in keys
    requires Full(Run(before, cfg).c, b, Run(before, cfg).clock, cfg)
    requires Run(before + after, cfg).clock <= at <= Run(before, cfg).c.failures[b].until
    ensures var c := Run(before + after, cfg).c;
            Look(c, keys, at, cfg).1 && !Reserved(c, keys, at, cfg).1
  {
    FullThroughout(before, after, b, Run(before, cfg).c.failures[b].until, cfg);
    var c := Run(before + after, cfg).c;
    hide Run, ProperRun;
    RefusedExactlyWhenFull(c, keys, at, cfg);
    PlacedExactlyWithRoom(c, keys, at, cfg);
    assert Full(c, b, at, cfg);
  }

  /**
   * Lockouts back off. In every run that neither clears nor evicts the
   * bucket, two lockouts that follow each other are more than the first one's
   * doubled lock apart, and the strike goes up by one within a day of it and
   * starts again at one after that.
   */
  lemma LockoutsBackOff(events: seq<Event>, b: string, cfg: Config, i: nat)
    requires ProperRun(events, cfg) && Undisturbed(events, b)
    requires 0 < i < |Lockouts(events, b, cfg)|
    ensures Spaced(Lockouts(events, b, cfg)[i - 1], Lockouts(events, b, cfg)[i], cfg)
  {
    LockoutsSpaced(events, b, cfg);
  }

  /**
   * The doubling stops at a day and does not stay there: the strike is
   * remembered exactly as long as the longest lock, so after a lock of a full
   * day the next lockout always counts as the first.
   */
  lemma FullDayStartsOver(events: seq<Event>, b: string, cfg: Config, i: nat)
    requires ProperRun(events, cfg) && Undisturbed(events, b)
    requires var ls := Lockouts(events, b, cfg);
             0 < i < |ls| && ls[i - 1].strike >= 1 && Backoff(ls[i - 1].strike, cfg) == 86_400_000
    ensures Lockouts(events, b, cfg)[i].strike == 1
  {
    LockoutsBackOff(events, b, cfg, i);
  }
}
