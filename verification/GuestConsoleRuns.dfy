/**
 * The guest console log over whole runs, with a clock that does not go back:
 * its maps stay capped and oldest first, a budget covers at most ten names,
 * and a line repeats only in its time, unless the log had to forget it.
 */
module GuestConsoleRuns {
  import opened Basics
  import opened GuestConsoleLog

  /** The log, the clock, and the record: every line written, where each guest's budget began in it, and the keys forgotten since their last line. */
  datatype World = World(last: Last, names: Names, now: int, history: seq<(Key, int)>, began: map<Who, nat>, forgotten: set<Key>)

  datatype Event = Tick(ms: nat) | Visit(who: Who) | Refusal(who: Who, method_: string)

  function Every(key: Key): int { if key.Open? then HOUR else DAY }

  function KeysOf(last: Last): set<Key> { set x <- last :: x.0 }

  /** `#due`, with its line written when it says so. */
  function Line(w: World, key: Key): World {
    var after := Dued(w.last, key, Every(key), w.now);
    if !IsDue(w.last, key, Every(key), w.now) then w.(last := after)
    else
      w.(last := after, history := w.history + [(key, w.now)], forgotten := (w.forgotten + KeysOf(w.last)) - KeysOf(after))
  }

  function Called(method_: string): Name { if NamesAMethod(method_) then Method(method_) else Others }

  /** The budget's part of a refusal. */
  function Charge(w: World, who: Who, method_: string): World {
    w.(names := NamesAfter(w.last, w.names, who, method_, w.now),
       began := if Charged(w.last, who, Called(method_), w.now) && Fresh(w.names, who, w.now) then w.began[who := |w.history|] else w.began)
  }

  function Apply(w: World, e: Event): World {
    match e
    case Tick(ms) => w.(now := w.now + ms)
    case Visit(who) => Line(w, Open(who))
    case Refusal(who, method_) => Line(Charge(w, who, method_), Refused(who, NameFor(w.last, w.names, who, method_, w.now)))
  }

  function Run(w: World, events: seq<Event>): World
    decreases |events|
  {
    if events == [] then w else Run(Apply(w, events[0]), events[1..])
  }

  function Start(now: int): World { World([], [], now, [], map[], {}) }

  // ---- order ------------------------------------------------------------------------

  /** Before all of these: another key, and no later. */
  ghost predicate Older<K, V>(x: (K, V), m: Ordered<K, V>, time: V -> int) {
    forall y <- m :: y.0 != x.0 && time(x.1) <= time(y.1)
  }

  /** Each key once, oldest first, nothing from the future. */
  ghost predicate Tidy<K, V>(m: Ordered<K, V>, time: V -> int, now: int) {
    m != [] ==> Older(m[0], m[1..], time) && time(m[0].1) <= now && Tidy(m[1..], time, now)
  }

  lemma InTail<K, V>(m: Ordered<K, V>, x: (K, V))
    requires m != []
    ensures x in m <==> x == m[0] || x in m[1..]
  {
  }

  lemma {:induction false} WithoutMembers<K, V>(m: Ordered<K, V>, k: K, x: (K, V))
    ensures x in Without(m, k) <==> x in m && x.0 != k
    ensures |Without(m, k)| <= |m|
  {
    if m != [] {
      WithoutMembers(m[1..], k, x);
      InTail(m, x);
    }
  }

  lemma {:induction false} WithoutTidy<K, V>(m: Ordered<K, V>, k: K, time: V -> int, now: int)
    requires Tidy(m, time, now)
    ensures Tidy(Without(m, k), time, now)
  {
    if m != [] {
      WithoutTidy(m[1..], k, time, now);
      forall y | y in Without(m[1..], k) ensures y.0 != m[0].0 && time(m[0].1) <= time(y.1) {
        WithoutMembers(m[1..], k, y);
      }
      if m[0].0 == k {
        assert Without(m, k) == Without(m[1..], k);
      } else {
        assert Without(m, k)[1..] == Without(m[1..], k);
      }
    }
  }

  lemma {:induction false} AppendTidy<K, V>(m: Ordered<K, V>, x: (K, V), time: V -> int, now: int)
    requires Tidy(m, time, now) && time(x.1) == now && forall y <- m :: y.0 != x.0
    ensures Tidy(m + [x], time, now)
  {
    if m == [] {
      assert m + [x] == [x];
    } else {
      InTail(m, m[0]);
      assert forall y <- m[1..] :: y in m;
      AppendTidy(m[1..], x, time, now);
      assert (m + [x])[1..] == m[1..] + [x];
    }
  }

  lemma {:induction false} CappedTidy<K, V>(m: Ordered<K, V>, time: V -> int, now: int)
    requires Tidy(m, time, now)
    ensures Tidy(Capped(m), time, now) && |Capped(m)| <= MAX_KEYS
    ensures |m| > 0 ==> Capped(m) != [] && m[|m| - 1] in Capped(m)
  {
    if |m| > MAX_KEYS {
      CappedTidy(m[1..], time, now);
    }
  }

  /** Whatever was dropped is older than whatever stayed, and the cap is full. */
  lemma {:induction false} CappedMembers<K, V>(m: Ordered<K, V>, time: V -> int, now: int, x: (K, V), y: (K, V))
    requires Tidy(m, time, now)
    ensures y in Capped(m) ==> y in m
    ensures x in m && x !in Capped(m) && y in Capped(m) ==> time(x.1) <= time(y.1) && |Capped(m)| == MAX_KEYS
  {
    if |m| > MAX_KEYS {
      CappedMembers(m[1..], time, now, x, y);
      InTail(m, x);
      InTail(m, y);
      CappedFull(m[1..]);
    }
  }

  lemma {:induction false} CappedFull<K, V>(m: Ordered<K, V>)
    ensures |m| >= MAX_KEYS ==> |Capped(m)| == MAX_KEYS
  {
    if |m| > MAX_KEYS {
      CappedFull(m[1..]);
    }
  }

  /** Putting a key last keeps the map tidy and within its cap. */
  lemma PutLastTidy<K, V>(m: Ordered<K, V>, k: K, v: V, time: V -> int, now: int)
    requires Tidy(m, time, now) && time(v) == now
    ensures Tidy(PutLast(m, k, v), time, now) && |PutLast(m, k, v)| <= MAX_KEYS && (k, v) in PutLast(m, k, v)
  {
    var left := Without(m, k);
    WithoutTidy(m, k, time, now);
    forall y | y in left ensures y.0 != k { WithoutMembers(m, k, y); }
    AppendTidy(left, (k, v), time, now);
    CappedTidy(left + [(k, v)], time, now);
  }

  /** What it forgets is no newer than anything it keeps, and only once the map is full. */
  lemma PutLastForgetsTheOldest<K, V>(m: Ordered<K, V>, k: K, v: V, time: V -> int, now: int, x: (K, V), y: (K, V))
    requires Tidy(m, time, now) && time(v) == now
    ensures y in PutLast(m, k, v) ==> y == (k, v) || (y in m && y.0 != k)
    ensures x in m && x.0 != k && x !in PutLast(m, k, v) && y in PutLast(m, k, v) ==>
              time(x.1) <= time(y.1) && |PutLast(m, k, v)| == MAX_KEYS
  {
    var left := Without(m, k);
    WithoutTidy(m, k, time, now);
    forall z | z in left ensures z.0 != k { WithoutMembers(m, k, z); }
    AppendTidy(left, (k, v), time, now);
    CappedMembers(left + [(k, v)], time, now, x, y);
    WithoutMembers(m, k, x);
    WithoutMembers(m, k, y);
  }

  lemma {:induction false} GetFinds<K, V>(m: Ordered<K, V>, k: K)
    ensures Get(m, k).Some? ==> (k, Get(m, k).value) in m
    ensures Get(m, k).None? ==> forall x <- m :: x.0 != k
  {
    if m != [] {
      GetFinds(m[1..], k);
    }
  }

  lemma {:induction false} GetIs<K, V>(m: Ordered<K, V>, k: K, v: V, time: V -> int, now: int)
    requires Tidy(m, time, now) && (k, v) in m
    ensures Get(m, k) == Some(v)
  {
    InTail(m, (k, v));
    if m[0] != (k, v) {
      GetIs(m[1..], k, v, time, now);
    }
  }

  // ---- repeats ---------------------------------------------------------------------------

  function When(): int -> int { (at: int) => at }

  function Opened(): Budget -> int { (b: Budget) => b.since }

  /** When a key's last line was written. */
  function LastLine(history: seq<(Key, int)>, key: Key): Option<int> {
    if history == [] then None
    else if history[|history| - 1].0 == key then Some(history[|history| - 1].1)
    else LastLine(history[..|history| - 1], key)
  }

  lemma LastLineOf(history: seq<(Key, int)>, x: (Key, int), key: Key)
    ensures LastLine(history + [x], key) == if x.0 == key then Some(x.1) else LastLine(history, key)
  {
    assert (history + [x])[..|history|] == history;
  }

  /** Oldest first, capped; it holds when each key's last line was written, unless it had to forget the key. */
  ghost predicate Remembers(w: World) {
    Tidy(w.last, When(), w.now) && |w.last| <= MAX_KEYS &&
    (forall x <- w.last :: LastLine(w.history, x.0) == Some(x.1)) &&
    (forall k: Key :: LastLine(w.history, k).Some? ==> (k, LastLine(w.history, k).value) in w.last || k in w.forgotten)
  }

  lemma {:induction false} TidyLater<K, V>(m: Ordered<K, V>, time: V -> int, now: int, later: int)
    requires Tidy(m, time, now) && now <= later
    ensures Tidy(m, time, later)
  {
    if m != [] {
      TidyLater(m[1..], time, now, later);
    }
  }

  lemma LineRemembers(w: World, key: Key)
    requires Remembers(w)
    ensures Remembers(Line(w, key))
  {
    if IsDue(w.last, key, Every(key), w.now) {
      var after := PutLast(w.last, key, w.now);
      var v := Line(w, key);
      PutLastTidy(w.last, key, w.now, When(), w.now);
      forall x | x in v.last ensures LastLine(v.history, x.0) == Some(x.1) {
        PutLastForgetsTheOldest(w.last, key, w.now, When(), w.now, x, x);
        LastLineOf(w.history, (key, w.now), x.0);
      }
      forall k: Key | LastLine(v.history, k).Some? ensures (k, LastLine(v.history, k).value) in v.last || k in v.forgotten {
        LastLineOf(w.history, (key, w.now), k);
        if k != key { KeptOrForgotten(w, key, k); }
      }
    }
  }

  /** A key other than the one written: its entry stays, or the key joins the forgotten. */
  lemma KeptOrForgotten(w: World, key: Key, k: Key)
    requires Remembers(w) && k != key && LastLine(w.history, k).Some? && IsDue(w.last, key, Every(key), w.now)
    ensures (k, LastLine(w.history, k).value) in Line(w, key).last || k in Line(w, key).forgotten
  {
    var after := PutLast(w.last, key, w.now);
    var x := (k, LastLine(w.history, k).value);
    if x !in after {
      forall y | y in after ensures y.0 != k {
        PutLastForgetsTheOldest(w.last, key, w.now, When(), w.now, y, y);
        assert y in w.last ==> LastLine(w.history, y.0) == Some(y.1);
      }
      assert k !in KeysOf(after);
      assert x in w.last ==> k in KeysOf(w.last);
    }
  }

  // ---- budgets --------------------------------------------------------------------------

  /** How many refusals of this guest were recorded by name. */
  function Named(history: seq<(Key, int)>, who: Who): nat {
    if history == [] then 0
    else Named(history[..|history| - 1], who) + if history[|history| - 1].0.Refused? && history[|history| - 1].0.who == who && history[|history| - 1].0.name.Method? then 1 else 0
  }

  lemma NamedAfter(history: seq<(Key, int)>, x: (Key, int), who: Who, from: nat)
    requires from <= |history|
    ensures Named((history + [x])[from..], who) == Named(history[from..], who) + if x.0.Refused? && x.0.who == who && x.0.name.Method? then 1 else 0
  {
    assert (history + [x])[from..] == history[from..] + [x];
    assert (history[from..] + [x])[..|history[from..]|] == history[from..];
  }

  /** A guest's budget says how many names were recorded since it began, and that is never more than ten. */
  predicate Counts(w: World, who: Who, b: Budget) {
    who in w.began && w.began[who] <= |w.history| && b.n <= NAMES_PER_DAY && Named(w.history[w.began[who]..], who) == b.n
  }

  ghost predicate Budgeted(w: World) {
    Tidy(w.names, Opened(), w.now) && |w.names| <= MAX_KEYS && forall x <- w.names :: Counts(w, x.0, x.1)
  }

  lemma {:induction false} ReplaceMembers<K, V>(m: Ordered<K, V>, k: K, v: V, y: (K, V))
    ensures y in Replace(m, k, v) ==> y == (k, v) || (y in m && y.0 != k)
    ensures |Replace(m, k, v)| == |m|
  {
    if m != [] {
      ReplaceMembers(m[1..], k, v, y);
    }
  }

  lemma {:induction false} ReplaceTidy<K, V>(m: Ordered<K, V>, k: K, v: V, u: V, time: V -> int, now: int)
    requires Tidy(m, time, now) && ((k, u) in m || forall y <- m :: y.0 != k) && time(u) == time(v)
    ensures Tidy(Replace(m, k, v), time, now)
  {
    if m != [] {
      InTail(m, (k, u));
      InTail(m, m[0]);
      assert forall y <- m[1..] :: y in m;
      ReplaceTidy(m[1..], k, v, u, time, now);
      assert Replace(m, k, v)[1..] == Replace(m[1..], k, v);
      forall y | y in Replace(m[1..], k, v) ensures y.0 != Replace(m, k, v)[0].0 && time(Replace(m, k, v)[0].1) <= time(y.1) {
        ReplaceMembers(m[1..], k, v, y);
        if y == (k, v) { ReplacedWasThere(m[1..], k, v); }
      }
    }
  }

  lemma {:induction false} ReplacedWasThere<K, V>(m: Ordered<K, V>, k: K, v: V)
    requires exists y <- Replace(m, k, v) :: y.0 == k
    ensures exists y <- m :: y.0 == k
  {
    if m[0].0 != k {
      assert Replace(m, k, v)[1..] == Replace(m[1..], k, v);
      ReplacedWasThere(m[1..], k, v);
      var y :| y in m[1..] && y.0 == k;
      assert y in m;
    } else {
      assert m[0] in m;
    }
  }

  /** The budget a name is charged to, in place and counting. */
  lemma BudgetOpens(w: World, who: Who)
    requires Budgeted(w)
    ensures var open := WithBudget(w.names, who, w.now);
            var v := w.(names := open, began := if Fresh(w.names, who, w.now) then w.began[who := |w.history|] else w.began);
            Budgeted(v) && (who, BudgetOf(w.names, who, w.now)) in open
  {
    var v := w.(names := WithBudget(w.names, who, w.now), began := if Fresh(w.names, who, w.now) then w.began[who := |w.history|] else w.began);
    if Fresh(w.names, who, w.now) {
      PutLastTidy(w.names, who, Budget(w.now, 0), Opened(), w.now);
      forall x | x in v.names ensures Counts(v, x.0, x.1) {
        PutLastForgetsTheOldest(w.names, who, Budget(w.now, 0), Opened(), w.now, x, x);
        if x != (who, Budget(w.now, 0)) { assert Counts(w, x.0, x.1); }
      }
    } else {
      GetFinds(w.names, who);
    }
  }

  /** A line that is not due, or names no method of anyone's, leaves every budget as it is. */
  lemma LineBudgeted(w: World, key: Key)
    requires Budgeted(w) && (key.Refused? && key.name.Method? ==> !IsDue(w.last, key, DAY, w.now))
    ensures Budgeted(Line(w, key))
  {
    var v := Line(w, key);
    if v != w {
      forall x | x in v.names ensures Counts(v, x.0, x.1) {
        assert Counts(w, x.0, x.1);
        NamedAfter(w.history, (key, w.now), x.0, w.began[x.0]);
      }
    }
  }

  /** One charged by name moves its guest's budget on by one. */
  lemma NamedLineBudgeted(w: World, who: Who, name: Name, b: Budget)
    requires Budgeted(w) && (who, b) in w.names && b.n < NAMES_PER_DAY && name.Method? && IsDue(w.last, Refused(who, name), DAY, w.now)
    ensures Budgeted(Line(w.(names := Replace(w.names, who, Budget(b.since, b.n + 1))), Refused(who, name)))
  {
    var u := w.(names := Replace(w.names, who, Budget(b.since, b.n + 1)));
    var v := Line(u, Refused(who, name));
    ReplaceTidy(w.names, who, Budget(b.since, b.n + 1), b, Opened(), w.now);
    assert Counts(w, who, b);
    forall x | x in v.names ensures Counts(v, x.0, x.1) {
      ReplaceMembers(w.names, who, Budget(b.since, b.n + 1), x);
      if x.0 != who { assert Counts(w, x.0, x.1); }
      NamedAfter(w.history, (Refused(who, name), w.now), x.0, w.began[x.0]);
    }
    ReplaceMembers(w.names, who, Budget(b.since, b.n + 1), (who, b));
  }

  lemma RefusalBudgeted(w: World, who: Who, method_: string)
    requires Budgeted(w)
    ensures Budgeted(Apply(w, Refusal(who, method_)))
  {
    hide Budgeted, Line, PutLast, NamesAMethod;
    var name := Called(method_);
    var b := BudgetOf(w.names, who, w.now);
    BudgetOpens(w, who);
    if Charged(w.last, who, name, w.now) {
      var v := w.(names := WithBudget(w.names, who, w.now), began := if Fresh(w.names, who, w.now) then w.began[who := |w.history|] else w.began);
      if b.n >= NAMES_PER_DAY {
        LineBudgeted(v, Refused(who, Others));
      } else {
        NamedLineBudgeted(v, who, name, b);
      }
    } else {
      LineBudgeted(w, Refused(who, name));
    }
  }

  // ---- main results ------------------------------------------------------------------------

  ghost predicate Sound(w: World) { Remembers(w) && Budgeted(w) }

  lemma ChargeRemembers(w: World, who: Who, method_: string)
    requires Remembers(w)
    ensures Remembers(Charge(w, who, method_))
  {
  }

  lemma ApplySound(w: World, e: Event)
    requires Sound(w)
    ensures Sound(Apply(w, e))
  {
    hide Remembers, Budgeted, Line, Charge, NameFor;
    match e
    case Tick(ms) => TickSound(w, ms);
    case Visit(who) =>
      LineRemembers(w, Open(who));
      LineBudgeted(w, Open(who));
    case Refusal(who, method_) =>
      ChargeRemembers(w, who, method_);
      LineRemembers(Charge(w, who, method_), Refused(who, NameFor(w.last, w.names, who, method_, w.now)));
      RefusalBudgeted(w, who, method_);
  }

  lemma TickSound(w: World, ms: nat)
    requires Sound(w)
    ensures Sound(w.(now := w.now + ms))
  {
    var v := w.(now := w.now + ms);
    TidyLater(w.last, When(), w.now, v.now);
    TidyLater(w.names, Opened(), w.now, v.now);
    forall x | x in v.names ensures Counts(v, x.0, x.1) { assert Counts(w, x.0, x.1); }
  }

  lemma {:induction false} RunSound(w: World, events: seq<Event>)
    requires Sound(w)
    ensures Sound(Run(w, events))
    decreases |events|
  {
    hide Sound, Apply;
    if events != [] {
      ApplySound(w, events[0]);
      RunSound(Apply(w, events[0]), events[1..]);
    }
  }

  /** Both maps are capped, each key once, oldest first; and while a guest's budget is remembered, it covers at most ten names. */
  lemma CappedAndOldestFirst(start: int, events: seq<Event>, who: Who)
    ensures var w := Run(Start(start), events);
            |w.last| <= 2000 && |w.names| <= 2000 && Tidy(w.last, When(), w.now) && Tidy(w.names, Opened(), w.now) &&
            (Get(w.names, who).Some? ==> Counts(w, who, Get(w.names, who).value))
  {
    hide Run, Counts;
    RunSound(Start(start), events);
    var w := Run(Start(start), events);
    GetFinds(w.names, who);
  }

  /**
   * In every run, exactly when a refused method is recorded by its own name
   * (as far as its line's time is up): it is a method's name, and the guest's
   * budget has room, is a day old, or is not remembered.
   */
  lemma NamedExactly(start: int, events: seq<Event>, who: Who, method_: string)
    ensures var w := Run(Start(start), events);
            var budget := Get(w.names, who);
            NameFor(w.last, w.names, who, method_, w.now) == Method(method_) <==>
              && NamesAMethod(method_)
              && (IsDue(w.last, Refused(who, Method(method_)), DAY, w.now) && budget.Some? && w.now - budget.value.since < 86_400_000 ==>
                    who in w.began && w.began[who] <= |w.history| && Named(w.history[w.began[who]..], who) < 10)
  {
    hide Run, NamesAMethod;
    RunSound(Start(start), events);
    GetFinds(Run(Start(start), events).names, who);
  }

  /** A run goes on from where it was. */
  lemma {:induction false} RunGoesOn(w: World, events: seq<Event>, e: Event)
    ensures Run(w, events + [e]) == Apply(Run(w, events), e)
    decreases |events|
  {
    hide Apply;
    if events == [] {
      assert [e][1..] == [];
    } else {
      assert (events + [e])[1..] == events[1..] + [e];
      RunGoesOn(Apply(w, events[0]), events[1..], e);
    }
  }

  /** A line is written exactly when it is due: a visit once an hour, a refusal once a day. */
  lemma LinesExactly(w: World, key: Key, ms: nat)
    ensures Apply(w, Tick(ms)) == w.(now := w.now + ms)
    ensures var every := if key.Open? then 3_600_000 else 86_400_000;
            Line(w, key).history == w.history + if IsDue(w.last, key, every, w.now) then [(key, w.now)] else []
  {
    assert w.history + [] == w.history;
  }

  /** A line is written again only when its time is up, or its key had to be forgotten. */
  lemma RepeatsOnlyInTime(start: int, events: seq<Event>, key: Key)
    ensures var w := Run(Start(start), events);
            var before := LastLine(w.history, key);
            var every := if key.Open? then 3_600_000 else 86_400_000;
            (before.None? ==> IsDue(w.last, key, every, w.now)) &&
            (before.Some? && key !in w.forgotten ==> (IsDue(w.last, key, every, w.now) <==> w.now - before.value >= every))
  {
    hide Run;
    RunSound(Start(start), events);
    var w := Run(Start(start), events);
    var before := LastLine(w.history, key);
    GetFinds(w.last, key);
    if before.Some? && key !in w.forgotten {
      GetIs(w.last, key, before.value, When(), w.now);
    }
  }
}
