/**
 * Local accounts, one request at a time (src/api/accountsAuth.ts over the
 * store): exactly when each may begin, exactly when its second half goes
 * through after its await, and exactly what it changes.
 */
module AccountRequests {
  import opened Basics
  import opened Accounts

  /** The row of an account, but for what is named. */
  ghost predicate OthersStand(before: Rows, after: Rows, id: Id) {
    forall x :: x != id ==> (x in after <==> x in before) && (x in before ==> after[x] == before[x])
  }

  /** A claim code is good on this row: it is the one there, and its time is not up. */
  ghost predicate GoodClaim(rows: Rows, id: Id, code: nat, now: nat) {
    id in rows && exists exp :: rows[id].claim == Some(Claim(code, exp)) && now < exp
  }

  /**
   * Exactly which requests pass their first half: the first account while there
   * is none; a claim with a good code; a recovery while there is a code and the
   * account is not disabled; and for the others, an account that is there (with
   * a password, where the present one is asked for). Each remembers what it saw.
   */
  lemma BeginsExactly(w: World, e: Event, r: Request)
    ensures Begun(w, e) == Some(r) <==>
            match e
            case BeginBootstrap => r == Bootstrapping && w.rows.Keys == {}
            case BeginClaim(id, code) => r == Claiming(id, code) && GoodClaim(w.rows, id, code, w.now)
            case BeginRecover(id) => id in w.rows && !w.rows[id].disabled && r.Recovering? && r.id == id && w.rows[id].recovery == Some(r.checked)
            case BeginChange(id, own) => id in w.rows && r == Changing(id, own, w.rows[id].pw, |w.writes|) && (own ==> r.checked != 0)
            case BeginMakeCode(id) => id in w.rows && r == MakingCode(id, w.rows[id].pw, |w.writes|) && r.checked != 0
            case BeginFirstCode(id) => id in w.rows && w.rows[id].hostOwner && r == FirstCode(id)
            case _ => false
  {
    if e.BeginClaim? && e.id in w.rows && w.rows[e.id].claim.Some? {
      assert w.rows[e.id].claim == Some(Claim(w.rows[e.id].claim.value.code, w.rows[e.id].claim.value.exp));
    }
  }

  /** Exactly when a request's second half goes through. */
  lemma GoesThroughExactly(w: World, n: nat, r: Request)
    ensures Stored(w, n, r).Some? <==>
            match r
            case Bootstrapping => w.rows.Keys == {}
            case Claiming(id, code) => GoodClaim(w.rows, id, code, w.now)
            case Recovering(id, checked) => id in w.rows && !w.rows[id].disabled && w.rows[id].recovery == Some(checked)
            case Changing(id, own, checked, _) => id in w.rows && (own ==> checked == w.rows[id].pw)
            case MakingCode(id, checked, _) => id in w.rows && checked == w.rows[id].pw
            case FirstCode(id) => id in w.rows
  {
    if r.Claiming? && r.id in w.rows && w.rows[r.id].claim.Some? {
      assert w.rows[r.id].claim == Some(Claim(w.rows[r.id].claim.value.code, w.rows[r.id].claim.value.exp));
    }
  }

  /**
   * And what it changes: one account and no other. A password written takes
   * the claim code with it; a recovery code is new with a recovery or when one
   * is made; the first account is its maker's; nothing else of a row changes.
   */
  lemma StoresExactly(w: World, n: nat, r: Request)
    requires Stored(w, n, r).Some?
    ensures var after, id := Stored(w, n, r).value, if r.Bootstrapping? then n else r.id;
            && OthersStand(w.rows, after, id) && id in after
            && var row := after[id];
               && (r.Bootstrapping? ==> row.hostOwner && !row.disabled && row.epoch == 0)
               && (!r.Bootstrapping? ==> id in w.rows && row.hostOwner == w.rows[id].hostOwner && row.disabled == w.rows[id].disabled && row.epoch == w.rows[id].epoch)
               && (if r.MakingCode? || r.FirstCode? then row.pw == w.rows[id].pw && row.claim == w.rows[id].claim else row.pw == n && row.claim == None)
               && row.recovery == (if r.Claiming? || r.Changing? then w.rows[id].recovery else Some(n))
  {
  }

  /** What the owner, the command line and the clock do to an account and to no other. */
  lemma OutsideExactly(w: World, e: Event)
    ensures var v := Outside(w, e);
            match e
            case Tick(ms) => v == w.(now := w.now + ms)
            case Invite(exp, hostOwner) =>
              && OthersStand(w.rows, v.rows, w.next) && v.next == w.next + 1 && w.next in v.rows
              && v.rows[w.next].pw == 0 && v.rows[w.next].epoch == 0 && !v.rows[w.next].disabled && v.rows[w.next].hostOwner == hostOwner && v.rows[w.next].recovery == None
              && (GoodClaim(v.rows, w.next, w.next, w.now) <==> w.now < exp)
            case SendLink(id, exp) =>
              OthersStand(w.rows, v.rows, id) && (id in v.rows <==> id in w.rows) &&
              (id in w.rows ==> v.next == w.next + 1 && v.rows[id] == w.rows[id].(claim := Some(Claim(w.next, exp))))
            case SetDisabled(id, disabled) =>
              OthersStand(w.rows, v.rows, id) && (id in v.rows <==> id in w.rows) &&
              (id in w.rows ==> v.rows[id].disabled == disabled && v.rows[id] == w.rows[id].(disabled := disabled, epoch := v.rows[id].epoch) &&
                                v.rows[id].epoch == if disabled then w.rows[id].epoch + 1 else w.rows[id].epoch)
            case Remove(id) => OthersStand(w.rows, v.rows, id) && (id in v.rows <==> id in w.rows && w.rows[id].hostOwner)
            case _ => v == w
  {
  }

  /** A request begins, waits, and finishes once; what it stores and the record of it are all that changes then. */
  lemma RequestsExactly(w: World, e: Event)
    ensures Begun(w, e).Some? ==> Apply(w, e) == w.(requests := w.requests[w.next := Begun(w, e).value], next := w.next + 1)
    ensures e.Finish? && e.n !in w.requests ==> Apply(w, e) == w
    ensures e.Finish? && e.n in w.requests ==>
              var v, r := Apply(w, e), w.requests[e.n];
              var stored := Stored(w, e.n, r);
              && v.requests == w.requests - {e.n} && v.now == w.now && v.next == w.next
              && v.rows == (if stored.Some? then stored.value else w.rows)
              && v.bootstraps == w.bootstraps + (if stored.Some? && r.Bootstrapping? then 1 else 0)
              && v.claimed == w.claimed + (if stored.Some? && r.Claiming? then [r.code] else [])
              && v.spent == w.spent + (if stored.Some? && r.Recovering? then [r.checked] else [])
              && v.writes == w.writes + (if stored.Some? && !r.MakingCode? && !r.FirstCode? then [Write(if r.Bootstrapping? then e.n else r.id, e.n)] else [])
  {
    if e.Finish? && e.n in w.requests {
      var r := w.requests[e.n];
      SameRows(w, e.n, r);
      hide Stored;
      assert w.claimed + [] == w.claimed && w.spent + [] == w.spent && w.writes + [] == w.writes;
    }
  }

  lemma SameRows(w: World, n: nat, r: Request)
    ensures Stored(w.(requests := w.requests - {n}), n, r) == Stored(w, n, r)
  {
  }

  /** Exactly when a session signs its account in: the account is there and not disabled, the session's time is not up, and neither its password nor its sign-in epoch has changed. */
  lemma SignedInExactly(w: World, s: Session)
    ensures SignedIn(w, s) <==>
            s.id in w.rows && s == Session(s.id, s.exp, w.rows[s.id].pw, w.rows[s.id].epoch) && w.now <= s.exp && !w.rows[s.id].disabled
  {
  }

  /** A run goes on from where it was. */
  lemma {:induction false} RunGoesOn(w: World, events: seq<Event>, e: Event)
    ensures Run(w, events + [e]) == Apply(Run(w, events), e)
    decreases |events|
  {
    hide Apply;
    if events == [] {
      assert [e][1..] == [];
    } else {
      assert (events + [e])[1..] == events[1..] + [e];
      RunGoesOn(Apply(w, events[0]), events[1..], e);
    }
  }
}
