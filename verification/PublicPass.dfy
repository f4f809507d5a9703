/**
 * The public pass (src/api/publicAccess.ts): a signed cookie a browser holds
 * next to its session, saying when that sign-in was made and last seen, when
 * its second factor was given and under which generation of the person's
 * factors, and until when it may add a first factor. Signatures are ideal:
 * a pass is genuine when it was issued. Everyone keeps every cookie they were
 * ever given, and may present any of them with the session it names.
 */
module PublicPass {
  import opened Basics

  type Owner = string

  datatype Pass = Pass(sess: nat, minted: int, seen: int, sfAt: nat, used: bool, en: int, g: nat)

  /** A sign-in: the same for every refreshed copy of its pass. */
  type Name = (nat, int)

  function NameOf(p: Pass): Name { (p.sess, p.minted) }

  /** How long an idle pass lasts, how recent a second factor a step-up route wants, and how long a sign-out is remembered. */
  datatype Config = Config(idle: nat, stepUp: nat, remember: nat)

  const MINUTE: int := 60_000
  const FIRST_FACTOR_WINDOW: int := 30 * MINUTE

  /** A second factor on record: whose, under which generation, given when. */
  datatype Vouch = Vouch(owner: Owner, g: nat, at: nat)

  /** Something sent to this person out of band was used to sign in, then. */
  datatype Proof = Proof(owner: Owner, at: int)

  /**
   * The server (whose sessions are whose, generations, signed-out passes in
   * memory, and in the database until when each is kept), every pass it has
   * issued, and the record the theorems speak of: second factors given or
   * carried over a change, and out-of-band sign-ins.
   */
  datatype State = State(now: nat, owners: map<nat, Owner>, gens: map<Owner, nat>, revoked: set<Name>, lapses: map<Name, int>,
                         issued: set<Pass>, vouched: set<Vouch>, proofs: set<Proof>)

  function Gen(s: State, o: Owner): nat { if o in s.gens then s.gens[o] else 0 }

  /** boundPass: genuine, for a session that is someone's, and not signed out. */
  predicate Bound(s: State, p: Pass) {
    p in s.issued && p.sess in s.owners && NameOf(p) !in s.revoked
  }

  /** passOf: bound, and not idle. */
  predicate Good(c: Config, s: State, p: Pass) {
    Bound(s, p) && p.seen <= s.now + MINUTE && s.now - p.seen <= c.idle
  }

  function OwnerOf(s: State, p: Pass): Owner
    requires p.sess in s.owners
  {
    s.owners[p.sess]
  }

  /** When this pass's second factor was given, if it still counts (0: it does not). */
  function FactorAt(s: State, p: Pass, o: Owner): nat {
    if p.sfAt > 0 && p.g == Gen(s, o) then p.sfAt else 0
  }

  /** How a new session came about. */
  datatype SignIn = Plain | ByProof | PasswordChange(was: Pass)

  /** sessionMinted: the pass that goes with a new session. */
  function Minted(c: Config, s: State, session: nat, o: Owner, how: SignIn): Pass {
    match how
    case Plain => Pass(session, s.now, s.now, 0, false, 0, 0)
    case ByProof => Pass(session, s.now, s.now, 0, false, s.now + FIRST_FACTOR_WINDOW, 0)
    case PasswordChange(was) =>
      if Good(c, s, was) && OwnerOf(s, was) == o then
        var sfAt := FactorAt(s, was, o);
        Pass(session, s.now, s.now, sfAt, sfAt > 0, was.en, Gen(s, o))
      else Pass(session, s.now, s.now, 0, false, 0, Gen(s, o))
  }

  datatype Event =
    | Tick(ms: nat)
    | SignedIn(session: nat, owner: Owner, how: SignIn)
    | Use(p: Pass)
    | FactorPassed(p: Pass)
    | FactorsChanged(owner: Owner, keep: Option<Pass>)
    | SignedOut(p: Pass)
    | Restarted

  function Issue(s: State, p: Pass): State { s.(issued := s.issued + {p}) }

  /** The pass the gate sets again on a request that carries this one. */
  function Refreshed(s: State, p: Pass): Pass {
    if !p.used || s.now - p.seen > MINUTE then p.(seen := s.now, used := true) else p
  }

  /** secondFactorPassed. */
  function Given(s: State, p: Pass, o: Owner): Pass { p.(seen := s.now, sfAt := s.now, g := Gen(s, o)) }

  /** secondFactorsChanged: the generation goes up; the request's own proof, if it counted, is stamped with the new one. */
  function Changed(c: Config, s: State, o: Owner, keep: Option<Pass>): State {
    var g := Gen(s, o) + 1;
    var bumped := s.(gens := s.gens[o := g]);
    if keep.Some? && Good(c, s, keep.value) && OwnerOf(s, keep.value) == o && FactorAt(s, keep.value, o) > 0 then
      Issue(bumped, keep.value.(g := g)).(vouched := s.vouched + {Vouch(o, g, keep.value.sfAt)})
    else bumped
  }

  /** The sign-outs a new process reads from the database. */
  function Unlapsed(s: State): set<Name> { set n | n in s.lapses && s.lapses[n] >= s.now }

  function Apply(c: Config, s: State, e: Event): State {
    match e
    case Tick(ms) => s.(now := s.now + ms)
    case SignedIn(session, o, how) =>
      if session in s.owners && s.owners[session] != o then s
      else
        var minted := Issue(s, Minted(c, s, session, o, how)).(owners := s.owners[session := o]);
        if how.ByProof? then minted.(proofs := s.proofs + {Proof(o, s.now)}) else minted
    case Use(p) => if Good(c, s, p) then Issue(s, Refreshed(s, p)) else s
    case FactorPassed(p) =>
      if Good(c, s, p) then
        var o := OwnerOf(s, p);
        Issue(s, Given(s, p, o)).(vouched := s.vouched + {Vouch(o, Gen(s, o), s.now)})
      else s
    case FactorsChanged(o, keep) => Changed(c, s, o, keep)
    case SignedOut(p) => if Bound(s, p) then s.(revoked := s.revoked + {NameOf(p)}, lapses := s.lapses[NameOf(p) := s.now + c.remember]) else s
    case Restarted => s.(revoked := Unlapsed(s))
  }

  function Run(c: Config, s: State, events: seq<Event>): State
    decreases |events|
  {
    if events == [] then s else Run(c, Apply(c, s, events[0]), events[1..])
  }

  const START: State := State(0, map[], map[], {}, map[], {}, {}, {})

  // ---- what every run keeps -------------------------------------------------------

  /** A pass says only what the record bears out: a generation that has been, a factor that was vouched for, an enrolment time that stems from a proof. */
  predicate Honest(s: State, p: Pass) {
    p.sess in s.owners &&
    p.g <= Gen(s, s.owners[p.sess]) &&
    (p.sfAt > 0 ==> Vouch(s.owners[p.sess], p.g, p.sfAt) in s.vouched) &&
    (p.en > 0 ==> Proof(s.owners[p.sess], p.en - FIRST_FACTOR_WINDOW) in s.proofs)
  }

  predicate AllHonest(s: State) { forall p <- s.issued :: Honest(s, p) }

  /** The record only ever names the past. */
  predicate Dated(s: State) {
    (forall v <- s.vouched :: v.at <= s.now) && (forall x <- s.proofs :: 0 <= x.at <= s.now)
  }

  /** Nothing on the server's side goes back. */
  predicate Grows(s: State, t: State) {
    s.now <= t.now &&
    (forall k <- s.owners :: k in t.owners && t.owners[k] == s.owners[k]) &&
    (forall o <- s.gens :: Gen(s, o) <= Gen(t, o)) &&
    s.issued <= t.issued && s.vouched <= t.vouched && s.proofs <= t.proofs
  }

  lemma ApplyGrows(c: Config, s: State, e: Event)
    ensures Grows(s, Apply(c, s, e))
  {
  }

  lemma HonestGrows(s: State, t: State, p: Pass)
    requires Grows(s, t) && Honest(s, p)
    ensures Honest(t, p)
  {
  }

  /** The one pass an event adds, if any. */
  function Issued(c: Config, s: State, e: Event): set<Pass> {
    match e
    case SignedIn(session, o, how) => if session in s.owners && s.owners[session] != o then {} else {Minted(c, s, session, o, how)}
    case Use(p) => if Good(c, s, p) then {Refreshed(s, p)} else {}
    case FactorPassed(p) => if Good(c, s, p) then {Given(s, p, OwnerOf(s, p))} else {}
    case FactorsChanged(o, keep) =>
      if keep.Some? && Good(c, s, keep.value) && OwnerOf(s, keep.value) == o && FactorAt(s, keep.value, o) > 0
      then {keep.value.(g := Gen(s, o) + 1)} else {}
    case _ => {}
  }

  lemma ApplyIssues(c: Config, s: State, e: Event)
    ensures Apply(c, s, e).issued == s.issued + Issued(c, s, e)
  {
  }

  lemma IssuedIsHonest(c: Config, s: State, e: Event, p: Pass)
    requires AllHonest(s) && p in Issued(c, s, e)
    ensures Honest(Apply(c, s, e), p)
  {
    match e
    case SignedIn(session, o, how) =>
      if how.PasswordChange? && Good(c, s, how.was) { assert Honest(s, how.was); }
    case Use(q) => assert Honest(s, q);
    case FactorPassed(q) => assert Honest(s, q);
    case FactorsChanged(o, keep) => assert Honest(s, keep.value);
  }

  lemma ApplyHonest(c: Config, s: State, e: Event)
    requires AllHonest(s) && Dated(s)
    ensures AllHonest(Apply(c, s, e)) && Dated(Apply(c, s, e))
  {
    var t := Apply(c, s, e);
    forall p | p in t.issued ensures Honest(t, p) {
      ApplyIssues(c, s, e);
      if p in s.issued {
        ApplyGrows(c, s, e);
        HonestGrows(s, t, p);
      } else {
        IssuedIsHonest(c, s, e, p);
      }
    }
    ApplyDated(c, s, e);
  }

  lemma ApplyDated(c: Config, s: State, e: Event)
    requires AllHonest(s) && Dated(s)
    ensures Dated(Apply(c, s, e))
  {
    if e.FactorsChanged? && e.keep.Some? && Good(c, s, e.keep.value) {
      assert Honest(s, e.keep.value);
    }
  }

  // ---- the handlers, as the process runs them -------------------------------------

  class PublicAccess {
    const config: Config
    var now: nat
    var owners: map<nat, Owner>
    var gens: map<Owner, nat>
    var revoked: set<Name>
    var lapses: map<Name, int>
    ghost var issued: set<Pass>
    ghost var vouched: set<Vouch>
    ghost var proofs: set<Proof>

    ghost function Now(): State
      reads this
    {
      State.State(now, owners, gens, revoked, lapses, issued, vouched, proofs)
    }

    constructor (c: Config)
      ensures Now() == START && config == c
    {
      config, now, owners, gens, revoked, lapses, issued, vouched, proofs := c, 0, map[], map[], {}, map[], {}, {}, {};
    }

    /** passOf, for a cookie whose signature is genuine. */
    method PassOf(p: Pass) returns (ok: bool)
      requires p in issued
      ensures ok <==> Good(config, Now(), p)
    {
      ok := p.sess in owners && (p.sess, p.minted) !in revoked;
      if ok && (p.seen > now + MINUTE || now - p.seen > config.idle) { ok := false; }
    }

    method FactorGen(o: Owner) returns (g: nat)
      ensures g == Gen(Now(), o)
    {
      g := if o in gens then gens[o] else 0;
    }

    method SessionMinted(session: nat, o: Owner, how: SignIn) returns (cookie: Pass)
      requires session in owners ==> owners[session] == o
      requires how.PasswordChange? ==> how.was in issued
      modifies this
      ensures Now() == Apply(config, old(Now()), SignedIn(session, o, how)) && cookie in issued
      ensures cookie == Minted(config, old(Now()), session, o, how)
    {
      var sfAt, g, en := 0, 0, 0;
      if how.ByProof? { en := now + FIRST_FACTOR_WINDOW; }
      if how.PasswordChange? {
        var mine := PassOf(how.was);
        mine := mine && owners[how.was.sess] == o;
        g := FactorGen(o);
        if mine {
          if how.was.sfAt > 0 && how.was.g == g { sfAt := how.was.sfAt; }
          en := how.was.en;
        }
      }
      cookie := Pass(session, now, now, sfAt, sfAt > 0, en, g);
      owners := owners[session := o];
      issued := issued + {cookie};
      if how.ByProof? { proofs := proofs + {Proof(o, now)}; }
    }

    method SessionCleared(p: Pass)
      requires p in issued
      modifies this`revoked, this`lapses
      ensures Now() == Apply(config, old(Now()), SignedOut(p))
    {
      if p.sess in owners && (p.sess, p.minted) !in revoked {
        revoked := revoked + {(p.sess, p.minted)};
        lapses := lapses[(p.sess, p.minted) := now + config.remember];
      }
    }

    /** A new process on the same database. */
    method Restart()
      modifies this`revoked
      ensures Now() == Apply(config, old(Now()), Restarted)
    {
      var todo := lapses.Keys;
      revoked := {};
      while todo != {}
        invariant todo <= lapses.Keys
        invariant forall n :: n in revoked <==> n in lapses && n !in todo && lapses[n] >= now
        decreases todo
      {
        var n :| n in todo;
        if lapses[n] >= now { revoked := revoked + {n}; }
        todo := todo - {n};
      }
    }

    method SecondFactorPassed(p: Pass) returns (cookie: Option<Pass>)
      requires p in issued
      modifies this`issued, this`vouched
      ensures Now() == Apply(config, old(Now()), FactorPassed(p))
      ensures cookie == if Good(config, old(Now()), p) then Some(Given(old(Now()), p, owners[p.sess])) else None
    {
      var ok := PassOf(p);
      if !ok { return None; }
      var g := FactorGen(owners[p.sess]);
      cookie := Some(p.(seen := now, sfAt := now, g := g));
      issued := issued + {cookie.value};
      vouched := vouched + {Vouch(owners[p.sess], g, now)};
    }

    method SecondFactorsChanged(o: Owner, keep: Option<Pass>) returns (cookie: Option<Pass>)
      requires keep.Some? ==> keep.value in issued
      modifies this`gens, this`issued, this`vouched
      ensures Now() == Apply(config, old(Now()), FactorsChanged(o, keep))
      ensures (if cookie.Some? then {cookie.value} else {}) == Issued(config, old(Now()), FactorsChanged(o, keep))
    {
      var before := FactorGen(o);
      var kept := 0;
      if keep.Some? {
        var mine := PassOf(keep.value);
        if mine && owners[keep.value.sess] == o && keep.value.g == before { kept := keep.value.sfAt; }
      }
      gens := gens[o := before + 1];
      cookie := None;
      if kept > 0 {
        cookie := Some(keep.value.(sfAt := kept, g := before + 1));
        issued := issued + {cookie.value};
        vouched := vouched + {Vouch(o, before + 1, kept)};
      }
    }
  }
}
