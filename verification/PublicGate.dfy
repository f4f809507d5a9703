/**
 * The gate at the public address (src/api/publicAccess.ts, with the classes of
 * src/api/publicRoutes.ts), over whole runs: what a pass that opens a step-up
 * route must have behind it, and what a change of someone's factors or a
 * sign-out ends.
 */
module PublicGate {
  import opened Basics
  import opened PublicPass

  datatype Class = Never | Open | SecondStep | MemberOnly | StepUp

  /** The rule a route falls under: its class and flags. */
  datatype Rule = Rule(cls: Class, firstFactorOk: bool, enrols: bool, noFactor: bool)

  /** secondFactorNeed's answer. */
  datatype Need = Yes | No | Missing | Guest

  datatype Reason =
    | NotHere | AuthRequired
    | OwnerMustEnrol | NoFactorWords | EnrolLink | GuestChatOnly | MustEnrolNow | MustEnrolNeedsLink
    | FactorRequired | NeedsFactor | StepUpAgain

  datatype Verdict = Admitted | Refused(why: Reason)

  /** What the store says about the person: need, owner rights, and whether this is among a chat-only guest's routes. */
  datatype Standing = Standing(need: Need, ownerRights: bool, guestMay: bool)

  /** guestMay names signed-in routes only, and the table's two first-factor rows both ask for an enrolment proof. */
  predicate FromTable(rule: Rule, who: Standing) {
    (rule.firstFactorOk ==> rule.enrols) && (who.guestMay ==> rule.cls == MemberOnly)
  }

  /** The second half of the gate, for a request carrying this pass. */
  function Gate(c: Config, s: State, rule: Rule, carried: Option<Pass>, who: Standing): Verdict {
    if rule.cls == Never then Refused(NotHere)
    else if rule.cls == Open then Admitted
    else if carried.None? || !Good(c, s, carried.value) then Refused(AuthRequired)
    else if rule.cls == SecondStep then Admitted
    else if who.need == Missing || who.need == Guest then WithoutFactor(s.now, rule, carried.value, who)
    else WithFactor(c, s.now, rule, carried.value, who, FactorAt(s, carried.value, OwnerOf(s, carried.value)))
  }

  /** Someone who has no usable second factor. */
  function WithoutFactor(now: int, rule: Rule, p: Pass, who: Standing): Verdict {
    if who.need == Missing && who.ownerRights then Refused(OwnerMustEnrol)
    else if who.need == Guest && who.guestMay then Admitted
    else if rule.noFactor then Refused(NoFactorWords)
    else if rule.cls == StepUp && rule.firstFactorOk then
      if rule.enrols && p.en <= now then Refused(EnrolLink) else Admitted
    else if who.need == Guest then Refused(GuestChatOnly)
    else if p.en > now then Refused(MustEnrolNow)
    else Refused(MustEnrolNeedsLink)
  }

  /** Someone who has one, or needs none. */
  function WithFactor(c: Config, now: int, rule: Rule, p: Pass, who: Standing, at: nat): Verdict {
    if who.need == Yes && at == 0 then Refused(FactorRequired)
    else if rule.cls != StepUp then Admitted
    else if who.need == No then
      if rule.firstFactorOk && rule.enrols && p.en <= now then Refused(EnrolLink)
      else if rule.firstFactorOk then Admitted
      else Refused(NeedsFactor)
    else if now - at > c.stepUp then Refused(StepUpAgain)
    else Admitted
  }

  /** stepUpRefusal: the same demand made inside a handler. */
  function StepUpRefusal(c: Config, s: State, carried: Option<Pass>, who: Standing): Option<Reason> {
    if carried.None? || !Good(c, s, carried.value) then Some(AuthRequired)
    else if who.need != Yes then Some(NeedsFactor)
    else
      var at := FactorAt(s, carried.value, OwnerOf(s, carried.value));
      if at == 0 || s.now - at > c.stepUp then Some(StepUpAgain) else None
  }

  // ---- what the gate asks for -----------------------------------------------------

  /** A current second factor, given recently. */
  predicate RecentFactor(c: Config, s: State, p: Pass)
    requires p.sess in s.owners
  {
    var at := FactorAt(s, p, OwnerOf(s, p));
    at > 0 && s.now - at <= c.stepUp
  }

  /** Exactly which requests a step-up route lets through. */
  lemma StepUpExactly(c: Config, s: State, rule: Rule, carried: Option<Pass>, who: Standing)
    requires rule.cls == StepUp && FromTable(rule, who)
    ensures Gate(c, s, rule, carried, who) == Admitted <==>
            carried.Some? && Good(c, s, carried.value) &&
            if who.need == Yes then RecentFactor(c, s, carried.value)
            else rule.firstFactorOk && carried.value.en > s.now &&
                 !(who.need == Missing && who.ownerRights) && !(who.need != No && rule.noFactor)
  {
  }

  /** A pass that may be used: issued, for a session that is someone's, not signed out, last seen no longer ago than it may be idle, and not from the future. */
  ghost predicate Usable(c: Config, s: State, p: Pass) {
    && p in s.issued && p.sess in s.owners && (p.sess, p.minted) !in s.revoked
    && p.seen + c.idle >= s.now && s.now + 60_000 >= p.seen
  }

  /** Its second factor counts: it was given, under the generation the person's factors have. */
  ghost predicate Counts(s: State, p: Pass)
    requires p.sess in s.owners
  {
    var o := s.owners[p.sess];
    p.sfAt > 0 && p.g == if o in s.gens then s.gens[o] else 0
  }

  /**
   * Exactly which requests the gate admits, class by class: nothing that is not
   * for the public address; anyone where no sign-in is asked for; any usable
   * pass where the second step is taken; and signed in, those who need no
   * factor, those whose factor counts, and guests on a guest's routes. On a
   * step-up route the factor has to be recent too, or a first one allowed.
   */
  lemma AdmittedExactly(c: Config, s: State, rule: Rule, carried: Option<Pass>, who: Standing)
    requires FromTable(rule, who)
    ensures Gate(c, s, rule, carried, who) == Admitted <==>
            match rule.cls
            case Never => false
            case Open => true
            case SecondStep => carried.Some? && Usable(c, s, carried.value)
            case MemberOnly => carried.Some? && Usable(c, s, carried.value) &&
                               (who.need == No || (who.need == Yes && Counts(s, carried.value)) || (who.need == Guest && who.guestMay))
            case StepUp => carried.Some? && Usable(c, s, carried.value) &&
                           (if who.need == Yes then Counts(s, carried.value) && carried.value.sfAt + c.stepUp >= s.now
                            else rule.firstFactorOk && carried.value.en > s.now &&
                                 (who.need == No || (!rule.noFactor && !(who.need == Missing && who.ownerRights))))
  {
  }

  /** And what the others are told: to sign in, to give the second factor, or to give it again. */
  lemma RefusedBecause(c: Config, s: State, rule: Rule, carried: Option<Pass>, who: Standing)
    requires rule.cls == SecondStep || rule.cls == MemberOnly || rule.cls == StepUp
    ensures !(carried.Some? && Usable(c, s, carried.value)) <==> Gate(c, s, rule, carried, who) == Refused(AuthRequired)
    ensures carried.Some? && Usable(c, s, carried.value) && who.need == Yes && rule.cls != SecondStep ==>
              && (!Counts(s, carried.value) <==> Gate(c, s, rule, carried, who) == Refused(FactorRequired))
              && (Counts(s, carried.value) && rule.cls == StepUp && carried.value.sfAt + c.stepUp < s.now
                  <==> Gate(c, s, rule, carried, who) == Refused(StepUpAgain))
  {
  }

  /** Someone with no factor yet is told what they have to do, or that this is not for them. */
  lemma WithoutFactorToldWhy(c: Config, s: State, rule: Rule, p: Pass, who: Standing)
    requires (rule.cls == MemberOnly || rule.cls == StepUp) && FromTable(rule, who) && Usable(c, s, p)
    ensures var told := Gate(c, s, rule, Some(p), who);
            var may := who.need == Guest && who.guestMay;
            var owner := who.need == Missing && who.ownerRights;
            var enrolling := rule.cls == StepUp && rule.firstFactorOk;
            var none := (who.need == Missing || who.need == Guest) && !may && !owner;
            && (told == Refused(OwnerMustEnrol) <==> owner)
            && (told == Refused(NoFactorWords) <==> none && rule.noFactor)
            && (told == Refused(EnrolLink) <==> enrolling && p.en <= s.now && (who.need == No || (none && !rule.noFactor)))
            && (told == Refused(GuestChatOnly) <==> none && !rule.noFactor && !enrolling && who.need == Guest)
            && (told == Refused(MustEnrolNow) <==> none && !rule.noFactor && !enrolling && who.need == Missing && p.en > s.now)
            && (told == Refused(MustEnrolNeedsLink) <==> none && !rule.noFactor && !enrolling && who.need == Missing && p.en <= s.now)
            && (told == Refused(NeedsFactor) <==> who.need == No && rule.cls == StepUp && !rule.firstFactorOk)
  {
  }

  /** A handler's own demand is never weaker than any step-up route's, and no stronger for someone with a factor. */
  lemma HandlerAgreesWithGate(c: Config, s: State, rule: Rule, carried: Option<Pass>, who: Standing)
    requires rule.cls == StepUp && FromTable(rule, who)
    ensures StepUpRefusal(c, s, carried, who) == None ==> Gate(c, s, rule, carried, who) == Admitted
    ensures Gate(c, s, rule, carried, who) == Admitted && who.need == Yes ==> StepUpRefusal(c, s, carried, who) == None
  {
  }

  // ---- runs -----------------------------------------------------------------------

  /** The generation of this person's factors. */
  ghost function Generation(s: State, o: Owner): nat { if o in s.gens then s.gens[o] else 0 }

  /**
   * Which pass a new session gets: fresh, with no factor, and with half an hour
   * to add a first one only if it was signed in to by something sent out of
   * band; but from a change of one's own password it takes over what its old
   * pass proved, as far as that still counts.
   */
  lemma SignsInExactly(c: Config, s: State, session: nat, o: Owner, how: SignIn)
    requires session in s.owners ==> s.owners[session] == o
    ensures var t := Apply(c, s, SignedIn(session, o, how));
            var mine := how.PasswordChange? && Usable(c, s, how.was) && s.owners[how.was.sess] == o;
            var sfAt := if mine && Counts(s, how.was) then how.was.sfAt else 0;
            var en := if how.ByProof? then s.now + 1_800_000 else if mine then how.was.en else 0;
            && t.issued == s.issued + {Pass(session, s.now, s.now, sfAt, 0 < sfAt, en, if how.PasswordChange? then Generation(s, o) else 0)}
            && t.owners == s.owners[session := o] && t.gens == s.gens && t.revoked == s.revoked && t.lapses == s.lapses
            && t.proofs == (if how.ByProof? then s.proofs + {Proof(o, s.now)} else s.proofs)
  {
  }

  /**
   * What a request with a usable pass does: it is seen (once a minute at most,
   * after the first time); a second factor given is stamped with now and the
   * present generation; a sign-out is kept in memory and, for its time, in the
   * database. Without one nothing happens.
   */
  lemma RequestsExactly(c: Config, s: State, p: Pass)
    ensures Apply(c, s, Use(p)) ==
            if Usable(c, s, p) then s.(issued := s.issued + {if p.used && s.now <= p.seen + 60_000 then p else p.(seen := s.now, used := true)}) else s
    ensures var t := Apply(c, s, FactorPassed(p));
            if Usable(c, s, p)
            then t == s.(vouched := t.vouched, issued := s.issued + {p.(seen := s.now, sfAt := s.now, g := Generation(s, s.owners[p.sess]))})
                 && t.vouched == s.vouched + {Vouch(s.owners[p.sess], Generation(s, s.owners[p.sess]), s.now)}
            else t == s
    ensures Apply(c, s, SignedOut(p)) ==
            if p in s.issued && p.sess in s.owners && (p.sess, p.minted) !in s.revoked
            then s.(revoked := s.revoked + {(p.sess, p.minted)}, lapses := s.lapses[(p.sess, p.minted) := s.now + c.remember])
            else s
  {
  }

  /**
   * A change of someone's factors: their generation moves on, nobody else's;
   * and of the passes only the one that came with it is stamped anew, if it is
   * theirs, usable, and its factor still counted. Time passes; and a process
   * that starts again has the sign-outs whose time is not up.
   */
  lemma ChangesExactly(c: Config, s: State, o: Owner, keep: Option<Pass>, ms: nat)
    ensures var t := Apply(c, s, FactorsChanged(o, keep));
            var kept := keep.Some? && Usable(c, s, keep.value) && s.owners[keep.value.sess] == o && Counts(s, keep.value);
            && t.gens == s.gens[o := Generation(s, o) + 1]
            && t.issued == (if kept then s.issued + {keep.value.(g := Generation(s, o) + 1)} else s.issued)
            && t.owners == s.owners && t.revoked == s.revoked && t.lapses == s.lapses && t.now == s.now
    ensures Apply(c, s, Tick(ms)) == s.(now := s.now + ms)
    ensures var t := Apply(c, s, Restarted);
            t == s.(revoked := t.revoked) && forall n :: n in t.revoked <==> n in s.lapses && s.now <= s.lapses[n]
  {
  }

  lemma {:induction false} RunKeeps(c: Config, s: State, events: seq<Event>)
    requires AllHonest(s) && Dated(s)
    ensures var t := Run(c, s, events); AllHonest(t) && Dated(t) && Grows(s, t)
    decreases |events|
  {
    hide AllHonest, Dated, Apply;
    if events == [] {
    } else {
      var t := Apply(c, s, events[0]);
      ApplyHonest(c, s, events[0]);
      ApplyGrows(c, s, events[0]);
      RunKeeps(c, t, events[1..]);
      GrowsOn(s, t, Run(c, t, events[1..]));
    }
  }

  /** A run goes on from where it was. */
  lemma {:induction false} RunGoesOn(c: Config, s: State, events: seq<Event>, e: Event)
    ensures Run(c, s, events + [e]) == Apply(c, Run(c, s, events), e)
    decreases |events|
  {
    hide Apply;
    if events == [] {
      assert [e][1..] == [];
    } else {
      assert (events + [e])[1..] == events[1..] + [e];
      RunGoesOn(c, Apply(c, s, events[0]), events[1..], e);
    }
  }

  lemma GrowsOn(s: State, t: State, u: State)
    requires Grows(s, t) && Grows(t, u)
    ensures Grows(s, u)
  {
    forall o | o in s.gens ensures Gen(s, o) <= Gen(u, o) {
      assert Gen(s, o) <= Gen(t, o);
      if o in t.gens { assert Gen(t, o) <= Gen(u, o); }
    }
  }

  /**
   * In every run, whatever passes anyone kept: a step-up route runs only for a
   * second factor vouched for under the person's present generation within the
   * step-up time, or, on a route that adds a first factor, for a pass that
   * stems from an out-of-band sign-in of that person in the last half hour.
   */
  lemma StepUpIsEarned(c: Config, events: seq<Event>, rule: Rule, p: Pass, who: Standing)
    requires rule.cls == StepUp && FromTable(rule, who)
    requires Gate(c, Run(c, START, events), rule, Some(p), who) == Admitted
    ensures var s := Run(c, START, events);
            p.sess in s.owners &&
            var o := OwnerOf(s, p);
            if who.need == Yes then Vouch(o, Gen(s, o), p.sfAt) in s.vouched && s.now - c.stepUp <= p.sfAt <= s.now
            else rule.firstFactorOk && exists x <- s.proofs :: x.owner == o && x.at <= s.now < x.at + 1_800_000
  {
    var s := Run(c, START, events);
    RunKeeps(c, START, events);
    StepUpExactly(c, s, rule, Some(p), who);
    assert Honest(s, p);
    if who.need != Yes {
      var x := Proof(OwnerOf(s, p), p.en - FIRST_FACTOR_WINDOW);
      assert x in s.proofs;
      assert x.owner == OwnerOf(s, p) && x.at <= s.now < x.at + 1_800_000;
    }
  }

  /**
   * In every run: someone who has a factor gets past a sign-in at the public
   * address (any route that asks for one) only with a second factor vouched
   * for under their present generation.
   */
  lemma SignedInIsEarned(c: Config, events: seq<Event>, rule: Rule, p: Pass, who: Standing)
    requires (rule.cls == MemberOnly || rule.cls == StepUp) && FromTable(rule, who) && who.need == Yes
    requires Gate(c, Run(c, START, events), rule, Some(p), who) == Admitted
    ensures var s := Run(c, START, events);
            p.sess in s.owners && Vouch(s.owners[p.sess], Gen(s, s.owners[p.sess]), p.sfAt) in s.vouched && p.sfAt <= s.now
  {
    var s := Run(c, START, events);
    RunKeeps(c, START, events);
    AdmittedExactly(c, s, rule, Some(p), who);
    hide Run;
    assert Honest(s, p);
  }

  // ---- a change of factors ----------------------------------------------------------

  /**
   * The passes that may still speak for a person after a change: the changing
   * request's own, re-stamped; any given a second factor since; and copies
   * made from those (refreshed, carried over a password change or a later change).
   */
  function Renewed(c: Config, s: State, live: set<Pass>, e: Event): set<Pass> {
    match e
    case FactorPassed(_) => live + Issued(c, s, e)
    case Use(p) => if p in live then live + Issued(c, s, e) else live
    case SignedIn(_, _, how) => if how.PasswordChange? && how.was in live then live + Issued(c, s, e) else live
    case FactorsChanged(_, keep) => if keep.Some? && keep.value in live then live + Issued(c, s, e) else live
    case _ => live
  }

  function RunRenewed(c: Config, s: State, live: set<Pass>, events: seq<Event>): set<Pass>
    decreases |events|
  {
    if events == [] then live else RunRenewed(c, Apply(c, s, events[0]), Renewed(c, s, live, events[0]), events[1..])
  }

  /** Only these passes count for this person. */
  predicate OnlyCount(s: State, o: Owner, live: set<Pass>) {
    forall p <- s.issued :: p.sess in s.owners && s.owners[p.sess] == o && FactorAt(s, p, o) > 0 ==> p in live
  }

  /** Each of them says a second factor given since then, or the one that was kept. */
  predicate Since(live: set<Pass>, t0: nat, kept: nat) {
    forall p <- live :: p.sfAt == 0 || p.sfAt >= t0 || p.sfAt == kept
  }

  lemma ApplyCounts(c: Config, s: State, o: Owner, live: set<Pass>, e: Event)
    requires AllHonest(s) && OnlyCount(s, o, live)
    ensures OnlyCount(Apply(c, s, e), o, Renewed(c, s, live, e))
  {
    var t := Apply(c, s, e);
    forall p | p in t.issued && p.sess in t.owners && t.owners[p.sess] == o && FactorAt(t, p, o) > 0
      ensures p in Renewed(c, s, live, e)
    {
      ApplyIssues(c, s, e);
      if p in s.issued {
        assert Honest(s, p);
        ApplyGrows(c, s, e);
        assert Gen(s, o) == Gen(t, o);
      } else {
        IssuedCounts(c, s, o, live, e, p);
      }
    }
  }

  lemma IssuedCounts(c: Config, s: State, o: Owner, live: set<Pass>, e: Event, p: Pass)
    requires AllHonest(s) && OnlyCount(s, o, live) && p in Issued(c, s, e)
    requires p.sess in Apply(c, s, e).owners && Apply(c, s, e).owners[p.sess] == o && FactorAt(Apply(c, s, e), p, o) > 0
    ensures p in Renewed(c, s, live, e)
  {
    match e
    case SignedIn(session, who, how) =>
      assert how.PasswordChange? && Good(c, s, how.was) && FactorAt(s, how.was, o) > 0;
      assert how.was in s.issued;
    case Use(q) => assert q in s.issued && FactorAt(s, q, o) > 0;
    case FactorPassed(q) =>
    case FactorsChanged(who, keep) => assert keep.value in s.issued && FactorAt(s, keep.value, o) > 0;
  }

  lemma ApplySince(c: Config, s: State, live: set<Pass>, e: Event, t0: nat, kept: nat)
    requires Since(live, t0, kept) && t0 <= s.now
    ensures Since(Renewed(c, s, live, e), t0, kept)
  {
    forall p | p in Renewed(c, s, live, e) ensures p.sfAt == 0 || p.sfAt >= t0 || p.sfAt == kept {
      if p !in live {
        match e
        case SignedIn(_, _, how) => assert how.was in live;
        case Use(q) => assert q in live;
        case FactorsChanged(_, keep) => assert keep.value in live;
        case FactorPassed(_) =>
      }
    }
  }

  lemma {:induction false} RunCounts(c: Config, s: State, o: Owner, live: set<Pass>, events: seq<Event>, t0: nat, kept: nat)
    requires AllHonest(s) && Dated(s) && OnlyCount(s, o, live) && Since(live, t0, kept) && t0 <= s.now
    ensures OnlyCount(Run(c, s, events), o, RunRenewed(c, s, live, events)) && Since(RunRenewed(c, s, live, events), t0, kept)
    decreases |events|
  {
    hide AllHonest, Dated, OnlyCount, Since, Apply, Renewed;
    if events != [] {
      var e := events[0];
      ApplyHonest(c, s, e);
      ApplyGrows(c, s, e);
      ApplyCounts(c, s, o, live, e);
      ApplySince(c, s, live, e, t0, kept);
      RunCounts(c, Apply(c, s, e), o, Renewed(c, s, live, e), events[1..], t0, kept);
    }
  }

  /**
   * Once a person's factors are reset or one is removed: however the run goes
   * on, no pass issued before, and no copy of one, counts as verified again.
   * What counts is the changing request's own pass, re-stamped (only if its
   * proof counted), and passes given a second factor since, with their copies.
   */
  lemma OldPassesNeverCountAgain(c: Config, before: seq<Event>, o: Owner, keep: Option<Pass>, after: seq<Event>, p: Pass)
    requires var s := Run(c, START, before);
             var t := Run(c, Changed(c, s, o, keep), after);
             p in t.issued && p.sess in t.owners && t.owners[p.sess] == o && FactorAt(t, p, o) > 0
    ensures var s := Run(c, START, before);
            var own := Issued(c, s, FactorsChanged(o, keep));
            p in RunRenewed(c, Changed(c, s, o, keep), own, after) &&
            (p.sfAt >= s.now || (own != {} && p.sfAt == keep.value.sfAt))
  {
    var s := Run(c, START, before);
    var e := FactorsChanged(o, keep);
    var own := Issued(c, s, e);
    var t := Apply(c, s, e);
    var kept := if own != {} then keep.value.sfAt else s.now;
    RunKeeps(c, START, before);
    ApplyHonest(c, s, e);
    ChangeClears(c, s, o, keep);
    RunCounts(c, t, o, own, after, s.now, kept);
  }

  /** Right after the change nothing counts but the request's own pass. */
  lemma ChangeClears(c: Config, s: State, o: Owner, keep: Option<Pass>)
    requires AllHonest(s)
    ensures OnlyCount(Changed(c, s, o, keep), o, Issued(c, s, FactorsChanged(o, keep)))
  {
    var t := Changed(c, s, o, keep);
    forall p | p in s.issued && p.sess in s.owners && s.owners[p.sess] == o ensures FactorAt(t, p, o) == 0 {
      assert Honest(s, p);
    }
    ApplyIssues(c, s, FactorsChanged(o, keep));
  }

  /** A new session counts as verified exactly when it comes of a password change by someone whose proof still counted. */
  lemma NewSessionsInheritOnlyCurrentProof(c: Config, s: State, session: nat, o: Owner, how: SignIn)
    requires session in s.owners ==> s.owners[session] == o
    ensures var t := Apply(c, s, SignedIn(session, o, how));
            var at := FactorAt(t, Minted(c, s, session, o, how), o);
            at > 0 <==> how.PasswordChange? && Good(c, s, how.was) && OwnerOf(s, how.was) == o && FactorAt(s, how.was, o) > 0
    ensures var t := Apply(c, s, SignedIn(session, o, how));
            FactorAt(t, Minted(c, s, session, o, how), o) in {0, if how.PasswordChange? then how.was.sfAt else 0}
  {
  }

  // ---- sign-out ----------------------------------------------------------------------

  /** The pass a request came with. */
  function Presented(e: Event): Option<Pass> {
    match e
    case Use(p) => Some(p)
    case FactorPassed(p) => Some(p)
    case FactorsChanged(_, keep) => keep
    case SignedOut(p) => Some(p)
    case _ => None
  }

  /** However a pass is made other than by signing in, it is a copy of the one presented, and keeps its sign-in's name. */
  lemma CopiesKeepTheName(c: Config, s: State, e: Event, q: Pass)
    requires q in Issued(c, s, e) && !e.SignedIn?
    ensures Presented(e).Some? && Presented(e).value in s.issued && NameOf(q) == NameOf(Presented(e).value)
  {
    match e
    case Use(p) =>
    case FactorPassed(p) =>
    case FactorsChanged(_, keep) =>
  }

  // ---- sign-outs over restarts ----------------------------------------------------

  /** How long a sign-out is remembered is longer than a pass may be idle (31 days at least, and 30 at most). */
  predicate Lasting(c: Config) { c.idle < c.remember }

  /** No pass says it is from later than now. */
  predicate Past(s: State) { forall p <- s.issued :: p.minted <= s.now && p.seen <= s.now }

  /** A sign-out on record: whoever forgot it since, every copy of its pass was last seen before it. */
  predicate OnRecord(c: Config, s: State, n: Name)
    requires n in s.lapses
  {
    var at := s.lapses[n] - c.remember;
    && n.1 <= at <= s.now && (n in s.revoked || s.lapses[n] < s.now)
    && forall p <- s.issued :: NameOf(p) == n ==> p.seen <= at
  }

  predicate Recorded(c: Config, s: State) { Past(s) && s.revoked <= s.lapses.Keys && forall n <- s.lapses :: OnRecord(c, s, n) }

  /** So it is refused: as signed out, or as idle. */
  lemma OnRecordIsRefused(c: Config, s: State, p: Pass)
    requires Lasting(c) && NameOf(p) in s.lapses && OnRecord(c, s, NameOf(p))
    ensures !Good(c, s, p)
  {
  }

  lemma IssuedIsPast(c: Config, s: State, e: Event, q: Pass)
    requires Past(s) && q in Issued(c, s, e)
    ensures q.minted <= s.now && q.seen <= s.now && (e.SignedIn? ==> q.minted == s.now)
  {
  }

  /** Nothing is issued for a sign-in on record, but by signing in again at that very moment. */
  lemma IssuedOnRecord(c: Config, s: State, e: Event, q: Pass)
    requires Lasting(c) && Recorded(c, s) && q in Issued(c, s, e) && NameOf(q) in s.lapses
    ensures q.seen <= s.lapses[NameOf(q)] - c.remember
  {
    IssuedIsPast(c, s, e, q);
    if !e.SignedIn? {
      CopiesKeepTheName(c, s, e, q);
      OnRecordIsRefused(c, s, Presented(e).value);
    }
  }

  lemma ApplyOnRecord(c: Config, s: State, e: Event, n: Name)
    requires Recorded(c, s) && n in Apply(c, s, e).lapses
    requires forall p <- Issued(c, s, e) :: NameOf(p) in s.lapses ==> p.seen <= s.lapses[NameOf(p)] - c.remember
    ensures OnRecord(c, Apply(c, s, e), n)
  {
    ApplyIssues(c, s, e);
    hide Issued, Good, Minted;
    if n in s.lapses { assert OnRecord(c, s, n); }
  }

  lemma ApplyRecords(c: Config, s: State, e: Event)
    requires Lasting(c) && Recorded(c, s)
    ensures Recorded(c, Apply(c, s, e)) && s.lapses.Keys <= Apply(c, s, e).lapses.Keys
  {
    ApplyIssues(c, s, e);
    forall p | p in Issued(c, s, e)
      ensures p.minted <= s.now && p.seen <= s.now
      ensures NameOf(p) in s.lapses ==> p.seen <= s.lapses[NameOf(p)] - c.remember
    {
      IssuedIsPast(c, s, e, p);
      if NameOf(p) in s.lapses { IssuedOnRecord(c, s, e, p); }
    }
    hide Issued, OnRecord;
    forall n | n in Apply(c, s, e).lapses ensures OnRecord(c, Apply(c, s, e), n) {
      ApplyOnRecord(c, s, e, n);
    }
  }

  lemma {:induction false} RunRecords(c: Config, s: State, events: seq<Event>)
    requires Lasting(c) && Recorded(c, s)
    ensures Recorded(c, Run(c, s, events)) && s.lapses.Keys <= Run(c, s, events).lapses.Keys
    decreases |events|
  {
    hide Recorded, Apply;
    if events != [] {
      ApplyRecords(c, s, events[0]);
      RunRecords(c, Apply(c, s, events[0]), events[1..]);
    }
  }

  /**
   * Signed out once, a sign-in is over for good: for every copy of its pass,
   * made before or since, and however often the process starts again and
   * forgets old sign-outs.
   */
  lemma SignOutIsFinal(c: Config, before: seq<Event>, p: Pass, after: seq<Event>, q: Pass, rule: Rule, who: Standing)
    requires Lasting(c)
    requires Bound(Run(c, START, before), p) && NameOf(q) == NameOf(p) && rule.cls != Open
    ensures Gate(c, Run(c, Apply(c, Run(c, START, before), SignedOut(p)), after), rule, Some(q), who).Refused?
  {
    hide Run;
    var s := Run(c, START, before);
    var t := Apply(c, s, SignedOut(p));
    RunRecords(c, START, before);
    ApplyRecords(c, s, SignedOut(p));
    RunRecords(c, t, after);
    assert NameOf(p) in t.lapses;
    OnRecordIsRefused(c, Run(c, t, after), q);
  }
}
