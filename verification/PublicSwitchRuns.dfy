/**
 * Whole runs of the public-access switch: any order of presses, steps, looks,
 * crashes and starts. What a start makes of the disk it finds, and exactly
 * when that is neither fully on nor fully off.
 */
module PublicSwitchRuns {
  import opened Basics
  import opened PublicSwitch

  datatype Event =
    | Crash | Boot | Sync
    | TurnOn | TurnOff
    | LookOver | ReadFunnel(c: Choice)
    | Advance(c: Choice)

  function Apply(w: World, t: Entry, e: Event): World {
    match e
    case Crash => World(w.disk, false, false, false, false, false, Idle, Away)
    case Boot => if w.up then w else Booted(w.disk)
    case Sync => if w.up && !w.switching then w.(listening := w.access) else w
    case TurnOn => if w.up && !w.switching then w.(pc := On(Note), switching := true) else w
    case TurnOff => if w.up && !w.switching then w.(pc := UndoFunnel(t), switching := true) else w
    case LookOver => Look(w)
    case ReadFunnel(c) => ReadOn(w, t, c)
    case Advance(c) => Step(w, t, c)
  }

  function Run(w: World, t: Entry, events: seq<Event>): World
    decreases |events|
  {
    if events == [] then w else Run(Apply(w, t, events[0]), t, events[1..])
  }

  // ---- fully on, fully off, and what may be in between ---------------------------

  predicate FullyOff(d: Disk, others: set<Entry>) { d == Disk(None, others, false, false) }

  predicate FullyOn(d: Disk, others: set<Entry>, t: Entry) { d == Disk(None, others + {t}, true, true) }

  /** The owner's other Funnel entries: none lands on the switch's port or is published at its public port. */
  predicate Apart(others: set<Entry>, t: Entry) {
    forall e <- others :: e.port != t.port && e.funnelPort != t.funnelPort
  }

  /** Setting and address go together, and stand on a Funnel entry. */
  predicate Whole(d: Disk, t: Entry) {
    d.access == d.url && (d.access ==> t in d.entries)
  }

  /** An "off" of a finished switch caught between taking Funnel's entry down and unsetting both settings. */
  predicate Torn(w: World, t: Entry) {
    w.disk.note == None &&
    (((w.pc.UndoEnv? || w.pc.UndoAccess?) && w.disk.access && t !in w.disk.entries) || (w.pc.UndoUrl? && w.disk.url))
  }

  predicate OnFits(w: World, t: Entry)
    requires w.pc.On?
  {
    if w.pc.at.Note? then (w.disk.note == None ==> Whole(w.disk, t)) && w.access == w.disk.access
    else w.disk.note == Some(t) &&
         (w.pc.at in {Url, SaveAccess, SaveUrl, Judge, Clear} ==> t in w.disk.entries) &&
         (w.pc.at in {SaveUrl, Judge, Clear} ==> w.disk.access && w.access) &&
         (w.pc.at in {Listen, Funnel, Url, SaveAccess} ==> w.access) &&
         (w.pc.at in {Judge, Clear} ==> w.disk.url)
  }

  predicate UndoFits(w: World, t: Entry)
    requires !w.pc.On?
  {
    match w.pc
    case UndoFunnel(target) => target == t && (w.disk.note == None ==> Whole(w.disk, t))
    case UndoEnv(_) => w.disk.note == None ==> w.disk.access == w.disk.url
    case UndoAccess(_) => !w.access && (w.disk.note == None ==> w.disk.access == w.disk.url)
    case UndoUrl(_) => !w.access && !w.disk.access
    case _ =>
      if w.pc == Idle then !w.switching && (w.disk.note == None ==> Whole(w.disk, t)) && (w.up ==> w.access == w.disk.access)
      else !w.access && !w.disk.access && !w.disk.url
  }

  /** The owner's other entries, and perhaps the switch's. */
  predicate EntriesAre(others: set<Entry>, t: Entry, entries: set<Entry>) { entries == others || entries == others + {t} }

  predicate DiskFits(d: Disk, others: set<Entry>, t: Entry) {
    (d.note == None || d.note == Some(t)) && EntriesAre(others, t, d.entries)
  }

  /** What every harmless run keeps. */
  predicate Fits(w: World, others: set<Entry>, t: Entry) {
    DiskFits(w.disk, others, t) && (if w.pc.On? then OnFits(w, t) else UndoFits(w, t)) &&
    (w.pc != Idle ==> w.up && w.switching) &&
    (w.reader != Away ==> w.up && !w.pc.On? && !w.access && !w.disk.access)
  }

  /** The two things that can leave the switch half on: a crash in the middle of "off", and an "on" begun while a look is past its guard. */
  predicate Harmless(w: World, t: Entry, e: Event) {
    !(e == Crash && Torn(w, t)) && !(e == TurnOn && w.reader != Away)
  }

  predicate HarmlessRun(w: World, t: Entry, events: seq<Event>)
    decreases |events|
  {
    events == [] || (Harmless(w, t, events[0]) && HarmlessRun(Apply(w, t, events[0]), t, events[1..]))
  }

  lemma EntriesFit(others: set<Entry>, t: Entry, entries: set<Entry>, c: Choice)
    requires Apart(others, t) && EntriesAre(others, t, entries)
    ensures Cleaned(entries, t) == others && Published(entries, t) == others + {t}
    ensures EntriesAre(others, t, FunnelOff(entries, t, c).0)
    ensures !c.Kept? ==> !FunnelOff(entries, t, c).1
    ensures !FunnelOff(entries, t, c).1 ==> FunnelOff(entries, t, c).0 == others
    ensures Stray(entries, t) <==> entries == others + {t} && t !in others
    ensures t !in others
  {
    assert t !in others;
    assert Cleaned(entries, t) == others;
    assert Published(entries, t) == others + {t};
    if t in entries {
      assert Stray(entries, t);
    }
    var left := FunnelOff(entries, t, c).0;
    if t in left {
      assert left == others + {t};
    } else {
      assert left == others;
    }
  }

  lemma OnStepFits(w: World, others: set<Entry>, t: Entry, c: Choice)
    requires Apart(others, t) && Fits(w, others, t) && w.pc.On?
    ensures Fits(OnStep(w, t, c), others, t)
  {
    EntriesFit(others, t, w.disk.entries, c);
    match w.pc.at
    case Note =>
    case Env =>
    case Listen =>
    case Funnel =>
    case Url =>
    case SaveAccess =>
    case SaveUrl =>
    case Judge =>
    case Clear =>
  }

  lemma UndoStepFits(w: World, others: set<Entry>, t: Entry, c: Choice)
    requires Apart(others, t) && Fits(w, others, t) && !w.pc.On?
    ensures Fits(UndoStep(w, c), others, t)
  {
    EntriesFit(others, t, w.disk.entries, c);
  }

  lemma ApplyFits(w: World, others: set<Entry>, t: Entry, e: Event)
    requires Apart(others, t) && Fits(w, others, t) && Harmless(w, t, e)
    ensures Fits(Apply(w, t, e), others, t)
  {
    match e
    case Advance(c) =>
      if w.pc.On? { OnStepFits(w, others, t, c); } else { UndoStepFits(w, others, t, c); }
    case ReadFunnel(c) => EntriesFit(others, t, w.disk.entries, c);
    case _ =>
  }

  /** Every harmless run, from wherever the switch may be, stays where recovery can work. */
  lemma {:induction false} RunFits(w: World, others: set<Entry>, t: Entry, events: seq<Event>)
    requires Apart(others, t) && Fits(w, others, t) && HarmlessRun(w, t, events)
    ensures Fits(Run(w, t, events), others, t)
    decreases |events|
  {
    hide Fits, Harmless, Apply;
    if events != [] {
      ApplyFits(w, others, t, events[0]);
      RunFits(Apply(w, t, events[0]), others, t, events[1..]);
    }
  }

  // ---- what a start makes of the disk --------------------------------------------

  /** A start on this disk: recovery runs before the listener opens. */
  function Started(d: Disk, t: Entry, a: Answers): Disk {
    Recovered(Booted(d), t, Plan(a), a.removal).disk
  }

  /** What recovery makes of each of the three disks it can find. */
  lemma StartOutcome(d: Disk, t: Entry, a: Answers)
    requires d.note in {None, Some(t)}
    ensures d.note == Some(t) ==>
              var off := FunnelOff(d.entries, t, a.removal);
              Started(d, t, a) == Disk(if off.1 then d.note else None, off.0, false, false)
    ensures d.note == None ==>
              Started(d, t, a) == if d.access || !Stray(d.entries, t) then d else d.(entries := FunnelOff(d.entries, t, a.removal).0)
  {
    hide Finish, Plan, FunnelOff, Stray;
    var w := Booted(d);
    if d.note == Some(t) {
      assert Look(w) == Undoing(w.(switching := true), t, true);
      UndoAsPlanned(w.(switching := true), t, true, a);
    } else {
      FinishSteps(Look(w), t, Plan(a));
    }
  }

  /**
   * What Tailscale is taken to do: made, the entry stands in place of any at
   * its public port; removed, nothing lands on the port or is published at the
   * public one any more; refused, it says so, and some of that is left. Other
   * entries stand.
   */
  lemma TailscaleDoes(entries: set<Entry>, t: Entry, c: Choice, e: Entry)
    ensures e in Published(entries, t) <==> e == t || (e in entries && e.funnelPort != t.funnelPort)
    ensures var (left, refused) := FunnelOff(entries, t, c);
            && (e.port != t.port && e.funnelPort != t.funnelPort ==> (e in left <==> e in entries))
            && (e.port == t.port || e.funnelPort == t.funnelPort ==> (e in left ==> e in entries && refused))
            && (refused ==> c == Kept(left))
            && (c == Kept(entries) ==> refused && left == entries)
  {
  }

  /** What a look comes to in a process at rest: nothing while a switch is under way; the note's switch taken back; a leftover entry removed while public access is off; and it is over. */
  lemma RecoverOutcome(w: World, t: Entry, a: Answers)
    requires w.up && w.pc == Idle && w.reader == Away
    ensures var v := Recovered(w, t, Plan(a), a.removal);
            if w.switching then v == w
            else if w.disk.note.Some? then
              var (left, refused) := FunnelOff(w.disk.entries, w.disk.note.value, a.removal);
              v == w.(access := false, url := false, listening := false, disk := Disk(if refused then w.disk.note else None, left, false, false))
            else if w.access || forall e <- w.disk.entries :: e.port != t.port then v == w
            else v == w.(disk := w.disk.(entries := FunnelOff(w.disk.entries, t, a.removal).0))
  {
    hide Finish, Plan, FunnelOff;
    if w.switching {
      FinishSteps(w, t, Plan(a));
    } else if w.disk.note.Some? {
      var target := w.disk.note.value;
      var begun := w.(switching := true);
      assert Look(w) == Undoing(begun, target, true);
      FinishIgnoresPorts(Undoing(begun, target, true), t, target, Plan(a));
      UndoAsPlanned(begun, target, true, a);
    } else {
      FinishSteps(Look(w), t, Plan(a));
    }
  }

  /** Tailscale lets go of what it is asked to. */
  predicate Cooperates(a: Answers) { !a.removal.Kept? }

  /**
   * A crash anywhere in a harmless run, then a start: the switch is fully on
   * or fully off, unless the crash tore an "off"; and fully on only when
   * nothing was left to undo.
   */
  lemma CrashEndsOnOrOff(w: World, others: set<Entry>, t: Entry, a: Answers)
    requires Apart(others, t) && Fits(w, others, t) && Cooperates(a)
    ensures var d := Started(w.disk, t, a);
            (FullyOn(d, others, t) || FullyOff(d, others) <==> !Torn(w, t)) &&
            (FullyOn(d, others, t) <==> w.disk.note == None && w.disk.access && w.disk.url && t in w.disk.entries)
  {
    EntriesFit(others, t, w.disk.entries, a.removal);
    StartOutcome(w.disk, t, a);
    DiskAtCrash(w, others, t);
    assert t in others + {t};
  }

  /** With no note, the disk is whole exactly when the process was not caught tearing down an "off". */
  lemma DiskAtCrash(w: World, others: set<Entry>, t: Entry)
    requires Fits(w, others, t)
    ensures w.disk.note == None ==> (Whole(w.disk, t) <==> !Torn(w, t))
  {
  }

  /** And every finished switch can be torn: "off", killed once Funnel's entry is down and before .env is written. */
  lemma OffCanBeTorn(w: World, others: set<Entry>, t: Entry, a: Answers)
    requires Apart(others, t) && w.up && w.pc == Idle && !w.switching && FullyOn(w.disk, others, t) && Cooperates(a)
    ensures var caught := Apply(Apply(w, t, TurnOff), t, Advance(Good));
            Torn(caught, t) && Started(caught.disk, t, a) == Disk(None, others, true, true)
  {
    EntriesFit(others, t, w.disk.entries, Good);
    StartOutcome(Apply(Apply(w, t, TurnOff), t, Advance(Good)).disk, t, a);
  }

  /** The same over whole runs: from fully off, through any harmless run with any number of crashes and starts in it. */
  lemma SwitchSurvivesCrashes(others: set<Entry>, t: Entry, events: seq<Event>, a: Answers)
    requires Apart(others, t) && Cooperates(a)
    requires HarmlessRun(Booted(Disk(None, others, false, false)), t, events)
    ensures var w := Run(Booted(Disk(None, others, false, false)), t, events);
            var d := Started(w.disk, t, a);
            (FullyOn(d, others, t) || FullyOff(d, others) <==> !Torn(w, t)) &&
            (w.pc == Idle && w.disk.note == None && t !in w.disk.entries ==> FullyOff(w.disk, others))
  {
    hide HarmlessRun, Run, Started;
    var w0 := Booted(Disk(None, others, false, false));
    RunFits(w0, others, t, events);
    CrashEndsOnOrOff(Run(w0, t, events), others, t, a);
  }

  /** What every run keeps, harmless or not: the owner's other entries, and no note but this switch's. */
  predicate AnyFits(w: World, others: set<Entry>, t: Entry) {
    DiskFits(w.disk, others, t) && (w.pc.UndoFunnel? ==> w.pc.target == t) && (w.pc == Idle ==> !w.switching)
  }

  lemma AnyOnStepFits(w: World, others: set<Entry>, t: Entry, c: Choice)
    requires Apart(others, t) && AnyFits(w, others, t) && w.pc.On?
    ensures AnyFits(OnStep(w, t, c), others, t)
  {
    EntriesFit(others, t, w.disk.entries, c);
    OnStepFrames(w, t, c);
    OnStepDisk(w, t, c);
    hide OnStep, Apart, Cleaned, Published, FunnelOff, Stray;
  }

  lemma RemovalDoes(others: set<Entry>, t: Entry, entries: set<Entry>, c: Choice)
    requires Apart(others, t) && EntriesAre(others, t, entries)
    ensures EntriesAre(others, t, FunnelOff(entries, t, c).0)
  {
    EntriesFit(others, t, entries, c);
  }

  lemma AnyUndoStepFits(w: World, others: set<Entry>, t: Entry, c: Choice)
    requires Apart(others, t) && AnyFits(w, others, t) && !w.pc.On?
    ensures AnyFits(UndoStep(w, c), others, t)
  {
    hide Apart, FunnelOff, Rank;
    if w.pc.UndoFunnel? { RemovalDoes(others, t, w.disk.entries, c); }
  }

  lemma AnyReadFits(w: World, others: set<Entry>, t: Entry, c: Choice)
    requires Apart(others, t) && AnyFits(w, others, t)
    ensures AnyFits(ReadOn(w, t, c), others, t)
  {
    hide Apart, FunnelOff, Stray;
    if w.reader.Saw? { RemovalDoes(others, t, w.disk.entries, c); }
  }

  lemma AnyApplyFits(w: World, others: set<Entry>, t: Entry, e: Event)
    requires Apart(others, t) && AnyFits(w, others, t)
    ensures AnyFits(Apply(w, t, e), others, t)
  {
    hide OnStep, UndoStep, ReadOn, Apart;
    match e
    case Advance(c) => if w.pc.On? { AnyOnStepFits(w, others, t, c); } else { AnyUndoStepFits(w, others, t, c); }
    case ReadFunnel(c) => AnyReadFits(w, others, t, c);
    case _ =>
  }

  lemma {:induction false} AnyRunFits(w: World, others: set<Entry>, t: Entry, events: seq<Event>)
    requires Apart(others, t) && AnyFits(w, others, t)
    ensures AnyFits(Run(w, t, events), others, t)
    decreases |events|
  {
    hide AnyFits, Apply;
    if events != [] {
      AnyApplyFits(w, others, t, events[0]);
      AnyRunFits(Apply(w, t, events[0]), others, t, events[1..]);
    }
  }

  /**
   * However a run went, a crash and a start end on or off exactly when there
   * was a note, or the settings went together and stood on an entry.
   */
  lemma AnyRunThenStart(w0: World, others: set<Entry>, t: Entry, events: seq<Event>, a: Answers)
    requires Apart(others, t) && AnyFits(w0, others, t) && Cooperates(a)
    ensures var before := Run(w0, t, events).disk;
            var d := Started(before, t, a);
            FullyOn(d, others, t) || FullyOff(d, others) <==> before.note == Some(t) || Whole(before, t)
  {
    hide Run, Started, FunnelOff, Stray;
    AnyRunFits(w0, others, t, events);
    var d := Run(w0, t, events).disk;
    EntriesFit(others, t, d.entries, a.removal);
    StartOutcome(d, t, a);
    assert t in others + {t};
  }

  /**
   * However a run went, torn crashes and lost races included: the owner's
   * other entries stand, and one "off" that Tailscale lets through, pressed
   * at rest, ends fully off.
   */
  lemma OffMendsAnyRun(w0: World, others: set<Entry>, t: Entry, events: seq<Event>, a: Answers)
    requires Apart(others, t) && AnyFits(w0, others, t) && Cooperates(a)
    ensures var w := Run(w0, t, events);
            && EntriesAre(others, t, w.disk.entries)
            && (w.up && w.pc == Idle ==> FullyOff(Finish(Apply(w, t, TurnOff), t, Plan(a)).disk, others))
  {
    AnyRunFits(w0, others, t, events);
    var w := Run(w0, t, events);
    if w.up && w.pc == Idle {
      hide Run, Finish, Plan;
      EntriesFit(others, t, w.disk.entries, a.removal);
      UndoAsPlanned(w.(switching := true), t, true, a);
    }
  }

  /** Recovering a second time changes nothing, whatever the first one found (a torn disk included). */
  lemma RecoveryIsIdempotent(d: Disk, others: set<Entry>, t: Entry, a: Answers, b: Answers)
    requires Apart(others, t) && DiskFits(d, others, t) && Cooperates(a)
    ensures Started(Started(d, t, a), t, b) == Started(d, t, a)
  {
    hide Started, FunnelOff, Stray;
    EntriesFit(others, t, d.entries, a.removal);
    StartOutcome(d, t, a);
    StartOutcome(Started(d, t, a), t, b);
    EntriesFit(others, t, others, b.removal);
  }

  /** The note of an unfinished switch stays exactly while Tailscale refuses; public access is off either way. */
  lemma NoteStaysWhileRefused(d: Disk, t: Entry, a: Answers)
    requires d.note == Some(t)
    ensures var after := Started(d, t, a);
            !after.access && !after.url && after.note == (if FunnelOff(d.entries, t, a.removal).1 then Some(t) else None)
  {
    StartOutcome(d, t, a);
  }

  /** Any number of refused starts, then one that Tailscale lets through: fully off. */
  function StartedOver(d: Disk, t: Entry, tries: seq<Answers>): Disk
    decreases |tries|
  {
    if tries == [] then d else StartedOver(Started(d, t, tries[0]), t, tries[1..])
  }

  lemma {:induction false} RefusalsAreOutlasted(d: Disk, others: set<Entry>, t: Entry, tries: seq<Answers>, last: Answers)
    requires Apart(others, t) && DiskFits(d, others, t) && Cooperates(last)
    requires d.note == Some(t) || FullyOff(d, others)
    ensures FullyOff(Started(StartedOver(d, t, tries), t, last), others)
    decreases |tries|
  {
    hide Started, FunnelOff, Stray;
    var a := if tries == [] then last else tries[0];
    EntriesFit(others, t, d.entries, a.removal);
    StartOutcome(d, t, a);
    if tries != [] {
      RefusalsAreOutlasted(Started(d, t, a), others, t, tries[1..], last);
    }
  }

  // ---- what pressing "on" comes to -------------------------------------------------

  /** Everything goes well up to and with the second judgement. */
  ghost predicate AllGood(a: Answers) {
    a.noted && a.listens == Good && a.funnels == Good && a.savesAccess == Good && a.savesUrl == Good && a.serves == Good
  }

  /** Nothing of the switch is left, anywhere, and its handler is done. */
  ghost predicate AllOff(w: World, others: set<Entry>) {
    FullyOff(w.disk, others) && !w.access && !w.url && !w.listening && w.pc == Idle && !w.switching
  }

  lemma UndoneIsOff(w: World, others: set<Entry>, t: Entry, funnel: bool, a: Answers)
    requires Apart(others, t) && Cooperates(a) && w.switching && DiskFits(w.disk, others, t) && (!funnel ==> w.disk.entries == others)
    ensures AllOff(Finish(Undoing(w, t, funnel), t, Plan(a)), others)
  {
    EntriesFit(others, t, w.disk.entries, a.removal);
    UndoAsPlanned(w, t, funnel, a);
  }

  /** From the settings on: everything is in place but them. */
  lemma SavesComeTo(w: World, others: set<Entry>, t: Entry, a: Answers)
    requires Apart(others, t) && Cooperates(a) && w.switching && w.pc == On(SaveAccess)
    requires w.disk == Disk(Some(t), others + {t}, false, false) && w.access && w.url && w.listening
    ensures var end := Finish(w, t, Plan(a));
            if a.savesAccess == Good && a.savesUrl == Good && a.serves == Good
            then end == Done(w.(disk := Disk(if a.clears then None else Some(t), others + {t}, true, true)))
            else AllOff(end, others)
  {
    var plan := Plan(a);
    hide Finish;
    FinishSteps(w, t, plan);
    if a.savesAccess != Good {
      UndoneIsOff(w, others, t, true, a);
    } else {
      var w1 := w.(disk := w.disk.(access := true), pc := On(SaveUrl));
      FinishSteps(w1, t, plan);
      if a.savesUrl != Good {
        UndoneIsOff(w1, others, t, true, a);
      } else {
        JudgeComesTo(w1.(disk := w1.disk.(url := true), pc := On(Judge)), others, t, a);
      }
    }
  }

  lemma JudgeComesTo(w: World, others: set<Entry>, t: Entry, a: Answers)
    requires Apart(others, t) && Cooperates(a) && w.switching && w.pc == On(Judge)
    requires w.disk == Disk(Some(t), others + {t}, true, true)
    ensures var end := Finish(w, t, Plan(a));
            if a.serves == Good then end == Done(w.(disk := w.disk.(note := if a.clears then None else Some(t)))) else AllOff(end, others)
  {
    hide Finish;
    FinishSteps(w, t, Plan(a));
    if a.serves != Good {
      UndoneIsOff(w, others, t, true, a);
    } else {
      var w1 := w.(pc := On(Clear));
      FinishSteps(w1, t, Plan(a));
      FinishSteps(OnStep(w1, t, Plan(a)(On(Clear))), t, Plan(a));
    }
  }

  /** Up to there: the listener, then Funnel. */
  lemma ListenComesTo(w: World, others: set<Entry>, t: Entry, a: Answers)
    requires Apart(others, t) && Cooperates(a) && w.switching && w.pc == On(Listen)
    requires w.disk == Disk(Some(t), others, false, false) && w.access
    ensures if a.listens == Good && a.funnels == Good
            then Finish(w, t, Plan(a)) ==
                 Finish(w.(disk := w.disk.(entries := others + {t}), url := true, listening := true, pc := On(SaveAccess)), t, Plan(a))
            else AllOff(Finish(w, t, Plan(a)), others)
  {
    hide Finish;
    FinishSteps(w, t, Plan(a));
    EntriesFit(others, t, others, Good);
    if a.listens != Good {
      UndoneIsOff(w, others, t, a.listens.Throws?, a);
    } else {
      var w1 := w.(listening := true, pc := On(Funnel));
      FinishSteps(w1, t, Plan(a));
      if a.funnels != Good {
        UndoneIsOff(w1, others, t, a.funnels.Throws?, a);
      } else {
        FinishSteps(w1.(disk := w.disk.(entries := others + {t}), pc := On(Url)), t, Plan(a));
      }
    }
  }

  /**
   * Pressed from fully off and run to its end, "on" leaves public access fully
   * on (setting, address, entry and listener) exactly when every step went
   * well, the second judgement too. If only clearing the note fails everything
   * is in place, and the note; after any other failure, whether a step says no
   * or throws, everything is off, listener and all.
   */
  lemma OnComesTo(w: World, others: set<Entry>, t: Entry, a: Answers)
    requires Apart(others, t) && Cooperates(a) && AllOff(w, others)
    ensures var end := Finish(w.(pc := On(Note), switching := true), t, Plan(a));
            if AllGood(a)
            then end == w.(disk := Disk(if a.clears then None else Some(t), others + {t}, true, true), access := true, url := true, listening := true)
            else AllOff(end, others)
    ensures var end := Finish(w.(pc := On(Note), switching := true), t, Plan(a));
            FullyOn(end.disk, others, t) <==> AllGood(a) && a.clears
  {
    var w0 := w.(pc := On(Note), switching := true);
    hide Finish, Plan;
    OnBegins(w0, t, a);
    assert t in others + {t};
    if a.noted {
      var w1 := w0.(disk := w.disk.(note := Some(t)), access := true, pc := On(Listen));
      ListenComesTo(w1, others, t, a);
      if a.listens == Good && a.funnels == Good {
        SavesComeTo(w1.(disk := w1.disk.(entries := others + {t}), url := true, listening := true, pc := On(SaveAccess)), others, t, a);
      }
    }
  }

  // ---- the look that does not take the flag ---------------------------------------

  /** At rest, on, and with nothing at Tailscale behind it. */
  predicate HalfOn(w: World, t: Entry) {
    w.pc == Idle && w.disk.note == None && w.disk.access && t !in w.disk.entries
  }

  /** "on" answered well at every step: as far as Funnel's entry, and the rest. */
  const UP_TO_FUNNEL: seq<Event> := [TurnOn, Advance(Good), Advance(Good), Advance(Good), Advance(Good)]
  const FROM_FUNNEL: seq<Event> := [Advance(Good), Advance(Good), Advance(Good), Advance(Good), Advance(Good)]

  /** The look's own steps around them: it reads once Funnel has the entry (if it has not read yet), and removes it at the end. */
  function Race(reader: Reader): seq<Event> {
    UP_TO_FUNNEL + ((if reader == Passed then [ReadFunnel(Good)] else []) + (FROM_FUNNEL + [ReadFunnel(Good)]))
  }

  lemma {:induction false} RunAppend(w: World, t: Entry, first: seq<Event>, second: seq<Event>)
    ensures Run(w, t, first + second) == Run(Run(w, t, first), t, second)
    decreases |first|
  {
    if first == [] {
      assert first + second == second;
    } else {
      assert (first + second)[1..] == first[1..] + second;
      RunAppend(Apply(w, t, first[0]), t, first[1..], second);
    }
  }

  /** A world at rest, fully off, whose look has got past its guard. */
  predicate OffWithLook(w: World, others: set<Entry>, t: Entry) {
    Apart(others, t) && w.up && w.pc == Idle && !w.switching && !w.access && FullyOff(w.disk, others) && w.reader != Away
  }

  lemma RaceToFunnel(w: World, others: set<Entry>, t: Entry)
    requires OffWithLook(w, others, t)
    ensures Run(w, t, UP_TO_FUNNEL) ==
            w.(disk := Disk(Some(t), others + {t}, false, false), access := true, listening := true, switching := true, pc := On(Url))
  {
    EntriesFit(others, t, w.disk.entries, Good);
    var w1 := w.(pc := On(Note), switching := true);
    var w2 := OnStep(w1, t, Good);
    var w3 := OnStep(w2, t, Good);
    var w4 := OnStep(w3, t, Good);
    var w5 := OnStep(w4, t, Good);
    RunFive(w, t, UP_TO_FUNNEL);
  }

  lemma RunFive(w: World, t: Entry, e: seq<Event>)
    requires |e| == 5
    ensures Run(w, t, e) == Apply(Apply(Apply(Apply(Apply(w, t, e[0]), t, e[1]), t, e[2]), t, e[3]), t, e[4])
  {
    hide Apply;
    var w2 := Apply(Apply(w, t, e[0]), t, e[1]);
    assert Run(w, t, e) == Run(w2, t, e[1..][1..]);
    var r := e[1..][1..];
    var w4 := Apply(Apply(w2, t, r[0]), t, r[1]);
    assert Run(w2, t, r) == Run(w4, t, r[1..][1..]);
    assert r[1..][1..] == [e[4]];
    assert [e[4]][1..] == [];
  }

  lemma RaceFromFunnel(w: World, others: set<Entry>, t: Entry)
    requires Apart(others, t) && w.pc == On(Url) && w.disk == Disk(Some(t), others + {t}, false, false) && w.access && w.reader == Saw
    ensures HalfOn(ReadOn(Run(w, t, FROM_FUNNEL), t, Good), t)
  {
    EntriesFit(others, t, w.disk.entries, Good);
    var w2 := OnStep(w, t, Good);
    var w3 := OnStep(w2, t, Good);
    var w4 := OnStep(w3, t, Good);
    var w5 := OnStep(w4, t, Good);
    var w6 := OnStep(w5, t, Good);
    assert w6.disk == Disk(None, others + {t}, true, true);
    RunFive(w, t, FROM_FUNNEL);
  }

  lemma RunOneRead(w: World, t: Entry, c: Choice)
    ensures Run(w, t, [ReadFunnel(c)]) == ReadOn(w, t, c)
  {
    var e := [ReadFunnel(c)];
    assert Run(w, t, e) == Run(Apply(w, t, e[0]), t, e[1..]);
  }

  lemma RunHead(w: World, t: Entry, events: seq<Event>)
    requires events != []
    ensures Run(w, t, events) == Run(Apply(w, t, events[0]), t, events[1..])
  {
  }

  /** From any such world the race is lost: the settings say on, and Tailscale publishes nothing. */
  lemma RaceLeavesHalfOn(w: World, others: set<Entry>, t: Entry)
    requires OffWithLook(w, others, t)
    ensures HalfOn(Run(w, t, Race(w.reader)), t)
  {
    hide Run, Apply, HalfOn;
    RaceToFunnel(w, others, t);
    var w1 := Run(w, t, UP_TO_FUNNEL);
    var rest := FROM_FUNNEL + [ReadFunnel(Good)];
    var read := if w.reader == Passed then [ReadFunnel(Good)] else [];
    RunAppend(w, t, UP_TO_FUNNEL, read + rest);
    RunAppend(w1, t, read, rest);
    var w2 := Run(w1, t, read);
    assert w2 == w1.(reader := Saw) by {
      RaceReads(w1, others, t);
    }
    RunAppend(w2, t, FROM_FUNNEL, [ReadFunnel(Good)]);
    RaceFromFunnel(w2, others, t);
    var w3 := Run(w2, t, FROM_FUNNEL);
    RunOneRead(w3, t, Good);
  }

  lemma RaceReads(w: World, others: set<Entry>, t: Entry)
    requires w.reader != Away && w.disk.entries == others + {t}
    ensures Run(w, t, if w.reader == Passed then [ReadFunnel(Good)] else []) == w.(reader := Saw)
  {
    assert t in others + {t};
    RunOneRead(w, t, Good);
  }

  lemma {:induction false} StepsAreHarmless(w: World, t: Entry, events: seq<Event>)
    requires forall e <- events :: e.Advance? || e.ReadFunnel?
    ensures HarmlessRun(w, t, events)
    decreases |events|
  {
    hide Apply;
    if events != [] {
      assert events[0] in events;
      assert forall e <- events[1..] :: e in events;
      StepsAreHarmless(Apply(w, t, events[0]), t, events[1..]);
    }
  }

  /**
   * Exactly when pressing "on" can leave the switch half on without any torn
   * crash: when a look was past its guard at the press.
   */
  lemma OnIsSafeIffNobodyLooks(w: World, others: set<Entry>, t: Entry)
    requires Apart(others, t) && w.up && w.pc == Idle && !w.switching && !w.access && FullyOff(w.disk, others)
    ensures w.reader != Away <==>
            exists events: seq<Event> :: HarmlessRun(Apply(w, t, TurnOn), t, events) && HalfOn(Run(Apply(w, t, TurnOn), t, events), t)
  {
    hide HarmlessRun, Run;
    var begun := Apply(w, t, TurnOn);
    if w.reader == Away {
      forall events: seq<Event> | HarmlessRun(begun, t, events) ensures !HalfOn(Run(begun, t, events), t) {
        ApplyFits(w, others, t, TurnOn);
        RunFits(begun, others, t, events);
      }
    } else {
      var events := Race(w.reader)[1..];
      RunHead(w, t, Race(w.reader));
      RaceLeavesHalfOn(w, others, t);
      StepsAreHarmless(begun, t, events);
    }
  }
}
