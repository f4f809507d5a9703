/**
 * The public-access switch (src/api/reachRoutes.ts): turning it on is several
 * steps in places that cannot change together (Tailscale's Funnel entry, the
 * note beside .env, two settings in .env), and the process may die between
 * any two of them. What is on disk or at Tailscale outlives the process; the
 * environment, the listener and the `switching` flag do not.
 *
 * .env writes succeed or report that they did not, and funnelOn is
 * all-or-nothing; Tailscale may refuse to remove an entry at any time.
 */
module PublicSwitch {
  import opened Basics

  /** One of Funnel's entries: a port the internet reaches, and where it lands here. */
  datatype Entry = Entry(port: nat, funnelPort: nat)

  /** What outlives the process: the note of a switch under way (with its ports), Funnel's entries, the two settings. */
  datatype Disk = Disk(note: Option<Entry>, entries: set<Entry>, access: bool, url: bool)

  /** The steps of "on", in order. */
  datatype OnAt = Note | Env | Listen | Funnel | Url | SaveAccess | SaveUrl | Judge | Clear

  /** Where a handler has got to. `refused`: Tailscale kept its entry. */
  datatype Pc =
    | Idle
    | On(at: OnAt)
    | UndoFunnel(target: Entry) | UndoEnv(refused: bool) | UndoAccess(refused: bool) | UndoUrl(refused: bool)
    | UndoListen(refused: bool) | UndoNote(refused: bool)

  /** A `recover` that found no note and is on its way through its second half: past its guard, or past reading Funnel's entries. */
  datatype Reader = Away | Passed | Saw

  /** The machine: the disk, and a process (if it is up) with its environment, listener, flag, running handler and reader. */
  datatype World = World(disk: Disk, up: bool, access: bool, url: bool, listening: bool, switching: bool, pc: Pc, reader: Reader)

  /** A process that has just started on this disk: its environment is read from .env. */
  function Booted(disk: Disk): World {
    World(disk, true, disk.access, disk.url, false, false, Idle, Away)
  }

  /** How the step at hand turns out; `Kept` is Tailscale refusing, with what it left. */
  datatype Choice = Good | Bad | Throws | Kept(left: set<Entry>)

  /** Tailscale's entries with every one that lands on this port, or is published at this one, gone. */
  function Cleaned(entries: set<Entry>, t: Entry): set<Entry> {
    set e | e in entries && e.port != t.port && e.funnelPort != t.funnelPort
  }

  /** The entry made (in place of any at the same public port). */
  function Published(entries: set<Entry>, t: Entry): set<Entry> {
    (set e | e in entries && e.funnelPort != t.funnelPort) + {t}
  }

  /** funnelOff: all of them gone, or a refusal that leaves some. */
  function FunnelOff(entries: set<Entry>, t: Entry, c: Choice): (set<Entry>, bool) {
    if c.Kept? && Cleaned(entries, t) <= c.left <= entries then (c.left, true) else (Cleaned(entries, t), false)
  }

  function Done(w: World): World {
    w.(pc := Idle, switching := false)
  }

  function Rank(pc: Pc): nat {
    match pc
    case Idle => 0
    case UndoNote(_) => 1 case UndoListen(_) => 2 case UndoUrl(_) => 3
    case UndoAccess(_) => 4 case UndoEnv(_) => 5 case UndoFunnel(_) => 6
    case On(at) =>
      match at
      case Clear => 7 case Judge => 8 case SaveUrl => 9 case SaveAccess => 10 case Url => 11
      case Funnel => 12 case Listen => 13 case Env => 14 case Note => 15
  }

  /** One step of "on", for a switch with ports `t`. */
  function OnStep(w: World, t: Entry, c: Choice): (next: World)
    requires w.pc.On?
    ensures Rank(next.pc) < Rank(w.pc)
  {
    match w.pc.at
    case Note => if c.Good? then w.(disk := w.disk.(note := Some(t)), pc := On(Env)) else Done(w)
    case Env => w.(access := true, pc := On(Listen))
    case Listen => if c.Good? then w.(listening := true, pc := On(Funnel)) else w.(pc := if c.Throws? then UndoFunnel(t) else UndoEnv(false))
    case Funnel =>
      if c.Good? then w.(disk := w.disk.(entries := Published(w.disk.entries, t)), pc := On(Url))
      else w.(pc := if c.Throws? then UndoFunnel(t) else UndoEnv(false))
    case Url => w.(url := true, pc := On(SaveAccess))
    case SaveAccess => if c.Good? then w.(disk := w.disk.(access := true), pc := On(SaveUrl)) else w.(pc := UndoFunnel(t))
    case SaveUrl => if c.Good? then w.(disk := w.disk.(url := true), pc := On(Judge)) else w.(pc := UndoFunnel(t))
    case Judge => w.(pc := if c.Good? then On(Clear) else UndoFunnel(t))
    case Clear => Done(if c.Good? then w.(disk := w.disk.(note := None)) else w)
  }

  /** One step of the undo. */
  function UndoStep(w: World, c: Choice): (next: World)
    requires !w.pc.On?
    ensures w.pc != Idle ==> Rank(next.pc) < Rank(w.pc)
  {
    match w.pc
    case UndoFunnel(target) =>
      var (left, refused) := FunnelOff(w.disk.entries, target, c);
      w.(disk := w.disk.(entries := left), pc := UndoEnv(refused))
    case UndoEnv(refused) => w.(access := false, url := false, pc := UndoAccess(refused))
    case UndoAccess(refused) => w.(disk := w.disk.(access := false), pc := UndoUrl(refused))
    case UndoUrl(refused) => w.(disk := w.disk.(url := false), pc := UndoListen(refused))
    case UndoListen(refused) => w.(listening := false, pc := UndoNote(refused))
    case UndoNote(refused) => Done(if refused || c.Throws? then w else w.(disk := w.disk.(note := None)))
    case _ => w
  }

  /** One step of whichever handler is under way. */
  function Step(w: World, t: Entry, c: Choice): (next: World)
    ensures w.pc != Idle ==> Rank(next.pc) < Rank(w.pc)
  {
    if w.pc.On? then OnStep(w, t, c) else UndoStep(w, c)
  }

  /** What no step touches; and the last step lets go of the flag. */
  predicate Framed(w: World, next: World) {
    next.up == w.up && next.reader == w.reader && (next.pc == Idle ==> !next.switching)
  }

  lemma StepFrames(w: World, t: Entry, c: Choice)
    requires w.pc != Idle
    ensures Framed(w, Step(w, t, c))
  {
    if w.pc.On? {
      OnStepFrames(w, t, c);
    }
  }

  lemma OnStepFrames(w: World, t: Entry, c: Choice)
    requires w.pc.On?
    ensures Framed(w, OnStep(w, t, c))
  {
    hide Published, Rank;
    match w.pc.at
    case Note =>
    case Env =>
    case Listen =>
    case Funnel =>
    case Url =>
    case SaveAccess =>
    case SaveUrl =>
    case Judge =>
    case Clear =>
  }

  /** What a step of "on" may do to the disk, and whom it has undone. */
  lemma OnStepDisk(w: World, t: Entry, c: Choice)
    requires w.pc.On?
    ensures var v := OnStep(w, t, c);
            && (v.disk.entries == w.disk.entries || v.disk.entries == Published(w.disk.entries, t))
            && (v.disk.note == w.disk.note || v.disk.note == Some(t) || v.disk.note == None)
            && (v.pc.UndoFunnel? ==> v.pc.target == t)
  {
    hide Published, Rank;
    match w.pc.at
    case Note =>
    case Env =>
    case Listen =>
    case Funnel =>
    case Url =>
    case SaveAccess =>
    case SaveUrl =>
    case Judge =>
    case Clear =>
  }

  /** The handler run to its end; `plan` says how each of its steps turns out. */
  function Finish(w: World, t: Entry, plan: Pc -> Choice): World
    decreases Rank(w.pc)
  {
    hide OnStep, UndoStep, Rank;
    if w.pc.Idle? then w else Finish(Step(w, t, plan(w.pc)), t, plan)
  }

  predicate Stray(entries: set<Entry>, t: Entry) {
    exists e <- entries :: e.port == t.port
  }

  /** recover, up to where it first waits: nothing while a switch is under way; the note's switch taken back; else on to the leftover check. */
  function Look(w: World): World {
    if !w.up || w.switching then w
    else if w.disk.note.Some? then w.(pc := UndoFunnel(w.disk.note.value), switching := true)
    else if w.access || w.reader != Away then w
    else w.(reader := Passed)
  }

  /** Its next step once past that guard: read Funnel's entries, then remove one that lands on the port. */
  function ReadOn(w: World, t: Entry, c: Choice): World {
    match w.reader
    case Away => w
    case Passed => w.(reader := if Stray(w.disk.entries, t) then Saw else Away)
    case Saw => w.(disk := w.disk.(entries := FunnelOff(w.disk.entries, t, c).0), reader := Away)
  }

  /** recover from start to end with nothing in between. */
  function Recovered(w: World, t: Entry, plan: Pc -> Choice, c: Choice): World {
    var looked := Look(w);
    ReadOn(ReadOn(Finish(looked, t, plan), t, c), t, c)
  }

  // ---- the handlers, as the process runs them ----------------------------------

  /** How everything outside this process will answer one request: each step well, badly or by throwing. */
  datatype Answers = Answers(noted: bool, listens: Choice, funnels: Choice, savesAccess: Choice, savesUrl: Choice,
                             serves: Choice, clears: bool, removal: Choice)

  function Plan(a: Answers): Pc -> Choice {
    (pc: Pc) =>
      match pc
      case On(Note) => if a.noted then Good else Bad
      case On(Listen) => a.listens
      case On(Funnel) => a.funnels
      case On(SaveAccess) => a.savesAccess
      case On(SaveUrl) => a.savesUrl
      case On(Judge) => a.serves
      case On(Clear) => if a.clears then Good else Throws
      case UndoFunnel(_) => a.removal
      case _ => Good
  }

  /** The last five steps of the undo. */
  lemma UndoRuns(w: World, t: Entry, plan: Pc -> Choice, refused: bool)
    requires w.pc == UndoEnv(refused)
    ensures Finish(w, t, plan) ==
            Done(w.(access := false, url := false, listening := false,
                    disk := Disk(if refused || plan(UndoNote(refused)).Throws? then w.disk.note else None, w.disk.entries, false, false)))
  {
    var w1 := UndoStep(w, plan(w.pc));
    var w2 := UndoStep(w1, plan(w1.pc));
    var w3 := UndoStep(w2, plan(w2.pc));
    var w4 := UndoStep(w3, plan(w3.pc));
    var w5 := UndoStep(w4, plan(w4.pc));
    assert w4.pc == UndoNote(refused) && w5.pc == Idle;
    assert Finish(w4, t, plan) == w5;
    assert Finish(w3, t, plan) == w5;
    assert Finish(w2, t, plan) == w5;
    assert Finish(w1, t, plan) == w5;
  }

  /** What the whole undo leaves: nothing of the switch but an entry Tailscale kept, and then the note with it. */
  function Undone(w: World, target: Entry, funnel: bool, removal: Choice): World {
    var (left, refused) := if funnel then FunnelOff(w.disk.entries, target, removal) else (w.disk.entries, false);
    Done(w.(access := false, url := false, listening := false, disk := Disk(if refused then w.disk.note else None, left, false, false)))
  }

  /** The process at the undo's first step. */
  function Undoing(w: World, target: Entry, funnel: bool): World {
    w.(pc := if funnel then UndoFunnel(target) else UndoEnv(false))
  }

  lemma UndoOutcome(w: World, t: Entry, target: Entry, funnel: bool, plan: Pc -> Choice)
    requires !plan(UndoNote(true)).Throws? && !plan(UndoNote(false)).Throws?
    ensures Finish(Undoing(w, target, funnel), t, plan) == Undone(w, target, funnel, plan(UndoFunnel(target)))
  {
    var w0 := Undoing(w, target, funnel);
    if funnel {
      var w1 := UndoStep(w0, plan(w0.pc));
      assert Finish(w0, t, plan) == Finish(w1, t, plan);
      UndoRuns(w1, t, plan, w1.pc.refused);
    } else {
      UndoRuns(w0, t, plan, false);
    }
  }

  /** A handler that has run to its end has let go of the flag. */
  lemma {:induction false} FinishLetsGo(w: World, t: Entry, plan: Pc -> Choice)
    requires w.pc != Idle
    ensures var end := Finish(w, t, plan);
            end.pc == Idle && !end.switching && end.up == w.up && end.reader == w.reader
    decreases Rank(w.pc)
  {
    hide OnStep, UndoStep, Rank;
    var next := Step(w, t, plan(w.pc));
    StepFrames(w, t, plan(w.pc));
    assert Rank(next.pc) < Rank(w.pc);
    if next.pc != Idle {
      FinishLetsGo(next, t, plan);
    }
  }

  /** Once the undo has begun, the switch's own ports play no part. */
  lemma {:induction false} FinishIgnoresPorts(w: World, t: Entry, u: Entry, plan: Pc -> Choice)
    requires !w.pc.On?
    ensures Finish(w, t, plan) == Finish(w, u, plan)
    decreases Rank(w.pc)
  {
    if w.pc != Idle {
      FinishIgnoresPorts(Step(w, t, plan(w.pc)), t, u, plan);
    }
  }

  lemma FinishSteps(w: World, t: Entry, plan: Pc -> Choice)
    ensures Finish(w, t, plan) == if w.pc == Idle then w else Finish(Step(w, t, plan(w.pc)), t, plan)
  {
  }

  lemma UndoAsPlanned(w: World, t: Entry, funnel: bool, a: Answers)
    ensures Finish(Undoing(w, t, funnel), t, Plan(a)) == Undone(w, t, funnel, a.removal)
  {
    UndoOutcome(w, t, t, funnel, Plan(a));
  }

  lemma OnBegins(w: World, t: Entry, a: Answers)
    requires w.pc == On(Note) && w.switching
    ensures Finish(w, t, Plan(a)) ==
            if !a.noted then Done(w)
            else Finish(w.(disk := w.disk.(note := Some(t)), access := true, pc := On(Listen)), t, Plan(a))
  {
    hide Finish;
    FinishSteps(w, t, Plan(a));
    var w1 := Step(w, t, Plan(a)(On(Note)));
    FinishSteps(w1, t, Plan(a));
  }

  /**
   * The part of "on" that may throw, from `begun` to `end`: run to the end of
   * the handler (which has not let go of the flag yet), or thrown out of with
   * the undo of the catch still to do.
   */
  ghost predicate Ran(begun: World, end: World, threw: bool, t: Entry, a: Answers) {
    var fin := Finish(begun, t, Plan(a));
    if threw then fin == Finish(Undoing(end, t, true), t, Plan(a)) else end == fin.(switching := true)
  }

  class Reach {
    var note: Option<Entry>
    var entries: set<Entry>
    var envFileAccess: bool
    var envFileUrl: bool
    var access: bool
    var url: bool
    var listening: bool
    var switching: bool

    function State(): World
      reads this
    {
      World(Disk(note, entries, envFileAccess, envFileUrl), true, access, url, listening, switching, Idle, Away)
    }

    /** A process that starts on this disk. */
    constructor (disk: Disk)
      ensures State() == Booted(disk)
    {
      note, entries, envFileAccess, envFileUrl := disk.note, disk.entries, disk.access, disk.url;
      access, url, listening, switching := disk.access, disk.url, false, false;
    }

    /** Take everything a failed or finished "on" put in place back out. */
    method Undo(t: Entry, funnel: bool, a: Answers)
      modifies this
      ensures State() == Finish(Undoing(old(State()), t, funnel), t, Plan(a)).(switching := old(switching))
    {
      hide Finish, Undoing, Plan, FunnelOff;
      var refused := false;
      if funnel {
        var off := FunnelOff(entries, t, a.removal);
        entries, refused := off.0, off.1;
      }
      access, url := false, false;
      envFileAccess := false;
      envFileUrl := false;
      listening := false;
      if !refused { note := None; }
      UndoAsPlanned(old(State()), t, funnel, a);
    }

    /** POST /v1/public-access/on, past its guards: a step that throws is caught, and undone with Funnel. */
    method TurnOn(t: Entry, a: Answers)
      requires !switching
      modifies this
      ensures State() == Finish(old(State()).(pc := On(Note), switching := true), t, Plan(a))
    {
      hide Finish, Plan;
      switching := true;
      ghost var begun := State().(pc := On(Note));
      FinishLetsGo(begun, t, Plan(a));
      OnBegins(begun, t, a);
      if a.noted {
        note := Some(t);
        access := true;
        var threw := TurnOnAtListen(t, a);
        if threw { Undo(t, true, a); }
      }
      switching := false;
    }

    /** The same once the switch is noted. */
    method TurnOnAtListen(t: Entry, a: Answers) returns (threw: bool)
      requires switching
      modifies this
      ensures Ran(old(State()).(pc := On(Listen)), State(), threw, t, a)
    {
      hide Finish;
      FinishSteps(State().(pc := On(Listen)), t, Plan(a));
      if a.listens.Throws? { return true; }
      if !a.listens.Good? {
        Undo(t, false, a);
        return false;
      }
      listening := true;
      threw := TurnOnAtFunnel(t, a);
    }

    /** The same once the listener is open. */
    method TurnOnAtFunnel(t: Entry, a: Answers) returns (threw: bool)
      requires switching
      modifies this
      ensures Ran(old(State()).(pc := On(Funnel)), State(), threw, t, a)
    {
      hide Finish;
      ghost var w := State().(pc := On(Funnel));
      FinishSteps(w, t, Plan(a));
      if a.funnels.Throws? { return true; }
      if !a.funnels.Good? {
        Undo(t, false, a);
        return false;
      }
      FinishSteps(Step(w, t, a.funnels), t, Plan(a));
      entries := Published(entries, t);
      url := true;
      threw := TurnOnAtSave(t, a);
    }

    /** The same once Funnel publishes the listener. */
    method TurnOnAtSave(t: Entry, a: Answers) returns (threw: bool)
      requires switching
      modifies this
      ensures Ran(old(State()).(pc := On(SaveAccess)), State(), threw, t, a)
    {
      hide Finish;
      FinishSteps(State().(pc := On(SaveAccess)), t, Plan(a));
      if a.savesAccess.Throws? { return true; }
      if !a.savesAccess.Good? {
        Undo(t, true, a);
        return false;
      }
      envFileAccess := true;
      threw := TurnOnAtSaveUrl(t, a);
    }

    method TurnOnAtSaveUrl(t: Entry, a: Answers) returns (threw: bool)
      requires switching
      modifies this
      ensures Ran(old(State()).(pc := On(SaveUrl)), State(), threw, t, a)
    {
      hide Finish;
      FinishSteps(State().(pc := On(SaveUrl)), t, Plan(a));
      if a.savesUrl.Throws? { return true; }
      if !a.savesUrl.Good? {
        Undo(t, true, a);
        return false;
      }
      envFileUrl := true;
      threw := TurnOnAtJudge(t, a);
    }

    /** The same once the settings are saved. A note that cannot be cleared stays: nothing is undone any more. */
    method TurnOnAtJudge(t: Entry, a: Answers) returns (threw: bool)
      requires switching
      modifies this
      ensures Ran(old(State()).(pc := On(Judge)), State(), threw, t, a)
    {
      hide Finish;
      ghost var w := State().(pc := On(Judge));
      FinishSteps(w, t, Plan(a));
      if a.serves.Throws? { return true; }
      if !a.serves.Good? {
        Undo(t, true, a);
        return false;
      }
      ghost var w1 := Step(w, t, a.serves);
      FinishSteps(w1, t, Plan(a));
      FinishSteps(Step(w1, t, Plan(a)(On(Clear))), t, Plan(a));
      if a.clears { note := None; }
      threw := false;
    }

    /** recover, at start or when the owner looks. */
    method Recover(t: Entry, a: Answers)
      modifies this
      ensures State() == Recovered(old(State()), t, Plan(a), a.removal)
    {
      if switching { return; }
      if note.Some? {
        var target := note.value;
        switching := true;
        ghost var w := State().(pc := UndoFunnel(target));
        FinishLetsGo(w, t, Plan(a));
        FinishIgnoresPorts(w, t, target, Plan(a));
        Undo(target, true, a);
        switching := false;
        return;
      }
      if access || !Stray(entries, t) { return; }
      entries := FunnelOff(entries, t, a.removal).0;
    }

    /** POST /v1/public-access/off, past its guards: the undo, whatever is there. */
    method TurnOff(t: Entry, a: Answers)
      requires !switching
      modifies this
      ensures State() == Finish(old(State()).(pc := UndoFunnel(t), switching := true), t, Plan(a))
    {
      switching := true;
      FinishLetsGo(State().(pc := UndoFunnel(t)), t, Plan(a));
      Undo(t, true, a);
      switching := false;
    }
  }
}
