/**
 * Local accounts (src/api/accountsAuth.ts over the store's compare-and-swap
 * updates): requests that hash a password for a while between looking at an
 * account and changing it, in every interleaving. Hashes are salted, and
 * codes and ids random: each is new, drawn here from one counter.
 */
module Accounts {
  import opened Basics

  type Id = nat
  type Hash = nat

  /** No password yet (pw_hash is ''). */
  const NO_PASSWORD: Hash := 0

  datatype Claim = Claim(code: nat, exp: nat)

  datatype Account = Account(pw: Hash, claim: Option<Claim>, recovery: Option<Hash>, disabled: bool, hostOwner: bool, epoch: nat)

  type Rows = map<Id, Account>

  // ---- the store's one-step updates -----------------------------------------------

  /** localAccountByClaim finds this row: the code is on it, and live. */
  predicate Live(rows: Rows, id: Id, code: nat, now: nat) {
    id in rows && rows[id].claim.Some? && rows[id].claim.value.code == code && rows[id].claim.value.exp > now
  }

  /** setLocalAccountPassword: with `ifHash`, only while the stored hash is that one. */
  function SetPassword(rows: Rows, id: Id, pw: Hash, ifHash: Option<Hash>): Option<Rows> {
    if id !in rows || (ifHash.Some? && rows[id].pw != ifHash.value) then None
    else Some(rows[id := rows[id].(pw := pw, claim := None)])
  }

  /** recoverLocalAccount: only while the code that was checked is still the account's, and it is not disabled. */
  function Recover(rows: Rows, id: Id, spent: Hash, pw: Hash, recovery: Hash): Option<Rows> {
    if id !in rows || rows[id].recovery != Some(spent) || rows[id].disabled then None
    else Some(rows[id := rows[id].(pw := pw, claim := None, recovery := Some(recovery))])
  }

  /** setLocalAccountRecovery, likewise. */
  function SetRecovery(rows: Rows, id: Id, recovery: Hash, ifHash: Option<Hash>): Option<Rows> {
    if id !in rows || (ifHash.Some? && rows[id].pw != ifHash.value) then None
    else Some(rows[id := rows[id].(recovery := Some(recovery))])
  }

  /** The end of a claim: the code is looked up again, and burned with the password it sets. */
  function ClaimWith(rows: Rows, id: Id, code: nat, now: nat, pw: Hash): Option<Rows> {
    if Live(rows, id, code, now) then Some(rows[id := rows[id].(pw := pw, claim := None)]) else None
  }

  /** The end of a bootstrap: "no accounts yet" is asked again in the transaction that makes the first. */
  function Bootstrap(rows: Rows, id: Id, pw: Hash, recovery: Hash): Option<Rows> {
    if rows != map[] then None else Some(map[id := Account(pw, None, Some(recovery), false, true, 0)])
  }

  class Store {
    var rows: Rows

    constructor ()
      ensures rows == map[]
    {
      rows := map[];
    }

    method SetLocalAccountPassword(id: Id, pw: Hash, ifHash: Option<Hash>) returns (stored: bool)
      modifies this
      ensures var after := SetPassword(old(rows), id, pw, ifHash);
              stored == after.Some? && rows == if stored then after.value else old(rows)
    {
      if id !in rows { return false; }
      var row := rows[id];
      if ifHash.Some? && row.pw != ifHash.value { return false; }
      rows := rows[id := Account(pw, None, row.recovery, row.disabled, row.hostOwner, row.epoch)];
      return true;
    }

    method RecoverLocalAccount(id: Id, spent: Hash, pw: Hash, recovery: Hash) returns (stored: bool)
      modifies this
      ensures var after := Recover(old(rows), id, spent, pw, recovery);
              stored == after.Some? && rows == if stored then after.value else old(rows)
    {
      if id !in rows { return false; }
      var row := rows[id];
      if row.recovery != Some(spent) || row.disabled { return false; }
      rows := rows[id := Account(pw, None, Some(recovery), false, row.hostOwner, row.epoch)];
      return true;
    }

    /** What the claim handler does after its await. */
    method FinishClaim(id: Id, code: nat, now: nat, pw: Hash) returns (claimed: bool)
      modifies this
      ensures var after := ClaimWith(old(rows), id, code, now, pw);
              claimed == after.Some? && rows == if claimed then after.value else old(rows)
    {
      if !Live(rows, id, code, now) { return false; }
      claimed := SetLocalAccountPassword(id, pw, None);
    }

    /** What the bootstrap handler does after its awaits. */
    method FinishBootstrap(id: Id, pw: Hash, recovery: Hash) returns (made: bool)
      modifies this
      ensures var after := Bootstrap(old(rows), id, pw, recovery);
              made == after.Some? && rows == if made then after.value else old(rows)
    {
      if |rows| > 0 { return false; }
      rows := rows[id := Account(pw, None, None, false, true, 0)];
      rows := rows[id := rows[id].(recovery := Some(recovery))];
      return true;
    }
  }

  // ---- requests under way ------------------------------------------------------------

  /**
   * A handler past its first half, with what it looked at. `seen`: how many
   * passwords had been written by then. `FirstCode` is the recovery code a
   * machine owner's first claim goes on to store, whatever has happened since.
   */
  datatype Request =
    | Bootstrapping
    | Claiming(id: Id, code: nat)
    | Recovering(id: Id, checked: Hash)
    | Changing(id: Id, own: bool, checked: Hash, seen: nat)
    | MakingCode(id: Id, checked: Hash, seen: nat)
    | FirstCode(id: Id)

  /** It stores a recovery code and no password. */
  predicate OnlyCode(r: Request) { r.MakingCode? || r.FirstCode? }

  /** A password written: whose, and its hash. */
  datatype Write = Write(id: Id, pw: Hash)

  /**
   * The rows, the clock and the requests under way, each by a number of its
   * own: that number stands for every fresh value the request will store (its
   * password's hash, its recovery code's, its account's id). Then the record:
   * passwords written, first accounts made, codes used.
   */
  datatype World = World(rows: Rows, now: nat, next: nat, requests: map<nat, Request>,
                         writes: seq<Write>, bootstraps: nat, claimed: seq<nat>, spent: seq<Hash>)

  datatype Event =
    | Tick(ms: nat)
    | BeginBootstrap
    | BeginClaim(id: Id, code: nat)
    | BeginRecover(id: Id)
    | BeginChange(id: Id, own: bool)
    | BeginMakeCode(id: Id)
    | BeginFirstCode(id: Id)
    | Finish(n: nat)
    | Invite(exp: nat, hostOwner: bool)
    | SendLink(id: Id, exp: nat)
    | SetDisabled(id: Id, disabled: bool)
    | Remove(id: Id)

  /** A handler's first half: what it will go on with, if its checks pass. */
  function Begun(w: World, e: Event): Option<Request> {
    match e
    case BeginBootstrap => if w.rows == map[] then Some(Bootstrapping) else None
    case BeginClaim(id, code) => if Live(w.rows, id, code, w.now) then Some(Claiming(id, code)) else None
    case BeginRecover(id) =>
      if id in w.rows && w.rows[id].recovery.Some? && !w.rows[id].disabled then Some(Recovering(id, w.rows[id].recovery.value)) else None
    case BeginChange(id, own) =>
      if id in w.rows && (own ==> w.rows[id].pw != NO_PASSWORD) then Some(Changing(id, own, w.rows[id].pw, |w.writes|)) else None
    case BeginMakeCode(id) =>
      if id in w.rows && w.rows[id].pw != NO_PASSWORD then Some(MakingCode(id, w.rows[id].pw, |w.writes|)) else None
    case BeginFirstCode(id) => if id in w.rows && w.rows[id].hostOwner then Some(FirstCode(id)) else None
    case _ => None
  }

  /** What a handler's second half makes of the rows, if it goes through; nothing is awaited in it. */
  function Stored(w: World, n: nat, r: Request): Option<Rows> {
    match r
    case Bootstrapping => Bootstrap(w.rows, n, n, n)
    case Claiming(id, code) => ClaimWith(w.rows, id, code, w.now, n)
    case Recovering(id, checked) => Recover(w.rows, id, checked, n, n)
    case Changing(id, own, checked, _) => SetPassword(w.rows, id, n, if own then Some(checked) else None)
    case MakingCode(id, checked, _) => SetRecovery(w.rows, id, n, Some(checked))
    case FirstCode(id) => SetRecovery(w.rows, id, n, None)
  }

  /** Whose password it writes. */
  function Target(n: nat, r: Request): Id {
    match r
    case Bootstrapping => n
    case _ => r.id
  }

  function End(w: World, n: nat, r: Request): World {
    var after := Stored(w, n, r);
    if after.None? then w
    else
      var v := w.(rows := after.value, writes := if OnlyCode(r) then w.writes else w.writes + [Write(Target(n, r), n)]);
      match r
      case Bootstrapping => v.(bootstraps := w.bootstraps + 1)
      case Claiming(_, code) => v.(claimed := w.claimed + [code])
      case Recovering(_, checked) => v.(spent := w.spent + [checked])
      case _ => v
  }

  /** What the owner, the command line and the clock do at once. */
  function Outside(w: World, e: Event): World {
    match e
    case Tick(ms) => w.(now := w.now + ms)
    case Invite(exp, hostOwner) =>
      w.(rows := w.rows[w.next := Account(NO_PASSWORD, Some(Claim(w.next, exp)), None, false, hostOwner, 0)], next := w.next + 1)
    case SendLink(id, exp) =>
      if id in w.rows then w.(rows := w.rows[id := w.rows[id].(claim := Some(Claim(w.next, exp)))], next := w.next + 1) else w
    case SetDisabled(id, disabled) =>
      if id in w.rows then
        w.(rows := w.rows[id := w.rows[id].(disabled := disabled, epoch := if disabled then w.rows[id].epoch + 1 else w.rows[id].epoch)])
      else w
    case Remove(id) => if id in w.rows && !w.rows[id].hostOwner then w.(rows := w.rows - {id}) else w
    case _ => w
  }

  function Apply(w: World, e: Event): World {
    if e.Finish? then
      if e.n in w.requests then End(w.(requests := w.requests - {e.n}), e.n, w.requests[e.n]) else w
    else if Begun(w, e).Some? then w.(requests := w.requests[w.next := Begun(w, e).value], next := w.next + 1)
    else Outside(w, e)
  }

  function Run(w: World, events: seq<Event>): World
    decreases |events|
  {
    if events == [] then w else Run(Apply(w, events[0]), events[1..])
  }

  const START: World := World(map[], 0, 1, map[], [], 0, [], [])

  // ---- what every run keeps ------------------------------------------------------------

  /** A number that was drawn, and not by a request still under way. */
  predicate Used(w: World, x: nat) { x < w.next && x !in w.requests }

  /** Numbers are drawn once. */
  predicate Numbered(w: World) {
    (forall n <- w.requests :: 0 < n < w.next) && 0 < w.next &&
    (forall id <- w.rows :: Used(w, id) && Used(w, w.rows[id].pw)) &&
    (forall x <- w.writes :: Used(w, x.pw) && x.pw != NO_PASSWORD && Used(w, x.id))
  }

  /** A used claim code is on no row; and no code is on two. */
  predicate ClaimsOnce(w: World) {
    (forall i <- w.rows, j <- w.rows :: w.rows[i].claim.Some? && w.rows[j].claim.Some? && w.rows[i].claim.value.code == w.rows[j].claim.value.code ==> i == j) &&
    (forall i <- w.rows :: w.rows[i].claim.Some? ==> w.rows[i].claim.value.code < w.next && w.rows[i].claim.value.code !in w.claimed) &&
    (forall c <- w.claimed :: c < w.next) &&
    (forall i, j :: 0 <= i < j < |w.claimed| ==> w.claimed[i] != w.claimed[j])
  }

  /** The same for recovery codes. */
  predicate CodesOnce(w: World) {
    (forall i <- w.rows, j <- w.rows :: w.rows[i].recovery.Some? && w.rows[i].recovery == w.rows[j].recovery ==> i == j) &&
    (forall i <- w.rows :: w.rows[i].recovery.Some? ==> Used(w, w.rows[i].recovery.value) && w.rows[i].recovery.value !in w.spent) &&
    (forall h <- w.spent :: Used(w, h)) &&
    (forall i, j :: 0 <= i < j < |w.spent| ==> w.spent[i] != w.spent[j])
  }

  /** The last password written to this account. */
  function Last(writes: seq<Write>, id: Id): Hash {
    if writes == [] then NO_PASSWORD
    else if writes[|writes| - 1].id == id then writes[|writes| - 1].pw
    else Last(writes[..|writes| - 1], id)
  }

  /** It remembers the password it looked at; and it will only store if that is still the account's. */
  predicate Looked(r: Request) { r.Changing? || r.MakingCode? }
  predicate Conditional(r: Request) { (r.Changing? && r.own) || r.MakingCode? }

  /** Rows hold what was last written to them, and a change under way knows what was there when it looked. */
  predicate Written(w: World) {
    (forall i, j :: 0 <= i < j < |w.writes| ==> w.writes[i].pw != w.writes[j].pw) &&
    (forall id <- w.rows :: w.rows[id].pw == Last(w.writes, id)) &&
    (forall n <- w.requests :: Looked(w.requests[n]) ==>
       w.requests[n].seen <= |w.writes| && (Conditional(w.requests[n]) ==> w.requests[n].checked != NO_PASSWORD) && w.requests[n].checked == Last(w.writes[..w.requests[n].seen], w.requests[n].id))
  }

  /** The first account is made once, and stays. */
  predicate FirstOnce(w: World) {
    w.bootstraps <= 1 && (w.bootstraps == 1 ==> exists id <- w.rows :: w.rows[id].hostOwner)
  }

  predicate Sound(w: World) { Numbered(w) && ClaimsOnce(w) && CodesOnce(w) && Written(w) && FirstOnce(w) }

  /** The world as a finishing request finds it: no longer under way. */
  function Taken(w: World, n: nat): World
    requires n in w.requests
  {
    w.(requests := w.requests - {n})
  }

  /** At most one row changes, and only to the finishing request's own values. */
  predicate OneRow(rows: Rows, n: nat, t: Id, after: Rows) {
    t in after && after == rows[t := after[t]] &&
    if t in rows then
      after[t].hostOwner == rows[t].hostOwner &&
      (after[t].claim == None || after[t].claim == rows[t].claim) &&
      (after[t].recovery == Some(n) || after[t].recovery == rows[t].recovery) &&
      (after[t].pw == n || after[t].pw == rows[t].pw)
    else t == n && rows == map[] && after[t] == Account(n, None, Some(n), false, true, 0)
  }

  lemma StoredShape(w: World, n: nat, r: Request)
    ensures var after := Stored(w, n, r);
            after.Some? ==> OneRow(w.rows, n, Target(n, r), after.value) && (OnlyCode(r) || after.value[Target(n, r)].pw == n)
    ensures var after := Stored(w, n, r);
            after.Some? && r.Recovering? ==> Target(n, r) in w.rows && w.rows[Target(n, r)].recovery == Some(r.checked) && after.value[Target(n, r)].recovery == Some(n)
    ensures var after := Stored(w, n, r);
            after.Some? && r.Claiming? ==>
              Target(n, r) in w.rows && w.rows[Target(n, r)].claim.Some? && w.rows[Target(n, r)].claim.value.code == r.code && after.value[Target(n, r)].claim == None
    ensures Stored(w, n, r).Some? && OnlyCode(r) ==> Target(n, r) in w.rows && Stored(w, n, r).value[Target(n, r)].pw == w.rows[Target(n, r)].pw
    ensures Stored(w, n, r).Some? && r.Bootstrapping? ==> w.rows == map[]
    ensures Stored(w, n, r).Some? && Target(n, r) in w.rows ==> Stored(w, n, r).value[Target(n, r)].epoch == w.rows[Target(n, r)].epoch
  {
  }

  lemma EndNumbered(w: World, n: nat)
    requires Numbered(w) && n in w.requests
    ensures Numbered(End(Taken(w, n), n, w.requests[n]))
  {
    hide Stored;
    var t := Taken(w, n);
    assert Numbered(t);
    StoredShape(t, n, w.requests[n]);
  }

  lemma EndClaims(w: World, n: nat)
    requires Numbered(w) && ClaimsOnce(w) && n in w.requests
    ensures ClaimsOnce(End(Taken(w, n), n, w.requests[n]))
  {
    hide Stored, Numbered;
    StoredShape(Taken(w, n), n, w.requests[n]);
  }

  lemma EndCodes(w: World, n: nat)
    requires Numbered(w) && CodesOnce(w) && n in w.requests
    ensures CodesOnce(End(Taken(w, n), n, w.requests[n]))
  {
    hide Stored;
    assert 0 < n < w.next;
    hide Numbered;
    hide End, OneRow, CodesOnce, Target;
    var r := w.requests[n];
    var t := Taken(w, n);
    StoredShape(t, n, r);
    EndFields(t, n, r);
    EarlierCodes(w, n);
    if Stored(t, n, r).Some? {
      RowCodes(t, n, Target(n, r), Stored(t, n, r).value, if r.Recovering? then [r.checked] else []);
    }
    SameCodes(End(t, n, r), if Stored(t, n, r).None? then t else t.(rows := Stored(t, n, r).value, spent := t.spent + if r.Recovering? then [r.checked] else []));
  }

  lemma EndFields(w: World, n: nat, r: Request)
    ensures var v := End(w, n, r); var after := Stored(w, n, r);
            v.requests == w.requests && v.next == w.next &&
            v.rows == (if after.Some? then after.value else w.rows) &&
            v.spent == w.spent + if after.Some? && r.Recovering? then [r.checked] else []
  {
  }

  lemma EarlierCodes(w: World, n: nat)
    requires CodesOnce(w) && n in w.requests && 0 < n < w.next
    ensures CodesOnce(Taken(w, n)) && CodesOnce(Taken(w, n).(requests := Taken(w, n).requests[n := Bootstrapping]))
  {
  }

  lemma SameCodes(v: World, u: World)
    requires v.rows == u.rows && v.spent == u.spent && v.requests == u.requests && v.next == u.next && CodesOnce(u)
    ensures CodesOnce(v)
  {
  }

  /** Codes stay apart when one row takes a fresh one, or keeps its own. */
  lemma RowCodes(w: World, n: nat, t: Id, after: Rows, used: seq<Hash>)
    requires CodesOnce(w.(requests := w.requests[n := Bootstrapping])) && n !in w.requests && 0 < n < w.next && OneRow(w.rows, n, t, after)
    requires used == [] || (|used| == 1 && t in w.rows && w.rows[t].recovery == Some(used[0]) && after[t].recovery == Some(n))
    ensures CodesOnce(w.(rows := after, spent := w.spent + used))
  {
  }

  lemma LastAppend(writes: seq<Write>, x: Write, id: Id, seen: nat)
    requires seen <= |writes|
    ensures Last(writes + [x], id) == if x.id == id then x.pw else Last(writes, id)
    ensures (writes + [x])[..seen] == writes[..seen]
  {
    assert (writes + [x])[..|writes|] == writes;
  }

  lemma {:induction false} LastUnwritten(writes: seq<Write>, id: Id)
    requires forall x <- writes :: x.id != id
    ensures Last(writes, id) == NO_PASSWORD
  {
    if writes != [] {
      LastUnwritten(writes[..|writes| - 1], id);
    }
  }

  lemma EndWritten(w: World, n: nat)
    requires Numbered(w) && Written(w) && n in w.requests
    ensures Written(End(Taken(w, n), n, w.requests[n]))
  {
    hide Stored, Last;
    var r := w.requests[n];
    var t := Target(n, r);
    StoredShape(Taken(w, n), n, r);
    var v := End(Taken(w, n), n, r);
    assert v.writes == w.writes || v.writes == w.writes + [Write(t, n)];
    forall id | id in v.rows ensures v.rows[id].pw == Last(v.writes, id) {
      LastAppend(w.writes, Write(t, n), id, 0);
    }
    forall m | m in v.requests && Looked(v.requests[m])
      ensures v.requests[m].seen <= |v.writes| && v.requests[m].checked == Last(v.writes[..v.requests[m].seen], v.requests[m].id)
    {
      LastAppend(w.writes, Write(t, n), t, w.requests[m].seen);
    }
  }

  lemma EndFirst(w: World, n: nat)
    requires FirstOnce(w) && n in w.requests
    ensures FirstOnce(End(Taken(w, n), n, w.requests[n]))
  {
    hide Stored;
    var v := End(Taken(w, n), n, w.requests[n]);
    StoredShape(Taken(w, n), n, w.requests[n]);
    if w.bootstraps == 1 {
      var id :| id in w.rows && w.rows[id].hostOwner;
      assert id in v.rows && v.rows[id].hostOwner;
    } else if v.bootstraps == 1 {
      assert n in v.rows && v.rows[n].hostOwner;
    }
  }

  lemma EndSound(w: World, n: nat)
    requires Sound(w) && n in w.requests
    ensures Sound(End(Taken(w, n), n, w.requests[n]))
  {
    hide Numbered, ClaimsOnce, CodesOnce, Written, FirstOnce, End;
    EndNumbered(w, n);
    EndClaims(w, n);
    EndCodes(w, n);
    EndWritten(w, n);
    EndFirst(w, n);
  }

  lemma OutsideNumbered(w: World, e: Event)
    requires Numbered(w)
    ensures Numbered(Outside(w, e))
  {
  }

  lemma OutsideClaims(w: World, e: Event)
    requires Numbered(w) && ClaimsOnce(w)
    ensures ClaimsOnce(Outside(w, e))
  {
    hide Numbered;
  }

  lemma OutsideCodes(w: World, e: Event)
    requires Numbered(w) && CodesOnce(w)
    ensures CodesOnce(Outside(w, e))
  {
  }

  lemma OutsideWritten(w: World, e: Event)
    requires Numbered(w) && Written(w)
    ensures Written(Outside(w, e))
  {
    LastUnwritten(w.writes, w.next);
  }

  lemma OutsideFirst(w: World, e: Event)
    requires Numbered(w) && FirstOnce(w)
    ensures FirstOnce(Outside(w, e))
  {
    if w.bootstraps == 1 {
      var id :| id in w.rows && w.rows[id].hostOwner;
      assert id in Outside(w, e).rows && Outside(w, e).rows[id].hostOwner;
    }
  }

  lemma OutsideSound(w: World, e: Event)
    requires Sound(w)
    ensures Sound(Outside(w, e))
  {
    hide Numbered, ClaimsOnce, CodesOnce, Written, FirstOnce, Outside;
    OutsideNumbered(w, e);
    OutsideClaims(w, e);
    OutsideCodes(w, e);
    OutsideWritten(w, e);
    OutsideFirst(w, e);
  }

  function With(w: World, r: Request): World { w.(requests := w.requests[w.next := r], next := w.next + 1) }

  lemma BegunSound(w: World, e: Event)
    requires Sound(w) && Begun(w, e).Some?
    ensures Sound(With(w, Begun(w, e).value))
  {
    BegunNumbers(w, Begun(w, e).value);
    hide Numbered, CodesOnce, ClaimsOnce;
    BegunLooked(w, e);
    hide Begun;
    BegunWritten(w, Begun(w, e).value);
    hide Written;
  }

  lemma BegunLooked(w: World, e: Event)
    requires Begun(w, e).Some?
    ensures var r := Begun(w, e).value;
            Looked(r) ==> r.id in w.rows && r.seen == |w.writes| && r.checked == w.rows[r.id].pw && (Conditional(r) ==> r.checked != NO_PASSWORD)
  {
  }

  lemma BegunWritten(w: World, r: Request)
    requires Written(w) && w.next !in w.requests
    requires Looked(r) ==> r.id in w.rows && r.seen == |w.writes| && r.checked == w.rows[r.id].pw && (Conditional(r) ==> r.checked != NO_PASSWORD)
    ensures Written(With(w, r))
  {
    hide Last;
    assert w.writes[..|w.writes|] == w.writes;
  }

  lemma BegunNumbers(w: World, r: Request)
    requires Numbered(w) && CodesOnce(w) && ClaimsOnce(w)
    ensures Numbered(With(w, r)) && CodesOnce(With(w, r)) && ClaimsOnce(With(w, r)) && w.next !in w.requests
  {
  }

  lemma ApplySound(w: World, e: Event)
    requires Sound(w)
    ensures Sound(Apply(w, e))
  {
    hide Sound, End, Outside, Begun;
    if e.Finish? {
      if e.n in w.requests { EndSound(w, e.n); }
    } else if Begun(w, e).Some? {
      BegunSound(w, e);
    } else {
      OutsideSound(w, e);
    }
  }

  lemma {:induction false} RunSound(w: World, events: seq<Event>)
    requires Sound(w)
    ensures Sound(Run(w, events))
    decreases |events|
  {
    hide Sound, Apply;
    if events != [] {
      ApplySound(w, events[0]);
      RunSound(Apply(w, events[0]), events[1..]);
    }
  }

  // ---- single use ------------------------------------------------------------------------

  /**
   * However requests interleave across their awaits: the first account is made
   * at most once, and no claim code and no recovery code is used twice.
   */
  lemma EachCredentialOnce(events: seq<Event>)
    ensures var w := Run(START, events);
            w.bootstraps <= 1 &&
            (forall i, j :: 0 <= i < j < |w.claimed| ==> w.claimed[i] != w.claimed[j]) &&
            (forall i, j :: 0 <= i < j < |w.spent| ==> w.spent[i] != w.spent[j])
  {
    hide Run;
    RunSound(START, events);
  }

  lemma StartSound()
    ensures Sound(START)
  {
  }

  /** Of requests holding one recovery code, and of requests holding one claim code, the later to finish stores nothing. */
  lemma LoserStoresNothing(events: seq<Event>, m: nat, n: nat)
    requires var w := Run(START, events);
             m in w.requests && n in w.requests && m != n &&
             Stored(Taken(w, m), m, w.requests[m]).Some? &&
             ((w.requests[m].Recovering? && w.requests[n].Recovering? && w.requests[m].checked == w.requests[n].checked) ||
              (w.requests[m].Claiming? && w.requests[n].Claiming? && w.requests[m].code == w.requests[n].code) ||
              (w.requests[m].Bootstrapping? && w.requests[n].Bootstrapping?))
    ensures var w := Run(START, events);
            Stored(Taken(End(Taken(w, m), m, w.requests[m]), n), n, w.requests[n]) == None
  {
    hide Run;
    RunSound(START, events);
    var w := Run(START, events);
    EndSound(w, m);
    var v := End(Taken(w, m), m, w.requests[m]);
    var r := w.requests[m];
    assert r.Recovering? ==> r.checked in v.spent by { assert r.Recovering? ==> v.spent == w.spent + [r.checked]; }
    assert r.Claiming? ==> r.code in v.claimed by { assert r.Claiming? ==> v.claimed == w.claimed + [r.code]; }
  }

  // ---- your own password -------------------------------------------------------------------

  lemma {:induction false} LastStands(writes: seq<Write>, seen: nat, id: Id)
    requires seen <= |writes| && forall i, j :: 0 <= i < j < |writes| ==> writes[i].pw != writes[j].pw
    ensures (forall k :: seen <= k < |writes| ==> writes[k].id != id) ==> Last(writes, id) == Last(writes[..seen], id)
    ensures Last(writes[..seen], id) != NO_PASSWORD ==>
              (Last(writes, id) == Last(writes[..seen], id) ==> forall k :: seen <= k < |writes| ==> writes[k].id != id)
    ensures Last(writes, id) == NO_PASSWORD || exists k :: 0 <= k < |writes| && writes[k] == Write(id, Last(writes, id))
    decreases |writes|
  {
    if seen == |writes| {
      assert writes[..seen] == writes;
      LastIsThere(writes, id);
    } else {
      var shorter := writes[..|writes| - 1];
      assert shorter[..seen] == writes[..seen];
      LastStands(shorter, seen, id);
      LastIsThere(writes[..seen], id);
      LastIsThere(writes, id);
    }
  }

  lemma {:induction false} LastIsThere(writes: seq<Write>, id: Id)
    ensures Last(writes, id) == NO_PASSWORD || exists k :: 0 <= k < |writes| && writes[k] == Write(id, Last(writes, id))
  {
    if writes != [] && writes[|writes| - 1].id != id {
      var shorter := writes[..|writes| - 1];
      LastIsThere(shorter, id);
      if Last(shorter, id) != NO_PASSWORD {
        var k :| 0 <= k < |shorter| && shorter[k] == Write(id, Last(shorter, id));
        assert writes[k] == shorter[k];
      }
    }
  }

  /**
   * A change of one's own password, or a new recovery code made with it, goes
   * through exactly when the account is still there and nobody has written its
   * password since the request looked: a reset made while the old password was
   * being checked stands.
   */
  lemma OwnChangeNeverOverwrites(events: seq<Event>, n: nat)
    requires var w := Run(START, events); n in w.requests && Conditional(w.requests[n])
    ensures var w := Run(START, events);
            var r := w.requests[n];
            r.seen <= |w.writes| &&
            (Stored(w, n, r).Some? <==> r.id in w.rows && forall k :: r.seen <= k < |w.writes| ==> w.writes[k].id != r.id)
  {
    StartSound();
    hide Run, Numbered, ClaimsOnce, CodesOnce, FirstOnce;
    RunSound(START, events);
    var w := Run(START, events);
    LastStands(w.writes, w.requests[n].seen, w.requests[n].id);
  }

  // ---- sessions -----------------------------------------------------------------------------

  /** A session cookie: the account's password hash and sign-in epoch are in what is signed. */
  datatype Session = Session(id: Id, exp: nat, pw: Hash, epoch: nat)

  /** sessionAccount. */
  predicate SignedIn(w: World, s: Session) {
    s.id in w.rows && !w.rows[s.id].disabled && s.exp >= w.now && w.rows[s.id].pw == s.pw && w.rows[s.id].epoch == s.epoch
  }

  predicate Stale(w: World, s: Session) {
    Used(w, s.id) && Used(w, s.pw) && (s.id !in w.rows || w.rows[s.id].pw != s.pw || w.rows[s.id].epoch > s.epoch)
  }

  lemma EndStale(w: World, n: nat, s: Session)
    requires Stale(w, s) && n in w.requests && Numbered(w)
    ensures Stale(End(Taken(w, n), n, w.requests[n]), s)
  {
    hide Stored, Numbered;
    StoredShape(Taken(w, n), n, w.requests[n]);
  }

  lemma ApplyStale(w: World, e: Event, s: Session)
    requires Stale(w, s) && Sound(w)
    ensures Stale(Apply(w, e), s)
  {
    hide End, ClaimsOnce, CodesOnce, Written, FirstOnce;
    if e.Finish? && e.n in w.requests {
      EndStale(w, e.n, s);
    }
  }

  lemma {:induction false} StaleForGood(w: World, events: seq<Event>, s: Session)
    requires Stale(w, s) && Sound(w)
    ensures !SignedIn(Run(w, events), s)
    decreases |events|
  {
    hide Sound, Apply;
    if events != [] {
      ApplyStale(w, events[0], s);
      ApplySound(w, events[0]);
      StaleForGood(Apply(w, events[0]), events[1..], s);
    }
  }

  /** What ends every session an account has: a password written to it, disabling it, removing it. */
  predicate Ends(w: World, e: Event, id: Id) {
    (e.Finish? && e.n in w.requests && !OnlyCode(w.requests[e.n]) && Target(e.n, w.requests[e.n]) == id && Stored(Taken(w, e.n), e.n, w.requests[e.n]).Some?) ||
    (e.SetDisabled? && e.id == id && e.disabled) ||
    (e.Remove? && e.id == id && Apply(w, e) != w)
  }

  /** A session ended that way never signs anyone in again, whatever happens to the account later. */
  lemma EndedSessionsStayEnded(before: seq<Event>, e: Event, after: seq<Event>, s: Session)
    requires var w := Run(START, before); SignedIn(w, s) && Ends(w, e, s.id)
    ensures !SignedIn(Run(Apply(Run(START, before), e), after), s)
  {
    var w := Run(START, before);
    RunSound(START, before);
    ApplySound(w, e);
    EndsMakesStale(w, e, s);
    StaleForGood(Apply(w, e), after, s);
  }

  lemma EndsMakesStale(w: World, e: Event, s: Session)
    requires Sound(w) && SignedIn(w, s) && Ends(w, e, s.id)
    ensures Stale(Apply(w, e), s)
  {
    hide ClaimsOnce, CodesOnce, Written, FirstOnce;
    assert Used(w, s.id) && Used(w, s.pw);
    if e.Finish? {
      hide Stored;
      StoredShape(Taken(w, e.n), e.n, w.requests[e.n]);
    }
  }
}
