/**
 * Removing and replacing second factors (the factor DELETE and the
 * authenticator handlers of src/api/secondFactor.ts) while other requests of
 * the same person are under way. A removal waits for a password check between
 * its two looks at what would be left; every other stretch runs unbroken.
 */
module FactorRemoval {
  import opened Basics

  datatype Kind = Totp | Passkey(rpId: string)

  datatype Factor = Factor(id: nat, kind: Kind, confirmed: bool)

  /** What the person's standing is while this goes on: the passkeys' address, if there is one, and whether public access stands on this person's factor. */
  datatype Setting = Setting(host: Option<string>, guarded: bool)

  /** The rows, the unused backup codes, the generation, and the removals waiting for their password check (the row each is about). */
  datatype World = World(rows: seq<Factor>, backup: nat, gen: nat, waiting: seq<nat>)

  predicate Usable(c: Setting, f: Factor) {
    f.confirmed && (f.kind.Totp? || c.host.None? || f.kind.rpId == c.host.value)
  }

  predicate HasUsable(c: Setting, rows: seq<Factor>) { exists f <- rows :: Usable(c, f) }

  predicate Real(rows: seq<Factor>, id: nat) { exists f <- rows :: f.id == id && f.confirmed }

  predicate AnyReal(rows: seq<Factor>) { exists f <- rows :: f.confirmed }

  predicate UsableAfter(c: Setting, rows: seq<Factor>, id: nat) { exists f <- rows :: f.id != id && Usable(c, f) }

  predicate LastOne(c: Setting, rows: seq<Factor>, id: nat) { c.guarded && !UsableAfter(c, rows, id) }

  /** DELETE ... WHERE: the rows that do not match. */
  function Delete(rows: seq<Factor>, gone: Factor -> bool): seq<Factor> {
    if rows == [] then [] else (if gone(rows[0]) then [] else [rows[0]]) + Delete(rows[1..], gone)
  }

  function Confirm(rows: seq<Factor>, id: nat): seq<Factor> {
    seq(|rows|, i requires 0 <= i < |rows| => if rows[i].id == id then rows[i].(confirmed := true) else rows[i])
  }

  function ById(id: nat): Factor -> bool { (f: Factor) => f.id == id }
  function UnconfirmedTotp(): Factor -> bool { (f: Factor) => f.kind.Totp? && !f.confirmed }
  function RealTotp(): Factor -> bool { (f: Factor) => f.kind.Totp? && f.confirmed }

  datatype Event =
    | RemoveBegins(id: nat)
    | RemoveEnds(k: nat, proved: bool)
    | StartTotp(id: nat)
    | ConfirmTotp(id: nat, right: bool)
    | AddPasskey(id: nat, rpId: string)

  /** The rest of a removal, once the password check is over: both questions asked again, then the row goes. */
  function Removed(c: Setting, w: World, id: nat): World {
    if !Real(w.rows, id) || LastOne(c, w.rows, id) then w
    else
      var left := Delete(w.rows, ById(id));
      World(Delete(left, UnconfirmedTotp()), if AnyReal(left) then w.backup else 0, w.gen + 1, w.waiting)
  }

  /** An authenticator app confirmed: it takes the place of the one there was. */
  function Replaced(w: World, id: nat, right: bool): World {
    if !right || !exists f <- w.rows :: f.id == id && f.kind.Totp? && !f.confirmed then w
    else
      w.(rows := Confirm(Delete(w.rows, RealTotp()), id),
         gen := if exists f <- w.rows :: f.kind.Totp? && f.confirmed then w.gen + 1 else w.gen)
  }

  function Apply(c: Setting, w: World, e: Event): World {
    match e
    case RemoveBegins(id) => if Real(w.rows, id) && !LastOne(c, w.rows, id) then w.(waiting := w.waiting + [id]) else w
    case RemoveEnds(k, proved) =>
      if k >= |w.waiting| then w
      else
        var v := w.(waiting := w.waiting[..k] + w.waiting[k + 1..]);
        if proved then Removed(c, v, w.waiting[k]) else v
    case StartTotp(id) => w.(rows := Delete(w.rows, UnconfirmedTotp()) + [Factor(id, Totp, false)])
    case ConfirmTotp(id, right) => Replaced(w, id, right)
    case AddPasskey(id, rpId) => w.(rows := w.rows + [Factor(id, Passkey(rpId), true)])
  }

  function Run(c: Setting, w: World, events: seq<Event>): World
    decreases |events|
  {
    if events == [] then w else Run(c, Apply(c, w, events[0]), events[1..])
  }

  // ---- the handlers, as the process runs them -------------------------------------

  datatype Answer = Gone | NotFound | OnlyFactor | Cancelled | WrongCode | Fine

  class Factors {
    var rows: seq<Factor>
    var backup: nat
    var gen: nat
    const setting: Setting

    function State(waiting: seq<nat>): World
      reads this
    {
      World(rows, backup, gen, waiting)
    }

    constructor (c: Setting)
      ensures State([]) == World([], 0, 0, []) && setting == c
    {
      rows, backup, gen, setting := [], 0, 0, c;
    }

    /** How many of the person's factors would still be asked for without this one. */
    method CountUsableAfter(id: nat) returns (n: nat)
      ensures n > 0 <==> UsableAfter(setting, rows, id)
    {
      n := 0;
      for i := 0 to |rows|
        invariant n > 0 <==> UsableAfter(setting, rows[..i], id)
      {
        assert rows[..i + 1] == rows[..i] + [rows[i]];
        if rows[i].confirmed && rows[i].id != id && (rows[i].kind.Totp? || setting.host.None? || rows[i].kind.rpId == setting.host.value) {
          n := n + 1;
          assert rows[i] in rows[..i + 1];
        }
      }
      assert rows[..|rows|] == rows;
    }

    method FinishRemoval(id: nat) returns (answer: Answer)
      modifies this
      ensures forall waiting :: State(waiting) == Removed(setting, old(State(waiting)), id)
      ensures answer == if !Real(old(rows), id) then NotFound else if LastOne(setting, old(rows), id) then OnlyFactor else Gone
    {
      if !Real(rows, id) { return NotFound; }
      var n := CountUsableAfter(id);
      if setting.guarded && n == 0 { return OnlyFactor; }
      rows := Delete(rows, ById(id));
      if !AnyReal(rows) { backup := 0; }
      gen := gen + 1;
      rows := Delete(rows, UnconfirmedTotp());
      return Gone;
    }

    method FinishConfirm(id: nat, right: bool) returns (answer: Answer)
      modifies this
      ensures forall waiting :: State(waiting) == Replaced(old(State(waiting)), id, right)
      ensures answer == Fine ==> HasUsable(setting, rows) && Real(rows, id)
    {
      if !exists f <- rows :: f.id == id && f.kind.Totp? && !f.confirmed { return Cancelled; }
      if !right { return WrongCode; }
      ghost var before := rows;
      var replaced := 0;
      var kept: seq<Factor> := [];
      var i := 0;
      while i < |rows|
        invariant 0 <= i <= |rows| && rows == before && gen == old(gen) && backup == old(backup)
        invariant kept == Delete(rows[..i], RealTotp())
        invariant replaced > 0 <==> exists f <- rows[..i] :: f.kind.Totp? && f.confirmed
      {
        assert rows[..i + 1] == rows[..i] + [rows[i]];
        DeleteOne(rows[..i], rows[i], RealTotp());
        if rows[i].kind.Totp? && rows[i].confirmed { replaced := replaced + 1; } else { kept := kept + [rows[i]]; }
        i := i + 1;
      }
      assert rows[..i] == rows;
      if replaced > 0 { gen := gen + 1; }
      rows := Confirm(kept, id);
      answer := Fine;
      ReplacedIsUsable(setting, World(before, backup, old(gen), []), id);
    }
  }

  // ---- what stays -------------------------------------------------------------------

  lemma {:induction false} DeleteKeeps(rows: seq<Factor>, gone: Factor -> bool, f: Factor)
    ensures f in Delete(rows, gone) <==> f in rows && !gone(f)
  {
    if rows != [] {
      DeleteKeeps(rows[1..], gone, f);
      assert f in rows <==> f == rows[0] || f in rows[1..];
    }
  }

  lemma {:induction false} DeleteOne(rows: seq<Factor>, f: Factor, gone: Factor -> bool)
    ensures Delete(rows + [f], gone) == Delete(rows, gone) + if gone(f) then [] else [f]
  {
    if rows == [] {
      assert rows + [f] == [f];
    } else {
      var first := if gone(rows[0]) then [] else [rows[0]];
      var last := if gone(f) then [] else [f];
      assert (rows + [f])[0] == rows[0] && (rows + [f])[1..] == rows[1..] + [f];
      DeleteOne(rows[1..], f, gone);
      assert Delete(rows + [f], gone) == first + (Delete(rows[1..], gone) + last);
    }
  }

  lemma ReplacedIsUsable(c: Setting, w: World, id: nat)
    requires exists f <- w.rows :: f.id == id && f.kind.Totp? && !f.confirmed
    ensures HasUsable(c, Replaced(w, id, true).rows) && Real(Replaced(w, id, true).rows, id)
  {
    var f :| f in w.rows && f.id == id && f.kind.Totp? && !f.confirmed;
    var kept := Delete(w.rows, RealTotp());
    DeleteKeeps(w.rows, RealTotp(), f);
    var i :| 0 <= i < |kept| && kept[i] == f;
    assert Confirm(kept, id)[i] == f.(confirmed := true);
    assert Usable(c, f.(confirmed := true));
  }

  lemma RemovedIsUsable(c: Setting, w: World, id: nat)
    requires c.guarded && HasUsable(c, w.rows)
    ensures HasUsable(c, Removed(c, w, id).rows)
  {
    if Real(w.rows, id) && !LastOne(c, w.rows, id) {
      var f :| f in w.rows && f.id != id && Usable(c, f);
      DeleteKeeps(w.rows, ById(id), f);
      DeleteKeeps(Delete(w.rows, ById(id)), UnconfirmedTotp(), f);
    }
  }

  lemma ApplyKeepsOne(c: Setting, w: World, e: Event)
    requires c.guarded && HasUsable(c, w.rows)
    ensures HasUsable(c, Apply(c, w, e).rows)
  {
    var f :| f in w.rows && Usable(c, f);
    match e
    case RemoveBegins(_) =>
    case RemoveEnds(k, proved) =>
      if k < |w.waiting| {
        RemovedIsUsable(c, w.(waiting := w.waiting[..k] + w.waiting[k + 1..]), w.waiting[k]);
      }
    case StartTotp(_) =>
      DeleteKeeps(w.rows, UnconfirmedTotp(), f);
      assert f in Apply(c, w, e).rows;
    case ConfirmTotp(id, right) =>
      if right && exists g <- w.rows :: g.id == id && g.kind.Totp? && !g.confirmed { ReplacedIsUsable(c, w, id); }
    case AddPasskey(_, _) => assert f in Apply(c, w, e).rows;
  }

  /** A factor that is asked for at sign-in: confirmed, and an app or a passkey for this address (for any, while there is none). */
  ghost predicate AskedFor(c: Setting, f: Factor) {
    f.confirmed && (f.kind.Passkey? && c.host.Some? ==> f.kind.rpId == c.host.value)
  }

  /**
   * However removals and authenticator replacements interleave across their
   * password checks: whoever public access stands on, and who has a factor
   * that is asked for, still has one.
   */
  lemma {:induction false} LastFactorKept(c: Setting, w: World, events: seq<Event>)
    requires c.guarded && exists f <- w.rows :: AskedFor(c, f)
    ensures exists f <- Run(c, w, events).rows :: AskedFor(c, f)
    decreases |events|
  {
    if events != [] {
      var f :| f in w.rows && AskedFor(c, f);
      assert Usable(c, f);
      ApplyKeepsOne(c, w, events[0]);
      var g :| g in Apply(c, w, events[0]).rows && Usable(c, g);
      assert AskedFor(c, g);
      hide Apply, AskedFor;
      LastFactorKept(c, Apply(c, w, events[0]), events[1..]);
    }
  }

  /** A run goes on from where it was. */
  lemma {:induction false} RunGoesOn(c: Setting, w: World, events: seq<Event>, e: Event)
    ensures Run(c, w, events + [e]) == Apply(c, Run(c, w, events), e)
    decreases |events|
  {
    hide Apply;
    if events == [] {
      assert [e][1..] == [];
    } else {
      assert (events + [e])[1..] == events[1..] + [e];
      RunGoesOn(c, Apply(c, w, events[0]), events[1..], e);
    }
  }

  // ---- what each request does, row by row -------------------------------------------

  /** A removal of this row may go through: it is a real factor, and not the last one that public access stands on. */
  ghost predicate Removable(c: Setting, rows: seq<Factor>, id: nat) {
    (exists g <- rows :: g.id == id && g.confirmed) && (c.guarded ==> exists g <- rows :: g.id != id && AskedFor(c, g))
  }

  lemma RemovableIs(c: Setting, rows: seq<Factor>, id: nat)
    ensures Removable(c, rows, id) <==> Real(rows, id) && !LastOne(c, rows, id)
  {
    forall g: Factor ensures Usable(c, g) <==> AskedFor(c, g) {}
  }

  /** A removal begins to wait exactly when it may go through now. */
  lemma WaitsExactly(c: Setting, w: World, id: nat)
    ensures Apply(c, w, RemoveBegins(id)) == if Removable(c, w.rows, id) then w.(waiting := w.waiting + [id]) else w
  {
    RemovableIs(c, w.rows, id);
  }

  /**
   * Once its password check is over it waits no longer, and if the password
   * was right and it may still go through: exactly that row goes and apps not
   * yet confirmed; the generation moves on; and backup codes go with the last
   * factor.
   */
  lemma RemovesExactly(c: Setting, w: World, k: nat, proved: bool, f: Factor)
    requires k < |w.waiting|
    ensures var id, v := w.waiting[k], Apply(c, w, RemoveEnds(k, proved));
            && v.waiting == w.waiting[..k] + w.waiting[k + 1..]
            && if proved && Removable(c, w.rows, id)
               then
                 && (f in v.rows <==> f in w.rows && f.id != id && (f.kind.Totp? ==> f.confirmed))
                 && v.gen == w.gen + 1
                 && v.backup == if exists g <- w.rows :: g.id != id && g.confirmed then w.backup else 0
               else v.rows == w.rows && v.gen == w.gen && v.backup == w.backup
  {
    var id := w.waiting[k];
    RemovableIs(c, w.rows, id);
    RemovalIsExact(c, w.(waiting := w.waiting[..k] + w.waiting[k + 1..]), id, f);
    forall g: Factor ensures g in Delete(w.rows, ById(id)) <==> g in w.rows && g.id != id { DeleteKeeps(w.rows, ById(id), g); }
  }

  /** An app is shown in place of one shown before; a passkey is added to what is there. */
  lemma AddsExactly(c: Setting, w: World, id: nat, rpId: string, f: Factor)
    ensures var v := Apply(c, w, StartTotp(id));
            v == w.(rows := v.rows) && (f in v.rows <==> f == Factor(id, Totp, false) || (f in w.rows && (f.kind.Totp? ==> f.confirmed)))
    ensures var v := Apply(c, w, AddPasskey(id, rpId));
            v == w.(rows := v.rows) && (f in v.rows <==> f == Factor(id, Passkey(rpId), true) || f in w.rows)
  {
    DeleteKeeps(w.rows, UnconfirmedTotp(), f);
  }

  /**
   * An app is confirmed exactly when its code was right and it is still
   * waiting for one: then every app there was before goes, the generation
   * moves on if one did, and the row shown is confirmed; nothing else changes.
   */
  lemma ConfirmsExactly(c: Setting, w: World, id: nat, right: bool, f: Factor)
    ensures var v := Apply(c, w, ConfirmTotp(id, right));
            if right && exists g <- w.rows :: g.id == id && g.kind.Totp? && !g.confirmed
            then
              && v == w.(rows := v.rows, gen := v.gen)
              && (f in v.rows <==> exists g :: g in w.rows && !(g.kind.Totp? && g.confirmed) && f == g.(confirmed := g.confirmed || g.id == id))
              && v.gen == (if exists g <- w.rows :: g.kind.Totp? && g.confirmed then w.gen + 1 else w.gen)
            else v == w
  {
    var kept := Delete(w.rows, RealTotp());
    forall g: Factor ensures g in kept <==> g in w.rows && !(g.kind.Totp? && g.confirmed) { DeleteKeeps(w.rows, RealTotp(), g); }
    ConfirmHas(kept, id, f);
  }

  lemma ConfirmHas(rows: seq<Factor>, id: nat, f: Factor)
    ensures f in Confirm(rows, id) <==> exists g :: g in rows && f == g.(confirmed := g.confirmed || g.id == id)
  {
    forall i | 0 <= i < |rows| ensures Confirm(rows, id)[i] == rows[i].(confirmed := rows[i].confirmed || rows[i].id == id) && Confirm(rows, id)[i] in Confirm(rows, id) {}
    if f in Confirm(rows, id) {
      var i :| 0 <= i < |rows| && Confirm(rows, id)[i] == f;
      assert rows[i] in rows;
    }
  }

  /** What a removal does when it does anything: that row goes, with apps not yet confirmed; every other factor stays, and the generation moves on. */
  lemma RemovalIsExact(c: Setting, w: World, id: nat, f: Factor)
    ensures var v := Removed(c, w, id);
            if Real(w.rows, id) && (!c.guarded || UsableAfter(c, w.rows, id))
            then (f in v.rows <==> f in w.rows && f.id != id && (f.kind.Totp? ==> f.confirmed)) && v.gen == w.gen + 1
            else v == w
  {
    DeleteKeeps(w.rows, ById(id), f);
    DeleteKeeps(Delete(w.rows, ById(id)), UnconfirmedTotp(), f);
  }

  /** Two removals at once: both pass their first look, and whichever ends second finds it would take the last. */
  lemma OfTwoAtOnceOneStays(c: Setting, w: World, a: Factor, b: Factor)
    requires c.guarded && Usable(c, a) && Usable(c, b) && a.id != b.id && (w.rows == [a, b] || w.rows == [b, a])
    ensures Apply(c, Apply(c, w, RemoveBegins(a.id)), RemoveBegins(b.id)).waiting == w.waiting + [a.id] + [b.id]
    ensures Removed(c, w, a.id).rows == [b]
    ensures Removed(c, Removed(c, w, a.id), b.id) == Removed(c, w, a.id)
  {
    assert a in w.rows && b in w.rows;
    assert w.rows[1..] == [w.rows[1]];
    assert Delete([w.rows[1]], ById(a.id)) == if w.rows[1].id == a.id then [] else [w.rows[1]];
    assert Delete(w.rows, ById(a.id)) == [b];
    assert Delete([b], UnconfirmedTotp()) == [b];
  }
}
