/**
 * The rules commit's files (pinned_tree in scripts/kit_checks.py): git tree
 * objects read through a stack of trees still to do. `Walk` is the recursive
 * reading of a tree; the loop over the stack is shown to do the same, and the
 * result to hold exactly the files the tree's entries lead to.
 */
module PinnedTree {
  import opened Basics

  type Id = seq<Byte>
  type Path = seq<Byte>

  datatype Entry = Entry(mode: seq<Byte>, name: seq<Byte>, id: Id)

  const SPACE: Byte := 32
  const NUL: Byte := 0
  const SLASH: Byte := 47
  /** "40000", "160000" and "120000". */
  const TREE: seq<Byte> := [52, 48, 48, 48, 48]
  const SUBMODULE: seq<Byte> := [49, 54, 48, 48, 48, 48]
  const LINK: seq<Byte> := [49, 50, 48, 48, 48, 48]

  // ---- a tree's entries -------------------------------------------------------------

  /** Where a byte first is; None is Python's ValueError. */
  function Index(b: seq<Byte>, x: Byte): (i: Option<nat>)
    ensures i.Some? ==> i.value < |b| && b[i.value] == x && x !in b[..i.value]
    ensures i.None? ==> x !in b
  {
    if b == [] then None
    else if b[0] == x then Some(0)
    else
      var i := Index(b[1..], x);
      if i.None? then None else
        assert b[..i.value + 1] == [b[0]] + b[1..][..i.value];
        Some(i.value + 1)
  }

  function Min(a: nat, b: nat): nat { if a < b then a else b }

  /** The first entry of a tree's body, `<mode> <name>\0<20-byte id>`, and where the next one starts. None: not a tree's body. */
  function First(body: seq<Byte>): (r: Option<(Entry, nat)>)
    ensures r.Some? ==> 0 < r.value.1 <= |body|
  {
    var sp := Index(body, SPACE);
    if sp.None? then None
    else
      var nul := Index(body[sp.value..], NUL);
      if nul.None? then None
      else Some(EntryAt(body, sp.value, sp.value + nul.value))
  }

  /** The entry whose mode ends before `sp` and name before `at`. */
  function EntryAt(body: seq<Byte>, sp: nat, at: nat): (Entry, nat)
    requires sp < at < |body|
  {
    var end := Min(at + 21, |body|);
    (Entry(body[..sp], body[sp + 1..at], body[at + 1..end]), end)
  }

  function Entries(body: seq<Byte>): Option<seq<Entry>>
    decreases |body|
  {
    if body == [] then Some([])
    else
      var first := First(body);
      if first.None? then None
      else
        var rest := Entries(body[first.value.1..]);
        if rest.None? then None else Some([first.value.0] + rest.value)
  }

  predicate WellFormed(e: Entry) { SPACE !in e.mode && NUL !in e.name && |e.id| == 20 }

  function One(e: Entry): seq<Byte> { e.mode + ([SPACE] + (e.name + ([NUL] + e.id))) }

  function Serialized(entries: seq<Entry>): seq<Byte> {
    if entries == [] then [] else One(entries[0]) + Serialized(entries[1..])
  }

  lemma {:induction false} IndexAfter(a: seq<Byte>, x: Byte, b: seq<Byte>)
    requires x !in a
    ensures Index(a + ([x] + b), x) == Some(|a|)
    decreases |a|
  {
    var whole := a + ([x] + b);
    if a != [] {
      assert a[0] in a && whole[0] == a[0] && whole[1..] == a[1..] + ([x] + b);
      IndexAfter(a[1..], x, b);
    }
  }

  /** Cutting a concatenation where its parts meet. */
  lemma Cut(a: seq<Byte>, x: Byte, b: seq<Byte>, y: Byte, c: seq<Byte>, d: seq<Byte>)
    ensures var whole := a + ([x] + (b + ([y] + (c + d))));
            var at := |a| + 1 + |b|;
            whole[..|a|] == a && whole[|a|..] == ([x] + b) + ([y] + (c + d)) && whole[|a| + 1..at] == b && whole[at + 1..] == c + d
    ensures (c + d)[..|c|] == c
  {
    var whole := a + ([x] + (b + ([y] + (c + d))));
    assert whole[|a|..] == [x] + (b + ([y] + (c + d)));
  }

  lemma OneThen(e: Entry, tail: seq<Byte>)
    ensures One(e) + tail == e.mode + ([SPACE] + (e.name + ([NUL] + (e.id + tail))))
  {
  }

  lemma FirstIs(body: seq<Byte>, sp: nat, nul: nat)
    requires Index(body, SPACE) == Some(sp) && Index(body[sp..], NUL) == Some(nul) && 0 < nul && sp + nul < |body|
    ensures First(body) == Some(EntryAt(body, sp, sp + nul))
  {
    hide Index, EntryAt;
  }

  lemma EntryIs(body: seq<Byte>, sp: nat, at: nat)
    requires sp < at && at + 21 <= |body|
    ensures EntryAt(body, sp, at) == (Entry(body[..sp], body[sp + 1..at], body[at + 1..][..20]), at + 21)
  {
    Slices(body, sp, at);
  }

  lemma Slices(b: seq<Byte>, sp: nat, at: nat)
    requires sp < at && at + 21 <= |b|
    ensures b[at + 1..][..20] == b[at + 1..at + 21]
    ensures b[sp] == SPACE && b[at] == NUL ==> b[..at + 21] == b[..sp] + ([SPACE] + (b[sp + 1..at] + ([NUL] + b[at + 1..at + 21])))
  {
    if b[sp] == SPACE && b[at] == NUL {
      assert b[at..at + 21] == [NUL] + b[at + 1..at + 21];
      assert b[sp..at] == [SPACE] + b[sp + 1..at];
    }
  }

  lemma FirstOfOne(e: Entry, tail: seq<Byte>)
    requires WellFormed(e)
    ensures First(One(e) + tail) == Some((e, |One(e)|))
  {
    hide Index, First, EntryAt;
    var rest := e.id + tail;
    OneThen(e, tail);
    IndexAfter(e.mode, SPACE, e.name + ([NUL] + rest));
    Cut(e.mode, SPACE, e.name, NUL, e.id, tail);
    NulAfter(e.name, rest);
    FirstIs(One(e) + tail, |e.mode|, 1 + |e.name|);
    EntryIs(One(e) + tail, |e.mode|, |e.mode| + 1 + |e.name|);
  }

  lemma NulAfter(name: seq<Byte>, rest: seq<Byte>)
    requires NUL !in name
    ensures Index(([SPACE] + name) + ([NUL] + rest), NUL) == Some(1 + |name|)
  {
    IndexAfter([SPACE] + name, NUL, rest);
  }

  /** The parser undoes the serialisation, names with spaces and all. */
  lemma {:induction false} EntriesOfSerialized(entries: seq<Entry>)
    requires forall e <- entries :: WellFormed(e)
    ensures Entries(Serialized(entries)) == Some(entries)
    decreases |entries|
  {
    hide First, One, WellFormed;
    if entries != [] {
      var tail := Serialized(entries[1..]);
      assert entries[0] in entries;
      assert forall x <- entries[1..] :: x in entries;
      FirstOfOne(entries[0], tail);
      assert (One(entries[0]) + tail)[|One(entries[0])|..] == tail;
      EntriesOfSerialized(entries[1..]);
      assert [entries[0]] + entries[1..] == entries;
    }
  }

  lemma OneOfFirst(body: seq<Byte>)
    requires First(body).Some? && |First(body).value.0.id| == 20
    ensures var (e, end) := First(body).value; WellFormed(e) && One(e) == body[..end]
  {
    hide Index;
    var sp := Index(body, SPACE).value;
    var nul := Index(body[sp..], NUL).value;
    var at := sp + nul;
    var e := First(body).value.0;
    assert body[sp..][..nul] == [SPACE] + e.name;
    Slices(body, sp, at);
  }

  /** And what it reads serialises to the same bytes, when no id is cut short. */
  lemma {:induction false} SerializedEntries(body: seq<Byte>)
    requires Entries(body).Some? && forall e <- Entries(body).value :: |e.id| == 20
    ensures Serialized(Entries(body).value) == body && forall e <- Entries(body).value :: WellFormed(e)
    decreases |body|
  {
    hide First, One, WellFormed;
    if body != [] {
      var entries := Entries(body).value;
      var end := First(body).value.1;
      assert entries[0] in entries && entries[1..] == Entries(body[end..]).value;
      assert forall e <- entries[1..] :: e in entries;
      OneOfFirst(body);
      SerializedEntries(body[end..]);
      assert body == body[..end] + body[end..];
    }
  }

  /** The modes as git writes them: of a tree, of a submodule's commit, and of a symbolic link; and the bytes between an entry's parts. */
  lemma ModesAre()
    ensures Says(TREE, "40000") && Says(SUBMODULE, "160000") && Says(LINK, "120000")
    ensures Says([SPACE], " ") && Says([SLASH], "/") && Says([NUL], "\0")
  {
  }

  /** These bytes are this text's, character by character. */
  ghost predicate Says(b: seq<Byte>, s: string) { |b| == |s| && forall i :: 0 <= i < |b| ==> b[i] == s[i] as int }

  // ---- the walk -----------------------------------------------------------------------

  datatype Error = Missing(id: Id) | Malformed(id: Id)

  /** One `files[prefix + name] = (link, id)`. */
  datatype Write = Write(path: Path, link: bool, id: Id)

  type Walked = Result<seq<Write>, Error>

  /**
   * The objects: a tree's body by its id, None when it is missing, of another
   * kind or not the one its id names; and a rank that goes down from a tree to
   * its subtrees (an object's id is a hash over those it names).
   */
  datatype Objects = Objects(read: Id -> Option<seq<Byte>>, ghost rank: Id -> nat)

  /** The trees an entry list names, and the files, each with its path. */
  function Subtrees(prefix: Path, entries: seq<Entry>): seq<(Path, Id)> {
    if entries == [] then []
    else (if entries[0].mode == TREE then [(prefix + entries[0].name + [SLASH], entries[0].id)] else []) + Subtrees(prefix, entries[1..])
  }

  function Files(prefix: Path, entries: seq<Entry>): seq<Write> {
    if entries == [] then []
    else
      (if entries[0].mode == TREE || entries[0].mode == SUBMODULE then []
       else [Write(prefix + entries[0].name, entries[0].mode == LINK, entries[0].id)]) + Files(prefix, entries[1..])
  }

  ghost predicate Ranked(o: Objects) {
    forall id: Id :: o.read(id).Some? && Entries(o.read(id).value).Some? ==>
      forall e <- Entries(o.read(id).value).value :: e.mode == TREE ==> o.rank(e.id) < o.rank(id)
  }

  /** How high the trees still to do are. */
  ghost function Height(o: Objects, trees: seq<(Path, Id)>): (h: nat)
    ensures Below(o, trees, h)
  {
    if trees == [] then 0
    else
      var rest := Height(o, trees[..|trees| - 1]);
      var last := o.rank(trees[|trees| - 1].1) + 1;
      assert trees == trees[..|trees| - 1] + [trees[|trees| - 1]];
      if last > rest then last else rest
  }

  ghost predicate Below(o: Objects, trees: seq<(Path, Id)>, b: nat) { forall t <- trees :: o.rank(t.1) < b }

  lemma {:induction false} HeightIsLeast(o: Objects, trees: seq<(Path, Id)>, b: nat)
    requires Below(o, trees, b)
    ensures Height(o, trees) <= b
  {
    if trees != [] {
      assert trees[|trees| - 1] in trees;
      assert forall t <- trees[..|trees| - 1] :: t in trees;
      HeightIsLeast(o, trees[..|trees| - 1], b);
    }
  }

  lemma {:induction false} SubtreesBelow(o: Objects, prefix: Path, entries: seq<Entry>, b: nat)
    requires forall e <- entries :: e.mode == TREE ==> o.rank(e.id) < b
    ensures Below(o, Subtrees(prefix, entries), b)
  {
    if entries != [] {
      assert entries[0] in entries;
      assert forall e <- entries[1..] :: e in entries;
      SubtreesBelow(o, prefix, entries[1..], b);
    }
  }

  function Then(done: seq<Write>, rest: Walked): Walked { if rest.Err? then rest else Ok(done + rest.value) }

  /** A tree read recursively: its own files, then each subtree, the last named first. */
  ghost function Walk(o: Objects, prefix: Path, id: Id): Walked
    requires Ranked(o)
    decreases o.rank(id), 1, 0
  {
    match o.read(id)
    case None => Err(Missing(id))
    case Some(body) =>
      match Entries(body)
      case None => Err(Malformed(id))
      case Some(entries) =>
        SubtreesBelow(o, prefix, entries, o.rank(id));
        HeightIsLeast(o, Subtrees(prefix, entries), o.rank(id));
        Then(Files(prefix, entries), WalkAll(o, Subtrees(prefix, entries)))
  }

  /** A list of trees, the last one first. */
  ghost function WalkAll(o: Objects, trees: seq<(Path, Id)>): Walked
    requires Ranked(o)
    decreases Height(o, trees), 0, |trees|
  {
    if trees == [] then Ok([])
    else
      var (prefix, id) := trees[|trees| - 1];
      assert trees[|trees| - 1] in trees;
      var first := Walk(o, prefix, id);
      assert forall t <- trees[..|trees| - 1] :: t in trees;
      HeightIsLeast(o, trees[..|trees| - 1], Height(o, trees));
      if first.Err? then first else Then(first.value, WalkAll(o, trees[..|trees| - 1]))
  }

  /** The same as a map: `files`, in which a path written twice holds what was written last. */
  function Held(writes: seq<Write>): map<Path, (bool, Id)> {
    if writes == [] then map[]
    else
      var w := writes[|writes| - 1];
      Held(writes[..|writes| - 1])[w.path := (w.link, w.id)]
  }

  // ---- the loop --------------------------------------------------------------------------

  /** How many trees a walk reads: what the loop counts down. */
  ghost function Work(o: Objects, id: Id): (n: nat)
    requires Ranked(o)
    ensures n >= 1
    decreases o.rank(id), 1, 0
  {
    match o.read(id)
    case None => 1
    case Some(body) =>
      match Entries(body)
      case None => 1
      case Some(entries) =>
        SubtreesBelow(o, [], entries, o.rank(id));
        HeightIsLeast(o, Subtrees([], entries), o.rank(id));
        1 + WorkAll(o, Subtrees([], entries))
  }

  ghost function WorkAll(o: Objects, trees: seq<(Path, Id)>): nat
    requires Ranked(o)
    decreases Height(o, trees), 0, |trees|
  {
    if trees == [] then 0
    else
      assert trees[|trees| - 1] in trees;
      assert forall t <- trees[..|trees| - 1] :: t in trees;
      HeightIsLeast(o, trees[..|trees| - 1], Height(o, trees));
      Work(o, trees[|trees| - 1].1) + WorkAll(o, trees[..|trees| - 1])
  }

  /** Trees pushed on top of others come first. */
  lemma {:induction false} WalkAppend(o: Objects, lower: seq<(Path, Id)>, upper: seq<(Path, Id)>)
    requires Ranked(o)
    ensures WorkAll(o, lower + upper) == WorkAll(o, lower) + WorkAll(o, upper)
    ensures WalkAll(o, lower + upper) ==
            if WalkAll(o, upper).Err? then WalkAll(o, upper) else Then(WalkAll(o, upper).value, WalkAll(o, lower))
    decreases |upper|
  {
    hide Walk, Work, Ranked;
    if upper == [] {
      assert lower + upper == lower;
      ThenThen([], [], WalkAll(o, lower));
    } else {
      var all := lower + upper;
      assert all[..|all| - 1] == lower + upper[..|upper| - 1] && all[|all| - 1] == upper[|upper| - 1];
      WalkAppend(o, lower, upper[..|upper| - 1]);
      var first := Walk(o, upper[|upper| - 1].0, upper[|upper| - 1].1);
      if first.Ok? && WalkAll(o, upper[..|upper| - 1]).Ok? {
        ThenThen(first.value, WalkAll(o, upper[..|upper| - 1]).value, WalkAll(o, lower));
      }
    }
  }

  lemma ThenThen(a: seq<Write>, b: seq<Write>, r: Walked)
    ensures Then(a, Then(b, r)) == Then(a + b, r) && Then([], r) == r
  {
    if r.Ok? { assert a + (b + r.value) == (a + b) + r.value && [] + r.value == r.value; }
  }

  /** The work below a tree does not depend on where it stands. */
  lemma {:induction false} WorkIgnoresPrefix(o: Objects, prefix: Path, entries: seq<Entry>)
    requires Ranked(o)
    ensures WorkAll(o, Subtrees(prefix, entries)) == WorkAll(o, Subtrees([], entries))
  {
    hide Work, Ranked;
    if entries != [] {
      WorkIgnoresPrefix(o, prefix, entries[1..]);
      var one := if entries[0].mode == TREE then [(prefix + entries[0].name + [SLASH], entries[0].id)] else [];
      var bare := if entries[0].mode == TREE then [([] + entries[0].name + [SLASH], entries[0].id)] else [];
      WalkAppend(o, one, Subtrees(prefix, entries[1..]));
      WalkAppend(o, bare, Subtrees([], entries[1..]));
      if entries[0].mode == TREE {
        AloneOnTheStack(o, one[0]);
        AloneOnTheStack(o, bare[0]);
      }
    }
  }

  lemma {:induction false} SubtreesAppend(prefix: Path, done: seq<Entry>, e: Entry)
    ensures Subtrees(prefix, done + [e]) == Subtrees(prefix, done) + if e.mode == TREE then [(prefix + e.name + [SLASH], e.id)] else []
  {
    if done == [] {
      assert done + [e] == [e];
    } else {
      var first := if done[0].mode == TREE then [(prefix + done[0].name + [SLASH], done[0].id)] else [];
      var last := if e.mode == TREE then [(prefix + e.name + [SLASH], e.id)] else [];
      assert (done + [e])[0] == done[0] && (done + [e])[1..] == done[1..] + [e];
      SubtreesAppend(prefix, done[1..], e);
      assert Subtrees(prefix, done + [e]) == first + (Subtrees(prefix, done[1..]) + last);
      Regroup(first, Subtrees(prefix, done[1..]), last);
    }
  }

  lemma {:induction false} FilesAppend(prefix: Path, done: seq<Entry>, e: Entry)
    ensures Files(prefix, done + [e]) == Files(prefix, done) +
            if e.mode == TREE || e.mode == SUBMODULE then [] else [Write(prefix + e.name, e.mode == LINK, e.id)]
  {
    if done == [] {
      assert done + [e] == [e];
    } else {
      var first := if done[0].mode == TREE || done[0].mode == SUBMODULE then [] else [Write(prefix + done[0].name, done[0].mode == LINK, done[0].id)];
      var last := if e.mode == TREE || e.mode == SUBMODULE then [] else [Write(prefix + e.name, e.mode == LINK, e.id)];
      assert (done + [e])[0] == done[0] && (done + [e])[1..] == done[1..] + [e];
      FilesAppend(prefix, done[1..], e);
      assert Files(prefix, done + [e]) == first + (Files(prefix, done[1..]) + last);
      Regroup(first, Files(prefix, done[1..]), last);
    }
  }

  lemma HeldAppend(writes: seq<Write>, w: Write)
    ensures Held(writes + [w]) == Held(writes)[w.path := (w.link, w.id)]
  {
    assert (writes + [w])[..|writes|] == writes;
  }

  /** Entries already read, and what reading the rest of the body gives. */
  function Since(done: seq<Entry>, rest: Option<seq<Entry>>): Option<seq<Entry>> {
    if rest.None? then None else Some(done + rest.value)
  }

  lemma EntryRead(body: seq<Byte>, i: nat, done: seq<Entry>)
    requires i < |body|
    ensures var first := First(body[i..]);
            Since(done, Entries(body[i..])) ==
            if first.None? then None else Since(done + [first.value.0], Entries(body[i + first.value.1..]))
  {
    var first := First(body[i..]);
    if first.Some? {
      assert body[i..][first.value.1..] == body[i + first.value.1..];
      var rest := Entries(body[i + first.value.1..]);
      if rest.Some? { assert done + ([first.value.0] + rest.value) == (done + [first.value.0]) + rest.value; }
    }
  }

  /** The inner loop: one tree's body, its subtrees pushed and its files written as they come. */
  method ReadTree(prefix: Path, body: seq<Byte>, below: seq<(Path, Id)>, held: map<Path, (bool, Id)>, ghost writes: seq<Write>)
    returns (ok: bool, trees: seq<(Path, Id)>, files: map<Path, (bool, Id)>)
    requires held == Held(writes)
    ensures ok <==> Entries(body).Some?
    ensures ok ==> trees == below + Subtrees(prefix, Entries(body).value) && files == Held(writes + Files(prefix, Entries(body).value))
  {
    hide First, Entries, Since, Held, Subtrees, Files;
    trees, files := below, held;
    var i := 0;
    ghost var done: seq<Entry> := [];
    ReadEnds(prefix, body, below, writes, []);
    while i < |body|
      invariant i <= |body|
      invariant Since(done, Entries(body[i..])) == Entries(body)
      invariant trees == below + Subtrees(prefix, done)
      invariant files == Held(writes + Files(prefix, done))
    {
      EntryRead(body, i, done);
      var first := First(body[i..]);
      if first.None? { return false, trees, files; }
      var (e, len) := first.value;
      SubtreesAppend(prefix, done, e);
      FilesAppend(prefix, done, e);
      i := i + len;
      assert Files(prefix, done) + [] == Files(prefix, done) && Subtrees(prefix, done) + [] == Subtrees(prefix, done);
      if e.mode == TREE {
        assert below + (Subtrees(prefix, done) + [(prefix + e.name + [SLASH], e.id)]) == trees + [(prefix + e.name + [SLASH], e.id)];
        trees := trees + [(prefix + e.name + [SLASH], e.id)];
      } else if e.mode != SUBMODULE {
        var w := Write(prefix + e.name, e.mode == LINK, e.id);
        assert writes + (Files(prefix, done) + [w]) == (writes + Files(prefix, done)) + [w];
        HeldAppend(writes + Files(prefix, done), w);
        files := files[w.path := (w.link, w.id)];
      }
      done := done + [e];
    }
    ReadEnds(prefix, body, below, writes, done);
    ok := true;
  }

  lemma ReadEnds(prefix: Path, body: seq<Byte>, below: seq<(Path, Id)>, writes: seq<Write>, done: seq<Entry>)
    ensures Since([], Entries(body[0..])) == Entries(body) && Since(done, Entries(body[|body|..])) == Some(done)
    ensures below == below + Subtrees(prefix, []) && writes + Files(prefix, []) == writes
  {
    assert body[0..] == body && done + [] == done;
    if Entries(body).Some? { assert [] + Entries(body).value == Entries(body).value; }
  }

  /** What the walk of a tree gives, as the function returns it. */
  function Outcome(r: Walked): Result<map<Path, (bool, Id)>, Error> {
    if r.Err? then Err(r.error) else Ok(Held(r.value))
  }

  /** pinned_tree, from the commit's tree. */
  method ReadPinnedTree(o: Objects, root: Id) returns (r: Result<map<Path, (bool, Id)>, Error>)
    requires Ranked(o)
    ensures r == Outcome(Walk(o, [], root))
  {
    var trees: seq<(Path, Id)> := [([], root)];
    var files: map<Path, (bool, Id)> := map[];
    ghost var writes: seq<Write> := [];
    LoopEnds(o, root, []);
    while trees != []
      invariant files == Held(writes)
      invariant Then(writes, WalkAll(o, trees)) == Walk(o, [], root)
      decreases WorkAll(o, trees)
    {
      hide Walk, WalkAll, WorkAll, Entries, Held, Subtrees, Files, Then, Ranked;
      var top := trees[|trees| - 1];
      TopFirst(o, writes, trees);
      trees := trees[..|trees| - 1];
      var body := o.read(top.1);
      if body.None? { return Err(Missing(top.1)); }
      var ok, pushed, more := ReadTree(top.0, body.value, trees, files, writes);
      if !ok { return Err(Malformed(top.1)); }
      writes := writes + Files(top.0, Entries(body.value).value);
      trees, files := pushed, more;
    }
    LoopEnds(o, root, writes);
    r := Ok(files);
  }

  lemma LoopEnds(o: Objects, root: Id, writes: seq<Write>)
    requires Ranked(o)
    ensures Held([]) == map[] && Then([], WalkAll(o, [([], root)])) == Walk(o, [], root)
    ensures Then(writes, WalkAll(o, [])) == Ok(writes)
  {
    AloneOnTheStack(o, ([], root));
    assert writes + [] == writes;
    ThenThen([], [], WalkAll(o, [([], root)]));
  }

  lemma AloneOnTheStack(o: Objects, t: (Path, Id))
    requires Ranked(o)
    ensures WalkAll(o, [t]) == Walk(o, t.0, t.1) && WorkAll(o, [t]) == Work(o, t.1)
  {
    assert [t][..0] == [];
    var r := Walk(o, t.0, t.1);
    if r.Ok? { assert r.value + [] == r.value; }
  }

  /** One turn of the loop: the tree on top is read, and the work left goes down. */
  lemma TopFirst(o: Objects, writes: seq<Write>, trees: seq<(Path, Id)>)
    requires Ranked(o) && trees != []
    ensures var (prefix, id) := trees[|trees| - 1];
            var below := trees[..|trees| - 1];
            var body := o.read(id);
            if body.None? then Then(writes, WalkAll(o, trees)) == Err(Missing(id))
            else if Entries(body.value).None? then Then(writes, WalkAll(o, trees)) == Err(Malformed(id))
            else
              var entries := Entries(body.value).value;
              var pushed := below + Subtrees(prefix, entries);
              Then(writes, WalkAll(o, trees)) == Then(writes + Files(prefix, entries), WalkAll(o, pushed)) &&
              WorkAll(o, pushed) < WorkAll(o, trees)
  {
    hide Ranked, Entries, Files;
    var (prefix, id) := trees[|trees| - 1];
    var below := trees[..|trees| - 1];
    var body := o.read(id);
    if body.Some? && Entries(body.value).Some? {
      var entries := Entries(body.value).value;
      var subs := Subtrees(prefix, entries);
      WalkAppend(o, below, subs);
      WorkIgnoresPrefix(o, prefix, entries);
      if WalkAll(o, subs).Ok? {
        ThenThen(Files(prefix, entries), WalkAll(o, subs).value, WalkAll(o, below));
      }
      ThenThen(writes, Files(prefix, entries), WalkAll(o, below + subs));
    }
  }
}
