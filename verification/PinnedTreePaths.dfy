/**
 * What the walk of a git tree (PinnedTree) gives, told by paths: when it
 * succeeds, and exactly when its result is the files the tree leads to.
 */
module PinnedTreePaths {
  import opened Basics
  import opened PinnedTree

  // ---- what the result holds ---------------------------------------------------------------

  /** The entries of a tree that is there and can be read. */
  function EntriesOf(o: Objects, id: Id): seq<Entry> {
    if o.read(id).None? then [] else match Entries(o.read(id).value) case None => [] case Some(entries) => entries
  }

  predicate IsFile(e: Entry) { e.mode != TREE && e.mode != SUBMODULE }

  /** A file the tree's entries lead to: named by the tree itself, or by a subtree, under its name and a slash. */
  ghost predicate Leads(o: Objects, prefix: Path, id: Id, w: Write)
    requires Ranked(o)
    decreases o.rank(id), 1
  {
    exists e <- EntriesOf(o, id) :: LeadsThrough(o, prefix, id, e, w)
  }

  ghost predicate LeadsThrough(o: Objects, prefix: Path, id: Id, e: Entry, w: Write)
    requires Ranked(o) && e in EntriesOf(o, id)
    decreases o.rank(id), 0
  {
    if e.mode == TREE then Leads(o, prefix + e.name + [SLASH], e.id, w)
    else IsFile(e) && w == Write(prefix + e.name, e.mode == LINK, e.id)
  }

  lemma {:induction false} FilesAre(prefix: Path, entries: seq<Entry>, w: Write)
    ensures w in Files(prefix, entries) <==>
            exists e <- entries :: IsFile(e) && w == Write(prefix + e.name, e.mode == LINK, e.id)
  {
    if entries != [] {
      FilesAre(prefix, entries[1..], w);
      assert forall e :: e in entries <==> e == entries[0] || e in entries[1..];
    }
  }

  lemma {:induction false} SubtreesAre(prefix: Path, entries: seq<Entry>, t: (Path, Id))
    ensures t in Subtrees(prefix, entries) <==> exists e <- entries :: e.mode == TREE && t == (prefix + e.name + [SLASH], e.id)
  {
    if entries != [] {
      SubtreesAre(prefix, entries[1..], t);
      assert forall e :: e in entries <==> e == entries[0] || e in entries[1..];
    }
  }

  /** The tree and every one below it is there, is a tree, and parses. */
  ghost predicate Whole(o: Objects, id: Id)
    requires Ranked(o)
    decreases o.rank(id)
  {
    o.read(id).Some? && Entries(o.read(id).value).Some? &&
    forall e <- Entries(o.read(id).value).value :: e.mode == TREE ==> Whole(o, e.id)
  }

  lemma {:induction false} WalkAllSucceeds(o: Objects, trees: seq<(Path, Id)>)
    requires Ranked(o)
    ensures WalkAll(o, trees).Ok? <==> forall t <- trees :: Walk(o, t.0, t.1).Ok?
    decreases |trees|
  {
    hide Walk, Ranked;
    if trees != [] {
      var shorter := trees[..|trees| - 1];
      WalkAllSucceeds(o, shorter);
      assert forall t :: t in trees <==> t == trees[|trees| - 1] || t in shorter;
    }
  }

  /** Exactly when the walk succeeds. */
  lemma {:induction false} WalkSucceeds(o: Objects, prefix: Path, id: Id)
    requires Ranked(o)
    ensures Walk(o, prefix, id).Ok? <==> Whole(o, id)
    decreases o.rank(id)
  {
    if o.read(id).Some? && Entries(o.read(id).value).Some? {
      var entries := Entries(o.read(id).value).value;
      var subs := Subtrees(prefix, entries);
      WalkAllSucceeds(o, subs);
      forall e | e in entries && e.mode == TREE
        ensures var t := (prefix + e.name + [SLASH], e.id); t in subs && (Walk(o, t.0, t.1).Ok? <==> Whole(o, e.id))
      {
        SubtreesAre(prefix, entries, (prefix + e.name + [SLASH], e.id));
        WalkSucceeds(o, prefix + e.name + [SLASH], e.id);
      }
      forall t | t in subs ensures exists e <- entries :: e.mode == TREE && t == (prefix + e.name + [SLASH], e.id) {
        SubtreesAre(prefix, entries, t);
      }
    }
  }

  lemma {:induction false} WalkAllWrites(o: Objects, trees: seq<(Path, Id)>, w: Write)
    requires Ranked(o) && WalkAll(o, trees).Ok?
    ensures forall t <- trees :: Walk(o, t.0, t.1).Ok?
    ensures w in WalkAll(o, trees).value <==> exists t <- trees :: w in Walk(o, t.0, t.1).value
    decreases |trees|
  {
    hide Walk, Ranked;
    if trees != [] {
      var shorter := trees[..|trees| - 1];
      WalkAllWrites(o, shorter, w);
      assert forall t :: t in trees <==> t == trees[|trees| - 1] || t in shorter;
    }
  }

  /** A walk writes the tree's own files, then what the walks of its subtrees write. */
  lemma WalkParts(o: Objects, prefix: Path, id: Id)
    requires Ranked(o) && Walk(o, prefix, id).Ok?
    ensures var entries := EntriesOf(o, id);
            var rest := WalkAll(o, Subtrees(prefix, entries));
            rest.Ok? && Walk(o, prefix, id).value == Files(prefix, entries) + rest.value
  {
  }

  lemma EntriesBelow(o: Objects, id: Id, e: Entry)
    requires Ranked(o) && e in EntriesOf(o, id) && e.mode == TREE
    ensures o.rank(e.id) < o.rank(id)
  {
  }

  /** What a walk writes is exactly what the tree leads to. */
  lemma {:induction false} WalkWritesWhatItLeadsTo(o: Objects, prefix: Path, id: Id, w: Write)
    requires Ranked(o) && Walk(o, prefix, id).Ok?
    ensures w in Walk(o, prefix, id).value <==> Leads(o, prefix, id, w)
    decreases o.rank(id)
  {
    var entries := EntriesOf(o, id);
    var subs := Subtrees(prefix, entries);
    WalkParts(o, prefix, id);
    hide Walk, WalkAll, Files, Subtrees, EntriesOf, Ranked;
    FilesAre(prefix, entries, w);
    WalkAllWrites(o, subs, w);
    forall e | e in entries && e.mode == TREE
      ensures var t := (prefix + e.name + [SLASH], e.id);
              t in subs && (w in Walk(o, t.0, t.1).value <==> LeadsThrough(o, prefix, id, e, w))
    {
      SubtreesAre(prefix, entries, (prefix + e.name + [SLASH], e.id));
      EntriesBelow(o, id, e);
      WalkWritesWhatItLeadsTo(o, prefix + e.name + [SLASH], e.id, w);
    }
    forall t | t in subs ensures exists e <- entries :: e.mode == TREE && t == (prefix + e.name + [SLASH], e.id) {
      SubtreesAre(prefix, entries, t);
    }
    forall e | e in entries && IsFile(e)
      ensures w == Write(prefix + e.name, e.mode == LINK, e.id) <==> LeadsThrough(o, prefix, id, e, w)
    {
    }
  }

  // ---- one path, one file --------------------------------------------------------------------

  /** No name in the tree or below has a slash in it. */
  ghost predicate SlashFree(o: Objects, id: Id)
    requires Ranked(o)
    decreases o.rank(id)
  {
    forall e <- EntriesOf(o, id) :: SLASH !in e.name && (e.mode == TREE ==> SlashFree(o, e.id))
  }

  /**
   * Of two trees at one place (or one and itself): files of one name are the
   * same file, link or not, and subtrees of one name agree in turn. A file and
   * a subtree may share a name.
   */
  ghost predicate Agree(o: Objects, a: Id, b: Id)
    requires Ranked(o)
    decreases o.rank(a)
  {
    forall e <- EntriesOf(o, a), f <- EntriesOf(o, b) | e.name == f.name ::
      && (IsFile(e) && IsFile(f) ==> e.id == f.id && (e.mode == LINK <==> f.mode == LINK))
      && (e.mode == TREE && f.mode == TREE ==> Agree(o, e.id, f.id))
  }

  /** As git writes trees: no name has a slash in it, and no two entries of a tree share one; and so below. */
  ghost predicate Tidy(o: Objects, id: Id)
    requires Ranked(o)
    decreases o.rank(id)
  {
    var entries := EntriesOf(o, id);
    (forall e <- entries, f <- entries :: e.name == f.name ==> e == f) &&
    (forall e <- entries :: SLASH !in e.name && (e.mode == TREE ==> Tidy(o, e.id)))
  }

  lemma {:induction false} TidyAgrees(o: Objects, id: Id)
    requires Ranked(o) && Tidy(o, id)
    ensures SlashFree(o, id) && Agree(o, id, id)
    decreases o.rank(id)
  {
    forall e | e in EntriesOf(o, id) && e.mode == TREE ensures SlashFree(o, e.id) && Agree(o, e.id, e.id) {
      TidyAgrees(o, e.id);
    }
  }

  /** The first name of a path below a prefix. */
  function FirstName(path: Path, prefix: Path): Path
    requires prefix <= path
  {
    var rest := path[|prefix|..];
    var i := Index(rest, SLASH);
    if i.None? then rest else rest[..i.value]
  }

  lemma NameOfFile(prefix: Path, name: Path)
    requires SLASH !in name
    ensures FirstName(prefix + name, prefix) == name
  {
    assert (prefix + name)[|prefix|..] == name;
  }

  lemma NameOfSubtree(prefix: Path, name: Path, path: Path)
    requires SLASH !in name && prefix + name + [SLASH] <= path
    ensures prefix <= path && FirstName(path, prefix) == name
  {
    var below := path[|prefix| + |name| + 1..];
    assert path == prefix + name + [SLASH] + below;
    assert path[|prefix|..] == name + ([SLASH] + below);
    IndexAfter(name, SLASH, below);
  }

  lemma {:induction false} LeadsBelow(o: Objects, prefix: Path, id: Id, w: Write)
    requires Ranked(o) && Leads(o, prefix, id, w)
    ensures prefix <= w.path
    decreases o.rank(id)
  {
    var e :| e in EntriesOf(o, id) && LeadsThrough(o, prefix, id, e, w);
    if e.mode == TREE {
      LeadsBelow(o, prefix + e.name + [SLASH], e.id, w);
      assert prefix <= prefix + e.name + [SLASH];
    }
  }

  /** The entry through which a tree leads to a file: its name is told by the path alone, and so is whether it is a subtree. */
  lemma EntryOfPath(o: Objects, prefix: Path, id: Id, w: Write) returns (e: Entry)
    requires Ranked(o) && SlashFree(o, id) && Leads(o, prefix, id, w)
    ensures e in EntriesOf(o, id) && LeadsThrough(o, prefix, id, e, w)
    ensures prefix <= w.path && FirstName(w.path, prefix) == e.name
    ensures e.mode == TREE <==> |w.path| > |prefix| + |e.name|
  {
    e :| e in EntriesOf(o, id) && LeadsThrough(o, prefix, id, e, w);
    if e.mode == TREE {
      LeadsBelow(o, prefix + e.name + [SLASH], e.id, w);
      NameOfSubtree(prefix, e.name, w.path);
    } else {
      NameOfFile(prefix, e.name);
    }
  }

  /** Trees that agree lead to one file under a path. */
  lemma {:induction false} OneFileAPath(o: Objects, prefix: Path, a: Id, b: Id, w: Write, v: Write)
    requires Ranked(o) && SlashFree(o, a) && SlashFree(o, b) && Agree(o, a, b)
    requires Leads(o, prefix, a, w) && Leads(o, prefix, b, v) && w.path == v.path
    ensures w == v
    decreases o.rank(a)
  {
    var e := EntryOfPath(o, prefix, a, w);
    var f := EntryOfPath(o, prefix, b, v);
    if e.mode == TREE {
      OneFileAPath(o, prefix + e.name + [SLASH], e.id, f.id, w, v);
    }
  }

  /** Trees that do not agree lead to two files under one path, whatever their names. */
  lemma {:induction false} TwoFilesAPath(o: Objects, prefix: Path, a: Id, b: Id) returns (w: Write, v: Write)
    requires Ranked(o) && !Agree(o, a, b)
    ensures Leads(o, prefix, a, w) && Leads(o, prefix, b, v) && w.path == v.path && w != v
    decreases o.rank(a)
  {
    var e, f :| e in EntriesOf(o, a) && f in EntriesOf(o, b) && e.name == f.name &&
                !(&& (IsFile(e) && IsFile(f) ==> e.id == f.id && (e.mode == LINK <==> f.mode == LINK))
                  && (e.mode == TREE && f.mode == TREE ==> Agree(o, e.id, f.id)));
    if e.mode == TREE {
      w, v := TwoFilesAPath(o, prefix + e.name + [SLASH], e.id, f.id);
    } else {
      w, v := Write(prefix + e.name, e.mode == LINK, e.id), Write(prefix + f.name, f.mode == LINK, f.id);
    }
    assert LeadsThrough(o, prefix, a, e, w) && LeadsThrough(o, prefix, b, f, v);
  }

  // ---- the result ----------------------------------------------------------------------------

  /** The map holds what was written, the last write to a path. */
  lemma {:induction false} HeldIsWritten(writes: seq<Write>, path: Path)
    ensures path in Held(writes) <==> exists w <- writes :: w.path == path
    ensures path in Held(writes) ==> Write(path, Held(writes)[path].0, Held(writes)[path].1) in writes
  {
    if writes != [] {
      var shorter, last := writes[..|writes| - 1], writes[|writes| - 1];
      HeldIsWritten(shorter, path);
      assert forall w :: w in writes <==> w == last || w in shorter;
    }
  }

  /** This file is in the walk's result, under its path. */
  ghost predicate InResult(o: Objects, root: Id, w: Write)
    requires Ranked(o) && Walk(o, [], root).Ok?
  {
    var files := Outcome(Walk(o, [], root)).value;
    w.path in files && files[w.path] == (w.link, w.id)
  }

  /** The result is the tree: each path holds the file the tree leads to under it, and nothing else is there. */
  ghost predicate ResultIsTree(o: Objects, root: Id)
    requires Ranked(o) && Walk(o, [], root).Ok?
  {
    forall w: Write :: InResult(o, root, w) <==> Leads(o, [], root, w)
  }

  /**
   * Of all the files the tree leads to under one path exactly one is in the
   * result; the others are left out. Nothing the tree does not lead to is in it.
   */
  lemma OneOfThemIsHeld(o: Objects, root: Id, w: Write)
    requires Ranked(o) && Walk(o, [], root).Ok?
    ensures InResult(o, root, w) ==> Leads(o, [], root, w)
    ensures Leads(o, [], root, w) ==>
              exists kept: Write :: kept.path == w.path && InResult(o, root, kept) && Leads(o, [], root, kept) &&
                forall v: Write :: Leads(o, [], root, v) && v.path == w.path && v != kept ==> !InResult(o, root, v)
  {
    hide Walk, Leads;
    var writes := Walk(o, [], root).value;
    WalkWritesWhatItLeadsTo(o, [], root, w);
    HeldIsWritten(writes, w.path);
    if w.path in Held(writes) {
      var kept := Write(w.path, Held(writes)[w.path].0, Held(writes)[w.path].1);
      WalkWritesWhatItLeadsTo(o, [], root, kept);
      assert InResult(o, root, kept);
    }
  }

  /** Whatever the names: the result is the tree exactly when no two files have one path. */
  lemma TreeOrTwoFiles(o: Objects, root: Id)
    requires Ranked(o) && Walk(o, [], root).Ok?
    ensures ResultIsTree(o, root) <==>
            forall w: Write, v: Write :: Leads(o, [], root, w) && Leads(o, [], root, v) && w.path == v.path ==> w == v
  {
    hide Walk, Leads, InResult;
    forall w: Write ensures InResult(o, root, w) ==> Leads(o, [], root, w) { OneOfThemIsHeld(o, root, w); }
    forall w: Write, v: Write | Leads(o, [], root, w) && Leads(o, [], root, v) && w.path == v.path && w != v
      ensures !InResult(o, root, w) || !InResult(o, root, v)
    {
      OnlyOneIsHeld(o, root, w, v);
    }
    if forall w: Write, v: Write :: Leads(o, [], root, w) && Leads(o, [], root, v) && w.path == v.path ==> w == v {
      forall w: Write | Leads(o, [], root, w) ensures InResult(o, root, w) {
        OneOfThemIsHeld(o, root, w);
      }
    }
  }

  lemma OnlyOneIsHeld(o: Objects, root: Id, w: Write, v: Write)
    requires Ranked(o) && Walk(o, [], root).Ok? && w.path == v.path && w != v
    ensures !InResult(o, root, w) || !InResult(o, root, v)
  {
  }

  /**
   * Exactly when the result is the tree, for trees without slashes in their
   * names: when entries of one name, in any one tree or in subtrees that stand
   * at one path, are the same file or agree in turn.
   */
  lemma ResultIsTheTreeExactly(o: Objects, root: Id)
    requires Ranked(o) && SlashFree(o, root) && Walk(o, [], root).Ok?
    ensures ResultIsTree(o, root) <==> Agree(o, root, root)
  {
    hide Walk, Leads, Agree, ResultIsTree, SlashFree;
    TreeOrTwoFiles(o, root);
    if Agree(o, root, root) {
      forall w: Write, v: Write | Leads(o, [], root, w) && Leads(o, [], root, v) && w.path == v.path ensures w == v {
        OneFileAPath(o, [], root, root, w, v);
      }
    } else {
      var w, v := TwoFilesAPath(o, [], root, root);
    }
  }

  /**
   * The walk's result on a tidy tree, as git writes them: each path holds
   * exactly the file the tree leads to under it, flagged as a link when it is
   * one; submodules are not there, and nothing else is.
   */
  lemma ResultIsTheTree(o: Objects, root: Id, path: Path, link: bool, id: Id)
    requires Ranked(o) && Tidy(o, root) && Walk(o, [], root).Ok?
    ensures var files := Outcome(Walk(o, [], root)).value;
            path in files && files[path] == (link, id) <==> Leads(o, [], root, Write(path, link, id))
  {
    hide Walk, Leads, Agree, SlashFree;
    TidyAgrees(o, root);
    ResultIsTheTreeExactly(o, root);
    assert InResult(o, root, Write(path, link, id)) <==> Leads(o, [], root, Write(path, link, id));
  }

  // ---- when it is not the tree ---------------------------------------------------------------

  /** The later of two writes to a path is the one that is held. */
  lemma {:induction false} LastWriteIsHeld(before: seq<Write>, w: Write, after: seq<Write>)
    requires forall v <- after :: v.path != w.path
    ensures w.path in Held(before + [w] + after) && Held(before + [w] + after)[w.path] == (w.link, w.id)
    decreases |after|
  {
    var all := before + [w] + after;
    if after == [] {
      assert all == before + [w];
      HeldAppend(before, w);
    } else {
      var shorter, last := after[..|after| - 1], after[|after| - 1];
      assert last in after && forall v <- shorter :: v in after;
      LastWriteIsHeld(before, w, shorter);
      assert all == (before + [w] + shorter) + [last];
      HeldAppend(before + [w] + shorter, last);
    }
  }

  lemma LeadsStraightTo(o: Objects, prefix: Path, id: Id, e: Entry)
    requires Ranked(o) && e in EntriesOf(o, id) && IsFile(e)
    ensures Leads(o, prefix, id, Write(prefix + e.name, e.mode == LINK, e.id))
  {
    assert LeadsThrough(o, prefix, id, e, Write(prefix + e.name, e.mode == LINK, e.id));
  }

  lemma LeadsBy(o: Objects, prefix: Path, id: Id, t: Entry, w: Write)
    requires Ranked(o) && t in EntriesOf(o, id) && t.mode == TREE && Leads(o, prefix + t.name + [SLASH], t.id, w)
    ensures Leads(o, prefix, id, w)
  {
    assert LeadsThrough(o, prefix, id, t, w);
  }

  /** Two files of one name in one tree, not the same: one of them is lost. */
  lemma TwoOfANameHideOne(o: Objects, root: Id, e: Entry, f: Entry)
    requires Ranked(o) && Walk(o, [], root).Ok? && e in EntriesOf(o, root) && f in EntriesOf(o, root)
    requires IsFile(e) && IsFile(f) && e.name == f.name && (e.id != f.id || (e.mode == LINK) != (f.mode == LINK))
    ensures !ResultIsTree(o, root)
  {
    hide Walk, Leads, ResultIsTree;
    LeadsStraightTo(o, [], root, e);
    LeadsStraightTo(o, [], root, f);
    TreeOrTwoFiles(o, root);
  }

  /** A name with a slash in it, beside a subtree below which it spells the path of another file: one of the two is lost. */
  lemma SlashInANameHidesAFile(o: Objects, root: Id, e: Entry, t: Entry, f: Entry)
    requires Ranked(o) && Walk(o, [], root).Ok? && e in EntriesOf(o, root) && t in EntriesOf(o, root) && f in EntriesOf(o, t.id)
    requires IsFile(e) && t.mode == TREE && IsFile(f) && e.name == t.name + [SLASH] + f.name
    requires e.id != f.id || (e.mode == LINK) != (f.mode == LINK)
    ensures !ResultIsTree(o, root)
  {
    hide Walk, Leads, ResultIsTree;
    LeadsStraightTo(o, [], root, e);
    LeadsStraightTo(o, [] + t.name + [SLASH], t.id, f);
    LeadsBy(o, [], root, t, Write([] + t.name + [SLASH] + f.name, f.mode == LINK, f.id));
    assert [] + t.name + [SLASH] + f.name == [] + e.name;
    TreeOrTwoFiles(o, root);
  }

  /** So without slash-free names agreeing is not enough: "a/b" beside a tree "a" that holds "b", and no name twice in any tree. */
  lemma AgreeingIsNotEnough(o: Objects, root: Id, e: Entry, t: Entry, f: Entry)
    requires Ranked(o) && EntriesOf(o, root) == [e, t] && EntriesOf(o, t.id) == [f]
    requires IsFile(e) && t.mode == TREE && IsFile(f) && e.name == t.name + [SLASH] + f.name && e.id != f.id
    ensures Walk(o, [], root).Ok? && Agree(o, root, root) && !ResultIsTree(o, root)
  {
    hide Walk, ResultIsTree;
    assert |e.name| > |t.name|;
    assert e in [e, t] && t in [e, t] && f in [f];
    assert Agree(o, t.id, t.id);
    WalkSucceeds(o, [], root);
    SlashInANameHidesAFile(o, root, e, t, f);
  }

  /** Without distinct names it fails: of two files of one name in one tree the first is not in the result. */
  lemma SharedNameHidesAFile(o: Objects, root: Id, body: seq<Byte>, e: Entry, f: Entry)
    requires Ranked(o) && o.read(root) == Some(body) && Entries(body) == Some([e, f])
    requires e.mode !in {TREE, SUBMODULE} && f.mode !in {TREE, SUBMODULE} && e.name == f.name && e.id != f.id
    ensures Leads(o, [], root, Write(e.name, e.mode == LINK, e.id))
    ensures Walk(o, [], root).Ok? && e.name in Held(Walk(o, [], root).value) &&
            Held(Walk(o, [], root).value)[e.name] == (f.mode == LINK, f.id)
  {
    hide Entries;
    assert e in [e, f];
    LeadsStraightTo(o, [], root, e);
    TwoFiles(e, f);
    var w, v := Write([] + e.name, e.mode == LINK, e.id), Write([] + f.name, f.mode == LINK, f.id);
    assert [] + e.name == e.name && [] + f.name == f.name;
    NoSubtrees(o, root, body, [e, f], [w, v]);
    assert [w] + [v] == [w, v];
    HeldAppend([w], v);
  }

  lemma TwoFiles(e: Entry, f: Entry)
    requires e.mode !in {TREE, SUBMODULE} && f.mode !in {TREE, SUBMODULE}
    ensures Files([], [e, f]) == [Write([] + e.name, e.mode == LINK, e.id), Write([] + f.name, f.mode == LINK, f.id)]
    ensures Subtrees([], [e, f]) == []
  {
    assert [e, f][1..] == [f] && [f][1..] == [];
    assert Files([], [f]) == [Write([] + f.name, f.mode == LINK, f.id)] && Subtrees([], [f]) == [];
  }

  lemma NoSubtrees(o: Objects, root: Id, body: seq<Byte>, entries: seq<Entry>, writes: seq<Write>)
    requires Ranked(o) && o.read(root) == Some(body) && Entries(body) == Some(entries)
    requires Subtrees([], entries) == [] && Files([], entries) == writes
    ensures Walk(o, [], root) == Ok(writes)
  {
    assert writes + [] == writes;
  }
}
