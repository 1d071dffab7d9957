/**
 ReplaceTree on disk (agent/tree.go, rewriteHome, writeNodes, clearChildren): the new tree is
 written beside Home first and only then moved in.
 */
module Rewrite {
  import opened Common
  import opened Paths
  import opened FileSystem
  import opened Disks
  import opened Home
  import opened Projection
  import Tree

  /** The fixed part of the staging directory's name. */
  const NEXT: Bytes := [110, 101, 120, 116, 45]

  // -------------------------------------------------- What a snapshot looks like

  /** rel is a projected path or one of its ancestors. */
  ghost predicate Spanned(snap: Tree.Snapshot, rel: Path) {
    rel == [] || exists p :: p in snap && Under(rel, Split(p))
  }

  /** The entry a snapshot puts at rel: the projected one, else an ancestor directory. */
  ghost predicate Expected(snap: Tree.Snapshot, rel: Path, e: Entry) {
    if exists p :: p in snap && Split(p) == rel
    then exists p :: p in snap && Split(p) == rel && e == EntryOf(snap[p])
    else e == Dir
  }

  ghost predicate ShowsAt(fs: Files, root: Path, snap: Tree.Snapshot, rel: Path) {
    && (root + rel in fs <==> Spanned(snap, rel))
    && (root + rel in fs ==> Expected(snap, rel, fs[root + rel]))
  }

  /** Below root the disk is the snapshot and the ancestors of its paths, nothing else. */
  ghost predicate Shows(fs: Files, root: Path, snap: Tree.Snapshot) {
    forall rel :: ShowsAt(fs, root, snap, rel)
  }

  /** No projected file is a proper ancestor of another projected path. */
  ghost predicate FilesAreLeaves(snap: Tree.Snapshot) {
    forall p, q :: p in snap && q in snap && snap[p].kind != Tree.DirectoryKind ==> !Above(Split(p), Split(q))
  }

  ghost predicate SameOutside(fs: Files, fs': Files, root: Path) {
    forall q :: !Under(root, q) ==> (q in fs <==> q in fs') && (q in fs ==> fs'[q] == fs[q])
  }

  /** Outside staging nothing is new but directories on the way to home. */
  ghost predicate MadeTowards(fs: Files, fs': Files, home: Path, staging: Path) {
    exists a :: Under(a, home) && SameOutside(MkdirAll(fs, a), fs', staging)
  }

  /** Same entries outside both directories. */
  ghost predicate SameApart(fs: Files, fs': Files, home: Path, staging: Path) {
    forall q :: !Under(home, q) && !Under(staging, q) ==> (q in fs <==> q in fs') && (q in fs ==> fs'[q] == fs[q])
  }

  // ------------------------------------------------------------ Writing one node

  predicate NodeOk(fs: Files, root: Path, p: Bytes, n: Tree.Node) {
    var full := Target(root, p);
    if n.kind == Tree.DirectoryKind then MkdirAllOk(fs, full)
    else MkdirAllOk(fs, Parent(full)) && WriteOk(MkdirAll(fs, Parent(full)), full)
  }

  function WithNode(fs: Files, root: Path, p: Bytes, n: Tree.Node): Files {
    var full := Target(root, p);
    if n.kind == Tree.DirectoryKind then MkdirAll(fs, full)
    else MkdirAll(fs, Parent(full))[full := File(n.data)]
  }

  /** The files below root are exactly the projected files. */
  lemma ShownFile(fs: Files, root: Path, snap: Tree.Snapshot, q: Path)
    requires Shows(fs, root, snap) && Under(root, q)
    ensures IsFile(fs, q) <==> exists p :: p in snap && Target(root, p) == q && snap[p].kind != Tree.DirectoryKind
  {
    var rel := q[|root|..];
    assert root + rel == q;
    assert ShowsAt(fs, root, snap, rel);
    if p :| p in snap && Target(root, p) == q {
      assert Split(p) == (root + Split(p))[|root|..] == rel;
      forall p' | p' in snap && Split(p') == rel
        ensures p' == p
      {
        SplitInjective(p, p');
      }
      assert Under(rel, Split(p));
    }
  }

  lemma ShownPresent(fs: Files, root: Path, snap: Tree.Snapshot, p: Bytes)
    requires Shows(fs, root, snap) && p !in snap
    ensures Target(root, p) in fs ==> fs[Target(root, p)] == Dir
    ensures Target(root, p) in fs <==> exists q :: q in snap && Above(Split(p), Split(q))
  {
    assert ShowsAt(fs, root, snap, Split(p));
    forall q | q in snap
      ensures Split(q) != Split(p)
    {
      if Split(q) == Split(p) { SplitInjective(p, q); }
    }
  }

  lemma AboveSplit(root: Path, p: Bytes, q: Bytes)
    ensures Above(Target(root, p), Target(root, q)) <==> Above(Split(p), Split(q))
  {
    var a, b := Target(root, p), Target(root, q);
    assert a[|root|..] == Split(p) && b[|root|..] == Split(q);
    if Above(a, b) {
      assert b[..|a|][|root|..] == b[|root|..][..|Split(p)|];
    }
    if Above(Split(p), Split(q)) {
      assert b[..|a|] == root + Split(q)[..|Split(p)|];
    }
  }

  /** A directory chain can be made exactly when no projected file is in the way. */
  lemma ChainOk(fs: Files, root: Path, snap: Tree.Snapshot, full: Path)
    requires WellFormed(fs) && IsDir(fs, root) && Shows(fs, root, snap) && Under(root, full)
    ensures MkdirAllOk(fs, full) <==>
              forall q :: q in snap && snap[q].kind != Tree.DirectoryKind ==> !Under(Target(root, q), full)
  {
    if q :| q in snap && snap[q].kind != Tree.DirectoryKind && Under(Target(root, q), full) {
      ShownFile(fs, root, snap, Target(root, q));
    }
    if a :| Under(a, full) && IsFile(fs, a) {
      if Under(a, root) {
        AncestorIsDir(fs, a, root);
      }
      assert Under(root, a);
      ShownFile(fs, root, snap, a);
    }
  }

  lemma LeavesWith(done: Tree.Snapshot, p: Bytes, n: Tree.Node)
    requires p !in done && FilesAreLeaves(done)
    ensures FilesAreLeaves(done[p := n]) <==>
              && (forall q :: q in done && done[q].kind != Tree.DirectoryKind ==> !Above(Split(q), Split(p)))
              && (n.kind != Tree.DirectoryKind ==> forall q :: q in done ==> !Above(Split(p), Split(q)))
  {
    var next := done[p := n];
    if FilesAreLeaves(next) {
      forall q | q in done
        ensures done[q].kind != Tree.DirectoryKind ==> !Above(Split(q), Split(p))
        ensures n.kind != Tree.DirectoryKind ==> !Above(Split(p), Split(q))
      {
        assert q in next && p in next;
      }
    }
  }

  /** The node can be written exactly when no projected file is, or becomes, an ancestor. */
  lemma NodeFits(fs: Files, root: Path, done: Tree.Snapshot, p: Bytes, n: Tree.Node)
    requires WellFormed(fs) && IsDir(fs, root) && Shows(fs, root, done)
    requires p !in done && FilesAreLeaves(done)
    ensures NodeOk(fs, root, p, n) <==> FilesAreLeaves(done[p := n])
  {
    hide Shows, FilesAreLeaves, WellFormed;
    var full := Target(root, p);
    LeavesWith(done, p, n);
    forall q | q in done
      ensures Under(Target(root, q), full) <==> Above(Split(q), Split(p))
      ensures Under(Target(root, q), Parent(full)) <==> Above(Split(q), Split(p))
    {
      TargetInjective(root, p, q);
      AboveSplit(root, q, p);
    }
    if n.kind == Tree.DirectoryKind {
      ChainOk(fs, root, done, full);
    } else {
      ChainOk(fs, root, done, Parent(full));
      if MkdirAllOk(fs, Parent(full)) {
        MkdirAllWellFormed(fs, Parent(full));
        ShownPresent(fs, root, done, p);
        assert full in MkdirAll(fs, Parent(full)) <==> full in fs;
      }
    }
  }

  lemma WithNodeAt(fs: Files, root: Path, p: Bytes, n: Tree.Node, q: Path)
    ensures q in WithNode(fs, root, p, n) <==> q in fs || Under(q, Target(root, p))
    ensures q == Target(root, p) ==>
              WithNode(fs, root, p, n)[q] ==
              if n.kind == Tree.DirectoryKind then (if q in fs then fs[q] else Dir) else File(n.data)
    ensures q != Target(root, p) && q in WithNode(fs, root, p, n) ==>
              WithNode(fs, root, p, n)[q] == if q in fs then fs[q] else Dir
  {
    var full := Target(root, p);
    if Under(q, full) && q != full {
      ParentOfUnder(q, full);
    }
  }

  lemma WithNodeWellFormed(fs: Files, root: Path, p: Bytes, n: Tree.Node)
    requires WellFormed(fs) && IsDir(fs, root) && NodeOk(fs, root, p, n)
    ensures WellFormed(WithNode(fs, root, p, n)) && IsDir(WithNode(fs, root, p, n), root)
    ensures SameOutside(fs, WithNode(fs, root, p, n), root)
  {
    hide MkdirAll, MkdirAllOk;
    var full := Target(root, p);
    if n.kind == Tree.DirectoryKind {
      MkdirAllWellFormed(fs, full);
    } else {
      MkdirAllWellFormed(fs, Parent(full));
      WriteWellFormed(MkdirAll(fs, Parent(full)), full, n.data);
    }
    forall q | !Under(root, q)
      ensures (q in fs <==> q in WithNode(fs, root, p, n)) && (q in fs ==> WithNode(fs, root, p, n)[q] == fs[q])
    {
      WithNodeAt(fs, root, p, n, q);
      if Under(q, full) {
        assert Under(q, root);
        AncestorIsDir(fs, q, root);
      }
    }
    WithNodeAt(fs, root, p, n, root);
  }

  lemma SpannedWith(done: Tree.Snapshot, p: Bytes, n: Tree.Node, rel: Path)
    requires p !in done
    ensures Spanned(done[p := n], rel) <==> Spanned(done, rel) || Under(rel, Split(p))
  {
    var next := done[p := n];
    if q :| q in done && Under(rel, Split(q)) {
      assert q in next;
    }
    if Under(rel, Split(p)) {
      assert p in next;
    }
  }

  lemma ExpectedWith(done: Tree.Snapshot, p: Bytes, n: Tree.Node, rel: Path, e: Entry)
    requires p !in done
    ensures rel == Split(p) ==> (Expected(done[p := n], rel, e) <==> e == EntryOf(n))
    ensures rel != Split(p) ==> (Expected(done[p := n], rel, e) <==> Expected(done, rel, e))
  {
    var next := done[p := n];
    assert p in next;
    forall q | q in next && Split(q) == Split(p)
      ensures q == p
    {
      SplitInjective(p, q);
    }
    assert forall q :: q in done ==> q in next && next[q] == done[q];
    assert forall q :: q in next && q != p ==> q in done;
  }

  lemma NodeShownAt(fs: Files, root: Path, done: Tree.Snapshot, p: Bytes, n: Tree.Node, rel: Path)
    requires Shows(fs, root, done) && p !in done
    ensures ShowsAt(WithNode(fs, root, p, n), root, done[p := n], rel)
  {
    hide WithNode, Spanned, Expected;
    var q := root + rel;
    assert q[|root|..] == rel && Target(root, p)[|root|..] == Split(p);
    UnderSplit(root, p, rel);
    assert ShowsAt(fs, root, done, rel);
    WithNodeAt(fs, root, p, n, q);
    SpannedWith(done, p, n, rel);
    if q in WithNode(fs, root, p, n) {
      ExpectedWith(done, p, n, rel, WithNode(fs, root, p, n)[q]);
      if rel == Split(p) {
        ShownPresent(fs, root, done, p);
      } else if q !in fs {
        AbsentExpectsDir(done, rel);
      }
    }
  }

  lemma NodeShown(fs: Files, root: Path, done: Tree.Snapshot, p: Bytes, n: Tree.Node)
    requires Shows(fs, root, done) && p !in done
    ensures Shows(WithNode(fs, root, p, n), root, done[p := n])
  {
    hide WithNode;
    var fs', next := WithNode(fs, root, p, n), done[p := n];
    forall rel
      ensures ShowsAt(fs', root, next, rel)
    {
      NodeShownAt(fs, root, done, p, n, rel);
    }
  }

  lemma UnderSplit(root: Path, p: Bytes, rel: Path)
    ensures Under(root + rel, Target(root, p)) <==> Under(rel, Split(p))
  {
    var q, full := root + rel, Target(root, p);
    assert full[|root|..] == Split(p) && q[|root|..] == rel;
    if Under(q, full) {
      assert full[..|q|][|root|..] == Split(p)[..|rel|];
    }
    if Under(rel, Split(p)) {
      assert full[..|q|] == root + Split(p)[..|rel|];
    }
  }

  lemma AbsentExpectsDir(done: Tree.Snapshot, rel: Path)
    requires !Spanned(done, rel)
    ensures Expected(done, rel, Dir)
  {
    assert forall p :: p in done ==> !Under(rel, Split(p));
  }

  // --------------------------------------------------------------- writeNodes

  function Part(snap: Tree.Snapshot, keys: set<Bytes>): Tree.Snapshot {
    map p | p in snap && p in keys :: snap[p]
  }

  lemma PartWith(snap: Tree.Snapshot, keys: set<Bytes>, p: Bytes)
    requires p in snap
    ensures Part(snap, keys + {p}) == Part(snap, keys)[p := snap[p]]
  {
  }

  lemma LeavesOfPart(snap: Tree.Snapshot, keys: set<Bytes>)
    requires FilesAreLeaves(snap)
    ensures FilesAreLeaves(Part(snap, keys))
  {
  }

  method WriteNode(disk: Disk, root: Path, p: Bytes, n: Tree.Node, calm: bool) returns (ok: bool)
    requires disk.Valid() && Normal(root) && IsDir(disk.files, root) && ValidPath(p)
    modifies disk
    ensures disk.Valid() && IsDir(disk.files, root)
    ensures SameOutside(old(disk.files), disk.files, root)
    ensures ok ==> NodeOk(old(disk.files), root, p, n) && disk.files == WithNode(old(disk.files), root, p, n)
    ensures calm ==> (ok <==> NodeOk(old(disk.files), root, p, n))
  {
    hide ValidPath, WellFormed, MkdirAll, MkdirAllOk;
    ghost var fs := disk.files;
    ResolveStaysInside(root, p);
    var full := Target(root, p);
    if n.kind == Tree.DirectoryKind {
      ok := disk.MkdirAll(full, calm);
      if ok {
        WithNodeWellFormed(fs, root, p, n);
      } else {
        PartialInside(fs, disk.files, root, full);
      }
      return;
    }
    ok := disk.MkdirAll(Parent(full), calm);
    if !ok {
      PartialInside(fs, disk.files, root, Parent(full));
      return;
    }
    ghost var made := disk.files;
    PartialInside(fs, made, root, Parent(full));
    ok := disk.WriteFile(full, n.data, calm);
    if ok {
      WithNodeWellFormed(fs, root, p, n);
    } else {
      assert forall q :: !Under(root, q) ==> q != full;
    }
  }

  lemma PartialInside(fs: Files, fs': Files, root: Path, full: Path)
    requires WellFormed(fs) && IsDir(fs, root) && Under(root, full)
    requires exists a :: Under(a, full) && MkdirAllOk(fs, a) && fs' == MkdirAll(fs, a)
    ensures SameOutside(fs, fs', root) && IsDir(fs', root)
  {
    var a :| Under(a, full) && MkdirAllOk(fs, a) && fs' == MkdirAll(fs, a);
    forall q | !Under(root, q) && Under(q, a)
      ensures q in fs
    {
      assert Under(q, root);
      AncestorIsDir(fs, q, root);
    }
  }

  /**
   writeNodes into an empty directory, visiting the map in any order. Undisturbed it succeeds
   exactly when no projected file is a proper ancestor of another projected path, and then the
   directory shows the snapshot; it never touches anything outside that directory.
   */
  method WriteNodes(disk: Disk, root: Path, snap: Tree.Snapshot, calm: bool) returns (ok: bool)
    requires disk.Valid() && Normal(root) && IsDir(disk.files, root)
    requires forall q :: Above(root, q) ==> q !in disk.files
    requires forall p :: p in snap ==> ValidPath(p)
    modifies disk
    ensures disk.Valid() && IsDir(disk.files, root)
    ensures SameOutside(old(disk.files), disk.files, root)
    ensures ok ==> Shows(disk.files, root, snap) && FilesAreLeaves(snap)
    ensures calm ==> (ok <==> FilesAreLeaves(snap))
  {
    hide ValidPath, WellFormed, NodeOk, WithNode, Shows, FilesAreLeaves, IsDir;
    var rest := snap.Keys;
    ghost var done: Tree.Snapshot := map[];
    EmptyShows(disk.files, root);
    while rest != {}
      invariant disk.Valid() && IsDir(disk.files, root)
      invariant rest <= snap.Keys && done == Part(snap, snap.Keys - rest)
      invariant SameOutside(old(disk.files), disk.files, root)
      invariant Shows(disk.files, root, done) && FilesAreLeaves(done)
      decreases rest
    {
      var p :| p in rest;
      ghost var fs := disk.files;
      NodeFits(fs, root, done, p, snap[p]);
      PartWith(snap, snap.Keys - rest, p);
      assert snap.Keys - (rest - {p}) == snap.Keys - rest + {p};
      ok := WriteNode(disk, root, p, snap[p], calm);
      if !ok {
        if FilesAreLeaves(snap) {
          LeavesOfPart(snap, snap.Keys - (rest - {p}));
        }
        return;
      }
      WithNodeWellFormed(fs, root, p, snap[p]);
      NodeShown(fs, root, done, p, snap[p]);
      done := done[p := snap[p]];
      rest := rest - {p};
    }
    assert done == snap;
    ok := true;
  }

  lemma EmptyShows(fs: Files, root: Path)
    requires IsDir(fs, root) && forall q :: Above(root, q) ==> q !in fs
    ensures Shows(fs, root, map[]) && FilesAreLeaves(map[])
  {
    forall rel
      ensures ShowsAt(fs, root, map[], rel)
    {
      if rel == [] {
        assert root + rel == root;
      } else {
        assert Above(root, root + rel);
      }
    }
  }

  // ------------------------------------------------------------ clearChildren

  /** Empties home; whatever fails, nothing outside home is touched. */
  method ClearChildren(disk: Disk, home: Path, calm: bool) returns (ok: bool)
    requires disk.Valid() && IsDir(disk.files, home)
    modifies disk
    ensures disk.Valid() && IsDir(disk.files, home)
    ensures SameOutside(old(disk.files), disk.files, home)
    ensures ok ==> forall q :: Above(home, q) ==> q !in disk.files
    ensures calm ==> ok
  {
    hide WellFormed, MkdirAll, MkdirAllOk;
    ghost var fs := disk.files;
    MkdirAllNoop(fs, home);
    ok := disk.MkdirAll(home, calm);
    if !ok {
      MkdirBelowDir(fs, disk.files, home);
      return;
    }
    var names: set<Bytes>;
    ok, names := disk.ReadDir(home, calm);
    if !ok {
      return;
    }
    ghost var all := names;
    while names != {}
      invariant ok && disk.Valid() && IsDir(disk.files, home)
      invariant names <= all == Children(fs, home)
      invariant forall q :: q in disk.files ==> q in fs && disk.files[q] == fs[q]
      invariant forall q :: q in fs && !Above(home, q) ==> q in disk.files
      invariant forall n, q :: n in all && n !in names && Under(home + [n], q) ==> q !in disk.files
      decreases names
    {
      var n :| n in names;
      assert Above(home, home + [n]);
      ok := RemoveChild(disk, home, n, calm);
      if !ok {
        return;
      }
      names := names - {n};
    }
    forall q | Above(home, q) && q in fs
      ensures q !in disk.files
    {
      ChildAbove(fs, home, q);
    }
  }

  method RemoveChild(disk: Disk, home: Path, n: Bytes, calm: bool) returns (ok: bool)
    requires disk.Valid() && IsDir(disk.files, home)
    modifies disk
    ensures disk.Valid() && IsDir(disk.files, home)
    ensures forall q :: q in disk.files ==> q in old(disk.files) && disk.files[q] == old(disk.files)[q]
    ensures forall q :: q in old(disk.files) && !Above(home, q) ==> q in disk.files
    ensures ok ==> forall q :: Under(home + [n], q) ==> q !in disk.files
    ensures calm ==> ok
  {
    hide WellFormed;
    assert forall q :: Under(home + [n], q) ==> Above(home, q);
    ChildStat(disk.files, home, n);
    ok := disk.RemoveAll(home + [n], calm);
  }

  lemma ChildStat(fs: Files, home: Path, n: Bytes)
    requires WellFormed(fs) && IsDir(fs, home)
    ensures Lstat(fs, home + [n]) != NotADirectory
  {
    var child := home + [n];
    if child !in fs {
      forall a | a in Ancestors(child)
        ensures !IsFile(fs, a)
      {
        if a != child {
          ParentOfUnder(a, child);
          assert Parent(child) == home;
          AncestorIsDir(fs, a, home);
        }
      }
    }
  }

  /** What lies below a directory lies at or below one of its children. */
  lemma ChildAbove(fs: Files, home: Path, q: Path)
    requires WellFormed(fs) && Above(home, q) && q in fs
    ensures q[|home|] in Children(fs, home) && Under(home + [q[|home|]], q)
  {
    var c := home + [q[|home|]];
    assert c == q[..|home| + 1];
    if c != q {
      assert Above(c, q);
    }
  }

  lemma MkdirBelowDir(fs: Files, fs': Files, home: Path)
    requires WellFormed(fs) && IsDir(fs, home)
    requires exists a :: Under(a, home) && MkdirAllOk(fs, a) && fs' == MkdirAll(fs, a)
    ensures fs' == fs
  {
    var a :| Under(a, home) && MkdirAllOk(fs, a) && fs' == MkdirAll(fs, a);
    AncestorIsDir(fs, a, home);
    MkdirAllNoop(fs, a);
  }

  // --------------------------------------------------------------- rewriteHome

  /** The moving loop's state: each child of the staged tree is in exactly one of the two places. */
  ghost predicate Moving(staged: Files, now: Files, home: Path, staging: Path, rest: set<Bytes>) {
    && (forall rel :: rel != [] ==>
          && (home + rel in now <==> rel[0] !in rest && staging + rel in staged)
          && (rel[0] !in rest && staging + rel in staged ==> now[home + rel] == staged[staging + rel]))
    && (forall rel :: rel != [] && rel[0] in rest ==>
          && (staging + rel in now <==> staging + rel in staged)
          && (staging + rel in staged ==> now[staging + rel] == staged[staging + rel]))
    && (forall q :: !Under(home, q) && !Under(staging, q) ==>
          && (q in now <==> q in staged)
          && (q in staged ==> now[q] == staged[q]))
    && IsDir(now, home) && IsDir(now, staging)
  }

  /** Two directories side by side: nothing is below both. */
  predicate Siblings(home: Path, staging: Path) {
    |home| == |staging| && home != staging
  }

  lemma MoveChild(staged: Files, now: Files, home: Path, staging: Path, rest: set<Bytes>, n: Bytes)
    requires WellFormed(now) && Siblings(home, staging) && Moving(staged, now, home, staging, rest)
    requires n in rest && staging + [n] in staged
    ensures RenameOk(now, staging + [n], home + [n])
    ensures Moving(staged, Rename(now, staging + [n], home + [n]), home, staging, rest - {n})
  {
    hide Rename;
    var from, to := staging + [n], home + [n];
    MoveChildOk(staged, now, home, staging, rest, n);
    var next := Rename(now, from, to);
    forall rel: Path | rel != []
      ensures home + rel in next <==> rel[0] !in rest - {n} && staging + rel in staged
      ensures rel[0] !in rest - {n} && staging + rel in staged ==> next[home + rel] == staged[staging + rel]
      ensures rel[0] in rest - {n} ==> (staging + rel in next <==> staging + rel in staged)
      ensures rel[0] in rest - {n} && staging + rel in staged ==> next[staging + rel] == staged[staging + rel]
    {
      MoveChildAt(staged, now, home, staging, rest, n, rel);
    }
    forall q | !Under(home, q) && !Under(staging, q)
      ensures q in next <==> q in staged
      ensures q in staged ==> next[q] == staged[q]
    {
      MoveChildOutside(staged, now, home, staging, rest, n, q);
    }
    MoveChildRoots(staged, now, home, staging, rest, n);
  }

  lemma MoveChildOk(staged: Files, now: Files, home: Path, staging: Path, rest: set<Bytes>, n: Bytes)
    requires Siblings(home, staging) && Moving(staged, now, home, staging, rest)
    requires n in rest && staging + [n] in staged
    ensures RenameOk(now, staging + [n], home + [n])
  {
    var rel: Path := [n];
    assert rel[0] == n;
    assert staging + rel in now && home + rel !in now;
    assert Parent(home + [n]) == home;
    assert (staging + [n])[..|home|] == staging && (home + [n])[..|home|] == home;
  }

  lemma MovingAt(staged: Files, now: Files, home: Path, staging: Path, rest: set<Bytes>, rel: Path)
    requires Moving(staged, now, home, staging, rest) && rel != []
    ensures home + rel in now <==> rel[0] !in rest && staging + rel in staged
    ensures rel[0] !in rest && staging + rel in staged ==> now[home + rel] == staged[staging + rel]
    ensures rel[0] in rest ==> (staging + rel in now <==> staging + rel in staged)
    ensures rel[0] in rest && staging + rel in staged ==> now[staging + rel] == staged[staging + rel]
  {
  }

  lemma MoveChildAt(staged: Files, now: Files, home: Path, staging: Path, rest: set<Bytes>, n: Bytes, rel: Path)
    requires WellFormed(now) && Siblings(home, staging) && Moving(staged, now, home, staging, rest)
    requires RenameOk(now, staging + [n], home + [n])
    requires n in rest && rel != []
    ensures var next := Rename(now, staging + [n], home + [n]);
            && (home + rel in next <==> rel[0] !in rest - {n} && staging + rel in staged)
            && (rel[0] !in rest - {n} && staging + rel in staged ==> next[home + rel] == staged[staging + rel])
            && (rel[0] in rest - {n} ==> (staging + rel in next <==> staging + rel in staged))
            && (rel[0] in rest - {n} && staging + rel in staged ==> next[staging + rel] == staged[staging + rel])
  {
    hide Rename, RenameOk, WellFormed, Moving;
    var from, to := staging + [n], home + [n];
    var h, s := home + rel, staging + rel;
    MovingAt(staged, now, home, staging, rest, rel);
    SiblingPaths(home, staging, n, rel);
    RenameAt(now, from, to, h);
    RenameAt(now, from, to, s);
    if rel[0] == n {
      assert from + h[|to|..] == s;
    }
  }

  lemma SiblingPaths(home: Path, staging: Path, n: Bytes, rel: Path)
    requires Siblings(home, staging) && rel != []
    ensures Under(home + [n], home + rel) <==> rel[0] == n
    ensures Under(staging + [n], staging + rel) <==> rel[0] == n
    ensures !Under(home + [n], staging + rel) && !Under(staging + [n], home + rel)
  {
    var h, s := home + rel, staging + rel;
    assert h[..|home|] == home && s[..|staging|] == staging;
    assert (home + [n])[..|home|] == home && (staging + [n])[..|staging|] == staging;
    assert h[|home|] == rel[0] && s[|staging|] == rel[0];
  }

  lemma MoveChildOutside(staged: Files, now: Files, home: Path, staging: Path, rest: set<Bytes>, n: Bytes, q: Path)
    requires WellFormed(now) && Moving(staged, now, home, staging, rest)
    requires RenameOk(now, staging + [n], home + [n])
    requires !Under(home, q) && !Under(staging, q)
    ensures q in Rename(now, staging + [n], home + [n]) <==> q in staged
    ensures q in staged ==> Rename(now, staging + [n], home + [n])[q] == staged[q]
  {
    hide Rename, RenameOk, WellFormed;
    RenameAt(now, staging + [n], home + [n], q);
    assert Under(home, home + [n]) && Under(staging, staging + [n]);
  }

  lemma MoveChildRoots(staged: Files, now: Files, home: Path, staging: Path, rest: set<Bytes>, n: Bytes)
    requires WellFormed(now) && Siblings(home, staging) && Moving(staged, now, home, staging, rest)
    requires RenameOk(now, staging + [n], home + [n])
    ensures IsDir(Rename(now, staging + [n], home + [n]), home)
    ensures IsDir(Rename(now, staging + [n], home + [n]), staging)
  {
    hide Rename, RenameOk, WellFormed;
    RenameAt(now, staging + [n], home + [n], home);
    RenameAt(now, staging + [n], home + [n], staging);
  }

  lemma MovingStarts(staged: Files, cleared: Files, home: Path, staging: Path)
    requires WellFormed(staged) && Siblings(home, staging)
    requires IsDir(staged, home) && IsDir(staged, staging) && IsDir(cleared, home)
    requires SameOutside(staged, cleared, home)
    requires forall q :: Above(home, q) ==> q !in cleared
    ensures Moving(staged, cleared, home, staging, Children(staged, staging))
  {
    hide WellFormed, Children;
    forall rel: Path | rel != []
      ensures home + rel !in cleared && !Under(home, staging + rel)
      ensures staging + rel in staged ==> rel[0] in Children(staged, staging)
    {
      StartsAt(staged, home, staging, rel);
    }
    assert !Under(home, staging);
  }

  lemma StartsAt(staged: Files, home: Path, staging: Path, rel: Path)
    requires WellFormed(staged) && Siblings(home, staging) && rel != []
    ensures Above(home, home + rel) && !Under(home, staging + rel)
    ensures staging + rel in staged ==> rel[0] in Children(staged, staging)
  {
    hide WellFormed;
    SiblingPaths(home, staging, rel[0], rel);
    assert (staging + rel)[..|home|] == staging;
    if staging + rel in staged {
      ChildAbove(staged, staging, staging + rel);
      assert (staging + rel)[|staging|] == rel[0];
    }
  }

  lemma MovedShows(staged: Files, now: Files, home: Path, staging: Path, snap: Tree.Snapshot)
    requires Moving(staged, now, home, staging, {}) && Shows(staged, staging, snap)
    requires IsDir(staged, staging)
    ensures Shows(now, home, snap)
  {
    hide Spanned, Expected;
    forall rel
      ensures ShowsAt(now, home, snap, rel)
    {
      assert ShowsAt(staged, staging, snap, rel);
      if rel == [] {
        assert home + rel == home && staging + rel == staging;
      }
    }
  }

  lemma MovingFrame(staged: Files, now: Files, home: Path, staging: Path, rest: set<Bytes>)
    requires Moving(staged, now, home, staging, rest)
    ensures forall q :: !Under(home, q) && !Under(staging, q) ==>
              (q in now <==> q in staged) && (q in now ==> now[q] == staged[q])
    ensures IsDir(now, home) && IsDir(now, staging)
  {
  }

  /** The renaming loop of rewriteHome, over the children of staging in any order. */
  method MoveIn(disk: Disk, home: Path, staging: Path, names: set<Bytes>, ghost staged: Files, calm: bool)
    returns (ok: bool)
    requires disk.Valid() && Siblings(home, staging)
    requires names == Children(staged, staging) && Moving(staged, disk.files, home, staging, names)
    modifies disk
    ensures disk.Valid()
    ensures forall q :: !Under(home, q) && !Under(staging, q) ==>
              (q in disk.files <==> q in staged) && (q in disk.files ==> disk.files[q] == staged[q])
    ensures ok ==> Moving(staged, disk.files, home, staging, {})
    ensures calm ==> ok
  {
    hide WellFormed, Rename, RenameOk, Moving;
    var rest := names;
    while rest != {}
      invariant disk.Valid() && rest <= names
      invariant Moving(staged, disk.files, home, staging, rest)
      decreases rest
    {
      var n :| n in rest;
      MoveChild(staged, disk.files, home, staging, rest, n);
      ok := disk.Rename(staging + [n], home + [n], calm);
      if !ok {
        MovingFrame(staged, disk.files, home, staging, rest);
        return;
      }
      rest := rest - {n};
    }
    MovingFrame(staged, disk.files, home, staging, rest);
    ok := true;
  }

  /** The staged part of rewriteHome; touched tells that clearing Home has begun. */
  method StageAndSwap(disk: Disk, home: Path, staging: Path, snap: Tree.Snapshot, calm: bool)
    returns (ok: bool, touched: bool)
    requires disk.Valid() && Normal(staging) && Siblings(home, staging)
    requires IsDir(disk.files, home) && IsDir(disk.files, staging)
    requires forall q :: Above(staging, q) ==> q !in disk.files
    requires forall p :: p in snap ==> ValidPath(p)
    modifies disk
    ensures disk.Valid()
    ensures SameApart(old(disk.files), disk.files, home, staging)
    ensures !touched ==> SameOutside(old(disk.files), disk.files, staging)
    ensures ok ==> touched
    ensures ok ==> Shows(disk.files, home, snap) && FilesAreLeaves(snap)
    ensures calm ==> (ok <==> FilesAreLeaves(snap))
  {
    hide ValidPath, WellFormed, Rename, RenameOk, Moving, Shows, FilesAreLeaves;
    touched := false;
    assert !Under(staging, home) && !Under(home, staging);
    ok := WriteNodes(disk, staging, snap, calm);
    if !ok {
      return;
    }
    ghost var staged := disk.files;
    touched := true;
    ok := ClearChildren(disk, home, calm);
    if !ok {
      return;
    }
    ghost var cleared := disk.files;
    MovingStarts(staged, cleared, home, staging);
    var rest: set<Bytes>;
    ok, rest := disk.ReadDir(staging, calm);
    if !ok {
      MovingFrame(staged, disk.files, home, staging, Children(staged, staging));
      return;
    }
    assert rest == Children(staged, staging);
    ok := MoveIn(disk, home, staging, rest, staged, calm);
    if ok {
      MovedShows(staged, disk.files, home, staging, snap);
    }
  }

  lemma StagingFacts(fs: Files, home: Path, random: Bytes)
    requires WellFormed(fs) && home != [] && IsDir(fs, home) && TempPath(home, random) !in fs
    ensures Siblings(home, TempPath(home, random))
    ensures forall q :: Above(TempPath(home, random), q) ==> q !in fs
    ensures RemoveAll(fs, TempPath(home, random)) == fs
  {
    RemoveAllAbsent(fs, TempPath(home, random));
  }

  lemma StagingNormal(home: Path, random: Bytes)
    requires Normal(home) && home != []
    ensures Normal(TempPath(home, random))
  {
    var base := home[|home| - 1];
    var name := TempName(base, random);
    assert |name| >= 3;
  }

  /** Home keeps what it shows while the staging directory beside it goes, in part or as a whole. */
  lemma ShowsAfterCleanup(fs: Files, fs': Files, home: Path, staging: Path, snap: Tree.Snapshot)
    requires Shows(fs, home, snap) && Siblings(home, staging) && SameOutside(fs, fs', staging)
    ensures Shows(fs', home, snap)
  {
    hide Spanned, Expected;
    forall rel
      ensures ShowsAt(fs', home, snap, rel)
    {
      assert ShowsAt(fs, home, snap, rel);
      assert (home + rel)[..|home|] == home;
      assert !Under(staging, home + rel);
    }
  }

  lemma BesideIsFree(fs: Files, home: Path, staging: Path)
    requires |staging| == |home| && staging != home
    ensures staging in MkdirAll(fs, home) <==> staging in fs
  {
  }

  /** Whatever happened, only Home and the staging directory beside it differ. */
  lemma RewriteApart(made: Files, worked: Files, final: Files, home: Path, staging: Path)
    requires SameApart(made[staging := Dir], worked, home, staging) && SameOutside(worked, final, staging)
    ensures SameApart(made, final, home, staging)
  {
  }

  /** Success: the swap's result, whatever is left of the staging directory. */
  lemma RewriteDone(made: Files, worked: Files, final: Files, home: Path, staging: Path, snap: Tree.Snapshot)
    requires WellFormed(made) && staging !in made && Siblings(home, staging)
    requires Shows(worked, home, snap) && SameApart(made[staging := Dir], worked, home, staging)
    requires SameOutside(worked, final, staging)
    ensures Shows(final, home, snap)
    ensures final == RemoveAll(worked, staging) ==> SameOutside(made, final, home)
  {
    hide Shows;
    ShowsAfterCleanup(worked, final, home, staging, snap);
    forall q | Under(staging, q)
      ensures q !in made
    {
      NothingUnder(made, staging, q);
    }
  }

  /** Failure before the swap: what is left of the staging directory is all that differs. */
  lemma RewriteUndone(made: Files, worked: Files, final: Files, staging: Path)
    requires WellFormed(made) && staging !in made && SameOutside(made[staging := Dir], worked, staging)
    requires SameOutside(worked, final, staging)
    ensures SameOutside(made, final, staging)
    ensures final == RemoveAll(worked, staging) ==> final == made
  {
    forall q | Under(staging, q)
      ensures q !in made
    {
      NothingUnder(made, staging, q);
    }
  }

  lemma SameItself(fs: Files, root: Path)
    ensures SameOutside(fs, fs, root)
  {
  }

  /** The deferred removal, finished or not. */
  method Cleanup(disk: Disk, staging: Path, quiet: bool)
    requires disk.Valid() && staging != []
    modifies disk
    ensures disk.Valid() && SameOutside(old(disk.files), disk.files, staging)
    ensures quiet ==> disk.files == FileSystem.RemoveAll(old(disk.files), staging)
  {
    hide WellFormed, FileSystem.RemoveAll;
    var _ := disk.RemoveAll(staging, quiet);
  }

  /**
   rewriteHome. calm: no outside fault strikes the work itself; quiet: none strikes the deferred
   removal of the staging directory.

   On success Home is exactly the snapshot with its ancestor directories, whatever order the map
   and the directory were visited in, and the rest of the disk is as it was, up to what is left of
   the staging directory. A failure before clearing begins leaves the whole disk as it was, up to
   the same; one after it still touches nothing but Home and the staging directory. Without
   outside faults it succeeds exactly when no projected file is an ancestor of another projected
   path.
   */
  method RewriteHome(disk: Disk, home: Path, snap: Tree.Snapshot, random: Bytes, calm: bool, quiet: bool)
    returns (ok: bool, touched: bool)
    requires disk.Valid() && Normal(home) && home != []
    requires forall p :: p in snap ==> ValidPath(p)
    modifies disk
    ensures disk.Valid()
    ensures ok ==> touched
    ensures touched ==> SameApart(MkdirAll(old(disk.files), home), disk.files, home, TempPath(home, NEXT + random))
    ensures ok ==>
              && FilesAreLeaves(snap)
              && Shows(disk.files, home, snap)
              && (quiet ==> SameOutside(MkdirAll(old(disk.files), home), disk.files, home))
    ensures !touched ==> MadeTowards(old(disk.files), disk.files, home, TempPath(home, NEXT + random))
    ensures !touched && IsDir(old(disk.files), home) ==>
              && SameOutside(old(disk.files), disk.files, TempPath(home, NEXT + random))
              && (quiet ==> disk.files == old(disk.files))
    ensures calm ==>
              (ok <==>
               && MkdirAllOk(old(disk.files), home) && TempPath(home, NEXT + random) !in old(disk.files)
               && FilesAreLeaves(snap))
  {
    hide ValidPath, WellFormed, MkdirAll, MkdirAllOk, Shows, FilesAreLeaves, FileSystem.RemoveAll, SameOutside;
    hide SameApart;
    ghost var before := disk.files;
    touched := false;
    SameItself(before, TempPath(home, NEXT + random));
    if IsDir(before, home) {
      MkdirAllNoop(before, home);
    }
    ok := disk.MkdirAll(home, calm);
    SameItself(disk.files, TempPath(home, NEXT + random));
    if !ok {
      if IsDir(before, home) {
        MkdirBelowDir(before, disk.files, home);
      }
      return;
    }
    MkdirAllWellFormed(before, home);
    ghost var made := disk.files;
    var staging := TempPath(home, NEXT + random);
    BesideIsFree(before, home, staging);
    AncestorIsDir(made, Parent(home), home);
    ok := disk.MkdirTemp(home, NEXT + random, calm);
    if !ok {
      return;
    }
    StagingFacts(made, home, NEXT + random);
    StagingNormal(home, NEXT + random);
    ok, touched := StageAndSwap(disk, home, staging, snap, calm);
    ghost var worked := disk.files;
    Cleanup(disk, staging, quiet);
    RewriteApart(made, worked, disk.files, home, staging);
    if ok {
      RewriteDone(made, worked, disk.files, home, staging, snap);
    } else if !touched {
      RewriteUndone(made, worked, disk.files, staging);
    }
  }
}
