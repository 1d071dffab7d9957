/**
 Rolling back a whole batch (agent/tree.go, applyHome): exactly when the undo list gives back the
 very first disk.
 */
module Undoing {
  import opened Common
  import opened Paths
  import opened FileSystem
  import opened Disks
  import opened Home
  import opened Projection
  import Tree

  /** No path one mutation names is, or lies above, a path another one names. */
  ghost predicate NamesApart(home: Path, muts: seq<Mutation>) {
    forall i, j, n, m ::
      0 <= i < |muts| && 0 <= j < |muts| && i != j && n in Named(home, muts[i]) && m in Named(home, muts[j]) ==>
      !Under(n, m)
  }

  // --------------------------------------------------- What undoing leaves alone

  predicate Touches(undo: Undo, q: Path) {
    match undo
    case Discard(path) => Under(path, q)
    case Restore(path, side) => Under(path, q) || Under(side, q)
    case MoveBack(path, from) => Under(path, q) || Under(from, q)
  }

  predicate SameAt(fs: Files, fs': Files, q: Path) {
    (q in fs <==> q in fs') && (q in fs ==> fs'[q] == fs[q])
  }

  lemma RenameLeaves(fs: Files, from: Path, to: Path, q: Path)
    requires !Under(from, q) && !Under(to, q)
    ensures SameAt(fs, Rename(fs, from, to), q)
  {
    if q in fs {
      assert q in (set r | r in fs && !Under(from, r) && !Under(to, r));
    }
  }

  lemma UndoLeaves(fs: Files, undo: Undo, q: Path)
    requires !Touches(undo, q)
    ensures SameAt(fs, RunUndo(fs, undo), q)
  {
    hide Rename, RenameOk;
    match undo {
      case Discard(_) =>
      case Restore(path, side) => RenameLeaves(RemoveAll(fs, path), side, path, q);
      case MoveBack(path, from) => RenameLeaves(fs, path, from, q);
    }
  }

  lemma {:induction false} UndosLeave(fs: Files, undos: seq<Undo>, q: Path)
    requires forall i :: 0 <= i < |undos| ==> !Touches(undos[i], q)
    ensures SameAt(fs, RunUndos(fs, undos), q)
    decreases |undos|
  {
    hide Touches, RunUndo;
    if undos != [] {
      var n := |undos| - 1;
      UndoLeaves(fs, undos[n], q);
      UndosLeave(RunUndo(fs, undos[n]), undos[..n], q);
    }
  }

  lemma {:induction false} UndosSplit(fs: Files, a: seq<Undo>, b: seq<Undo>)
    ensures RunUndos(fs, a + b) == RunUndos(RunUndos(fs, b), a)
    decreases |b|
  {
    hide RunUndo;
    if b == [] {
      assert a + b == a;
    } else {
      var n := |b| - 1;
      assert (a + b)[..|a + b| - 1] == a + b[..n];
      UndosSplit(RunUndo(fs, b[n]), a, b[..n]);
    }
  }

  /** An undo touches only what its mutation names, and its own stash. */
  lemma TouchesNamed(fs: Files, home: Path, mut: Mutation, random: Bytes, q: Path)
    requires Touches(UndoOf(fs, home, mut, random), q)
    ensures UnderAny(Named(home, mut), q) || UnderAny(SideSet(fs, home, mut, random), q)
  {
    assert Target(home, mut.path) in Named(home, mut);
    if mut.op == Tree.Move {
      assert Target(home, mut.from) in Named(home, mut);
    } else if Target(home, mut.path) in fs {
      assert TempPath(Target(home, mut.path), random) in SideSet(fs, home, mut, random);
    }
  }

  // ------------------------------------------------- What committing leaves alone

  /** Mutations a to b name nothing at or above q. */
  ghost predicate Unnamed(home: Path, muts: seq<Mutation>, a: nat, b: nat, q: Path) {
    forall i :: a <= i < b && i < |muts| ==> !UnderAny(Named(home, muts[i]), q)
  }

  /** No stash of the run is at or above q. */
  ghost predicate Unstashed(states: seq<Files>, home: Path, muts: seq<Mutation>, randoms: seq<Bytes>, q: Path)
    requires |states| <= |muts| + 1 && |randoms| == |muts|
  {
    forall t :: t in Sides(states, home, muts, randoms) ==> !Under(t, q)
  }

  lemma {:induction false} KeptThrough(states: seq<Files>, home: Path, muts: seq<Mutation>, randoms: seq<Bytes>,
                                       a: nat, b: nat, q: Path)
    requires Run(states, home, muts, randoms) && WellFormed(states[0]) && a <= b < |states|
    requires Unnamed(home, muts, a, b, q) && q in states[a]
    ensures q in states[b] && states[b][q] == states[a][q]
    decreases b - a
  {
    hide WellFormed, CommitOk, Commit, SideOf;
    if a < b {
      KeptThrough(states, home, muts, randoms, a, b - 1, q);
      RunWellFormed(states, home, muts, randoms, b - 1);
      StepFrameAt(states[b - 1], home, muts[b - 1], randoms[b - 1], q);
    }
  }

  lemma {:induction false} AbsentThrough(states: seq<Files>, home: Path, muts: seq<Mutation>, randoms: seq<Bytes>,
                                         a: nat, b: nat, q: Path)
    requires Run(states, home, muts, randoms) && WellFormed(states[0]) && a <= b < |states|
    requires Unnamed(home, muts, a, b, q) && Unstashed(states, home, muts, randoms, q)
    requires forall i :: a <= i < b ==> !AboveAny(Targets(home, muts[i]), q)
    requires q !in states[a]
    ensures q !in states[b]
    decreases b - a
  {
    hide WellFormed, CommitOk, Commit, SideOf, Sides;
    if a < b {
      AbsentThrough(states, home, muts, randoms, a, b - 1, q);
      RunWellFormed(states, home, muts, randoms, b - 1);
      StepFrameAt(states[b - 1], home, muts[b - 1], randoms[b - 1], q);
      SideMissesAt(states, home, muts, randoms, b - 1, q);
    }
  }

  lemma SideMissesAt(states: seq<Files>, home: Path, muts: seq<Mutation>, randoms: seq<Bytes>, k: nat, q: Path)
    requires k + 1 < |states| <= |muts| + 1 && |randoms| == |muts| && Unstashed(states, home, muts, randoms, q)
    ensures !UnderAny(SideSet(states[k], home, muts[k], randoms[k]), q)
  {
    hide SideOf;
    SideSetExtend(states, home, muts, randoms, k);
    SidesGrow(states, home, muts, randoms, k + 1);
    forall t | t in SideSet(states[k], home, muts[k], randoms[k])
      ensures !Under(t, q)
    {
      assert t in SeqSet(Sides(states, home, muts, randoms));
    }
  }

  /** The undo of a mutation that names nothing at or above q leaves q alone. */
  lemma UndoMisses(states: seq<Files>, home: Path, muts: seq<Mutation>, randoms: seq<Bytes>, k: nat, q: Path)
    requires k + 1 < |states| <= |muts| + 1 && |randoms| == |muts|
    requires !UnderAny(Named(home, muts[k]), q) && Unstashed(states, home, muts, randoms, q)
    ensures !Touches(UndoOf(states[k], home, muts[k], randoms[k]), q)
  {
    hide UndoOf, SideOf, Sides, Named;
    if Touches(UndoOf(states[k], home, muts[k], randoms[k]), q) {
      TouchesNamed(states[k], home, muts[k], randoms[k], q);
      SideMissesAt(states, home, muts, randoms, k, q);
    }
  }

  // ---------------------------------------------------------- What an unsafe step leaves

  /** A rolled-back run, with the names of its batch and of its stashes apart. */
  ghost predicate RolledBack(states: seq<Files>, home: Path, muts: seq<Mutation>, randoms: seq<Bytes>,
                             undos: seq<Undo>, k: nat) {
    && Run(states, home, muts, randoms) && WellFormed(states[0])
    && UndosOf(undos, states, home, muts, randoms) && k < |states|
    && NamesApart(home, muts) && TempsApart(home, muts, Sides(states, home, muts, randoms))
  }

  /** An unsafe mutation makes its parent, or overwrites another file. */
  lemma UnsafeStep(fs: Files, home: Path, mut: Mutation, random: Bytes)
    requires WellFormed(fs) && CommitOk(fs, home, mut, random) && !StepSafe(fs, home, mut)
    ensures var up, after := Parent(Target(home, mut.path)), Commit(fs, home, mut, random);
            || (up !in fs && up in after && !UnderAny(Named(home, mut), up))
            || (mut.op == Tree.Move && mut.from != mut.path && IsDir(fs, up) && IsFile(fs, Target(home, mut.path)))
  {
    hide ValidPath, Rename, Lstat;
    var full := Target(home, mut.path);
    var up := Parent(full);
    assert Above(up, full) && !Under(full, up);
    if mut.op == Tree.Move {
      var made := MkdirAll(fs, up);
      MkdirAllWellFormed(fs, up);
      NotBelowItself(made, Target(home, mut.from), full);
      if !IsDir(fs, up) {
        assert Under(up, up) && up !in fs;
        RenameAt(made, Target(home, mut.from), full, up);
      }
    } else {
      assert full !in fs;
      assert StashAway(fs, full, random) == fs;
      assert up in Ancestors(up) && up in Ancestors(full);
      assert up !in fs;
    }
  }

  lemma OthersNotAbove(home: Path, muts: seq<Mutation>, j: nat, i: nat, m: Path, q: Path)
    requires NamesApart(home, muts) && i < |muts| && j < |muts| && i != j && m in Named(home, muts[j]) && Under(q, m)
    ensures !UnderAny(Named(home, muts[i]), q)
  {
    hide Named;
    forall n | n in Named(home, muts[i])
      ensures !Under(n, q)
    {
      assert !Under(n, m);
    }
  }

  lemma TargetNamed(home: Path, mut: Mutation)
    ensures Target(home, mut.path) in Named(home, mut)
    ensures mut.op == Tree.Move ==> Target(home, mut.from) in Named(home, mut)
    ensures Targets(home, mut) <= Named(home, mut)
  {
  }

  lemma NamedUnstashed(states: seq<Files>, home: Path, muts: seq<Mutation>, randoms: seq<Bytes>, j: nat, m: Path,
                       q: Path)
    requires |states| <= |muts| + 1 && |randoms| == |muts| && TempsApart(home, muts, Sides(states, home, muts, randoms))
    requires j < |muts| && m in Named(home, muts[j]) && Under(q, m)
    ensures Unstashed(states, home, muts, randoms, q)
  {
    hide Sides;
    forall t | t in Sides(states, home, muts, randoms)
      ensures !Under(t, q)
    {
      assert !Under(t, m);
    }
  }

  /** A parent made by an unsafe step was not there at first, and outlives every undo. */
  lemma ParentRemains(states: seq<Files>, home: Path, muts: seq<Mutation>, randoms: seq<Bytes>, undos: seq<Undo>,
                      k: nat, j: nat)
    requires RolledBack(states, home, muts, randoms, undos, k) && j < k
    requires var up := Parent(Target(home, muts[j].path));
             up !in states[j] && up in states[j + 1] && !UnderAny(Named(home, muts[j]), up)
    ensures RunUndos(states[k], undos[..k]) != states[0]
  {
    hide ValidPath, WellFormed, CommitOk, Commit, UndoOf, Sides, Named, Unnamed, Unstashed, Touches;
    var full := Target(home, muts[j].path);
    var up := Parent(full);
    TargetNamed(home, muts[j]);
    assert Unnamed(home, muts, 0, k, up) by {
      forall i | 0 <= i < k
        ensures !UnderAny(Named(home, muts[i]), up)
      {
        if i != j {
          OthersNotAbove(home, muts, j, i, full, up);
        }
      }
      OnlyUnnamed(home, muts, 0, k, up);
    }
    Narrower(home, muts, k, j, up);
    NamedUnstashed(states, home, muts, randoms, j, full, up);
    if up in states[0] {
      KeptThrough(states, home, muts, randoms, 0, j, up);
    }
    KeptThrough(states, home, muts, randoms, j + 1, k, up);
    forall i | 0 <= i < k
      ensures !Touches(undos[..k][i], up)
    {
      NotNamedAt(home, muts, k, i, up);
      UndoMisses(states, home, muts, randoms, i, up);
    }
    UndosLeave(states[k], undos[..k], up);
  }

  lemma OnlyUnnamed(home: Path, muts: seq<Mutation>, a: nat, b: nat, q: Path)
    requires b <= |muts| && forall i :: a <= i < b ==> !UnderAny(Named(home, muts[i]), q)
    ensures Unnamed(home, muts, a, b, q)
  {
  }

  lemma Narrower(home: Path, muts: seq<Mutation>, k: nat, j: nat, q: Path)
    requires Unnamed(home, muts, 0, k, q) && j < k
    ensures Unnamed(home, muts, 0, j, q) && Unnamed(home, muts, j + 1, k, q)
  {
  }

  lemma NotNamedAt(home: Path, muts: seq<Mutation>, k: nat, i: nat, q: Path)
    requires Unnamed(home, muts, 0, k, q) && i < k <= |muts|
    ensures !UnderAny(Named(home, muts[i]), q)
  {
  }

  /** Other mutations neither touch a path this one names, nor make it, nor undo anything at it. */
  lemma OthersLeave(states: seq<Files>, home: Path, muts: seq<Mutation>, randoms: seq<Bytes>, undos: seq<Undo>, k: nat,
                    j: nat, m: Path)
    requires RolledBack(states, home, muts, randoms, undos, k) && j < k && m in Named(home, muts[j])
    ensures SameAt(states[0], states[j], m) && SameAt(states[j + 1], states[k], m)
    ensures forall i :: 0 <= i < k && i != j ==> !Touches(undos[i], m)
  {
    hide ValidPath, WellFormed, CommitOk, Commit, UndoOf, Sides, Named, Targets, Unnamed, Unstashed, Touches;
    assert Under(m, m);
    forall i | 0 <= i < k && i != j
      ensures !UnderAny(Named(home, muts[i]), m) && !AboveAny(Targets(home, muts[i]), m) && !Touches(undos[i], m)
    {
      OthersNotAbove(home, muts, j, i, m, m);
      TargetNamed(home, muts[i]);
      forall t | t in Targets(home, muts[i])
        ensures !Above(m, t)
      {
        assert t in Named(home, muts[i]);
        assert !Under(m, t);
      }
      NamedUnstashed(states, home, muts, randoms, j, m, m);
      UndoMisses(states, home, muts, randoms, i, m);
    }
    NamedUnstashed(states, home, muts, randoms, j, m, m);
    OnlyUnnamed(home, muts, 0, j, m);
    OnlyUnnamed(home, muts, j + 1, k, m);
    Stays(states, home, muts, randoms, 0, j, m);
    Stays(states, home, muts, randoms, j + 1, k, m);
  }

  lemma Stays(states: seq<Files>, home: Path, muts: seq<Mutation>, randoms: seq<Bytes>, a: nat, b: nat, q: Path)
    requires Run(states, home, muts, randoms) && WellFormed(states[0]) && a <= b < |states|
    requires Unnamed(home, muts, a, b, q) && Unstashed(states, home, muts, randoms, q)
    requires forall i :: a <= i < b ==> !AboveAny(Targets(home, muts[i]), q)
    ensures SameAt(states[a], states[b], q)
  {
    hide WellFormed, CommitOk, Commit, Unnamed, Unstashed, Sides, Targets;
    if q in states[a] {
      KeptThrough(states, home, muts, randoms, a, b, q);
    } else {
      AbsentThrough(states, home, muts, randoms, a, b, q);
    }
  }

  /** What the rest of the undo list does to a path that one mutation alone names is what its own undo does. */
  lemma OwnUndo(states: seq<Files>, home: Path, muts: seq<Mutation>, randoms: seq<Bytes>, undos: seq<Undo>, k: nat,
                j: nat)
    returns (now: Files)
    requires RolledBack(states, home, muts, randoms, undos, k) && j < k
    ensures forall m :: m in Named(home, muts[j]) ==>
              && SameAt(states[j + 1], now, m)
              && SameAt(RunUndo(now, undos[j]), RunUndos(states[k], undos[..k]), m)
  {
    hide Run, UndosOf, NamesApart, TempsApart, WellFormed, Named, RunUndo, Touches, SameAt;
    UndoCount(states, home, muts, randoms, undos, k);
    var first, last := undos[..j], undos[j + 1..k];
    assert undos[..k] == first + [undos[j]] + last;
    now := RunUndos(states[k], last);
    UndosSplit(states[k], first + [undos[j]], last);
    UndosSplit(now, first, [undos[j]]);
    OneUndo(now, undos[j]);
    forall m | m in Named(home, muts[j])
      ensures SameAt(states[j + 1], now, m) && SameAt(RunUndo(now, undos[j]), RunUndos(states[k], undos[..k]), m)
    {
      OthersLeave(states, home, muts, randoms, undos, k, j, m);
      UndosLeave(states[k], last, m);
      UndosLeave(RunUndo(now, undos[j]), first, m);
      SameTwice(states[j + 1], states[k], now, m);
    }
  }

  lemma UndoCount(states: seq<Files>, home: Path, muts: seq<Mutation>, randoms: seq<Bytes>, undos: seq<Undo>, k: nat)
    requires RolledBack(states, home, muts, randoms, undos, k)
    ensures |undos| == |states| - 1 <= |muts| && k <= |undos|
  {
  }

  lemma SameTwice(a: Files, b: Files, c: Files, q: Path)
    requires SameAt(a, b, q) && SameAt(b, c, q)
    ensures SameAt(a, c, q)
  {
  }

  lemma OneUndo(fs: Files, undo: Undo)
    ensures RunUndos(fs, [undo]) == RunUndo(fs, undo)
  {
    hide RunUndo;
    assert [undo][..0] == [];
    assert RunUndos(RunUndo(fs, undo), []) == RunUndo(fs, undo);
  }

  /** A file a move has overwritten does not come back. */
  lemma FileLost(states: seq<Files>, home: Path, muts: seq<Mutation>, randoms: seq<Bytes>, undos: seq<Undo>, k: nat,
                 j: nat)
    requires RolledBack(states, home, muts, randoms, undos, k) && j < k
    requires muts[j].op == Tree.Move && muts[j].from != muts[j].path
             && IsDir(states[j], Parent(Target(home, muts[j].path)))
    requires IsFile(states[j], Target(home, muts[j].path))
    ensures RunUndos(states[k], undos[..k]) != states[0]
  {
    hide ValidPath, WellFormed, NamesApart, TempsApart, Commit, CommitOk, UndosOf, RunUndo, Named;
    UndoCount(states, home, muts, randoms, undos, k);
    var full, from := Target(home, muts[j].path), Target(home, muts[j].from);
    TargetNamed(home, muts[j]);
    OthersLeave(states, home, muts, randoms, undos, k, j, full);
    OthersLeave(states, home, muts, randoms, undos, k, j, from);
    RunWellFormed(states, home, muts, randoms, j);
    var now := OwnUndo(states, home, muts, randoms, undos, k, j);
    OverwrittenMove(states[j], home, muts[j], randoms[j]);
    assert undos[j] == MoveBack(full, from) by { UndoIs(states, home, muts, randoms, undos, j); }
    MovedBack(now, full, from);
  }

  lemma UndoIs(states: seq<Files>, home: Path, muts: seq<Mutation>, randoms: seq<Bytes>, undos: seq<Undo>, j: nat)
    requires Run(states, home, muts, randoms) && UndosOf(undos, states, home, muts, randoms) && j < |undos|
    requires muts[j].op == Tree.Move
    ensures undos[j] == MoveBack(Target(home, muts[j].path), Target(home, muts[j].from))
  {
  }

  /** After overwriting, the source is gone and the destination still there. */
  lemma OverwrittenMove(fs: Files, home: Path, mut: Mutation, random: Bytes)
    requires WellFormed(fs) && CommitOk(fs, home, mut, random) && mut.op == Tree.Move && mut.from != mut.path
    requires IsFile(fs, Target(home, mut.path)) && IsDir(fs, Parent(Target(home, mut.path)))
    ensures var full, from, after := Target(home, mut.path), Target(home, mut.from), Commit(fs, home, mut, random);
            from in fs && full != from && !Under(full, from) && !Under(from, full) && full in after && from !in after
  {
    hide ValidPath, MkdirAll, Rename;
    var full, from := Target(home, mut.path), Target(home, mut.from);
    MkdirAllNoop(fs, Parent(full));
    TargetInjective(home, mut.path, mut.from);
    FileAloneUnder(fs, full, from);
    FileAloneUnder(fs, from, full);
    RenameAt(fs, from, full, from);
    RenameAt(fs, from, full, full);
    assert from + full[|full|..] == from;
  }

  /** Moving back leaves one of the two names without what it had. */
  lemma MovedBack(now: Files, full: Path, from: Path)
    requires from !in now && full in now && full != from && !Under(full, from) && !Under(from, full)
    ensures full !in RunUndo(now, MoveBack(full, from)) || from !in RunUndo(now, MoveBack(full, from))
  {
  }

  /**
   The whole rollback gives back the very first disk, every path and every byte, exactly when every
   step so far was safe, for a batch whose paths, and whose stashes, are apart.
   */
  lemma RollbackIff(states: seq<Files>, home: Path, muts: seq<Mutation>, randoms: seq<Bytes>, undos: seq<Undo>, k: nat)
    requires Run(states, home, muts, randoms) && WellFormed(states[0])
    requires UndosOf(undos, states, home, muts, randoms) && k < |states|
    requires NamesApart(home, muts) && TempsApart(home, muts, Sides(states, home, muts, randoms))
    ensures RunUndos(states[k], undos[..k]) == states[0] <==>
            forall j :: 0 <= j < k ==> StepSafe(states[j], home, muts[j])
  {
    hide WellFormed, CommitOk, Commit, StepSafe, RunUndo, UndoOf, NamesApart, TempsApart, Sides;
    if j :| 0 <= j < k && !StepSafe(states[j], home, muts[j]) {
      RunWellFormed(states, home, muts, randoms, j);
      UnsafeStep(states[j], home, muts[j], randoms[j]);
      if IsDir(states[j], Parent(Target(home, muts[j].path))) {
        FileLost(states, home, muts, randoms, undos, k, j);
      } else {
        ParentRemains(states, home, muts, randoms, undos, k, j);
      }
    } else {
      RollbackExact(states, home, muts, randoms, undos, k);
    }
  }

  // ------------------------------------------------------------- Read before the call

  lemma ParentUnnamed(states: seq<Files>, home: Path, muts: seq<Mutation>, randoms: seq<Bytes>, j: nat)
    requires Run(states, home, muts, randoms) && NamesApart(home, muts) && j < |states| && j < |muts|
    requires TempsApart(home, muts, Sides(states, home, muts, randoms))
    ensures var up := Parent(Target(home, muts[j].path));
            Unnamed(home, muts, 0, j, up) && Unstashed(states, home, muts, randoms, up)
  {
    hide CommitOk, Commit, Sides, Named, NamesApart, TempsApart;
    var full := Target(home, muts[j].path);
    var up := Parent(full);
    TargetNamed(home, muts[j]);
    forall i | 0 <= i < j
      ensures !UnderAny(Named(home, muts[i]), up)
    {
      OthersNotAbove(home, muts, j, i, full, up);
    }
    NamedUnstashed(states, home, muts, randoms, j, full, up);
  }

  /** A destination stays as it was at first until its own move. */
  lemma DestinationStays(states: seq<Files>, home: Path, muts: seq<Mutation>, randoms: seq<Bytes>, undos: seq<Undo>,
                         k: nat, j: nat)
    requires RolledBack(states, home, muts, randoms, undos, k) && j < k
    ensures Target(home, muts[j].path) in states[0] <==> Target(home, muts[j].path) in states[j]
  {
    UndoCount(states, home, muts, randoms, undos, k);
    hide RolledBack;
    TargetNamed(home, muts[j]);
    OthersLeave(states, home, muts, randoms, undos, k, j, Target(home, muts[j].path));
  }

  /** What is safe on the first disk is safe when its turn comes. */
  lemma SafeLater(states: seq<Files>, home: Path, muts: seq<Mutation>, randoms: seq<Bytes>, undos: seq<Undo>, k: nat,
                  j: nat)
    requires RolledBack(states, home, muts, randoms, undos, k) && j < k && StepSafe(states[0], home, muts[j])
    ensures StepSafe(states[j], home, muts[j])
  {
    hide CommitOk, Commit, UndoOf, Sides, Named, NamesApart, TempsApart, WellFormed, Unnamed, Unstashed;
    var up := Parent(Target(home, muts[j].path));
    DestinationStays(states, home, muts, randoms, undos, k, j);
    ParentUnnamed(states, home, muts, randoms, j);
    if up in states[0] {
      KeptThrough(states, home, muts, randoms, 0, j, up);
    }
  }

  /**
   And the other way: with the earlier steps safe, no target lay below a parent that was missing at
   first, so nothing but this step could have made it.
   */
  lemma {:induction false} SafeFromStart(states: seq<Files>, home: Path, muts: seq<Mutation>, randoms: seq<Bytes>,
                                         undos: seq<Undo>, k: nat, j: nat)
    requires RolledBack(states, home, muts, randoms, undos, k) && j < k
    requires forall i :: 0 <= i <= j ==> StepSafe(states[i], home, muts[i])
    ensures StepSafe(states[0], home, muts[j])
    decreases j
  {
    hide CommitOk, Commit, UndoOf, Sides, Named, NamesApart, TempsApart, WellFormed, Unnamed, Unstashed;
    var up := Parent(Target(home, muts[j].path));
    DestinationStays(states, home, muts, randoms, undos, k, j);
    ParentUnnamed(states, home, muts, randoms, j);
    if up in states[0] {
      KeptThrough(states, home, muts, randoms, 0, j, up);
    } else {
      forall i | 0 <= i < j
        ensures !AboveAny(Targets(home, muts[i]), up)
      {
        SafeFromStart(states, home, muts, randoms, undos, k, i);
        NoTargetBelow(states, home, muts, randoms, i, up);
      }
      AbsentThrough(states, home, muts, randoms, 0, j, up);
    }
  }

  lemma NoTargetBelow(states: seq<Files>, home: Path, muts: seq<Mutation>, randoms: seq<Bytes>, i: nat, up: Path)
    requires Run(states, home, muts, randoms) && WellFormed(states[0]) && i + 1 < |states|
    requires StepSafe(states[0], home, muts[i]) && up !in states[0]
    ensures !AboveAny(Targets(home, muts[i]), up)
  {
    hide WellFormed;
    var full := Target(home, muts[i].path);
    if muts[i].op != Tree.Delete && Above(up, full) {
      ParentOfUnder(up, full);
      assert CommitOk(states[i], home, muts[i], randoms[i]);
      AncestorIsDir(states[0], up, Parent(full));
    }
  }

  /**
   So whether a failing batch is undone exactly can be read off the disk before the call: for paths
   and stashes that are apart, the rollback gives back the very first disk exactly when every step
   done was safe on that disk.
   */
  lemma RollbackReadable(states: seq<Files>, home: Path, muts: seq<Mutation>, randoms: seq<Bytes>, undos: seq<Undo>,
                         k: nat)
    requires RolledBack(states, home, muts, randoms, undos, k)
    ensures RunUndos(states[k], undos[..k]) == states[0] <==>
            forall j :: 0 <= j < k ==> StepSafe(states[0], home, muts[j])
  {
    UndoCount(states, home, muts, randoms, undos, k);
    RollbackIff(states, home, muts, randoms, undos, k);
    hide WellFormed, CommitOk, Commit, StepSafe, RunUndo, UndoOf, NamesApart, TempsApart, Sides, UndosOf;
    if forall j :: 0 <= j < k ==> StepSafe(states[j], home, muts[j]) {
      forall j | 0 <= j < k
        ensures StepSafe(states[0], home, muts[j])
      {
        SafeFromStart(states, home, muts, randoms, undos, k, j);
      }
    }
    if forall j :: 0 <= j < k ==> StepSafe(states[0], home, muts[j]) {
      forall j | 0 <= j < k
        ensures StepSafe(states[j], home, muts[j])
      {
        SafeLater(states, home, muts, randoms, undos, k, j);
      }
    }
  }
}
