/**
 Committing a batch to Home with a stash per touched path and an undo list run backwards on
 failure (agent/tree.go, applyHome, applyDisk, stash).
 */
module Home {
  import opened Common
  import opened Paths
  import opened FileSystem
  import opened Disks
  import Tree

  type Mutation = Tree.Mutation

  /** The closures applyDisk hands back. */
  datatype Undo =
    | Discard(path: Path)
    | Restore(path: Path, side: Path)
    | MoveBack(path: Path, from: Path)

  /** Where a valid path lies on disk. */
  function Target(home: Path, p: Bytes): (full: Path)
    ensures full != [] && home < full
  {
    home + Split(p)
  }

  // -------------------------------------------------- The effect of one mutation

  ghost predicate StashOk(fs: Files, full: Path, random: Bytes)
    requires full != []
  {
    if full in fs then TempPath(full, random) !in fs else Lstat(fs, full) == Missing
  }

  function StashAway(fs: Files, full: Path, random: Bytes): Files
    requires full != []
  {
    if full in fs then Rename(fs, full, TempPath(full, random)) else fs
  }

  function Payload(mut: Mutation): Bytes {
    match mut.data
    case Some(d) => d
    case None => []
  }

  /** Every call of applyDisk finds what it needs. */
  ghost predicate CommitOk(fs: Files, home: Path, mut: Mutation, random: Bytes) {
    var full := Target(home, mut.path);
    && ValidPath(mut.path)
    && match mut.op
       case Create | Replace =>
         && StashOk(fs, full, random)
         && var away := StashAway(fs, full, random);
            if mut.kind == Tree.DirectoryKind then MkdirAllOk(away, full)
            else MkdirAllOk(away, Parent(full)) && WriteOk(MkdirAll(away, Parent(full)), full)
       case Delete => StashOk(fs, full, random)
       case Move =>
         && ValidPath(mut.from)
         && MkdirAllOk(fs, Parent(full))
         && RenameOk(MkdirAll(fs, Parent(full)), Target(home, mut.from), full)
       case OtherOp => false
  }

  predicate NoFileAbove(fs: Files, p: Path) {
    forall a | a in Ancestors(p) :: a != p ==> !IsFile(fs, a)
  }

  /**
   What one mutation asks of the disk, written out: to put or delete, a free temporary name if
   something is there to be moved aside, and otherwise no file in the way; to move, a source, no file
   in the way, and a destination the source can take: a directory only a free name that is not its
   own or below it, a file anything but a directory.
   */
  predicate Ready(fs: Files, home: Path, mut: Mutation, random: Bytes) {
    var full := Target(home, mut.path);
    && ValidPath(mut.path)
    && match mut.op
       case Create | Replace | Delete => if full in fs then TempPath(full, random) !in fs else NoFileAbove(fs, full)
       case Move =>
         var from := Target(home, mut.from);
         && ValidPath(mut.from) && from in fs && NoFileAbove(fs, full)
         && if IsDir(fs, from) then full !in fs && !Under(from, full) else !IsDir(fs, full)
       case OtherOp => false
  }

  function Commit(fs: Files, home: Path, mut: Mutation, random: Bytes): Files {
    var full := Target(home, mut.path);
    match mut.op
    case Create | Replace =>
      var away := StashAway(fs, full, random);
      if mut.kind == Tree.DirectoryKind then MkdirAll(away, full)
      else MkdirAll(away, Parent(full))[full := File(Payload(mut))]
    case Delete => StashAway(fs, full, random)
    case Move => Rename(MkdirAll(fs, Parent(full)), Target(home, mut.from), full)
    case OtherOp => fs
  }

  function StashUndo(fs: Files, full: Path, random: Bytes): Undo
    requires full != []
  {
    if full in fs then Restore(full, TempPath(full, random)) else Discard(full)
  }

  function StashSide(fs: Files, full: Path, random: Bytes): Option<Path>
    requires full != []
  {
    if full in fs then Some(TempPath(full, random)) else None
  }

  function UndoOf(fs: Files, home: Path, mut: Mutation, random: Bytes): Undo {
    if mut.op == Tree.Move then MoveBack(Target(home, mut.path), Target(home, mut.from))
    else StashUndo(fs, Target(home, mut.path), random)
  }

  /** The stash to drop once the whole batch has succeeded. */
  function SideOf(fs: Files, home: Path, mut: Mutation, random: Bytes): Option<Path> {
    if mut.op == Tree.Move then None else StashSide(fs, Target(home, mut.path), random)
  }

  /** An undo closure on a calm disk; its errors are ignored. */
  function RunUndo(fs: Files, undo: Undo): Files {
    match undo
    case Discard(path) => RemoveAll(fs, path)
    case Restore(path, side) =>
      var cleared := RemoveAll(fs, path);
      if RenameOk(cleared, side, path) then Rename(cleared, side, path) else cleared
    case MoveBack(path, from) =>
      if RenameOk(fs, path, from) then Rename(fs, path, from) else fs
  }

  /**
   What the undo of one mutation relies on, readable off the disk before the mutation: nothing had
   to be created above the target, and a move lands on a free name.
   */
  predicate StepSafe(fs: Files, home: Path, mut: Mutation) {
    var full := Target(home, mut.path);
    match mut.op
    case Create | Replace => IsDir(fs, Parent(full))
    case Delete => true
    case Move => IsDir(fs, Parent(full)) && (full in fs ==> mut.from == mut.path)
    case OtherOp => true
  }

  // ---------------------------------------------------------- Undoing one step

  lemma StashKeeps(fs: Files, full: Path, random: Bytes)
    requires WellFormed(fs) && full != [] && StashOk(fs, full, random)
    ensures WellFormed(StashAway(fs, full, random))
    ensures full !in StashAway(fs, full, random)
    ensures full in fs ==> RenameOk(fs, full, TempPath(full, random))
    ensures full in fs ==> IsDir(StashAway(fs, full, random), Parent(full))
    ensures IsDir(fs, Parent(full)) ==> IsDir(StashAway(fs, full, random), Parent(full))
  {
    if full in fs {
      var side := TempPath(full, random);
      assert Above(Parent(full), full);
      RenameWellFormed(fs, full, side);
      RenameBackOk(fs, full, side);
      RenameAt(fs, full, side, Parent(full));
    }
  }

  /** Nothing or one entry at the stashed path: what a finished or a failed write leaves there. */
  ghost predicate AtMostAt(away: Files, fs: Files, full: Path) {
    fs == away || (full in fs && fs == away[full := fs[full]])
  }

  /** Whatever stands at the target is cleared, and what was stashed is put back in its place. */
  lemma StashUndone(fs: Files, full: Path, random: Bytes, now: Files)
    requires WellFormed(fs) && full != [] && StashOk(fs, full, random)
    requires AtMostAt(StashAway(fs, full, random), now, full)
    ensures RunUndo(now, StashUndo(fs, full, random)) == fs
  {
    hide WellFormed, Rename, RenameOk;
    if full in fs {
      RestoreUndoes(fs, full, random, Dir);
      if now != StashAway(fs, full, random) {
        RestoreUndoes(fs, full, random, now[full]);
      }
    } else {
      RemoveAllAbsent(fs, full);
      if now != fs {
        RemoveAllUndoes(fs, full, now[full]);
      }
    }
  }

  lemma RestoreUndoes(fs: Files, full: Path, random: Bytes, e: Entry)
    requires WellFormed(fs) && full != [] && StashOk(fs, full, random) && full in fs
    ensures RunUndo(StashAway(fs, full, random)[full := e], Restore(full, TempPath(full, random))) == fs
    ensures RunUndo(StashAway(fs, full, random), Restore(full, TempPath(full, random))) == fs
  {
    StashKeeps(fs, full, random);
    var away := StashAway(fs, full, random);
    RemoveAllUndoes(away, full, e);
    RemoveAllAbsent(away, full);
    RenameBack(fs, full, TempPath(full, random));
  }

  lemma MkdirLeafOnly(fs: Files, full: Path)
    requires WellFormed(fs) && full != [] && IsDir(fs, Parent(full)) && full !in fs
    ensures MkdirAllOk(fs, full) && MkdirAll(fs, full) == fs[full := Dir]
  {
    MkdirAllNoop(fs, Parent(full));
    forall a | Under(a, full)
      ensures a == full || IsDir(fs, a)
    {
      if a != full {
        ParentOfUnder(a, full);
        AncestorIsDir(fs, a, Parent(full));
      }
    }
    assert MkdirAll(fs, full).Keys == fs.Keys + {full};
  }

  lemma PutUndone(fs: Files, home: Path, mut: Mutation, random: Bytes)
    requires WellFormed(fs) && (mut.op == Tree.Create || mut.op == Tree.Replace)
    requires CommitOk(fs, home, mut, random) && StepSafe(fs, home, mut)
    ensures RunUndo(Commit(fs, home, mut, random), UndoOf(fs, home, mut, random)) == fs
  {
    hide ValidPath, MkdirAll, WellFormed;
    var full := Target(home, mut.path);
    var away := StashAway(fs, full, random);
    StashKeeps(fs, full, random);
    var e := if mut.kind == Tree.DirectoryKind then Dir else File(Payload(mut));
    if mut.kind == Tree.DirectoryKind {
      MkdirLeafOnly(away, full);
    } else {
      MkdirAllNoop(away, Parent(full));
    }
    assert Commit(fs, home, mut, random) == away[full := e];
    StashUndone(fs, full, random, away[full := e]);
  }

  /** A parent that had to be made stays behind: the undo only clears the target itself. */
  lemma PutLeavesParent(fs: Files, home: Path, mut: Mutation, random: Bytes)
    requires WellFormed(fs) && (mut.op == Tree.Create || mut.op == Tree.Replace)
    requires CommitOk(fs, home, mut, random) && !StepSafe(fs, home, mut)
    ensures RunUndo(Commit(fs, home, mut, random), UndoOf(fs, home, mut, random)) != fs
  {
    hide ValidPath;
    var full := Target(home, mut.path);
    assert Above(Parent(full), full);
    assert full !in fs;
    assert Under(Parent(full), full) && !Under(full, Parent(full));
    var after := RunUndo(Commit(fs, home, mut, random), UndoOf(fs, home, mut, random));
    assert Parent(full) in Commit(fs, home, mut, random);
    assert IsDir(after, Parent(full));
  }

  lemma MoveUndone(fs: Files, home: Path, mut: Mutation, random: Bytes)
    requires WellFormed(fs) && mut.op == Tree.Move
    requires CommitOk(fs, home, mut, random) && StepSafe(fs, home, mut)
    ensures RunUndo(Commit(fs, home, mut, random), UndoOf(fs, home, mut, random)) == fs
  {
    hide ValidPath, WellFormed, MkdirAll, Rename;
    var full, from := Target(home, mut.path), Target(home, mut.from);
    MkdirAllNoop(fs, Parent(full));
    if full in fs {
      TargetInjective(home, mut.path, mut.from);
      RenameOntoItself(fs, full);
    } else {
      RenameBack(fs, from, full);
    }
  }

  lemma RenameOntoItself(fs: Files, p: Path)
    requires WellFormed(fs) && RenameOk(fs, p, p)
    ensures Rename(fs, p, p) == fs
  {
    forall q
      ensures q in Rename(fs, p, p) <==> q in fs
      ensures q in fs ==> Rename(fs, p, p)[q] == fs[q]
    {
      RenameAt(fs, p, p, q);
      if Under(p, q) { UnderSuffix(p, q); }
    }
  }

  /** Without a free destination below an existing parent, the opposite rename does not bring fs back. */
  lemma MoveLoses(fs: Files, home: Path, mut: Mutation, random: Bytes)
    requires WellFormed(fs) && mut.op == Tree.Move
    requires CommitOk(fs, home, mut, random) && !StepSafe(fs, home, mut)
    ensures RunUndo(Commit(fs, home, mut, random), UndoOf(fs, home, mut, random)) != fs
  {
    hide ValidPath, WellFormed, MkdirAll, Rename;
    var full, from := Target(home, mut.path), Target(home, mut.from);
    var made := MkdirAll(fs, Parent(full));
    MkdirAllWellFormed(fs, Parent(full));
    var moved := Rename(made, from, full);
    RenameWellFormed(made, from, full);
    var after := RunUndo(moved, MoveBack(full, from));
    if !IsDir(fs, Parent(full)) {
      // the parent made for the move outlives the way back
      MoveKeepsParent(made, from, full);
      assert IsDir(after, Parent(full));
    } else {
      // the overwritten file is gone: its name is free, or still holds the moved entry
      MkdirAllNoop(fs, Parent(full));
      MoveOverwrites(fs, home, mut);
    }
  }

  lemma MoveKeepsParent(fs: Files, from: Path, full: Path)
    requires WellFormed(fs) && RenameOk(fs, from, full)
    ensures IsDir(RunUndo(Rename(fs, from, full), MoveBack(full, from)), Parent(full))
  {
    var moved := Rename(fs, from, full);
    var up := Parent(full);
    assert Above(up, full);
    assert !Under(full, up);
    RenameWellFormed(fs, from, full);
    RenameAt(fs, from, full, up);
    NotBelowItself(fs, from, full);
    assert IsDir(moved, up);
    if RenameOk(moved, full, from) {
      RenameAt(moved, full, from, up);
      assert !Under(from, up);
    }
  }

  lemma NotBelowItself(fs: Files, from: Path, full: Path)
    requires WellFormed(fs) && RenameOk(fs, from, full)
    ensures !Under(from, Parent(full))
  {
    if Under(from, Parent(full)) {
      AncestorIsDir(fs, from, Parent(full));
      assert Under(from, full);
    }
  }

  lemma MoveOverwrites(fs: Files, home: Path, mut: Mutation)
    requires WellFormed(fs)
    requires var full, from := Target(home, mut.path), Target(home, mut.from);
             RenameOk(fs, from, full) && full in fs && mut.from != mut.path
             && ValidPath(mut.path) && ValidPath(mut.from)
    ensures var full, from := Target(home, mut.path), Target(home, mut.from);
            RunUndo(Rename(fs, from, full), MoveBack(full, from)) != fs
  {
    hide ValidPath;
    var full, from := Target(home, mut.path), Target(home, mut.from);
    TargetInjective(home, mut.path, mut.from);
    var moved := Rename(fs, from, full);
    RenameWellFormed(fs, from, full);
    assert from in fs && full in fs && fs[from].File? && fs[full].File?;
    assert !Under(full, from) by { FileAloneUnder(fs, full, from); }
    assert !Under(from, full) by { FileAloneUnder(fs, from, full); }
    RenameAt(fs, from, full, full);
    RenameAt(fs, from, full, from);
    assert from !in moved;
    if RenameOk(moved, full, from) {
      RenameAt(moved, full, from, full);
    }
  }

  lemma FileAloneUnder(fs: Files, p: Path, q: Path)
    requires WellFormed(fs) && IsFile(fs, p) && q in fs && p != q
    ensures !Under(p, q)
  {
    if Under(p, q) {
      assert Above(p, q);
    }
  }

  lemma TargetInjective(home: Path, p: Bytes, q: Bytes)
    ensures Target(home, p) == Target(home, q) <==> p == q
  {
    if Target(home, p) == Target(home, q) {
      assert Target(home, p)[|home|..] == Split(p);
      assert Target(home, q)[|home|..] == Split(q);
      SplitInjective(p, q);
    }
  }

  lemma CommitWellFormed(fs: Files, home: Path, mut: Mutation, random: Bytes)
    requires WellFormed(fs) && CommitOk(fs, home, mut, random)
    ensures WellFormed(Commit(fs, home, mut, random))
  {
    hide ValidPath, WellFormed, MkdirAll, Rename, RenameOk;
    var full := Target(home, mut.path);
    match mut.op {
      case Create | Replace =>
        StashKeeps(fs, full, random);
        var away := StashAway(fs, full, random);
        if mut.kind == Tree.DirectoryKind {
          MkdirAllWellFormed(away, full);
        } else {
          MkdirAllWellFormed(away, Parent(full));
          WriteWellFormed(MkdirAll(away, Parent(full)), full, Payload(mut));
        }
      case Delete => StashKeeps(fs, full, random);
      case Move =>
        MkdirAllWellFormed(fs, Parent(full));
        RenameWellFormed(MkdirAll(fs, Parent(full)), Target(home, mut.from), full);
    }
  }

  /**
   The undo of one successful mutation gives back the disk as it was, every path and every byte,
   exactly when the mutation was safe; otherwise something is left behind or lost.
   */
  lemma StepUndone(fs: Files, home: Path, mut: Mutation, random: Bytes)
    requires WellFormed(fs) && CommitOk(fs, home, mut, random)
    ensures RunUndo(Commit(fs, home, mut, random), UndoOf(fs, home, mut, random)) == fs
            <==> StepSafe(fs, home, mut)
  {
    hide ValidPath, WellFormed, Commit, UndoOf, RunUndo;
    match mut.op {
      case Create | Replace =>
        if StepSafe(fs, home, mut) {
          PutUndone(fs, home, mut, random);
        } else {
          PutLeavesParent(fs, home, mut, random);
        }
      case Delete => DeleteUndone(fs, home, mut, random);
      case Move =>
        if StepSafe(fs, home, mut) {
          MoveUndone(fs, home, mut, random);
        } else {
          MoveLoses(fs, home, mut, random);
        }
    }
  }

  lemma DeleteUndone(fs: Files, home: Path, mut: Mutation, random: Bytes)
    requires WellFormed(fs) && mut.op == Tree.Delete && CommitOk(fs, home, mut, random)
    ensures RunUndo(Commit(fs, home, mut, random), UndoOf(fs, home, mut, random)) == fs
  {
    hide ValidPath, WellFormed;
    var full := Target(home, mut.path);
    StashUndone(fs, full, random, StashAway(fs, full, random));
  }

  // ---------------------------------------------------- When a mutation is possible

  /** Where nothing is in the way, the parent directories can be made and nothing else is. */
  lemma ParentsCanBeMade(fs: Files, p: Path)
    requires WellFormed(fs) && p != []
    ensures p in fs ==> NoFileAbove(fs, p)
    ensures MkdirAllOk(fs, Parent(p)) <==> NoFileAbove(fs, p)
    ensures IsFile(fs, p) || p !in fs ==> (p in MkdirAll(fs, Parent(p)) <==> p in fs)
    ensures IsFile(fs, p) ==> IsFile(MkdirAll(fs, Parent(p)), p)
    ensures p in fs && IsDir(fs, p) ==> IsDir(MkdirAll(fs, Parent(p)), p)
  {
    forall a
      ensures a in Ancestors(Parent(p)) <==> a in Ancestors(p) && a != p
    {
      if Above(a, p) {
        ParentOfUnder(a, p);
      }
    }
    if p in fs {
      forall a | a in Ancestors(p) && a != p
        ensures !IsFile(fs, a)
      {
        assert Above(a, p);
      }
    }
  }

  lemma PutReady(fs: Files, home: Path, mut: Mutation, random: Bytes)
    requires WellFormed(fs) && ValidPath(mut.path) && (mut.op == Tree.Create || mut.op == Tree.Replace)
    ensures CommitOk(fs, home, mut, random) <==> Ready(fs, home, mut, random)
  {
    hide ValidPath, WellFormed, Rename, RenameOk, MkdirAll;
    var full := Target(home, mut.path);
    ParentsCanBeMade(fs, full);
    if StashOk(fs, full, random) {
      StashKeeps(fs, full, random);
      var away := StashAway(fs, full, random);
      ParentsCanBeMade(away, full);
      if full in fs {
        MkdirAllNoop(away, Parent(full));
      } else {
        MkdirAllWellFormed(fs, Parent(full));
      }
    }
  }

  lemma MoveReady(fs: Files, home: Path, mut: Mutation, random: Bytes)
    requires WellFormed(fs) && ValidPath(mut.path) && mut.op == Tree.Move
    ensures CommitOk(fs, home, mut, random) <==> Ready(fs, home, mut, random)
  {
    hide ValidPath, WellFormed;
    var full, from := Target(home, mut.path), Target(home, mut.from);
    ParentsCanBeMade(fs, full);
    if MkdirAllOk(fs, Parent(full)) {
      MkdirAllWellFormed(fs, Parent(full));
      if Under(from, Parent(full)) {
        assert Above(from, full);
      }
    }
  }

  /** Every call of applyDisk finds what it needs exactly when the mutation is ready. */
  lemma CommitIff(fs: Files, home: Path, mut: Mutation, random: Bytes)
    requires WellFormed(fs)
    ensures CommitOk(fs, home, mut, random) <==> Ready(fs, home, mut, random)
  {
    hide ValidPath, WellFormed, Rename, RenameOk, MkdirAll;
    if ValidPath(mut.path) {
      match mut.op {
        case Create | Replace => PutReady(fs, home, mut, random);
        case Delete => ParentsCanBeMade(fs, Target(home, mut.path));
        case Move => MoveReady(fs, home, mut, random);
        case OtherOp =>
      }
    }
  }

  /** What the disk holds after the first k mutations. */
  function StateAt(fs: Files, home: Path, muts: seq<Mutation>, randoms: seq<Bytes>, k: nat): Files
    requires k <= |muts| == |randoms|
  {
    if k == 0 then fs
    else Commit(StateAt(fs, home, muts, randoms, k - 1), home, muts[k - 1], randoms[k - 1])
  }

  /** One after the other, each of the first n mutations of the batch is ready when its turn comes. */
  ghost predicate CanCommit(fs: Files, home: Path, muts: seq<Mutation>, randoms: seq<Bytes>, n: nat)
    requires n <= |muts| == |randoms|
  {
    forall k :: 0 <= k < n ==> Ready(StateAt(fs, home, muts, randoms, k), home, muts[k], randoms[k])
  }

  // ------------------------------------------------------------- The disk calls

  /** Runs one undo closure on a calm disk. */
  method RunOn(disk: Disk, undo: Undo)
    requires disk.Valid()
    requires Runnable(undo)
    modifies disk
    ensures disk.Valid() && disk.files == RunUndo(old(disk.files), undo)
  {
    hide WellFormed, RenameOk, Rename, RemoveAll;
    match undo {
      case Discard(path) =>
        var _ := disk.RemoveAll(path, true);
      case Restore(path, side) =>
        var _ := disk.RemoveAll(path, true);
        var _ := disk.Rename(side, path, true);
      case MoveBack(path, from) =>
        var _ := disk.Rename(path, from, true);
    }
  }

  /**
   stash: moves full aside if it exists. leak tells that removing the fresh temporary directory
   failed: it then stays on disk, empty. calm: no outside fault strikes the calls.
   */
  method Stash(disk: Disk, full: Path, random: Bytes, calm: bool)
    returns (ok: bool, undo: Undo, side: Option<Path>, leak: bool)
    requires disk.Valid() && full != []
    modifies disk
    ensures disk.Valid()
    ensures ok ==>
              && StashOk(old(disk.files), full, random)
              && disk.files == StashAway(old(disk.files), full, random)
              && undo == StashUndo(old(disk.files), full, random)
              && side == StashSide(old(disk.files), full, random)
    ensures !ok && !leak ==> disk.files == old(disk.files)
    ensures leak ==> !ok && Leaked(old(disk.files), disk.files, full, random)
    ensures calm ==> !leak && (ok <==> StashOk(old(disk.files), full, random))
  {
    hide WellFormed, Rename;
    ok, undo, side, leak := false, Discard(full), None, false;
    var statOk, stat := disk.Stat(full, calm);
    if !statOk || stat == NotADirectory {
      return;
    }
    if stat == Missing {
      ok := true;
      return;
    }
    var tmp := TempPath(full, random);
    ghost var fs := disk.files;
    TempIsFree(fs, full, random);
    var made := disk.MkdirTemp(full, random, calm);
    if !made {
      return;
    }
    var removal := disk.Remove(tmp, calm);
    if removal != Removed {
      leak := true;
      return;
    }
    assert disk.files == fs;
    var renamed := disk.Rename(full, tmp, calm);
    if !renamed {
      return;
    }
    ok, undo, side := true, Restore(full, tmp), Some(tmp);
  }

  /** Beside an entry there is a directory to make the temporary one in, and nothing lies below a free name. */
  lemma TempIsFree(fs: Files, full: Path, random: Bytes)
    requires WellFormed(fs) && full != [] && full in fs
    ensures IsDir(fs, Parent(full))
    ensures var tmp := TempPath(full, random);
            tmp !in fs ==> RemoveOk(fs[tmp := Dir], tmp) && RenameOk(fs, full, tmp)
  {
    assert Above(Parent(full), full);
    var tmp := TempPath(full, random);
    if tmp !in fs {
      forall q | q in fs
        ensures !Above(tmp, q)
      {
        NothingUnder(fs, tmp, q);
      }
    }
  }

  ghost predicate Leaked(before: Files, after: Files, full: Path, random: Bytes)
    requires full != []
  {
    full in before && TempPath(full, random) !in before && after == before[TempPath(full, random) := Dir]
  }

  method PutOnDisk(disk: Disk, home: Path, mut: Mutation, random: Bytes, calm: bool)
    returns (ok: bool, undo: Undo, side: Option<Path>, leak: bool)
    requires disk.Valid() && ValidPath(mut.path) && (mut.op == Tree.Create || mut.op == Tree.Replace)
    modifies disk
    ensures disk.Valid()
    ensures ok ==> Committed(old(disk.files), home, mut, random, disk.files, undo, side)
    ensures !ok && !leak && StepSafe(old(disk.files), home, mut) ==> disk.files == old(disk.files)
    ensures leak ==> !ok && Leaked(old(disk.files), disk.files, Target(home, mut.path), random)
    ensures calm ==> !leak && (ok <==> CommitOk(old(disk.files), home, mut, random))
  {
    hide ValidPath, WellFormed, Rename, RenameOk, MkdirAll, MkdirAllOk, Lstat, RunUndo;
    var full := Target(home, mut.path);
    ghost var fs := disk.files;
    ok, undo, side, leak := Stash(disk, full, random, calm);
    if !ok {
      return;
    }
    ghost var away := disk.files;
    StashKeeps(fs, full, random);
    if mut.kind == Tree.DirectoryKind {
      ok := disk.MkdirAll(full, calm);
      if !ok {
        if StepSafe(fs, home, mut) {
          PartialMkdir(away, full, disk.files);
          StashUndone(fs, full, random, disk.files);
        }
        RunOn(disk, undo);
      }
      return;
    }
    ok := disk.MkdirAll(Parent(full), calm);
    if !ok {
      if StepSafe(fs, home, mut) {
        PartialMkdir(away, full, disk.files);
        StashUndone(fs, full, random, disk.files);
      }
      RunOn(disk, undo);
      return;
    }
    ghost var ready := disk.files;
    ok := disk.WriteFile(full, Payload(mut), calm);
    if !ok {
      if StepSafe(fs, home, mut) {
        MkdirAllNoop(away, Parent(full));
        assert AtMostAt(away, disk.files, full);
        StashUndone(fs, full, random, disk.files);
      }
      RunOn(disk, undo);
    }
  }

  /** With the parent in place, a MkdirAll that stops early has made at most the last directory. */
  lemma PartialMkdir(away: Files, full: Path, now: Files)
    requires WellFormed(away) && full != [] && IsDir(away, Parent(full)) && full !in away
    requires exists a :: Under(a, full) && MkdirAllOk(away, a) && now == MkdirAll(away, a)
    ensures AtMostAt(away, now, full)
  {
    var a :| Under(a, full) && MkdirAllOk(away, a) && now == MkdirAll(away, a);
    if a == full {
      MkdirLeafOnly(away, full);
    } else {
      ParentOfUnder(a, full);
      AncestorIsDir(away, a, Parent(full));
      MkdirAllNoop(away, a);
    }
  }

  lemma StashedIsMissing(fs: Files, full: Path, random: Bytes)
    requires WellFormed(fs) && full != [] && StashOk(fs, full, random)
    ensures Lstat(StashAway(fs, full, random), full) == Missing
  {
    hide WellFormed, Rename;
    StashKeeps(fs, full, random);
    if full in fs {
      var away := StashAway(fs, full, random);
      forall a | a in Ancestors(full)
        ensures !IsFile(away, a)
      {
        if a != full {
          ParentOfUnder(a, full);
          AncestorIsDir(away, a, Parent(full));
        }
      }
    }
  }

  method DeleteOnDisk(disk: Disk, home: Path, mut: Mutation, random: Bytes, calm: bool)
    returns (ok: bool, undo: Undo, side: Option<Path>, leak: bool)
    requires disk.Valid() && ValidPath(mut.path) && mut.op == Tree.Delete
    modifies disk
    ensures disk.Valid()
    ensures ok ==> Committed(old(disk.files), home, mut, random, disk.files, undo, side)
    ensures !ok && !leak ==> disk.files == old(disk.files)
    ensures leak ==> !ok && Leaked(old(disk.files), disk.files, Target(home, mut.path), random)
    ensures calm ==> !leak && (ok <==> CommitOk(old(disk.files), home, mut, random))
  {
    hide ValidPath, WellFormed, Rename, RenameOk, Lstat, RunUndo;
    var full := Target(home, mut.path);
    ghost var fs := disk.files;
    ok, undo, side, leak := Stash(disk, full, random, calm);
    if !ok {
      return;
    }
    StashKeeps(fs, full, random);
    StashedIsMissing(fs, full, random);
    var removal := disk.Remove(full, calm);
    if removal == Refused {
      StashUndone(fs, full, random, disk.files);
      RunOn(disk, undo);
      ok := false;
    }
  }

  method MoveOnDisk(disk: Disk, home: Path, mut: Mutation, random: Bytes, calm: bool)
    returns (ok: bool, undo: Undo, side: Option<Path>, leak: bool)
    requires disk.Valid() && ValidPath(mut.path) && ValidPath(mut.from) && mut.op == Tree.Move
    modifies disk
    ensures disk.Valid() && !leak
    ensures ok ==> Committed(old(disk.files), home, mut, random, disk.files, undo, side)
    ensures !ok && StepSafe(old(disk.files), home, mut) ==> disk.files == old(disk.files)
    ensures calm ==> (ok <==> CommitOk(old(disk.files), home, mut, random))
  {
    hide ValidPath, WellFormed, Rename, RenameOk, MkdirAll, MkdirAllOk;
    var full, from := Target(home, mut.path), Target(home, mut.from);
    ghost var fs := disk.files;
    undo, side, leak := MoveBack(full, from), None, false;
    ok := disk.MkdirAll(Parent(full), calm);
    if !ok {
      if StepSafe(fs, home, mut) {
        var a :| Under(a, Parent(full)) && MkdirAllOk(fs, a) && disk.files == MkdirAll(fs, a);
        AncestorIsDir(fs, a, Parent(full));
        MkdirAllNoop(fs, a);
      }
      return;
    }
    if StepSafe(fs, home, mut) {
      MkdirAllNoop(fs, Parent(full));
    }
    ok := disk.Rename(from, full, calm);
  }

  ghost predicate Committed(fs: Files, home: Path, mut: Mutation, random: Bytes,
                            after: Files, undo: Undo, side: Option<Path>) {
    && CommitOk(fs, home, mut, random)
    && after == Commit(fs, home, mut, random)
    && undo == UndoOf(fs, home, mut, random)
    && side == SideOf(fs, home, mut, random)
  }

  /**
   applyDisk: on success the mutation has taken its full effect. On failure a safe mutation has
   left no trace, except for the empty temporary directory when removing that one failed. Without
   outside faults it succeeds exactly when the mutation is ready.
   */
  method ApplyDisk(disk: Disk, home: Path, mut: Mutation, random: Bytes, calm: bool)
    returns (ok: bool, undo: Undo, side: Option<Path>, leak: bool)
    requires disk.Valid() && Normal(home)
    modifies disk
    ensures disk.Valid()
    ensures ok ==> Committed(old(disk.files), home, mut, random, disk.files, undo, side)
    ensures !ok && !leak && StepSafe(old(disk.files), home, mut) ==> disk.files == old(disk.files)
    ensures leak ==> !ok && Leaked(old(disk.files), disk.files, Target(home, mut.path), random)
    ensures calm ==> !leak && (ok <==> Ready(old(disk.files), home, mut, random))
  {
    hide ValidPath, WellFormed, CommitOk, Commit, StepSafe;
    ok, undo, side, leak := false, Discard(home), None, false;
    CommitIff(disk.files, home, mut, random);
    ResolveStaysInside(home, mut.path);
    var full := Resolve(home, mut.path);
    if full.Failure? {
      return;
    }
    match mut.op {
      case Create | Replace =>
        ok, undo, side, leak := PutOnDisk(disk, home, mut, random, calm);
      case Delete =>
        ok, undo, side, leak := DeleteOnDisk(disk, home, mut, random, calm);
      case Move =>
        ResolveStaysInside(home, mut.from);
        var from := Resolve(home, mut.from);
        if from.Failure? {
          return;
        }
        ok, undo, side, leak := MoveOnDisk(disk, home, mut, random, calm);
      case OtherOp =>
    }
  }

  // -------------------------------------------------------------- A whole batch

  /** states is what the disk held before, between and after the mutations done so far. */
  ghost predicate Run(states: seq<Files>, home: Path, muts: seq<Mutation>, randoms: seq<Bytes>) {
    && 1 <= |states| <= |muts| + 1
    && |randoms| == |muts|
    && forall k :: 0 <= k < |states| - 1 ==>
         CommitOk(states[k], home, muts[k], randoms[k]) && states[k + 1] == Commit(states[k], home, muts[k], randoms[k])
  }

  /** The undo list belongs to the run: one closure for each mutation done. */
  ghost predicate UndosOf(undos: seq<Undo>, states: seq<Files>, home: Path, muts: seq<Mutation>, randoms: seq<Bytes>)
    requires Run(states, home, muts, randoms)
  {
    && |undos| == |states| - 1
    && forall k :: 0 <= k < |undos| ==> undos[k] == UndoOf(states[k], home, muts[k], randoms[k])
  }

  ghost predicate AllSafe(states: seq<Files>, home: Path, muts: seq<Mutation>)
    requires |states| <= |muts| + 1
  {
    forall k :: 0 <= k < |states| && k < |muts| ==> StepSafe(states[k], home, muts[k])
  }

  /** rollback: the undo list from its end. */
  function RunUndos(fs: Files, undos: seq<Undo>): Files
    decreases |undos|
  {
    if undos == [] then fs
    else RunUndos(RunUndo(fs, undos[|undos| - 1]), undos[..|undos| - 1])
  }

  lemma {:induction false} RunWellFormed(states: seq<Files>, home: Path, muts: seq<Mutation>, randoms: seq<Bytes>,
                                         k: nat)
    requires Run(states, home, muts, randoms) && WellFormed(states[0]) && k < |states|
    ensures WellFormed(states[k])
  {
    hide WellFormed, CommitOk, Commit;
    if k > 0 {
      RunWellFormed(states, home, muts, randoms, k - 1);
      CommitWellFormed(states[k - 1], home, muts[k - 1], randoms[k - 1]);
    }
  }

  /** Rolling a safe run back from its k-th state restores the very first state. */
  lemma {:induction false} RollbackExact(states: seq<Files>, home: Path, muts: seq<Mutation>, randoms: seq<Bytes>,
                                         undos: seq<Undo>, k: nat)
    requires Run(states, home, muts, randoms) && WellFormed(states[0])
    requires UndosOf(undos, states, home, muts, randoms) && k < |states|
    requires forall j :: 0 <= j < k ==> StepSafe(states[j], home, muts[j])
    ensures RunUndos(states[k], undos[..k]) == states[0]
  {
    hide WellFormed, CommitOk, Commit, StepSafe, RunUndo, UndoOf;
    if k > 0 {
      RunWellFormed(states, home, muts, randoms, k - 1);
      StepUndone(states[k - 1], home, muts[k - 1], randoms[k - 1]);
      assert undos[..k][..k - 1] == undos[..k - 1];
      assert RunUndo(states[k], undos[k - 1]) == states[k - 1];
      RollbackExact(states, home, muts, randoms, undos, k - 1);
    }
  }

  // ------------------------------------------------------ A directory left behind

  /** fs' is fs, or fs with one more empty directory of that name. */
  ghost predicate OneMore(fs: Files, fs': Files, name: Bytes) {
    fs' == fs || exists t :: Leaf(fs, t, name) && fs' == fs[t := Dir]
  }

  ghost predicate Leaf(fs: Files, t: Path, name: Bytes) {
    t != [] && t[|t| - 1] == name && t !in fs && IsDir(fs, Parent(t))
  }

  /** The rename of an undo, if it has one, succeeds. */
  predicate UndoWorks(fs: Files, undo: Undo) {
    match undo
    case Discard(path) => path != []
    case Restore(path, side) => path != [] && RenameOk(RemoveAll(fs, path), side, path)
    case MoveBack(path, from) => RenameOk(fs, path, from)
  }

  predicate Mentions(undo: Undo, name: Bytes) {
    match undo
    case Discard(path) => name in path
    case Restore(path, _) => name in path
    case MoveBack(path, from) => name in path || name in from
  }

  lemma RemoveAllLeaf(fs: Files, path: Path, t: Path, name: Bytes)
    requires Leaf(fs, t, name)
    ensures if Under(path, t) then RemoveAll(fs[t := Dir], path) == RemoveAll(fs, path)
            else RemoveAll(fs[t := Dir], path) == RemoveAll(fs, path)[t := Dir] && Leaf(RemoveAll(fs, path), t, name)
  {
    if !Under(path, t) {
      assert !Under(path, Parent(t));
    }
  }

  /** Renaming beside an empty directory carries it along, covers it, or leaves it. */
  lemma RenameLeaf(fs: Files, from: Path, to: Path, t: Path, name: Bytes)
    requires WellFormed(fs) && RenameOk(fs, from, to) && Leaf(fs, t, name) && t != to
    ensures RenameOk(fs[t := Dir], from, to) && OneMore(Rename(fs, from, to), Rename(fs[t := Dir], from, to), name)
  {
    hide Rename, WellFormed;
    var fs' := fs[t := Dir];
    NewDirWellFormed(fs, t);
    var moved, moved' := Rename(fs, from, to), Rename(fs', from, to);
    if Under(from, t) {
      UnderSuffix(from, t);
      var u := to + t[|from|..];
      assert u[|to|..] == t[|from|..];
      LeafMoved(fs, from, to, t, u, name);
    } else if Under(to, t) {
      forall q
        ensures q in moved <==> q in moved'
        ensures q in moved ==> moved'[q] == moved[q]
      {
        RenameAt(fs, from, to, q);
        RenameAt(fs', from, to, q);
        if Under(to, q) {
          assert Under(from, from + q[|to|..]);
        }
      }
      assert moved' == moved;
    } else {
      LeafStays(fs, from, to, t, name);
    }
  }

  lemma LeafMoved(fs: Files, from: Path, to: Path, t: Path, u: Path, name: Bytes)
    requires WellFormed(fs) && RenameOk(fs, from, to) && Leaf(fs, t, name) && t != to
    requires Under(from, t) && u == to + t[|from|..]
    requires WellFormed(fs[t := Dir]) && RenameOk(fs[t := Dir], from, to)
    ensures Leaf(Rename(fs, from, to), u, name) && Rename(fs[t := Dir], from, to) == Rename(fs, from, to)[u := Dir]
  {
    hide Rename, WellFormed;
    var fs' := fs[t := Dir];
    var moved, moved' := Rename(fs, from, to), Rename(fs', from, to);
    assert t != from;
    assert u[|to|..] == t[|from|..] && from + u[|to|..] == t;
    RenameAt(fs, from, to, u);
    assert Parent(u)[|to|..] == Parent(t)[|from|..];
    RenameAt(fs, from, to, Parent(u));
    assert from + Parent(u)[|to|..] == Parent(t);
    forall q
      ensures q in moved' <==> q in moved || q == u
      ensures q in moved' ==> moved'[q] == if q == u then Dir else moved[q]
    {
      RenameAt(fs, from, to, q);
      RenameAt(fs', from, to, q);
      if Under(to, q) && from + q[|to|..] == t {
        assert q[|to|..] == t[|from|..];
        UnderSuffix(to, q);
      }
    }
    assert moved' == moved[u := Dir];
  }

  lemma LeafStays(fs: Files, from: Path, to: Path, t: Path, name: Bytes)
    requires WellFormed(fs) && RenameOk(fs, from, to) && Leaf(fs, t, name) && !Under(from, t) && !Under(to, t)
    requires WellFormed(fs[t := Dir]) && RenameOk(fs[t := Dir], from, to)
    ensures Leaf(Rename(fs, from, to), t, name) && Rename(fs[t := Dir], from, to) == Rename(fs, from, to)[t := Dir]
  {
    hide Rename, WellFormed;
    var fs' := fs[t := Dir];
    var moved, moved' := Rename(fs, from, to), Rename(fs', from, to);
    RenameAt(fs, from, to, t);
    RenameAt(fs, from, to, Parent(t));
    assert !Under(from, Parent(t)) && !Under(to, Parent(t));
    forall q
      ensures q in moved' <==> q in moved || q == t
      ensures q in moved' ==> moved'[q] == if q == t then Dir else moved[q]
    {
      RenameAt(fs, from, to, q);
      RenameAt(fs', from, to, q);
      if Under(to, q) {
        assert Under(from, from + q[|to|..]);
      }
    }
    assert moved' == moved[t := Dir];
  }

  lemma UndoLeaf(fs: Files, undo: Undo, t: Path, name: Bytes)
    requires WellFormed(fs) && UndoWorks(fs, undo) && Leaf(fs, t, name) && !Mentions(undo, name)
    ensures OneMore(RunUndo(fs, undo), RunUndo(fs[t := Dir], undo), name)
  {
    hide WellFormed, Rename, RenameOk, RemoveAll;
    match undo {
      case Discard(path) => RemoveAllLeaf(fs, path, t, name);
      case Restore(path, side) =>
        RemoveAllLeaf(fs, path, t, name);
        RemoveAllWellFormed(fs, path);
        if !Under(path, t) {
          RenameLeaf(RemoveAll(fs, path), side, path, t, name);
        }
      case MoveBack(path, from) =>
        assert t != from by { assert t[|t| - 1] == name; }
        RenameLeaf(fs, path, from, t, name);
    }
  }

  lemma WorksAfter(fs: Files, home: Path, mut: Mutation, random: Bytes)
    requires WellFormed(fs) && CommitOk(fs, home, mut, random) && StepSafe(fs, home, mut)
    ensures UndoWorks(Commit(fs, home, mut, random), UndoOf(fs, home, mut, random))
  {
    hide ValidPath, WellFormed, Rename, RenameOk, MkdirAll, Lstat;
    var full := Target(home, mut.path);
    if mut.op == Tree.Move {
      MkdirAllNoop(fs, Parent(full));
      if full in fs {
        TargetInjective(home, mut.path, mut.from);
        RenameOntoItself(fs, full);
      } else {
        RenameBackOk(fs, Target(home, mut.from), full);
      }
    } else if full in fs {
      var away := StashAway(fs, full, random);
      StashKeeps(fs, full, random);
      RenameBackOk(fs, full, TempPath(full, random));
      RemoveAllAbsent(away, full);
      if mut.op != Tree.Delete {
        var e := if mut.kind == Tree.DirectoryKind then Dir else File(Payload(mut));
        if mut.kind == Tree.DirectoryKind {
          MkdirLeafOnly(away, full);
        } else {
          MkdirAllNoop(away, Parent(full));
        }
        RemoveAllUndoes(away, full, e);
      }
    }
  }

  /** No path the batch names has a segment of that name. */
  ghost predicate NameApart(home: Path, muts: seq<Mutation>, name: Bytes) {
    forall i :: 0 <= i < |muts| ==> name !in Target(home, muts[i].path) && name !in Target(home, muts[i].from)
  }

  lemma MentionsNamed(fs: Files, home: Path, muts: seq<Mutation>, i: nat, random: Bytes, name: Bytes)
    requires i < |muts| && NameApart(home, muts, name)
    ensures !Mentions(UndoOf(fs, home, muts[i], random), name)
  {
  }

  /** Rolling a safe run back from a state with one directory too many restores the first state, up to one. */
  lemma {:induction false} RollbackLeaf(states: seq<Files>, home: Path, muts: seq<Mutation>, randoms: seq<Bytes>,
                                        undos: seq<Undo>, k: nat, now: Files, name: Bytes)
    requires Run(states, home, muts, randoms) && WellFormed(states[0])
    requires UndosOf(undos, states, home, muts, randoms) && k < |states|
    requires forall j :: 0 <= j < k ==> StepSafe(states[j], home, muts[j])
    requires NameApart(home, muts, name) && OneMore(states[k], now, name)
    ensures OneMore(states[0], RunUndos(now, undos[..k]), name)
  {
    hide WellFormed, CommitOk, Commit, StepSafe, RunUndo, UndoOf, UndoWorks, Mentions, NameApart, Leaf;
    if k > 0 {
      var j := k - 1;
      RunWellFormed(states, home, muts, randoms, j);
      RunWellFormed(states, home, muts, randoms, k);
      StepUndone(states[j], home, muts[j], randoms[j]);
      WorksAfter(states[j], home, muts[j], randoms[j]);
      MentionsNamed(states[j], home, muts, j, randoms[j], name);
      assert undos[..k][..j] == undos[..j];
      if now != states[k] {
        var t :| Leaf(states[k], t, name) && now == states[k][t := Dir];
        UndoLeaf(states[k], undos[j], t, name);
      }
      RollbackLeaf(states, home, muts, randoms, undos, j, RunUndo(now, undos[j]), name);
    }
  }

  lemma LeakIsLeaf(fs: Files, now: Files, full: Path, random: Bytes)
    requires WellFormed(fs) && full != [] && Leaked(fs, now, full, random) && full in fs
    ensures OneMore(fs, now, TempName(full[|full| - 1], random))
  {
    assert Above(Parent(full), full);
    assert Leaf(fs, TempPath(full, random), TempName(full[|full| - 1], random));
  }

  ghost predicate Runnable(undo: Undo) {
    match undo
    case Discard(path) => path != []
    case Restore(path, side) => path != []
    case MoveBack(_, _) => true
  }

  method Rollback(disk: Disk, undos: seq<Undo>)
    requires disk.Valid()
    requires forall i :: 0 <= i < |undos| ==> Runnable(undos[i])
    modifies disk
    ensures disk.Valid() && disk.files == RunUndos(old(disk.files), undos)
  {
    hide WellFormed, RunUndo;
    var i := |undos|;
    assert undos[..i] == undos;
    while i > 0
      invariant 0 <= i <= |undos|
      invariant disk.Valid()
      invariant RunUndos(disk.files, undos[..i]) == RunUndos(old(disk.files), undos)
    {
      i := i - 1;
      assert undos[..i + 1][..i] == undos[..i];
      RunOn(disk, undos[i]);
    }
  }

  /** The stashes the run made, in order. */
  function Sides(states: seq<Files>, home: Path, muts: seq<Mutation>, randoms: seq<Bytes>): seq<Path>
    requires |states| <= |muts| + 1 && |randoms| == |muts|
  {
    if |states| <= 1 then []
    else
      var n := |states| - 2;
      Sides(states[..n + 1], home, muts, randoms)
      + match SideOf(states[n], home, muts[n], randoms[n]) case Some(t) => [t] case None => []
  }

  function DropAll(fs: Files, drop: seq<Path>): Files {
    if drop == [] then fs else RemoveAll(DropAll(fs, drop[..|drop| - 1]), drop[|drop| - 1])
  }

  lemma SidesExtend(states: seq<Files>, next: Files, home: Path, muts: seq<Mutation>, randoms: seq<Bytes>)
    requires 1 <= |states| <= |muts| && |randoms| == |muts|
    ensures Sides(states + [next], home, muts, randoms) ==
            Sides(states, home, muts, randoms)
            + match SideOf(states[|states| - 1], home, muts[|states| - 1], randoms[|states| - 1])
              case Some(t) => [t] case None => []
  {
    var all := states + [next];
    assert all[..|all| - 1] == states;
    assert all[|all| - 2] == states[|states| - 1];
  }

  lemma {:induction false} SidesNonEmpty(states: seq<Files>, home: Path, muts: seq<Mutation>, randoms: seq<Bytes>)
    requires |states| <= |muts| + 1 && |randoms| == |muts|
    ensures forall t :: t in Sides(states, home, muts, randoms) ==> t != []
  {
    if |states| > 1 {
      SidesNonEmpty(states[..|states| - 1], home, muts, randoms);
    }
  }

  lemma PrunedMore(fs: Files, mid: Files, fs': Files, roots: seq<Path>, t: Path)
    requires Pruned(fs, mid, roots)
    requires forall q :: q in fs' ==> q in mid && fs'[q] == mid[q]
    requires forall q :: q in mid && !Under(t, q) ==> q in fs'
    ensures Pruned(fs, fs', roots + [t])
  {
    forall q | q in fs && (forall u :: u in roots + [t] ==> !Under(u, q)) ensures q in fs' {
      assert forall u :: u in roots ==> u in roots + [t];
      assert t in roots + [t];
    }
  }

  /** Dropping the stashes after success: errors are ignored, and nothing but the stashes is touched. */
  method Drop(disk: Disk, drop: seq<Path>, calm: bool)
    requires disk.Valid()
    requires forall t :: t in drop ==> t != []
    modifies disk
    ensures disk.Valid()
    ensures Pruned(old(disk.files), disk.files, drop)
    ensures calm ==> disk.files == DropAll(old(disk.files), drop)
  {
    hide WellFormed, RemoveAll, Pruned;
    PrunedNot(disk.files);
    for i := 0 to |drop|
      invariant disk.Valid() && Pruned(old(disk.files), disk.files, drop[..i])
      invariant calm ==> disk.files == DropAll(old(disk.files), drop[..i])
    {
      assert drop[..i + 1] == drop[..i] + [drop[i]];
      assert drop[..i + 1][..i] == drop[..i];
      assert drop[i] in drop;
      ghost var mid := disk.files;
      var _ := disk.RemoveAll(drop[i], calm);
      PrunedMore(old(disk.files), mid, disk.files, drop[..i], drop[i]);
    }
    assert drop[..|drop|] == drop;
  }

  lemma PrunedNot(fs: Files)
    ensures Pruned(fs, fs, [])
  {
  }

  /** The name drawn for the stash of the mutation that failed. */
  function LastTempName(states: seq<Files>, home: Path, muts: seq<Mutation>, randoms: seq<Bytes>): Bytes
    requires 1 <= |states| <= |muts| && |randoms| == |muts|
  {
    var full := Target(home, muts[|states| - 1].path);
    TempName(full[|full| - 1], randoms[|states| - 1])
  }

  lemma LeakRolledBack(states: seq<Files>, home: Path, muts: seq<Mutation>, randoms: seq<Bytes>, undos: seq<Undo>,
                       failed: Files)
    requires Run(states, home, muts, randoms) && WellFormed(states[0]) && |states| <= |muts|
    requires UndosOf(undos, states, home, muts, randoms) && AllSafe(states, home, muts)
    requires Leaked(states[|states| - 1], failed, Target(home, muts[|states| - 1].path), randoms[|states| - 1])
    ensures var name := LastTempName(states, home, muts, randoms);
            NameApart(home, muts, name) ==> OneMore(states[0], RunUndos(failed, undos), name)
  {
    hide WellFormed, CommitOk, Commit, StepSafe, RunUndo, UndoOf, NameApart;
    var i := |states| - 1;
    RunWellFormed(states, home, muts, randoms, i);
    LeakIsLeaf(states[i], failed, Target(home, muts[i].path), randoms[i]);
    if NameApart(home, muts, LastTempName(states, home, muts, randoms)) {
      RollbackLeaf(states, home, muts, randoms, undos, i, failed, LastTempName(states, home, muts, randoms));
      assert undos[..i] == undos;
    }
  }

  /** The rollback of a batch whose next mutation has failed. */
  method RollBackTo(disk: Disk, undos: seq<Undo>, ghost leak: bool, ghost states: seq<Files>, ghost home: Path,
                    ghost muts: seq<Mutation>, ghost randoms: seq<Bytes>)
    requires disk.Valid() && Run(states, home, muts, randoms) && WellFormed(states[0]) && |states| <= |muts|
    requires UndosOf(undos, states, home, muts, randoms)
    requires var i := |states| - 1;
             && (!leak && StepSafe(states[i], home, muts[i]) ==> disk.files == states[i])
             && (leak ==> Leaked(states[i], disk.files, Target(home, muts[i].path), randoms[i]))
    modifies disk
    ensures disk.Valid()
    ensures !leak && AllSafe(states, home, muts) ==> disk.files == states[0]
    ensures leak && AllSafe(states, home, muts) ==>
              var name := LastTempName(states, home, muts, randoms);
              NameApart(home, muts, name) ==> OneMore(states[0], disk.files, name)
  {
    hide ValidPath, WellFormed, CommitOk, Commit, StepSafe, RunUndo, UndoOf, Leaked, NameApart, OneMore, LastTempName;
    ghost var failed, i := disk.files, |states| - 1;
    UndosRunnable(undos, states, home, muts, randoms);
    Rollback(disk, undos);
    if leak && AllSafe(states, home, muts) {
      LeakRolledBack(states, home, muts, randoms, undos, failed);
    }
    if !leak && AllSafe(states, home, muts) {
      RollbackExact(states, home, muts, randoms, undos, i);
      assert undos[..i] == undos;
      assert failed == states[i];
    }
  }

  /** What the loop of applyHome has done after |states| - 1 mutations. */
  ghost predicate Underway(states: seq<Files>, undos: seq<Undo>, drop: seq<Path>, home: Path, muts: seq<Mutation>,
                           randoms: seq<Bytes>) {
    && Run(states, home, muts, randoms) && WellFormed(states[0])
    && UndosOf(undos, states, home, muts, randoms)
    && drop == Sides(states, home, muts, randoms)
    && CanCommit(states[0], home, muts, randoms, |states| - 1)
    && states[|states| - 1] == StateAt(states[0], home, muts, randoms, |states| - 1)
  }

  lemma Starts(fs: Files, home: Path, muts: seq<Mutation>, randoms: seq<Bytes>)
    requires WellFormed(fs) && |muts| == |randoms|
    ensures Underway([fs], [], [], home, muts, randoms)
  {
    hide WellFormed;
  }

  lemma RunGoesOn(states: seq<Files>, undos: seq<Undo>, home: Path, muts: seq<Mutation>, randoms: seq<Bytes>,
                  next: Files, undo: Undo)
    requires Run(states, home, muts, randoms) && UndosOf(undos, states, home, muts, randoms) && |states| <= |muts|
    requires var i := |states| - 1;
             && CommitOk(states[i], home, muts[i], randoms[i]) && next == Commit(states[i], home, muts[i], randoms[i])
             && undo == UndoOf(states[i], home, muts[i], randoms[i])
    ensures Run(states + [next], home, muts, randoms)
    ensures UndosOf(undos + [undo], states + [next], home, muts, randoms)
  {
    hide CommitOk, Commit, UndoOf;
  }

  lemma CommitGoesOn(fs: Files, home: Path, muts: seq<Mutation>, randoms: seq<Bytes>, n: nat)
    requires n < |muts| == |randoms| && CanCommit(fs, home, muts, randoms, n)
    requires Ready(StateAt(fs, home, muts, randoms, n), home, muts[n], randoms[n])
    ensures CanCommit(fs, home, muts, randoms, n + 1)
    ensures StateAt(fs, home, muts, randoms, n + 1) ==
            Commit(StateAt(fs, home, muts, randoms, n), home, muts[n], randoms[n])
  {
    hide Ready, Commit;
  }

  lemma GoesOn(states: seq<Files>, undos: seq<Undo>, drop: seq<Path>, home: Path, muts: seq<Mutation>,
               randoms: seq<Bytes>, next: Files, undo: Undo, side: Option<Path>)
    requires Underway(states, undos, drop, home, muts, randoms) && |states| <= |muts|
    requires var i := |states| - 1; Committed(states[i], home, muts[i], randoms[i], next, undo, side)
    ensures var drop' := if side.Some? then drop + [side.value] else drop;
            Underway(states + [next], undos + [undo], drop', home, muts, randoms)
  {
    hide ValidPath, WellFormed, CommitOk, Commit, UndoOf, SideOf, Ready, Sides, CanCommit, StateAt, Run, UndosOf;
    UnderwayFacts(states, undos, drop, home, muts, randoms);
    var i := |states| - 1;
    RunWellFormed(states, home, muts, randoms, i);
    CommitIff(states[i], home, muts[i], randoms[i]);
    SidesExtend(states, next, home, muts, randoms);
    RunGoesOn(states, undos, home, muts, randoms, next, undo);
    CommitGoesOn(states[0], home, muts, randoms, i);
    assert drop + [] == drop;
  }

  /**
   applyHome. states records the run; calm says that no outside fault strikes the commits, quiet that
   none strikes the final drops. Without faults a batch is committed exactly when each of its
   mutations is ready in turn.
   Success keeps everything the run did, whatever becomes of the stashes. On failure after safe
   steps Home, and everything else on the disk, is as it was before the call.
   */
  method ApplyHome(disk: Disk, home: Path, muts: seq<Mutation>, randoms: seq<Bytes>, calm: bool, quiet: bool)
    returns (ok: bool, leak: bool, ghost states: seq<Files>)
    requires disk.Valid() && Normal(home) && |randoms| == |muts|
    modifies disk
    ensures disk.Valid()
    ensures Run(states, home, muts, randoms) && states[0] == old(disk.files)
    ensures ok ==> |states| == |muts| + 1 && Pruned(states[|muts|], disk.files, Sides(states, home, muts, randoms))
    ensures ok && quiet ==> disk.files == DropAll(states[|muts|], Sides(states, home, muts, randoms))
    ensures !ok && !leak && AllSafe(states, home, muts) ==> disk.files == old(disk.files)
    ensures calm ==> (ok <==> CanCommit(old(disk.files), home, muts, randoms, |muts|))
    ensures leak ==> !ok && |states| <= |muts|
    ensures leak && AllSafe(states, home, muts) ==>
              var name := LastTempName(states, home, muts, randoms);
              NameApart(home, muts, name) ==> OneMore(old(disk.files), disk.files, name)
  {
    hide ValidPath, WellFormed, CommitOk, Commit, StepSafe, UndoOf, SideOf, Pruned, Leaked, NameApart, OneMore;
    hide LastTempName, Ready, CanCommit, Underway, Run, UndosOf, Sides, AllSafe, StateAt;
    var undos: seq<Undo> := [];
    var drop: seq<Path> := [];
    states := [disk.files];
    ok, leak := true, false;
    Starts(disk.files, home, muts, randoms);
    for i := 0 to |muts|
      invariant disk.Valid() && |states| == i + 1
      invariant Underway(states, undos, drop, home, muts, randoms)
      invariant states[0] == old(disk.files) && states[i] == disk.files
      invariant ok && !leak
    {
      UnderwayFacts(states, undos, drop, home, muts, randoms);
      var undo: Undo;
      var side: Option<Path>;
      ok, undo, side, leak := ApplyDisk(disk, home, muts[i], randoms[i], calm);
      if !ok {
        CannotCommit(old(disk.files), home, muts, randoms, i);
        RollBackTo(disk, undos, leak, states, home, muts, randoms);
        return;
      }
      GoesOn(states, undos, drop, home, muts, randoms, disk.files, undo, side);
      undos := undos + [undo];
      if side.Some? {
        drop := drop + [side.value];
      }
      states := states + [disk.files];
    }
    UnderwayFacts(states, undos, drop, home, muts, randoms);
    SidesNonEmpty(states, home, muts, randoms);
    Drop(disk, drop, quiet);
  }

  lemma UnderwayFacts(states: seq<Files>, undos: seq<Undo>, drop: seq<Path>, home: Path, muts: seq<Mutation>,
                      randoms: seq<Bytes>)
    requires Underway(states, undos, drop, home, muts, randoms)
    ensures Run(states, home, muts, randoms) && 1 <= |states| <= |muts| + 1 && WellFormed(states[0])
    ensures |muts| == |randoms| && UndosOf(undos, states, home, muts, randoms)
    ensures drop == Sides(states, home, muts, randoms)
    ensures CanCommit(states[0], home, muts, randoms, |states| - 1)
    ensures states[|states| - 1] == StateAt(states[0], home, muts, randoms, |states| - 1)
  {
    hide WellFormed;
  }

  lemma CannotCommit(fs: Files, home: Path, muts: seq<Mutation>, randoms: seq<Bytes>, k: nat)
    requires k < |muts| == |randoms|
    ensures CanCommit(fs, home, muts, randoms, |muts|) ==>
              Ready(StateAt(fs, home, muts, randoms, k), home, muts[k], randoms[k])
  {
    hide Ready;
  }

  /** The states of a batch that can be committed, from the first to the n-th. */
  function StatesOf(fs: Files, home: Path, muts: seq<Mutation>, randoms: seq<Bytes>, n: nat): (states: seq<Files>)
    requires n <= |muts| == |randoms|
    ensures |states| == n + 1
  {
    if n == 0 then [fs] else StatesOf(fs, home, muts, randoms, n - 1) + [StateAt(fs, home, muts, randoms, n)]
  }

  lemma {:induction false} StatesRun(fs: Files, home: Path, muts: seq<Mutation>, randoms: seq<Bytes>, n: nat)
    requires n <= |muts| == |randoms| && WellFormed(fs) && CanCommit(fs, home, muts, randoms, n)
    ensures var states := StatesOf(fs, home, muts, randoms, n);
            && states[0] == fs && states[n] == StateAt(fs, home, muts, randoms, n)
            && Run(states, home, muts, randoms) && WellFormed(states[n])
  {
    hide WellFormed, Ready, Commit, CommitOk;
    if n > 0 {
      StatesRun(fs, home, muts, randoms, n - 1);
      CommitIff(StateAt(fs, home, muts, randoms, n - 1), home, muts[n - 1], randoms[n - 1]);
      CommitWellFormed(StateAt(fs, home, muts, randoms, n - 1), home, muts[n - 1], randoms[n - 1]);
    }
  }

  lemma UndosRunnable(undos: seq<Undo>, states: seq<Files>, home: Path, muts: seq<Mutation>, randoms: seq<Bytes>)
    requires Run(states, home, muts, randoms) && UndosOf(undos, states, home, muts, randoms)
    ensures forall i :: 0 <= i < |undos| ==> Runnable(undos[i])
  {
    hide ValidPath, CommitOk, Commit;
  }
}
