/**
 Concrete disks on which an unguarded mutation goes wrong: what the guards StepSafe and MutClear
 shut out (agent/tree.go beside internal/tree/tree.go).
 */
module Failures {
  import opened Common
  import opened Paths
  import opened FileSystem
  import opened Disks
  import opened Home
  import opened Projection
  import Undoing
  import Tree

  /** "a", "b", "a/b" and "a/b/a" */
  const A: Bytes := [97]
  const B: Bytes := [98]
  const A_B: Bytes := [97, 47, 98]
  const A_B_A: Bytes := [97, 47, 98, 47, 97]
  const DATA: Bytes := [120]
  const OLD: Bytes := [121]

  /** "/h" */
  const HOME: Path := [[104]]

  const EMPTY_HOME: Files := map[[] := Dir, HOME := Dir]

  lemma ThePaths()
    ensures ValidPath(A) && ValidPath(B) && ValidPath(A_B)
    ensures Split(A) == [A] && Split(B) == [B] && Split(A_B) == [A, B]
  {
    hide Split, ValidUtf8;
    SplitOfOne(A);
    SplitOfOne(B);
    SplitAtSlash(A, B);
    assert A_B == A + [SLASH] + B && A[1..] == [] && B[1..] == [];
    AsciiIsUtf8(A);
    AsciiIsUtf8(B);
    AsciiIsUtf8(A_B);
  }

  /** ".a-7", a name that MkdirTemp may draw beside "a" */
  const TEMP: Bytes := [46, 97, 45, 55]
  const SEVEN: Bytes := [55]
  const H_TEMP: Path := [[104], TEMP]
  const WITH_FILE: Files := EMPTY_HOME[H_A := File(OLD)]
  const PROJECTED: Tree.Snapshot := map[A := Tree.Node(Tree.FileKind, [], OLD)]
  const REPLACE_A: Tree.Mutation := Tree.Mutation(Tree.Replace, A, [], Tree.FileKind, [], [], Some(DATA))
  const CREATE_TEMP: Tree.Mutation := Tree.Mutation(Tree.Create, TEMP, [], Tree.FileKind, [], [], Some(DATA))
  const BATCH: seq<Tree.Mutation> := [REPLACE_A, CREATE_TEMP]

  lemma TempIsPath()
    ensures Split(TEMP) == [TEMP] && ValidPath(TEMP)
  {
    hide Split, ValidUtf8;
    assert TEMP[1..] == [97, 45, 55] && [97, 45, 55][1..] == [45, 55] && [45, 55][1..] == SEVEN;
    SplitOfOne(TEMP);
    AsciiIsUtf8(TEMP);
  }

  lemma TempTarget()
    ensures ValidPath(A) && Target(HOME, A) == H_A && ValidPath(TEMP) && Target(HOME, TEMP) == H_TEMP
    ensures TempPath(H_A, SEVEN) == H_TEMP && Parent(H_A) == HOME && Parent(H_TEMP) == HOME
  {
    hide Split, ValidPath;
    ThePaths();
    TempIsPath();
    assert TempName(A, SEVEN) == TEMP;
  }

  lemma FileAside(fs: Files, full: Path, side: Path)
    requires WellFormed(fs) && full != [] && IsFile(fs, full)
    requires side != [] && Parent(side) == Parent(full) && side !in fs
    ensures RenameOk(fs, full, side) && WellFormed(Rename(fs, full, side))
    ensures Rename(fs, full, side).Keys == fs.Keys - {full} + {side} && Rename(fs, full, side)[side] == fs[full]
    ensures IsDir(Rename(fs, full, side), Parent(full))
  {
    hide Rename;
    assert Above(Parent(full), full) && side[|side|..] == [] && full + [] == full;
    RenameWellFormed(fs, full, side);
    forall q
      ensures q in Rename(fs, full, side) <==> q == side || (q in fs && q != full)
    {
      RenameAt(fs, full, side, q);
      NothingUnder(fs, side, q);
      if Above(side, q) {
        assert Above(full, full + q[|side|..]);
      }
    }
    RenameAt(fs, full, side, side);
    RenameAt(fs, full, side, Parent(full));
  }

  /** Putting a file where one stands in Home: the old one is beside it under the drawn name. */
  lemma PutOver(fs: Files, mut: Tree.Mutation, random: Bytes, full: Path)
    requires WellFormed(fs) && ValidPath(mut.path) && full == Target(HOME, mut.path) && Parent(full) == HOME
    requires mut.op == Tree.Create || mut.op == Tree.Replace
    requires mut.kind == Tree.FileKind && IsFile(fs, full) && TempPath(full, random) !in fs
    ensures var after := Commit(fs, HOME, mut, random);
            && CommitOk(fs, HOME, mut, random)
            && after.Keys == fs.Keys + {TempPath(full, random)} && after[TempPath(full, random)] == fs[full]
    ensures SideOf(fs, HOME, mut, random) == Some(TempPath(full, random))
  {
    hide ValidPath, WellFormed, MkdirAll, MkdirAllOk, Rename, RenameOk, TempPath;
    var side := TempPath(full, random);
    FileAside(fs, full, side);
    MkdirAllNoop(Rename(fs, full, side), HOME);
  }

  lemma FirstPut()
    ensures var s1 := Commit(WITH_FILE, HOME, REPLACE_A, SEVEN);
            && WellFormed(WITH_FILE) && CommitOk(WITH_FILE, HOME, REPLACE_A, SEVEN)
            && s1.Keys == {[], HOME, H_A, H_TEMP} && IsFile(s1, H_TEMP)
    ensures SideOf(WITH_FILE, HOME, REPLACE_A, SEVEN) == Some(H_TEMP)
  {
    hide ValidPath, Commit, CommitOk, SideOf, TempPath;
    TempTarget();
    assert WellFormed(EMPTY_HOME);
    WriteWellFormed(EMPTY_HOME, H_A, OLD);
    assert H_A[1] == A && H_TEMP[1] == TEMP && |TEMP| == 4;
    PutOver(WITH_FILE, REPLACE_A, SEVEN, H_A);
  }

  lemma SecondPut(random: Bytes)
    ensures CommitOk(Commit(WITH_FILE, HOME, REPLACE_A, SEVEN), HOME, CREATE_TEMP, random)
  {
    hide ValidPath, Commit, CommitOk, SideOf;
    TempTarget();
    FirstPut();
    CommitWellFormed(WITH_FILE, HOME, REPLACE_A, SEVEN);
    var side := TempPath(H_TEMP, random);
    assert side[1] == TempName(TEMP, random) && |TempName(TEMP, random)| > 4;
    PutOver(Commit(WITH_FILE, HOME, REPLACE_A, SEVEN), CREATE_TEMP, random, H_TEMP);
  }

  lemma BothAccepted()
    ensures Tree.ApplyFrom(Tree.Progress(PROJECTED, 0), BATCH).Success?
    ensures TEMP in ProjAt(PROJECTED, BATCH, 2).snapshot && AllClear(HOME, PROJECTED, BATCH, 2)
  {
    hide ValidPath;
    TempTarget();
    var start := Tree.Progress(PROJECTED, 0);
    assert BATCH[..2] == BATCH && BATCH[..1] == [REPLACE_A] && BATCH[..0] == [];
    assert Tree.ApplyFrom(start, BATCH[..1]) == Tree.ApplyOne(start, REPLACE_A);
    assert A != TEMP;
    assert ProjAt(PROJECTED, BATCH, 1).snapshot.Keys == {A};
    assert !Above(H_TEMP, H_A);
  }

  /**
   What StashesClear shuts out: replacing "a" draws the name ".a-7" for the old file, and creating
   ".a-7" puts a file under that very name, which the final drops remove although it is projected.
   */
  lemma StashTakesFile(random: Bytes)
    ensures var s1 := Commit(WITH_FILE, HOME, REPLACE_A, SEVEN);
            var states, randoms := [WITH_FILE, s1, Commit(s1, HOME, CREATE_TEMP, random)], [SEVEN, random];
            && Joint(states, HOME, PROJECTED, BATCH, randoms) && AllClear(HOME, PROJECTED, BATCH, 2)
            && !Agree(DropAll(states[2], Sides(states, HOME, BATCH, randoms)), HOME,
                      ProjAt(PROJECTED, BATCH, 2).snapshot)
  {
    hide ValidPath, Commit, CommitOk, SideOf, WellFormed, TempPath, AllClear, ProjAt, Sides, Tree.ApplyFrom;
    TempTarget();
    FirstPut();
    SecondPut(random);
    BothAccepted();
    var s1 := Commit(WITH_FILE, HOME, REPLACE_A, SEVEN);
    var states, randoms := [WITH_FILE, s1, Commit(s1, HOME, CREATE_TEMP, random)], [SEVEN, random];
    assert Agree(WITH_FILE, HOME, PROJECTED);
    FirstDropped(states, randoms);
    var drop := Sides(states, HOME, BATCH, randoms);
    assert !Uncovered(HOME, drop, TEMP);
    BatchCleans(states, HOME, BATCH, randoms);
    BatchCommits(states, DropAll(states[2], drop), HOME, PROJECTED, BATCH, randoms);
  }

  lemma FirstDropped(states: seq<Files>, randoms: seq<Bytes>)
    requires |states| == 3 && |randoms| == 2 && states[0] == WITH_FILE && randoms[0] == SEVEN
    ensures H_TEMP in Sides(states, HOME, BATCH, randoms)
  {
    hide SideOf, ValidPath, Commit, CommitOk, WellFormed;
    FirstPut();
    var one := [states[0]];
    assert states == one + [states[1]] + [states[2]] && (one + [states[1]])[1] == states[1];
    SidesExtend(one, states[1], HOME, BATCH, randoms);
    hide Sides;
    assert H_TEMP in Sides(one + [states[1]], HOME, BATCH, randoms);
    SidesExtend(one + [states[1]], states[2], HOME, BATCH, randoms);
  }

  /** Creating "a/b" in an empty Home makes "a", and the undo leaves it behind. */
  lemma ParentLeftBehind(random: Bytes)
    ensures var mut := Tree.Mutation(Tree.Create, A_B, [], Tree.FileKind, [], [], Some(DATA));
            && WellFormed(EMPTY_HOME) && CommitOk(EMPTY_HOME, HOME, mut, random)
            && RunUndo(Commit(EMPTY_HOME, HOME, mut, random), UndoOf(EMPTY_HOME, HOME, mut, random)) != EMPTY_HOME
  {
    hide ValidPath, Split, Commit, UndoOf, RunUndo, TempPath;
    ThePaths();
    var mut := Tree.Mutation(Tree.Create, A_B, [], Tree.FileKind, [], [], Some(DATA));
    var full := Target(HOME, A_B);
    assert full == [[104], A, B] && Parent(full) == [[104], A];
    assert full !in EMPTY_HOME && Parent(full) !in EMPTY_HOME;
    var made := MkdirAll(EMPTY_HOME, Parent(full));
    assert Under(Parent(full), Parent(full));
    assert CommitOk(EMPTY_HOME, HOME, mut, random);
    PutLeavesParent(EMPTY_HOME, HOME, mut, random);
  }

  lemma DeepPath()
    ensures ValidPath(A_B_A) && Split(A_B_A) == [A, B, A]
  {
    hide Split, ValidUtf8;
    var b_a := [98, 47, 97];
    SplitOfOne(A);
    SplitAtSlash(B, A);
    SplitAtSlash(A, b_a);
    assert b_a == B + [SLASH] + A && A_B_A == A + [SLASH] + b_a;
    assert A[1..] == [] && B[1..] == [];
    AsciiIsUtf8(A_B_A);
  }

  const MKDIR_A: Tree.Mutation := Tree.Mutation(Tree.Create, A, [], Tree.DirectoryKind, [], [], None)
  const CREATE_DEEP: Tree.Mutation := Tree.Mutation(Tree.Create, A_B_A, [], Tree.FileKind, [], [], Some(DATA))
  const H_A: Path := [[104], A]
  const H_A_B: Path := [[104], A, B]
  const H_A_B_A: Path := [[104], A, B, A]
  const WITH_A: Files := EMPTY_HOME[H_A := Dir]

  lemma NestedTargets()
    ensures ValidPath(A) && ValidPath(A_B_A) && Target(HOME, A) == H_A && Target(HOME, A_B_A) == H_A_B_A
    ensures Parent(H_A) == HOME && Parent(H_A_B_A) == H_A_B
  {
    hide ValidPath, Split;
    ThePaths();
    DeepPath();
  }

  lemma NestedFirst(random: Bytes)
    ensures CommitOk(EMPTY_HOME, HOME, MKDIR_A, random) && Commit(EMPTY_HOME, HOME, MKDIR_A, random) == WITH_A
    ensures UndoOf(EMPTY_HOME, HOME, MKDIR_A, random) == Discard(H_A)
  {
    hide ValidPath, Split, MkdirAll;
    NestedTargets();
    assert H_A !in EMPTY_HOME;
    MkdirLeafOnly(EMPTY_HOME, H_A);
  }

  lemma NestedSecond(random: Bytes)
    ensures CommitOk(WITH_A, HOME, CREATE_DEEP, random) && !StepSafe(WITH_A, HOME, CREATE_DEEP)
    ensures Commit(WITH_A, HOME, CREATE_DEEP, random) == MkdirAll(WITH_A, H_A_B)[H_A_B_A := File(DATA)]
    ensures UndoOf(WITH_A, HOME, CREATE_DEEP, random) == Discard(H_A_B_A)
  {
    hide ValidPath, Split;
    NestedTargets();
    assert H_A_B_A !in WITH_A && H_A_B !in WITH_A;
    assert H_A_B in Ancestors(H_A_B);
  }

  lemma NestedUndone()
    ensures RemoveAll(RemoveAll(MkdirAll(WITH_A, H_A_B)[H_A_B_A := File(DATA)], H_A_B_A), H_A) == EMPTY_HOME
  {
    var full := MkdirAll(WITH_A, H_A_B)[H_A_B_A := File(DATA)];
    var final := RemoveAll(RemoveAll(full, H_A_B_A), H_A);
    forall q
      ensures q in final <==> q in EMPTY_HOME
      ensures q in final ==> final[q] == EMPTY_HOME[q]
    {
      if Under(q, H_A_B) && !Under(H_A, q) {
        assert q == H_A_B[..|q|];
        assert |q| < 2;
        assert |q| == 1 ==> q == HOME;
      }
      if q in EMPTY_HOME {
        assert |q| < 2;
      }
    }
  }

  /**
   Why a batch must not name nested paths for the exact condition: "mkdir a, create a/b/a" has an
   unsafe second step, and undoing the first one takes away what the second undo left behind.
   */
  lemma NestedRestored(random: Bytes)
    ensures var s1 := Commit(EMPTY_HOME, HOME, MKDIR_A, random);
            var s2 := Commit(s1, HOME, CREATE_DEEP, random);
            && CommitOk(EMPTY_HOME, HOME, MKDIR_A, random) && CommitOk(s1, HOME, CREATE_DEEP, random)
            && !StepSafe(s1, HOME, CREATE_DEEP)
            && EMPTY_HOME ==
               RunUndos(s2, [UndoOf(EMPTY_HOME, HOME, MKDIR_A, random), UndoOf(s1, HOME, CREATE_DEEP, random)])
  {
    hide ValidPath, Split, Commit, CommitOk, UndoOf, StepSafe, RemoveAll, MkdirAll;
    NestedFirst(random);
    NestedSecond(random);
    var s2 := Commit(WITH_A, HOME, CREATE_DEEP, random);
    assert [Discard(H_A), Discard(H_A_B_A)] == [Discard(H_A)] + [Discard(H_A_B_A)];
    Undoing.UndosSplit(s2, [Discard(H_A)], [Discard(H_A_B_A)]);
    Undoing.OneUndo(s2, Discard(H_A_B_A));
    Undoing.OneUndo(RemoveAll(s2, H_A_B_A), Discard(H_A));
    NestedUndone();
  }

  const CREATE_BELOW: Tree.Mutation := Tree.Mutation(Tree.Create, A_B, [], Tree.FileKind, [], [], Some(DATA))

  /**
   A guest's file "a", unknown to the projection: tree.Apply accepts creating "a/b", nothing is wrong
   with the disk, and yet it cannot be committed.
   */
  lemma GuestInTheWay(random: Bytes)
    ensures WellFormed(WITH_FILE) && Agree(WITH_FILE, HOME, map[])
    ensures Tree.ApplyFrom(Tree.Progress(map[], 0), [CREATE_BELOW]).Success? && AllClear(HOME, map[], [CREATE_BELOW], 1)
    ensures !CanCommit(WITH_FILE, HOME, [CREATE_BELOW], [random], 1)
  {
    hide ValidPath;
    ThePaths();
    var batch := [CREATE_BELOW];
    assert WellFormed(EMPTY_HOME);
    assert H_A == HOME + [A] && Parent(H_A) == HOME && Target(HOME, A_B) == [[104], A, B];
    WriteWellFormed(EMPTY_HOME, H_A, OLD);
    assert batch[..0] == [] && batch[0] == CREATE_BELOW;
    assert H_A == Target(HOME, A_B)[..2] && H_A in Ancestors(Target(HOME, A_B));
    assert !Ready(StateAt(WITH_FILE, HOME, batch, [random], 0), HOME, batch[0], [random][0]);
  }

  /** A guest's "b", unknown to the projection, is overwritten by moving "a" to "b", and undo cannot bring it back. */
  lemma GuestFileLost(random: Bytes)
    ensures var fs := EMPTY_HOME[HOME + [A] := File(DATA)][HOME + [B] := File(OLD)];
            var mut := Tree.Mutation(Tree.Move, B, A, Tree.FileKind, [], [], None);
            && WellFormed(fs) && CommitOk(fs, HOME, mut, random)
            && RunUndo(Commit(fs, HOME, mut, random), UndoOf(fs, HOME, mut, random)) != fs
  {
    hide ValidPath, Split, Commit, UndoOf, RunUndo;
    ThePaths();
    var fs := EMPTY_HOME[HOME + [A] := File(DATA)][HOME + [B] := File(OLD)];
    var mut := Tree.Mutation(Tree.Move, B, A, Tree.FileKind, [], [], None);
    var full, from := Target(HOME, B), Target(HOME, A);
    assert full == [[104], B] && from == [[104], A] && Parent(full) == HOME;
    TwoFiles(fs);
    MkdirAllNoop(fs, HOME);
    assert CommitOk(fs, HOME, mut, random);
    MoveLoses(fs, HOME, mut, random);
  }

  lemma TwoFiles(fs: Files)
    requires fs == EMPTY_HOME[HOME + [A] := File(DATA)][HOME + [B] := File(OLD)]
    ensures WellFormed(fs)
  {
    assert HOME + [A] == [[104], A] && HOME + [B] == [[104], B];
    assert Parent(HOME + [A]) == HOME && Parent(HOME + [B]) == HOME;
    assert WellFormed(EMPTY_HOME);
    WriteWellFormed(EMPTY_HOME, HOME + [A], DATA);
    WriteWellFormed(EMPTY_HOME[HOME + [A] := File(DATA)], HOME + [B], OLD);
  }

  /** Deleting the projected directory "a" takes "a/b" off the disk but leaves it projected. */
  lemma DirectoryCarriesItsTree(random: Bytes)
    ensures var fs := EMPTY_HOME[HOME + [A] := Dir][HOME + [A, B] := File(DATA)];
            var proj: Tree.Snapshot := map[A := Tree.DIRECTORY, A_B := Tree.Node(Tree.FileKind, [], DATA)];
            var mut := Tree.Mutation(Tree.Delete, A, [], Tree.DirectoryKind, [], [], None);
            && WellFormed(fs) && Agree(fs, HOME, proj) && CommitOk(fs, HOME, mut, random)
            && Tree.ApplyOne(Tree.Progress(proj, 0), mut).Success?
            && !Agree(Commit(fs, HOME, mut, random), HOME, Tree.ApplyOne(Tree.Progress(proj, 0), mut).value.snapshot)
  {
    hide ValidPath, Split, Commit;
    ThePaths();
    var fs := EMPTY_HOME[HOME + [A] := Dir][HOME + [A, B] := File(DATA)];
    var proj: Tree.Snapshot := map[A := Tree.DIRECTORY, A_B := Tree.Node(Tree.FileKind, [], DATA)];
    var mut := Tree.Mutation(Tree.Delete, A, [], Tree.DirectoryKind, [], [], None);
    DirWithFile(fs);
    assert Target(HOME, A) == HOME + [A] && Target(HOME, A_B) == HOME + [A, B];
    assert Agree(fs, HOME, proj);
    assert CommitOk(fs, HOME, mut, random);
    assert Above(Target(HOME, A), Target(HOME, A_B));
    assert !MutClear(proj, HOME, mut);
    StepBreaks(fs, HOME, Tree.Progress(proj, 0), mut, random);
  }

  lemma DirWithFile(fs: Files)
    requires fs == EMPTY_HOME[HOME + [A] := Dir][HOME + [A, B] := File(DATA)]
    ensures WellFormed(fs)
  {
    assert Parent(HOME + [A]) == HOME && Parent(HOME + [A, B]) == HOME + [A];
    assert WellFormed(EMPTY_HOME);
    NewDirWellFormed(EMPTY_HOME, HOME + [A]);
    WriteWellFormed(EMPTY_HOME[HOME + [A] := Dir], HOME + [A, B], DATA);
  }
}
