/**
 Disk and projection move together: what applyHome leaves on disk, against what tree.Apply leaves
 in the snapshot (agent/tree.go beside internal/tree/tree.go, committed in agent/server.go).
 */
module Projection {
  import opened Common
  import opened Paths
  import opened FileSystem
  import opened Disks
  import opened Home
  import Tree

  function EntryOf(n: Tree.Node): Entry {
    if n.kind == Tree.DirectoryKind then Dir else File(n.data)
  }

  /** Every projected path stands on disk as projected. */
  ghost predicate Agree(fs: Files, home: Path, proj: Tree.Snapshot) {
    forall p :: p in proj ==> Target(home, p) in fs && fs[Target(home, p)] == EntryOf(proj[p])
  }

  /** Nothing projected lies strictly below p. */
  predicate Clear(proj: Tree.Snapshot, home: Path, p: Bytes) {
    forall q | q in proj :: !Above(Target(home, p), Target(home, q))
  }

  /** The guard a caller can check on the projection before each mutation. */
  predicate MutClear(proj: Tree.Snapshot, home: Path, mut: Mutation) {
    match mut.op
    case Create | Delete => Clear(proj, home, mut.path)
    case Move => Clear(proj, home, mut.from)
    case Replace | OtherOp => true
  }

  // ------------------------------------------------------------- Frame of a step

  /** Paths a mutation may have to make parents for. */
  function Targets(home: Path, mut: Mutation): set<Path> {
    if mut.op == Tree.Delete then {} else {Target(home, mut.path)}
  }

  function Named(home: Path, mut: Mutation): set<Path> {
    {Target(home, mut.path)} + if mut.op == Tree.Move then {Target(home, mut.from)} else {}
  }

  ghost predicate UnderAny(s: set<Path>, q: Path) {
    exists n :: n in s && Under(n, q)
  }

  ghost predicate AboveAny(s: set<Path>, q: Path) {
    exists n :: n in s && Above(q, n)
  }

  /** The entry at q is untouched, or lies below something named, or is a new parent or a stash. */
  ghost predicate FrameAt(fs: Files, fs': Files, named: set<Path>, targets: set<Path>, stashes: set<Path>, q: Path) {
    && (q in fs && !UnderAny(named, q) ==> q in fs' && fs'[q] == fs[q])
    && (q in fs' && q !in fs ==>
          || UnderAny(named, q)
          || UnderAny(stashes, q)
          || (fs'[q].Dir? && AboveAny(targets, q)))
  }

  ghost predicate Frame(fs: Files, fs': Files, named: set<Path>, targets: set<Path>, stashes: set<Path>) {
    && (forall q :: FrameAt(fs, fs', named, targets, stashes, q))
    && (forall t, q :: t in stashes && q in fs && Under(t, q) ==> UnderAny(named, q))
  }

  function SideSet(fs: Files, home: Path, mut: Mutation, random: Bytes): set<Path> {
    match SideOf(fs, home, mut, random)
    case Some(t) => {t}
    case None => {}
  }

  /** q belongs to what the step moved aside. */
  predicate Aside(fs: Files, full: Path, random: Bytes, q: Path)
    requires full != []
  {
    full in fs && Under(TempPath(full, random), q)
  }

  lemma StashAt(fs: Files, full: Path, random: Bytes, q: Path)
    requires WellFormed(fs) && full != [] && StashOk(fs, full, random)
    requires !Aside(fs, full, random, q)
    ensures q in StashAway(fs, full, random) <==> q in fs && !Under(full, q)
    ensures q in StashAway(fs, full, random) ==> StashAway(fs, full, random)[q] == fs[q]
  {
    if full in fs {
      StashKeeps(fs, full, random);
      RenameAt(fs, full, TempPath(full, random), q);
    } else {
      NothingUnder(fs, full, q);
    }
  }

  lemma SiblingsApart(full: Path, random: Bytes, q: Path)
    requires full != [] && Under(full, q)
    ensures !Under(TempPath(full, random), q)
  {
    var t := TempPath(full, random);
    assert t != full && |t| == |full|;
  }

  /** A put leaves exactly its entry at the target; elsewhere only new parents and the stash show. */
  lemma PutAt(fs: Files, home: Path, mut: Mutation, random: Bytes, q: Path)
    requires WellFormed(fs) && (mut.op == Tree.Create || mut.op == Tree.Replace)
    requires CommitOk(fs, home, mut, random)
    ensures var full, fs' := Target(home, mut.path), Commit(fs, home, mut, random);
            && full in fs' && fs'[full] == (if mut.kind == Tree.DirectoryKind then Dir else File(Payload(mut)))
            && (Above(full, q) ==> q !in fs')
            && (!Aside(fs, full, random, q) && !Under(full, q) ==>
                  && (q in fs ==> q in fs' && fs'[q] == fs[q])
                  && (q in fs' && q !in fs ==> fs'[q].Dir? && Above(q, full)))
  {
    hide ValidPath, StashAway, StashOk, Lstat;
    var full := Target(home, mut.path);
    StashKeeps(fs, full, random);
    if Under(full, q) {
      SiblingsApart(full, random, q);
    }
    if !Aside(fs, full, random, q) {
      StashAt(fs, full, random, q);
    }
  }

  lemma MoveAt(fs: Files, home: Path, mut: Mutation, random: Bytes, q: Path)
    requires WellFormed(fs) && mut.op == Tree.Move && CommitOk(fs, home, mut, random)
    ensures var full, from, fs' := Target(home, mut.path), Target(home, mut.from), Commit(fs, home, mut, random);
            && from in fs && full in fs' && fs'[full] == fs[from]
            && (fs[from].File? && Above(full, q) ==> q !in fs')
            && (Under(from, q) && !Under(full, q) ==> q !in fs')
            && (!Under(full, q) && !Under(from, q) ==>
                  && (q in fs ==> q in fs' && fs'[q] == fs[q])
                  && (q in fs' && q !in fs ==> fs'[q].Dir? && Above(q, full)))
  {
    hide ValidPath, Rename;
    var full, from := Target(home, mut.path), Target(home, mut.from);
    var made := MkdirAll(fs, Parent(full));
    MkdirAllWellFormed(fs, Parent(full));
    if from !in fs {
      assert Under(from, Parent(full));
      NotBelowItself(made, from, full);
    }
    RenameAt(made, from, full, q);
    RenameAt(made, from, full, full);
    assert from + full[|full|..] == from;
    if fs[from].File? && Above(full, q) {
      var o := from + q[|full|..];
      assert Above(from, o);
    }
  }

  lemma StepFrame(fs: Files, home: Path, mut: Mutation, random: Bytes)
    requires WellFormed(fs) && CommitOk(fs, home, mut, random)
    ensures Frame(fs, Commit(fs, home, mut, random), Named(home, mut), Targets(home, mut),
            SideSet(fs, home, mut, random))
  {
    hide ValidPath, CommitOk, Commit, WellFormed, SideOf;
    var full := Target(home, mut.path);
    var named, stashes := Named(home, mut), SideSet(fs, home, mut, random);
    forall q
      ensures FrameAt(fs, Commit(fs, home, mut, random), named, Targets(home, mut), stashes, q)
    {
      StepFrameAt(fs, home, mut, random, q);
    }
    FreshSide(fs, home, mut, random);
    forall t, q | t in stashes && Under(t, q)
      ensures q !in fs
    {
      NothingUnder(fs, t, q);
    }
  }

  lemma FreshSide(fs: Files, home: Path, mut: Mutation, random: Bytes)
    requires CommitOk(fs, home, mut, random)
    ensures forall t :: t in SideSet(fs, home, mut, random) ==> t !in fs
  {
    hide ValidPath;
  }

  lemma StepFrameAt(fs: Files, home: Path, mut: Mutation, random: Bytes, q: Path)
    requires WellFormed(fs) && CommitOk(fs, home, mut, random)
    ensures FrameAt(fs, Commit(fs, home, mut, random), Named(home, mut), Targets(home, mut),
            SideSet(fs, home, mut, random), q)
  {
    hide ValidPath, WellFormed, MkdirAll, Rename, RenameOk, Lstat;
    var full := Target(home, mut.path);
    var named := Named(home, mut);
    assert full in named;
    assert mut.op != Tree.Delete ==> full in Targets(home, mut);
    if mut.op == Tree.Move {
      assert Target(home, mut.from) in named;
      MoveAt(fs, home, mut, random, q);
    } else if Aside(fs, full, random, q) {
      NothingUnder(fs, TempPath(full, random), q);
      assert TempPath(full, random) in SideSet(fs, home, mut, random);
    } else if mut.op == Tree.Delete {
      StashAt(fs, full, random, q);
    } else {
      PutAt(fs, home, mut, random, q);
    }
  }

  // -------------------------------------------------------- Agreement of a step

  lemma AboveTarget(home: Path, p: Bytes, q: Bytes)
    requires p != q && Under(Target(home, p), Target(home, q))
    ensures Above(Target(home, p), Target(home, q))
  {
    TargetInjective(home, p, q);
  }

  /** What one accepted mutation does to one projected path. */
  lemma StepAgreeAt(fs: Files, home: Path, proj: Tree.Progress, mut: Mutation, random: Bytes, p: Bytes)
    requires WellFormed(fs) && Agree(fs, home, proj.snapshot)
    requires CommitOk(fs, home, mut, random) && Tree.ApplyOne(proj, mut).Success?
    requires MutClear(proj.snapshot, home, mut)
    requires p in Tree.ApplyOne(proj, mut).value.snapshot
    ensures Target(home, p) in Commit(fs, home, mut, random)
    ensures Commit(fs, home, mut, random)[Target(home, p)] ==
            EntryOf(Tree.ApplyOne(proj, mut).value.snapshot[p])
  {
    hide ValidPath, Commit, CommitOk, WellFormed, SideOf, Tree.Fenced;
    var full, at := Target(home, mut.path), Target(home, p);
    if p == mut.path {
      if mut.op == Tree.Move {
        MoveAt(fs, home, mut, random, at);
      } else {
        PutAt(fs, home, mut, random, at);
      }
    } else {
      // an older path: not below anything the step touched
      assert p in proj.snapshot;
      assert !Under(full, at) by {
        if Under(full, at) {
          AboveTarget(home, mut.path, p);
          UntouchedBelow(fs, home, proj, mut, random, p);
        }
      }
      if mut.op == Tree.Move {
        assert p != mut.from;
        assert !Under(Target(home, mut.from), at) by {
          if Under(Target(home, mut.from), at) {
            AboveTarget(home, mut.from, p);
          }
        }
        MoveAt(fs, home, mut, random, at);
      } else {
        StepFrameAt(fs, home, mut, random, at);
      }
    }
  }

  /** A guarded mutation has no projected path below its target. */
  lemma UntouchedBelow(fs: Files, home: Path, proj: Tree.Progress, mut: Mutation, random: Bytes, p: Bytes)
    requires WellFormed(fs) && Agree(fs, home, proj.snapshot)
    requires CommitOk(fs, home, mut, random) && Tree.ApplyOne(proj, mut).Success?
    requires MutClear(proj.snapshot, home, mut) && p in proj.snapshot
    ensures !Above(Target(home, mut.path), Target(home, p))
  {
    hide ValidPath, MkdirAll, Rename, Lstat, Tree.Fenced, Tree.Put;
    var full, at := Target(home, mut.path), Target(home, p);
    assert mut.op == Tree.Replace ==> IsFile(fs, full);
    if mut.op == Tree.Move && IsDir(fs, full) {
      MkdirKeeps(fs, Parent(full), full);
    }
  }

  lemma MkdirKeeps(fs: Files, p: Path, q: Path)
    requires q in fs
    ensures q in MkdirAll(fs, p) && MkdirAll(fs, p)[q] == fs[q]
  {
  }

  /** A projected path below the target, or below a moved path, is gone from disk afterwards. */
  lemma StepBreaks(fs: Files, home: Path, proj: Tree.Progress, mut: Mutation, random: Bytes)
    requires WellFormed(fs) && Agree(fs, home, proj.snapshot)
    requires CommitOk(fs, home, mut, random) && Tree.ApplyOne(proj, mut).Success?
    requires !MutClear(proj.snapshot, home, mut)
    ensures !Agree(Commit(fs, home, mut, random), home, Tree.ApplyOne(proj, mut).value.snapshot)
  {
    hide ValidPath, Commit, CommitOk, WellFormed, SideOf, Tree.Fenced;
    var full := Target(home, mut.path);
    if mut.op == Tree.Move {
      var from := Target(home, mut.from);
      var q :| q in proj.snapshot && Above(from, Target(home, q));
      TargetInjective(home, mut.from, q);
      MoveAt(fs, home, mut, random, Target(home, q));
      assert !Under(full, Target(home, q)) by { MoveTargetApart(fs, home, proj, mut, random, q); }
      assert q in Tree.ApplyOne(proj, mut).value.snapshot;
    } else {
      var q :| q in proj.snapshot && Above(full, Target(home, q));
      TargetInjective(home, mut.path, q);
      assert q in Tree.ApplyOne(proj, mut).value.snapshot;
      if mut.op == Tree.Create {
        PutAt(fs, home, mut, random, Target(home, q));
      } else {
        DeleteAt(fs, home, mut, random, Target(home, q));
      }
    }
  }

  lemma DeleteAt(fs: Files, home: Path, mut: Mutation, random: Bytes, q: Path)
    requires WellFormed(fs) && mut.op == Tree.Delete && CommitOk(fs, home, mut, random)
    requires Under(Target(home, mut.path), q)
    ensures q !in Commit(fs, home, mut, random)
  {
    hide ValidPath, Lstat;
    SiblingsApart(Target(home, mut.path), random, q);
    StashAt(fs, Target(home, mut.path), random, q);
  }

  lemma MoveTargetApart(fs: Files, home: Path, proj: Tree.Progress, mut: Mutation, random: Bytes, q: Bytes)
    requires WellFormed(fs) && Agree(fs, home, proj.snapshot) && mut.op == Tree.Move
    requires CommitOk(fs, home, mut, random) && Tree.ApplyOne(proj, mut).Success? && q in proj.snapshot
    ensures !Under(Target(home, mut.path), Target(home, q))
  {
    hide ValidPath, MkdirAll, Rename, Tree.Fenced;
    var full, at := Target(home, mut.path), Target(home, q);
    if Under(full, at) {
      AboveTarget(home, mut.path, q);
      assert at in fs;
      assert IsDir(fs, full);
      MkdirKeeps(fs, Parent(full), full);
    }
  }

  /**
   One mutation accepted by tree.Apply and committed to disk keeps the two in agreement exactly
   when nothing projected lies below the path it creates, deletes or moves away.
   */
  lemma StepAgree(fs: Files, home: Path, proj: Tree.Progress, mut: Mutation, random: Bytes)
    requires WellFormed(fs) && Agree(fs, home, proj.snapshot)
    requires CommitOk(fs, home, mut, random) && Tree.ApplyOne(proj, mut).Success?
    ensures Agree(Commit(fs, home, mut, random), home, Tree.ApplyOne(proj, mut).value.snapshot)
            <==> MutClear(proj.snapshot, home, mut)
  {
    hide ValidPath, Commit, CommitOk, WellFormed, MutClear, Tree.ApplyOne;
    if MutClear(proj.snapshot, home, mut) {
      forall p | p in Tree.ApplyOne(proj, mut).value.snapshot
        ensures Target(home, p) in Commit(fs, home, mut, random)
        ensures Commit(fs, home, mut, random)[Target(home, p)] ==
                EntryOf(Tree.ApplyOne(proj, mut).value.snapshot[p])
      {
        StepAgreeAt(fs, home, proj, mut, random, p);
      }
    } else {
      StepBreaks(fs, home, proj, mut, random);
    }
  }

  // -------------------------------------------------------------- A whole batch

  /** The projection after the first k mutations of a batch that Apply accepts. */
  function ProjAt(proj: Tree.Snapshot, muts: seq<Mutation>, k: nat): Tree.Progress
    requires k <= |muts| && Tree.ApplyFrom(Tree.Progress(proj, 0), muts).Success?
  {
    PrefixAccepted(Tree.Progress(proj, 0), muts, k);
    Tree.ApplyFrom(Tree.Progress(proj, 0), muts[..k]).value
  }

  lemma PrefixAccepted(s: Tree.Progress, muts: seq<Mutation>, k: nat)
    requires k <= |muts| && Tree.ApplyFrom(s, muts).Success?
    ensures Tree.ApplyFrom(s, muts[..k]).Success?
    ensures k < |muts| ==>
              && Tree.ApplyOne(Tree.ApplyFrom(s, muts[..k]).value, muts[k]).Success?
              && Tree.ApplyFrom(s, muts[..k + 1]) == Tree.ApplyOne(Tree.ApplyFrom(s, muts[..k]).value, muts[k])
  {
    hide Tree.ApplyOne;
    assert muts == muts[..k] + muts[k..];
    Tree.ApplyConcat(s, muts[..k], muts[k..]);
    if k < |muts| {
      assert muts == muts[..k + 1] + muts[k + 1..];
      Tree.ApplyConcat(s, muts[..k + 1], muts[k + 1..]);
      assert muts[..k + 1][..k] == muts[..k];
    }
  }

  ghost predicate Joint(states: seq<Files>, home: Path, proj: Tree.Snapshot, muts: seq<Mutation>, randoms: seq<Bytes>) {
    && Run(states, home, muts, randoms) && |states| == |muts| + 1
    && WellFormed(states[0]) && Agree(states[0], home, proj)
    && Tree.ApplyFrom(Tree.Progress(proj, 0), muts).Success?
  }

  ghost predicate AllClear(home: Path, proj: Tree.Snapshot, muts: seq<Mutation>, n: nat)
    requires n <= |muts| && Tree.ApplyFrom(Tree.Progress(proj, 0), muts).Success?
  {
    forall k :: 0 <= k < n ==> MutClear(ProjAt(proj, muts, k).snapshot, home, muts[k])
  }

  ghost predicate AgreeThrough(states: seq<Files>, home: Path, proj: Tree.Snapshot, muts: seq<Mutation>, n: nat)
    requires n <= |muts| && n < |states| && Tree.ApplyFrom(Tree.Progress(proj, 0), muts).Success?
  {
    forall k :: 0 <= k <= n ==> Agree(states[k], home, ProjAt(proj, muts, k).snapshot)
  }

  /** Disk and projection agree after every mutation of the batch exactly when every mutation was clear. */
  lemma {:induction false} BatchAgree(states: seq<Files>, home: Path, proj: Tree.Snapshot, muts: seq<Mutation>,
                                      randoms: seq<Bytes>, n: nat)
    requires Joint(states, home, proj, muts, randoms) && n <= |muts|
    ensures AgreeThrough(states, home, proj, muts, n) <==> AllClear(home, proj, muts, n)
  {
    hide Agree, MutClear, CommitOk, Commit, WellFormed, Tree.ApplyOne;
    assert muts[..0] == [];
    if n > 0 {
      var k := n - 1;
      BatchAgree(states, home, proj, muts, randoms, k);
      RunWellFormed(states, home, muts, randoms, k);
      PrefixAccepted(Tree.Progress(proj, 0), muts, k);
      assert AllClear(home, proj, muts, n) <==>
             AllClear(home, proj, muts, k) && MutClear(ProjAt(proj, muts, k).snapshot, home, muts[k]);
      assert AgreeThrough(states, home, proj, muts, n) <==>
             AgreeThrough(states, home, proj, muts, k) && Agree(states[n], home, ProjAt(proj, muts, n).snapshot);
      if AgreeThrough(states, home, proj, muts, k) {
        assert Agree(states[k], home, ProjAt(proj, muts, k).snapshot);
        StepAgree(states[k], home, ProjAt(proj, muts, k), muts[k], randoms[k]);
      }
    }
  }

  function NamedBy(home: Path, muts: seq<Mutation>): set<Path> {
    if muts == [] then {} else NamedBy(home, muts[..|muts| - 1]) + Named(home, muts[|muts| - 1])
  }

  function TargetsOf(home: Path, muts: seq<Mutation>): set<Path> {
    if muts == [] then {} else TargetsOf(home, muts[..|muts| - 1]) + Targets(home, muts[|muts| - 1])
  }

  lemma FrameCompose(a: Files, b: Files, c: Files, n1: set<Path>, t1: set<Path>, s1: set<Path>,
                     n2: set<Path>, t2: set<Path>, s2: set<Path>)
    requires WellFormed(b)
    requires Frame(a, b, n1, t1, s1) && Frame(b, c, n2, t2, s2)
    requires forall t :: t in s2 ==> t !in b
    ensures Frame(a, c, n1 + n2, t1 + t2, s1 + s2)
  {
    forall q
      ensures FrameAt(a, c, n1 + n2, t1 + t2, s1 + s2, q)
    {
      FrameComposeAt(a, b, c, n1, t1, s1, n2, t2, s2, q);
    }
    forall t, q | t in s1 + s2 && q in a && Under(t, q)
      ensures UnderAny(n1 + n2, q)
    {
      assert FrameAt(a, b, n1, t1, s1, q);
      if t in s2 {
        NothingUnder(b, t, q);
      }
      var n :| n in n1 && Under(n, q);
      assert n in n1 + n2;
    }
  }

  lemma FrameComposeAt(a: Files, b: Files, c: Files, n1: set<Path>, t1: set<Path>, s1: set<Path>,
                       n2: set<Path>, t2: set<Path>, s2: set<Path>, q: Path)
    requires Frame(a, b, n1, t1, s1) && Frame(b, c, n2, t2, s2)
    ensures FrameAt(a, c, n1 + n2, t1 + t2, s1 + s2, q)
  {
    assert FrameAt(a, b, n1, t1, s1, q) && FrameAt(b, c, n2, t2, s2, q);
    if n :| n in n1 && Under(n, q) {
      assert n in n1 + n2;
    } else if n :| n in n2 && Under(n, q) {
      assert n in n1 + n2;
    } else if q in c && q !in a {
      if t :| t in s1 && Under(t, q) {
        assert t in s1 + s2;
      } else if t :| t in s2 && Under(t, q) {
        assert t in s1 + s2;
      } else if q in b {
        var t :| t in t1 && Above(q, t);
        assert t in t1 + t2;
      } else {
        var t :| t in t2 && Above(q, t);
        assert t in t1 + t2;
      }
    }
  }

  function SeqSet(s: seq<Path>): set<Path> {
    set t | t in s
  }

  /** Whatever the batch does not name keeps its entry through the first n mutations. */
  lemma {:induction false} BatchFrame(states: seq<Files>, home: Path, muts: seq<Mutation>, randoms: seq<Bytes>, n: nat)
    requires Run(states, home, muts, randoms) && WellFormed(states[0]) && n < |states|
    ensures Frame(states[0], states[n], NamedBy(home, muts[..n]), TargetsOf(home, muts[..n]),
                  SeqSet(Sides(states[..n + 1], home, muts, randoms)))
  {
    hide CommitOk, Commit, WellFormed, Named, Targets, Frame, SideOf;
    if n == 0 {
      NoFrame(states[0]);
      assert states[..1] == [states[0]];
      assert SeqSet(Sides(states[..1], home, muts, randoms)) == {};
    } else {
      var k := n - 1;
      BatchFrame(states, home, muts, randoms, k);
      RunWellFormed(states, home, muts, randoms, k);
      StepFrame(states[k], home, muts[k], randoms[k]);
      FreshSide(states[k], home, muts[k], randoms[k]);
      FrameCompose(states[0], states[k], states[n],
                   NamedBy(home, muts[..k]), TargetsOf(home, muts[..k]),
                   SeqSet(Sides(states[..k + 1], home, muts, randoms)),
                   Named(home, muts[k]), Targets(home, muts[k]), SideSet(states[k], home, muts[k], randoms[k]));
      assert muts[..n][..k] == muts[..k];
      SideSetExtend(states, home, muts, randoms, k);
    }
  }

  lemma SideSetExtend(states: seq<Files>, home: Path, muts: seq<Mutation>, randoms: seq<Bytes>, k: nat)
    requires k + 1 < |states| <= |muts| + 1 && |randoms| == |muts|
    ensures SeqSet(Sides(states[..k + 2], home, muts, randoms)) ==
            SeqSet(Sides(states[..k + 1], home, muts, randoms)) + SideSet(states[k], home, muts[k], randoms[k])
  {
    hide Sides, SideOf, SeqSet;
    var before := states[..k + 1];
    assert states[..k + 2] == before + [states[k + 1]] && before[k] == states[k];
    SidesExtend(before, states[k + 1], home, muts, randoms);
    match SideOf(states[k], home, muts[k], randoms[k])
    case Some(t) => SeqSetExtend(Sides(before, home, muts, randoms), t);
    case None => assert Sides(before, home, muts, randoms) + [] == Sides(before, home, muts, randoms);
  }

  lemma SeqSetExtend(s: seq<Path>, t: Path)
    ensures SeqSet(s + [t]) == SeqSet(s) + {t}
  {
  }

  lemma NoFrame(fs: Files)
    ensures Frame(fs, fs, {}, {}, {})
  {
  }

  // ---------------------------------------------------------- After the drops

  lemma {:induction false} DropAt(fs: Files, drop: seq<Path>, q: Path)
    ensures q in DropAll(fs, drop) <==> q in fs && forall t :: t in drop ==> !Under(t, q)
    ensures q in DropAll(fs, drop) ==> DropAll(fs, drop)[q] == fs[q]
  {
    if drop != [] {
      var n := |drop| - 1;
      DropAt(fs, drop[..n], q);
      assert drop == drop[..n] + [drop[n]];
      assert forall t :: t in drop <==> t in drop[..n] || t == drop[n];
    }
  }

  /** No temporary name that was drawn is, or lies above, a path the batch names. */
  ghost predicate TempsApart(home: Path, muts: seq<Mutation>, drop: seq<Path>) {
    forall t, i :: t in drop && 0 <= i < |muts| ==>
      && !Under(t, Target(home, muts[i].path))
      && (muts[i].op == Tree.Move ==> !Under(t, Target(home, muts[i].from)))
  }

  lemma NextKeys(s: Tree.Progress, mut: Mutation)
    requires Tree.ApplyOne(s, mut).Success?
    ensures Tree.ApplyOne(s, mut).value.snapshot.Keys <= s.snapshot.Keys + {mut.path}
  {
    hide ValidPath;
  }

  /** No stash ever covers a projected path. */
  lemma {:induction false} StashesApart(states: seq<Files>, home: Path, proj: Tree.Snapshot, muts: seq<Mutation>,
                                        randoms: seq<Bytes>, n: nat, t: Path, p: Bytes)
    requires Joint(states, home, proj, muts, randoms) && n <= |muts|
    requires AgreeThrough(states, home, proj, muts, n)
    requires TempsApart(home, muts, Sides(states, home, muts, randoms))
    requires t in SeqSet(Sides(states[..n + 1], home, muts, randoms)) && p in ProjAt(proj, muts, n).snapshot
    ensures !Under(t, Target(home, p))
  {
    hide CommitOk, Commit, WellFormed, SideOf, Sides, Agree, Tree.ApplyOne;
    if n == 0 {
      NoSides(states, home, muts, randoms);
    } else {
      var k := n - 1;
      RunWellFormed(states, home, muts, randoms, k);
      PrefixAccepted(Tree.Progress(proj, 0), muts, k);
      NextKeys(ProjAt(proj, muts, k), muts[k]);
      SideSetExtend(states, home, muts, randoms, k);
      SidesGrow(states, home, muts, randoms, n);
      assert AgreeThrough(states, home, proj, muts, k);
      if p != muts[k].path {
        OnDisk(states[k], home, ProjAt(proj, muts, k).snapshot, p);
        FreshSide(states[k], home, muts[k], randoms[k]);
        if t in SideSet(states[k], home, muts[k], randoms[k]) {
          NothingUnder(states[k], t, Target(home, p));
        } else {
          StashesApart(states, home, proj, muts, randoms, k, t, p);
        }
      }
    }
  }

  lemma NoSides(states: seq<Files>, home: Path, muts: seq<Mutation>, randoms: seq<Bytes>)
    requires 1 <= |states| <= |muts| + 1 && |randoms| == |muts|
    ensures Sides(states[..1], home, muts, randoms) == []
  {
  }

  lemma OnDisk(fs: Files, home: Path, proj: Tree.Snapshot, p: Bytes)
    requires Agree(fs, home, proj) && p in proj
    ensures Target(home, p) in fs
  {
  }

  lemma {:induction false} SidesGrow(states: seq<Files>, home: Path, muts: seq<Mutation>, randoms: seq<Bytes>, n: nat)
    requires n < |states| <= |muts| + 1 && |randoms| == |muts|
    ensures SeqSet(Sides(states[..n + 1], home, muts, randoms)) <= SeqSet(Sides(states, home, muts, randoms))
    decreases |states| - n
  {
    hide Sides, SeqSet, SideOf;
    if n + 1 == |states| {
      assert states[..n + 1] == states;
    } else {
      SideSetExtend(states, home, muts, randoms, n);
      SidesGrow(states, home, muts, randoms, n + 1);
    }
  }

  lemma FrameAfterDrop(a: Files, b: Files, drop: seq<Path>, named: set<Path>, targets: set<Path>)
    requires Frame(a, b, named, targets, SeqSet(drop))
    ensures Frame(a, DropAll(b, drop), named, targets, {})
  {
    forall q
      ensures FrameAt(a, DropAll(b, drop), named, targets, {}, q)
    {
      assert FrameAt(a, b, named, targets, SeqSet(drop), q);
      DropAt(b, drop, q);
      if t :| t in drop && Under(t, q) {
        assert t in SeqSet(drop);
      } else {
        assert !UnderAny(SeqSet(drop), q);
      }
    }
  }

  /** Removals below the stashes, finished or not, leave the frame as it was. */
  lemma FrameAfterPrune(a: Files, b: Files, final: Files, drop: seq<Path>, named: set<Path>, targets: set<Path>)
    requires Frame(a, b, named, targets, SeqSet(drop)) && Pruned(b, final, drop)
    ensures Frame(a, final, named, targets, SeqSet(drop))
  {
    forall q
      ensures FrameAt(a, final, named, targets, SeqSet(drop), q)
    {
      assert FrameAt(a, b, named, targets, SeqSet(drop), q);
      if q in a && !UnderAny(named, q) {
        forall t | t in drop
          ensures !Under(t, q)
        {
          assert t in SeqSet(drop);
        }
      }
    }
  }

  predicate Uncovered(home: Path, drop: seq<Path>, p: Bytes) {
    forall t | t in drop :: !Under(t, Target(home, p))
  }

  /** No stash is, or lies above, a path projected in the end: what is dropped is nobody's. */
  predicate StashesClear(home: Path, proj: Tree.Snapshot, drop: seq<Path>) {
    forall p | p in proj :: Uncovered(home, drop, p)
  }

  /**
   The whole of applyHome beside the whole of tree.Apply. When both succeed and each mutation was
   clear: the disk shows the new projection exactly when no stash covers a projected path, and what
   the batch does not name, and does not lie below a named path, is untouched up to new parent
   directories and what is left of the stashes. Stashes that could not be dropped do no harm.
   */
  lemma BatchCommits(states: seq<Files>, final: Files, home: Path, proj: Tree.Snapshot, muts: seq<Mutation>,
                     randoms: seq<Bytes>)
    requires Joint(states, home, proj, muts, randoms) && AllClear(home, proj, muts, |muts|)
    requires Pruned(states[|muts|], final, Sides(states, home, muts, randoms))
    ensures var next, drop := ProjAt(proj, muts, |muts|).snapshot, Sides(states, home, muts, randoms);
            && (StashesClear(home, next, drop) ==> Agree(final, home, next))
            && (final == DropAll(states[|muts|], drop) ==>
                  (Agree(final, home, next) <==> StashesClear(home, next, drop)))
            && (TempsApart(home, muts, drop) ==> StashesClear(home, next, drop))
            && Frame(states[0], final, NamedBy(home, muts), TargetsOf(home, muts), SeqSet(drop))
  {
    hide CommitOk, Commit, WellFormed, SideOf, Frame, Agree, TempsApart, StashesClear, Pruned;
    var n := |muts|;
    var next, drop := ProjAt(proj, muts, n).snapshot, Sides(states, home, muts, randoms);
    BatchAgree(states, home, proj, muts, randoms, n);
    assert states[..n + 1] == states && muts[..n] == muts;
    assert Agree(states[n], home, next);
    PruneAgrees(states[n], final, home, next, drop);
    if TempsApart(home, muts, drop) {
      AllStashesClear(states, home, proj, muts, randoms);
    }
    BatchFrame(states, home, muts, randoms, n);
    FrameAfterPrune(states[0], states[n], final, drop, NamedBy(home, muts), TargetsOf(home, muts));
  }

  /** Dropping keeps agreement exactly when nothing projected is dropped. */
  lemma PruneAgrees(fs: Files, final: Files, home: Path, proj: Tree.Snapshot, drop: seq<Path>)
    requires Agree(fs, home, proj) && Pruned(fs, final, drop)
    ensures StashesClear(home, proj, drop) ==> Agree(final, home, proj)
    ensures final == DropAll(fs, drop) ==> (Agree(final, home, proj) <==> StashesClear(home, proj, drop))
  {
    hide ValidPath;
    forall p | p in proj
      ensures Uncovered(home, drop, p) ==> Target(home, p) in final
      ensures final == DropAll(fs, drop) && Target(home, p) in final ==> Uncovered(home, drop, p)
    {
      DropAt(fs, drop, Target(home, p));
    }
  }

  /** Temporary names that are, and lie above, no path of the batch cover nothing projected. */
  lemma AllStashesClear(states: seq<Files>, home: Path, proj: Tree.Snapshot, muts: seq<Mutation>, randoms: seq<Bytes>)
    requires Joint(states, home, proj, muts, randoms) && AgreeThrough(states, home, proj, muts, |muts|)
    requires TempsApart(home, muts, Sides(states, home, muts, randoms))
    ensures StashesClear(home, ProjAt(proj, muts, |muts|).snapshot, Sides(states, home, muts, randoms))
  {
    hide CommitOk, Commit, WellFormed, SideOf, Sides, Agree, TempsApart;
    var n := |muts|;
    assert states[..n + 1] == states;
    forall t, p | t in Sides(states, home, muts, randoms) && p in ProjAt(proj, muts, n).snapshot
      ensures !Under(t, Target(home, p))
    {
      StashesApart(states, home, proj, muts, randoms, n, t, p);
    }
  }

  /** And once they are dropped, no stash and nothing below one remains. */
  lemma BatchCleans(states: seq<Files>, home: Path, muts: seq<Mutation>, randoms: seq<Bytes>)
    requires Run(states, home, muts, randoms) && WellFormed(states[0]) && |states| == |muts| + 1
    ensures var drop := Sides(states, home, muts, randoms);
            var final := DropAll(states[|muts|], drop);
            && Pruned(states[|muts|], final, drop)
            && Frame(states[0], final, NamedBy(home, muts), TargetsOf(home, muts), {})
            && forall t, q :: t in drop && Under(t, q) ==> q !in final
  {
    hide CommitOk, Commit, WellFormed, SideOf, Frame;
    var n := |muts|;
    var drop := Sides(states, home, muts, randoms);
    assert states[..n + 1] == states && muts[..n] == muts;
    BatchFrame(states, home, muts, randoms, n);
    FrameAfterDrop(states[0], states[n], drop, NamedBy(home, muts), TargetsOf(home, muts));
    forall q
      ensures q in DropAll(states[n], drop) <==> q in states[n] && forall t :: t in drop ==> !Under(t, q)
      ensures q in DropAll(states[n], drop) ==> DropAll(states[n], drop)[q] == states[n][q]
    {
      DropAt(states[n], drop, q);
    }
  }

  // ------------------------------------------------------- What Open finds afterwards

  /** Where a move that puts something at q takes it from. */
  function CarriedFrom(home: Path, mut: Mutation, q: Path): Path
    requires Above(Target(home, mut.path), q)
  {
    Target(home, mut.from) + q[|Target(home, mut.path)|..]
  }

  /** The mutation moves a directory that brings a file to the place of p. */
  predicate BringsFile(fs: Files, home: Path, mut: Mutation, p: Bytes) {
    && mut.op == Tree.Move && Above(Target(home, mut.path), Target(home, p))
    && IsFile(fs, CarriedFrom(home, mut, Target(home, p)))
  }

  predicate HoldsFile(proj: Tree.Snapshot, p: Bytes) {
    p in proj && proj[p].kind != Tree.DirectoryKind
  }

  ghost predicate NamedIn(muts: seq<Mutation>, p: Bytes) {
    exists i :: 0 <= i < |muts| && Tree.Names(muts[i], p)
  }

  /** The mutation names p or something above it. */
  ghost predicate Reaches(home: Path, mut: Mutation, p: Bytes) {
    UnderAny(Named(home, mut), Target(home, p))
  }

  /** Below its destination a move puts exactly what lay at the same place below its source. */
  lemma MoveCarries(fs: Files, home: Path, mut: Mutation, random: Bytes, q: Path)
    requires WellFormed(fs) && mut.op == Tree.Move && CommitOk(fs, home, mut, random)
    requires Above(Target(home, mut.path), q)
    ensures IsFile(Commit(fs, home, mut, random), q) <==> IsFile(fs, CarriedFrom(home, mut, q))
  {
    hide ValidPath, Rename;
    var full := Target(home, mut.path);
    MkdirAllWellFormed(fs, Parent(full));
    RenameAt(MkdirAll(fs, Parent(full)), Target(home, mut.from), full, q);
  }

  /** A mutation that reaches p and leaves it unprojected leaves a file there only by bringing one. */
  lemma StepVacates(fs: Files, home: Path, proj: Tree.Progress, mut: Mutation, random: Bytes, p: Bytes)
    requires WellFormed(fs) && Agree(fs, home, proj.snapshot)
    requires CommitOk(fs, home, mut, random) && Tree.ApplyOne(proj, mut).Success?
    requires Reaches(home, mut, p) && p !in Tree.ApplyOne(proj, mut).value.snapshot
    ensures IsFile(Commit(fs, home, mut, random), Target(home, p)) <==> BringsFile(fs, home, mut, p)
  {
    hide ValidPath, Commit, CommitOk, WellFormed, SideOf, Tree.Fenced;
    var full, at := Target(home, mut.path), Target(home, p);
    if mut.op == Tree.Move {
      MoveAt(fs, home, mut, random, at);
      if p == mut.from {
        MoveTargetApart(fs, home, proj, mut, random, p);
      }
      if Under(full, at) {
        AboveTarget(home, mut.path, p);
        MoveCarries(fs, home, mut, random, at);
      }
    } else if mut.op == Tree.Delete {
      DeleteAt(fs, home, mut, random, at);
    } else {
      AboveTarget(home, mut.path, p);
      PutAt(fs, home, mut, random, at);
    }
  }

  lemma StepOpens(fs: Files, home: Path, proj: Tree.Progress, mut: Mutation, random: Bytes, p: Bytes)
    requires WellFormed(fs) && Agree(fs, home, proj.snapshot)
    requires CommitOk(fs, home, mut, random) && Tree.ApplyOne(proj, mut).Success?
    requires Reaches(home, mut, p) && MutClear(proj.snapshot, home, mut)
    ensures IsFile(Commit(fs, home, mut, random), Target(home, p)) <==>
            HoldsFile(Tree.ApplyOne(proj, mut).value.snapshot, p) || BringsFile(fs, home, mut, p)
  {
    hide ValidPath, Commit, CommitOk, WellFormed, MutClear, Tree.ApplyOne, Agree;
    var next := Tree.ApplyOne(proj, mut).value.snapshot;
    if p in next {
      StepAgree(fs, home, proj, mut, random);
      EntryAt(Commit(fs, home, mut, random), home, next, p);
      if mut.op == Tree.Move && Above(Target(home, mut.path), Target(home, p)) {
        MoveCarries(fs, home, mut, random, Target(home, p));
      }
    } else {
      StepVacates(fs, home, proj, mut, random, p);
    }
  }

  lemma EntryAt(fs: Files, home: Path, proj: Tree.Snapshot, p: Bytes)
    requires Agree(fs, home, proj) && p in proj
    ensures IsFile(fs, Target(home, p)) <==> HoldsFile(proj, p)
  {
  }

  /** A mutation that does not reach p changes neither its file nor its node. */
  lemma StepPasses(fs: Files, home: Path, proj: Tree.Progress, mut: Mutation, random: Bytes, p: Bytes)
    requires WellFormed(fs) && CommitOk(fs, home, mut, random) && Tree.ApplyOne(proj, mut).Success?
    requires !Reaches(home, mut, p)
    requires forall t :: t in SideSet(fs, home, mut, random) ==> !Under(t, Target(home, p))
    ensures IsFile(Commit(fs, home, mut, random), Target(home, p)) <==> IsFile(fs, Target(home, p))
    ensures HoldsFile(Tree.ApplyOne(proj, mut).value.snapshot, p) <==> HoldsFile(proj.snapshot, p)
  {
    hide ValidPath, Commit, CommitOk, WellFormed, SideOf, Tree.Fenced;
    assert Target(home, mut.path) in Named(home, mut);
    assert mut.op == Tree.Move ==> Target(home, mut.from) in Named(home, mut);
    StepFrameAt(fs, home, mut, random, Target(home, p));
  }

  lemma SideMisses(states: seq<Files>, home: Path, muts: seq<Mutation>, randoms: seq<Bytes>, k: nat, p: Bytes)
    requires k + 1 < |states| <= |muts| + 1 && |randoms| == |muts|
    requires Uncovered(home, Sides(states, home, muts, randoms), p)
    ensures forall t :: t in SideSet(states[k], home, muts[k], randoms[k]) ==> !Under(t, Target(home, p))
  {
    hide SideOf, Under;
    SideSetExtend(states, home, muts, randoms, k);
    SidesGrow(states, home, muts, randoms, k + 1);
    forall t | t in SideSet(states[k], home, muts[k], randoms[k])
      ensures t in Sides(states, home, muts, randoms)
    {
      assert t in SeqSet(Sides(states, home, muts, randoms));
    }
  }

  /** From the last mutation that reaches p on, nothing about p changes. */
  lemma {:induction false} PassesOn(states: seq<Files>, home: Path, proj: Tree.Snapshot, muts: seq<Mutation>,
                                    randoms: seq<Bytes>, k: nat, n: nat, p: Bytes)
    requires Joint(states, home, proj, muts, randoms) && k < n <= |muts|
    requires Uncovered(home, Sides(states, home, muts, randoms), p)
    requires forall i :: k < i < n ==> !Reaches(home, muts[i], p)
    ensures IsFile(states[n], Target(home, p)) <==> IsFile(states[k + 1], Target(home, p))
    ensures HoldsFile(ProjAt(proj, muts, n).snapshot, p) <==> HoldsFile(ProjAt(proj, muts, k + 1).snapshot, p)
    decreases n
  {
    hide CommitOk, Commit, WellFormed, SideOf, Tree.ApplyOne, Uncovered, Sides, Reaches, HoldsFile;
    if n > k + 1 {
      var i := n - 1;
      PassesOn(states, home, proj, muts, randoms, k, i, p);
      RunWellFormed(states, home, muts, randoms, i);
      PrefixAccepted(Tree.Progress(proj, 0), muts, i);
      SideMisses(states, home, muts, randoms, i, p);
      StepPasses(states[i], home, ProjAt(proj, muts, i), muts[i], randoms[i], p);
    }
  }

  /** Removals below stashes touch exactly what they cover. */
  lemma PrunedKeepsUncovered(fs: Files, final: Files, home: Path, drop: seq<Path>, p: Bytes)
    requires Pruned(fs, final, drop)
    ensures Uncovered(home, drop, p) ==> (IsFile(final, Target(home, p)) <==> IsFile(fs, Target(home, p)))
    ensures final == DropAll(fs, drop) && !Uncovered(home, drop, p) ==> !IsFile(final, Target(home, p))
  {
    DropAt(fs, drop, Target(home, p));
  }

  /**
   What Open finds at a path the batch reached, whether or not the stashes could be dropped: a
   regular file exactly when the new projection holds a file there, or the last mutation that
   reaches the path moved a directory that brought a file to it. Only a path that a dropped stash
   covers holds none.
   */
  lemma BatchOpens(states: seq<Files>, final: Files, home: Path, proj: Tree.Snapshot, muts: seq<Mutation>,
                   randoms: seq<Bytes>, k: nat, p: Bytes)
    requires Joint(states, home, proj, muts, randoms) && AllClear(home, proj, muts, |muts|)
    requires Pruned(states[|muts|], final, Sides(states, home, muts, randoms))
    requires k < |muts| && Reaches(home, muts[k], p) && forall i :: k < i < |muts| ==> !Reaches(home, muts[i], p)
    ensures var drop := Sides(states, home, muts, randoms);
            && (Uncovered(home, drop, p) ==>
                  (IsFile(final, Target(home, p)) <==>
                   HoldsFile(ProjAt(proj, muts, |muts|).snapshot, p) || BringsFile(states[k], home, muts[k], p)))
            && (final == DropAll(states[|muts|], drop) && !Uncovered(home, drop, p) ==> !IsFile(final, Target(home, p)))
  {
    hide CommitOk, Commit, WellFormed, SideOf, Sides, Tree.ApplyOne, Agree, MutClear, Reaches, HoldsFile, BringsFile;
    hide Uncovered, IsFile, Pruned;
    PrunedKeepsUncovered(states[|muts|], final, home, Sides(states, home, muts, randoms), p);
    if Uncovered(home, Sides(states, home, muts, randoms), p) {
      PassesOn(states, home, proj, muts, randoms, k, |muts|, p);
      BatchAgree(states, home, proj, muts, randoms, |muts|);
      RunWellFormed(states, home, muts, randoms, k);
      PrefixAccepted(Tree.Progress(proj, 0), muts, k);
      assert Agree(states[k], home, ProjAt(proj, muts, k).snapshot);
      StepOpens(states[k], home, ProjAt(proj, muts, k), muts[k], randoms[k], p);
    }
  }

  lemma NothingBelowFile(fs: Files, p: Path, q: Path)
    requires WellFormed(fs) && IsFile(fs, p) && Above(p, q)
    ensures q !in fs
  {
  }

  /** Every move of the batch moves a projected file. */
  ghost predicate MovesFiles(proj: Tree.Snapshot, muts: seq<Mutation>)
    requires Tree.ApplyFrom(Tree.Progress(proj, 0), muts).Success?
  {
    forall k :: 0 <= k < |muts| && muts[k].op == Tree.Move ==> HoldsFile(ProjAt(proj, muts, k).snapshot, muts[k].from)
  }

  /** So after a batch that moves files only, Open finds a file exactly where the projection has one. */
  lemma FilesBatchOpens(states: seq<Files>, final: Files, home: Path, proj: Tree.Snapshot, muts: seq<Mutation>,
                        randoms: seq<Bytes>, p: Bytes)
    requires Joint(states, home, proj, muts, randoms) && AllClear(home, proj, muts, |muts|) && MovesFiles(proj, muts)
    requires Uncovered(home, Sides(states, home, muts, randoms), p) && NamedIn(muts, p)
    requires Pruned(states[|muts|], final, Sides(states, home, muts, randoms))
    ensures IsFile(final, Target(home, p)) <==> HoldsFile(ProjAt(proj, muts, |muts|).snapshot, p)
  {
    hide CommitOk, Commit, WellFormed, SideOf, Sides, Tree.ApplyOne, MutClear, Reaches, Uncovered, IsFile, Pruned;
    var k := LastReach(home, muts, |muts|, p);
    BatchOpens(states, final, home, proj, muts, randoms, k, p);
    if BringsFile(states[k], home, muts[k], p) {
      BatchAgree(states, home, proj, muts, randoms, |muts|);
      assert Agree(states[k], home, ProjAt(proj, muts, k).snapshot);
      EntryAt(states[k], home, ProjAt(proj, muts, k).snapshot, muts[k].from);
      RunWellFormed(states, home, muts, randoms, k);
      BroughtFromBelow(states[k], home, muts[k], p);
    }
  }

  lemma BroughtFromBelow(fs: Files, home: Path, mut: Mutation, p: Bytes)
    requires WellFormed(fs) && IsFile(fs, Target(home, mut.from))
    ensures !BringsFile(fs, home, mut, p)
  {
    hide WellFormed;
    if mut.op == Tree.Move && Above(Target(home, mut.path), Target(home, p)) {
      NothingBelowFile(fs, Target(home, mut.from), CarriedFrom(home, mut, Target(home, p)));
    }
  }

  lemma {:induction false} LastReach(home: Path, muts: seq<Mutation>, n: nat, p: Bytes) returns (k: nat)
    requires n <= |muts| && exists i :: 0 <= i < n && Tree.Names(muts[i], p)
    ensures k < n && Reaches(home, muts[k], p) && forall i :: k < i < n ==> !Reaches(home, muts[i], p)
  {
    hide Reaches;
    k := n - 1;
    if !Reaches(home, muts[k], p) {
      NamesReach(home, muts[k], p);
      k := LastReach(home, muts, n - 1, p);
    }
  }

  lemma NamesReach(home: Path, mut: Mutation, p: Bytes)
    ensures Tree.Names(mut, p) ==> Reaches(home, mut, p)
  {
    assert Target(home, mut.path) in Named(home, mut);
    assert mut.op == Tree.Move ==> Target(home, mut.from) in Named(home, mut);
  }

  // --------------------------------------- A rollback guard checked before the call

  /**
   Every put or move has its parent on disk already, at a place the batch does not disturb, and
   every move goes to a name that is free and stays free.
   */
  ghost predicate SafeBatch(fs: Files, home: Path, muts: seq<Mutation>) {
    forall i :: 0 <= i < |muts| && muts[i].op != Tree.Delete ==>
      var full := Target(home, muts[i].path);
      && IsDir(fs, Parent(full))
      && !UnderAny(NamedBy(home, muts), Parent(full))
      && (muts[i].op == Tree.Move ==>
            && full !in fs
            && forall j, m :: 0 <= j < |muts| && j != i && m in Named(home, muts[j]) ==> !Under(m, full))
  }

  lemma {:induction false} NamedByHas(home: Path, muts: seq<Mutation>)
    ensures forall m :: m in NamedBy(home, muts) <==> exists j :: 0 <= j < |muts| && m in Named(home, muts[j])
    ensures forall m :: m in TargetsOf(home, muts) <==> exists j :: 0 <= j < |muts| && m in Targets(home, muts[j])
  {
    hide Named, Targets;
    if muts != [] {
      var n := |muts| - 1;
      NamedByHas(home, muts[..n]);
      forall m
        ensures m in NamedBy(home, muts) <==> exists j :: 0 <= j < |muts| && m in Named(home, muts[j])
        ensures m in TargetsOf(home, muts) <==> exists j :: 0 <= j < |muts| && m in Targets(home, muts[j])
      {
        if m in NamedBy(home, muts[..n]) {
          var j :| 0 <= j < n && m in Named(home, muts[..n][j]);
          assert m in Named(home, muts[j]);
        }
        if j :| 0 <= j < n && m in Named(home, muts[j]) {
          assert m in Named(home, muts[..n][j]);
        }
        if m in TargetsOf(home, muts[..n]) {
          var j :| 0 <= j < n && m in Targets(home, muts[..n][j]);
          assert m in Targets(home, muts[j]);
        }
        if j :| 0 <= j < n && m in Targets(home, muts[j]) {
          assert m in Targets(home, muts[..n][j]);
        }
      }
    }
  }

  /** The guard makes every step of every run safe, so that a failed batch is undone exactly. */
  lemma SafeBatchIsSafe(states: seq<Files>, home: Path, muts: seq<Mutation>, randoms: seq<Bytes>)
    requires Run(states, home, muts, randoms) && WellFormed(states[0])
    requires SafeBatch(states[0], home, muts)
    requires TempsApart(home, muts, Sides(states, home, muts, randoms))
    ensures AllSafe(states, home, muts)
  {
    hide CommitOk, Commit, WellFormed, SideOf, SafeBatch;
    forall k | 0 <= k < |states| && k < |muts|
      ensures StepSafe(states[k], home, muts[k])
    {
      SafeStep(states, home, muts, randoms, k);
    }
  }

  lemma SafeStep(states: seq<Files>, home: Path, muts: seq<Mutation>, randoms: seq<Bytes>, k: nat)
    requires Run(states, home, muts, randoms) && WellFormed(states[0]) && k < |states| && k < |muts|
    requires SafeBatch(states[0], home, muts)
    requires TempsApart(home, muts, Sides(states, home, muts, randoms))
    ensures StepSafe(states[k], home, muts[k])
  {
    hide CommitOk, Commit, SideOf, SafeBatch, Run, TempsApart;
    if muts[k].op != Tree.Delete {
      SafeParent(states, home, muts, randoms, k);
    }
    if muts[k].op == Tree.Move {
      SafeDestination(states, home, muts, randoms, k);
    }
  }

  lemma SafeParent(states: seq<Files>, home: Path, muts: seq<Mutation>, randoms: seq<Bytes>, k: nat)
    requires Run(states, home, muts, randoms) && WellFormed(states[0]) && k < |states| && k < |muts|
    requires SafeBatch(states[0], home, muts) && muts[k].op != Tree.Delete
    ensures IsDir(states[k], Parent(Target(home, muts[k].path)))
  {
    hide CommitOk, Commit, SideOf, Named, Targets;
    var up := Parent(Target(home, muts[k].path));
    BatchFrame(states, home, muts, randoms, k);
    NamedPrefix(home, muts, k);
    assert FrameAt(states[0], states[k], NamedBy(home, muts[..k]), TargetsOf(home, muts[..k]),
                   SeqSet(Sides(states[..k + 1], home, muts, randoms)), up);
  }

  lemma NamedPrefix(home: Path, muts: seq<Mutation>, k: nat)
    requires k <= |muts|
    ensures NamedBy(home, muts[..k]) <= NamedBy(home, muts)
    ensures forall m :: m in NamedBy(home, muts[..k]) ==> exists j :: 0 <= j < k && m in Named(home, muts[j])
    ensures forall m :: m in TargetsOf(home, muts[..k]) ==> exists j :: 0 <= j < k && m in Targets(home, muts[j])
  {
    hide Named, Targets;
    NamedByHas(home, muts);
    NamedByHas(home, muts[..k]);
    assert forall j :: 0 <= j < k ==> muts[..k][j] == muts[j];
  }

  lemma SafeDestination(states: seq<Files>, home: Path, muts: seq<Mutation>, randoms: seq<Bytes>, k: nat)
    requires Run(states, home, muts, randoms) && WellFormed(states[0]) && k < |states| && k < |muts|
    requires SafeBatch(states[0], home, muts) && muts[k].op == Tree.Move
    requires TempsApart(home, muts, Sides(states, home, muts, randoms))
    ensures Target(home, muts[k].path) !in states[k]
  {
    hide CommitOk, Commit, SideOf, Sides, WellFormed, Named, Targets, SafeBatch;
    var full := Target(home, muts[k].path);
    BatchFrame(states, home, muts, randoms, k);
    FreeDestination(states[0], home, muts, k);
    SidesGrow(states, home, muts, randoms, k);
    assert !UnderAny(SeqSet(Sides(states[..k + 1], home, muts, randoms)), full);
    assert FrameAt(states[0], states[k], NamedBy(home, muts[..k]), TargetsOf(home, muts[..k]),
                   SeqSet(Sides(states[..k + 1], home, muts, randoms)), full);
  }

  /** What the guard says of a move's destination before the move's turn has come. */
  lemma FreeDestination(fs: Files, home: Path, muts: seq<Mutation>, k: nat)
    requires WellFormed(fs) && SafeBatch(fs, home, muts) && k < |muts| && muts[k].op == Tree.Move
    ensures Target(home, muts[k].path) !in fs
    ensures !UnderAny(NamedBy(home, muts[..k]), Target(home, muts[k].path))
    ensures !AboveAny(TargetsOf(home, muts[..k]), Target(home, muts[k].path))
  {
    hide WellFormed;
    var full := Target(home, muts[k].path);
    NamedPrefix(home, muts, k);
    forall m | m in TargetsOf(home, muts[..k])
      ensures !Above(full, m)
    {
      var j :| 0 <= j < k && m in Targets(home, muts[j]);
      FreeNameStaysBare(fs, full, m);
    }
  }

  /** Below a name that is free there is no directory to write into. */
  lemma FreeNameStaysBare(fs: Files, full: Path, m: Path)
    requires WellFormed(fs) && full !in fs && m != [] && IsDir(fs, Parent(m))
    ensures !Above(full, m)
  {
    if Above(full, m) {
      ParentOfUnder(full, m);
      AncestorIsDir(fs, full, Parent(m));
    }
  }

  // ---------------------------------------- When an accepted batch can be committed

  /**
   What an accepted mutation still asks of an agreeing disk. A replaced or deleted path is there, and
   so is the source of a move; what a guest or an earlier batch left in the way is not for tree.Apply
   to see.
   */
  predicate Fits(fs: Files, home: Path, proj: Tree.Snapshot, mut: Mutation, random: Bytes) {
    var full := Target(home, mut.path);
    match mut.op
    case Create => if full in fs then TempPath(full, random) !in fs else NoFileAbove(fs, full)
    case Replace | Delete => TempPath(full, random) !in fs
    case Move =>
      && NoFileAbove(fs, full)
      && if HoldsFile(proj, mut.from) then !IsDir(fs, full) else full !in fs && !Under(Target(home, mut.from), full)
    case OtherOp => true
  }

  /** An accepted mutation on an agreeing disk is ready exactly when it fits. */
  lemma AcceptedReady(fs: Files, home: Path, proj: Tree.Progress, mut: Mutation, random: Bytes)
    requires Agree(fs, home, proj.snapshot) && Tree.ApplyOne(proj, mut).Success?
    ensures Ready(fs, home, mut, random) <==> Fits(fs, home, proj.snapshot, mut, random)
  {
    hide ValidPath;
  }

  ghost predicate FitsThrough(fs: Files, home: Path, proj: Tree.Snapshot, muts: seq<Mutation>, randoms: seq<Bytes>,
                              n: nat)
    requires n <= |muts| == |randoms| && Tree.ApplyFrom(Tree.Progress(proj, 0), muts).Success?
  {
    forall k :: 0 <= k < n ==>
      Fits(StateAt(fs, home, muts, randoms, k), home, ProjAt(proj, muts, k).snapshot, muts[k], randoms[k])
  }

  /**
   So a clear batch that tree.Apply accepts is committed by an undisturbed disk that agrees exactly
   when each mutation fits in turn.
   */
  lemma {:induction false} AcceptedCommits(fs: Files, home: Path, proj: Tree.Snapshot, muts: seq<Mutation>,
                                           randoms: seq<Bytes>, n: nat)
    requires WellFormed(fs) && Agree(fs, home, proj) && Tree.ApplyFrom(Tree.Progress(proj, 0), muts).Success?
    requires n <= |muts| == |randoms| && AllClear(home, proj, muts, n)
    ensures CanCommit(fs, home, muts, randoms, n) <==> FitsThrough(fs, home, proj, muts, randoms, n)
    ensures CanCommit(fs, home, muts, randoms, n) ==>
              var now := StateAt(fs, home, muts, randoms, n);
              WellFormed(now) && Agree(now, home, ProjAt(proj, muts, n).snapshot)
  {
    hide Agree, MutClear, Ready, Fits, Commit, WellFormed, Tree.ApplyOne, StateAt, ProjAt;
    if n == 0 {
      NothingDone(fs, home, proj, muts, randoms);
    } else {
      var k := n - 1;
      AcceptedCommits(fs, home, proj, muts, randoms, k);
      if CanCommit(fs, home, muts, randoms, k) {
        AcceptedStep(fs, home, proj, muts, randoms, k);
      }
    }
  }

  lemma NothingDone(fs: Files, home: Path, proj: Tree.Snapshot, muts: seq<Mutation>, randoms: seq<Bytes>)
    requires |muts| == |randoms| && Tree.ApplyFrom(Tree.Progress(proj, 0), muts).Success?
    ensures StateAt(fs, home, muts, randoms, 0) == fs && ProjAt(proj, muts, 0).snapshot == proj
  {
    assert muts[..0] == [];
  }

  lemma AcceptedStep(fs: Files, home: Path, proj: Tree.Snapshot, muts: seq<Mutation>, randoms: seq<Bytes>, k: nat)
    requires Tree.ApplyFrom(Tree.Progress(proj, 0), muts).Success?
    requires k < |muts| == |randoms| && MutClear(ProjAt(proj, muts, k).snapshot, home, muts[k])
    requires WellFormed(StateAt(fs, home, muts, randoms, k))
    requires Agree(StateAt(fs, home, muts, randoms, k), home, ProjAt(proj, muts, k).snapshot)
    ensures var now, next := StateAt(fs, home, muts, randoms, k), StateAt(fs, home, muts, randoms, k + 1);
            && (Ready(now, home, muts[k], randoms[k]) <==>
                Fits(now, home, ProjAt(proj, muts, k).snapshot, muts[k], randoms[k]))
            && (Ready(now, home, muts[k], randoms[k]) ==>
                  WellFormed(next) && Agree(next, home, ProjAt(proj, muts, k + 1).snapshot))
  {
    hide Agree, MutClear, Ready, Fits, Commit, WellFormed, Tree.ApplyOne;
    PrefixAccepted(Tree.Progress(proj, 0), muts, k);
    var now := StateAt(fs, home, muts, randoms, k);
    AcceptedReady(now, home, ProjAt(proj, muts, k), muts[k], randoms[k]);
    if Ready(now, home, muts[k], randoms[k]) {
      CommitIff(now, home, muts[k], randoms[k]);
      StepAgree(now, home, ProjAt(proj, muts, k), muts[k], randoms[k]);
      CommitWellFormed(now, home, muts[k], randoms[k]);
    }
  }

  /** The drawn names are new when they are drawn, and neither are nor lie above a path the batch names. */
  ghost predicate GoodDraws(fs: Files, home: Path, muts: seq<Mutation>, randoms: seq<Bytes>)
    requires |muts| == |randoms|
  {
    forall k :: 0 <= k < |muts| ==>
      var t := TempPath(Target(home, muts[k].path), randoms[k]);
      t !in StateAt(fs, home, muts, randoms, k) && TempsApart(home, muts, [t])
  }

  lemma {:induction false} SidesDrawn(states: seq<Files>, home: Path, muts: seq<Mutation>, randoms: seq<Bytes>)
    requires 1 <= |states| <= |muts| + 1 && |randoms| == |muts|
    ensures forall t :: t in Sides(states, home, muts, randoms) ==>
              exists k :: 0 <= k < |muts| && t == TempPath(Target(home, muts[k].path), randoms[k])
  {
    if |states| > 1 {
      var n := |states| - 2;
      SidesDrawn(states[..n + 1], home, muts, randoms);
      var side := SideOf(states[n], home, muts[n], randoms[n]);
      assert side.Some? ==> side.value == TempPath(Target(home, muts[n].path), randoms[n]);
    }
  }

  lemma GoodDrawsApart(fs: Files, states: seq<Files>, home: Path, muts: seq<Mutation>, randoms: seq<Bytes>)
    requires 1 <= |states| <= |muts| + 1 && |randoms| == |muts| && GoodDraws(fs, home, muts, randoms)
    ensures TempsApart(home, muts, Sides(states, home, muts, randoms))
  {
    hide Sides, StateAt, TempPath, Target;
    SidesDrawn(states, home, muts, randoms);
    forall t | t in Sides(states, home, muts, randoms)
      ensures t in [t] && TempsApart(home, muts, [t])
    {
      var k :| 0 <= k < |muts| && t == TempPath(Target(home, muts[k].path), randoms[k]);
    }
  }

  /** A mutation the rollback guard covers fits. */
  lemma SafeFits(fs: Files, home: Path, proj: Tree.Progress, mut: Mutation, random: Bytes)
    requires WellFormed(fs) && Agree(fs, home, proj.snapshot) && Tree.ApplyOne(proj, mut).Success?
    requires StepSafe(fs, home, mut) && TempPath(Target(home, mut.path), random) !in fs
    requires mut.op == Tree.Move ==> !Under(Target(home, mut.from), Parent(Target(home, mut.path)))
    ensures Fits(fs, home, proj.snapshot, mut, random)
  {
    hide ValidPath, WellFormed;
    var full := Target(home, mut.path);
    if mut.op == Tree.Create || mut.op == Tree.Move {
      MkdirAllNoop(fs, Parent(full));
      ParentsCanBeMade(fs, full);
    }
    if mut.op == Tree.Move && Above(Target(home, mut.from), full) {
      ParentOfUnder(Target(home, mut.from), full);
    }
    TargetInjective(home, mut.from, mut.path);
  }

  /**
   A guard a caller can check beforehand: a clear batch that tree.Apply accepts, whose parents are on
   disk and whose moves go to free names, is committed by an undisturbed disk that agrees.
   */
  lemma {:induction false} SafeBatchCommits(fs: Files, home: Path, proj: Tree.Snapshot, muts: seq<Mutation>,
                                            randoms: seq<Bytes>, n: nat)
    requires WellFormed(fs) && Agree(fs, home, proj) && Tree.ApplyFrom(Tree.Progress(proj, 0), muts).Success?
    requires n <= |muts| == |randoms| && AllClear(home, proj, muts, |muts|)
    requires SafeBatch(fs, home, muts) && GoodDraws(fs, home, muts, randoms)
    ensures CanCommit(fs, home, muts, randoms, n)
  {
    hide Agree, MutClear, Ready, Fits, Commit, CommitOk, WellFormed, Tree.ApplyOne, StateAt, ProjAt, SafeBatch;
    hide StepSafe, Sides, TempsApart, Run, GoodDraws, TempPath;
    if n > 0 {
      var k := n - 1;
      SafeBatchCommits(fs, home, proj, muts, randoms, k);
      AcceptedCommits(fs, home, proj, muts, randoms, k);
      var states := StatesOf(fs, home, muts, randoms, k);
      StatesRun(fs, home, muts, randoms, k);
      GoodDrawsApart(fs, states, home, muts, randoms);
      SafeStep(states, home, muts, randoms, k);
      MovesOut(fs, home, muts, k);
      FreshDraw(fs, home, muts, randoms, k);
      SafeReady(states[k], home, proj, muts, randoms, k);
    }
  }

  lemma FreshDraw(fs: Files, home: Path, muts: seq<Mutation>, randoms: seq<Bytes>, k: nat)
    requires k < |muts| == |randoms| && GoodDraws(fs, home, muts, randoms)
    ensures TempPath(Target(home, muts[k].path), randoms[k]) !in StateAt(fs, home, muts, randoms, k)
  {
    hide StateAt, TempPath, Target, TempsApart;
  }

  lemma SafeReady(now: Files, home: Path, proj: Tree.Snapshot, muts: seq<Mutation>, randoms: seq<Bytes>, k: nat)
    requires k < |muts| == |randoms| && Tree.ApplyFrom(Tree.Progress(proj, 0), muts).Success?
    requires WellFormed(now) && Agree(now, home, ProjAt(proj, muts, k).snapshot) && StepSafe(now, home, muts[k])
    requires TempPath(Target(home, muts[k].path), randoms[k]) !in now
    requires muts[k].op == Tree.Move ==> !Under(Target(home, muts[k].from), Parent(Target(home, muts[k].path)))
    ensures Ready(now, home, muts[k], randoms[k])
  {
    hide Agree, Ready, Fits, WellFormed, Tree.ApplyOne, StepSafe, TempPath;
    PrefixAccepted(Tree.Progress(proj, 0), muts, k);
    SafeFits(now, home, ProjAt(proj, muts, k), muts[k], randoms[k]);
    AcceptedReady(now, home, ProjAt(proj, muts, k), muts[k], randoms[k]);
  }

  lemma MovesOut(fs: Files, home: Path, muts: seq<Mutation>, k: nat)
    requires SafeBatch(fs, home, muts) && k < |muts|
    ensures muts[k].op == Tree.Move ==> !Under(Target(home, muts[k].from), Parent(Target(home, muts[k].path)))
  {
    NamedByHas(home, muts);
    assert muts[k].op == Tree.Move ==> Target(home, muts[k].from) in Named(home, muts[k]);
  }
}
