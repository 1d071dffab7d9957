/**
 The agent's two tree requests (agent/server.go, replace and apply): the snapshot is computed
 first, the disk is committed second, and only then does the server adopt the snapshot.
 */
module AgentServer {
  import opened Common
  import opened Paths
  import opened FileSystem
  import opened Disks
  import opened Home
  import opened Projection
  import opened Rewrite
  import Tree

  lemma ShowsAgrees(fs: Files, home: Path, snap: Tree.Snapshot)
    requires Shows(fs, home, snap)
    ensures Agree(fs, home, snap)
  {
    forall p | p in snap
      ensures Target(home, p) in fs && fs[Target(home, p)] == EntryOf(snap[p])
    {
      assert ShowsAt(fs, home, snap, Split(p));
      assert Under(Split(p), Split(p));
      var p' :| p' in snap && Split(p') == Split(p) && fs[Target(home, p)] == EntryOf(snap[p']);
      SplitInjective(p, p');
    }
  }

  class Server {
    const home: Path
    const disk: Disk
    var projected: Tree.Snapshot
    var frozen: bool

    ghost predicate Valid()
      reads this, disk
    {
      && disk.Valid()
      && Normal(home) && home != []
      && Tree.WellFormed(projected)
    }

    constructor (home: Path, disk: Disk)
      requires disk.Valid() && Normal(home) && home != []
      ensures Valid() && this.home == home && this.disk == disk
      ensures projected == map[] && !frozen
    {
      this.home := home;
      this.disk := disk;
      projected := map[];
      frozen := false;
    }

    /**
     apply. An error leaves the projection alone; a refused batch leaves the disk alone as well, and
     so does a batch that failed on disk after safe steps, up to one empty directory that a failing
     stash may leave. On success the server holds what tree.Apply computed, and a disk that agreed
     before agrees again exactly when no stash covers a projected path; stashes that could not be
     dropped do no harm.
     */
    method Apply(muts: seq<Mutation>, randoms: seq<Bytes>, calm: bool, quiet: bool)
      returns (err: Option<Error>, leak: bool, ghost states: seq<Files>)
      requires Valid() && |randoms| == |muts|
      modifies this`projected, disk
      ensures Valid() && Run(states, home, muts, randoms) && states[0] == old(disk.files)
      ensures err.Some? ==> projected == old(projected)
      ensures frozen ==> err == Some(Frozen) && disk.files == old(disk.files)
      ensures !frozen && Tree.Apply(old(projected), muts).Failure? ==>
                err == Some(Tree.Apply(old(projected), muts).error) && disk.files == old(disk.files)
      ensures err.Some? && !leak && AllSafe(states, home, muts) ==> disk.files == old(disk.files)
      ensures leak ==> err == Some(IO) && |states| <= |muts|
      ensures leak && AllSafe(states, home, muts) ==>
                var name := LastTempName(states, home, muts, randoms);
                NameApart(home, muts, name) ==> OneMore(old(disk.files), disk.files, name)
      ensures err.None? ==>
                && !frozen
                && Tree.Apply(old(projected), muts) == Success(projected)
                && |states| == |muts| + 1
      ensures calm ==>
                (err.None? <==>
                 && !frozen && Tree.Apply(old(projected), muts).Success?
                 && CanCommit(old(disk.files), home, muts, randoms, |muts|))
      ensures err.None? && Agree(old(disk.files), home, old(projected))
              && AllClear(home, old(projected), muts, |muts|) ==>
                var drop := Sides(states, home, muts, randoms);
                && (StashesClear(home, projected, drop) ==> Agree(disk.files, home, projected))
                && (quiet ==> (Agree(disk.files, home, projected) <==> StashesClear(home, projected, drop)))
                && (TempsApart(home, muts, drop) ==> StashesClear(home, projected, drop))
                && Frame(old(disk.files), disk.files, NamedBy(home, muts), TargetsOf(home, muts), SeqSet(drop))
      ensures err.None? && quiet ==>
                && Frame(old(disk.files), disk.files, NamedBy(home, muts), TargetsOf(home, muts), {})
                && forall t, q :: t in Sides(states, home, muts, randoms) && Under(t, q) ==> q !in disk.files
    {
      hide ValidPath, WellFormed, Agree, Frame, Pruned, NameApart, OneMore, TempsApart, StashesClear, AllSafe, CommitOk;
      hide CanCommit;
      hide Commit, Tree.WellFormed, Tree.ApplyOne;
      states, leak := [disk.files], false;
      if frozen {
        return Some(Frozen), leak, states;
      }
      var next := Tree.ApplyLoop(projected, muts);
      if next.Failure? {
        return Some(next.error), leak, states;
      }
      Tree.ApplyKeeps(Tree.Progress(projected, 0), muts);
      assert muts[..|muts|] == muts;
      ghost var before := disk.files;
      var ok: bool;
      ok, leak, states := ApplyHome(disk, home, muts, randoms, calm, quiet);
      if !ok {
        return Some(IO), leak, states;
      }
      if Agree(before, home, projected) && AllClear(home, projected, muts, |muts|) {
        BatchCommits(states, disk.files, home, projected, muts, randoms);
      }
      BatchCleans(states, home, muts, randoms);
      projected := next.value;
      return None, leak, states;
    }

    /**
     replace. On success Home is exactly the new projection with its ancestor directories, whatever
     stood there before; a failure before Home is cleared changes nothing; either up to what is left
     of the staging directory. A later failure still touches nothing outside the two.
     */
    method Replace(items: seq<Tree.Item>, random: Bytes, calm: bool, quiet: bool)
      returns (err: Option<Error>, touched: bool)
      requires Valid()
      modifies this`projected, disk
      ensures Valid()
      ensures err.Some? ==> projected == old(projected)
      ensures frozen ==> err == Some(Frozen) && disk.files == old(disk.files)
      ensures !frozen && Tree.ReplaceTree(old(projected), items).Failure? ==>
                err == Some(Tree.ReplaceTree(old(projected), items).error) && disk.files == old(disk.files)
      ensures err.Some? && !touched && IsDir(old(disk.files), home) ==>
                && SameOutside(old(disk.files), disk.files, TempPath(home, NEXT + random))
                && (quiet ==> disk.files == old(disk.files))
      ensures !frozen && Tree.ReplaceTree(old(projected), items).Success? && !touched ==>
                MadeTowards(old(disk.files), disk.files, home, TempPath(home, NEXT + random))
      ensures calm ==>
                (err.None? <==>
                 && !frozen && Tree.ReplaceTree(old(projected), items).Success?
                 && MkdirAllOk(old(disk.files), home) && TempPath(home, NEXT + random) !in old(disk.files)
                 && FilesAreLeaves(Tree.ReplaceTree(old(projected), items).value))
      ensures touched ==> SameApart(MkdirAll(old(disk.files), home), disk.files, home, TempPath(home, NEXT + random))
      ensures err.None? ==> touched && Tree.ReplaceTree(old(projected), items) == Success(projected)
      ensures err.None? ==>
                && Shows(disk.files, home, projected)
                && Agree(disk.files, home, projected)
                && (quiet ==> SameOutside(MkdirAll(old(disk.files), home), disk.files, home))
    {
      hide ValidPath, WellFormed, Agree, Shows, FilesAreLeaves;
      touched := false;
      if frozen {
        return Some(Frozen), touched;
      }
      var next := Tree.ReplaceLoop(projected, items);
      if next.Failure? {
        return Some(next.error), touched;
      }
      Tree.ReplaceBuildsWellFormed(projected, items);
      var ok: bool;
      ok, touched := RewriteHome(disk, home, next.value, random, calm, quiet);
      if !ok {
        return Some(IO), touched;
      }
      ShowsAgrees(disk.files, home, next.value);
      projected := next.value;
      return None, touched;
    }
  }
}
