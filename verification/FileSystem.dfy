/**
 A directory tree as a map from absolute segment lists to entries, with the effect of each os call
 the agent makes and the laws its undo list relies on.
 */
module FileSystem {
  import opened Common

  type Path = seq<Bytes>

  datatype Entry = Dir | File(data: Bytes)

  type Files = map<Path, Entry>

  /** p is q or one of its ancestors. */
  predicate Under(p: Path, q: Path) {
    p <= q
  }

  /** p is a proper ancestor of q. */
  predicate Above(p: Path, q: Path) {
    p < q
  }

  /** The root exists and every ancestor of an entry is a directory. */
  ghost predicate WellFormed(fs: Files) {
    && [] in fs && fs[[]].Dir?
    && forall p, q :: Above(p, q) && q in fs ==> p in fs && fs[p].Dir?
  }

  function Parent(p: Path): (q: Path)
    requires p != []
    ensures Above(q, p) && |q| == |p| - 1
  {
    p[..|p| - 1]
  }

  predicate IsDir(fs: Files, p: Path) {
    p in fs && fs[p].Dir?
  }

  predicate IsFile(fs: Files, p: Path) {
    p in fs && fs[p].File?
  }

  // ---------------------------------------------------------------- Lstat

  datatype Stat = Found | Missing | NotADirectory

  /** p itself and everything it lies under. */
  function Ancestors(p: Path): (s: set<Path>)
    ensures forall q :: q in s <==> Under(q, p)
  {
    var s := set k | 0 <= k <= |p| :: p[..k];
    assert forall q :: Under(q, p) ==> q == p[..|q|];
    s
  }

  /** ENOENT and ENOTDIR differ: only the first counts as "does not exist". */
  function Lstat(fs: Files, p: Path): Stat {
    if p in fs then Found
    else if forall a | a in Ancestors(p) :: !IsFile(fs, a) then Missing
    else NotADirectory
  }

  // ------------------------------------------------------------- MkdirAll

  predicate MkdirAllOk(fs: Files, p: Path) {
    forall a | a in Ancestors(p) :: !IsFile(fs, a)
  }

  function MkdirAll(fs: Files, p: Path): (fs': Files) {
    map q | q in fs.Keys + Ancestors(p) :: if q in fs then fs[q] else Dir
  }

  // -------------------------------------------------- WriteFile, RemoveAll

  /** os.Remove takes a file or an empty directory. */
  predicate RemoveOk(fs: Files, p: Path) {
    p in fs && p != [] && forall q | q in fs :: !Above(p, q)
  }

  predicate WriteOk(fs: Files, p: Path) {
    p != [] && IsDir(fs, Parent(p)) && !IsDir(fs, p)
  }

  function RemoveAll(fs: Files, p: Path): (fs': Files) {
    map q | q in fs && !Under(p, q) :: fs[q]
  }

  /** What removals below these paths may leave, finished or not: nothing new, and nothing gone elsewhere. */
  ghost predicate Pruned(fs: Files, fs': Files, roots: seq<Path>) {
    && (forall q :: q in fs' ==> q in fs && fs'[q] == fs[q])
    && forall q :: q in fs && (forall t :: t in roots ==> !Under(t, q)) ==> q in fs'
  }

  // ------------------------------------------------------------- os.Rename

  /**
   Go's os.Rename: the destination may be a file, which is replaced, but never a directory; a
   directory cannot go below itself or onto a file.
   */
  predicate RenameOk(fs: Files, from: Path, to: Path) {
    && from in fs && from != [] && to != []
    && IsDir(fs, Parent(to))
    && !IsDir(fs, to)
    && (fs[from].Dir? ==> to !in fs && !Under(from, to))
  }

  /** Where the entry now at q came from. */
  function Origin(from: Path, to: Path, q: Path): Path {
    if Under(to, q) then from + q[|to|..] else q
  }

  function Rename(fs: Files, from: Path, to: Path): (fs': Files) {
    var moved := set q | q in fs && Under(from, q) :: to + q[|from|..];
    var kept := set q | q in fs && !Under(from, q) && !Under(to, q);
    map q | q in moved + kept && Origin(from, to, q) in fs :: fs[Origin(from, to, q)]
  }

  // ----------------------------------------------------------- Small facts

  lemma ParentOfUnder(p: Path, q: Path)
    requires Above(p, q)
    ensures Under(p, Parent(q))
  {
  }

  lemma UnderSuffix(p: Path, q: Path)
    requires Under(p, q)
    ensures p + q[|p|..] == q
  {
  }

  lemma AncestorIsDir(fs: Files, p: Path, q: Path)
    requires WellFormed(fs) && IsDir(fs, q) && Under(p, q)
    ensures IsDir(fs, p)
  {
    if p != q {
      assert Above(p, q);
    }
  }

  lemma MkdirAllWellFormed(fs: Files, p: Path)
    requires WellFormed(fs) && MkdirAllOk(fs, p)
    ensures WellFormed(MkdirAll(fs, p)) && IsDir(MkdirAll(fs, p), p)
  {
    var fs' := MkdirAll(fs, p);
    assert Under([], p);
    assert p in Ancestors(p) && IsDir(fs', p);
    forall a, q | Above(a, q) && q in fs'
      ensures a in fs' && fs'[a].Dir?
    {
      if q !in fs {
        assert Under(q, p) && Under(a, p);
      }
    }
  }

  /** A directory that exists is left as it is. */
  lemma MkdirAllNoop(fs: Files, p: Path)
    requires WellFormed(fs) && IsDir(fs, p)
    ensures MkdirAllOk(fs, p) && MkdirAll(fs, p) == fs
  {
    forall a | Under(a, p)
      ensures IsDir(fs, a)
    {
      AncestorIsDir(fs, a, p);
    }
    assert fs.Keys + Ancestors(p) == fs.Keys;
  }

  lemma WriteWellFormed(fs: Files, p: Path, data: Bytes)
    requires WellFormed(fs) && WriteOk(fs, p)
    ensures WellFormed(fs[p := File(data)])
  {
    forall a, q | Above(a, q) && q in fs[p := File(data)]
      ensures a in fs && fs[a].Dir? && a != p
    {
      if q == p {
        ParentOfUnder(a, p);
        AncestorIsDir(fs, a, Parent(p));
      }
    }
  }

  lemma NewDirWellFormed(fs: Files, p: Path)
    requires WellFormed(fs) && p != [] && IsDir(fs, Parent(p)) && p !in fs
    ensures WellFormed(fs[p := Dir])
  {
    forall a, q | Above(a, q) && q in fs[p := Dir]
      ensures a in fs && fs[a].Dir?
    {
      if q == p {
        ParentOfUnder(a, p);
        AncestorIsDir(fs, a, Parent(p));
      }
    }
  }

  lemma RemoveAllWellFormed(fs: Files, p: Path)
    requires WellFormed(fs) && p != []
    ensures WellFormed(RemoveAll(fs, p))
  {
    forall a, q | Above(a, q) && q in RemoveAll(fs, p)
      ensures a in RemoveAll(fs, p) && fs[a].Dir?
    {
      assert !Under(p, a);
    }
  }

  lemma RemoveWellFormed(fs: Files, p: Path)
    requires WellFormed(fs) && RemoveOk(fs, p)
    ensures WellFormed(fs - {p})
  {
    forall a, q | Above(a, q) && q in fs - {p}
      ensures a in fs - {p} && fs[a].Dir?
    {
      assert !Above(p, q);
    }
  }

  /** Pointwise reading of a rename. */
  lemma RenameAt(fs: Files, from: Path, to: Path, q: Path)
    requires WellFormed(fs) && RenameOk(fs, from, to)
    ensures q in Rename(fs, from, to) <==>
              if Under(to, q) then from + q[|to|..] in fs
              else q in fs && !Under(from, q)
    ensures q in Rename(fs, from, to) ==> Rename(fs, from, to)[q] == fs[Origin(from, to, q)]
  {
    if Under(to, q) {
      var o := from + q[|to|..];
      assert o[|from|..] == q[|to|..];
      UnderSuffix(to, q);
      if o in fs {
        assert Under(from, o);
        assert q == to + o[|from|..];
      }
    }
  }

  lemma RenameWellFormed(fs: Files, from: Path, to: Path)
    requires WellFormed(fs) && RenameOk(fs, from, to)
    ensures WellFormed(Rename(fs, from, to))
  {
    var fs' := Rename(fs, from, to);
    RenameAt(fs, from, to, []);
    forall a, q | Above(a, q) && q in fs'
      ensures a in fs' && fs'[a].Dir?
    {
      RenameAt(fs, from, to, q);
      RenameAt(fs, from, to, a);
      if Under(to, q) {
        if Under(to, a) {
          var oa, oq := from + a[|to|..], from + q[|to|..];
          assert Above(oa, oq);
        } else {
          // a is a proper ancestor of to
          assert Above(a, to);
          ParentOfUnder(a, to);
          AncestorIsDir(fs, a, Parent(to));
          assert from != a ==> !Above(from, a) || fs[from].Dir?;
          assert !Under(from, a);
        }
      } else {
        assert !Under(from, a) && !Under(to, a);
      }
    }
  }

  lemma NotRelated(fs: Files, from: Path, to: Path)
    requires WellFormed(fs) && RenameOk(fs, from, to) && to !in fs
    ensures !Under(from, to) && !Under(to, from)
  {
    if Under(to, from) && to != from {
      assert Above(to, from);
    }
    if Under(from, to) && from != to {
      ParentOfUnder(from, to);
      AncestorIsDir(fs, from, Parent(to));
    }
  }

  lemma RenameBackOk(fs: Files, from: Path, to: Path)
    requires WellFormed(fs) && RenameOk(fs, from, to) && to !in fs
    ensures RenameOk(Rename(fs, from, to), to, from)
    ensures from !in Rename(fs, from, to)
  {
    NotRelated(fs, from, to);
    RenameAt(fs, from, to, to);
    RenameAt(fs, from, to, from);
    RenameAt(fs, from, to, Parent(from));
    assert from + to[|to|..] == from;
    assert !Under(from, Parent(from)) && !Under(to, Parent(from));
    assert Above(Parent(from), from);
  }

  lemma RenameBackAt(fs: Files, from: Path, to: Path, q: Path)
    requires WellFormed(fs) && RenameOk(fs, from, to) && to !in fs
    requires WellFormed(Rename(fs, from, to)) && RenameOk(Rename(fs, from, to), to, from)
    ensures q in Rename(Rename(fs, from, to), to, from) <==> q in fs
    ensures q in fs ==> Rename(Rename(fs, from, to), to, from)[q] == fs[q]
  {
    hide Rename, RenameOk, WellFormed;
    var fs1 := Rename(fs, from, to);
    NotRelated(fs, from, to);
    RenameAt(fs1, to, from, q);
    if Under(from, q) {
      var o := to + q[|from|..];
      RenameAt(fs, from, to, o);
      assert o[|to|..] == q[|from|..];
      UnderSuffix(from, q);
    } else {
      RenameAt(fs, from, to, q);
      assert Under(to, q) ==> q !in fs by { NothingUnder(fs, to, q); }
    }
  }

  /**
   A rename onto a free name is undone by the opposite rename, which is then always allowed.
   This one law carries both the undo of a move and the restoring of a stash.
   */
  lemma RenameBack(fs: Files, from: Path, to: Path)
    requires WellFormed(fs) && RenameOk(fs, from, to) && to !in fs
    ensures WellFormed(Rename(fs, from, to))
    ensures RenameOk(Rename(fs, from, to), to, from)
    ensures Rename(Rename(fs, from, to), to, from) == fs
  {
    hide Rename, RenameOk, WellFormed;
    RenameWellFormed(fs, from, to);
    RenameBackOk(fs, from, to);
    forall q
      ensures q in Rename(Rename(fs, from, to), to, from) <==> q in fs
      ensures q in fs ==> Rename(Rename(fs, from, to), to, from)[q] == fs[q]
    {
      RenameBackAt(fs, from, to, q);
    }
  }

  lemma NothingUnder(fs: Files, p: Path, q: Path)
    requires WellFormed(fs) && p !in fs
    ensures Under(p, q) ==> q !in fs
  {
    if Under(p, q) && p != q {
      assert Above(p, q);
    }
  }

  lemma RemoveAllAbsent(fs: Files, p: Path)
    requires WellFormed(fs) && p !in fs
    ensures RemoveAll(fs, p) == fs
  {
    forall q | q in fs
      ensures !Under(p, q)
    {
      NothingUnder(fs, p, q);
    }
  }

  /** What was put at a free name, and nothing else, is taken away again. */
  lemma RemoveAllUndoes(fs: Files, p: Path, e: Entry)
    requires WellFormed(fs) && p !in fs
    ensures RemoveAll(fs[p := e], p) == fs
  {
    RemoveAllAbsent(fs, p);
    assert RemoveAll(fs[p := e], p).Keys == fs.Keys;
  }
}
