/**
 The os calls of the agent as methods of one mutable disk. A call made while the disk is not calm
 may fail for an outside reason; a failed MkdirAll, WriteFile or RemoveAll may have done part of
 its work, a failed Rename, Remove or MkdirTemp has done nothing.
 */
module Disks {
  import opened Common
  import opened FileSystem
  import Paths

  const DASH: byte := 45

  /** The name MkdirTemp builds from the pattern "." + base + "-" and a random part. */
  function TempName(base: Bytes, random: Bytes): Bytes {
    [Paths.DOT] + base + [DASH] + random
  }

  function TempPath(p: Path, random: Bytes): (t: Path)
    requires p != []
    ensures t != [] && Parent(t) == Parent(p)
    ensures |t| == |p| && t != p
  {
    var base := p[|p| - 1];
    assert |TempName(base, random)| > |base|;
    Parent(p) + [TempName(base, random)]
  }

  /** The entry names directly below p. */
  function Children(fs: Files, p: Path): (names: set<Bytes>)
    ensures forall n :: n in names <==> p + [n] in fs
  {
    var names := set q | q in fs && Above(p, q) && |q| == |p| + 1 :: q[|p|];
    assert forall q :: q in fs && Above(p, q) && |q| == |p| + 1 ==> q == p + [q[|p|]];
    assert forall n :: (p + [n])[|p|] == n;
    names
  }

  datatype Removal = Removed | Absent | Refused

  class Disk {
    var files: Files

    ghost predicate Valid()
      reads this
    {
      WellFormed(files)
    }

    constructor (files: Files)
      requires WellFormed(files)
      ensures Valid() && this.files == files
    {
      this.files := files;
    }

    method Stat(p: Path, calm: bool) returns (ok: bool, stat: FileSystem.Stat)
      requires Valid()
      ensures ok ==> stat == Lstat(files, p)
      ensures calm ==> ok
    {
      var fault: bool := *;
      return calm || !fault, Lstat(files, p);
    }

    method MkdirAll(p: Path, calm: bool) returns (ok: bool)
      requires Valid()
      modifies this
      ensures Valid()
      ensures ok ==> MkdirAllOk(old(files), p) && files == FileSystem.MkdirAll(old(files), p)
      ensures !ok ==>
              exists a :: Under(a, p) && MkdirAllOk(old(files), a) && files == FileSystem.MkdirAll(old(files), a)
      ensures calm ==> (ok <==> MkdirAllOk(old(files), p))
      ensures calm && !ok ==> files == old(files)
    {
      var fault: bool := *;
      var part: int := *;
      ok := MkdirAllOk(files, p) && (calm || !fault);
      if ok {
        MkdirAllWellFormed(files, p);
        files := FileSystem.MkdirAll(files, p);
      } else {
        var a := if !calm && 0 <= part <= |p| && MkdirAllOk(files, p[..part]) then p[..part] else [];
        MkdirAllNoop(files, []);
        assert Under(a, p);
        MkdirAllWellFormed(files, a);
        files := FileSystem.MkdirAll(files, a);
      }
    }

    method WriteFile(p: Path, data: Bytes, calm: bool) returns (ok: bool)
      requires Valid()
      modifies this
      ensures Valid()
      ensures ok ==> WriteOk(old(files), p) && files == old(files)[p := File(data)]
      ensures !ok ==>
                || files == old(files)
                || (WriteOk(old(files), p) && exists part :: files == old(files)[p := File(part)])
      ensures calm ==> (ok <==> WriteOk(old(files), p))
      ensures calm && !ok ==> files == old(files)
    {
      var fault: bool := *;
      var partial: bool := *;
      var part: Bytes := *;
      ok := WriteOk(files, p) && (calm || !fault);
      if ok {
        WriteWellFormed(files, p, data);
        files := files[p := File(data)];
      } else if WriteOk(files, p) && !calm && partial {
        WriteWellFormed(files, p, part);
        files := files[p := File(part)];
      }
    }

    method Rename(from: Path, to: Path, calm: bool) returns (ok: bool)
      requires Valid()
      modifies this
      ensures Valid()
      ensures ok ==> RenameOk(old(files), from, to) && files == FileSystem.Rename(old(files), from, to)
      ensures !ok ==> files == old(files)
      ensures calm ==> (ok <==> RenameOk(old(files), from, to))
    {
      var fault: bool := *;
      ok := RenameOk(files, from, to) && (calm || !fault);
      if ok {
        RenameWellFormed(files, from, to);
        files := FileSystem.Rename(files, from, to);
      }
    }

    method Remove(p: Path, calm: bool) returns (r: Removal)
      requires Valid()
      modifies this
      ensures Valid()
      ensures r == Removed ==> RemoveOk(old(files), p) && files == old(files) - {p}
      ensures r == Absent ==> Lstat(old(files), p) == Missing
      ensures r != Removed ==> files == old(files)
      ensures calm ==> r == if RemoveOk(old(files), p) then Removed
                            else if Lstat(old(files), p) == Missing then Absent else Refused
    {
      var fault: bool := *;
      if fault && !calm {
        r := Refused;
      } else if RemoveOk(files, p) {
        RemoveWellFormed(files, p);
        files := files - {p};
        r := Removed;
      } else {
        r := if Lstat(files, p) == Missing then Absent else Refused;
      }
    }

    method RemoveAll(p: Path, calm: bool) returns (ok: bool)
      requires Valid() && p != []
      modifies this
      ensures Valid()
      ensures ok || calm ==> files == FileSystem.RemoveAll(old(files), p)
      ensures calm ==> (ok <==> Lstat(old(files), p) != NotADirectory)
      ensures forall q :: q in files ==> q in old(files) && files[q] == old(files)[q]
      ensures forall q :: q in old(files) && !Under(p, q) ==> q in files
    {
      var fault: bool := *;
      if calm || !fault {
        ok := Lstat(files, p) != NotADirectory;
        RemoveAllWellFormed(files, p);
        files := FileSystem.RemoveAll(files, p);
      } else {
        ok := false;
        while *
          invariant Valid()
          invariant forall q :: q in files ==> q in old(files) && files[q] == old(files)[q]
          invariant forall q :: q in old(files) && !Under(p, q) ==> q in files
          decreases files.Keys
        {
          if !exists q | q in files.Keys :: Under(p, q) {
            break;
          }
          var q :| q in files.Keys && Under(p, q);
          RemoveAllWellFormed(files, q);
          assert q !in FileSystem.RemoveAll(files, q);
          files := FileSystem.RemoveAll(files, q);
        }
      }
    }

    /** random is the last name drawn; MkdirTemp fails when it is taken as well. */
    method MkdirTemp(beside: Path, random: Bytes, calm: bool) returns (ok: bool)
      requires Valid() && beside != []
      modifies this
      ensures Valid()
      ensures ok ==>
                && IsDir(old(files), Parent(beside)) && TempPath(beside, random) !in old(files)
                && files == old(files)[TempPath(beside, random) := Dir]
      ensures !ok ==> files == old(files)
      ensures calm ==> (ok <==> IsDir(old(files), Parent(beside)) && TempPath(beside, random) !in old(files))
    {
      var fault: bool := *;
      var t := TempPath(beside, random);
      ok := IsDir(files, Parent(beside)) && t !in files && (calm || !fault);
      if ok {
        NewDirWellFormed(files, t);
        files := files[t := Dir];
      }
    }

    method ReadDir(p: Path, calm: bool) returns (ok: bool, names: set<Bytes>)
      requires Valid()
      ensures ok ==> IsDir(files, p) && names == Children(files, p)
      ensures calm ==> (ok <==> IsDir(files, p))
    {
      var fault: bool := *;
      return IsDir(files, p) && (calm || !fault), Children(files, p);
    }
  }
}
