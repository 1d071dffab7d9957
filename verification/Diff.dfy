/**
 Turning two scans of Home into guest events, and polling (agent/watch.go). A scan maps each path to
 a directory or to the hash of a regular file.
 */
module Diff {
  import opened Common
  import opened Paths
  import opened WatchLog
  import Tree

  /** More events than this in one poll start a new generation of the log. */
  const WATCH_BUFFER: nat := DEFAULT_CAPACITY

  datatype Meta = Directory | File(hash: Bytes)

  type Scan = map<Bytes, Meta>

  // ------------------------------------------------------------ What has changed

  ghost function Changed(old_: Scan, next: Scan): set<Bytes> {
    set p | p in old_ && p in next && old_[p].File? && next[p].File? && old_[p] != next[p]
  }

  ghost function Gone(old_: Scan, next: Scan): set<Bytes> {
    old_.Keys - next.Keys
  }

  ghost function Appeared(old_: Scan, next: Scan): set<Bytes> {
    next.Keys - old_.Keys
  }

  /** The sequence lists the set, each element once, in some order. */
  ghost predicate Lists(s: seq<Bytes>, paths: set<Bytes>) {
    && (forall i, j :: 0 <= i < j < |s| ==> s[i] != s[j])
    && (forall i :: 0 <= i < |s| ==> s[i] in paths)
    && forall p :: p in paths ==> p in s
  }

  function Tag(op: Tree.Op, paths: seq<Bytes>): (events: seq<Event>)
    ensures |events| == |paths|
  {
    seq(|paths|, i requires 0 <= i < |paths| => Event([], op, paths[i], []))
  }

  /** One disappeared, one appeared, both files with the same hash. */
  predicate Renamed(old_: Scan, next: Scan, deleted: seq<Bytes>, created: seq<Bytes>) {
    && |deleted| == 1 && |created| == 1 && deleted[0] in old_ && created[0] in next
    && old_[deleted[0]].File? && next[created[0]].File? && old_[deleted[0]] == next[created[0]]
  }

  function Tail(old_: Scan, next: Scan, deleted: seq<Bytes>, created: seq<Bytes>): seq<Event> {
    if Renamed(old_, next, deleted, created) then [Event([], Tree.Move, created[0], deleted[0])]
    else Tag(Tree.Delete, deleted) + Tag(Tree.Create, created)
  }

  ghost predicate Parts(old_: Scan, next: Scan, r: seq<Bytes>, d: seq<Bytes>, c: seq<Bytes>, events: seq<Event>) {
    && Lists(r, Changed(old_, next)) && Lists(d, Gone(old_, next)) && Lists(c, Appeared(old_, next))
    && events == Tag(Tree.Replace, r) + Tail(old_, next, d, c)
  }

  /** What diffSnap may answer, over every order of ranging over the two maps. */
  ghost predicate IsDiff(old_: Scan, next: Scan, events: seq<Event>) {
    exists r, d, c :: Parts(old_, next, r, d, c, events)
  }

  lemma WhatIs(old_: Scan, next: Scan, path: Bytes)
    ensures path in Gone(old_, next) <==> path in old_ && path !in next
    ensures path in Appeared(old_, next) <==> path !in old_ && path in next
    ensures path in Changed(old_, next) <==> Rewritten(old_, next, path)
  {
  }

  /** Ranging over one more key lists it when it belongs, and leaves the list alone when not. */
  lemma ListsMore(s: seq<Bytes>, paths: set<Bytes>, left: set<Bytes>, path: Bytes)
    requires Lists(s, paths - left) && path in left
    ensures Lists(if path in paths then s + [path] else s, paths - (left - {path}))
  {
    var rest := paths - left;
    if path in paths {
      assert paths - (left - {path}) == rest + {path};
      assert path !in s;
      var t := s + [path];
      forall p | p in rest + {path} ensures p in t {
        if p == path { assert t[|s|] == path; }
      }
    } else {
      assert paths - (left - {path}) == rest;
    }
  }

  predicate Rewritten(old_: Scan, next: Scan, path: Bytes) {
    path in old_ && path in next && old_[path].File? && next[path].File? && old_[path].hash != next[path].hash
  }

  lemma OldPath(old_: Scan, next: Scan, deleted: seq<Bytes>, replaced: seq<Bytes>, left: set<Bytes>, path: Bytes)
    requires path in left && left <= old_.Keys && Lists(deleted, Gone(old_, next) - left)
             && Lists(replaced, Changed(old_, next) - left)
    ensures Lists(if path !in next then deleted + [path] else deleted, Gone(old_, next) - (left - {path}))
    ensures Lists(if Rewritten(old_, next, path) then replaced + [path] else replaced,
                  Changed(old_, next) - (left - {path}))
  {
    hide Lists;
    WhatIs(old_, next, path);
    ListsMore(deleted, Gone(old_, next), left, path);
    ListsMore(replaced, Changed(old_, next), left, path);
  }

  lemma NewPath(old_: Scan, next: Scan, created: seq<Bytes>, left: set<Bytes>, path: Bytes)
    requires path in left && left <= next.Keys && Lists(created, Appeared(old_, next) - left)
    ensures Lists(if path !in old_ then created + [path] else created, Appeared(old_, next) - (left - {path}))
  {
    hide Lists;
    WhatIs(old_, next, path);
    ListsMore(created, Appeared(old_, next), left, path);
  }

  lemma NothingListed(paths: set<Bytes>, left: set<Bytes>)
    requires paths <= left
    ensures Lists([], paths - left)
  {
    assert paths - left == {};
  }

  lemma TagSnoc(op: Tree.Op, paths: seq<Bytes>, path: Bytes)
    ensures Tag(op, paths + [path]) == Tag(op, paths) + [Event([], op, path, [])]
  {
  }

  /** Tagging one path after another, as the closing loops of diffSnap do. */
  method AddEach(events: seq<Event>, op: Tree.Op, paths: seq<Bytes>) returns (r: seq<Event>)
    ensures r == events + Tag(op, paths)
  {
    r := events;
    for i := 0 to |paths|
      invariant r == events + Tag(op, paths[..i])
    {
      TagSnoc(op, paths[..i], paths[i]);
      assert paths[..i] + [paths[i]] == paths[..i + 1];
      r := r + [Event([], op, paths[i], [])];
    }
    assert paths[..|paths|] == paths;
  }

  /** The end of diffSnap: one rename, or the deletes and then the creates. */
  method Close(old_: Scan, next: Scan, events: seq<Event>, deleted: seq<Bytes>, created: seq<Bytes>)
    returns (r: seq<Event>)
    ensures r == events + Tail(old_, next, deleted, created)
  {
    hide Tag;
    if Renamed(old_, next, deleted, created) {
      return events + [Event([], Tree.Move, created[0], deleted[0])];
    }
    r := AddEach(events, Tree.Delete, deleted);
    r := AddEach(r, Tree.Create, created);
    assert r == events + (Tag(Tree.Delete, deleted) + Tag(Tree.Create, created));
  }

  /** The loop over the old scan: what is gone, and the replace events. */
  method RangeOld(old_: Scan, next: Scan) returns (deleted: seq<Bytes>, events: seq<Event>, ghost replaced: seq<Bytes>)
    ensures Lists(deleted, Gone(old_, next)) && Lists(replaced, Changed(old_, next))
            && events == Tag(Tree.Replace, replaced)
  {
    hide Lists, Changed, Gone, Tag;
    deleted, events, replaced := [], [], [];
    var left := old_.Keys;
    AllLeft(old_, next);
    while left != {}
      invariant left <= old_.Keys
      invariant Lists(deleted, Gone(old_, next) - left) && Lists(replaced, Changed(old_, next) - left)
      invariant events == Tag(Tree.Replace, replaced)
      decreases |left|
    {
      var path :| path in left;
      OldPath(old_, next, deleted, replaced, left, path);
      left := left - {path};
      if path !in next {
        deleted := deleted + [path];
      } else if Rewritten(old_, next, path) {
        TagSnoc(Tree.Replace, replaced, path);
        events := events + [Event([], Tree.Replace, path, [])];
        replaced := replaced + [path];
      }
    }
    assert Gone(old_, next) - {} == Gone(old_, next) && Changed(old_, next) - {} == Changed(old_, next);
  }

  /** The loop over the new scan: what has appeared. */
  method RangeNext(old_: Scan, next: Scan) returns (created: seq<Bytes>)
    ensures Lists(created, Appeared(old_, next))
  {
    hide Lists, Appeared;
    created := [];
    var left := next.Keys;
    AllLeft(old_, next);
    while left != {}
      invariant left <= next.Keys
      invariant Lists(created, Appeared(old_, next) - left)
      decreases |left|
    {
      var path :| path in left;
      NewPath(old_, next, created, left, path);
      left := left - {path};
      if path !in old_ {
        created := created + [path];
      }
    }
    assert Appeared(old_, next) - {} == Appeared(old_, next);
  }

  method DiffSnap(old_: Scan, next: Scan) returns (events: seq<Event>)
    ensures IsDiff(old_, next, events)
  {
    hide Lists, Changed, Gone, Appeared, Tag, Tail;
    var deleted, front, replaced := RangeOld(old_, next);
    var created := RangeNext(old_, next);
    events := Close(old_, next, front, deleted, created);
    assert Parts(old_, next, replaced, deleted, created, events);
  }

  lemma AllLeft(old_: Scan, next: Scan)
    ensures Lists([], Gone(old_, next) - old_.Keys) && Lists([], Changed(old_, next) - old_.Keys)
    ensures Lists([], Appeared(old_, next) - next.Keys)
    ensures Tag(Tree.Replace, []) == []
  {
    NothingListed(Gone(old_, next), old_.Keys);
    NothingListed(Changed(old_, next), old_.Keys);
    NothingListed(Appeared(old_, next), next.Keys);
  }

  // ------------------------------------------------------------------- Replaying

  /** Applying one event to what is known, reading created and replaced files from the new state. */
  function Step(known: Scan, next: Scan, event: Event): Scan {
    match event.op
    case Delete => known - {event.path}
    case Move => if event.from in known then (known - {event.from})[event.path := known[event.from]] else known
    case _ => if event.path in next then known[event.path := next[event.path]] else known
  }

  function Replay(known: Scan, next: Scan, events: seq<Event>): Scan {
    if events == [] then known else Step(Replay(known, next, events[..|events| - 1]), next, events[|events| - 1])
  }

  /** The new state, except that a path that changed kind is still what it was. */
  function Followed(old_: Scan, next: Scan): Scan {
    map p | p in next :: if p in old_ && (old_[p].File? != next[p].File?) then old_[p] else next[p]
  }

  predicate KindsStay(old_: Scan, next: Scan) {
    forall p :: p in old_ && p in next ==> old_[p].File? == next[p].File?
  }

  lemma {:induction false} ReplayConcat(known: Scan, next: Scan, a: seq<Event>, b: seq<Event>)
    ensures Replay(known, next, a + b) == Replay(Replay(known, next, a), next, b)
  {
    if b == [] {
      assert a + b == a;
    } else {
      var n := |b| - 1;
      ReplayConcat(known, next, a, b[..n]);
      assert (a + b)[..|a + b| - 1] == a + b[..n];
    }
  }

  ghost predicate Within(paths: seq<Bytes>, next: Scan) {
    forall i :: 0 <= i < |paths| ==> paths[i] in next
  }

  /** What is known, with these paths read anew. */
  ghost function Refreshed(known: Scan, next: Scan, paths: seq<Bytes>): Scan
    requires Within(paths, next)
  {
    map p | p in known.Keys + (set q | q in paths) :: if p in paths then next[p] else known[p]
  }

  ghost function Without(known: Scan, paths: seq<Bytes>): Scan {
    map p | p in known && p !in paths :: known[p]
  }

  lemma RefreshMore(known: Scan, next: Scan, paths: seq<Bytes>, path: Bytes)
    requires Within(paths, next) && path in next
    ensures Within(paths + [path], next)
    ensures Refreshed(known, next, paths + [path]) == Refreshed(known, next, paths)[path := next[path]]
  {
  }

  lemma WithoutMore(known: Scan, paths: seq<Bytes>, path: Bytes)
    ensures Without(known, paths + [path]) == Without(known, paths) - {path}
  {
  }

  lemma ReplayMore(known: Scan, next: Scan, op: Tree.Op, paths: seq<Bytes>, path: Bytes)
    ensures Replay(known, next, Tag(op, paths + [path])) ==
            Step(Replay(known, next, Tag(op, paths)), next, Event([], op, path, []))
  {
    hide Step;
    TagSnoc(op, paths, path);
    assert (Tag(op, paths) + [Event([], op, path, [])])[..|paths|] == Tag(op, paths);
  }

  lemma {:induction false} ReplayFresh(known: Scan, next: Scan, op: Tree.Op, paths: seq<Bytes>)
    requires (op == Tree.Create || op == Tree.Replace) && Within(paths, next)
    ensures Replay(known, next, Tag(op, paths)) == Refreshed(known, next, paths)
  {
    hide Tag;
    if paths == [] {
      assert Tag(op, paths) == [];
      assert Refreshed(known, next, []) == known;
    } else {
      hide Replay, Refreshed;
      var n := |paths| - 1;
      var path := paths[n];
      assert paths[..n] + [path] == paths;
      ReplayFresh(known, next, op, paths[..n]);
      ReplayMore(known, next, op, paths[..n], path);
      RefreshMore(known, next, paths[..n], path);
    }
  }

  lemma {:induction false} ReplayDeletes(known: Scan, next: Scan, paths: seq<Bytes>)
    ensures Replay(known, next, Tag(Tree.Delete, paths)) == Without(known, paths)
  {
    hide Tag;
    if paths == [] {
      assert Without(known, []) == known;
    } else {
      hide Replay, Without;
      var n := |paths| - 1;
      var path := paths[n];
      assert paths[..n] + [path] == paths;
      ReplayDeletes(known, next, paths[..n]);
      ReplayMore(known, next, Tree.Delete, paths[..n], path);
      WithoutMore(known, paths[..n], path);
    }
  }

  /** After the replace events every file present on both sides is up to date. */
  ghost function Updated(old_: Scan, next: Scan): Scan {
    map p | p in old_ :: if p in Changed(old_, next) then next[p] else old_[p]
  }

  lemma ReplayReplaces(old_: Scan, next: Scan, r: seq<Bytes>)
    requires Lists(r, Changed(old_, next))
    ensures Replay(old_, next, Tag(Tree.Replace, r)) == Updated(old_, next)
  {
    assert Within(r, next);
    ReplayFresh(old_, next, Tree.Replace, r);
    hide Replay;
    forall p ensures p in r <==> p in Changed(old_, next) { }
    assert Refreshed(old_, next, r) == Updated(old_, next);
  }

  /**
   Replaying the events over the old scan gives the new one, whatever order the maps were ranged
   over and also when a delete and a create were collapsed into a move; only a path that changed
   kind, for which there is no event, stays what it was.
   */
  lemma ReplayFollows(old_: Scan, next: Scan, events: seq<Event>)
    requires IsDiff(old_, next, events)
    ensures Replay(old_, next, events) == Followed(old_, next)
  {
    hide Parts;
    var r, d, c :| Parts(old_, next, r, d, c, events);
    ReplayParts(old_, next, r, d, c, events);
  }

  lemma ReplayParts(old_: Scan, next: Scan, r: seq<Bytes>, d: seq<Bytes>, c: seq<Bytes>, events: seq<Event>)
    requires Parts(old_, next, r, d, c, events)
    ensures Replay(old_, next, events) == Followed(old_, next)
  {
    hide Replay, Lists, Changed, Gone, Appeared, Updated, Followed, Tag;
    ReplayReplaces(old_, next, r);
    ReplayConcat(old_, next, Tag(Tree.Replace, r), Tail(old_, next, d, c));
    var mid := Updated(old_, next);
    if Renamed(old_, next, d, c) {
      ReplayOne(mid, next, Event([], Tree.Move, c[0], d[0]));
      MoveFollows(old_, next, d, c);
    } else {
      ReplayConcat(mid, next, Tag(Tree.Delete, d), Tag(Tree.Create, c));
      ReplayDeletes(mid, next, d);
      AppearedWithin(old_, next, c);
      ReplayFresh(Without(mid, d), next, Tree.Create, c);
      DeleteCreateFollows(old_, next, d, c);
    }
  }

  lemma ReplayOne(known: Scan, next: Scan, event: Event)
    ensures Replay(known, next, [event]) == Step(known, next, event)
  {
    hide Step;
    assert [event][..0] == [];
    assert Replay(known, next, []) == known;
  }

  lemma AppearedWithin(old_: Scan, next: Scan, c: seq<Bytes>)
    requires Lists(c, Appeared(old_, next))
    ensures Within(c, next)
  {
  }

  lemma MoveFollows(old_: Scan, next: Scan, d: seq<Bytes>, c: seq<Bytes>)
    requires Lists(d, Gone(old_, next)) && Lists(c, Appeared(old_, next)) && Renamed(old_, next, d, c)
    ensures Step(Updated(old_, next), next, Event([], Tree.Move, c[0], d[0])) == Followed(old_, next)
  {
    var mid := Updated(old_, next);
    assert d == [d[0]] && c == [c[0]];
    forall p ensures p in Gone(old_, next) <==> p == d[0] { assert p in d <==> p == d[0]; }
    forall p ensures p in Appeared(old_, next) <==> p == c[0] { assert p in c <==> p == c[0]; }
    var moved := (mid - {d[0]})[c[0] := mid[d[0]]];
    forall p ensures p in moved <==> p in next {
      WhatIs(old_, next, p);
    }
    assert moved == Followed(old_, next);
  }

  lemma DeleteCreateFollows(old_: Scan, next: Scan, d: seq<Bytes>, c: seq<Bytes>)
    requires Lists(d, Gone(old_, next)) && Lists(c, Appeared(old_, next)) && Within(c, next)
    ensures Refreshed(Without(Updated(old_, next), d), next, c) == Followed(old_, next)
  {
    var result := Refreshed(Without(Updated(old_, next), d), next, c);
    forall p ensures p in d <==> p in Gone(old_, next) { }
    forall p ensures p in c <==> p in Appeared(old_, next) { }
    hide Lists;
    forall p ensures p in result <==> p in next {
      WhatIs(old_, next, p);
    }
    assert result == Followed(old_, next);
  }

  /** So the events reproduce the new scan exactly when no path changed kind between the two. */
  lemma ReplayGivesNextIff(old_: Scan, next: Scan, events: seq<Event>)
    requires IsDiff(old_, next, events)
    ensures Replay(old_, next, events) == next <==> KindsStay(old_, next)
  {
    hide IsDiff, Replay;
    ReplayFollows(old_, next, events);
    if KindsStay(old_, next) {
      assert Followed(old_, next) == next;
    } else {
      var p :| p in old_ && p in next && old_[p].File? != next[p].File?;
      assert Followed(old_, next)[p] != next[p];
    }
  }

  /** A directory replaced by a file of the same name between two scans: no event, and the replay stays behind. */
  lemma KindChangeUnseen(path: Bytes, hash: Bytes)
    ensures var before: Scan := map[path := Directory];
            var after: Scan := map[path := File(hash)];
            IsDiff(before, after, []) && Replay(before, after, []) != after
  {
    var before: Scan := map[path := Directory];
    var after: Scan := map[path := File(hash)];
    assert before.Keys == after.Keys == {path};
    assert Parts(before, after, [], [], [], []);
  }

  // -------------------------------------------------------- What else is promised

  lemma {:induction false} SameListing(a: seq<Bytes>, b: seq<Bytes>, paths: set<Bytes>)
    requires Lists(a, paths) && Lists(b, paths)
    ensures |a| == |b| == |paths| && forall p :: p in a <==> p in b
  {
    ListingSize(a, paths);
    ListingSize(b, paths);
    forall p ensures p in a <==> p in b {
      assert p in a <==> p in paths;
    }
  }

  lemma {:induction false} ListingSize(a: seq<Bytes>, paths: set<Bytes>)
    requires Lists(a, paths)
    ensures |a| == |paths|
  {
    if a == [] {
      assert paths == {};
    } else {
      var n := |a| - 1;
      assert a[n] in paths;
      forall p | p in paths - {a[n]} ensures p in a[..n] { assert p in a; }
      ListingSize(a[..n], paths - {a[n]});
    }
  }

  lemma TagHolds(op: Tree.Op, paths: seq<Bytes>, event: Event)
    ensures event in Tag(op, paths) <==> event == Event([], op, event.path, []) && event.path in paths
  {
    if event == Event([], op, event.path, []) && event.path in paths {
      var i :| 0 <= i < |paths| && paths[i] == event.path;
      assert Tag(op, paths)[i] == event;
    }
  }

  /** The answer does not depend on the order of ranging over the maps: same events, as many of them. */
  lemma DiffUnique(old_: Scan, next: Scan, a: seq<Event>, b: seq<Event>)
    requires IsDiff(old_, next, a) && IsDiff(old_, next, b)
    ensures |a| == |b| && forall event :: event in a <==> event in b
  {
    hide Parts;
    var r1, d1, c1 :| Parts(old_, next, r1, d1, c1, a);
    var r2, d2, c2 :| Parts(old_, next, r2, d2, c2, b);
    PartsUnique(old_, next, r1, d1, c1, a, r2, d2, c2, b);
  }

  lemma PartsUnique(old_: Scan, next: Scan, r1: seq<Bytes>, d1: seq<Bytes>, c1: seq<Bytes>, a: seq<Event>,
                    r2: seq<Bytes>, d2: seq<Bytes>, c2: seq<Bytes>, b: seq<Event>)
    requires Parts(old_, next, r1, d1, c1, a) && Parts(old_, next, r2, d2, c2, b)
    ensures |a| == |b| && forall event :: event in a <==> event in b
  {
    hide Lists, Changed, Gone, Appeared, Tag, Renamed;
    SameListing(r1, r2, Changed(old_, next));
    SameListing(d1, d2, Gone(old_, next));
    SameListing(c1, c2, Appeared(old_, next));
    SameRenamed(old_, next, d1, c1, d2, c2);
    forall event ensures event in a <==> event in b {
      TagHolds(Tree.Replace, r1, event);
      TagHolds(Tree.Replace, r2, event);
      TagHolds(Tree.Delete, d1, event);
      TagHolds(Tree.Delete, d2, event);
      TagHolds(Tree.Create, c1, event);
      TagHolds(Tree.Create, c2, event);
    }
  }

  lemma SameRenamed(old_: Scan, next: Scan, d1: seq<Bytes>, c1: seq<Bytes>, d2: seq<Bytes>, c2: seq<Bytes>)
    requires |d1| == |d2| && |c1| == |c2| && (forall p :: p in d1 <==> p in d2) && (forall p :: p in c1 <==> p in c2)
    ensures Renamed(old_, next, d1, c1) <==> Renamed(old_, next, d2, c2)
    ensures Renamed(old_, next, d1, c1) ==> d1 == d2 && c1 == c2
  {
    if |d1| == 1 && |c1| == 1 {
      assert d1[0] in d2 && c1[0] in c2;
      assert d1 == d2 && c1 == c2;
    }
  }

  /** One file is gone, one has appeared, nothing else came or went, and both hold the same. */
  ghost predicate IsRename(old_: Scan, next: Scan, from: Bytes, to: Bytes) {
    && (forall p :: p in old_ && p !in next <==> p == from) && (forall p :: p !in old_ && p in next <==> p == to)
    && old_[from].File? && old_[from] == next[to]
  }

  /**
   A replacement for each file that holds something else, one move if all that came and went is a
   single file under a new name, and a deletion and a creation for each path that went and came
   otherwise.
   */
  ghost predicate Warranted(old_: Scan, next: Scan, event: Event) {
    var p := event.path;
    && event.cursor == []
    && match event.op
       case Replace =>
         event.from == [] && p in old_ && p in next && old_[p].File? && next[p].File? && old_[p] != next[p]
       case Move => IsRename(old_, next, event.from, p)
       case Delete => event.from == [] && p in old_ && p !in next && forall q :: !IsRename(old_, next, p, q)
       case Create => event.from == [] && p !in old_ && p in next && forall q :: !IsRename(old_, next, q, p)
       case OtherOp => false
  }

  /** Exactly the warranted events are reported. */
  lemma ReportsExactly(old_: Scan, next: Scan, events: seq<Event>, event: Event)
    requires IsDiff(old_, next, events)
    ensures event in events <==> Warranted(old_, next, event)
  {
    hide Parts, Warranted;
    var r, d, c :| Parts(old_, next, r, d, c, events);
    PartsReport(old_, next, r, d, c, events, event);
  }

  lemma RenamedIs(old_: Scan, next: Scan, d: seq<Bytes>, c: seq<Bytes>)
    requires Lists(d, Gone(old_, next)) && Lists(c, Appeared(old_, next))
    ensures Renamed(old_, next, d, c) ==> IsRename(old_, next, d[0], c[0])
    ensures forall p, q :: IsRename(old_, next, p, q) ==> Renamed(old_, next, d, c) && p == d[0] && q == c[0]
  {
    if Renamed(old_, next, d, c) {
      forall p
        ensures p in old_ && p !in next <==> p == d[0]
        ensures p !in old_ && p in next <==> p == c[0]
      {
        WhatIs(old_, next, p);
        assert (p in d <==> p == d[0]) && (p in c <==> p == c[0]);
      }
    }
    forall p, q | IsRename(old_, next, p, q)
      ensures Renamed(old_, next, d, c) && p == d[0] && q == c[0]
    {
      OnlyOne(d, Gone(old_, next), p);
      OnlyOne(c, Appeared(old_, next), q);
    }
  }

  lemma OnlyOne(s: seq<Bytes>, paths: set<Bytes>, p: Bytes)
    requires Lists(s, paths) && forall q :: q in paths <==> q == p
    ensures s == [p]
  {
    assert paths == {p} && p in s;
    ListingSize(s, paths);
  }

  lemma PartsReport(old_: Scan, next: Scan, r: seq<Bytes>, d: seq<Bytes>, c: seq<Bytes>, events: seq<Event>,
                    event: Event)
    requires Parts(old_, next, r, d, c, events)
    ensures event in events <==> Warranted(old_, next, event)
  {
    hide IsRename, Tag, Changed, Gone, Appeared;
    RenamedIs(old_, next, d, c);
    WhatIs(old_, next, event.path);
    Members(r, Changed(old_, next), event.path);
    Members(d, Gone(old_, next), event.path);
    Members(c, Appeared(old_, next), event.path);
    TagHolds(Tree.Replace, r, event);
    TagHolds(Tree.Delete, d, event);
    TagHolds(Tree.Create, c, event);
  }

  lemma Members(s: seq<Bytes>, paths: set<Bytes>, p: Bytes)
    requires Lists(s, paths)
    ensures p in s <==> p in paths
  {
  }

  ghost predicate TargetsDistinct(events: seq<Event>) {
    forall i, j :: 0 <= i < j < |events| ==> events[i].path != events[j].path
  }

  /** No path is the target of two events. */
  lemma OneEventAPath(old_: Scan, next: Scan, events: seq<Event>)
    requires IsDiff(old_, next, events)
    ensures TargetsDistinct(events)
  {
    hide Parts;
    var r, d, c :| Parts(old_, next, r, d, c, events);
    PartsDistinct(old_, next, r, d, c, events);
  }

  ghost predicate NoRepeat(s: seq<Bytes>) {
    forall i, j :: 0 <= i < j < |s| ==> s[i] != s[j]
  }

  lemma JoinedNoRepeat(a: seq<Bytes>, b: seq<Bytes>, x: set<Bytes>, y: set<Bytes>)
    requires NoRepeat(a) && NoRepeat(b) && x !! y
    requires (forall i :: 0 <= i < |a| ==> a[i] in x) && forall i :: 0 <= i < |b| ==> b[i] in y
    ensures NoRepeat(a + b) && forall i :: 0 <= i < |a + b| ==> (a + b)[i] in x + y
  {
  }

  lemma PartsDistinct(old_: Scan, next: Scan, r: seq<Bytes>, d: seq<Bytes>, c: seq<Bytes>, events: seq<Event>)
    requires Parts(old_, next, r, d, c, events)
    ensures TargetsDistinct(events)
  {
    var x, y, z := Changed(old_, next), Gone(old_, next), Appeared(old_, next);
    assert x !! y && x !! z && y !! z;
    hide Changed, Gone, Appeared, Renamed;
    JoinedNoRepeat(r, c, x, z);
    JoinedNoRepeat(r, d, x, y);
    JoinedNoRepeat(r + d, c, x + y, z);
    Targets(old_, next, r, d, c, events);
  }

  /** The paths the events name, in order. */
  lemma Targets(old_: Scan, next: Scan, r: seq<Bytes>, d: seq<Bytes>, c: seq<Bytes>, events: seq<Event>)
    requires events == Tag(Tree.Replace, r) + Tail(old_, next, d, c)
    requires NoRepeat(r + c) && NoRepeat(r + d + c)
    ensures TargetsDistinct(events)
  {
    var paths := if Renamed(old_, next, d, c) then r + c else r + d + c;
    assert |paths| == |events| && forall i :: 0 <= i < |events| ==> events[i].path == paths[i];
    assert NoRepeat(paths);
    hide Tag, Tail;
  }

  /** Nothing is reported exactly when nothing differs but the kind of some path. */
  lemma EmptyIff(old_: Scan, next: Scan, events: seq<Event>)
    requires IsDiff(old_, next, events)
    ensures events == [] <==> old_ == Followed(old_, next)
    ensures KindsStay(old_, next) ==> (events == [] <==> old_ == next)
  {
    ReplayFollows(old_, next, events);
    if KindsStay(old_, next) {
      ReplayGivesNextIff(old_, next, events);
    }
    hide Parts;
    var r, d, c :| Parts(old_, next, r, d, c, events);
    if old_ == Followed(old_, next) {
      NothingToReport(old_, next, r, d, c, events);
    }
  }

  lemma NothingToReport(old_: Scan, next: Scan, r: seq<Bytes>, d: seq<Bytes>, c: seq<Bytes>, events: seq<Event>)
    requires Parts(old_, next, r, d, c, events) && old_ == Followed(old_, next)
    ensures events == []
  {
    assert old_.Keys == next.Keys;
    assert Gone(old_, next) == {} && Appeared(old_, next) == {};
    forall p ensures p !in Changed(old_, next) {
      NotChanged(old_, next, p);
    }
    assert Changed(old_, next) == {};
    Empties(r);
    Empties(d);
    Empties(c);
  }

  lemma NotChanged(old_: Scan, next: Scan, p: Bytes)
    requires old_ == Followed(old_, next)
    ensures p !in Changed(old_, next)
  {
    assert p in old_ && p in next ==> Followed(old_, next)[p] == old_[p];
  }

  lemma Empties(s: seq<Bytes>)
    requires Lists(s, {})
    ensures s == []
  {
    ListingSize(s, {});
  }

  // ---------------------------------------------------------------- A tick cut short

  /** The path by which an event can be told not to have happened: where it came from, or what it names. */
  function Witness(event: Event): Bytes {
    if event.op == Tree.Move then event.from else event.path
  }

  predicate SameEntry(a: Scan, b: Scan, p: Bytes) {
    (p in a <==> p in b) && (p in a ==> a[p] == b[p])
  }

  lemma {:induction false} ReplayMisses(known: Scan, next: Scan, events: seq<Event>, p: Bytes)
    requires forall i :: 0 <= i < |events| ==>
             events[i].path != p && (events[i].op == Tree.Move ==> events[i].from != p)
    ensures SameEntry(known, Replay(known, next, events), p)
  {
    if events != [] {
      ReplayMisses(known, next, events[..|events| - 1], p);
    }
  }

  /** Every event of a diff changes its witness, and no earlier one does. */
  lemma WitnessDiffers(old_: Scan, next: Scan, r: seq<Bytes>, d: seq<Bytes>, c: seq<Bytes>, events: seq<Event>, n: nat)
    requires Parts(old_, next, r, d, c, events) && TargetsDistinct(events) && n < |events|
    ensures !SameEntry(old_, next, Witness(events[n]))
    ensures forall i :: 0 <= i < n ==> events[i].path != Witness(events[n]) && events[i].op != Tree.Move
  {
    hide TargetsDistinct;
    EventAt(old_, next, r, d, c, events, n);
    forall i | 0 <= i < n
      ensures events[i].path != Witness(events[n]) && events[i].op != Tree.Move
    {
      EventAt(old_, next, r, d, c, events, i);
      DistinctAt(events, i, n);
    }
  }

  lemma DistinctAt(events: seq<Event>, i: nat, j: nat)
    requires TargetsDistinct(events) && i < j < |events|
    ensures events[i].path != events[j].path
  {
  }

  /** What the event at a place of a diff is. */
  lemma EventAt(old_: Scan, next: Scan, r: seq<Bytes>, d: seq<Bytes>, c: seq<Bytes>, events: seq<Event>, n: nat)
    requires Parts(old_, next, r, d, c, events) && n < |events|
    ensures match events[n].op
            case Replace => n < |r| && events[n].path in next && !SameEntry(old_, next, events[n].path)
            case Move => n == |r| == |events| - 1 && events[n].from in old_ && events[n].from !in next
            case Delete => n >= |r| && events[n].path in old_ && events[n].path !in next
            case Create => n >= |r| && events[n].path !in old_ && events[n].path in next
            case OtherOp => false
  {
    hide Lists, Changed, Gone, Appeared, Renamed;
    if n < |r| {
      ListedIn(r, Changed(old_, next), n);
      WhatIs(old_, next, r[n]);
    } else if Renamed(old_, next, d, c) {
      AreOne(old_, next, d, c);
      ListedIn(d, Gone(old_, next), 0);
      WhatIs(old_, next, d[0]);
    } else if n < |r| + |d| {
      ListedIn(d, Gone(old_, next), n - |r|);
      WhatIs(old_, next, d[n - |r|]);
    } else {
      ListedIn(c, Appeared(old_, next), n - |r| - |d|);
      WhatIs(old_, next, c[n - |r| - |d|]);
    }
  }

  lemma AreOne(old_: Scan, next: Scan, d: seq<Bytes>, c: seq<Bytes>)
    requires Renamed(old_, next, d, c)
    ensures |d| == 1 && |c| == 1
  {
  }

  lemma ListedIn(s: seq<Bytes>, paths: set<Bytes>, i: nat)
    requires Lists(s, paths) && i < |s|
    ensures s[i] in paths
  {
  }

  /**
   A tick that stopped after its first n events, and a watch that resumes with nothing changed since:
   the watcher is in step again exactly when no event was left over.
   */
  lemma CutShort(old_: Scan, next: Scan, events: seq<Event>, n: nat)
    requires IsDiff(old_, next, events) && KindsStay(old_, next) && n <= |events|
    ensures Replay(old_, next, events[..n]) == next <==> n == |events|
  {
    hide Parts, Replay;
    if n == |events| {
      assert events[..n] == events;
      ReplayGivesNextIff(old_, next, events);
    } else {
      OneEventAPath(old_, next, events);
      var r, d, c :| Parts(old_, next, r, d, c, events);
      WitnessDiffers(old_, next, r, d, c, events, n);
      ReplayMisses(old_, next, events[..n], Witness(events[n]));
    }
  }

  /** Scanned paths being valid, so are the events: with the log's cursor a client accepts them. */
  lemma DiffValid(old_: Scan, next: Scan, events: seq<Event>, n: nat)
    requires IsDiff(old_, next, events) && n < |events|
    requires forall p :: p in old_ || p in next ==> ValidPath(p)
    ensures ValidChange(events[n])
  {
    hide Parts, ValidPath;
    var r, d, c :| Parts(old_, next, r, d, c, events);
    EventAt(old_, next, r, d, c, events, n);
    FromOnlyMoves(old_, next, r, d, c, events, n);
  }

  lemma FromOnlyMoves(old_: Scan, next: Scan, r: seq<Bytes>, d: seq<Bytes>, c: seq<Bytes>, events: seq<Event>, n: nat)
    requires Parts(old_, next, r, d, c, events) && n < |events|
    ensures events[n].op != Tree.Move ==> events[n].from == []
    ensures events[n].op == Tree.Move ==> events[n].path in next
  {
    hide Lists;
  }

  // --------------------------------------------------------------- Following paths

  /** The paths a watcher knows after one more event. */
  function PathStep(paths: set<Bytes>, event: Event): set<Bytes> {
    match event.op
    case Create => paths + {event.path}
    case Delete => paths - {event.path}
    case Move => paths - {event.from} + {event.path}
    case _ => paths
  }

  function PathReplay(paths: set<Bytes>, events: seq<Event>): set<Bytes> {
    if events == [] then paths else PathStep(PathReplay(paths, events[..|events| - 1]), events[|events| - 1])
  }

  lemma {:induction false} PathConcat(paths: set<Bytes>, a: seq<Event>, b: seq<Event>)
    ensures PathReplay(paths, a + b) == PathReplay(PathReplay(paths, a), b)
  {
    if b == [] {
      assert a + b == a;
    } else {
      var n := |b| - 1;
      PathConcat(paths, a, b[..n]);
      assert (a + b)[..|a + b| - 1] == a + b[..n];
    }
  }

  lemma {:induction false} PathTag(paths: set<Bytes>, op: Tree.Op, s: seq<Bytes>)
    requires op == Tree.Create || op == Tree.Delete || op == Tree.Replace
    ensures PathReplay(paths, Tag(op, s)) ==
            var named := set p | p in s;
            if op == Tree.Create then paths + named else if op == Tree.Delete then paths - named else paths
  {
    if s != [] {
      var n := |s| - 1;
      PathTag(paths, op, s[..n]);
      TagSnoc(op, s[..n], s[n]);
      assert s[..n] + [s[n]] == s;
      assert (Tag(op, s[..n]) + [Event([], op, s[n], [])])[..n] == Tag(op, s[..n]);
      assert (set p | p in s) == (set p | p in s[..n]) + {s[n]};
    }
  }

  /** The events of a diff carry the old paths to the new paths, whatever changed kind. */
  lemma DiffPaths(old_: Scan, next: Scan, events: seq<Event>)
    requires IsDiff(old_, next, events)
    ensures PathReplay(old_.Keys, events) == next.Keys
  {
    hide Parts;
    var r, d, c :| Parts(old_, next, r, d, c, events);
    PartsPaths(old_, next, r, d, c, events);
  }

  lemma PartsPaths(old_: Scan, next: Scan, r: seq<Bytes>, d: seq<Bytes>, c: seq<Bytes>, events: seq<Event>)
    requires Parts(old_, next, r, d, c, events)
    ensures PathReplay(old_.Keys, events) == next.Keys
  {
    hide Changed, Tag, PathReplay;
    PathConcat(old_.Keys, Tag(Tree.Replace, r), Tail(old_, next, d, c));
    PathTag(old_.Keys, Tree.Replace, r);
    assert (set p | p in d) == Gone(old_, next) && (set p | p in c) == Appeared(old_, next);
    if Renamed(old_, next, d, c) {
      PathOne(old_.Keys, Tail(old_, next, d, c)[0]);
      assert d == [d[0]] && c == [c[0]];
      assert Gone(old_, next) == {d[0]} && Appeared(old_, next) == {c[0]};
    } else {
      PathConcat(old_.Keys, Tag(Tree.Delete, d), Tag(Tree.Create, c));
      PathTag(old_.Keys, Tree.Delete, d);
      PathTag(old_.Keys - Gone(old_, next), Tree.Create, c);
    }
  }

  lemma PathOne(paths: set<Bytes>, event: Event)
    ensures PathReplay(paths, [event]) == PathStep(paths, event)
  {
    assert [event][..0] == [];
    assert PathReplay(paths, []) == paths;
  }

  // ----------------------------------------------------------------------- Polling

  /** Same event up to the cursor the log gave it. */
  predicate SameChange(a: Event, b: Event) {
    a.(cursor := []) == b.(cursor := [])
  }

  predicate SameChanges(a: seq<Event>, b: seq<Event>) {
    |a| == |b| && forall i :: 0 <= i < |a| ==> SameChange(a[i], b[i])
  }

  lemma {:induction false} PathsIgnoreCursors(paths: set<Bytes>, a: seq<Event>, b: seq<Event>)
    requires SameChanges(a, b)
    ensures PathReplay(paths, a) == PathReplay(paths, b)
  {
    if a != [] {
      var n := |a| - 1;
      PathsIgnoreCursors(paths, a[..n], b[..n]);
      assert SameChange(a[n], b[n]);
    }
  }

  lemma NoneReplayed(known: Scan, next: Scan, events: seq<Event>)
    ensures Replay(known, next, events[..0]) == known
  {
  }

  lemma OneReplayed(known: Scan, next: Scan, events: seq<Event>, i: nat)
    requires i < |events|
    ensures Replay(known, next, events[..i + 1]) == Step(Replay(known, next, events[..i]), next, events[i])
  {
    hide Step;
    assert events[..i + 1][..i] == events[..i];
  }

  /** The watching half of the agent server: the last scan, the log, and whether anyone listens. */
  class Poller {
    var snap: Scan
    const log: Log
    var polling: bool
    var watching: bool
    /** The paths of the last scan that was taken without events, and where the history then stood. */
    ghost var base: set<Bytes>
    ghost var mark: nat
    /** What a watcher knows who started from this generation's first scan and has followed every recorded event. */
    ghost var seen: Scan
    ghost var started: bool

    /** What was recorded since accounts for every path that has come or gone. */
    ghost predicate Valid()
      reads this, log
    {
      && log.Valid()
      && (polling ==> started && mark <= |log.history| && PathReplay(base, log.history[mark..]) == snap.Keys)
    }

    /** A watcher that resumes here misses nothing: the next events start from what it knows. */
    ghost predicate InStep()
      reads this
    {
      snap == seen
    }

    constructor (log: Log)
      requires log.Valid()
      ensures Valid() && this.log == log && !polling && !watching && !started
    {
      this.log := log;
      snap, polling, watching, started := map[], false, false, false;
    }

    /** resetSnap: a scan taken over without events. */
    method ResetSnap(scan: Scan)
      requires Valid()
      modifies this
      ensures Valid() && snap == scan && polling == old(polling) && watching == old(watching)
      ensures base == scan.Keys && mark == |log.history|
      ensures seen == old(seen) && started == old(started) && (InStep() <==> scan == old(seen))
    {
      snap, base, mark := scan, scan.Keys, |log.history|;
      assert log.history[mark..] == [];
    }

    /**
     The start of a watch: polling begins from a scan of its own if it was not running. A watcher
     that resumes then misses nothing exactly when that scan is what it already knows.
     */
    method StartWatch(scan: Scan)
      requires Valid()
      modifies this
      ensures Valid() && polling && watching
      ensures snap == if old(polling) then old(snap) else scan
      ensures base == if old(polling) then old(base) else scan.Keys
      ensures mark == if old(polling) then old(mark) else |log.history|
      ensures started && seen == if old(started) then old(seen) else scan
      ensures old(polling) ==> (InStep() <==> old(InStep()))
      ensures !old(polling) && old(started) ==> (InStep() <==> scan == old(seen))
    {
      watching := true;
      if !polling {
        if !started {
          seen, started := scan, true;
        }
        ResetSnap(scan);
        polling := true;
        assert log.history[mark..] == [];
      }
    }

    /**
     One tick. At most 64 differences become events: all are logged and the scan is taken over,
     unless sending one of them fails, which ends polling there: what was not logged by then never
     is. More than 64 start a new generation.
     */
    method DiffOnce(next: Scan, generation: Bytes) returns (sent: seq<Event>)
      requires Valid() && EpochOk(generation) && log.next + WATCH_BUFFER < UINT64
      modifies this, log
      ensures Valid()
      ensures !old(polling) ==> sent == [] && snap == old(snap) && log.history == old(log.history) && !polling
      ensures old(polling) && polling ==> snap == next
      ensures started == old(started) && (!old(polling) ==> seen == old(seen))
      ensures old(polling) ==> exists events ::
                && IsDiff(old(snap), next, events)
                && if |events| > WATCH_BUFFER
                   then && polling && !watching && sent == [] && log.history == [] && log.epoch == generation
                        && InStep() && snap == next
                   else exists n ::
                     && Recorded(old(log.history), log.history, events, n)
                     && seen == Replay(old(seen), next, events[..n])
                     && (polling ==> n == |events| && watching == old(watching))
                     && (if old(watching) then sent <= log.history[|old(log.history)|..] else sent == [])
                     && (polling && watching ==> sent == log.history[|old(log.history)|..])
    {
      hide IsDiff, PathReplay, Replay, Window, Recorded, MakeCursor;
      sent := [];
      if !polling {
        return;
      }
      var events := DiffSnap(snap, next);
      if |events| > WATCH_BUFFER {
        watching := false;
        log.ResetTo(generation);
        snap, base, mark, seen := next, next.Keys, 0, next;
        assert PathReplay(base, []) == base by { NoEvents(base); }
        assert log.history[mark..] == [];
        return;
      }
      ghost var before := log.history;
      ghost var n;
      sent, n := Announce(events, next);
      if !polling {
        return;
      }
      Advance(old(snap), next, events, before, log.history, base, mark);
      snap := next;
    }

    /** The loop of diffOnce: log each event and send it to whoever watches, until a send fails. */
    method Announce(events: seq<Event>, ghost next: Scan) returns (sent: seq<Event>, ghost n: nat)
      requires log.Valid() && polling && log.next + |events| < UINT64
      modifies this, log
      ensures log.Valid() && |log.history| >= |old(log.history)|
      ensures snap == old(snap) && base == old(base) && mark == old(mark) && started == old(started)
      ensures Recorded(old(log.history), log.history, events, n)
      ensures seen == Replay(old(seen), next, events[..n])
      ensures polling ==> n == |events| && watching == old(watching)
      ensures if old(watching) then sent <= log.history[|old(log.history)|..] else sent == []
      ensures polling && watching ==> sent == log.history[|old(log.history)|..]
    {
      hide Replay, Window, Recorded, MakeCursor;
      sent, n := [], 0;
      ghost var before := log.history;
      NoneRecorded(before, events);
      NoneReplayed(seen, next, events);
      for i := 0 to |events|
        invariant log.Valid() && log.next <= old(log.next) + i
        invariant polling && watching == old(watching)
        invariant snap == old(snap) && base == old(base) && mark == old(mark) && started == old(started)
        invariant n == i && seen == Replay(old(seen), next, events[..i])
        invariant Recorded(before, log.history, events, i) && |before| <= |log.history|
        invariant sent == if watching then log.history[|before|..] else []
      {
        ghost var was := log.history;
        var stamped := log.AppendEvent(events[i]);
        OneRecorded(before, was, events, i, stamped);
        OneReplayed(old(seen), next, events, i);
        seen, n := Step(seen, next, events[i]), i + 1;
        if watching {
          var failed: bool := *;
          if failed {
            watching, polling := false, false;
            return;
          }
          sent := sent + [stamped];
        }
      }
    }
  }

  /** The history has grown by the first n of the events, up to their cursors. */
  ghost predicate Recorded(before: seq<Event>, history: seq<Event>, events: seq<Event>, n: nat) {
    && n <= |events| && |history| == |before| + n && before == history[..|before|]
    && SameChanges(history[|before|..], events[..n])
  }

  lemma NoneRecorded(before: seq<Event>, events: seq<Event>)
    ensures Recorded(before, before, events, 0) && before[|before|..] == []
  {
  }

  lemma OneRecorded(before: seq<Event>, history: seq<Event>, events: seq<Event>, n: nat, stamped: Event)
    requires Recorded(before, history, events, n) && n < |events| && SameChange(stamped, events[n])
    ensures Recorded(before, history + [stamped], events, n + 1)
    ensures (history + [stamped])[|before|..] == history[|before|..] + [stamped]
  {
  }

  lemma NoEvents(paths: set<Bytes>)
    ensures PathReplay(paths, []) == paths
  {
  }

  lemma AllRecorded(before: seq<Event>, after: seq<Event>, events: seq<Event>, mark: nat)
    requires Recorded(before, after, events, |events|) && mark <= |before|
    ensures |before| <= |after| && SameChanges(after[|before|..], events)
    ensures after[mark..] == before[mark..] + after[|before|..]
  {
    assert events[..|events|] == events;
    hide SameChanges;
    Rejoin(before, after, mark);
  }

  lemma Rejoin(before: seq<Event>, after: seq<Event>, mark: nat)
    requires mark <= |before| <= |after| && before == after[..|before|]
    ensures after[mark..] == before[mark..] + after[|before|..]
  {
  }

  lemma Advance(snap: Scan, next: Scan, events: seq<Event>, before: seq<Event>, after: seq<Event>, base: set<Bytes>,
                mark: nat)
    requires mark <= |before| && PathReplay(base, before[mark..]) == snap.Keys
    requires IsDiff(snap, next, events) && Recorded(before, after, events, |events|) && |before| <= |after|
    ensures mark <= |after| && PathReplay(base, after[mark..]) == next.Keys
  {
    hide IsDiff, PathReplay, Recorded, SameChanges;
    var added := after[|before|..];
    AllRecorded(before, after, events, mark);
    DiffPaths(snap, next, events);
    PathsIgnoreCursors(snap.Keys, added, events);
    PathConcat(base, before[mark..], added);
  }
}
