/**
 The projected snapshot and its two transitions, ReplaceTree and Apply (internal/tree/tree.go).
 */
module Tree {
  import opened Common
  import opened Paths

  datatype Kind = FileKind | DirectoryKind | OtherKind

  /** One path of a snapshot. */
  datatype Node = Node(kind: Kind, version: Bytes, data: Bytes)

  type Snapshot = map<Bytes, Node>

  /** One path of the caller's tree; no data means "keep the body you already have". */
  datatype Item = Item(path: Bytes, kind: Kind, version: Bytes, data: Option<Bytes>)

  datatype Op = Create | Replace | Move | Delete | OtherOp

  datatype Mutation = Mutation(op: Op, path: Bytes, from: Bytes, kind: Kind,
                               version: Bytes, expected: Bytes, data: Option<Bytes>)

  /** A snapshot together with the body bytes the current request has transferred. */
  datatype Progress = Progress(snapshot: Snapshot, total: nat)

  const DIRECTORY := Node(DirectoryKind, [], [])

  // ------------------------------------------------------------------ Replace

  function ResolveBody(current: Snapshot, item: Item): (r: Result<Bytes, Error>) {
    match item.data
    case Some(body) => Success(body)
    case None =>
      if item.path !in current || current[item.path].kind != FileKind
         || current[item.path].version == [] || current[item.path].version != item.version
      then Failure(Invalid)
      else Success(current[item.path].data)
  }

  function ReplaceItem(current: Snapshot, item: Item, soFar: Progress): (r: Result<Progress, Error>) {
    if !ValidPath(item.path) then Failure(Invalid)
    else if item.path in soFar.snapshot then Failure(Invalid)
    else match item.kind
      case DirectoryKind =>
        if item.version != [] || item.data.Some? then Failure(Invalid)
        else Success(Progress(soFar.snapshot[item.path := DIRECTORY], soFar.total))
      case FileKind =>
        (match ResolveBody(current, item)
         case Failure(e) => Failure(e)
         case Success(body) =>
           var total := soFar.total + |body|;
           if |body| > MAX_FILE_BYTES || total > MAX_TREE_BYTES then Failure(TooLarge)
           else Success(Progress(soFar.snapshot[item.path := Node(FileKind, item.version, body)], total)))
      case OtherKind => Failure(Invalid)
  }

  function ReplaceItems(current: Snapshot, items: seq<Item>): Result<Progress, Error> {
    if items == [] then Success(Progress(map[], 0))
    else
      match ReplaceItems(current, items[..|items| - 1])
      case Failure(e) => Failure(e)
      case Success(p) => ReplaceItem(current, items[|items| - 1], p)
  }

  function ReplaceTree(current: Snapshot, items: seq<Item>): (r: Result<Snapshot, Error>) {
    if |items| > MAX_TREE_ENTRIES then Failure(TooLarge)
    else
      match ReplaceItems(current, items)
      case Failure(e) => Failure(e)
      case Success(p) => Success(p.snapshot)
  }

  /** The loop of Replace: seen, next and total grow together until the first bad item. */
  method ReplaceLoop(current: Snapshot, items: seq<Item>) returns (r: Result<Snapshot, Error>)
    ensures r == ReplaceTree(current, items)
  {
    hide ValidPath, ReplaceItems, ResolveBody;
    if |items| > MAX_TREE_ENTRIES {
      return Failure(TooLarge);
    }
    NoItems(current, items);
    var total := 0;
    var seen: set<Bytes> := {};
    var next: Snapshot := map[];
    for i := 0 to |items|
      invariant seen == next.Keys
      invariant total >= 0
      invariant ReplaceItems(current, items[..i]) == Success(Progress(next, total))
    {
      var item := items[i];
      OneMoreItem(current, items, i);
      if !ValidPath(item.path) || item.path in seen {
        FailurePersists(current, items, i + 1);
        return Failure(Invalid);
      }
      seen := seen + {item.path};
      match item.kind {
        case DirectoryKind =>
          if item.version != [] || item.data.Some? {
            FailurePersists(current, items, i + 1);
            return Failure(Invalid);
          }
          next := next[item.path := DIRECTORY];
        case FileKind =>
          var body := ResolveBody(current, item);
          if body.Failure? {
            FailurePersists(current, items, i + 1);
            return Failure(body.error);
          }
          total := total + |body.value|;
          if |body.value| > MAX_FILE_BYTES || total > MAX_TREE_BYTES {
            FailurePersists(current, items, i + 1);
            return Failure(TooLarge);
          }
          next := next[item.path := Node(FileKind, item.version, body.value)];
        case OtherKind =>
          FailurePersists(current, items, i + 1);
          return Failure(Invalid);
      }
    }
    assert items[..|items|] == items;
    return Success(next);
  }

  lemma NoItems(current: Snapshot, items: seq<Item>)
    ensures ReplaceItems(current, items[..0]) == Success(Progress(map[], 0))
  {
  }

  lemma OneMoreItem(current: Snapshot, items: seq<Item>, i: nat)
    requires i < |items| && ReplaceItems(current, items[..i]).Success?
    ensures ReplaceItems(current, items[..i + 1]) ==
            ReplaceItem(current, items[i], ReplaceItems(current, items[..i]).value)
  {
    assert items[..i + 1][..i] == items[..i];
  }

  lemma {:induction false} FailurePersists(current: Snapshot, items: seq<Item>, i: nat)
    requires i <= |items| && ReplaceItems(current, items[..i]).Failure?
    ensures ReplaceItems(current, items) == ReplaceItems(current, items[..i])
  {
    if i == |items| {
      assert items[..i] == items;
    } else {
      assert items[..|items| - 1][..i] == items[..i];
      FailurePersists(current, items[..|items| - 1], i);
    }
  }

  /** The item is in itself in order: only its size may be wrong. */
  predicate Backed(current: Snapshot, item: Item) {
    match item.kind
    case DirectoryKind => item.version == [] && item.data.None?
    case FileKind =>
      item.data.Some?
      || (item.path in current && current[item.path].kind == FileKind
          && current[item.path].version == item.version != [])
    case OtherKind => false
  }

  /**
   Too many items are too large; otherwise the first one that cannot be taken decides the error: too
   large if only its size is wrong, invalid if anything else is.
   */
  lemma ReplaceRefuses(current: Snapshot, items: seq<Item>, k: nat)
    requires k < |items|
    requires ReplaceItems(current, items[..k]).Success? && ReplaceItems(current, items[..k + 1]).Failure?
    ensures ReplaceTree(current, items) ==
            Failure(if |items| > MAX_TREE_ENTRIES then TooLarge
                    else if ValidPath(items[k].path) && (forall j :: 0 <= j < k ==> items[j].path != items[k].path)
                            && Backed(current, items[k]) then TooLarge else Invalid)
  {
    hide ValidPath;
    FailurePersists(current, items, k + 1);
    ReplaceHolds(current, items[..k]);
    assert items[..k + 1][..k] == items[..k];
    hide ReplaceItems;
    assert items[k].path in Listed(items[..k]) <==> exists j :: 0 <= j < k && items[j].path == items[k].path by {
      forall j | 0 <= j < k && items[j].path == items[k].path
        ensures items[..k][j].path in Listed(items[..k])
      {
      }
    }
  }

  // ------------------------------------------- What Replace accepts, order-free

  /**
   A file comes with a body, or names a stored file of exactly its own version, whose body is kept;
   a directory comes with neither version nor body.
   */
  predicate ItemOk(current: Snapshot, item: Item) {
    && ValidPath(item.path)
    && match item.kind
       case DirectoryKind => item.version == [] && item.data.None?
       case FileKind =>
         (match item.data
          case Some(body) => |body| <= MAX_FILE_BYTES
          case None =>
            && item.path in current && current[item.path].kind == FileKind
            && current[item.path].version == item.version != [] && |current[item.path].data| <= MAX_FILE_BYTES)
       case OtherKind => false
  }

  function NodeOf(current: Snapshot, item: Item): Node
    requires ItemOk(current, item)
  {
    if item.kind == DirectoryKind then DIRECTORY
    else
      match item.data
      case Some(body) => Node(FileKind, item.version, body)
      case None => current[item.path]
  }

  function BodySize(current: Snapshot, item: Item): nat {
    if item.kind != FileKind then 0
    else
      match item.data
      case Some(body) => |body|
      case None => if item.path in current then |current[item.path].data| else 0
  }

  function TreeBytes(current: Snapshot, items: seq<Item>): nat {
    if items == [] then 0
    else TreeBytes(current, items[..|items| - 1]) + BodySize(current, items[|items| - 1])
  }

  function Listed(items: seq<Item>): set<Bytes> {
    set i | 0 <= i < |items| :: items[i].path
  }

  ghost predicate Listable(current: Snapshot, items: seq<Item>) {
    && (forall item :: item in items ==> ItemOk(current, item))
    && |Listed(items)| == |items|
  }

  ghost predicate Distinct(items: seq<Item>) {
    forall i, j :: 0 <= i < j < |items| ==> items[i].path != items[j].path
  }

  lemma ListedAppend(init: seq<Item>, last: Item)
    ensures Listed(init + [last]) == Listed(init) + {last.path}
    ensures Distinct(init + [last]) <==> Distinct(init) && last.path !in Listed(init)
  {
    var items := init + [last];
    assert forall i :: 0 <= i < |init| ==> items[i] == init[i];
    assert items[|init|] == last;
    if Distinct(items) {
      assert forall i, j :: 0 <= i < j < |init| ==> items[i].path != items[j].path;
    }
  }

  lemma NothingListed()
    ensures Listed([]) == {} && Distinct([])
  {
  }

  /** A tree lists no path twice exactly when it names as many paths as it has entries. */
  lemma {:induction false} ListedCount(items: seq<Item>)
    ensures |Listed(items)| <= |items|
    ensures |Listed(items)| == |items| <==> Distinct(items)
  {
    hide Listed, Distinct;
    if items == [] {
      NothingListed();
    } else {
      var n := |items| - 1;
      ListedCount(items[..n]);
      ListedAppend(items[..n], items[n]);
      assert items == items[..n] + [items[n]];
      if items[n].path in Listed(items[..n]) {
        assert Listed(items) == Listed(items[..n]);
      }
    }
  }

  lemma ReplaceItemAccepts(current: Snapshot, item: Item, p: Progress)
    requires p.total <= MAX_TREE_BYTES
    ensures ReplaceItem(current, item, p).Success? <==>
              && ItemOk(current, item) && item.path !in p.snapshot
              && p.total + BodySize(current, item) <= MAX_TREE_BYTES
    ensures ReplaceItem(current, item, p).Success? ==>
              ReplaceItem(current, item, p).value ==
              Progress(p.snapshot[item.path := NodeOf(current, item)], p.total + BodySize(current, item))
  {
    hide ValidPath;
  }

  lemma ListableAppend(current: Snapshot, init: seq<Item>, last: Item)
    ensures Listable(current, init + [last]) <==>
              Listable(current, init) && ItemOk(current, last) && last.path !in Listed(init)
  {
    hide ItemOk, Listed, Distinct;
    var items := init + [last];
    assert forall item :: item in items <==> item in init || item == last;
    ListedAppend(init, last);
    ListedCount(init);
    ListedCount(items);
  }

  /** On success the snapshot holds exactly the listed paths, each with its listed node. */
  lemma {:induction false} ReplaceHolds(current: Snapshot, items: seq<Item>)
    requires ReplaceItems(current, items).Success?
    ensures ReplaceItems(current, items).value.total <= MAX_TREE_BYTES
    ensures ReplaceItems(current, items).value.snapshot.Keys == Listed(items)
    ensures forall i :: 0 <= i < |items| ==>
              ItemOk(current, items[i]) &&
              ReplaceItems(current, items).value.snapshot[items[i].path] == NodeOf(current, items[i])
  {
    hide ItemOk, ReplaceItem, NodeOf, BodySize, Distinct;
    if items != [] {
      var n := |items| - 1;
      var init, last := items[..n], items[n];
      ReplaceHolds(current, init);
      assert items == init + [last];
      var p := ReplaceItems(current, init).value;
      ReplaceItemAccepts(current, last, p);
      ListedAppend(init, last);
      assert ReplaceItems(current, items).value.snapshot == p.snapshot[last.path := NodeOf(current, last)];
      hide ReplaceItems;
      forall i | 0 <= i < n
        ensures items[i].path != last.path && items[i] == init[i]
      {
        assert init[i].path in Listed(init);
      }
    }
  }

  /**
   Replace, free of its scanning order: it accepts exactly the trees whose entries are all
   acceptable, pairwise distinct and together within the byte cap.
   */
  lemma {:induction false} ReplaceAccepts(current: Snapshot, items: seq<Item>)
    ensures ReplaceItems(current, items).Success? <==>
              Listable(current, items) && TreeBytes(current, items) <= MAX_TREE_BYTES
    ensures ReplaceItems(current, items).Success? ==>
              ReplaceItems(current, items).value.total == TreeBytes(current, items)
  {
    hide ItemOk, ReplaceItem, NodeOf, BodySize, Listed;
    if items == [] {
      NothingListed();
    } else {
      var n := |items| - 1;
      var init, last := items[..n], items[n];
      ReplaceAccepts(current, init);
      assert items == init + [last];
      ListableAppend(current, init, last);
      if ReplaceItems(current, init).Success? {
        ReplaceHolds(current, init);
        ReplaceItemAccepts(current, last, ReplaceItems(current, init).value);
      }
    }
  }

  // -------------------------------------------------- Independence of the order

  lemma {:induction false} TreeBytesWithout(current: Snapshot, items: seq<Item>, k: nat)
    requires k < |items|
    ensures TreeBytes(current, items) ==
            TreeBytes(current, items[..k] + items[k + 1..]) + BodySize(current, items[k])
  {
    hide BodySize;
    var n := |items| - 1;
    var rest := items[..k] + items[k + 1..];
    if k == n {
      assert rest == items[..n];
    } else {
      var shorter := items[..n];
      TreeBytesWithout(current, shorter, k);
      var less := shorter[..k] + shorter[k + 1..];
      assert less == rest[..n - 1];
      assert rest[n - 1] == items[n];
      assert TreeBytes(current, rest) == TreeBytes(current, less) + BodySize(current, items[n]);
    }
  }

  lemma MultisetWithout<T>(s: seq<T>, k: nat)
    requires k < |s|
    ensures multiset(s[..k] + s[k + 1..]) + multiset{s[k]} == multiset(s)
  {
    assert s == s[..k] + [s[k]] + s[k + 1..];
  }

  lemma PermutedRest<T>(a: seq<T>, b: seq<T>, k: nat)
    requires multiset(a) == multiset(b) && a != [] && k < |b| && b[k] == a[|a| - 1]
    ensures multiset(a[..|a| - 1]) == multiset(b[..k] + b[k + 1..])
  {
    MultisetWithout(b, k);
    MultisetWithout(a, |a| - 1);
    assert a[..|a| - 1] + a[|a| - 1 + 1..] == a[..|a| - 1];
    assert multiset(b[..k] + b[k + 1..]) == multiset(b) - multiset{b[k]};
    assert multiset(a[..|a| - 1]) == multiset(a) - multiset{a[|a| - 1]};
  }

  lemma {:induction false} TreeBytesPermuted(current: Snapshot, a: seq<Item>, b: seq<Item>)
    requires multiset(a) == multiset(b)
    ensures TreeBytes(current, a) == TreeBytes(current, b)
    decreases |a|
  {
    hide BodySize;
    assert |a| == |multiset(a)| == |multiset(b)| == |b|;
    if a != [] {
      var n := |a| - 1;
      assert a[n] in multiset(b);
      var k :| 0 <= k < |b| && b[k] == a[n];
      var rest := b[..k] + b[k + 1..];
      PermutedRest(a, b, k);
      TreeBytesPermuted(current, a[..n], rest);
      TreeBytesWithout(current, b, k);
    }
  }

  lemma SameEntries(a: seq<Item>, b: seq<Item>)
    requires multiset(a) == multiset(b)
    ensures |a| == |b|
    ensures forall item :: item in a <==> item in b
    ensures Listed(a) == Listed(b)
  {
    assert |a| == |multiset(a)| == |multiset(b)| == |b|;
    forall item
      ensures item in a <==> item in b
    {
      assert item in a <==> item in multiset(a);
      assert item in b <==> item in multiset(b);
    }
    forall p | p in Listed(a)
      ensures p in Listed(b)
    {
      var i :| 0 <= i < |a| && a[i].path == p;
      assert a[i] in b;
    }
    forall p | p in Listed(b)
      ensures p in Listed(a)
    {
      var i :| 0 <= i < |b| && b[i].path == p;
      assert b[i] in a;
    }
  }

  /** Reordering the caller's tree changes neither whether Replace succeeds nor what it yields. */
  lemma ReplaceIgnoresOrder(current: Snapshot, a: seq<Item>, b: seq<Item>)
    requires multiset(a) == multiset(b)
    ensures ReplaceTree(current, a).Success? <==> ReplaceTree(current, b).Success?
    ensures ReplaceTree(current, a).Success? ==> ReplaceTree(current, a) == ReplaceTree(current, b)
  {
    hide ItemOk, NodeOf, ReplaceItems, TreeBytes;
    SameEntries(a, b);
    TreeBytesPermuted(current, a, b);
    ReplaceAccepts(current, a);
    ReplaceAccepts(current, b);
    if ReplaceTree(current, a).Success? {
      ReplaceHolds(current, a);
      ReplaceHolds(current, b);
      var ra, rb := ReplaceTree(current, a).value, ReplaceTree(current, b).value;
      forall p | p in ra
        ensures p in rb && ra[p] == rb[p]
      {
        var i :| 0 <= i < |a| && a[i].path == p;
        assert a[i] in b;
        var j :| 0 <= j < |b| && b[j] == a[i];
      }
      assert ra == rb;
    }
  }

  // ---------------------------------------------------------- Sum of the bodies

  /** Bytes held by a snapshot. */
  ghost function Stored(s: Snapshot): nat {
    if s == map[] then 0
    else
      var p :| p in s;
      |s[p].data| + Stored(s - {p})
  }

  lemma {:induction false} StoredWithout(s: Snapshot, p: Bytes)
    requires p in s
    ensures Stored(s) == |s[p].data| + Stored(s - {p})
    decreases |s|
  {
    var q :| q in s && Stored(s) == |s[q].data| + Stored(s - {q});
    if p != q {
      StoredWithout(s - {q}, p);
      StoredWithout(s - {p}, q);
      assert s - {q} - {p} == s - {p} - {q};
    }
  }

  lemma StoredWith(s: Snapshot, p: Bytes, n: Node)
    ensures Stored(s[p := n]) + (if p in s then |s[p].data| else 0) == Stored(s) + |n.data|
  {
    StoredWithout(s[p := n], p);
    assert s[p := n] - {p} == s - {p};
    if p in s {
      StoredWithout(s, p);
    } else {
      assert s - {p} == s;
    }
  }

  // ------------------------------------------------------------------ Skeletons

  /** What every snapshot built by Replace and Apply looks like. */
  ghost predicate WellFormed(s: Snapshot) {
    forall p :: p in s ==>
      && ValidPath(p)
      && (s[p].kind == FileKind || s[p] == DIRECTORY)
  }

  function Bare(p: Bytes, n: Node): Item {
    Item(p, n.kind, n.version, None)
  }

  /** items lists every path of s once, with its version and without its body. */
  ghost predicate IsSkeleton(s: Snapshot, items: seq<Item>) {
    && Listed(items) == s.Keys
    && Distinct(items)
    && forall i :: 0 <= i < |items| ==> items[i].path in s && items[i] == Bare(items[i].path, s[items[i].path])
  }

  ghost predicate Resendable(s: Snapshot) {
    && |s| <= MAX_TREE_ENTRIES
    && Stored(s) <= MAX_TREE_BYTES
    && forall p :: p in s && s[p].kind == FileKind ==> s[p].version != [] && |s[p].data| <= MAX_FILE_BYTES
  }

  lemma SkeletonInit(s: Snapshot, items: seq<Item>)
    requires IsSkeleton(s, items) && items != []
    ensures items[|items| - 1].path in s
    ensures IsSkeleton(s - {items[|items| - 1].path}, items[..|items| - 1])
  {
    var n := |items| - 1;
    var init, p := items[..n], items[n].path;
    assert forall i :: 0 <= i < n ==> init[i] == items[i];
    assert items == init + [items[n]];
    assert Listed(items) == Listed(init) + {p};
    assert p !in Listed(init);
    assert Listed(init) == (s - {p}).Keys;
  }

  lemma {:induction false} SkeletonBytes(s: Snapshot, part: Snapshot, items: seq<Item>)
    requires IsSkeleton(part, items) && WellFormed(s)
    requires forall p :: p in part ==> p in s && s[p] == part[p]
    requires forall p :: p in part && part[p].kind == FileKind ==> part[p].version != []
    ensures TreeBytes(s, items) == Stored(part)
    decreases |items|
  {
    hide ValidPath;
    if items == [] {
      assert part.Keys == {};
      assert part == map[];
    } else {
      var n := |items| - 1;
      var p := items[n].path;
      SkeletonInit(part, items);
      SkeletonBytes(s, part - {p}, items[..n]);
      StoredWithout(part, p);
      assert items[n] == Bare(p, s[p]);
      assert BodySize(s, items[n]) == |s[p].data|;
    }
  }

  lemma SkeletonLists(s: Snapshot, items: seq<Item>, p: Bytes) returns (i: nat)
    requires IsSkeleton(s, items) && p in s
    ensures i < |items| && items[i] == Bare(p, s[p])
  {
    assert p in Listed(items);
    i :| 0 <= i < |items| && items[i].path == p;
  }

  lemma SkeletonYieldsItself(s: Snapshot, items: seq<Item>)
    requires WellFormed(s) && IsSkeleton(s, items) && ReplaceTree(s, items).Success?
    ensures ReplaceTree(s, items).value == s
    ensures forall p :: p in s && s[p].kind == FileKind ==> s[p].version != [] && |s[p].data| <= MAX_FILE_BYTES
  {
    hide ValidPath;
    ReplaceHolds(s, items);
    var r := ReplaceTree(s, items).value;
    forall p | p in s
      ensures p in r && r[p] == s[p]
      ensures s[p].kind == FileKind ==> s[p].version != [] && |s[p].data| <= MAX_FILE_BYTES
    {
      var i := SkeletonLists(s, items, p);
    }
  }

  lemma SkeletonListable(s: Snapshot, items: seq<Item>)
    requires WellFormed(s) && IsSkeleton(s, items)
    requires forall p :: p in s && s[p].kind == FileKind ==> s[p].version != [] && |s[p].data| <= MAX_FILE_BYTES
    ensures Listable(s, items)
  {
    hide ValidPath;
    ListedCount(items);
    forall item | item in items
      ensures ItemOk(s, item)
    {
      assert item == Bare(item.path, s[item.path]);
    }
  }

  /**
   Sending a snapshot back without its bodies, in any order, gives the same snapshot again exactly
   when every file carries a version and the snapshot is within the caps; otherwise it is refused.
   */
  lemma SkeletonRestores(s: Snapshot, items: seq<Item>)
    requires WellFormed(s) && IsSkeleton(s, items)
    ensures ReplaceTree(s, items) == Success(s) <==> Resendable(s)
    ensures ReplaceTree(s, items).Success? <==> Resendable(s)
  {
    hide ItemOk, Listable, ReplaceItems, TreeBytes, Listed, Distinct, WellFormed;
    ReplaceAccepts(s, items);
    ListedCount(items);
    assert |Listed(items)| == |s.Keys| == |s| == |items|;
    if ReplaceTree(s, items).Success? {
      SkeletonYieldsItself(s, items);
      SkeletonBytes(s, s, items);
    }
    if Resendable(s) {
      SkeletonListable(s, items);
      SkeletonBytes(s, s, items);
    }
  }

  // -------------------------------------------------------------------- Apply

  function Put(s: Progress, mut: Mutation): (r: Result<Progress, Error>) {
    match mut.kind
    case DirectoryKind =>
      if mut.data.Some? || mut.version != [] then Failure(Invalid)
      else Success(Progress(s.snapshot[mut.path := DIRECTORY], s.total))
    case FileKind =>
      if mut.data.None? then Failure(Invalid)
      else if |mut.data.value| > MAX_FILE_BYTES then Failure(TooLarge)
      else if s.total + |mut.data.value| > MAX_TREE_BYTES then Failure(TooLarge)
      else Success(Progress(s.snapshot[mut.path := Node(FileKind, mut.version, mut.data.value)],
                            s.total + |mut.data.value|))
    case OtherKind => Failure(Invalid)
  }

  /** The optimistic fence: only files carry a version. */
  predicate Fenced(n: Node, expected: Bytes) {
    expected != [] && n.kind == FileKind && n.version != expected
  }

  function ApplyOne(s: Progress, mut: Mutation): (r: Result<Progress, Error>) {
    if !ValidPath(mut.path) then Failure(Invalid)
    else match mut.op
      case Create =>
        if mut.path in s.snapshot then Failure(Conflict) else Put(s, mut)
      case Replace =>
        if mut.path !in s.snapshot || s.snapshot[mut.path].kind != FileKind then Failure(NotFound)
        else if mut.expected != [] && s.snapshot[mut.path].version != mut.expected then Failure(Conflict)
        else Put(s, mut)
      case Delete =>
        if mut.path !in s.snapshot then Failure(NotFound)
        else if Fenced(s.snapshot[mut.path], mut.expected) then Failure(Conflict)
        else Success(Progress(s.snapshot - {mut.path}, s.total))
      case Move =>
        if !ValidPath(mut.from) then Failure(Invalid)
        else if mut.from !in s.snapshot then Failure(NotFound)
        else if Fenced(s.snapshot[mut.from], mut.expected) then Failure(Conflict)
        else if mut.path in s.snapshot then Failure(Conflict)
        else Success(Progress((s.snapshot - {mut.from})[mut.path := s.snapshot[mut.from]], s.total))
      case OtherOp => Failure(Invalid)
  }

  function ApplyFrom(s: Progress, muts: seq<Mutation>): Result<Progress, Error> {
    if muts == [] then Success(s)
    else
      match ApplyFrom(s, muts[..|muts| - 1])
      case Failure(e) => Failure(e)
      case Success(p) => ApplyOne(p, muts[|muts| - 1])
  }

  function Apply(current: Snapshot, muts: seq<Mutation>): (r: Result<Snapshot, Error>) {
    if |muts| > MAX_TREE_ENTRIES then Failure(TooLarge)
    else
      match ApplyFrom(Progress(current, 0), muts)
      case Failure(e) => Failure(e)
      case Success(p) => Success(p.snapshot)
  }

  /** The loop of Apply over a private copy of current. */
  method ApplyLoop(current: Snapshot, muts: seq<Mutation>) returns (r: Result<Snapshot, Error>)
    ensures r == Apply(current, muts)
  {
    if |muts| > MAX_TREE_ENTRIES {
      return Failure(TooLarge);
    }
    var next, total := current, 0;
    for i := 0 to |muts|
      invariant total >= 0
      invariant ApplyFrom(Progress(current, 0), muts[..i]) == Success(Progress(next, total))
    {
      assert muts[..i + 1][..i] == muts[..i];
      var step := ApplyOne(Progress(next, total), muts[i]);
      if step.Failure? {
        assert muts == muts[..i + 1] + muts[i + 1..];
        ApplyConcat(Progress(current, 0), muts[..i + 1], muts[i + 1..]);
        return Failure(step.error);
      }
      next, total := step.value.snapshot, step.value.total;
    }
    assert muts[..|muts|] == muts;
    return Success(next);
  }

  // ---------------------------------------------------------- Splitting a batch

  lemma {:induction false} ApplyConcat(s: Progress, a: seq<Mutation>, b: seq<Mutation>)
    ensures ApplyFrom(s, a + b) ==
            match ApplyFrom(s, a)
            case Failure(e) => Failure(e)
            case Success(p) => ApplyFrom(p, b)
  {
    hide ApplyOne;
    if b == [] {
      assert a + b == a;
    } else {
      var n := |b| - 1;
      ApplyConcat(s, a, b[..n]);
      assert (a + b)[..|a + b| - 1] == a + b[..n];
      assert (a + b)[|a + b| - 1] == b[n];
    }
  }

  /** Body bytes one mutation transfers; a caller can compute it from the batch alone. */
  function PutSize(mut: Mutation): nat {
    if (mut.op == Create || mut.op == Replace) && mut.kind == FileKind && mut.data.Some?
    then |mut.data.value| else 0
  }

  function PutBytes(muts: seq<Mutation>): nat {
    if muts == [] then 0 else PutBytes(muts[..|muts| - 1]) + PutSize(muts[|muts| - 1])
  }

  lemma ApplyOneShift(s: Snapshot, t: nat, u: nat, mut: Mutation)
    requires ApplyOne(Progress(s, t), mut).Success?
    ensures ApplyOne(Progress(s, t), mut).value.total == t + PutSize(mut)
    ensures t <= MAX_TREE_BYTES ==> t + PutSize(mut) <= MAX_TREE_BYTES
    ensures u + PutSize(mut) <= MAX_TREE_BYTES ==>
              ApplyOne(Progress(s, u), mut) ==
              Success(Progress(ApplyOne(Progress(s, t), mut).value.snapshot, u + PutSize(mut)))
  {
    hide ValidPath;
  }

  /** The running total only limits: apart from the cap, a batch does the same from any total. */
  lemma {:induction false} ApplyShift(s: Snapshot, t: nat, u: nat, muts: seq<Mutation>)
    requires ApplyFrom(Progress(s, t), muts).Success?
    requires u + PutBytes(muts) <= MAX_TREE_BYTES
    ensures ApplyFrom(Progress(s, u), muts) ==
            Success(Progress(ApplyFrom(Progress(s, t), muts).value.snapshot, u + PutBytes(muts)))
  {
    hide ApplyOne, PutSize;
    if muts != [] {
      var n := |muts| - 1;
      ApplyShift(s, t, u, muts[..n]);
      var p := ApplyFrom(Progress(s, t), muts[..n]).value;
      ApplyOneShift(p.snapshot, p.total, u + PutBytes(muts[..n]), muts[n]);
    }
  }

  lemma {:induction false} ApplyTotal(s: Progress, muts: seq<Mutation>)
    requires ApplyFrom(s, muts).Success?
    ensures ApplyFrom(s, muts).value.total == s.total + PutBytes(muts)
    ensures s.total <= MAX_TREE_BYTES ==> s.total + PutBytes(muts) <= MAX_TREE_BYTES
  {
    hide ApplyOne, PutSize;
    if muts != [] {
      var n := |muts| - 1;
      ApplyTotal(s, muts[..n]);
      var p := ApplyFrom(s, muts[..n]).value;
      ApplyOneShift(p.snapshot, p.total, 0, muts[n]);
    }
  }

  lemma {:induction false} PutBytesConcat(a: seq<Mutation>, b: seq<Mutation>)
    ensures PutBytes(a + b) == PutBytes(a) + PutBytes(b)
  {
    if b == [] {
      assert a + b == a;
    } else {
      PutBytesConcat(a, b[..|b| - 1]);
      assert (a + b)[..|a + b| - 1] == a + b[..|b| - 1];
    }
  }

  /**
   One batch and the same batch sent in two parts agree: the joint batch yields r exactly when the
   parts do one after the other and the joint entry and byte caps hold.
   */
  lemma SplitBatch(s: Snapshot, a: seq<Mutation>, b: seq<Mutation>, r: Snapshot)
    ensures Apply(s, a + b) == Success(r) <==>
              && |a| + |b| <= MAX_TREE_ENTRIES
              && PutBytes(a) + PutBytes(b) <= MAX_TREE_BYTES
              && Apply(s, a).Success?
              && Apply(Apply(s, a).value, b) == Success(r)
  {
    var start := Progress(s, 0);
    ApplyConcat(start, a, b);
    PutBytesConcat(a, b);
    if Apply(s, a + b) == Success(r) {
      var mid := ApplyFrom(start, a).value;
      ApplyTotal(start, a);
      ApplyTotal(start, a + b);
      ApplyShift(mid.snapshot, mid.total, 0, b);
    }
    if |a| + |b| <= MAX_TREE_ENTRIES && PutBytes(a) + PutBytes(b) <= MAX_TREE_BYTES && Apply(s, a).Success? {
      var mid := ApplyFrom(start, a).value;
      ApplyTotal(start, a);
      if Apply(mid.snapshot, b).Success? {
        ApplyShift(mid.snapshot, 0, mid.total, b);
      }
    }
  }

  // ------------------------------------------------------- Frame and accounting

  predicate Names(mut: Mutation, p: Bytes) {
    mut.path == p || (mut.op == Move && mut.from == p)
  }

  /** Paths the batch does not name keep their node, and stay absent if they were absent. */
  lemma {:induction false} ApplyFrame(s: Progress, muts: seq<Mutation>, p: Bytes)
    requires ApplyFrom(s, muts).Success?
    requires forall i :: 0 <= i < |muts| ==> !Names(muts[i], p)
    ensures p in ApplyFrom(s, muts).value.snapshot <==> p in s.snapshot
    ensures p in s.snapshot ==> ApplyFrom(s, muts).value.snapshot[p] == s.snapshot[p]
  {
    if muts != [] {
      ApplyFrame(s, muts[..|muts| - 1], p);
    }
  }

  // ------------------------------------------------- What Apply accepts and stores

  /** The path whose stored version a mutation's expected version is compared with. */
  function Addressed(mut: Mutation): Bytes {
    if mut.op == Move then mut.from else mut.path
  }

  predicate PathsValid(mut: Mutation) {
    ValidPath(mut.path) && (mut.op == Move ==> ValidPath(mut.from))
  }

  /** What put demands of the mutation, given the bytes transferred before it. */
  predicate BodyFits(total: nat, mut: Mutation) {
    match mut.kind
    case DirectoryKind => mut.data.None? && mut.version == []
    case FileKind =>
      mut.data.Some? && |mut.data.value| <= MAX_FILE_BYTES && total + |mut.data.value| <= MAX_TREE_BYTES
    case OtherKind => false
  }

  /** The caller's expected version is the stored one, or there is nothing to compare. */
  predicate Current(n: Node, expected: Bytes) {
    expected == [] || n.kind != FileKind || n.version == expected
  }

  /** When one mutation is accepted. */
  lemma ApplyOneIff(s: Progress, mut: Mutation)
    ensures ApplyOne(s, mut).Success? <==>
              && PathsValid(mut) && mut.op != OtherOp
              && (mut.op == Create || mut.op == Move ==> mut.path !in s.snapshot)
              && (mut.op != Create ==>
                    Addressed(mut) in s.snapshot && Current(s.snapshot[Addressed(mut)], mut.expected))
              && (mut.op == Replace ==> s.snapshot[mut.path].kind == FileKind)
              && (mut.op == Create || mut.op == Replace ==> BodyFits(s.total, mut))
  {
    hide ValidPath;
  }

  predicate Found(s: Snapshot, mut: Mutation) {
    Addressed(mut) in s && (mut.op == Replace ==> s[mut.path].kind == FileKind)
  }

  /** And with which error it is refused otherwise: what is not there, what is in the way or stale, what is too big. */
  lemma ApplyOneErrors(s: Progress, mut: Mutation)
    ensures !PathsValid(mut) || mut.op == OtherOp ==> ApplyOne(s, mut) == Failure(Invalid)
    ensures PathsValid(mut) && mut.op != OtherOp ==>
              && (ApplyOne(s, mut) == Failure(NotFound) <==> mut.op != Create && !Found(s.snapshot, mut))
              && (ApplyOne(s, mut) == Failure(Conflict) <==>
                  || (mut.op == Create && mut.path in s.snapshot)
                  || (mut.op == Move && Found(s.snapshot, mut) && mut.path in s.snapshot)
                  || (mut.op != Create && Found(s.snapshot, mut)
                      && !Current(s.snapshot[Addressed(mut)], mut.expected)))
              && (ApplyOne(s, mut) == Failure(TooLarge) ==>
                    && (mut.op == Create || mut.op == Replace) && mut.kind == FileKind && mut.data.Some?
                    && (|mut.data.value| > MAX_FILE_BYTES || s.total + |mut.data.value| > MAX_TREE_BYTES))
              && (ApplyOne(s, mut) == Failure(Invalid) ==>
                    && (mut.op == Create || mut.op == Replace)
                    && (mut.kind == FileKind ==> mut.data.None?)
                    && (mut.kind == DirectoryKind ==> mut.data.Some? || mut.version != []))
  {
    hide ValidPath;
  }

  /**
   The optimistic fence on a stored file: an accepted mutation expects nothing or the stored version,
   a stale one is a conflict, and a current one is refused for no other version's sake.
   */
  lemma FenceHolds(s: Progress, mut: Mutation)
    requires mut.op == Replace || mut.op == Delete || mut.op == Move
    requires PathsValid(mut) && Addressed(mut) in s.snapshot && s.snapshot[Addressed(mut)].kind == FileKind
    ensures var stored := s.snapshot[Addressed(mut)].version;
            && (ApplyOne(s, mut).Success? ==> mut.expected == [] || mut.expected == stored)
            && (mut.expected != [] && mut.expected != stored ==> ApplyOne(s, mut) == Failure(Conflict))
            && (mut.expected == [] || mut.expected == stored ==>
                  (mut.op == Delete ==> ApplyOne(s, mut).Success?)
                  && (mut.op == Move ==> (ApplyOne(s, mut).Success? <==> mut.path !in s.snapshot))
                  && (mut.op == Replace ==> (ApplyOne(s, mut).Success? <==> BodyFits(s.total, mut))))
  {
    hide ValidPath;
  }

  /** What one accepted mutation leaves at the paths it names. */
  ghost predicate Leaves(before: Snapshot, mut: Mutation, after: Snapshot, p: Bytes)
    requires mut.op == Move ==> mut.from in before
  {
    match mut.op
    case Create | Replace =>
      && p in after
      && (match mut.kind
          case DirectoryKind => after[p] == DIRECTORY
          case FileKind => mut.data.Some? && after[p] == Node(FileKind, mut.version, mut.data.value)
          case OtherKind => false)
    case Delete => p !in after
    case Move => if p == mut.path then p in after && after[p] == before[mut.from] else p !in after
    case OtherOp => false
  }

  lemma OneLeaves(s: Progress, mut: Mutation, p: Bytes)
    requires ApplyOne(s, mut).Success? && Names(mut, p)
    ensures mut.op == Move ==> mut.from in s.snapshot
    ensures Leaves(s.snapshot, mut, ApplyOne(s, mut).value.snapshot, p)
  {
    hide ValidPath;
  }

  /** The snapshot a mutation of an accepted batch meets. */
  function Before(s: Snapshot, muts: seq<Mutation>, k: nat): Progress
    requires k <= |muts| && ApplyFrom(Progress(s, 0), muts).Success?
  {
    assert muts == muts[..k] + muts[k..];
    ApplyConcat(Progress(s, 0), muts[..k], muts[k..]);
    ApplyFrom(Progress(s, 0), muts[..k]).value
  }

  lemma AfterOne(s: Snapshot, muts: seq<Mutation>, k: nat)
    requires k < |muts| && ApplyFrom(Progress(s, 0), muts).Success?
    ensures ApplyOne(Before(s, muts, k), muts[k]) == Success(Before(s, muts, k + 1))
    ensures ApplyFrom(Before(s, muts, k + 1), muts[k + 1..]) == ApplyFrom(Progress(s, 0), muts)
  {
    hide ApplyOne;
    assert muts == muts[..k + 1] + muts[k + 1..] && muts[..k + 1][..k] == muts[..k];
    ApplyConcat(Progress(s, 0), muts[..k + 1], muts[k + 1..]);
  }

  /** The k-th mutation is the last one of the batch that names p. */
  predicate NamesLast(muts: seq<Mutation>, k: nat, p: Bytes) {
    k < |muts| && Names(muts[k], p) && forall i :: k < i < |muts| ==> !Names(muts[i], p)
  }

  /** In an accepted batch the last mutation that names a path decides what is stored there. */
  lemma LastWord(s: Snapshot, muts: seq<Mutation>, k: nat, p: Bytes)
    requires Apply(s, muts).Success? && NamesLast(muts, k, p)
    ensures muts[k].op == Move ==> muts[k].from in Before(s, muts, k).snapshot
    ensures Leaves(Before(s, muts, k).snapshot, muts[k], Apply(s, muts).value, p)
  {
    hide ApplyOne, Before;
    AfterOne(s, muts, k);
    OneLeaves(Before(s, muts, k), muts[k], p);
    ApplyFrame(Before(s, muts, k + 1), muts[k + 1..], p);
  }

  /**
   No update is lost: a fenced mutation of a path that nothing earlier in its batch names fails the
   whole batch when the stored version is another one, with a conflict if it is the first to fail.
   */
  lemma StaleRefused(s: Snapshot, muts: seq<Mutation>, k: nat)
    requires k < |muts| && (muts[k].op == Replace || muts[k].op == Delete || muts[k].op == Move)
    requires var p := Addressed(muts[k]);
             && p in s && s[p].kind == FileKind && muts[k].expected != [] && muts[k].expected != s[p].version
             && forall i :: 0 <= i < k ==> !Names(muts[i], p)
    ensures Apply(s, muts).Failure?
    ensures |muts| <= MAX_TREE_ENTRIES && ApplyFrom(Progress(s, 0), muts[..k]).Success? && PathsValid(muts[k]) ==>
              Apply(s, muts) == Failure(Conflict)
  {
    hide ApplyOne, PathsValid;
    var start, p := Progress(s, 0), Addressed(muts[k]);
    assert muts == muts[..k + 1] + muts[k + 1..] && muts[..k + 1][..k] == muts[..k];
    ApplyConcat(start, muts[..k + 1], muts[k + 1..]);
    if ApplyFrom(start, muts[..k]).Success? {
      ApplyFrame(start, muts[..k], p);
      ApplyOneIff(ApplyFrom(start, muts[..k]).value, muts[k]);
      if PathsValid(muts[k]) {
        FenceHolds(ApplyFrom(start, muts[..k]).value, muts[k]);
      }
    }
  }

  /** Too many mutations are too large; otherwise the first one that fails gives the batch its error. */
  lemma FirstError(s: Snapshot, muts: seq<Mutation>, k: nat)
    requires k < |muts| && ApplyFrom(Progress(s, 0), muts[..k]).Success?
    requires ApplyOne(ApplyFrom(Progress(s, 0), muts[..k]).value, muts[k]).Failure?
    ensures Apply(s, muts) ==
            Failure(if |muts| > MAX_TREE_ENTRIES then TooLarge
                    else ApplyOne(ApplyFrom(Progress(s, 0), muts[..k]).value, muts[k]).error)
  {
    hide ApplyOne;
    assert muts == muts[..k + 1] + muts[k + 1..] && muts[..k + 1][..k] == muts[..k];
    ApplyConcat(Progress(s, 0), muts[..k + 1], muts[k + 1..]);
  }

  /**
   So of two writers who started from the same version of a file the second loses: once a batch has
   stored another version there, a batch that first touches the path expecting the old one fails.
   */
  lemma SecondWriterLoses(s: Snapshot, first: seq<Mutation>, k: nat, second: seq<Mutation>, j: nat)
    requires Apply(s, first).Success? && k < |first| && NamesLast(first, k, first[k].path)
    requires (first[k].op == Create || first[k].op == Replace) && first[k].kind == FileKind
    requires j < |second| && (second[j].op == Replace || second[j].op == Delete || second[j].op == Move)
    requires Addressed(second[j]) == first[k].path && second[j].expected !in {[], first[k].version}
    requires forall i :: 0 <= i < j ==> !Names(second[i], first[k].path)
    ensures Apply(Apply(s, first).value, second).Failure?
  {
    hide ApplyOne, Apply, Before;
    LastWord(s, first, k, first[k].path);
    StaleRefused(Apply(s, first).value, second, j);
  }

  /** A file listed without a body is accepted only at the stored version, and keeps the stored node. */
  lemma BodyKept(current: Snapshot, items: seq<Item>, i: nat)
    requires ReplaceTree(current, items).Success? && i < |items| && items[i].kind == FileKind
    ensures var p := items[i].path;
            && p in ReplaceTree(current, items).value
            && match items[i].data
               case Some(body) => ReplaceTree(current, items).value[p] == Node(FileKind, items[i].version, body)
               case None =>
                 && p in current && current[p].kind == FileKind && current[p].version == items[i].version != []
                 && ReplaceTree(current, items).value[p] == current[p]
  {
    hide ValidPath, ReplaceItems;
    ReplaceHolds(current, items);
  }

  /** Bytes a mutation gives back: the body it deletes or overwrites. */
  function FreedSize(s: Snapshot, mut: Mutation): nat {
    if mut.op != Move && mut.path in s then |s[mut.path].data| else 0
  }

  function FreedBytes(s: Progress, muts: seq<Mutation>): nat
    requires ApplyFrom(s, muts).Success?
  {
    if muts == [] then 0
    else FreedBytes(s, muts[..|muts| - 1])
         + FreedSize(ApplyFrom(s, muts[..|muts| - 1]).value.snapshot, muts[|muts| - 1])
  }

  lemma ApplyOneLedger(s: Progress, mut: Mutation)
    requires ApplyOne(s, mut).Success?
    ensures Stored(ApplyOne(s, mut).value.snapshot) + FreedSize(s.snapshot, mut)
            == Stored(s.snapshot) + PutSize(mut)
  {
    match mut.op {
      case Create => StoredWith(s.snapshot, mut.path, ApplyOne(s, mut).value.snapshot[mut.path]);
      case Replace => StoredWith(s.snapshot, mut.path, ApplyOne(s, mut).value.snapshot[mut.path]);
      case Delete => StoredWithout(s.snapshot, mut.path);
      case Move =>
        StoredWithout(s.snapshot, mut.from);
        StoredWith(s.snapshot - {mut.from}, mut.path, s.snapshot[mut.from]);
    }
  }

  /** Exact byte accounting of a whole batch; in particular a batch of moves conserves the bytes. */
  lemma {:induction false} ApplyLedger(s: Progress, muts: seq<Mutation>)
    requires ApplyFrom(s, muts).Success?
    ensures Stored(ApplyFrom(s, muts).value.snapshot) + FreedBytes(s, muts)
            == Stored(s.snapshot) + PutBytes(muts)
    ensures (forall i :: 0 <= i < |muts| ==> muts[i].op == Move)
            ==> Stored(ApplyFrom(s, muts).value.snapshot) == Stored(s.snapshot)
  {
    if muts != [] {
      var n := |muts| - 1;
      ApplyLedger(s, muts[..n]);
      ApplyOneLedger(ApplyFrom(s, muts[..n]).value, muts[n]);
    }
  }

  ghost predicate FilesFit(s: Snapshot) {
    forall p :: p in s ==> |s[p].data| <= MAX_FILE_BYTES
  }

  lemma ApplyOneKeeps(s: Progress, mut: Mutation)
    requires ApplyOne(s, mut).Success? && WellFormed(s.snapshot)
    ensures WellFormed(ApplyOne(s, mut).value.snapshot)
    ensures FilesFit(s.snapshot) ==> FilesFit(ApplyOne(s, mut).value.snapshot)
  {
    hide ValidPath;
  }

  /** Whatever Apply accepts keeps the snapshot well formed and within the per-file cap. */
  lemma {:induction false} ApplyKeeps(s: Progress, muts: seq<Mutation>)
    requires ApplyFrom(s, muts).Success? && WellFormed(s.snapshot)
    ensures WellFormed(ApplyFrom(s, muts).value.snapshot)
    ensures FilesFit(s.snapshot) ==> FilesFit(ApplyFrom(s, muts).value.snapshot)
  {
    hide ApplyOne, WellFormed, FilesFit;
    if muts != [] {
      var n := |muts| - 1;
      ApplyKeeps(s, muts[..n]);
      ApplyOneKeeps(ApplyFrom(s, muts[..n]).value, muts[n]);
    }
  }

  lemma ReplaceBuildsWellFormed(current: Snapshot, items: seq<Item>)
    requires ReplaceTree(current, items).Success?
    ensures WellFormed(ReplaceTree(current, items).value)
    ensures FilesFit(ReplaceTree(current, items).value)
    ensures ReplaceTree(current, items).value.Keys == Listed(items)
  {
    hide ValidPath;
    ReplaceHolds(current, items);
    var r := ReplaceTree(current, items).value;
    forall p | p in r
      ensures ValidPath(p) && (r[p].kind == FileKind || r[p] == DIRECTORY) && |r[p].data| <= MAX_FILE_BYTES
    {
      var i :| 0 <= i < |items| && items[i].path == p;
    }
  }

  /** One request adds at most MAX_TREE_BYTES to what is stored. */
  lemma ApplyGrowth(s: Snapshot, muts: seq<Mutation>)
    requires Apply(s, muts).Success?
    ensures Stored(Apply(s, muts).value) <= Stored(s) + MAX_TREE_BYTES
  {
    ApplyLedger(Progress(s, 0), muts);
    ApplyTotal(Progress(s, 0), muts);
  }
}
