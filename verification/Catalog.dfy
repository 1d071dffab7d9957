/**
 Cached verification of boot images (isolated/catalog.go): re-hash only when a file's stat stamp
 changes. SHA-256 is a function of the bytes passed in.
 */
module Catalog {
  import opened Common
  import WatchLog

  datatype Stamp = Stamp(size: int, modTime: int, mode: nat)

  const ZERO: Stamp := Stamp(0, 0, 0)

  /** A regular file; a path that is missing or not a regular file is not in the world. */
  datatype File = File(stamp: Stamp, contents: Bytes)

  type World = map<Bytes, File>

  datatype Image = Image(hash: Bytes, kernel: Bytes, rootfs: Bytes)

  type Sum = Bytes -> Bytes

  const DIGEST_BYTES: nat := 32

  function HexValue(b: byte): (r: Option<nat>)
    ensures r.Some? ==> r.value < 16
  {
    if 48 <= b <= 57 then Some(b - 48)
    else if 97 <= b <= 102 then Some(b - 87)
    else if 65 <= b <= 70 then Some(b - 55)
    else None
  }

  /** hex.DecodeString. */
  function HexDecode(text: Bytes): Option<Bytes> {
    if text == [] then Some([])
    else if |text| == 1 || HexValue(text[0]).None? || HexValue(text[1]).None? then None
    else
      match HexDecode(text[2..])
      case None => None
      case Some(rest) => Some([16 * HexValue(text[0]).value + HexValue(text[1]).value] + rest)
  }

  /** The letters A to F in lower case, everything else as it is. */
  function Lower(text: Bytes): Bytes {
    seq(|text|, i requires 0 <= i < |text| => if 65 <= text[i] <= 70 then text[i] + 32 else text[i])
  }

  lemma DigitIff(b: byte, n: nat)
    requires n < 16
    ensures HexValue(b) == Some(n) <==> (if 65 <= b <= 70 then b + 32 else b) == WatchLog.HexDigit(n)
  {
  }

  /** A text decodes to these bytes exactly if, in lower case, it is what printing them gives. */
  lemma {:induction false} HexDecodeIff(text: Bytes, raw: Bytes)
    ensures HexDecode(text) == Some(raw) <==> Lower(text) == WatchLog.Hex(raw)
  {
    WatchLog.HexOk(raw);
    if |text| >= 2 && raw != [] {
      HexDecodeIff(text[2..], raw[1..]);
      DigitIff(text[0], raw[0] / 16);
      DigitIff(text[1], raw[0] % 16);
      assert Lower(text)[2..] == Lower(text[2..]) && WatchLog.Hex(raw)[2..] == WatchLog.Hex(raw[1..]);
      assert raw == [raw[0]] + raw[1..];
      var low, hex := Lower(text), WatchLog.Hex(raw);
      assert low == [low[0], low[1]] + low[2..] && hex == [hex[0], hex[1]] + hex[2..];
      assert hex[0] == WatchLog.HexDigit(raw[0] / 16) && hex[1] == WatchLog.HexDigit(raw[0] % 16);
      assert low == hex <==> low[0] == hex[0] && low[1] == hex[1] && low[2..] == hex[2..];
      if HexDecode(text).Some? {
        assert HexDecode(text).value[1..] == HexDecode(text[2..]).value;
      }
      if low == hex {
        assert HexDecode(text).value == [raw[0]] + raw[1..];
      }
    }
  }

  function ValidDigest(hash: Bytes): bool {
    HexDecode(hash).Some? && |HexDecode(hash).value| == DIGEST_BYTES
  }

  /** Digest: both files must be there; the sum is printed in lowercase hex. */
  function Digest(world: World, kernel: Bytes, rootfs: Bytes, sum: Sum): Option<Bytes> {
    if kernel !in world || rootfs !in world then None
    else Some(WatchLog.Hex(sum(world[kernel].contents + world[rootfs].contents)))
  }

  /** matchesCatalog: hash both files afresh, and compare the digests as bytes. */
  function Matches(image: Image, world: World, sum: Sum): bool {
    if !ValidDigest(image.hash) || image.kernel == [] || image.rootfs == [] then false
    else
      match Digest(world, image.kernel, image.rootfs, sum)
      case None => false
      case Some(printed) =>
        var got := HexDecode(printed);
        got.Some? && |got.value| == DIGEST_BYTES && HexDecode(image.hash).value == got.value
  }

  /** Decoding undoes printing. */
  lemma {:induction false} HexRoundTrip(raw: Bytes)
    ensures HexDecode(WatchLog.Hex(raw)) == Some(raw)
  {
    if raw != [] {
      HexRoundTrip(raw[1..]);
      var text := WatchLog.Hex(raw);
      assert text[2..] == WatchLog.Hex(raw[1..]);
      assert [raw[0]] + raw[1..] == raw;
    }
  }

  /** So a match is equality of the sum with the catalog's digest, in either letter case. */
  lemma MatchesIff(image: Image, world: World, sum: Sum)
    requires forall data :: |sum(data)| == DIGEST_BYTES
    ensures Matches(image, world, sum) <==>
            && ValidDigest(image.hash) && image.kernel != [] && image.rootfs != []
            && image.kernel in world && image.rootfs in world
            && HexDecode(image.hash) == Some(sum(world[image.kernel].contents + world[image.rootfs].contents))
  {
    if image.kernel in world && image.rootfs in world {
      HexRoundTrip(sum(world[image.kernel].contents + world[image.rootfs].contents));
    }
  }

  function StampOf(world: World, path: Bytes): (Stamp, bool) {
    if path in world then (world[path].stamp, true) else (ZERO, false)
  }

  datatype Cache = Cache(kernel: Stamp, rootfs: Stamp, checked: bool, valid: bool)

  /** verified, on the whole record: what it answers and what it remembers. */
  function Verify(image: Image, cache: Cache, world: World, sum: Sum): (Cache, bool) {
    var (kernel, kernelOk) := StampOf(world, image.kernel);
    var (rootfs, rootfsOk) := StampOf(world, image.rootfs);
    if cache.checked && kernelOk && rootfsOk && kernel == cache.kernel && rootfs == cache.rootfs
    then (cache, cache.valid)
    else
      var valid := kernelOk && rootfsOk && Matches(image, world, sum);
      (Cache(kernel, rootfs, true, valid), valid)
  }

  const EMPTY: Cache := Cache(ZERO, ZERO, false, false)

  class ImageRecord {
    const image: Image
    const sum: Sum
    var kernel: Stamp
    var rootfs: Stamp
    var checked: bool
    var valid: bool

    function State(): Cache
      reads this
    {
      Cache(kernel, rootfs, checked, valid)
    }

    constructor (image: Image, world: World, sum: Sum)
      ensures this.image == image && this.sum == sum && State() == Verify(image, EMPTY, world, sum).0
    {
      this.image, this.sum := image, sum;
      kernel, rootfs, checked, valid := ZERO, ZERO, false, false;
      new;
      var ignored := Verified(world);
    }

    method Verified(world: World) returns (verdict: bool)
      modifies this
      ensures (State(), verdict) == Verify(image, old(State()), world, sum)
    {
      var (kernelNow, kernelOk) := StampOf(world, image.kernel);
      var (rootfsNow, rootfsOk) := StampOf(world, image.rootfs);
      if checked && kernelOk && rootfsOk && kernelNow == kernel && rootfsNow == rootfs {
        return valid;
      }
      kernel := kernelNow;
      rootfs := rootfsNow;
      checked := true;
      valid := kernelOk && rootfsOk && Matches(image, world, sum);
      return valid;
    }
  }

  // ------------------------------------------------------------------- Whole runs

  /** The record after calls that saw these worlds, one after another. */
  function After(image: Image, worlds: seq<World>, sum: Sum): Cache {
    if worlds == [] then EMPTY
    else Verify(image, After(image, worlds[..|worlds| - 1], sum), worlds[|worlds| - 1], sum).0
  }

  /** At any two moments an equal stamp means equal contents, and no file carries the zero stamp. */
  predicate StampsTell(worlds: seq<World>, path: Bytes) {
    && (forall i :: 0 <= i < |worlds| && path in worlds[i] ==> worlds[i][path].stamp != ZERO)
    && forall i, j ::
         0 <= i < j < |worlds| && path in worlds[i] && path in worlds[j]
         && worlds[i][path].stamp == worlds[j][path].stamp ==>
         worlds[i][path].contents == worlds[j][path].contents
  }

  /** What is remembered is what some earlier call saw: its two stamps, and the verdict on that world. */
  ghost predicate Remembers(image: Image, worlds: seq<World>, cache: Cache, sum: Sum) {
    cache.checked ==> exists i :: 0 <= i < |worlds| && SawIt(image, worlds[i], cache, sum)
  }

  predicate SawIt(image: Image, world: World, cache: Cache, sum: Sum) {
    && cache.kernel == StampOf(world, image.kernel).0 && cache.rootfs == StampOf(world, image.rootfs).0
    && cache.valid == Matches(image, world, sum)
  }

  lemma {:induction false} AlwaysRemembers(image: Image, worlds: seq<World>, sum: Sum)
    ensures Remembers(image, worlds, After(image, worlds, sum), sum)
  {
    hide Matches;
    if worlds != [] {
      var n := |worlds| - 1;
      var before := After(image, worlds[..n], sum);
      var now := After(image, worlds, sum);
      AlwaysRemembers(image, worlds[..n], sum);
      if now == before && before.checked {
        var i :| 0 <= i < n && SawIt(image, worlds[..n][i], before, sum);
        assert SawIt(image, worlds[i], now, sum);
      } else {
        NotMatching(image, worlds[n], sum);
        assert SawIt(image, worlds[n], now, sum);
      }
    }
  }

  lemma NotMatching(image: Image, world: World, sum: Sum)
    ensures Matches(image, world, sum) ==> image.kernel in world && image.rootfs in world
  {
  }

  /**
   Whatever files are edited between calls, the cached verdict is the verdict of hashing again,
   as long as stamps tell contents apart over the whole run.
   */
  lemma VerdictIsFresh(image: Image, worlds: seq<World>, world: World, sum: Sum)
    requires StampsTell(worlds + [world], image.kernel) && StampsTell(worlds + [world], image.rootfs)
    ensures Verify(image, After(image, worlds, sum), world, sum).1 == Matches(image, world, sum)
  {
    hide Remembers, After;
    var cache := After(image, worlds, sum);
    AlwaysRemembers(image, worlds, sum);
    if cache.checked && image.kernel in world && image.rootfs in world
       && cache.kernel == world[image.kernel].stamp && cache.rootfs == world[image.rootfs].stamp {
      HitIsFresh(image, worlds, world, cache, sum);
    }
  }

  lemma HitIsFresh(image: Image, worlds: seq<World>, world: World, cache: Cache, sum: Sum)
    requires StampsTell(worlds + [world], image.kernel) && StampsTell(worlds + [world], image.rootfs)
    requires Remembers(image, worlds, cache, sum) && cache.checked && image.kernel in world && image.rootfs in world
    requires cache.kernel == world[image.kernel].stamp && cache.rootfs == world[image.rootfs].stamp
    ensures cache.valid == Matches(image, world, sum)
  {
    var n := |worlds|;
    var all := worlds + [world];
    var i :| 0 <= i < n && SawIt(image, worlds[i], cache, sum);
    assert all[i] == worlds[i] && all[n] == world;
    assert cache.kernel != ZERO && cache.rootfs != ZERO;
    assert image.kernel in all[i] && image.rootfs in all[i];
  }

  // ------------------------------------------------------------- Exactly when fresh

  /** The stamps of a world already hashed are those of this one, and both files are there now. */
  predicate Hit(image: Image, seen: Option<World>, world: World) {
    && seen.Some? && image.kernel in world && image.rootfs in world
    && StampOf(seen.value, image.kernel).0 == world[image.kernel].stamp
    && StampOf(seen.value, image.rootfs).0 == world[image.rootfs].stamp
  }

  /** The world that was hashed last. */
  function Filled(image: Image, worlds: seq<World>): Option<World> {
    if worlds == [] then None
    else
      var seen := Filled(image, worlds[..|worlds| - 1]);
      var world := worlds[|worlds| - 1];
      if Hit(image, seen, world) then seen else Some(world)
  }

  /** What the record holds is the stamps and the verdict of that world, whatever the digest is. */
  lemma {:induction false} CacheIs(image: Image, worlds: seq<World>, sum: Sum)
    ensures After(image, worlds, sum) ==
            match Filled(image, worlds)
            case None => EMPTY
            case Some(w) => Cache(StampOf(w, image.kernel).0, StampOf(w, image.rootfs).0, true, Matches(image, w, sum))
  {
    hide Matches;
    if worlds != [] {
      CacheIs(image, worlds[..|worlds| - 1], sum);
      NotMatching(image, worlds[|worlds| - 1], sum);
    }
  }

  lemma {:induction false} FilledIgnoresHash(image: Image, worlds: seq<World>, hash: Bytes)
    ensures Filled(image.(hash := hash), worlds) == Filled(image, worlds)
  {
    if worlds != [] {
      FilledIgnoresHash(image, worlds[..|worlds| - 1], hash);
    }
  }

  /** Both files are there in both worlds, and hash the same bytes. */
  predicate SameBytes(image: Image, then_: World, now: World) {
    && image.kernel in then_ && image.rootfs in then_ && image.kernel in now && image.rootfs in now
    && then_[image.kernel].contents + then_[image.rootfs].contents ==
       now[image.kernel].contents + now[image.rootfs].contents
  }

  /** A hit finds the bytes that were hashed last still in place; an entry without paths never matches at all. */
  predicate StillThere(image: Image, worlds: seq<World>, world: World) {
    image.kernel == [] || image.rootfs == []
    || (Hit(image, Filled(image, worlds), world) ==> SameBytes(image, Filled(image, worlds).value, world))
  }

  ghost predicate IsFresh(image: Image, worlds: seq<World>, world: World, hash: Bytes, sum: Sum) {
    var entry := image.(hash := hash);
    Verify(entry, After(entry, worlds, sum), world, sum).1 == Matches(entry, world, sum)
  }

  ghost predicate IsDigest(sum: Sum) {
    forall data :: |sum(data)| == DIGEST_BYTES
  }

  /**
   After any calls, the next verdict agrees with hashing again for every catalog hash and every
   digest function exactly when a hit finds the bytes that were hashed last still in place.
   */
  lemma FreshIff(image: Image, worlds: seq<World>, world: World)
    ensures (forall hash, sum :: IsDigest(sum) ==> IsFresh(image, worlds, world, hash, sum)) <==>
            StillThere(image, worlds, world)
  {
    hide IsFresh, IsDigest;
    if StillThere(image, worlds, world) {
      hide StillThere;
      forall hash, sum | IsDigest(sum) ensures IsFresh(image, worlds, world, hash, sum) {
        FreshWhenSame(image, worlds, world, hash, sum);
      }
    } else {
      Distinguished(image, worlds, world);
    }
  }

  lemma FreshWhenSame(image: Image, worlds: seq<World>, world: World, hash: Bytes, sum: Sum)
    requires StillThere(image, worlds, world)
    ensures IsFresh(image, worlds, world, hash, sum)
  {
    hide After, Filled;
    var entry := image.(hash := hash);
    CacheIs(entry, worlds, sum);
    FilledIgnoresHash(image, worlds, hash);
    NotMatching(entry, world, sum);
  }

  /** A hash and a digest function that tell the two worlds apart. */
  lemma Distinguished(image: Image, worlds: seq<World>, world: World)
    requires !StillThere(image, worlds, world)
    ensures exists hash, sum :: IsDigest(sum) && !IsFresh(image, worlds, world, hash, sum)
  {
    hide After, Filled, Matches;
    var zeros, ones: Bytes := seq(DIGEST_BYTES, i => 0), seq(DIGEST_BYTES, i => 1);
    assert zeros[0] != ones[0];
    var now := world[image.kernel].contents + world[image.rootfs].contents;
    var sum: Sum := data => if data == now then zeros else ones;
    var hash := WatchLog.Hex(zeros);
    HexRoundTrip(zeros);
    var entry := image.(hash := hash);
    assert IsDigest(sum);
    CacheIs(entry, worlds, sum);
    FilledIgnoresHash(image, worlds, hash);
    MatchesIff(entry, world, sum);
    MatchesIff(entry, Filled(image, worlds).value, sum);
    assert !IsFresh(image, worlds, world, hash, sum);
  }

  /** A file that really carries the zero stamp is taken for the one that was missing before. */
  lemma ZeroStampFools(image: Image, rootfs: File, sum: Sum)
    requires ValidDigest(image.hash) && image.kernel != [] && image.rootfs != [] && image.kernel != image.rootfs
    requires sum(rootfs.contents) == HexDecode(image.hash).value
    ensures var before: World := map[image.rootfs := rootfs];
            var world: World := map[image.rootfs := rootfs, image.kernel := File(ZERO, [])];
            Matches(image, world, sum) && !Verify(image, After(image, [before], sum), world, sum).1
  {
    var before: World := map[image.rootfs := rootfs];
    assert [before][..0] == [];
    assert After(image, [before][..0], sum) == EMPTY;
    assert After(image, [before], sum) == Verify(image, EMPTY, before, sum).0;
    assert [] + rootfs.contents == rootfs.contents;
    HexRoundTrip(sum(rootfs.contents));
  }
}
