/**
 The bounded replay window over an unbounded history of guest events, addressed by printed cursors
 (internal/watchlog/watchlog.go).
 */
module WatchLog {
  import opened Common
  import opened Paths
  import Tree

  const COLON: byte := 58
  const ZERO: byte := 48
  const MINUS: byte := 45
  const DEFAULT_CAPACITY: nat := 64
  const UINT64: nat := 0x1_0000_0000_0000_0000

  datatype Event = Event(cursor: Bytes, op: Tree.Op, path: Bytes, from: Bytes)

  // -------------------------------------------------------------- Numbers as text

  function Decimal(n: nat): (s: Bytes)
    ensures s != []
  {
    if n < 10 then [ZERO + n] else Decimal(n / 10) + [ZERO + n % 10]
  }

  predicate IsDigit(b: byte) {
    ZERO <= b <= ZERO + 9
  }

  predicate AllDigits(s: Bytes) {
    forall i :: 0 <= i < |s| ==> IsDigit(s[i])
  }

  function Value(s: Bytes): nat
    requires AllDigits(s)
  {
    if s == [] then 0 else 10 * Value(s[..|s| - 1]) + (s[|s| - 1] - ZERO)
  }

  /** strconv.ParseUint(raw, 10, 64): digits only, and an error beyond 64 bits. */
  function ParseUint(raw: Bytes): Option<nat> {
    if raw == [] || !AllDigits(raw) || Value(raw) >= UINT64 then None else Some(Value(raw))
  }

  lemma {:induction false} DecimalValue(n: nat)
    ensures AllDigits(Decimal(n)) && Value(Decimal(n)) == n
  {
    if n >= 10 {
      DecimalValue(n / 10);
      var s := Decimal(n);
      assert s[..|s| - 1] == Decimal(n / 10);
      assert AllDigits(s);
    } else {
      assert Value([ZERO + n]) == n by { assert [ZERO + n][..0] == []; }
    }
  }

  function Pow10(k: nat): nat {
    if k == 0 then 1 else 10 * Pow10(k - 1)
  }

  lemma {:induction false} DecimalLength(n: nat, k: nat)
    requires k >= 1 && n < Pow10(k)
    ensures |Decimal(n)| <= k
  {
    if n >= 10 {
      assert k >= 2;
      DecimalLength(n / 10, k - 1);
    }
  }

  lemma DecimalLength64(n: nat)
    requires n < UINT64
    ensures |Decimal(n)| <= 20
  {
    assert Pow10(10) == 10_000_000_000;
    assert Pow10(15) == 1_000_000_000_000_000;
    assert Pow10(20) == 100_000_000_000_000_000_000;
    DecimalLength(n, 20);
  }

  // ------------------------------------------------------------------ Cursors

  function MakeCursor(epoch: Bytes, seqno: nat): Bytes {
    epoch + [COLON] + Decimal(seqno)
  }

  /** strings.Cut at the first colon. */
  function Cut(s: Bytes): Option<(Bytes, Bytes)> {
    if s == [] then None
    else if s[0] == COLON then Some(([], s[1..]))
    else
      match Cut(s[1..])
      case None => None
      case Some((a, b)) => Some(([s[0]] + a, b))
  }

  function ParseCursor(cursor: Bytes): Option<(Bytes, nat)> {
    match Cut(cursor)
    case None => None
    case Some((epoch, raw)) =>
      if epoch == [] || raw == [] then None
      else
        match ParseUint(raw)
        case None => None
        case Some(n) => Some((epoch, n))
  }

  lemma {:induction false} CutIff(s: Bytes, a: Bytes, b: Bytes)
    ensures Cut(s) == Some((a, b)) <==> s == a + [COLON] + b && COLON !in a
  {
    if s != [] {
      if s[0] == COLON {
        assert s == [] + [COLON] + s[1..];
        if s == a + [COLON] + b && COLON !in a {
          assert a == [];
          assert b == s[1..];
        }
      } else if a != [] {
        CutIff(s[1..], a[1..], b);
        assert a == [a[0]] + a[1..] && s == [s[0]] + s[1..];
        assert s == a + [COLON] + b <==> a[0] == s[0] && s[1..] == a[1..] + [COLON] + b by {
          assert a + [COLON] + b == [a[0]] + (a[1..] + [COLON] + b);
        }
      }
    }
  }

  /** A text is a cursor exactly if it is an epoch, a colon, and the digits of a number of 64 bits. */
  lemma ParseIff(cursor: Bytes, epoch: Bytes, n: nat)
    ensures ParseCursor(cursor) == Some((epoch, n)) <==>
            && epoch != [] && COLON !in epoch && n < UINT64
            && exists raw :: raw != [] && cursor == epoch + [COLON] + raw && AllDigits(raw) && Value(raw) == n
  {
    hide Cut, Value;
    if Cut(cursor).Some? {
      CutIff(cursor, Cut(cursor).value.0, Cut(cursor).value.1);
    }
    forall raw | cursor == epoch + [COLON] + raw && COLON !in epoch
      ensures Cut(cursor) == Some((epoch, raw))
    {
      CutIff(cursor, epoch, raw);
    }
  }

  /** What newEpoch returns: ASCII, without a colon, and short. */
  predicate EpochOk(epoch: Bytes) {
    epoch != [] && COLON !in epoch && |epoch| <= 64 && Ascii(epoch)
  }

  lemma DecimalIsAscii(n: nat)
    ensures Ascii(Decimal(n))
  {
    DecimalValue(n);
  }

  lemma {:induction false} CutAtColon(epoch: Bytes, raw: Bytes)
    requires COLON !in epoch
    ensures Cut(epoch + [COLON] + raw) == Some((epoch, raw))
  {
    var s := epoch + [COLON] + raw;
    if epoch == [] {
      assert s[1..] == raw;
    } else {
      CutAtColon(epoch[1..], raw);
      assert s[1..] == epoch[1..] + [COLON] + raw;
      assert [epoch[0]] + epoch[1..] == epoch;
    }
  }

  /** parseCursor undoes makeCursor. */
  lemma CursorRoundTrip(epoch: Bytes, seqno: nat)
    requires EpochOk(epoch) && seqno < UINT64
    ensures ParseCursor(MakeCursor(epoch, seqno)) == Some((epoch, seqno))
  {
    CutAtColon(epoch, Decimal(seqno));
    DecimalValue(seqno);
  }

  lemma CursorInjective(e1: Bytes, n1: nat, e2: Bytes, n2: nat)
    requires EpochOk(e1) && EpochOk(e2) && n1 < UINT64 && n2 < UINT64
    requires MakeCursor(e1, n1) == MakeCursor(e2, n2)
    ensures e1 == e2 && n1 == n2
  {
    CursorRoundTrip(e1, n1);
    CursorRoundTrip(e2, n2);
  }

  /** Every cursor the log issues is one the event rules accept: present, bounded and UTF-8. */
  lemma CursorFits(epoch: Bytes, seqno: nat)
    requires EpochOk(epoch) && seqno < UINT64
    ensures 0 < |MakeCursor(epoch, seqno)| <= MAX_CURSOR_BYTES && ValidUtf8(MakeCursor(epoch, seqno))
  {
    hide ValidUtf8;
    DecimalLength64(seqno);
    DecimalIsAscii(seqno);
    AsciiIsUtf8(MakeCursor(epoch, seqno));
  }

  /** The part of ValidateEvent that does not look at the cursor. */
  predicate ValidChange(event: Event) {
    && ValidPath(event.path)
    && match event.op
       case Create | Replace | Delete => event.from == []
       case Move => ValidPath(event.from)
       case OtherOp => false
  }

  predicate ValidEvent(event: Event) {
    && event.cursor != [] && |event.cursor| <= MAX_CURSOR_BYTES && ValidUtf8(event.cursor)
    && ValidChange(event)
  }

  // ------------------------------------------------------------------- Epochs

  function HexDigit(n: nat): byte
    requires n < 16
  {
    if n < 10 then ZERO + n else 87 + n
  }

  function Hex(raw: Bytes): Bytes {
    if raw == [] then [] else [HexDigit(raw[0] / 16), HexDigit(raw[0] % 16)] + Hex(raw[1..])
  }

  /** "fallback-" */
  const FALLBACK: Bytes := [102, 97, 108, 108, 98, 97, 99, 107, 45]

  function FormatInt(n: int): Bytes {
    if n < 0 then [MINUS] + Decimal(-n) else Decimal(n)
  }

  /** newEpoch: sixteen random bytes in hex, or the process-local fallback without randomness. */
  function NewEpoch(random: Option<Bytes>, nanos: int, count: nat): Bytes {
    match random
    case Some(raw) => Hex(raw)
    case None => FALLBACK + FormatInt(nanos) + [MINUS] + Decimal(count)
  }

  lemma {:induction false} HexOk(raw: Bytes)
    ensures |Hex(raw)| == 2 * |raw| && COLON !in Hex(raw) && Ascii(Hex(raw))
  {
    if raw != [] {
      HexOk(raw[1..]);
    }
  }

  lemma DigitsHaveNoColon(n: nat)
    ensures COLON !in Decimal(n)
  {
    DecimalValue(n);
  }

  lemma FallbackOk(nanos: int, count: nat)
    requires -0x8000_0000_0000_0000 <= nanos < 0x8000_0000_0000_0000 && count < UINT64
    ensures EpochOk(FALLBACK + FormatInt(nanos) + [MINUS] + Decimal(count))
  {
    hide Decimal;
    var magnitude := if nanos < 0 then -nanos else nanos;
    DecimalLength64(magnitude);
    DecimalLength64(count);
    DigitsHaveNoColon(magnitude);
    DigitsHaveNoColon(count);
    DecimalIsAscii(magnitude);
    DecimalIsAscii(count);
    assert Ascii(FormatInt(nanos)) && COLON !in FormatInt(nanos) && |FormatInt(nanos)| <= 21;
  }

  /** Either way the epoch is usable in a cursor. */
  lemma NewEpochOk(random: Option<Bytes>, nanos: int, count: nat)
    requires random.Some? ==> |random.value| == 16
    requires -0x8000_0000_0000_0000 <= nanos < 0x8000_0000_0000_0000 && count < UINT64
    ensures EpochOk(NewEpoch(random, nanos, count))
  {
    match random {
      case Some(raw) => HexOk(raw);
      case None =>
        hide EpochOk;
        FallbackOk(nanos, count);
    }
  }

  // ---------------------------------------------------------------------- Log

  datatype State = State(epoch: Bytes, next: nat, capacity: nat, events: seq<Event>)

  function Stamp(l: State, event: Event): Event {
    event.(cursor := MakeCursor(l.epoch, l.next + 1))
  }

  function Append(l: State, event: Event): State {
    var grown := l.events + [Stamp(l, event)];
    l.(next := l.next + 1, events := if |grown| > l.capacity then grown[|grown| - l.capacity..] else grown)
  }

  function Reset(l: State, epoch: Bytes): State {
    l.(epoch := epoch, next := 0, events := [])
  }

  function Current(l: State): Bytes {
    MakeCursor(l.epoch, l.next)
  }

  function Since(l: State, cursor: Bytes): Result<(Bytes, seq<Event>), Error>
    requires |l.events| <= l.next
  {
    if cursor == [] then Success((Current(l), []))
    else if |cursor| > MAX_CURSOR_BYTES then Failure(Lagged)
    else if cursor == Current(l) then Success((cursor, []))
    else
      match ParseCursor(cursor)
      case None => Failure(Lagged)
      case Some((epoch, n)) =>
        if epoch != l.epoch || n > l.next then Failure(Lagged)
        else
          var oldest := l.next - |l.events|;
          if n < oldest then Failure(Lagged) else Success((cursor, l.events[n - oldest..]))
  }

  /** The log is the last capacity events of one generation's whole history, numbered from one. */
  ghost predicate Window(l: State, history: seq<Event>) {
    && l.capacity > 0 && EpochOk(l.epoch)
    && l.next == |history| < UINT64
    && |l.events| == (if l.next < l.capacity then l.next else l.capacity)
    && l.events == history[l.next - |l.events|..]
    && forall i :: 0 <= i < |history| ==> history[i].cursor == MakeCursor(l.epoch, i + 1)
  }

  /** What the log stamps, a client accepts. */
  lemma StampIsValid(l: State, event: Event)
    requires EpochOk(l.epoch) && l.next + 1 < UINT64 && ValidChange(event)
    ensures ValidEvent(Stamp(l, event))
  {
    hide ValidPath, ValidUtf8, EpochOk, MakeCursor;
    CursorFits(l.epoch, l.next + 1);
  }

  lemma CapacityPositive(l: State, history: seq<Event>)
    requires Window(l, history)
    ensures l.capacity > 0
  {
  }

  lemma WindowFits(l: State, history: seq<Event>)
    requires Window(l, history)
    ensures |l.events| <= l.next
  {
  }

  lemma AppendWindow(l: State, history: seq<Event>, event: Event)
    requires Window(l, history) && l.next + 1 < UINT64
    ensures Window(Append(l, event), history + [Stamp(l, event)])
  {
    hide MakeCursor, EpochOk;
    var stamped := Stamp(l, event);
    assert Append(l, event).events == LastOf(l.events + [stamped], l.capacity);
    LastOfGrows(history, stamped, l.capacity);
    CursorsGrow(l.epoch, history, stamped);
  }

  ghost function LastOf<T>(s: seq<T>, n: nat): seq<T> {
    if |s| > n then s[|s| - n..] else s
  }

  lemma LastOfGrows<T>(s: seq<T>, x: T, n: nat)
    requires n > 0
    ensures LastOf(LastOf(s, n) + [x], n) == LastOf(s + [x], n)
  {
  }

  lemma CursorsGrow(epoch: Bytes, history: seq<Event>, stamped: Event)
    requires EpochOk(epoch) && |history| + 1 < UINT64 && stamped.cursor == MakeCursor(epoch, |history| + 1)
    requires forall i :: 0 <= i < |history| ==> history[i].cursor == MakeCursor(epoch, i + 1)
    ensures var h := history + [stamped];
            forall i :: 0 <= i < |h| ==> h[i].cursor == MakeCursor(epoch, i + 1)
  {
    hide MakeCursor, EpochOk;
  }

  lemma ResetWindow(l: State, epoch: Bytes)
    requires l.capacity > 0 && EpochOk(epoch)
    ensures Window(Reset(l, epoch), [])
    ensures Reset(l, epoch).epoch == epoch && Reset(l, epoch).capacity == l.capacity
  {
  }

  /**
   A cursor issued in the current generation resumes exactly when at most capacity events followed
   it, and then replays exactly those events.
   */
  lemma SinceExact(l: State, history: seq<Event>, n: nat)
    requires Window(l, history) && n <= l.next
    ensures Since(l, MakeCursor(l.epoch, n)) ==
            if l.next - n <= l.capacity then Success((MakeCursor(l.epoch, n), history[n..])) else Failure(Lagged)
  {
    hide EpochOk, ParseCursor;
    CursorFits(l.epoch, n);
    CursorRoundTrip(l.epoch, n);
    if MakeCursor(l.epoch, n) == Current(l) {
      CursorInjective(l.epoch, n, l.epoch, l.next);
      assert history[n..] == [];
    } else if l.next - n <= l.capacity {
      var oldest := l.next - |l.events|;
      assert history[oldest..][n - oldest..] == history[n..];
    }
  }

  /** A cursor of any other generation cannot be resumed. */
  lemma SinceForeign(l: State, history: seq<Event>, epoch: Bytes, n: nat)
    requires Window(l, history) && EpochOk(epoch) && epoch != l.epoch && n < UINT64
    ensures Since(l, MakeCursor(epoch, n)) == Failure(Lagged)
  {
    hide EpochOk, ParseCursor;
    CursorFits(epoch, n);
    CursorRoundTrip(epoch, n);
    if MakeCursor(epoch, n) == Current(l) {
      CursorInjective(epoch, n, l.epoch, l.next);
    }
  }

  /** Whatever text is passed, what is replayed is a complete end of the history. */
  lemma SinceSound(l: State, history: seq<Event>, cursor: Bytes)
    requires Window(l, history) && Since(l, cursor).Success?
    ensures exists n :: 0 <= n <= l.next && Since(l, cursor).value.1 == history[n..]
              && (cursor == [] ==> n == l.next)
              && (cursor != [] ==> ParseCursor(cursor) == Some((l.epoch, n)))
  {
    hide EpochOk, ParseCursor;
    if cursor == [] || cursor == Current(l) {
      CursorRoundTrip(l.epoch, l.next);
      assert history[l.next..] == [];
    } else {
      var n := ParseCursor(cursor).value.1;
      var oldest := l.next - |l.events|;
      assert history[oldest..][n - oldest..] == history[n..];
    }
  }

  /** Log, with the whole generation kept beside it as ghost state. */
  class Log {
    var epoch: Bytes
    var next: nat
    const capacity: nat
    var events: seq<Event>
    ghost var history: seq<Event>

    function Contents(): State
      reads this
    {
      State(epoch, next, capacity, events)
    }

    ghost predicate Valid()
      reads this
    {
      Window(Contents(), history)
    }

    constructor (capacity: int, epoch: Bytes)
      requires EpochOk(epoch)
      ensures Valid() && history == []
      ensures Contents() == State(epoch, 0, if capacity <= 0 then DEFAULT_CAPACITY else capacity, [])
    {
      this.capacity := if capacity <= 0 then DEFAULT_CAPACITY else capacity;
      this.epoch, next, events, history := epoch, 0, [], [];
    }

    method ResetTo(epoch: Bytes)
      requires Valid() && EpochOk(epoch)
      modifies this
      ensures Valid() && history == [] && Contents() == Reset(old(Contents()), epoch)
    {
      this.epoch, next, events, history := epoch, 0, [], [];
    }

    method AppendEvent(event: Event) returns (stamped: Event)
      requires Valid() && next + 1 < UINT64
      modifies this
      ensures Valid() && history == old(history) + [stamped]
      ensures stamped == Stamp(old(Contents()), event) && Contents() == Append(old(Contents()), event)
    {
      hide Window, MakeCursor;
      ghost var before := Contents();
      assert capacity > 0 by { CapacityPositive(before, history); }
      AppendWindow(before, history, event);
      next := next + 1;
      stamped := event.(cursor := MakeCursor(epoch, next));
      events := events + [stamped];
      if |events| > capacity {
        events := events[|events| - capacity..];
      }
      history := history + [stamped];
      assert Contents() == Append(before, event);
    }

    method Replay(cursor: Bytes) returns (r: Result<(Bytes, seq<Event>), Error>)
      requires Valid()
      ensures r == Since(Contents(), cursor)
    {
      var current := MakeCursor(epoch, next);
      if cursor == [] {
        return Success((current, []));
      }
      if |cursor| > MAX_CURSOR_BYTES {
        return Failure(Lagged);
      }
      if cursor == current {
        return Success((cursor, []));
      }
      var parsed := ParseCursor(cursor);
      if parsed.None? || parsed.value.0 != epoch || parsed.value.1 > next {
        return Failure(Lagged);
      }
      var oldest := next - |events|;
      if parsed.value.1 < oldest {
        return Failure(Lagged);
      }
      return Success((cursor, events[parsed.value.1 - oldest..]));
    }
  }
}
