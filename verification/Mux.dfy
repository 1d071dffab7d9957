/**
 Frames and the session that carries them (internal/mux/mux.go): a binary codec over big-endian
 fields, and a length-prefixed stream with short writes.
 */
module Mux {
  import opened Common
  import opened Paths

  const FIXED_FRAME_BYTES: nat := 35
  const MAX_FRAME_BYTES: nat := 72 * 1024 * 1024
  const MAX_PTY_BYTES: nat := 64 * 1024
  const MAX_NAME_BYTES: nat := 64
  const UINT16: nat := 0x1_0000
  const UINT32: nat := 0x1_0000_0000
  const UINT64: nat := 0x1_0000_0000_0000_0000

  type uint64 = n: nat | n < 0x1_0000_0000_0000_0000
  type int64 = n: int | -0x8000_0000_0000_0000 <= n < 0x8000_0000_0000_0000

  /** Requests are 1, responses 2, terminal data 3 and watch events 4. */
  const REQUEST: byte := 1
  const PTY: byte := 3
  const WATCH: byte := 4

  datatype Frame = Frame(seqno: uint64, kind: byte, method_: Bytes, grant: Bytes, stream: uint64,
                         status: Bytes, extra: Bytes, deadline: int64)

  // ------------------------------------------------------------ Big-endian numbers

  function Pow256(k: nat): (p: nat)
    ensures p > 0
  {
    if k == 0 then 1 else 256 * Pow256(k - 1)
  }

  /** The k low bytes of n, highest first. */
  function BigEndian(k: nat, n: nat): (s: Bytes)
    ensures |s| == k
  {
    if k == 0 then [] else BigEndian(k - 1, n / 256) + [n % 256]
  }

  function Number(s: Bytes): nat {
    if s == [] then 0 else 256 * Number(s[..|s| - 1]) + s[|s| - 1]
  }

  lemma {:induction false} NumberOfBigEndian(k: nat, n: nat)
    requires n < Pow256(k)
    ensures Number(BigEndian(k, n)) == n
  {
    if k > 0 {
      NumberOfBigEndian(k - 1, n / 256);
      assert BigEndian(k, n)[..k - 1] == BigEndian(k - 1, n / 256);
    }
  }

  lemma {:induction false} BigEndianOfNumber(s: Bytes)
    ensures BigEndian(|s|, Number(s)) == s && Number(s) < Pow256(|s|)
  {
    if s != [] {
      BigEndianOfNumber(s[..|s| - 1]);
      assert Number(s) / 256 == Number(s[..|s| - 1]) && Number(s) % 256 == s[|s| - 1];
    }
  }

  lemma {:induction false} NumberAppend(a: Bytes, b: Bytes)
    ensures Number(a + b) == Number(a) * Pow256(|b|) + Number(b)
  {
    if b == [] {
      assert a + b == a;
    } else {
      var init, last := b[..|b| - 1], b[|b| - 1];
      NumberAppend(a, init);
      assert Number(a + b) == 256 * Number(a + init) + last by {
        assert (a + b)[..|a + b| - 1] == a + init;
      }
      TimesTwice(Number(a), Pow256(|init|));
    }
  }

  lemma TimesTwice(n: nat, d: nat)
    ensures n * (256 * d) == 256 * (n * d)
  {
  }

  /** The high bytes of a number are those of its quotient. */
  lemma {:induction false} FirstBytes(k: nat, m: nat, n: nat)
    requires m <= k
    ensures BigEndian(k, n)[..m] == BigEndian(m, n / Pow256(k - m))
  {
    if m == k {
      assert BigEndian(k, n)[..m] == BigEndian(k, n);
    } else {
      FirstBytes(k - 1, m, n / 256);
      assert BigEndian(k, n)[..m] == BigEndian(k - 1, n / 256)[..m];
      DivideTwice(n, Pow256(k - 1 - m));
    }
  }

  lemma DivideTwice(n: nat, d: nat)
    requires d > 0
    ensures n / 256 / d == n / (256 * d)
  {
    var q, r := n / 256 / d, n / 256 % d;
    var step := 256 * d;
    assert n / 256 == d * q + r;
    TimesTwice(q, d);
    assert n - q * step == 256 * r + n % 256 < step;
    assert n - step * (n / step) == n % step;
    var apart := n / step - q;
    assert step * apart == step * (n / step) - q * step;
    Multiple(step, apart);
  }

  lemma Multiple(d: nat, k: int)
    requires d > 0
    ensures k > 0 ==> d * k >= d
    ensures k < 0 ==> d * k + d <= 0
  {
  }

  lemma QuotientFits(m: nat, n: nat)
    requires m <= 4 && n < Pow256(4)
    ensures n / Pow256(4 - m) < Pow256(m)
  {
    assert Pow256(1) == 256 && Pow256(2) == 65536 && Pow256(3) == 16777216;
    assert Pow256(4) == 256 * Pow256(3);
  }

  lemma Powers()
    ensures Pow256(2) == UINT16 && Pow256(4) == UINT32 && Pow256(8) == UINT64
  {
    assert Pow256(4) == UINT32;
    assert Pow256(6) == 65536 * UINT32;
  }

  /** uint64(d): two's complement. */
  function Unsigned(d: int64): uint64 {
    if d < 0 then d + 0x1_0000_0000_0000_0000 else d
  }

  function Signed(n: uint64): int64 {
    if n < 0x8000_0000_0000_0000 then n else n - 0x1_0000_0000_0000_0000
  }

  // ---------------------------------------------------------------------- Codec

  function Size(f: Frame): nat {
    FIXED_FRAME_BYTES + |f.method_| + |f.grant| + |f.status| + |f.extra|
  }

  /** The four length fields; each keeps only the low bits that fit. */
  function Lengths(f: Frame): (s: Bytes)
    ensures |s| == 10
  {
    BigEndian(2, |f.method_| % UINT16) + BigEndian(2, |f.grant| % UINT16) + BigEndian(2, |f.status| % UINT16)
    + BigEndian(4, |f.extra| % UINT32)
  }

  function Header(f: Frame): (s: Bytes)
    ensures |s| == FIXED_FRAME_BYTES
  {
    BigEndian(8, f.seqno) + [f.kind] + BigEndian(8, f.stream) + BigEndian(8, Unsigned(f.deadline)) + Lengths(f)
  }

  function Body(f: Frame): Bytes {
    f.method_ + f.grant + f.status + f.extra
  }

  function Encode(f: Frame): Result<Bytes, Error> {
    if Size(f) > MAX_FRAME_BYTES then Failure(TooLarge) else Success(Header(f) + Body(f))
  }

  function Decode(payload: Bytes): Result<Frame, Error> {
    if |payload| < FIXED_FRAME_BYTES then Failure(Invalid)
    else
      BigEndianLemmas(payload);
      var methodLen := Number(payload[25..27]);
      var grantLen := Number(payload[27..29]);
      var statusLen := Number(payload[29..31]);
      var extraLen := Number(payload[31..35]);
      if extraLen > MAX_FRAME_BYTES - FIXED_FRAME_BYTES then Failure(TooLarge)
      else if FIXED_FRAME_BYTES + methodLen + grantLen + statusLen + extraLen != |payload| then Failure(Invalid)
      else
        var grantAt := FIXED_FRAME_BYTES + methodLen;
        var statusAt := grantAt + grantLen;
        var extraAt := statusAt + statusLen;
        Success(Frame(Number(payload[0..8]), payload[8], payload[FIXED_FRAME_BYTES..grantAt],
                      payload[grantAt..statusAt],
                      Number(payload[9..17]), payload[statusAt..extraAt], payload[extraAt..],
                      Signed(Number(payload[17..25]))))
  }

  lemma BigEndianLemmas(payload: Bytes)
    requires |payload| >= FIXED_FRAME_BYTES
    ensures Number(payload[0..8]) < UINT64 && Number(payload[9..17]) < UINT64 && Number(payload[17..25]) < UINT64
    ensures Number(payload[25..27]) < UINT16 && Number(payload[27..29]) < UINT16 && Number(payload[29..31]) < UINT16
    ensures Number(payload[31..35]) < UINT32
  {
    Powers();
    BigEndianOfNumber(payload[0..8]);
    BigEndianOfNumber(payload[9..17]);
    BigEndianOfNumber(payload[17..25]);
    BigEndianOfNumber(payload[25..27]);
    BigEndianOfNumber(payload[27..29]);
    BigEndianOfNumber(payload[29..31]);
    BigEndianOfNumber(payload[31..35]);
  }

  /** Where the fields of the header lie. */
  lemma HeaderFields(f: Frame, payload: Bytes)
    requires |payload| >= FIXED_FRAME_BYTES && payload[..FIXED_FRAME_BYTES] == Header(f)
    ensures payload[0..8] == BigEndian(8, f.seqno) && payload[8] == f.kind && payload[9..17] == BigEndian(8, f.stream)
    ensures payload[17..25] == BigEndian(8, Unsigned(f.deadline))
    ensures payload[25..27] == BigEndian(2, |f.method_| % UINT16) && payload[27..29] == BigEndian(2, |f.grant| % UINT16)
    ensures payload[29..31] == BigEndian(2, |f.status| % UINT16) && payload[31..35] == BigEndian(4, |f.extra| % UINT32)
  {
    hide BigEndian, Unsigned, Lengths;
    var h := payload[..FIXED_FRAME_BYTES];
    assert payload[0..8] == h[0..8] && payload[9..17] == h[9..17] && payload[17..25] == h[17..25];
    assert h[25..35] == Lengths(f);
    assert h[25..35] == payload[25..35];
    hide Header;
    LengthFields(f, payload[25..35]);
    Within(payload, 0, 2);
    Within(payload, 2, 4);
    Within(payload, 4, 6);
    Within(payload, 6, 10);
  }

  /** The length fields, counted from the start of the payload. */
  lemma Within(payload: Bytes, a: nat, b: nat)
    requires |payload| >= FIXED_FRAME_BYTES && a <= b <= 10
    ensures payload[25..35][a..b] == payload[25 + a..25 + b]
  {
    var lengths := payload[25..35];
    var inner, outer := lengths[a..b], payload[25 + a..25 + b];
    assert |inner| == |outer|;
    forall k | 0 <= k < |inner|
      ensures inner[k] == outer[k]
    {
      assert inner[k] == lengths[a + k];
    }
  }

  lemma LengthFields(f: Frame, l: Bytes)
    requires l == Lengths(f)
    ensures l[0..2] == BigEndian(2, |f.method_| % UINT16) && l[2..4] == BigEndian(2, |f.grant| % UINT16)
    ensures l[4..6] == BigEndian(2, |f.status| % UINT16) && l[6..10] == BigEndian(4, |f.extra| % UINT32)
  {
    FourParts(BigEndian(2, |f.method_| % UINT16), BigEndian(2, |f.grant| % UINT16), BigEndian(2, |f.status| % UINT16),
              BigEndian(4, |f.extra| % UINT32));
  }

  lemma FourParts(a: Bytes, b: Bytes, c: Bytes, d: Bytes)
    requires |a| == |b| == |c| == 2 && |d| == 4
    ensures var l := a + b + c + d; l[0..2] == a && l[2..4] == b && l[4..6] == c && l[6..10] == d
  {
  }

  /** The header fields read back as numbers. */
  lemma HeaderNumbers(f: Frame, payload: Bytes)
    requires |payload| >= FIXED_FRAME_BYTES && payload[..FIXED_FRAME_BYTES] == Header(f)
    ensures Number(payload[0..8]) == f.seqno && payload[8] == f.kind && Number(payload[9..17]) == f.stream
    ensures Number(payload[17..25]) == Unsigned(f.deadline)
    ensures Number(payload[25..27]) == |f.method_| % UINT16 && Number(payload[27..29]) == |f.grant| % UINT16
    ensures Number(payload[29..31]) == |f.status| % UINT16 && Number(payload[31..35]) == |f.extra| % UINT32
  {
    hide Header, BigEndian, Unsigned;
    HeaderFields(f, payload);
    Powers();
    NumberOfBigEndian(8, f.seqno);
    NumberOfBigEndian(8, f.stream);
    NumberOfBigEndian(8, Unsigned(f.deadline));
    NumberOfBigEndian(2, |f.method_| % UINT16);
    NumberOfBigEndian(2, |f.grant| % UINT16);
    NumberOfBigEndian(2, |f.status| % UINT16);
    NumberOfBigEndian(4, |f.extra| % UINT32);
  }

  /** The three names fit their sixteen-bit length fields. */
  predicate NamesFit(f: Frame) {
    |f.method_| < UINT16 && |f.grant| < UINT16 && |f.status| < UINT16
  }

  lemma Slice(a: Bytes, b: Bytes, c: Bytes)
    ensures (a + b + c)[|a|..|a| + |b|] == b && (a + b + c)[|a| + |b|..] == c
  {
  }

  /** Where the variable parts lie. */
  lemma BodyParts(f: Frame, payload: Bytes)
    requires payload == Header(f) + Body(f)
    ensures var grantAt := FIXED_FRAME_BYTES + |f.method_|;
            var statusAt := grantAt + |f.grant|;
            var extraAt := statusAt + |f.status|;
            && |payload| == Size(f)
            && payload[FIXED_FRAME_BYTES..grantAt] == f.method_ && payload[grantAt..statusAt] == f.grant
            && payload[statusAt..extraAt] == f.status && payload[extraAt..] == f.extra
  {
    hide Header;
    FiveParts(Header(f), f.method_, f.grant, f.status, f.extra);
  }

  lemma FiveParts(h: Bytes, a: Bytes, b: Bytes, c: Bytes, d: Bytes)
    ensures var p := h + (a + b + c + d);
            && p[|h|..|h| + |a|] == a && p[|h| + |a|..|h| + |a| + |b|] == b
            && p[|h| + |a| + |b|..|h| + |a| + |b| + |c|] == c && p[|h| + |a| + |b| + |c|..] == d
  {
    var p := h + (a + b + c + d);
    assert p == h + a + (b + c + d);
    Slice(h, a, b + c + d);
    assert p == (h + a) + b + (c + d);
    Slice(h + a, b, c + d);
    assert p == (h + a + b) + c + d;
    Slice(h + a + b, c, d);
  }

  /** What a successful decode reads, field by field. */
  predicate Reads(payload: Bytes, f: Frame)
    requires |payload| >= FIXED_FRAME_BYTES
  {
    && f.seqno == Number(payload[0..8]) && f.kind == payload[8] && f.stream == Number(payload[9..17])
    && Unsigned(f.deadline) == Number(payload[17..25])
    && |f.method_| == Number(payload[25..27]) && |f.grant| == Number(payload[27..29])
    && |f.status| == Number(payload[29..31]) && |f.extra| == Number(payload[31..35])
  }

  /** decodeFrame accepts exactly the payloads whose length fields add up, and reads what they say. */
  lemma DecodeIff(payload: Bytes, f: Frame)
    ensures Decode(payload) == Success(f) <==>
            && |payload| >= FIXED_FRAME_BYTES && |f.extra| <= MAX_FRAME_BYTES - FIXED_FRAME_BYTES
            && Reads(payload, f) && payload[FIXED_FRAME_BYTES..] == Body(f)
  {
    if |payload| >= FIXED_FRAME_BYTES {
      BigEndianLemmas(payload);
      if Decode(payload) == Success(f) {
        Decoded(payload, f);
      } else if |f.extra| <= MAX_FRAME_BYTES - FIXED_FRAME_BYTES && Reads(payload, f)
          && payload[FIXED_FRAME_BYTES..] == Body(f) {
        DecodesTo(payload, f);
        assert false;
      }
    }
  }

  /** Anything else is refused: as too large exactly if the announced extra part is beyond the cap. */
  lemma DecodeRefuses(payload: Bytes)
    requires Decode(payload).Failure?
    ensures Decode(payload).error ==
            if |payload| >= FIXED_FRAME_BYTES && Number(payload[31..35]) + FIXED_FRAME_BYTES > MAX_FRAME_BYTES
            then TooLarge else Invalid
  {
    hide Number;
  }

  lemma Decoded(payload: Bytes, f: Frame)
    requires Decode(payload) == Success(f)
    ensures |f.extra| <= MAX_FRAME_BYTES - FIXED_FRAME_BYTES
    ensures Reads(payload, f) && payload[FIXED_FRAME_BYTES..] == Body(f)
  {
    BigEndianLemmas(payload);
    var a := FIXED_FRAME_BYTES + Number(payload[25..27]);
    var b := a + Number(payload[27..29]);
    var c := b + Number(payload[29..31]);
    hide Number;
    FourPieces(payload, FIXED_FRAME_BYTES, a, b, c);
  }

  lemma FourPieces(p: Bytes, from: nat, a: nat, b: nat, c: nat)
    requires from <= a <= b <= c <= |p|
    ensures p[from..] == p[from..a] + p[a..b] + p[b..c] + p[c..]
  {
  }

  lemma DecodesTo(payload: Bytes, f: Frame)
    requires |payload| >= FIXED_FRAME_BYTES && |f.extra| <= MAX_FRAME_BYTES - FIXED_FRAME_BYTES
    requires Reads(payload, f) && payload[FIXED_FRAME_BYTES..] == Body(f)
    ensures Decode(payload) == Success(f)
  {
    BigEndianLemmas(payload);
    hide Number;
    BodySlices(payload, f);
    assert Signed(Number(payload[17..25])) == f.deadline;
  }

  lemma BodySlices(payload: Bytes, f: Frame)
    requires |payload| >= FIXED_FRAME_BYTES && payload[FIXED_FRAME_BYTES..] == Body(f)
    ensures var a := FIXED_FRAME_BYTES + |f.method_|;
            var b := a + |f.grant|;
            var c := b + |f.status|;
            && |payload| == Size(f) && payload[FIXED_FRAME_BYTES..a] == f.method_ && payload[a..b] == f.grant
            && payload[b..c] == f.status && payload[c..] == f.extra
  {
    BodyParts(f, Header(f) + Body(f));
    assert payload == payload[..FIXED_FRAME_BYTES] + Body(f);
  }

  /**
   decodeFrame undoes encodeFrame exactly when the names fit their length fields; a frame whose
   lengths were cut off is refused rather than misread.
   */
  lemma DecodeAfterEncode(f: Frame)
    requires Encode(f).Success?
    ensures Decode(Encode(f).value) == if NamesFit(f) then Success(f) else Failure(Invalid)
  {
    hide Header, Body, Decode, NamesFit;
    var payload := Encode(f).value;
    assert payload[..FIXED_FRAME_BYTES] == Header(f) && payload[FIXED_FRAME_BYTES..] == Body(f);
    HeaderNumbers(f, payload);
    if NamesFit(f) {
      ReadsBack(f, payload);
      hide Reads;
      DecodeIff(payload, f);
    } else {
      BodyParts(f, payload);
      CutOff(f, payload);
    }
  }

  /** The length fields hold the low bits of the lengths. */
  predicate HeaderSays(f: Frame, payload: Bytes)
    requires |payload| >= FIXED_FRAME_BYTES
  {
    && Number(payload[25..27]) == |f.method_| % UINT16 && Number(payload[27..29]) == |f.grant| % UINT16
    && Number(payload[29..31]) == |f.status| % UINT16 && Number(payload[31..35]) == |f.extra| % UINT32
  }

  lemma ReadsBack(f: Frame, payload: Bytes)
    requires NamesFit(f) && |payload| >= FIXED_FRAME_BYTES && |f.extra| < UINT32 && HeaderSays(f, payload)
    requires Number(payload[0..8]) == f.seqno && payload[8] == f.kind && Number(payload[9..17]) == f.stream
    requires Number(payload[17..25]) == Unsigned(f.deadline)
    ensures Reads(payload, f)
  {
    hide Number, Unsigned;
    Low(|f.method_|);
    Low(|f.grant|);
    Low(|f.status|);
    assert |f.extra| % UINT32 == |f.extra|;
  }

  lemma Low(n: nat)
    ensures n % UINT16 <= n && (n % UINT16 == n <==> n < UINT16)
  {
  }

  lemma CutOff(f: Frame, payload: Bytes)
    requires !NamesFit(f) && |payload| == Size(f) <= MAX_FRAME_BYTES && HeaderSays(f, payload)
    ensures Decode(payload) == Failure(Invalid)
  {
    hide Number, Signed;
    Low(|f.method_|);
    Low(|f.grant|);
    Low(|f.status|);
    assert |f.extra| % UINT32 == |f.extra|;
    assert Number(payload[25..27]) + Number(payload[27..29]) + Number(payload[29..31]) <
           |f.method_| + |f.grant| + |f.status|;
  }

  /** And encodeFrame undoes decodeFrame on every payload it accepts. */
  lemma EncodeAfterDecode(payload: Bytes)
    requires |payload| <= MAX_FRAME_BYTES && Decode(payload).Success?
    ensures Encode(Decode(payload).value) == Success(payload)
    ensures NamesFit(Decode(payload).value)
  {
    hide Decode, Number, Header;
    var f := Decode(payload).value;
    DecodeIff(payload, f);
    BigEndianLemmas(payload);
    ReadHeader(payload, f);
    assert payload == payload[..FIXED_FRAME_BYTES] + payload[FIXED_FRAME_BYTES..];
  }

  lemma ReadHeader(payload: Bytes, f: Frame)
    requires |payload| >= FIXED_FRAME_BYTES && Reads(payload, f)
    ensures Header(f) == payload[..FIXED_FRAME_BYTES]
  {
    BigEndianOfNumber(payload[0..8]);
    BigEndianOfNumber(payload[9..17]);
    BigEndianOfNumber(payload[17..25]);
    hide Number, BigEndian, Unsigned;
    ReadLengths(payload, f);
    hide Lengths;
    assert payload[..35] == payload[0..8] + [payload[8]] + payload[9..17] + payload[17..25] + payload[25..35];
  }

  lemma ReadLengths(payload: Bytes, f: Frame)
    requires |payload| >= FIXED_FRAME_BYTES && Reads(payload, f)
    ensures Lengths(f) == payload[25..35]
  {
    hide Number, BigEndian;
    ReadLength(payload[25..27], |f.method_|);
    ReadLength(payload[27..29], |f.grant|);
    ReadLength(payload[29..31], |f.status|);
    ReadExtra(payload[31..35], |f.extra|);
    LengthBytes(payload);
  }

  lemma ReadExtra(field: Bytes, n: nat)
    requires |field| == 4 && Number(field) == n
    ensures BigEndian(4, n % UINT32) == field
  {
    Powers();
    BigEndianOfNumber(field);
    assert n % UINT32 == n;
  }

  lemma LengthBytes(payload: Bytes)
    requires |payload| >= FIXED_FRAME_BYTES
    ensures payload[25..35] == payload[25..27] + payload[27..29] + payload[29..31] + payload[31..35]
  {
  }

  lemma ReadLength(field: Bytes, n: nat)
    requires |field| == 2 && Number(field) == n
    ensures BigEndian(2, n % UINT16) == field
  {
    Powers();
    BigEndianOfNumber(field);
    Low(n);
  }

  // ------------------------------------------------------- encodeFrame, as it runs

  /** binary.BigEndian.PutUint16, 32 and 64 at an offset. */
  method Put(payload: array<byte>, at: nat, k: nat, n: nat)
    requires at + k <= payload.Length
    modifies payload
    ensures payload[..at + k] == old(payload[..at]) + BigEndian(k, n)
  {
    var i: nat, left: nat := k, n;
    assert payload[at + i..at + k] == [];
    while i > 0
      invariant i <= k
      invariant payload[..at] == old(payload[..at])
      invariant BigEndian(k, n) == BigEndian(i, left) + payload[at + i..at + k]
    {
      ghost var done := payload[at + i..at + k];
      i := i - 1;
      payload[at + i] := left % 256;
      assert payload[at + i..at + k] == [left % 256] + done;
      left := left / 256;
    }
    assert payload[..at + k] == payload[..at] + payload[at..at + k];
  }

  /** Go's copy(payload[offset:], data). */
  method Copy(payload: array<byte>, offset: nat, data: Bytes) returns (n: nat)
    requires offset <= payload.Length
    modifies payload
    ensures n == if |data| < payload.Length - offset then |data| else payload.Length - offset
    ensures payload[..offset + n] == old(payload[..offset]) + data[..n]
    ensures n == |data| ==> payload[..offset + n] == old(payload[..offset]) + data
  {
    n := if |data| < payload.Length - offset then |data| else payload.Length - offset;
    for i := 0 to n
      invariant payload[..offset + i] == old(payload[..offset]) + data[..i]
    {
      payload[offset + i] := data[i];
      assert payload[..offset + i + 1] == payload[..offset + i] + [data[i]];
      assert data[..i + 1] == data[..i] + [data[i]];
    }
    assert n == |data| ==> data[..n] == data;
  }

  method PutLengths(payload: array<byte>, f: Frame)
    requires payload.Length >= FIXED_FRAME_BYTES
    modifies payload
    ensures payload[..FIXED_FRAME_BYTES] == old(payload[..25]) + Lengths(f)
  {
    hide BigEndian;
    ghost var front := payload[..25];
    Put(payload, 25, 2, |f.method_| % UINT16);
    Put(payload, 27, 2, |f.grant| % UINT16);
    Put(payload, 29, 2, |f.status| % UINT16);
    Put(payload, 31, 4, |f.extra| % UINT32);
    assert payload[..35] == front + Lengths(f);
  }

  method PutHeader(payload: array<byte>, f: Frame)
    requires payload.Length >= FIXED_FRAME_BYTES
    modifies payload
    ensures payload[..FIXED_FRAME_BYTES] == Header(f)
  {
    hide BigEndian, Unsigned, Lengths;
    Put(payload, 0, 8, f.seqno);
    payload[8] := f.kind;
    assert payload[..9] == payload[..8] + [f.kind];
    Put(payload, 9, 8, f.stream);
    Put(payload, 17, 8, Unsigned(f.deadline));
    PutLengths(payload, f);
  }

  method EncodeFrame(f: Frame) returns (r: Result<array<byte>, Error>)
    ensures r.Failure? ==> Encode(f) == Failure(r.error)
    ensures r.Success? ==> fresh(r.value) && Encode(f) == Success(r.value[..])
  {
    hide Header;
    var size := FIXED_FRAME_BYTES + |f.method_| + |f.grant| + |f.status| + |f.extra|;
    if size > MAX_FRAME_BYTES {
      return Failure(TooLarge);
    }
    var payload := new byte[size];
    PutHeader(payload, f);
    var offset := FIXED_FRAME_BYTES;
    var n := Copy(payload, offset, f.method_);
    offset := offset + n;
    n := Copy(payload, offset, f.grant);
    offset := offset + n;
    n := Copy(payload, offset, f.status);
    offset := offset + n;
    n := Copy(payload, offset, f.extra);
    assert payload[..] == payload[..offset + n];
    Reassociate(Header(f), f);
    return Success(payload);
  }

  lemma Reassociate(h: Bytes, f: Frame)
    ensures h + f.method_ + f.grant + f.status + f.extra == h + Body(f)
  {
  }

  // -------------------------------------------------------------------- Sessions

  /** validateFrame. */
  function Validate(f: Frame): Option<Error> {
    if f.kind < REQUEST || f.kind > WATCH || |f.method_| > MAX_NAME_BYTES || |f.grant| > MAX_NAME_BYTES
       || |f.status| > MAX_NAME_BYTES
    then Some(Invalid)
    else if !ValidUtf8(f.method_) || !ValidUtf8(f.grant) || !ValidUtf8(f.status) then Some(Invalid)
    else if |f.extra| > MAX_FRAME_BYTES then Some(TooLarge)
    else if f.kind == PTY && |f.extra| > MAX_PTY_BYTES then Some(TooLarge)
    else None
  }

  /** What Send puts on the wire, if it puts anything. */
  function Wire(f: Frame): Result<Bytes, Error> {
    if Validate(f).Some? then Failure(Validate(f).value)
    else
      match Encode(f)
      case Failure(err) => Failure(err)
      case Success(payload) => Success(BigEndian(4, |payload|) + payload)
  }

  predicate Sendable(f: Frame) {
    Wire(f).Success?
  }

  /** Which frames a Send accepts, and with which error it refuses the others. */
  lemma SendableIff(f: Frame)
    ensures var kindOk := 1 <= f.kind <= 4;
            var namesOk := |f.method_| <= 64 && |f.grant| <= 64 && |f.status| <= 64
                           && ValidUtf8(f.method_) && ValidUtf8(f.grant) && ValidUtf8(f.status);
            && (Sendable(f) <==>
                && kindOk && namesOk && (f.kind == PTY ==> |f.extra| <= 65536)
                && 35 + |f.method_| + |f.grant| + |f.status| + |f.extra| <= 75497472)
            && (!Sendable(f) ==> Wire(f) == Failure(if kindOk && namesOk then TooLarge else Invalid))
  {
    hide ValidUtf8, Header, Body, BigEndian;
  }

  /** Recv on what the peer has sent so far: the frame and what is left, or why not. */
  function Recv(stream: Bytes): Result<(Frame, Bytes), Error> {
    if |stream| < 4 then Failure(IO)
    else
      var size := Number(stream[..4]);
      if size == 0 then Failure(Invalid)
      else if size > MAX_FRAME_BYTES then Failure(TooLarge)
      else if |stream| - 4 < size then Failure(IO)
      else
        match Decode(stream[4..4 + size])
        case Failure(err) => Failure(err)
        case Success(f) =>
          if Validate(f).Some? then Failure(Validate(f).value) else Success((f, stream[4 + size..]))
  }

  lemma WireSize(f: Frame)
    requires Sendable(f)
    ensures NamesFit(f) && Encode(f).Success? && FIXED_FRAME_BYTES <= |Encode(f).value| <= MAX_FRAME_BYTES
    ensures Wire(f).value[..4] == BigEndian(4, |Encode(f).value|) && Wire(f).value[4..] == Encode(f).value
    ensures Number(Wire(f).value[..4]) == |Encode(f).value| && |Wire(f).value| == 4 + |Encode(f).value|
  {
    hide Header, ValidUtf8;
    Powers();
    EncodeBounded(f);
    NumberOfBigEndian(4, |Encode(f).value|);
  }

  /** Recv takes exactly one sent frame off the stream and leaves everything after it. */
  lemma RecvAfterSend(f: Frame, rest: Bytes)
    requires Sendable(f)
    ensures Recv(Wire(f).value + rest) == Success((f, rest))
  {
    hide Encode, Decode, Number, BigEndian;
    var wire := Wire(f).value;
    var stream := wire + rest;
    WireSize(f);
    DecodeAfterEncode(f);
    assert stream[..4] == wire[..4];
    assert stream[4..|wire|] == wire[4..] && stream[|wire|..] == rest;
  }

  /** And whatever Recv accepts is, byte for byte, what a Send of that frame writes. */
  lemma SendAfterRecv(stream: Bytes)
    requires Recv(stream).Success?
    ensures var (f, rest) := Recv(stream).value; Sendable(f) && stream == Wire(f).value + rest && |rest| < |stream|
  {
    hide Encode, Decode, Number, BigEndian, Validate;
    var size := Number(stream[..4]);
    var payload := stream[4..4 + size];
    EncodeAfterDecode(payload);
    BigEndianOfNumber(stream[..4]);
    assert stream == stream[..4] + payload + stream[4 + size..];
  }

  /**
   A broken connection is reported exactly for a stream that ends before its announced length; no
   length and a length beyond the cap are refused at once, without waiting for what follows.
   */
  lemma BrokenIff(stream: Bytes)
    ensures Recv(stream) == Failure(IO) <==>
              || |stream| < 4
              || (0 < Number(stream[..4]) <= MAX_FRAME_BYTES && |stream| < Announced(stream))
    ensures |stream| >= 4 && Number(stream[..4]) == 0 ==> Recv(stream) == Failure(Invalid)
    ensures |stream| >= 4 && Number(stream[..4]) > MAX_FRAME_BYTES ==> Recv(stream) == Failure(TooLarge)
  {
    hide Number, ValidUtf8, Header, Body, BigEndian;
  }

  /** Any other verdict, frame or error, stays as it is whatever arrives later. */
  lemma VerdictStays(stream: Bytes, more: Bytes)
    ensures Recv(stream).Success? ==>
              Recv(stream + more) == Success((Recv(stream).value.0, Recv(stream).value.1 + more))
    ensures Recv(stream).Failure? && Recv(stream) != Failure(IO) ==> Recv(stream + more) == Recv(stream)
  {
    hide Number, Decode, Validate;
    var all := stream + more;
    if |stream| >= 4 {
      assert all[..4] == stream[..4];
      var size := Number(stream[..4]);
      if size <= |stream| - 4 {
        assert all[4..4 + size] == stream[4..4 + size];
        assert all[4 + size..] == stream[4 + size..] + more;
      }
    }
  }

  /** A frame cut short anywhere is not received, and nothing is received in its place. */
  lemma RecvOfPart(f: Frame, part: Bytes)
    requires Sendable(f) && part < Wire(f).value
    ensures Recv(part) == Failure(IO)
  {
    hide Encode, Decode, Number, BigEndian, Validate;
    WireSize(f);
    if |part| >= 4 {
      assert part[..4] == Wire(f).value[..4];
    }
  }

  /** Frames received until the stream gives no more. */
  function RecvAll(stream: Bytes): seq<Frame>
    decreases |stream|
  {
    match Recv(stream)
    case Failure(_) => []
    case Success((f, rest)) =>
      if |rest| < |stream| then [f] + RecvAll(rest) else []
  }

  predicate AllSendable(frames: seq<Frame>) {
    forall i :: 0 <= i < |frames| ==> Sendable(frames[i])
  }

  /** The concatenated output of the Sends. */
  function WireAll(frames: seq<Frame>): Bytes
    requires AllSendable(frames)
  {
    if frames == [] then [] else Wire(frames[0]).value + WireAll(frames[1..])
  }

  /** The receiver gets exactly the frames sent, in order, whatever follows them. */
  lemma {:induction false} StreamRoundTrip(frames: seq<Frame>, rest: Bytes)
    requires AllSendable(frames)
    ensures RecvAll(WireAll(frames) + rest) == frames + RecvAll(rest)
  {
    hide Recv, Wire;
    if frames == [] {
      assert [] + rest == rest;
      assert frames + RecvAll(rest) == RecvAll(rest);
    } else {
      var f := frames[0];
      var after := WireAll(frames[1..]) + rest;
      StreamRoundTrip(frames[1..], rest);
      RecvAllStep(f, after);
      assert WireAll(frames) + rest == Wire(f).value + after;
      assert frames + RecvAll(rest) == [f] + (frames[1..] + RecvAll(rest));
    }
  }

  lemma RecvAllStep(f: Frame, after: Bytes)
    requires Sendable(f)
    ensures RecvAll(Wire(f).value + after) == [f] + RecvAll(after)
  {
    hide Recv, Wire;
    RecvAfterSend(f, after);
    WireNonEmpty(f);
  }

  lemma WireNonEmpty(f: Frame)
    requires Sendable(f)
    ensures |Wire(f).value| > 4
  {
    hide Encode;
    WireSize(f);
  }

  /** A connection lost in the middle of a frame still delivers exactly the frames before it. */
  lemma LostInTheMiddle(frames: seq<Frame>, last: Frame, part: Bytes)
    requires AllSendable(frames) && Sendable(last) && part < Wire(last).value
    ensures RecvAll(WireAll(frames) + part) == frames
  {
    hide Recv, Wire;
    StreamRoundTrip(frames, part);
    RecvOfPart(last, part);
    assert RecvAll(part) == [];
    assert frames + [] == frames;
  }

  /**
   A Send that failed part way leaves the session open, so later frames follow its first n bytes.
   With no byte out the later frames arrive as sent; with all of them out the failed frame arrives
   as well. In between, the receiver takes as many bytes as the first four announce for one frame
   and reads on behind them, or takes them for no frame and stops. With the length out these are the
   bytes of the broken frame, the missing ones supplied by the frames that follow; with only part
   of it out the length itself is made of both (AnnouncedShort).
   */
  lemma SendsAfterFailure(before: seq<Frame>, f: Frame, n: nat, later: seq<Frame>)
    requires AllSendable(before) && Sendable(f) && AllSendable(later) && n <= |Wire(f).value|
    ensures var stream := Wire(f).value[..n] + WireAll(later);
            var got := RecvAll(WireAll(before) + stream);
            && (n == 0 ==> got == before + later)
            && (n == |Wire(f).value| ==> got == before + [f] + later)
            && (n >= 4 ==> Announced(stream) == |Wire(f).value|)
            && (if |stream| < 4 || |stream| < Announced(stream) then got == before
                else got == before || exists g :: got == before + [g] + RecvAll(stream[Announced(stream)..]))
  {
    hide Recv, Wire, Announced, RecvAll, WireAll;
    var rest := WireAll(later);
    var stream := Wire(f).value[..n] + rest;
    StreamRoundTrip(before, stream);
    AtTheEnds(f, n, later);
    assert before + ([f] + later) == before + [f] + later;
    if n >= 4 {
      WireAnnounced(f, n, rest);
    }
    TakesOne(stream);
    if RecvAll(stream) != [] {
      var g :| RecvAll(stream) == [g] + RecvAll(stream[Announced(stream)..]);
      assert before + ([g] + RecvAll(stream[Announced(stream)..])) ==
             before + [g] + RecvAll(stream[Announced(stream)..]);
    } else {
      assert before + [] == before;
    }
  }

  lemma AtTheEnds(f: Frame, n: nat, later: seq<Frame>)
    requires Sendable(f) && AllSendable(later) && n <= |Wire(f).value|
    ensures n == 0 ==> RecvAll(Wire(f).value[..n] + WireAll(later)) == later
    ensures n == |Wire(f).value| ==> RecvAll(Wire(f).value[..n] + WireAll(later)) == [f] + later
  {
    hide Recv, Wire, WireAll;
    var wire, rest := Wire(f).value, WireAll(later);
    assert rest + [] == rest && later + [] == later;
    StreamRoundTrip(later, []);
    NothingArrives();
    if n == 0 {
      assert wire[..n] + rest == rest;
    }
    if n == |wire| {
      assert wire[..n] == wire;
      RecvAllStep(f, rest);
    }
  }

  /** What is received of a stream: nothing, or one frame of the announced length and what is received behind it. */
  lemma TakesOne(stream: Bytes)
    ensures Announced(stream) <= |stream| || RecvAll(stream) == []
    ensures |stream| < 4 ==> RecvAll(stream) == []
    ensures || RecvAll(stream) == []
            || (Announced(stream) <= |stream|
                && exists g :: RecvAll(stream) == [g] + RecvAll(stream[Announced(stream)..]))
  {
    hide Recv, Announced;
    Swallows(stream);
    if Recv(stream).Success? {
      var (g, left) := Recv(stream).value;
      assert RecvAll(stream) == [g] + RecvAll(left);
    }
  }

  /** How many bytes the receiver takes the first frame of a stream to have, its length included. */
  function Announced(stream: Bytes): nat {
    if |stream| < 4 then 0 else 4 + Number(stream[..4])
  }

  lemma WireAnnounced(f: Frame, n: nat, rest: Bytes)
    requires Sendable(f) && 4 <= n <= |Wire(f).value|
    ensures Announced(Wire(f).value[..n] + rest) == |Wire(f).value|
  {
    hide Wire, Encode, Number, BigEndian, Validate;
    WireSize(f);
    assert (Wire(f).value[..n] + rest)[..4] == Wire(f).value[..4];
  }

  /**
   With one to three bytes of the length out, the next frame's length supplies the others: the high
   bytes of the one and the high bytes of the other make the length that is announced.
   */
  lemma AnnouncedShort(f: Frame, n: nat, g: Frame, rest: Bytes)
    requires Sendable(f) && Sendable(g) && n <= 4
    ensures var size, next := |Wire(f).value| - 4, |Wire(g).value| - 4;
            Announced(Wire(f).value[..n] + (Wire(g).value + rest)) ==
            4 + size / Pow256(4 - n) * Pow256(4 - n) + next / Pow256(n)
  {
    hide Wire, Encode, Number, BigEndian, Validate;
    Powers();
    WireSize(f);
    WireSize(g);
    var wire, after := Wire(f).value, Wire(g).value;
    var size, next := |wire| - 4, |after| - 4;
    assert (wire[..n] + (after + rest))[..4] == wire[..4][..n] + after[..4][..4 - n];
    FirstBytes(4, n, size);
    FirstBytes(4, 4 - n, next);
    QuotientFits(n, size);
    QuotientFits(4 - n, next);
    NumberAppend(wire[..4][..n], after[..4][..4 - n]);
    NumberOfBigEndian(n, size / Pow256(4 - n));
    NumberOfBigEndian(4 - n, next / Pow256(n));
  }

  lemma NothingArrives()
    ensures RecvAll([]) == []
  {
  }

  /** The announced length is what Recv takes, wherever the bytes come from. */
  lemma Swallows(stream: Bytes)
    ensures Recv(stream).Success? ==>
              4 < Announced(stream) <= |stream| && Recv(stream).value.1 == stream[Announced(stream)..]
  {
    hide Decode, Number, Validate;
  }

  /** A connection: what has been written to it, and what has arrived and not been read. */
  class Conn {
    var sent: Bytes
    var arrived: Bytes

    constructor (arrived: Bytes)
      ensures sent == [] && this.arrived == arrived
    {
      sent, this.arrived := [], arrived;
    }

    /** One Write: any number of bytes may go out, with or without an error. */
    method Write(data: Bytes) returns (n: nat, err: Option<Error>)
      modifies this
      ensures n <= |data| && sent == old(sent) + data[..n] && arrived == old(arrived)
    {
      n :| 0 <= n <= |data|;
      sent := sent + data[..n];
      var fault: bool := *;
      err := if fault then Some(IO) else None;
    }

    /** io.ReadFull of size bytes. */
    method ReadFull(size: nat) returns (r: Result<Bytes, Error>)
      modifies this
      ensures sent == old(sent)
      ensures r == if size <= |old(arrived)| then Success(old(arrived)[..size]) else Failure(IO)
      ensures r.Success? ==> arrived == old(arrived)[size..]
    {
      if size <= |arrived| {
        r := Success(arrived[..size]);
        arrived := arrived[size..];
      } else {
        r := Failure(IO);
        arrived := [];
      }
    }
  }

  /** writeAll: whatever each Write takes, success means all of it and failure a part of it. */
  method WriteAll(conn: Conn, data: Bytes) returns (err: Option<Error>)
    modifies conn
    ensures conn.arrived == old(conn.arrived)
    ensures exists n :: 0 <= n <= |data| && conn.sent == old(conn.sent) + data[..n] && (err.None? ==> n == |data|)
  {
    var left := data;
    ghost var done: nat := 0;
    while |left| > 0
      invariant done <= |data| && left == data[done..]
      invariant conn.sent == old(conn.sent) + data[..done] && conn.arrived == old(conn.arrived)
      decreases |left|
    {
      var n, fault := conn.Write(left);
      assert data[..done] + left[..n] == data[..done + n];
      done := done + n;
      if fault.Some? {
        return fault;
      }
      if n == 0 {
        return Some(IO);
      }
      left := left[n..];
    }
    return None;
  }

  /** Send: the whole frame goes out, or an error and a part of it; a refused frame sends nothing. */
  method Send(conn: Conn, f: Frame) returns (err: Option<Error>)
    modifies conn
    ensures conn.arrived == old(conn.arrived)
    ensures !Sendable(f) ==> err == Some(Wire(f).error) && conn.sent == old(conn.sent)
    ensures Sendable(f) && err.None? ==> conn.sent == old(conn.sent) + Wire(f).value
    ensures Sendable(f) && err.Some? ==>
            exists n :: 0 <= n <= |Wire(f).value| && conn.sent == old(conn.sent) + Wire(f).value[..n]
  {
    hide Encode, BigEndian, Validate;
    err := Validate(f);
    if err.Some? {
      return;
    }
    var encoded := EncodeFrame(f);
    if encoded.Failure? {
      return Some(encoded.error);
    }
    var payload := encoded.value[..];
    if |payload| > MAX_FRAME_BYTES {
      EncodeBounded(f);
      assert false;
    }
    ghost var wire := Wire(f).value;
    ghost var before := conn.sent;
    var header := BigEndian(4, |payload|);
    assert wire == header + payload;
    err := WriteAll(conn, header);
    if err.Some? {
      ghost var n :| 0 <= n <= |header| && conn.sent == before + header[..n];
      assert header[..n] == wire[..n];
      return;
    }
    assert conn.sent == before + header by { assert header[..|header|] == header; }
    err := WriteAll(conn, payload);
    ghost var n :| 0 <= n <= |payload| && conn.sent == before + header + payload[..n] && (err.None? ==> n == |payload|);
    assert header + payload[..n] == wire[..4 + n];
    assert wire[..|wire|] == wire;
  }

  lemma EncodeBounded(f: Frame)
    requires Encode(f).Success?
    ensures |Encode(f).value| <= MAX_FRAME_BYTES
  {
  }

  /** One more successful Send extends the concatenation at its end. */
  lemma {:induction false} WireAllSnoc(frames: seq<Frame>, f: Frame)
    requires AllSendable(frames) && Sendable(f)
    ensures WireAll(frames + [f]) == WireAll(frames) + Wire(f).value
  {
    hide Wire;
    if frames == [] {
      assert [f][1..] == [];
    } else {
      WireAllSnoc(frames[1..], f);
      assert (frames + [f])[1..] == frames[1..] + [f];
    }
  }

  /** Recv, reading the header and then exactly the announced number of bytes. */
  method Receive(conn: Conn) returns (r: Result<Frame, Error>)
    modifies conn
    ensures conn.sent == old(conn.sent)
    ensures match Recv(old(conn.arrived))
            case Failure(err) => r == Failure(err)
            case Success((f, rest)) => r == Success(f) && conn.arrived == rest
  {
    hide Decode, Number, Validate;
    var header := conn.ReadFull(4);
    if header.Failure? {
      return Failure(header.error);
    }
    var size := Number(header.value);
    if size == 0 {
      return Failure(Invalid);
    }
    if size > MAX_FRAME_BYTES {
      return Failure(TooLarge);
    }
    var payload := conn.ReadFull(size);
    if payload.Failure? {
      return Failure(payload.error);
    }
    assert old(conn.arrived)[4..][..size] == old(conn.arrived)[4..4 + size];
    assert old(conn.arrived)[4..][size..] == old(conn.arrived)[4 + size..];
    var decoded := Decode(payload.value);
    if decoded.Failure? {
      return Failure(decoded.error);
    }
    var err := Validate(decoded.value);
    return if err.Some? then Failure(err.value) else decoded;
  }
}
