/**
 The BACnet/IP subset of fwEDR/internal/bacnet/codec.go: tag encoders, BVLL and NPDU
 framing, and the decoders that walk an acknowledgement by position.
 */
module Bacnet {
  import opened Bytes
  import opened Options

  const PROP_PRESENT_VALUE: int := 85
  const BVLL_TYPE: Byte := 0x81
  const BVLC_FORWARDED: Byte := 0x04
  const BVLC_UNICAST: Byte := 0x0A
  const BVLC_BROADCAST: Byte := 0x0B

  // --- Tag encoders --------------------------------------------------------------------

  function BitLength(v: nat): nat
  {
    if v == 0 then 0 else 1 + BitLength(v / 2)
  }

  function Pow2(k: nat): (p: nat)
    ensures p > 0
  {
    if k == 0 then 1 else 2 * Pow2(k - 1)
  }

  /** The bit length is the least `k` with `v < 2^k`. */
  lemma {:induction false} BitLengthIsLeast(v: nat, k: nat)
    ensures BitLength(v) <= k <==> v < Pow2(k)
  {
    if v > 0 && k > 0 {
      BitLengthIsLeast(v / 2, k - 1);
    }
  }

  method BitLen(v0: nat) returns (n: nat)
    requires v0 < TWO32
    ensures n == BitLength(v0)
  {
    n := 0;
    var v := v0;
    while v > 0
      invariant n + BitLength(v) == BitLength(v0)
    {
      n := n + 1;
      v := v / 2;
    }
  }

  /** Bytes needed for `v`: `(bitLen(v) + 7) / 8`. */
  function ByteLen(v: nat): nat
  {
    (BitLength(v) + 7) / 8
  }

  lemma ByteLenByRange(v: nat)
    requires 0 < v < TWO32
    ensures ByteLen(v) == if v < 0x100 then 1 else if v < 0x1_0000 then 2 else if v < 0x100_0000 then 3 else 4
  {
    hide BitLength, Pow2;
    WholeBytes();
    BitLengthIsLeast(v, 0);
    BitLengthIsLeast(v, 8);
    BitLengthIsLeast(v, 16);
    BitLengthIsLeast(v, 24);
    BitLengthIsLeast(v, 32);
  }

  lemma WholeBytes()
    ensures Pow2(0) == 1 && Pow2(8) == 0x100 && Pow2(16) == 0x1_0000 && Pow2(24) == 0x100_0000 && Pow2(32) == TWO32
  {
    EightMore(0);
    EightMore(8);
    EightMore(16);
    EightMore(24);
  }

  lemma EightMore(k: nat)
    ensures Pow2(k + 8) == 0x100 * Pow2(k)
  {
    TwoMore(k);
    TwoMore(k + 2);
    TwoMore(k + 4);
    TwoMore(k + 6);
    hide Pow2;
  }

  lemma TwoMore(k: nat)
    ensures Pow2(k + 2) == 4 * Pow2(k)
  {
    assert Pow2(k + 1) == 2 * Pow2(k);
  }

  /** The last `n` of the four big-endian bytes of `v`. */
  function TailBytes(v: nat, n: nat): (r: seq<Byte>)
    requires v < TWO32 && n <= 4
    ensures |r| == n
  {
    PutUint32(v)[4 - n..]
  }

  /** The shortest big-endian form of `v`, one byte at least. */
  function Minimal(v: nat): (r: seq<Byte>)
    requires v < TWO32
    ensures 1 <= |r| <= 4
  {
    if v == 0 then [0]
    else
      ByteLenByRange(v);
      TailBytes(v, ByteLen(v))
  }

  function EncAppUint(v: nat): seq<Byte>
    requires v < TWO32
  {
    [0x20 + |Minimal(v)|] + Minimal(v)
  }

  function EncAppEnum(v: nat): seq<Byte>
    requires v < TWO32
  {
    [0x90 + |Minimal(v)|] + Minimal(v)
  }

  /** Type in the top 10 bits, instance in the low 22, both masked. */
  function OidWord(objType: int, instance: int): (v: nat)
    ensures v < TWO32
  {
    objType % 0x400 * 0x40_0000 + instance % 0x40_0000
  }

  function EncCtxUint(ctx: nat, v: nat): seq<Byte>
    requires ctx < 16 && v < TWO32
  {
    [ctx * 16 + 8 + |Minimal(v)|] + Minimal(v)
  }

  function EncCtxOid(ctx: nat, objType: int, instance: int): seq<Byte>
    requires ctx < 16
  {
    [ctx * 16 + 12] + PutUint32(OidWord(objType, instance))
  }

  function EncCtxOpen(ctx: nat): seq<Byte>
    requires ctx < 16
  {
    [ctx * 16 + 14]
  }

  function EncCtxClose(ctx: nat): seq<Byte>
    requires ctx < 16
  {
    [ctx * 16 + 15]
  }

  // --- Framing -------------------------------------------------------------------------

  /** What a frame parser does; slicing past the declared length stops the Go program. */
  datatype Parsed = Payload(bytes: seq<Byte>) | Short | NetworkMessage | Panic

  function BuildNpdu(apdu: seq<Byte>, expectsReply: bool): seq<Byte>
  {
    [0x01, if expectsReply then 0x04 else 0x00] + apdu
  }

  /** The length field holds only the low 16 bits of the frame length. */
  function BuildBvll(npdu: seq<Byte>, broadcast: bool): seq<Byte>
  {
    var length := 4 + |npdu|;
    [BVLL_TYPE, if broadcast then BVLC_BROADCAST else BVLC_UNICAST, length / 256 % 256, length % 256] + npdu
  }

  function DeclaredLength(data: seq<Byte>): nat
    requires |data| >= 4
  {
    var hi: int := data[2];
    hi * 256 + data[3]
  }

  function ParseBvll(data: seq<Byte>): Parsed
  {
    if |data| < 4 || data[0] != BVLL_TYPE then Short
    else
      var length := DeclaredLength(data);
      if length > |data| then Short
      else if data[1] == BVLC_FORWARDED then
        if length < 10 then Short else Payload(data[10..length])
      else if length < 4 then Panic
      else Payload(data[4..length])
  }

  function ParseNpdu(data: seq<Byte>): Parsed
  {
    if |data| < 2 || data[0] != 0x01 then Short
    else
      var ctrl := data[1];
      if ctrl / 128 % 2 == 1 then NetworkMessage
      else
        var dnet := ctrl / 32 % 2 == 1;
        if dnet && 4 >= |data| then Short
        else
          var dlen: int := if dnet then data[4] else 0;
          var pos := if dnet then 2 + 3 + dlen + 1 else 2;
          var snet := ctrl / 8 % 2 == 1;
          if snet && pos + 2 >= |data| then Short
          else
            var pos' := if snet then pos + 3 + data[pos + 2] else pos;
            if pos' > |data| then Short else Payload(data[pos'..])
  }

  /** `parseNPDU(parseBVLL(frame))`. */
  function Unwrap(frame: seq<Byte>): Parsed
  {
    match ParseBvll(frame)
    case Payload(npdu) => ParseNpdu(npdu)
    case other => other
  }

  /** Unwrapping a built frame gives the APDU back exactly when the frame length fits 16 bits. */
  lemma FrameRoundTripIff(apdu: seq<Byte>, expectsReply: bool, broadcast: bool)
    ensures Unwrap(BuildBvll(BuildNpdu(apdu, expectsReply), broadcast)) == Payload(apdu) <==> |apdu| + 6 < 0x1_0000
  {
    hide ParseNpdu;
    var npdu := BuildNpdu(apdu, expectsReply);
    var frame := BuildBvll(npdu, broadcast);
    var length := 4 + |npdu|;
    LengthField(length);
    NpduRoundTrip(apdu, expectsReply);
    assert ParseBvll(frame) == if length % 0x1_0000 < 4 then Panic else Payload(frame[4..length % 0x1_0000]);
    if length < 0x1_0000 {
      assert frame[4..length] == npdu;
    } else {
      var declared := length % 0x1_0000;
      if declared >= 4 { NpduShrinks(frame[4..declared]); }
    }
  }

  lemma LengthField(length: nat)
    ensures length / 256 % 256 * 256 + length % 256 == length % 0x1_0000
  {
  }

  lemma NpduRoundTrip(apdu: seq<Byte>, expectsReply: bool)
    ensures ParseNpdu(BuildNpdu(apdu, expectsReply)) == Payload(apdu)
  {
  }

  /** A built frame: its length, one octet for each of the two choices, and the APDU behind them. */
  lemma BuiltFrame(apdu: seq<Byte>, expectsReply: bool, broadcast: bool)
    ensures var f := BuildBvll(BuildNpdu(apdu, expectsReply), broadcast);
            && |f| == 6 + |apdu| && f[6..] == apdu && DeclaredLength(f) == |f| % 0x1_0000
            && f[0] == 0x81 && f[1] == (if broadcast then 0x0B else 0x0A)
            && f[4] == 0x01 && f[5] == (if expectsReply then 0x04 else 0x00)
  {
    LengthField(6 + |apdu|);
  }

  lemma NpduShrinks(data: seq<Byte>)
    ensures ParseNpdu(data).Payload? ==> |ParseNpdu(data).bytes| + 2 <= |data|
  {
  }

  /** The only inputs on which frame parsing stops the program: a non-forwarded frame declaring under 4 bytes. */
  lemma ParseBvllPanicsIff(data: seq<Byte>)
    ensures ParseBvll(data) == Panic <==>
            |data| >= 4 && data[0] == BVLL_TYPE && data[1] != BVLC_FORWARDED && DeclaredLength(data) < 4
    ensures ParseBvll([0x81, 0x0A, 0x00, 0x00]) == Panic
  {
  }

  // --- Routed and forwarded frames -------------------------------------------------------

  /** A network number and a station address. */
  datatype Address = Address(hi: Byte, lo: Byte, mac: seq<Byte>)

  function EncAddress(a: Option<Address>): seq<Byte>
    requires a.Some? ==> |a.value.mac| < 256
  {
    match a
    case None => []
    case Some(x) => [x.hi, x.lo, |x.mac|] + x.mac
  }

  function Control(hasDest: bool, hasSource: bool, expectsReply: bool): Byte
  {
    (if hasDest then 0x20 else 0) + (if hasSource then 0x08 else 0) + (if expectsReply then 0x04 else 0)
  }

  lemma ControlBits(hasDest: bool, hasSource: bool, expectsReply: bool)
    ensures var ctrl: int := Control(hasDest, hasSource, expectsReply);
            ctrl / 128 % 2 == 0 && (ctrl / 32 % 2 == 1 <==> hasDest) && (ctrl / 8 % 2 == 1 <==> hasSource)
  {
  }

  /** An NPDU with optional destination and source, and a hop count behind both when there is a destination. */
  function BuildRouted(apdu: seq<Byte>, expectsReply: bool, dest: Option<Address>, source: Option<Address>, hops: Byte)
      : seq<Byte>
    requires dest.Some? ==> |dest.value.mac| < 256
    requires source.Some? ==> |source.value.mac| < 256
  {
    [0x01, Control(dest.Some?, source.Some?, expectsReply)] + EncAddress(dest) + EncAddress(source)
    + (if dest.Some? then [hops] else []) + apdu
  }

  /**
   A routed NPDU gives its APDU back exactly when it does not name both ends, or when the octet behind
   the source's length happens to equal that length: with both, the decoder looks one octet too far.
   */
  lemma RoutedRoundTripIff(apdu: seq<Byte>, expectsReply: bool, dest: Option<Address>, source: Option<Address>,
                           hops: Byte)
    requires dest.Some? ==> |dest.value.mac| < 256
    requires source.Some? ==> |source.value.mac| < 256
    ensures ParseNpdu(BuildRouted(apdu, expectsReply, dest, source, hops)) == Payload(apdu) <==>
      (dest.Some? && source.Some? ==> (source.value.mac + [hops])[0] == |source.value.mac|)
  {
    ControlBits(dest.Some?, source.Some?, expectsReply);
    var data := BuildRouted(apdu, expectsReply, dest, source, hops);
    match (dest, source)
    case (None, None) =>
      hide Control;
      assert data[2..] == apdu;
    case (Some(x), None) =>
      hide Control;
      assert data[4] == |x.mac| && data[6 + |x.mac|..] == apdu;
    case (None, Some(y)) =>
      hide Control;
      assert data[4] == |y.mac| && data[5 + |y.mac|..] == apdu;
    case (Some(x), Some(y)) =>
      hide *;
      BothEnds(apdu, expectsReply, x, y, hops);
  }

  /** The octets the decoder looks at when both ends are named. */
  lemma BothEndsLayout(apdu: seq<Byte>, expectsReply: bool, x: Address, y: Address, hops: Byte)
    requires |x.mac| < 256 && |y.mac| < 256
    ensures var data, n, m := BuildRouted(apdu, expectsReply, Some(x), Some(y), hops), |x.mac|, |y.mac|;
            && |data| == 9 + n + m + |apdu| && data[0] == 1 && data[1] == Control(true, true, expectsReply)
            && data[4] == n && data[8 + n] == (y.mac + [hops])[0] && data[9 + n + m..] == apdu
  {
    hide Control;
    var front := [0x01, Control(true, true, expectsReply)] + EncAddress(Some(x)) + [y.hi, y.lo, |y.mac|];
    var back := (y.mac + [hops]) + apdu;
    assert BuildRouted(apdu, expectsReply, Some(x), Some(y), hops) == front + back;
    assert |front| == 8 + |x.mac|;
  }

  lemma BothEnds(apdu: seq<Byte>, expectsReply: bool, x: Address, y: Address, hops: Byte)
    requires |x.mac| < 256 && |y.mac| < 256
    ensures ParseNpdu(BuildRouted(apdu, expectsReply, Some(x), Some(y), hops)) == Payload(apdu) <==>
      (y.mac + [hops])[0] == |y.mac|
  {
    hide BuildRouted, Control, EncAddress;
    BothEndsLayout(apdu, expectsReply, x, y, hops);
    ControlBits(true, true, expectsReply);
    var data, n, m := BuildRouted(apdu, expectsReply, Some(x), Some(y), hops), |x.mac|, |y.mac|;
    var read: int := data[8 + n];
    assert ParseNpdu(data) == if 9 + n + read > |data| then Short else Payload(data[9 + n + read..]);
    hide ParseNpdu;
    if read != m && 9 + n + read <= |data| {
      assert |data[9 + n + read..]| != |apdu|;
    }
  }

  /** A frame that a broadcast device passed on: the sender's address, then the NPDU. */
  function BuildForwarded(origin: seq<Byte>, npdu: seq<Byte>): seq<Byte>
    requires |origin| == 6
  {
    var length := 10 + |npdu|;
    [0x81, 0x04, length / 256 % 256, length % 256] + origin + npdu
  }

  /** A forwarded frame gives its NPDU back exactly when its length fits 16 bits. */
  lemma ForwardedRoundTripIff(origin: seq<Byte>, npdu: seq<Byte>)
    requires |origin| == 6
    ensures ParseBvll(BuildForwarded(origin, npdu)) == Payload(npdu) <==> |npdu| + 10 < 0x1_0000
  {
    var frame := BuildForwarded(origin, npdu);
    var length := 10 + |npdu|;
    LengthField(length);
    assert DeclaredLength(frame) == length % 0x1_0000;
    assert frame[10..] == npdu;
    if length < 0x1_0000 {
      assert frame[10..length] == npdu;
    } else if length % 0x1_0000 >= 10 {
      assert |frame[10..length % 0x1_0000]| < |npdu|;
    }
  }

  /** Another type octet or version, too large a declared length, and network messages are refused. */
  lemma RejectedFrames(data: seq<Byte>)
    ensures |data| >= 4 && data[0] == 0x81 && DeclaredLength(data) > |data| ==> ParseBvll(data) == Short
    ensures |data| < 4 || data[0] != 0x81 ==> ParseBvll(data) == Short
    ensures |data| < 2 || data[0] != 0x01 ==> ParseNpdu(data) == Short
    ensures |data| >= 2 && data[0] == 0x01 && data[1] >= 0x80 ==> ParseNpdu(data) == NetworkMessage
    ensures ParseNpdu(data) == NetworkMessage ==> |data| >= 2 && data[1] >= 0x80
  {
  }

  // --- Tag headers and scalar values -----------------------------------------------------

  datatype Hdr =
    | Hdr(tag: nat, ctx: bool, open: bool, close: bool, vlen: nat, next: nat)
    | HdrError

  function {:induction false} ReadTagHdr(data: seq<Byte>, pos: nat): (h: Hdr)
    ensures h.Hdr? ==> pos < h.next <= |data|
    ensures h.Hdr? && (h.open || h.close) ==> h.ctx && h.vlen == 0
  {
    if pos >= |data| then HdrError
    else
      var b: int := data[pos];
      var raw, ctx, lenEnc := b / 16, b / 8 % 2 == 1, b % 8;
      if raw == 15 && pos + 1 >= |data| then HdrError
      else
        var tag: nat := if raw == 15 then data[pos + 1] else raw;
        var p := if raw == 15 then pos + 2 else pos + 1;
        if ctx && lenEnc == 6 then Hdr(tag, true, true, false, 0, p)
        else if ctx && lenEnc == 7 then Hdr(tag, true, false, true, 0, p)
        else if lenEnc == 5 then ExtendedLength(data, p, tag, ctx)
        else Hdr(tag, ctx, false, false, lenEnc, p)
  }

  /** A tag number in an octet of its own: the header reads as a short one with that number, one octet later. */
  lemma ExtendedTagReads(data: seq<Byte>, pos: nat, short: Byte)
    requires pos + 1 < |data| && data[pos] / 16 == 15 && short / 16 < 15 && short % 16 == data[pos] % 16
    ensures var e, s := ReadTagHdr(data, pos), ReadTagHdr(data[pos + 1 := short], pos + 1);
            (e.HdrError? <==> s.HdrError?) && (e.Hdr? ==> e == s.(tag := data[pos + 1]))
  {
    hide ExtendedLength;
    var b, c: int := data[pos], short;
    LowHalf(b / 16, b % 16);
    LowHalf(c / 16, c % 16);
    LengthElsewhere(data, data[pos + 1 := short], pos + 2, data[pos + 1], c / 16, b / 8 % 2 == 1);
  }

  /** The low half of an octet holds its class bit and its length. */
  lemma LowHalf(q: nat, r: nat)
    requires r < 16
    ensures (q * 16 + r) % 8 == r % 8 && (q * 16 + r) / 8 % 2 == r / 8
  {
    var k, m := q * 2 + r / 8, r % 8;
    assert q * 16 + r == k * 8 + m && r / 8 < 2;
    assert (k * 8 + m) / 8 == k && (k * 8 + m) % 8 == m;
  }

  lemma LengthElsewhere(data: seq<Byte>, moved: seq<Byte>, p: nat, tag: nat, short: nat, ctx: bool)
    requires p <= |data| == |moved| && data[p..] == moved[p..]
    ensures var e, s := ExtendedLength(data, p, tag, ctx), ExtendedLength(moved, p, short, ctx);
            (e.HdrError? <==> s.HdrError?) && (e.Hdr? ==> e == s.(tag := tag))
  {
    hide Uint32;
    forall i | p <= i < |data| ensures data[i] == moved[i] {
      assert data[i] == data[p..][i - p] && moved[i] == moved[p..][i - p];
    }
    if p + 5 <= |data| { assert data[p + 1..p + 5] == moved[p + 1..p + 5]; }
  }

  function ExtendedLength(data: seq<Byte>, p: nat, tag: nat, ctx: bool): (h: Hdr)
    ensures h.Hdr? ==> p < h.next <= |data| && !h.open && !h.close
  {
    if p >= |data| then HdrError
    else if data[p] == 254 then
      if p + 3 > |data| then HdrError
      else
        var hi: int := data[p + 1];
        Hdr(tag, ctx, false, false, hi * 256 + data[p + 2], p + 3)
    else if data[p] == 255 then
      if p + 5 > |data| then HdrError
      else Hdr(tag, ctx, false, false, Uint32(data[p + 1..p + 5]), p + 5)
    else Hdr(tag, ctx, false, false, data[p], p + 1)
  }

  /** A decoded scalar: an exact whole number, or the word of a 32-bit REAL. */
  datatype Scalar = Whole(n: nat) | Real32(word: nat)

  datatype Decoded = Decoded(value: Scalar, next: nat) | NotDecoded

  function AppValue(data: seq<Byte>, pos: nat): (r: Decoded)
    ensures r.Decoded? ==> pos < r.next <= |data|
  {
    if pos >= |data| then NotDecoded
    else
      var b: int := data[pos];
      var appTag, lenEnc, p := b / 16, b % 8, pos + 1;
      match appTag
      case 1 => Decoded(Whole(lenEnc % 2), p)
      case 2 => UnsignedValue(data, p, lenEnc)
      case 9 => UnsignedValue(data, p, lenEnc)
      case 4 => if p + 4 > |data| then NotDecoded else Decoded(Real32(Uint32(data[p..p + 4])), p + 4)
      case 8 =>
        if lenEnc < 1 || p + lenEnc > |data| then NotDecoded
        else if lenEnc >= 2 then Decoded(Whole(data[p + 1] / 16), p + lenEnc)
        else Decoded(Whole(0), p + lenEnc)
      case _ => NotDecoded
  }

  function UnsignedValue(data: seq<Byte>, p: nat, n: nat): (r: Decoded)
    ensures r.Decoded? ==> p <= r.next <= |data|
  {
    if p + n > |data| then NotDecoded else Decoded(Whole(FoldUint32(data[p..p + n])), p + n)
  }

  method DecodeAppValue(data: seq<Byte>, pos: nat) returns (r: Decoded)
    ensures r == AppValue(data, pos)
  {
    if pos >= |data| { return NotDecoded; }
    var b: int := data[pos];
    var appTag, lenEnc, p := b / 16, b % 8, pos + 1;
    if appTag == 2 || appTag == 9 {
      if p + lenEnc > |data| { return NotDecoded; }
      var v: nat := 0;
      for i := 0 to lenEnc
        invariant v == FoldUint32(data[p..p + i])
      {
        assert data[p..p + i + 1][..i] == data[p..p + i];
        v := (v * 256 + data[p + i]) % TWO32;
      }
      return Decoded(Whole(v), p + lenEnc);
    }
    r := AppValue(data, pos);
  }

  // --- Skipping to a closing tag -----------------------------------------------------------

  function SkipTo(data: seq<Byte>, pos: nat, ctx: nat): (r: nat)
    ensures r >= pos || r == |data|
    decreases |data| - pos
  {
    if pos >= |data| then pos
    else
      match ReadTagHdr(data, pos)
      case HdrError => |data|
      case Hdr(tag, isCtx, open, close, vlen, next) =>
        if isCtx && tag == ctx && close then next
        else if open then SkipTo(data, next, ctx)
        else SkipTo(data, next + vlen, ctx)
  }

  method SkipToClose(data: seq<Byte>, pos0: nat, ctx: nat) returns (r: nat)
    ensures r == SkipTo(data, pos0, ctx)
  {
    hide ReadTagHdr;
    var pos := pos0;
    while pos < |data|
      invariant SkipTo(data, pos0, ctx) == SkipTo(data, pos, ctx)
      decreases |data| - pos
    {
      var h := ReadTagHdr(data, pos);
      if h.HdrError? { return |data|; }
      if h.ctx && h.tag == ctx && h.close { return h.next; }
      if h.open {
        pos := h.next;
      } else {
        pos := h.next + h.vlen;
      }
    }
    return pos;
  }

  // --- ReadPropertyMultiple acknowledgements -------------------------------------------------

  datatype PropResult = PropResult(objType: nat, inst: nat, prop: int, value: Scalar, ok: bool)

  function DecodeOid(b: seq<Byte>): (nat, nat)
    requires |b| == 4
  {
    (Uint32(b) / 0x40_0000 % 0x400, Uint32(b) % 0x40_0000)
  }

  /** One pass of the inner loop: the end of the list, a stop, or zero or one results and a new position. */
  datatype Step = EndOfList(next: nat) | Stop | Results(rs: seq<PropResult>, next: nat)

  function RpmStep(data: seq<Byte>, pos: nat, objType: nat, inst: nat): (s: Step)
    ensures s.Results? ==> s.next > pos || s.next >= |data|
    ensures s.EndOfList? ==> pos < s.next <= |data|
  {
    var h := ReadTagHdr(data, pos);
    if h.HdrError? then Stop
    else if h.ctx && h.tag == 1 && h.close then EndOfList(h.next)
    else if !(h.ctx && h.tag == 2 && h.open) then Stop
    else
      var id := ReadTagHdr(data, h.next);
      if id.HdrError? || !id.ctx || id.tag != 0 || id.next + id.vlen > |data| then Stop
      else
        var prop := FoldInt(data[id.next..id.next + id.vlen]);
        var body := ReadTagHdr(data, id.next + id.vlen);
        if body.HdrError? || !body.ctx || !body.open then Stop
        else if body.tag == 5 then
          Results([PropResult(objType, inst, prop, Whole(0), false)], AfterClose(data, SkipTo(data, body.next, 5)))
        else
          var v := AppValue(data, body.next);
          Results(if v.Decoded? then [PropResult(objType, inst, prop, v.value, true)] else [],
                  AfterClose(data, SkipTo(data, body.next, 4)))
  }

  /** Consumes the closing context tag 2 if it is there. */
  function AfterClose(data: seq<Byte>, pos: nat): (r: nat)
    ensures r >= pos
  {
    var h := ReadTagHdr(data, pos);
    if h.Hdr? && h.ctx && h.tag == 2 && h.close then h.next else pos
  }

  /** The inner loop from `pos`: its results, and where the outer loop goes on (None: give up). */
  function RpmList(data: seq<Byte>, pos: nat, objType: nat, inst: nat): (r: (seq<PropResult>, Option<nat>))
    ensures r.1.Some? ==> r.1.value > pos || r.1.value >= |data|
    decreases |data| - pos
  {
    if pos >= |data| then ([], Some(pos))
    else
      match RpmStep(data, pos, objType, inst)
      case EndOfList(next) => ([], Some(next))
      case Stop => ([], None)
      case Results(rs, next) =>
        var (more, end) := RpmList(data, next, objType, inst);
        (rs + more, end)
  }

  /** The object header at `pos`, if the outer loop accepts it: type, instance, start of the list. */
  function RpmObject(data: seq<Byte>, pos: nat): (r: Option<(nat, nat, nat)>)
    ensures r.Some? ==> pos < r.value.2 <= |data|
  {
    var h := ReadTagHdr(data, pos);
    if h.HdrError? || !h.ctx || h.tag != 0 || h.vlen < 4 || h.next + 4 > |data| then None
    else
      var (objType, inst) := DecodeOid(data[h.next..h.next + 4]);
      var o := ReadTagHdr(data, h.next + 4);
      if o.HdrError? || !o.ctx || o.tag != 1 || !o.open then None
      else Some((objType, inst, o.next))
  }

  function RpmFrom(data: seq<Byte>, pos: nat): seq<PropResult>
    decreases |data| - pos
  {
    if pos >= |data| then []
    else
      match RpmObject(data, pos)
      case None => []
      case Some((objType, inst, start)) =>
        var (rs, end) := RpmList(data, start, objType, inst);
        rs + (if end.Some? then RpmFrom(data, end.value) else [])
  }

  /** One pass of the inner loop, with its own loops over the property id and the skipped body. */
  method DecodeResult(data: seq<Byte>, pos: nat, objType: nat, inst: nat) returns (s: Step)
    ensures s == RpmStep(data, pos, objType, inst)
  {
    hide ReadTagHdr, AppValue, SkipTo, FoldInt;
    var h := ReadTagHdr(data, pos);
    if h.HdrError? { return Stop; }
    if h.ctx && h.tag == 1 && h.close { return EndOfList(h.next); }
    if !(h.ctx && h.tag == 2 && h.open) { return Stop; }
    var id := ReadTagHdr(data, h.next);
    if id.HdrError? || !id.ctx || id.tag != 0 || id.next + id.vlen > |data| { return Stop; }
    var prop := FoldId(data, id.next, id.vlen);
    var body := ReadTagHdr(data, id.next + id.vlen);
    if body.HdrError? || !body.ctx || !body.open { return Stop; }
    var out: seq<PropResult>, p: nat := [], 0;
    if body.tag == 5 {
      out := [PropResult(objType, inst, prop, Whole(0), false)];
      p := SkipToClose(data, body.next, 5);
    } else {
      var v := DecodeAppValue(data, body.next);
      if v.Decoded? {
        out := [PropResult(objType, inst, prop, v.value, true)];
      }
      p := SkipToClose(data, body.next, 4);
    }
    var c := ReadTagHdr(data, p);
    if c.Hdr? && c.ctx && c.tag == 2 && c.close {
      p := c.next;
    }
    return Results(out, p);
  }

  method FoldId(data: seq<Byte>, start: nat, n: nat) returns (prop: int)
    requires start + n <= |data|
    ensures prop == FoldInt(data[start..start + n])
  {
    prop := 0;
    for i := 0 to n
      invariant prop == FoldInt(data[start..start + i])
    {
      assert data[start..start + i + 1][..i] == data[start..start + i];
      prop := WrapInt64(prop * 256 + data[start + i]);
    }
  }

  /** The inner loop: appends an object's results; `goOn` is false where the source gives up. */
  method DecodeList(data: seq<Byte>, start: nat, objType: nat, inst: nat, out0: seq<PropResult>)
    returns (out: seq<PropResult>, pos: nat, goOn: bool)
    ensures out == out0 + RpmList(data, start, objType, inst).0
    ensures RpmList(data, start, objType, inst).1 == if goOn then Some(pos) else None
  {
    out, pos := out0, start;
    while pos < |data|
      invariant out + RpmList(data, pos, objType, inst).0 == out0 + RpmList(data, start, objType, inst).0
      invariant RpmList(data, pos, objType, inst).1 == RpmList(data, start, objType, inst).1
      decreases |data| - pos
    {
      var s := DecodeResult(data, pos, objType, inst);
      if s.Stop? { return out, pos, false; }
      if s.EndOfList? { return out, s.next, true; }
      out := out + s.rs;
      pos := s.next;
    }
    goOn := true;
  }

  lemma RpmFromObject(data: seq<Byte>, pos: nat, objType: nat, inst: nat, start: nat, out: seq<PropResult>)
    requires pos < |data| && RpmObject(data, pos) == Some((objType, inst, start))
    ensures var (rs, end) := RpmList(data, start, objType, inst);
            out + RpmFrom(data, pos) == out + rs + (if end.Some? then RpmFrom(data, end.value) else [])
  {
    hide RpmObject, RpmList;
    var (rs, end) := RpmList(data, start, objType, inst);
    var rest := if end.Some? then RpmFrom(data, end.value) else [];
    assert RpmFrom(data, pos) == rs + rest;
    assert out + (rs + rest) == out + rs + rest;
  }

  /** Decodes a whole acknowledgement; total and in bounds on every byte sequence. */
  method DecodeReadPropertyMultipleAck(data: seq<Byte>) returns (out: seq<PropResult>)
    ensures out == RpmFrom(data, 0)
  {
    out := [];
    var pos, goOn := 0, true;
    while goOn && pos < |data|
      invariant out + (if goOn then RpmFrom(data, pos) else []) == RpmFrom(data, 0)
      decreases goOn, |data| - pos
    {
      var o := RpmObject(data, pos);
      if o.None? { break; }
      var (objType, inst, start) := o.value;
      RpmFromObject(data, pos, objType, inst, start, out);
      out, pos, goOn := DecodeList(data, start, objType, inst, out);
    }
  }

  // --- ReadProperty and COV --------------------------------------------------------------

  function ReadPropertyFrom(data: seq<Byte>, pos: nat): Option<Scalar>
    decreases |data| - pos
  {
    if pos >= |data| then None
    else
      match ReadTagHdr(data, pos)
      case HdrError => None
      case Hdr(tag, ctx, open, _, vlen, next) =>
        if ctx && tag == 3 && open then
          var v := AppValue(data, next);
          if v.Decoded? then Some(v.value) else None
        else if open then ReadPropertyFrom(data, next)
        else ReadPropertyFrom(data, next + vlen)
  }

  method DecodeReadPropertyAck(data: seq<Byte>) returns (r: Option<Scalar>)
    ensures r == ReadPropertyFrom(data, 0)
  {
    var pos := 0;
    while pos < |data|
      invariant ReadPropertyFrom(data, 0) == ReadPropertyFrom(data, pos)
      decreases |data| - pos
    {
      var h := ReadTagHdr(data, pos);
      if h.HdrError? { return None; }
      if h.ctx && h.tag == 3 && h.open {
        var v := DecodeAppValue(data, h.next);
        return if v.Decoded? then Some(v.value) else None;
      }
      if h.open {
        pos := h.next;
      } else {
        pos := h.next + h.vlen;
      }
    }
    return None;
  }

  datatype Cov = Cov(device: nat, objType: nat, inst: nat, value: Option<Scalar>)

  /** The fixed part of a COV notification: its ids, and the start of the list of values. */
  function CovHeader(data: seq<Byte>): Option<(nat, nat, nat, nat)>
  {
    var p := ReadTagHdr(data, 0);
    if p.HdrError? then None
    else
      var d := ReadTagHdr(data, p.next + p.vlen);
      if d.HdrError? || d.next + 4 > |data| then None
      else
        var o := ReadTagHdr(data, d.next + 4);
        if o.HdrError? || o.next + 4 > |data| then None
        else
          var t := ReadTagHdr(data, o.next + 4);
          if t.HdrError? then None
          else
            var l := ReadTagHdr(data, t.next + t.vlen);
            if l.HdrError? || !l.ctx || l.tag != 4 || !l.open then None
            else
              var (objType, inst) := DecodeOid(data[o.next..o.next + 4]);
              Some((DecodeOid(data[d.next..d.next + 4]).1, objType, inst, l.next))
  }

  /** One entry of the list of values: its present value if it has one, and the next position. */
  function CovStep(data: seq<Byte>, pos: nat): (r: Option<(Option<Scalar>, nat)>)
    ensures r.Some? ==> r.value.1 > pos || r.value.1 >= |data|
  {
    var h := ReadTagHdr(data, pos);
    if h.HdrError? || !(h.ctx && h.tag == 2 && h.open) then None
    else
      var id := ReadTagHdr(data, h.next);
      if id.HdrError? || !id.ctx || id.tag != 0 || id.next + id.vlen > |data| then None
      else
        var prop := FoldInt(data[id.next..id.next + id.vlen]);
        var body := ReadTagHdr(data, id.next + id.vlen);
        if body.Hdr? && body.ctx && body.tag == 4 && body.open then
          var v := AppValue(data, body.next);
          Some((if v.Decoded? && prop == PROP_PRESENT_VALUE then Some(v.value) else None,
                AfterClose(data, SkipTo(data, body.next, 4))))
        else Some((None, AfterClose(data, id.next + id.vlen)))
  }

  /** The value standing after the list from `pos` when it stood at `value` before. */
  function CovFrom(data: seq<Byte>, pos: nat, value: Option<Scalar>): Option<Scalar>
    decreases |data| - pos
  {
    if pos >= |data| then value
    else
      match CovStep(data, pos)
      case None => value
      case Some((v, next)) => CovFrom(data, next, if v.Some? then v else value)
  }

  /** One pass of the notification loop. */
  method DecodeCovEntry(data: seq<Byte>, pos: nat) returns (r: Option<(Option<Scalar>, nat)>)
    ensures r == CovStep(data, pos)
  {
    hide ReadTagHdr, AppValue, SkipTo, FoldInt;
    var h := ReadTagHdr(data, pos);
    if h.HdrError? || (h.ctx && h.tag == 4 && h.close) || !(h.ctx && h.tag == 2 && h.open) { return None; }
    var id := ReadTagHdr(data, h.next);
    if id.HdrError? || !id.ctx || id.tag != 0 || id.next + id.vlen > |data| { return None; }
    var prop := FoldId(data, id.next, id.vlen);
    var p := id.next + id.vlen;
    var body := ReadTagHdr(data, p);
    var found := None;
    if body.Hdr? && body.ctx && body.tag == 4 && body.open {
      var v := DecodeAppValue(data, body.next);
      if v.Decoded? && prop == PROP_PRESENT_VALUE {
        found := Some(v.value);
      }
      p := SkipToClose(data, body.next, 4);
    }
    var c := ReadTagHdr(data, p);
    if c.Hdr? && c.ctx && c.tag == 2 && c.close {
      p := c.next;
    }
    return Some((found, p));
  }

  /** Decodes a COV notification; None is the source's `false`, with or without a parsed header. */
  method DecodeCovNotification(data: seq<Byte>) returns (r: Option<Cov>)
    ensures r == CovOf(data)
  {
    var head := CovHeader(data);
    if head.None? { return None; }
    var (device, objType, inst, start) := head.value;
    var pos, value := start, None;
    while pos < |data|
      invariant CovFrom(data, start, None) == CovFrom(data, pos, value)
      decreases |data| - pos
    {
      var s := DecodeCovEntry(data, pos);
      if s.None? { break; }
      var (found, next) := s.value;
      if found.Some? {
        value := found;
      }
      pos := next;
    }
    return if value.Some? then Some(Cov(device, objType, inst, value)) else None;
  }

  function CovOf(data: seq<Byte>): Option<Cov>
  {
    match CovHeader(data)
    case None => None
    case Some((device, objType, inst, start)) =>
      var value := CovFrom(data, start, None);
      if value.Some? then Some(Cov(device, objType, inst, value)) else None
  }
}
