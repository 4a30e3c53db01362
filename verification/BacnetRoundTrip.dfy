/**
 The reference acknowledgement encoder, put together from the codec's own tag encoders in the
 layout the decoder documents, and the proof that decoding undoes it.
 */
module BacnetRoundTrip {
  import opened Bytes
  import opened Options
  import opened Bacnet

  /** A property value on the wire. `Bits` holds its unused-bits octet and its flag octets. */
  datatype Value =
    | Unsigned(n: nat)
    | Enumerated(n: nat)
    | Real(word: nat)
    | Bits(unused: Byte, flags: seq<Byte>)
    | Flag(on: bool)

  datatype Outcome = Ok(value: Value) | PropertyError(errClass: nat, errCode: nat)

  datatype Property = Property(id: nat, outcome: Outcome)

  datatype Object = Object(objType: nat, inst: nat, props: seq<Property>)

  predicate ValueInRange(v: Value)
  {
    match v
    case Unsigned(n) => n < TWO32
    case Enumerated(n) => n < TWO32
    case Real(w) => w < TWO32
    case Bits(unused, flags) => unused < 8 && 1 + |flags| < TWO32
    case Flag(_) => true
  }

  predicate OutcomeInRange(o: Outcome)
  {
    match o
    case Ok(v) => ValueInRange(v)
    case PropertyError(c, e) => c < TWO32 && e < TWO32
  }

  predicate ObjectInRange(o: Object)
  {
    && o.objType < 0x400 && o.inst < 0x40_0000
    && forall p :: p in o.props ==> p.id < TWO32 && OutcomeInRange(p.outcome)
  }

  // --- Encoding ------------------------------------------------------------------------

  /** A bit-string header for `n` content octets, with the length forms of clause 20.2.1.3.1. */
  function BitsHeader(n: nat): seq<Byte>
    requires n < TWO32
  {
    if n <= 4 then [0x80 + n]
    else if n <= 253 then [0x85, n]
    else if n <= 0xFFFF then [0x85, 254, n / 256, n % 256]
    else [0x85, 255] + PutUint32(n)
  }

  function EncValue(v: Value): seq<Byte>
    requires ValueInRange(v)
  {
    match v
    case Unsigned(n) => EncAppUint(n)
    case Enumerated(n) => EncAppEnum(n)
    case Real(w) => [0x44] + PutUint32(w)
    case Bits(unused, flags) => BitsHeader(1 + |flags|) + ([unused] + flags)
    case Flag(on) => [if on then 0x11 else 0x10]
  }

  function EncOutcome(o: Outcome): seq<Byte>
    requires OutcomeInRange(o)
  {
    match o
    case Ok(v) => EncCtxOpen(4) + (EncValue(v) + EncCtxClose(4))
    case PropertyError(c, e) => EncCtxOpen(5) + (EncAppEnum(c) + (EncAppEnum(e) + EncCtxClose(5)))
  }

  function EncProperty(p: Property): seq<Byte>
    requires p.id < TWO32 && OutcomeInRange(p.outcome)
  {
    EncCtxOpen(2) + (EncCtxUint(0, p.id) + (EncOutcome(p.outcome) + EncCtxClose(2)))
  }

  function EncProperties(ps: seq<Property>): seq<Byte>
    requires forall p :: p in ps ==> p.id < TWO32 && OutcomeInRange(p.outcome)
  {
    if ps == [] then EncCtxClose(1) else EncProperty(ps[0]) + EncProperties(ps[1..])
  }

  function EncObject(o: Object): seq<Byte>
    requires ObjectInRange(o)
  {
    EncCtxOid(0, o.objType, o.inst) + (EncCtxOpen(1) + EncProperties(o.props))
  }

  /** The payload of a ReadPropertyMultiple acknowledgement. */
  function EncAck(os: seq<Object>): seq<Byte>
    requires forall o :: o in os ==> ObjectInRange(o)
  {
    if os == [] then [] else EncObject(os[0]) + EncAck(os[1..])
  }

  // --- What the decoder should report, and what it does -----------------------------------

  /** What a value means; status flags are the high nibble of the first flag octet. */
  function Meaning(v: Value): Scalar
  {
    match v
    case Unsigned(n) => Whole(n)
    case Enumerated(n) => Whole(n)
    case Real(w) => Real32(w)
    case Bits(_, flags) => Whole(if flags == [] then 0 else flags[0] / 16)
    case Flag(on) => Whole(if on then 1 else 0)
  }

  /** In the extended length forms the decoder takes its nibble from the octet after the first length octet. */
  function NibbleRead(v: Value): nat
    requires v.Bits?
  {
    var n := 1 + |v.flags|;
    if n <= 4 then (if v.flags == [] then 0 else v.flags[0] / 16)
    else if n <= 253 then 0
    else if n <= 0xFFFF then n / 0x1000
    else n / 0x1000_0000
  }

  function Reading(v: Value): Scalar
  {
    if v.Bits? then Whole(NibbleRead(v)) else Meaning(v)
  }

  /** The values the decoder reads correctly: all but long bit strings whose nibble differs. */
  predicate ReadFaithfully(v: Value)
  {
    v.Bits? && |v.flags| >= 4 ==> v.flags[0] / 16 == NibbleRead(v)
  }

  lemma ReadingIffFaithful(v: Value)
    ensures Reading(v) == Meaning(v) <==> ReadFaithfully(v)
  {
  }

  /** A boolean's value is its length field; skipping a true one jumps over one octet more than it has. */
  predicate IsTrue(v: Value)
  {
    v == Flag(true)
  }

  /** The result reported for one property, with values seen through `Reading` or `Meaning`. */
  function ResultOf(o: Object, p: Property, exact: bool): PropResult
  {
    match p.outcome
    case Ok(v) => PropResult(o.objType, o.inst, p.id, if exact then Meaning(v) else Reading(v), true)
    case PropertyError(_, _) => PropResult(o.objType, o.inst, p.id, Whole(0), false)
  }

  function ResultsOf(o: Object, ps: seq<Property>, exact: bool): (rs: seq<PropResult>)
    ensures |rs| == |ps|
  {
    if ps == [] then [] else [ResultOf(o, ps[0], exact)] + ResultsOf(o, ps[1..], exact)
  }

  function AckResults(os: seq<Object>, exact: bool): seq<PropResult>
  {
    if os == [] then [] else ResultsOf(os[0], os[0].props, exact) + AckResults(os[1..], exact)
  }

  // --- Headers -----------------------------------------------------------------------------

  lemma OpenHeader(data: seq<Byte>, pos: nat, ctx: nat)
    requires ctx < 15 && At(data, pos, EncCtxOpen(ctx))
    ensures ReadTagHdr(data, pos) == Hdr(ctx, true, true, false, 0, pos + 1)
  {
  }

  lemma CloseHeader(data: seq<Byte>, pos: nat, ctx: nat)
    requires ctx < 15 && At(data, pos, EncCtxClose(ctx))
    ensures ReadTagHdr(data, pos) == Hdr(ctx, true, false, true, 0, pos + 1)
  {
  }

  /** A one-octet header of a short primitive followed by its content. */
  lemma ShortHeader(data: seq<Byte>, pos: nat, tag: nat, ctx: bool, content: seq<Byte>)
    requires tag < 15 && |content| <= 4
    requires At(data, pos, [tag * 16 + (if ctx then 8 else 0) + |content|] + content)
    ensures ReadTagHdr(data, pos) == Hdr(tag, ctx, false, false, |content|, pos + 1)
    ensures data[pos] == tag * 16 + (if ctx then 8 else 0) + |content|
    ensures At(data, pos + 1, content)
  {
    var head := [tag * 16 + (if ctx then 8 else 0) + |content|];
    AtSplit(data, pos, head, content);
    AtByte(data, pos, head, 0);
    HeaderOctet(tag, if ctx then 1 else 0, |content|);
    hide At;
  }

  /** A header octet taken apart. */
  lemma HeaderOctet(tag: nat, ctx: nat, n: nat)
    requires tag < 16 && ctx < 2 && n < 8
    ensures var b := tag * 16 + ctx * 8 + n; b / 16 == tag && b / 8 % 2 == ctx && b % 8 == n
  {
  }

  lemma MinimalNumber(v: nat)
    requires v < TWO32
    ensures Number(Minimal(v)) == v
  {
    var w := PutUint32(v);
    Uint32RoundTrip(v);
    NumberOfFour(w);
    if v > 0 {
      ByteLenByRange(v);
      if v < 0x100_0000 {
        LeadingZero(w);
        if v < 0x1_0000 {
          LeadingZero(w[1..]);
          assert w[1..][1..] == w[2..];
          if v < 0x100 {
            LeadingZero(w[2..]);
            assert w[2..][1..] == w[3..];
          }
        }
      } else {
        assert w[0..] == w;
      }
    } else {
      assert Minimal(v)[..0] == [];
    }
  }

  /** A context-tagged unsigned reads back as its number. */
  lemma CtxUintReads(data: seq<Byte>, pos: nat, ctx: nat, v: nat)
    requires ctx < 15 && v < TWO32 && At(data, pos, EncCtxUint(ctx, v))
    ensures var h := ReadTagHdr(data, pos);
            && h == Hdr(ctx, true, false, false, |Minimal(v)|, pos + 1)
            && h.next + h.vlen == pos + |EncCtxUint(ctx, v)| <= |data|
            && FoldInt(data[h.next..h.next + h.vlen]) == v
  {
    hide ReadTagHdr, Minimal;
    ShortHeader(data, pos, ctx, true, Minimal(v));
    FoldsAgree(Minimal(v));
    MinimalNumber(v);
  }

  lemma OidWordSplits(objType: nat, inst: nat)
    requires objType < 0x400 && inst < 0x40_0000
    ensures DecodeOid(PutUint32(OidWord(objType, inst))) == (objType, inst)
  {
    hide PutUint32, Uint32;
    var w := OidWord(objType, inst);
    Uint32RoundTrip(w);
    assert w == objType * 0x40_0000 + inst;
    assert w / 0x40_0000 == objType && w % 0x40_0000 == inst;
  }

  lemma CtxOidReads(data: seq<Byte>, pos: nat, ctx: nat, objType: nat, inst: nat)
    requires ctx < 15 && objType < 0x400 && inst < 0x40_0000 && At(data, pos, EncCtxOid(ctx, objType, inst))
    ensures ReadTagHdr(data, pos) == Hdr(ctx, true, false, false, 4, pos + 1)
    ensures pos + 5 <= |data| && DecodeOid(data[pos + 1..pos + 5]) == (objType, inst)
  {
    hide ReadTagHdr, PutUint32, Uint32, OidWord, DecodeOid;
    ShortHeader(data, pos, ctx, true, PutUint32(OidWord(objType, inst)));
    OidWordSplits(objType, inst);
  }

  // --- Values ------------------------------------------------------------------------------

  /** An application primitive is skipped as a whole, whatever bytes its content has. */
  ghost predicate SkipsWhole(data: seq<Byte>, pos: nat, x: seq<Byte>)
  {
    var h := ReadTagHdr(data, pos);
    h.Hdr? && !h.ctx && h.next + h.vlen == pos + |x|
  }

  lemma BitsHeaderReads(data: seq<Byte>, pos: nat, n: nat)
    requires 5 <= n < TWO32 && At(data, pos, BitsHeader(n))
    ensures ReadTagHdr(data, pos) == Hdr(8, false, false, false, n, pos + |BitsHeader(n)|)
  {
    var b := BitsHeader(n);
    AtByte(data, pos, b, 0);
    AtByte(data, pos, b, 1);
    if 253 < n <= 0xFFFF {
      AtByte(data, pos, b, 2);
      AtByte(data, pos, b, 3);
    } else if n > 0xFFFF {
      AtSplit(data, pos, [0x85, 255], PutUint32(n));
      Uint32RoundTrip(n);
    }
  }

  lemma ValueReads(data: seq<Byte>, pos: nat, v: Value)
    requires ValueInRange(v) && At(data, pos, EncValue(v))
    ensures AppValue(data, pos).Decoded? && AppValue(data, pos).value == Reading(v)
    ensures !IsTrue(v) ==> SkipsWhole(data, pos, EncValue(v))
  {
    match v
    case Unsigned(n) => UnsignedReads(data, pos, 2, n);
    case Enumerated(n) => UnsignedReads(data, pos, 9, n);
    case Real(w) =>
      ShortHeader(data, pos, 4, false, PutUint32(w));
      Uint32RoundTrip(w);
    case Bits(unused, flags) => BitsRead(data, pos, unused, flags);
    case Flag(on) => AtByte(data, pos, EncValue(v), 0);
  }

  lemma UnsignedReads(data: seq<Byte>, pos: nat, tag: nat, n: nat)
    requires (tag == 2 || tag == 9) && n < TWO32
    requires At(data, pos, [tag * 16 + |Minimal(n)|] + Minimal(n))
    ensures AppValue(data, pos) == Decoded(Whole(n), pos + 1 + |Minimal(n)|)
    ensures SkipsWhole(data, pos, [tag * 16 + |Minimal(n)|] + Minimal(n))
  {
    hide ReadTagHdr, Minimal, Number, FoldInt, FoldUint32;
    ShortHeader(data, pos, tag, false, Minimal(n));
    FoldsAgree(Minimal(n));
    MinimalNumber(n);
  }

  lemma ShortBitsRead(data: seq<Byte>, pos: nat, unused: Byte, flags: seq<Byte>)
    requires unused < 8 && |flags| <= 3
    requires At(data, pos, [0x80 + 1 + |flags|] + ([unused] + flags))
    ensures AppValue(data, pos).Decoded?
    ensures AppValue(data, pos).value == Whole(if flags == [] then 0 else flags[0] / 16)
    ensures ReadTagHdr(data, pos) == Hdr(8, false, false, false, 1 + |flags|, pos + 1)
  {
    hide ReadTagHdr;
    var content := [unused] + flags;
    ShortHeader(data, pos, 8, false, content);
    if flags != [] { AtByte(data, pos + 1, content, 1); }
  }

  /** In the extended forms the decoder takes its nibble from the octet two past the tag. */
  lemma LongBitsRead(data: seq<Byte>, pos: nat)
    requires pos + 6 <= |data| && data[pos] == 0x85
    ensures AppValue(data, pos).Decoded? && AppValue(data, pos).value == Whole(data[pos + 2] / 16)
  {
  }

  lemma LongBitsOctet(data: seq<Byte>, pos: nat, unused: Byte, flags: seq<Byte>)
    requires unused < 8 && 4 <= |flags| && 1 + |flags| < TWO32
    requires At(data, pos, BitsHeader(1 + |flags|)) && At(data, pos + |BitsHeader(1 + |flags|)|, [unused] + flags)
    ensures pos + 6 <= |data| && data[pos] == 0x85 && data[pos + 2] / 16 == NibbleRead(Bits(unused, flags))
  {
  }

  lemma LongBitsWhole(data: seq<Byte>, pos: nat, unused: Byte, flags: seq<Byte>)
    requires unused < 8 && 4 <= |flags| && 1 + |flags| < TWO32
    requires At(data, pos, BitsHeader(1 + |flags|) + ([unused] + flags))
    ensures AppValue(data, pos).Decoded? && AppValue(data, pos).value == Whole(NibbleRead(Bits(unused, flags)))
    ensures ReadTagHdr(data, pos) == Hdr(8, false, false, false, 1 + |flags|, pos + |BitsHeader(1 + |flags|)|)
  {
    hide *;
    AtSplit(data, pos, BitsHeader(1 + |flags|), [unused] + flags);
    BitsHeaderReads(data, pos, 1 + |flags|);
    LongBitsOctet(data, pos, unused, flags);
    LongBitsRead(data, pos);
  }

  lemma BitsRead(data: seq<Byte>, pos: nat, unused: Byte, flags: seq<Byte>)
    requires ValueInRange(Bits(unused, flags)) && At(data, pos, EncValue(Bits(unused, flags)))
    ensures AppValue(data, pos).Decoded? && AppValue(data, pos).value == Reading(Bits(unused, flags))
    ensures SkipsWhole(data, pos, EncValue(Bits(unused, flags)))
  {
    hide ReadTagHdr, PutUint32, At, AppValue;
    if |flags| <= 3 {
      ShortBitsRead(data, pos, unused, flags);
    } else {
      LongBitsWhole(data, pos, unused, flags);
    }
  }

  /** From a primitive followed by the closing tag `ctx`, skipping lands just past the closing tag. */
  lemma SkipsValue(data: seq<Byte>, pos: nat, x: seq<Byte>, ctx: nat)
    requires ctx < 15 && x != [] && At(data, pos, x + EncCtxClose(ctx)) && SkipsWhole(data, pos, x)
    ensures SkipTo(data, pos, ctx) == pos + |x| + 1
  {
    AtSplit(data, pos, x, EncCtxClose(ctx));
    CloseHeader(data, pos + |x|, ctx);
  }

  lemma SkipsOverFirst(data: seq<Byte>, pos: nat, x: seq<Byte>, ctx: nat)
    requires pos < |data| && SkipsWhole(data, pos, x)
    ensures SkipTo(data, pos, ctx) == SkipTo(data, pos + |x|, ctx)
  {
  }

  // --- Results, objects, acknowledgements ------------------------------------------------------

  /** What the inner loop makes of a property once its headers are known. */
  lemma RpmStepFromHeaders(data: seq<Byte>, pos: nat, objType: nat, inst: nat, id: Hdr, tag: nat, prop: int)
    requires ReadTagHdr(data, pos) == Hdr(2, true, true, false, 0, pos + 1)
    requires id.Hdr? && id == ReadTagHdr(data, pos + 1) && id.ctx && id.tag == 0 && id.next + id.vlen <= |data|
    requires prop == FoldInt(data[id.next..id.next + id.vlen])
    requires tag == 4 || tag == 5
    requires ReadTagHdr(data, id.next + id.vlen) == Hdr(tag, true, true, false, 0, id.next + id.vlen + 1)
    requires tag == 4 ==> AppValue(data, id.next + id.vlen + 1).Decoded?
    ensures RpmStep(data, pos, objType, inst) ==
            Results([if tag == 5 then PropResult(objType, inst, prop, Whole(0), false)
                     else PropResult(objType, inst, prop, AppValue(data, id.next + id.vlen + 1).value, true)],
                    AfterClose(data, SkipTo(data, id.next + id.vlen + 1, tag)))
  {
    hide ReadTagHdr, AppValue, SkipTo, FoldInt, AfterClose;
  }

  lemma ClosesAt(data: seq<Byte>, pos: nat)
    requires At(data, pos, EncCtxClose(2))
    ensures AfterClose(data, pos) == pos + 1
  {
    hide ReadTagHdr;
    CloseHeader(data, pos, 2);
  }

  /** An outcome's body is entered by its opening tag; its value is read there. */
  lemma OutcomeOpens(data: seq<Byte>, pos: nat, o: Outcome)
    requires OutcomeInRange(o) && At(data, pos, EncOutcome(o))
    ensures ReadTagHdr(data, pos) == Hdr(if o.Ok? then 4 else 5, true, true, false, 0, pos + 1)
    ensures o.Ok? ==> AppValue(data, pos + 1).Decoded? && AppValue(data, pos + 1).value == Reading(o.value)
  {
    hide ReadTagHdr, AppValue, EncAppEnum, EncValue, At, Reading, SkipsWhole, IsTrue;
    match o
    case Ok(v) =>
      AtSplit(data, pos, EncCtxOpen(4), EncValue(v) + EncCtxClose(4));
      AtSplit(data, pos + 1, EncValue(v), EncCtxClose(4));
      OpenHeader(data, pos, 4);
      ValueReads(data, pos + 1, v);
    case PropertyError(c, e) =>
      AtSplit(data, pos, EncCtxOpen(5), EncAppEnum(c) + (EncAppEnum(e) + EncCtxClose(5)));
      OpenHeader(data, pos, 5);
  }

  /** A value other than true is skipped up to its own closing tag. */
  lemma ValueSkips(data: seq<Byte>, pos: nat, v: Value)
    requires ValueInRange(v) && !IsTrue(v) && At(data, pos, EncOutcome(Ok(v)))
    ensures SkipTo(data, pos + 1, 4) == pos + |EncOutcome(Ok(v))|
  {
    hide ReadTagHdr, AppValue, SkipTo, EncValue, At, Reading, SkipsWhole, IsTrue;
    AtSplit(data, pos, EncCtxOpen(4), EncValue(v) + EncCtxClose(4));
    AtSplit(data, pos + 1, EncValue(v), EncCtxClose(4));
    ValueReads(data, pos + 1, v);
    EncValueNonempty(v);
    SkipsValue(data, pos + 1, EncValue(v), 4);
  }

  /** True is skipped together with its closing tag. */
  lemma TrueSkips(data: seq<Byte>, pos: nat)
    requires At(data, pos, EncOutcome(Ok(Flag(true))))
    ensures SkipTo(data, pos + 1, 4) == SkipTo(data, pos + |EncOutcome(Ok(Flag(true)))|, 4)
  {
    AtByte(data, pos, [0x4E, 0x11, 0x4F], 1);
    assert EncOutcome(Ok(Flag(true))) == [0x4E, 0x11, 0x4F];
    assert ReadTagHdr(data, pos + 1) == Hdr(1, false, false, false, 1, pos + 2);
    hide ReadTagHdr;
  }

  /** An error is skipped up to its closing tag, and by a search for a value's closing tag as a whole. */
  lemma ErrorSkips(data: seq<Byte>, pos: nat, c: nat, e: nat)
    requires c < TWO32 && e < TWO32 && At(data, pos, EncOutcome(PropertyError(c, e)))
    ensures SkipTo(data, pos + 1, 5) == pos + |EncOutcome(PropertyError(c, e))|
    ensures SkipTo(data, pos + 1, 4) == SkipTo(data, pos + |EncOutcome(PropertyError(c, e))|, 4)
  {
    hide ReadTagHdr, SkipTo, EncAppEnum, At, SkipsWhole;
    var x, y := EncAppEnum(c), EncAppEnum(e);
    AtSplit(data, pos, EncCtxOpen(5), x + (y + EncCtxClose(5)));
    AtSplit(data, pos + 1, x, y + EncCtxClose(5));
    EnumSkips(data, pos + 1, c);
    var q := pos + 1 + |x|;
    AtSplit(data, q, y, EncCtxClose(5));
    EnumSkips(data, q, e);
    SkipsOverFirst(data, pos + 1, x, 5);
    SkipsValue(data, q, y, 5);
    SkipsOverFirst(data, pos + 1, x, 4);
    SkipsOverFirst(data, q, y, 4);
    CloseHeader(data, q + |y|, 5);
    SkipsTag(data, q + |y|, 4);
  }

  /** A tag that does not close `ctx` is skipped: an opening one alone, any other one with its content. */
  lemma SkipsTag(data: seq<Byte>, pos: nat, ctx: nat)
    requires ReadTagHdr(data, pos).Hdr?
    requires var h := ReadTagHdr(data, pos); !(h.ctx && h.tag == ctx && h.close)
    ensures var h := ReadTagHdr(data, pos); SkipTo(data, pos, ctx) == SkipTo(data, h.next + h.vlen, ctx)
  {
    hide ReadTagHdr;
  }

  lemma EncValueNonempty(v: Value)
    requires ValueInRange(v)
    ensures EncValue(v) != []
  {
  }

  lemma EnumSkips(data: seq<Byte>, pos: nat, n: nat)
    requires n < TWO32 && At(data, pos, EncAppEnum(n))
    ensures SkipsWhole(data, pos, EncAppEnum(n)) && EncAppEnum(n) != [] && pos < |data|
  {
    UnsignedReads(data, pos, 9, n);
  }

  /** The three parts of an encoded property: its id, its outcome, and its closing tag. */
  lemma PropertyParts(data: seq<Byte>, pos: nat, p: Property) returns (q: nat)
    requires p.id < TWO32 && OutcomeInRange(p.outcome) && At(data, pos, EncProperty(p))
    ensures ReadTagHdr(data, pos) == Hdr(2, true, true, false, 0, pos + 1)
    ensures var id := ReadTagHdr(data, pos + 1);
            && id == Hdr(0, true, false, false, |Minimal(p.id)|, pos + 2) && id.next + id.vlen == q <= |data|
            && FoldInt(data[id.next..q]) == p.id
    ensures At(data, q, EncOutcome(p.outcome)) && At(data, q + |EncOutcome(p.outcome)|, EncCtxClose(2))
    ensures q + |EncOutcome(p.outcome)| + 1 == pos + |EncProperty(p)|
  {
    hide ReadTagHdr, EncCtxUint, EncOutcome, At, FoldInt, Minimal;
    var body := EncOutcome(p.outcome);
    AtSplit(data, pos, EncCtxOpen(2), EncCtxUint(0, p.id) + (body + EncCtxClose(2)));
    AtSplit(data, pos + 1, EncCtxUint(0, p.id), body + EncCtxClose(2));
    q := pos + 1 + |EncCtxUint(0, p.id)|;
    AtSplit(data, q, body, EncCtxClose(2));
    OpenHeader(data, pos, 2);
    CtxUintReads(data, pos + 1, 0, p.id);
  }

  /** A property whose value is the boolean true. */
  predicate Swallows(p: Property)
  {
    p.outcome.Ok? && IsTrue(p.outcome.value)
  }

  /** Where the decoder goes on after an encoded property: behind it, or, for a true value, wherever a search ends. */
  function After(data: seq<Byte>, pos: nat, swallowing: bool): (r: nat)
    ensures r >= pos || r >= |data|
  {
    if swallowing then AfterClose(data, SkipTo(data, pos, 4)) else pos
  }

  /** One encoded property yields exactly its one result, and the position after it. */
  lemma PropertyStep(data: seq<Byte>, pos: nat, o: Object, p: Property)
    requires p.id < TWO32 && OutcomeInRange(p.outcome) && At(data, pos, EncProperty(p))
    ensures pos < |data|
    ensures RpmStep(data, pos, o.objType, o.inst)
         == Results([ResultOf(o, p, false)], After(data, pos + |EncProperty(p)|, Swallows(p)))
  {
    hide ReadTagHdr, AppValue, SkipTo, EncOutcome, At, FoldInt, RpmStep, Reading, Minimal, EncProperty, AfterClose,
         OutcomeInRange;
    var q := PropertyParts(data, pos, p);
    OutcomeOpens(data, q, p.outcome);
    RpmStepFromHeaders(data, pos, o.objType, o.inst, ReadTagHdr(data, pos + 1),
                       if p.outcome.Ok? then 4 else 5, p.id);
    OutcomeSkips(data, q, p.outcome);
  }

  /** From an outcome's body, the search for its closing tag ends behind it, or goes on there if the value is true. */
  lemma OutcomeSkips(data: seq<Byte>, q: nat, o: Outcome)
    requires OutcomeInRange(o) && At(data, q, EncOutcome(o)) && At(data, q + |EncOutcome(o)|, EncCtxClose(2))
    ensures AfterClose(data, SkipTo(data, q + 1, if o.Ok? then 4 else 5))
         == After(data, q + |EncOutcome(o)| + 1, o.Ok? && IsTrue(o.value))
  {
    hide ReadTagHdr, SkipTo, EncOutcome, At, AfterClose, ValueInRange;
    var end := q + |EncOutcome(o)|;
    ClosesAt(data, end);
    CloseHeader(data, end, 2);
    SkipsTag(data, end, 4);
    match o
    case Ok(v) =>
      if IsTrue(v) { TrueSkips(data, q); } else { ValueSkips(data, q, v); }
    case PropertyError(c, e) => ErrorSkips(data, q, c, e);
  }

  /** A search for a value's closing tag swallows a property: it ends there unless that is true, or an error. */
  lemma PropertySwallowed(data: seq<Byte>, pos: nat, p: Property)
    requires p.id < TWO32 && OutcomeInRange(p.outcome) && At(data, pos, EncProperty(p))
    ensures After(data, pos, true) == After(data, pos + |EncProperty(p)|, p.outcome.PropertyError? || Swallows(p))
  {
    hide ReadTagHdr, AppValue, SkipTo, EncOutcome, At, FoldInt, Reading, Minimal, EncProperty, AfterClose,
         OutcomeInRange;
    var q := PropertyParts(data, pos, p);
    OutcomeOpens(data, q, p.outcome);
    SkipsTag(data, pos, 4);
    SkipsTag(data, pos + 1, 4);
    SkipsTag(data, q, 4);
    assert SkipTo(data, pos, 4) == SkipTo(data, q + 1, 4);
    if p.outcome.Ok? {
      OutcomeSkips(data, q, p.outcome);
    } else {
      ErrorSwallowed(data, q, p.outcome);
    }
  }

  lemma ErrorSwallowed(data: seq<Byte>, q: nat, o: Outcome)
    requires o.PropertyError? && OutcomeInRange(o) && At(data, q, EncOutcome(o))
    requires At(data, q + |EncOutcome(o)|, EncCtxClose(2))
    ensures SkipTo(data, q + 1, 4) == SkipTo(data, q + |EncOutcome(o)| + 1, 4)
  {
    hide ReadTagHdr, SkipTo, EncOutcome, At;
    CloseHeader(data, q + |EncOutcome(o)|, 2);
    SkipsTag(data, q + |EncOutcome(o)|, 4);
    ErrorSkips(data, q, o.errClass, o.errCode);
  }

  /** The end of a list of properties and the head of the next object are swallowed too. */
  lemma HeadSwallowed(data: seq<Byte>, pos: nat, o: Object)
    requires ObjectInRange(o) && At(data, pos, EncCtxClose(1) + EncObject(o))
    ensures After(data, pos, true) == After(data, pos + 7, true)
  {
    hide ReadTagHdr, EncProperties, At, DecodeOid, PutUint32, OidWord, SkipTo, AfterClose;
    AtSplit(data, pos, EncCtxClose(1), EncObject(o));
    AtSplit(data, pos + 1, EncCtxOid(0, o.objType, o.inst), EncCtxOpen(1) + EncProperties(o.props));
    AtSplit(data, pos + 6, EncCtxOpen(1), EncProperties(o.props));
    CloseHeader(data, pos, 1);
    CtxOidReads(data, pos + 1, 0, o.objType, o.inst);
    OpenHeader(data, pos + 6, 1);
    SkipsTag(data, pos, 4);
    SkipsTag(data, pos + 1, 4);
    SkipsTag(data, pos + 6, 4);
  }

  /** At the end of the data the search ends as well. */
  lemma EndSwallowed(data: seq<Byte>, pos: nat)
    requires pos + 1 == |data| && At(data, pos, EncCtxClose(1))
    ensures After(data, pos, true) == |data|
  {
    CloseHeader(data, pos, 1);
    SkipsTag(data, pos, 4);
  }

  // --- What an acknowledgement decodes to --------------------------------------------------------

  /**
   What the decoder reports of the properties `ps` and the objects `os` behind them. It takes the ids of
   the results from `o`. While it is swallowing, it looks for the closing tag a true value lost: the next
   property with another value gives that up and is itself lost, and whatever stands before it too,
   errors and object heads included.
   */
  function Reported(o: Object, ps: seq<Property>, os: seq<Object>, swallowing: bool): seq<PropResult>
    decreases |os|, |ps|
  {
    if ps == [] then
      if os == [] then []
      else Reported(if swallowing then o else os[0], os[0].props, os[1..], swallowing)
    else if swallowing then Reported(o, ps[1..], os, ps[0].outcome.PropertyError? || Swallows(ps[0]))
    else [ResultOf(o, ps[0], false)] + Reported(o, ps[1..], os, Swallows(ps[0]))
  }

  function ReportedAll(os: seq<Object>): seq<PropResult>
  {
    if os == [] then [] else Reported(os[0], os[0].props, os[1..], false)
  }

  /** The inner loop from `pos`, and the rest of the outer loop behind it. */
  function RpmRest(data: seq<Byte>, pos: nat, o: Object): seq<PropResult>
  {
    var (rs, end) := RpmList(data, pos, o.objType, o.inst);
    rs + (if end.Some? then RpmFrom(data, end.value) else [])
  }

  lemma ListEnds(data: seq<Byte>, pos: nat, o: Object)
    requires At(data, pos, EncCtxClose(1))
    ensures RpmRest(data, pos, o) == RpmFrom(data, pos + 1)
  {
    hide ReadTagHdr, RpmFrom;
    CloseHeader(data, pos, 1);
  }

  lemma RestAtEnd(data: seq<Byte>, o: Object)
    ensures RpmRest(data, |data|, o) == []
  {
  }

  lemma RestSteps(data: seq<Byte>, pos: nat, o: Object, r: PropResult, next: nat)
    requires pos < |data| && RpmStep(data, pos, o.objType, o.inst) == Results([r], next)
    ensures RpmRest(data, pos, o) == [r] + RpmRest(data, next, o)
  {
    hide RpmStep, RpmFrom;
    var (more, end) := RpmList(data, next, o.objType, o.inst);
    var rest := if end.Some? then RpmFrom(data, end.value) else [];
    assert [r] + more + rest == [r] + (more + rest);
  }

  /** An encoded object is accepted by the outer loop and its list starts just past its header. */
  lemma ObjectReads(data: seq<Byte>, pos: nat, o: Object)
    requires ObjectInRange(o) && At(data, pos, EncObject(o))
    ensures pos < |data| && RpmObject(data, pos) == Some((o.objType, o.inst, pos + 6))
    ensures |EncObject(o)| == 6 + |EncProperties(o.props)|
  {
    hide ReadTagHdr, EncProperties, At, DecodeOid, PutUint32, OidWord;
    AtSplit(data, pos, EncCtxOid(0, o.objType, o.inst), EncCtxOpen(1) + EncProperties(o.props));
    AtSplit(data, pos + 5, EncCtxOpen(1), EncProperties(o.props));
    CtxOidReads(data, pos, 0, o.objType, o.inst);
    OpenHeader(data, pos + 5, 1);
  }

  lemma FromObject(data: seq<Byte>, pos: nat, o: Object)
    requires ObjectInRange(o) && At(data, pos, EncObject(o))
    ensures RpmFrom(data, pos) == RpmRest(data, pos + 6, o)
  {
    hide ReadTagHdr, RpmObject, EncObject, At, ObjectInRange, RpmList;
    ObjectReads(data, pos, o);
  }

  /** The encodings of a list's end and of what follows it, taken apart. */
  lemma NextObject(data: seq<Byte>, pos: nat, os: seq<Object>)
    requires os != [] && forall o :: o in os ==> ObjectInRange(o)
    requires At(data, pos, EncCtxClose(1) + EncAck(os))
    ensures At(data, pos, EncCtxClose(1)) && At(data, pos + 1, EncObject(os[0]))
    ensures At(data, pos, EncCtxClose(1) + EncObject(os[0]))
    ensures At(data, pos + 7, EncProperties(os[0].props) + EncAck(os[1..]))
    ensures |EncCtxClose(1) + EncAck(os)| == 7 + |EncProperties(os[0].props) + EncAck(os[1..])|
  {
    hide EncProperties, EncCtxOid, At, ObjectInRange;
    var o := os[0];
    ObjectPropsInRange(o);
    var head, props, rest := EncCtxOid(0, o.objType, o.inst) + EncCtxOpen(1), EncProperties(o.props), EncAck(os[1..]);
    HeadLength(o);
    assert EncObject(o) == head + props;
    assert EncCtxClose(1) + EncAck(os) == EncCtxClose(1) + EncObject(o) + rest;
    assert EncCtxClose(1) + EncAck(os) == EncCtxClose(1) + head + (props + rest);
    AtSplit(data, pos, EncCtxClose(1), EncAck(os));
    AtSplit(data, pos + 1, EncObject(o), rest);
    AtSplit(data, pos, EncCtxClose(1) + EncObject(o), rest);
    AtSplit(data, pos, EncCtxClose(1) + head, props + rest);
  }

  lemma HeadLength(o: Object)
    requires ObjectInRange(o)
    ensures |EncCtxOid(0, o.objType, o.inst) + EncCtxOpen(1)| == 6
  {
  }

  /** From any property on, in either mode, the loops report what `Reported` says. */
  lemma {:induction false} RestReads(data: seq<Byte>, pos: nat, o: Object, ps: seq<Property>, os: seq<Object>,
                                     swallowing: bool)
    requires forall p :: p in ps ==> p.id < TWO32 && OutcomeInRange(p.outcome)
    requires forall x :: x in os ==> ObjectInRange(x)
    requires At(data, pos, EncProperties(ps) + EncAck(os)) && pos + |EncProperties(ps) + EncAck(os)| == |data|
    ensures RpmRest(data, After(data, pos, swallowing), o) == Reported(o, ps, os, swallowing)
    decreases |os|, |ps|
  {
    hide At, EncProperty, EncCtxClose, After, RpmRest, RpmFrom, EncObject, OutcomeInRange, ObjectInRange, EncAck;
    if ps != [] {
      var next := pos + |EncProperty(ps[0])|;
      ListParts(data, pos, ps, os);
      RestReads(data, next, o, ps[1..], os, if swallowing then ps[0].outcome.PropertyError? || Swallows(ps[0])
                                            else Swallows(ps[0]));
      if swallowing {
        PropertySwallowed(data, pos, ps[0]);
      } else {
        PropertyStep(data, pos, o, ps[0]);
        NotSwallowing(data, pos);
        RestSteps(data, pos, o, ResultOf(o, ps[0], false), After(data, next, Swallows(ps[0])));
      }
    } else if os == [] {
      LastListReads(data, pos, o, swallowing);
    } else {
      NextObject(data, pos, os);
      NextListReads(data, pos, o, os[0], swallowing);
      ObjectPropsInRange(os[0]);
      RestReads(data, pos + 7, if swallowing then o else os[0], os[0].props, os[1..], swallowing);
    }
  }

  lemma NotSwallowing(data: seq<Byte>, pos: nat)
    ensures After(data, pos, false) == pos
  {
  }

  lemma ListParts(data: seq<Byte>, pos: nat, ps: seq<Property>, os: seq<Object>)
    requires forall p :: p in ps ==> p.id < TWO32 && OutcomeInRange(p.outcome)
    requires forall x :: x in os ==> ObjectInRange(x)
    requires ps != [] && At(data, pos, EncProperties(ps) + EncAck(os))
    ensures At(data, pos, EncProperty(ps[0]))
    ensures At(data, pos + |EncProperty(ps[0])|, EncProperties(ps[1..]) + EncAck(os))
    ensures |EncProperties(ps) + EncAck(os)| == |EncProperty(ps[0])| + |EncProperties(ps[1..]) + EncAck(os)|
  {
    hide At, EncProperty, EncAck, OutcomeInRange, ObjectInRange;
    var x, y, z := EncProperty(ps[0]), EncProperties(ps[1..]), EncAck(os);
    assert x + y + z == x + (y + z);
    AtSplit(data, pos, x, y + z);
  }

  /** Behind the last property of all both modes end with nothing more to report. */
  lemma LastListReads(data: seq<Byte>, pos: nat, o: Object, swallowing: bool)
    requires At(data, pos, EncCtxClose(1) + EncAck([])) && pos + |EncCtxClose(1) + EncAck([])| == |data|
    ensures RpmRest(data, After(data, pos, swallowing), o) == []
  {
    hide SkipTo, AfterClose, RpmRest, ReadTagHdr;
    assert EncCtxClose(1) + EncAck([]) == EncCtxClose(1);
    if swallowing {
      EndSwallowed(data, pos);
      RestAtEnd(data, o);
    } else {
      ListEnds(data, pos, o);
    }
  }

  /** Behind an object's last property: the next object's list, whose results keep the old ids when swallowing. */
  lemma NextListReads(data: seq<Byte>, pos: nat, o: Object, x: Object, swallowing: bool)
    requires ObjectInRange(x) && At(data, pos, EncCtxClose(1)) && At(data, pos + 1, EncObject(x))
    requires At(data, pos, EncCtxClose(1) + EncObject(x))
    ensures RpmRest(data, After(data, pos, swallowing), o)
         == RpmRest(data, After(data, pos + 7, swallowing), if swallowing then o else x)
  {
    hide *;
    if swallowing {
      HeadSwallowed(data, pos, x);
    } else {
      NotSwallowing(data, pos);
      NotSwallowing(data, pos + 7);
      ListEnds(data, pos, o);
      FromObject(data, pos + 1, x);
    }
  }

  lemma ObjectPropsInRange(o: Object)
    requires ObjectInRange(o)
    ensures forall p :: p in o.props ==> p.id < TWO32 && OutcomeInRange(p.outcome)
  {
  }

  /** All properties of an acknowledgement in order. */
  function Props(os: seq<Object>): seq<Property>
  {
    if os == [] then [] else os[0].props + Props(os[1..])
  }

  /** No property comes behind one whose value is true. */
  predicate NothingBehindTrue(ps: seq<Property>)
  {
    forall i :: 0 <= i < |ps| - 1 ==> !Swallows(ps[i])
  }

  lemma {:induction false} ResultsPerProperty(os: seq<Object>, exact: bool)
    ensures |AckResults(os, exact)| == |Props(os)|
  {
    if os != [] { ResultsPerProperty(os[1..], exact); }
  }

  /** No property is reported twice, and swallowing loses at least one if there is one left. */
  lemma {:induction false} SwallowingLoses(o: Object, ps: seq<Property>, os: seq<Object>, swallowing: bool)
    ensures |Reported(o, ps, os, swallowing)| <= |ps| + |Props(os)|
    ensures swallowing && |ps| + |Props(os)| > 0 ==> |Reported(o, ps, os, swallowing)| < |ps| + |Props(os)|
    decreases |os|, |ps|
  {
    hide ResultOf, Swallows;
    if ps != [] {
      SwallowingLoses(o, ps[1..], os, if swallowing then ps[0].outcome.PropertyError? || Swallows(ps[0])
                                      else Swallows(ps[0]));
    } else if os != [] {
      SwallowingLoses(if swallowing then o else os[0], os[0].props, os[1..], swallowing);
    }
  }

  lemma NothingBehindFirst(p: Property, rest: seq<Property>)
    ensures NothingBehindTrue([p] + rest) <==> NothingBehindTrue(rest) && (rest == [] || !Swallows(p))
  {
    var all := [p] + rest;
    if NothingBehindTrue(all) {
      assert rest != [] ==> !Swallows(all[0]);
      forall i | 0 <= i < |rest| - 1 ensures !Swallows(rest[i]) { assert rest[i] == all[i + 1]; }
    }
    if NothingBehindTrue(rest) && (rest == [] || !Swallows(p)) {
      forall i | 0 <= i < |all| - 1 ensures !Swallows(all[i]) { assert i > 0 ==> all[i] == rest[i - 1]; }
    }
  }

  /** Nothing comes behind a true value: every property is reported. Otherwise fewer results than properties. */
  lemma {:induction false} ReportedIff(o: Object, ps: seq<Property>, os: seq<Object>)
    ensures var r := Reported(o, ps, os, false);
            if NothingBehindTrue(ps + Props(os)) then r == ResultsOf(o, ps, false) + AckResults(os, false)
            else |r| < |ps| + |Props(os)|
    decreases |os|, |ps|
  {
    hide ResultOf, Swallows, NothingBehindTrue;
    if ps != [] {
      assert ps + Props(os) == [ps[0]] + (ps[1..] + Props(os));
      NothingBehindFirst(ps[0], ps[1..] + Props(os));
      if Swallows(ps[0]) {
        TrueFirst(o, ps, os);
        ListDone(o, os);
      } else {
        ReportedIff(o, ps[1..], os);
      }
    } else {
      ListDone(o, os);
      if os != [] { ReportedIff(os[0], os[0].props, os[1..]); }
    }
  }

  lemma TrueFirst(o: Object, ps: seq<Property>, os: seq<Object>)
    requires ps != [] && Swallows(ps[0])
    ensures var r := Reported(o, ps, os, false);
            if ps[1..] + Props(os) == [] then r == ResultsOf(o, ps, false) + AckResults(os, false)
            else |r| < |ps| + |Props(os)|
  {
    hide ResultOf, Swallows;
    SwallowingLoses(o, ps[1..], os, true);
    ResultsPerProperty(os, false);
    assert Reported(o, ps, os, false) == [ResultOf(o, ps[0], false)] + Reported(o, ps[1..], os, true);
    hide Reported, AckResults;
    if ps[1..] + Props(os) == [] {
      assert |ps[1..]| + |Props(os)| == 0;
      assert ps[1..] == [];
    }
  }

  lemma ListDone(o: Object, os: seq<Object>)
    ensures [] + Props(os) == Props(os)
    ensures ResultsOf(o, [], false) + AckResults(os, false) == AckResults(os, false)
    ensures NothingBehindTrue([])
  {
  }

  lemma ResultAgreesIff(o: Object, p: Property)
    ensures ResultOf(o, p, false) == ResultOf(o, p, true) <==> (p.outcome.Ok? ==> ReadFaithfully(p.outcome.value))
  {
  }

  predicate PropertiesFaithful(ps: seq<Property>)
  {
    forall p :: p in ps && p.outcome.Ok? ==> ReadFaithfully(p.outcome.value)
  }

  lemma {:induction false} ResultsAgreeIff(o: Object, ps: seq<Property>)
    ensures ResultsOf(o, ps, false) == ResultsOf(o, ps, true) <==> PropertiesFaithful(ps)
  {
    if ps != [] {
      ResultAgreesIff(o, ps[0]);
      ResultsAgreeIff(o, ps[1..]);
      assert ps == [ps[0]] + ps[1..];
      var a, b := ResultsOf(o, ps, false), ResultsOf(o, ps, true);
      assert a[1..] == ResultsOf(o, ps[1..], false) && b[1..] == ResultsOf(o, ps[1..], true);
      assert a == b <==> a[0] == b[0] && a[1..] == b[1..];
    }
  }

  lemma {:induction false} AckResultsAgreeIff(os: seq<Object>)
    ensures |AckResults(os, false)| == |AckResults(os, true)|
    ensures AckResults(os, false) == AckResults(os, true) <==> forall o :: o in os ==> PropertiesFaithful(o.props)
  {
    if os != [] {
      var o, k := os[0], |os[0].props|;
      ResultsAgreeIff(o, o.props);
      AckResultsAgreeIff(os[1..]);
      assert os == [o] + os[1..];
      var a, b := AckResults(os, false), AckResults(os, true);
      assert a[..k] == ResultsOf(o, o.props, false) && a[k..] == AckResults(os[1..], false);
      assert b[..k] == ResultsOf(o, o.props, true) && b[k..] == AckResults(os[1..], true);
      assert a == a[..k] + a[k..] && b == b[..k] + b[k..];
    }
  }

  /** What an encoded acknowledgement decodes to, whatever its values. */
  lemma RpmReads(os: seq<Object>)
    requires forall o :: o in os ==> ObjectInRange(o)
    ensures RpmFrom(EncAck(os), 0) == ReportedAll(os)
  {
    hide At, EncProperties, EncObject, RpmRest, ObjectInRange, OutcomeInRange, RpmObject, RpmList, Reported;
    if os != [] {
      var data, o := EncAck(os), os[0];
      AckParts(data, os);
      FromObject(data, 0, o);
      ObjectPropsInRange(o);
      RestReads(data, 6, o, o.props, os[1..], false);
    }
  }

  lemma AckParts(data: seq<Byte>, os: seq<Object>)
    requires os != [] && forall o :: o in os ==> ObjectInRange(o)
    requires data == EncAck(os)
    ensures At(data, 0, EncObject(os[0])) && At(data, 6, EncProperties(os[0].props) + EncAck(os[1..]))
    ensures |data| == 6 + |EncProperties(os[0].props) + EncAck(os[1..])|
  {
    hide EncProperties, EncCtxOid, At, ObjectInRange;
    var o := os[0];
    ObjectPropsInRange(o);
    var head, props, rest := EncCtxOid(0, o.objType, o.inst) + EncCtxOpen(1), EncProperties(o.props), EncAck(os[1..]);
    HeadLength(o);
    assert EncObject(o) == head + props;
    assert EncAck(os) == EncObject(o) + rest == head + (props + rest);
    AtWhole(data);
    AtSplit(data, 0, EncObject(o), rest);
    AtSplit(data, 0, head, props + rest);
  }

  /**
   Decoding an encoded acknowledgement gives every object, property id, order and error flag back exactly
   when no property comes behind a value true; and every value too exactly when, besides, each long bit
   string's flag nibble equals the one misread for it.
   */
  lemma RpmRoundTripIff(os: seq<Object>)
    requires forall o :: o in os ==> ObjectInRange(o)
    ensures RpmFrom(EncAck(os), 0) == AckResults(os, false) <==> NothingBehindTrue(Props(os))
    ensures RpmFrom(EncAck(os), 0) == AckResults(os, true) <==>
            NothingBehindTrue(Props(os)) && forall o :: o in os ==> PropertiesFaithful(o.props)
  {
    hide RpmFrom, EncAck, ObjectInRange, Reported, AckResults, ResultsOf, PropertiesFaithful;
    RpmReads(os);
    AckResultsAgreeIff(os);
    ResultsPerProperty(os, false);
    AllReportedIff(os);
  }

  lemma AllReportedIff(os: seq<Object>)
    ensures if NothingBehindTrue(Props(os)) then ReportedAll(os) == AckResults(os, false)
            else |ReportedAll(os)| < |Props(os)|
  {
    hide Reported, ResultsOf, NothingBehindTrue;
    if os != [] {
      ReportedIff(os[0], os[0].props, os[1..]);
    }
    ListDone(Object(0, 0, []), os);
  }

  /** Of two objects the second one's first value is lost behind a true, and its second is reported of the first. */
  lemma TrueSwallowsTheNext()
    ensures var os := [Object(1, 0, [Property(103, Ok(Flag(true)))]),
                       Object(2, 7, [Property(85, Ok(Unsigned(5))), Property(85, Ok(Unsigned(6)))])];
            && (forall o :: o in os ==> ObjectInRange(o))
            && RpmFrom(EncAck(os), 0) == [PropResult(1, 0, 103, Whole(1), true), PropResult(1, 0, 85, Whole(6), true)]
  {
    var p, q, r := Property(103, Ok(Flag(true))), Property(85, Ok(Unsigned(5))), Property(85, Ok(Unsigned(6)));
    var a, b := Object(1, 0, [p]), Object(2, 7, [q, r]);
    hide RpmFrom, EncAck, Reported, NibbleRead, EncValue;
    assert [a, b][1..] == [b];
    RpmReads([a, b]);
    LostBehindTrue(a, b, p, q, r);
  }

  lemma LostBehindTrue(a: Object, b: Object, p: Property, q: Property, r: Property)
    requires b.props == [q, r] && Swallows(p) && q.outcome.Ok? && !Swallows(q) && !Swallows(r)
    ensures Reported(a, [p], [b], false) == [ResultOf(a, p, false), ResultOf(a, r, false)]
  {
    hide Swallows, ResultOf;
    var none: seq<Property>, last: seq<Object> := [], [];
    assert [p][1..] == none && [b][1..] == last && [q, r][1..] == [r] && [r][1..] == none;
    assert Reported(a, none, last, false) == [];
    assert Reported(a, [r], last, false) == [ResultOf(a, r, false)];
    assert Reported(a, [q, r], last, true) == Reported(a, [r], last, false);
    assert Reported(a, none, [b], true) == Reported(a, [q, r], last, true);
  }

  /** A bit string of four flag octets with its first flag set is read as no flag set. */
  lemma LongBitStringMisread()
    ensures var v := Bits(0, [0x80, 0, 0, 0]);
            && ValueInRange(v) && Meaning(v) == Whole(8)
            && AppValue(EncValue(v), 0).Decoded? && AppValue(EncValue(v), 0).value == Whole(0)
  {
  }

  // --- ReadProperty and COV --------------------------------------------------------------------

  function EncReadPropertyAck(objType: nat, inst: nat, prop: nat, v: Value): seq<Byte>
    requires prop < TWO32 && ValueInRange(v)
  {
    EncCtxOid(0, objType, inst) + (EncCtxUint(1, prop) + (EncCtxOpen(3) + (EncValue(v) + EncCtxClose(3))))
  }

  /** A ReadProperty acknowledgement decodes to its value, exactly when that value is read faithfully. */
  lemma ReadPropertyRoundTripIff(objType: nat, inst: nat, prop: nat, v: Value)
    requires objType < 0x400 && inst < 0x40_0000 && prop < TWO32 && ValueInRange(v)
    ensures ReadPropertyFrom(EncReadPropertyAck(objType, inst, prop, v), 0) == Some(Meaning(v)) <==> ReadFaithfully(v)
  {
    hide ReadTagHdr, AppValue, EncValue, EncCtxUint, At, PutUint32, Meaning, Reading, ReadFaithfully, FoldInt;
    var data := EncReadPropertyAck(objType, inst, prop, v);
    assert data[0..|data|] == data;
    AtSplit(data, 0, EncCtxOid(0, objType, inst),
            EncCtxUint(1, prop) + (EncCtxOpen(3) + (EncValue(v) + EncCtxClose(3))));
    AtSplit(data, 5, EncCtxUint(1, prop), EncCtxOpen(3) + (EncValue(v) + EncCtxClose(3)));
    var q := 5 + |EncCtxUint(1, prop)|;
    AtSplit(data, q, EncCtxOpen(3), EncValue(v) + EncCtxClose(3));
    AtSplit(data, q + 1, EncValue(v), EncCtxClose(3));
    CtxOidReads(data, 0, 0, objType, inst);
    CtxUintReads(data, 5, 1, prop);
    OpenHeader(data, q, 3);
    ValueReads(data, q + 1, v);
    ReadingIffFaithful(v);
    assert ReadPropertyFrom(data, 0) == ReadPropertyFrom(data, 5) == ReadPropertyFrom(data, q);
  }

  /** The list of values of a COV notification: each entry wrapped as in an acknowledgement. */
  function EncCovValues(vs: seq<(nat, Value)>): seq<Byte>
    requires forall e :: e in vs ==> e.0 < TWO32 && ValueInRange(e.1)
  {
    if vs == [] then EncCtxClose(4)
    else EncProperty(Property(vs[0].0, Ok(vs[0].1))) + EncCovValues(vs[1..])
  }

  function EncCov(pid: nat, device: nat, objType: nat, inst: nat, remaining: nat, vs: seq<(nat, Value)>): seq<Byte>
    requires pid < TWO32 && remaining < TWO32
    requires forall e :: e in vs ==> e.0 < TWO32 && ValueInRange(e.1)
  {
    EncCtxUint(0, pid) + (EncCtxOid(1, 8, device) + (EncCtxOid(2, objType, inst) +
      (EncCtxUint(3, remaining) + (EncCtxOpen(4) + EncCovValues(vs)))))
  }

  /** The last present value of the list as the decoder reads it, or `seen` if there is none. */
  function LastPresentValue(vs: seq<(nat, Value)>, seen: Option<Scalar>): Option<Scalar>
  {
    if vs == [] then seen
    else LastPresentValue(vs[1..], if vs[0].0 == PROP_PRESENT_VALUE then Some(Reading(vs[0].1)) else seen)
  }

  /** The value of the last present-value entry, if there is one. */
  function LastPresentEntry(vs: seq<(nat, Value)>, seen: Option<Value>): Option<Value>
  {
    if vs == [] then seen
    else LastPresentEntry(vs[1..], if vs[0].0 == PROP_PRESENT_VALUE then Some(vs[0].1) else seen)
  }

  /** The entries the decoder sees: all but those right behind a value true. */
  function Kept(vs: seq<(nat, Value)>, swallowing: bool): seq<(nat, Value)>
  {
    if vs == [] then []
    else (if swallowing then [] else [vs[0]]) + Kept(vs[1..], IsTrue(vs[0].1))
  }

  /** What a notification with that last present value means; without one the decoder reports nothing. */
  function CovMeaning(device: nat, objType: nat, inst: nat, last: Option<Value>): Option<Cov>
  {
    match last
    case None => None
    case Some(v) => Some(Cov(device, objType, inst, Some(Meaning(v))))
  }

  lemma {:induction false} LastEntryRead(vs: seq<(nat, Value)>, seen: Option<Value>)
    ensures LastPresentValue(vs, if seen.Some? then Some(Reading(seen.value)) else None)
         == var last := LastPresentEntry(vs, seen); if last.Some? then Some(Reading(last.value)) else None
    decreases |vs|
  {
    if vs != [] {
      LastEntryRead(vs[1..], if vs[0].0 == PROP_PRESENT_VALUE then Some(vs[0].1) else seen);
    }
  }

  /** An entry is seen exactly when it is the first or the one before it is not true. */
  lemma {:induction false} KeptAll(vs: seq<(nat, Value)>)
    requires forall i :: 0 <= i < |vs| - 1 ==> !IsTrue(vs[i].1)
    ensures Kept(vs, false) == vs
  {
    hide IsTrue;
    if vs == [] {
    } else if |vs| == 1 {
      assert vs[1..] == [];
    } else {
      assert !IsTrue(vs[0].1);
      forall i | 0 <= i < |vs[1..]| - 1 ensures !IsTrue(vs[1..][i].1) { assert vs[1..][i] == vs[i + 1]; }
      KeptAll(vs[1..]);
    }
  }

  predicate HasPresentValue(vs: seq<(nat, Value)>)
  {
    exists e :: e in vs && e.0 == PROP_PRESENT_VALUE
  }

  lemma {:induction false} LastEntryExists(vs: seq<(nat, Value)>, seen: Option<Value>)
    ensures LastPresentEntry(vs, seen).Some? <==> seen.Some? || HasPresentValue(vs)
    decreases |vs|
  {
    if vs != [] {
      assert vs == [vs[0]] + vs[1..];
      LastEntryExists(vs[1..], if vs[0].0 == PROP_PRESENT_VALUE then Some(vs[0].1) else seen);
    }
  }

  lemma {:induction false} KeptAreEntries(vs: seq<(nat, Value)>, swallowing: bool)
    ensures forall e :: e in Kept(vs, swallowing) ==> e in vs
  {
    if vs != [] { KeptAreEntries(vs[1..], IsTrue(vs[0].1)); }
  }

  lemma CovStepFromHeaders(data: seq<Byte>, pos: nat, id: Hdr, prop: int)
    requires ReadTagHdr(data, pos) == Hdr(2, true, true, false, 0, pos + 1)
    requires id.Hdr? && id == ReadTagHdr(data, pos + 1) && id.ctx && id.tag == 0 && id.next + id.vlen <= |data|
    requires prop == FoldInt(data[id.next..id.next + id.vlen])
    requires ReadTagHdr(data, id.next + id.vlen) == Hdr(4, true, true, false, 0, id.next + id.vlen + 1)
    requires AppValue(data, id.next + id.vlen + 1).Decoded?
    ensures CovStep(data, pos) ==
            Some((if prop == PROP_PRESENT_VALUE then Some(AppValue(data, id.next + id.vlen + 1).value) else None,
                  AfterClose(data, SkipTo(data, id.next + id.vlen + 1, 4))))
  {
    hide ReadTagHdr, AppValue, SkipTo, FoldInt, AfterClose;
  }

  lemma CovEntryStep(data: seq<Byte>, pos: nat, id: nat, v: Value)
    requires id < TWO32 && ValueInRange(v) && At(data, pos, EncProperty(Property(id, Ok(v))))
    ensures pos < |data|
    ensures CovStep(data, pos) ==
            Some((if id == PROP_PRESENT_VALUE then Some(Reading(v)) else None,
                  After(data, pos + |EncProperty(Property(id, Ok(v)))|, IsTrue(v))))
  {
    hide ReadTagHdr, AppValue, SkipTo, EncOutcome, At, FoldInt, CovStep, Reading, Minimal, EncProperty, AfterClose,
         IsTrue, ValueInRange;
    var q := PropertyParts(data, pos, Property(id, Ok(v)));
    OutcomeOpens(data, q, Ok(v));
    CovStepFromHeaders(data, pos, ReadTagHdr(data, pos + 1), id);
    OutcomeSkips(data, q, Ok(v));
  }

  /** The list's closing tag ends the loop, whether it is seen or swallowed. */
  lemma CovEnds(data: seq<Byte>, pos: nat, seen: Option<Scalar>, swallowing: bool)
    requires At(data, pos, EncCtxClose(4)) && pos + 1 == |data|
    ensures CovFrom(data, After(data, pos, swallowing), seen) == seen
  {
    CloseHeader(data, pos, 4);
    assert SkipTo(data, pos, 4) == pos + 1;
    assert CovStep(data, pos).None?;
  }

  lemma {:induction false} CovValuesRead(data: seq<Byte>, pos: nat, vs: seq<(nat, Value)>, seen: Option<Scalar>,
                                         swallowing: bool)
    requires forall e :: e in vs ==> e.0 < TWO32 && ValueInRange(e.1)
    requires At(data, pos, EncCovValues(vs)) && pos + |EncCovValues(vs)| == |data|
    ensures CovFrom(data, After(data, pos, swallowing), seen) == LastPresentValue(Kept(vs, swallowing), seen)
    decreases |vs|
  {
    hide ReadTagHdr, CovStep, EncProperty, At, Reading, After, IsTrue, CovFrom;
    if vs == [] {
      CovEnds(data, pos, seen, swallowing);
    } else {
      var (id, v) := vs[0];
      var x := EncProperty(Property(id, Ok(v)));
      AtSplit(data, pos, x, EncCovValues(vs[1..]));
      if swallowing {
        PropertySwallowed(data, pos, Property(id, Ok(v)));
        assert Kept(vs, true) == Kept(vs[1..], IsTrue(v));
        CovValuesRead(data, pos + |x|, vs[1..], seen, IsTrue(v));
      } else {
        var seen' := if id == PROP_PRESENT_VALUE then Some(Reading(v)) else seen;
        CovEntryStep(data, pos, id, v);
        NotSwallowing(data, pos);
        CovFromSteps(data, pos, seen);
        CovValuesRead(data, pos + |x|, vs[1..], seen', IsTrue(v));
        assert Kept(vs, false)[1..] == Kept(vs[1..], IsTrue(v));
      }
    }
  }

  lemma CovFromSteps(data: seq<Byte>, pos: nat, seen: Option<Scalar>)
    requires pos < |data| && CovStep(data, pos).Some?
    ensures var (v, next) := CovStep(data, pos).value;
            CovFrom(data, pos, seen) == CovFrom(data, next, if v.Some? then v else seen)
  {
    hide CovStep;
  }

  lemma AtSix(data: seq<Byte>, a: seq<Byte>, b: seq<Byte>, c: seq<Byte>, d: seq<Byte>, e: seq<Byte>, f: seq<Byte>)
    requires At(data, 0, a + (b + (c + (d + (e + f)))))
    ensures At(data, 0, a) && At(data, |a|, b) && At(data, |a| + |b|, c) && At(data, |a| + |b| + |c|, d)
    ensures At(data, |a| + |b| + |c| + |d|, e) && At(data, |a| + |b| + |c| + |d| + |e|, f)
  {
    hide At;
    AtSplit(data, 0, a, b + (c + (d + (e + f))));
    AtSplit(data, |a|, b, c + (d + (e + f)));
    AtSplit(data, |a| + |b|, c, d + (e + f));
    AtSplit(data, |a| + |b| + |c|, d, e + f);
    AtSplit(data, |a| + |b| + |c| + |d|, e, f);
  }

  function OidAt(data: seq<Byte>, pos: nat): (nat, nat)
    requires pos + 4 <= |data|
  {
    DecodeOid(data[pos..pos + 4])
  }

  /** What the fixed part comes to once its headers are known. */
  lemma CovHeaderFromHeaders(data: seq<Byte>, p: Hdr, d: Hdr, o: Hdr, t: Hdr, l: Hdr)
    requires p.Hdr? && d.Hdr? && o.Hdr? && t.Hdr? && l.Hdr?
    requires p == ReadTagHdr(data, 0) && d == ReadTagHdr(data, p.next + p.vlen) && d.next + 4 <= |data|
    requires o == ReadTagHdr(data, d.next + 4) && o.next + 4 <= |data| && t == ReadTagHdr(data, o.next + 4)
    requires l == ReadTagHdr(data, t.next + t.vlen) && l.ctx && l.tag == 4 && l.open
    ensures CovHeader(data) ==
            Some((OidAt(data, d.next).1, OidAt(data, o.next).0, OidAt(data, o.next).1, l.next))
  {
    hide ReadTagHdr, DecodeOid;
  }

  lemma CtxUintSpans(data: seq<Byte>, pos: nat, ctx: nat, v: nat)
    requires ctx < 15 && v < TWO32 && At(data, pos, EncCtxUint(ctx, v))
    ensures var h := ReadTagHdr(data, pos); h.Hdr? && h.next + h.vlen == pos + |EncCtxUint(ctx, v)|
  {
    CtxUintReads(data, pos, ctx, v);
  }

  /** The headers of a notification, one after the other. */
  lemma CovHeadersRead(data: seq<Byte>, pid: nat, device: nat, objType: nat, inst: nat, remaining: nat, p: nat, q: nat)
      returns (first: Hdr, time: Hdr)
    requires pid < TWO32 && remaining < TWO32
    requires device < 0x40_0000 && objType < 0x400 && inst < 0x40_0000
    requires p == |EncCtxUint(0, pid)| && q == p + 10 + |EncCtxUint(3, remaining)|
    requires At(data, 0, EncCtxUint(0, pid)) && At(data, p, EncCtxOid(1, 8, device))
    requires At(data, p + 5, EncCtxOid(2, objType, inst)) && At(data, p + 10, EncCtxUint(3, remaining))
    requires At(data, q, EncCtxOpen(4))
    ensures first.Hdr? && first == ReadTagHdr(data, 0) && first.next + first.vlen == p
    ensures time.Hdr? && time == ReadTagHdr(data, p + 10) && time.next + time.vlen == q
    ensures ReadTagHdr(data, p) == Hdr(1, true, false, false, 4, p + 1)
    ensures ReadTagHdr(data, p + 5) == Hdr(2, true, false, false, 4, p + 6)
    ensures ReadTagHdr(data, q) == Hdr(4, true, true, false, 0, q + 1)
    ensures p + 10 <= |data|
    ensures OidAt(data, p + 1) == (8, device) && OidAt(data, p + 6) == (objType, inst)
  {
    hide At, ReadTagHdr, EncCtxUint, EncCtxOid, DecodeOid, EncCtxOpen;
    CtxUintSpans(data, 0, 0, pid);
    CtxUintSpans(data, p + 10, 3, remaining);
    CtxOidReads(data, p, 1, 8, device);
    CtxOidReads(data, p + 5, 2, objType, inst);
    OpenHeader(data, q, 4);
    first, time := ReadTagHdr(data, 0), ReadTagHdr(data, p + 10);
  }

  /** The ids of a notification, and the start of its list of values. */
  lemma CovHeaderReads(data: seq<Byte>, pid: nat, device: nat, objType: nat, inst: nat, remaining: nat,
                       vs: seq<(nat, Value)>)
    requires pid < TWO32 && remaining < TWO32
    requires device < 0x40_0000 && objType < 0x400 && inst < 0x40_0000
    requires forall e :: e in vs ==> e.0 < TWO32 && ValueInRange(e.1)
    requires data == EncCov(pid, device, objType, inst, remaining, vs)
    ensures CovHeader(data).Some? && var (d, t, i, start) := CovHeader(data).value;
            && d == device && t == objType && i == inst
            && At(data, start, EncCovValues(vs)) && start + |EncCovValues(vs)| == |data|
  {
    hide *;
    var p, q := CovParts(data, pid, device, objType, inst, remaining, vs);
    var first, time := CovHeadersRead(data, pid, device, objType, inst, remaining, p, q);
    CovHeaderFromHeaders(data, first, Hdr(1, true, false, false, 4, p + 1), Hdr(2, true, false, false, 4, p + 6),
                         time, Hdr(4, true, true, false, 0, q + 1));
  }

  lemma CovParts(data: seq<Byte>, pid: nat, device: nat, objType: nat, inst: nat, remaining: nat,
                 vs: seq<(nat, Value)>) returns (p: nat, q: nat)
    requires pid < TWO32 && remaining < TWO32
    requires forall e :: e in vs ==> e.0 < TWO32 && ValueInRange(e.1)
    requires data == EncCov(pid, device, objType, inst, remaining, vs)
    ensures p == |EncCtxUint(0, pid)| && q == p + 10 + |EncCtxUint(3, remaining)|
    ensures At(data, 0, EncCtxUint(0, pid)) && At(data, p, EncCtxOid(1, 8, device))
    ensures At(data, p + 5, EncCtxOid(2, objType, inst)) && At(data, p + 10, EncCtxUint(3, remaining))
    ensures At(data, q, EncCtxOpen(4)) && At(data, q + 1, EncCovValues(vs)) && q + 1 + |EncCovValues(vs)| == |data|
  {
    hide EncCtxUint, EncCtxOid, EncCovValues, At;
    p, q := |EncCtxUint(0, pid)|, |EncCtxUint(0, pid)| + 10 + |EncCtxUint(3, remaining)|;
    AtWhole(data);
    CtxOidLength(1, 8, device);
    CtxOidLength(2, objType, inst);
    AtSix(data, EncCtxUint(0, pid), EncCtxOid(1, 8, device), EncCtxOid(2, objType, inst),
          EncCtxUint(3, remaining), EncCtxOpen(4), EncCovValues(vs));
  }

  lemma CtxOidLength(ctx: nat, objType: nat, inst: nat)
    requires ctx < 16
    ensures |EncCtxOid(ctx, objType, inst)| == 5
  {
  }

  lemma AtWhole(data: seq<Byte>)
    ensures At(data, 0, data)
  {
  }

  /** What a notification decodes to: its device, object and the last present value that is not behind a true. */
  lemma CovReads(pid: nat, device: nat, objType: nat, inst: nat, remaining: nat, vs: seq<(nat, Value)>)
    requires pid < TWO32 && remaining < TWO32
    requires device < 0x40_0000 && objType < 0x400 && inst < 0x40_0000
    requires forall e :: e in vs ==> e.0 < TWO32 && ValueInRange(e.1)
    ensures CovOf(EncCov(pid, device, objType, inst, remaining, vs)) ==
            var last := LastPresentEntry(Kept(vs, false), None);
            if last.None? then None else Some(Cov(device, objType, inst, Some(Reading(last.value))))
  {
    hide CovHeader, CovFrom, EncCov, EncCovValues, At, LastPresentValue, LastPresentEntry, Kept, Reading, SkipTo;
    var data := EncCov(pid, device, objType, inst, remaining, vs);
    CovHeaderReads(data, pid, device, objType, inst, remaining, vs);
    CovValuesRead(data, CovHeader(data).value.3, vs, None, false);
    LastEntryRead(Kept(vs, false), None);
  }

  /**
   A notification decodes to its device, object and last present value exactly when the last present
   value not behind a true reads as that one; without a true before another entry, exactly when the
   last one is read faithfully.
   */
  lemma CovRoundTripIff(pid: nat, device: nat, objType: nat, inst: nat, remaining: nat, vs: seq<(nat, Value)>)
    requires pid < TWO32 && remaining < TWO32
    requires device < 0x40_0000 && objType < 0x400 && inst < 0x40_0000
    requires forall e :: e in vs ==> e.0 < TWO32 && ValueInRange(e.1)
    ensures var last, seen := LastPresentEntry(vs, None), LastPresentEntry(Kept(vs, false), None);
            CovOf(EncCov(pid, device, objType, inst, remaining, vs)) == CovMeaning(device, objType, inst, last)
            <==> (last.Some? ==> seen.Some? && Reading(seen.value) == Meaning(last.value))
    ensures var last := LastPresentEntry(vs, None);
            (forall i :: 0 <= i < |vs| - 1 ==> !IsTrue(vs[i].1)) ==>
            (CovOf(EncCov(pid, device, objType, inst, remaining, vs)) == CovMeaning(device, objType, inst, last)
            <==> (last.Some? ==> ReadFaithfully(last.value)))
  {
    var last, seen := LastPresentEntry(vs, None), LastPresentEntry(Kept(vs, false), None);
    CovReads(pid, device, objType, inst, remaining, vs);
    LastEntryExists(vs, None);
    LastEntryExists(Kept(vs, false), None);
    KeptAreEntries(vs, false);
    hide CovOf, EncCov, LastPresentEntry, Reading, Meaning, ReadFaithfully, Kept, IsTrue;
    assert seen.Some? ==> last.Some?;
    if last.Some? { ReadingIffFaithful(last.value); }
    if forall i :: 0 <= i < |vs| - 1 ==> !IsTrue(vs[i].1) { KeptAll(vs); }
  }

  /** A true in front of the present value hides it: the notification decodes to nothing. */
  lemma TrueHidesPresentValue(pid: nat, device: nat, objType: nat, inst: nat, remaining: nat, id: nat, v: Value)
    requires pid < TWO32 && remaining < TWO32 && id < TWO32 && id != PROP_PRESENT_VALUE && ValueInRange(v)
    requires device < 0x40_0000 && objType < 0x400 && inst < 0x40_0000
    ensures CovOf(EncCov(pid, device, objType, inst, remaining, [(id, Flag(true)), (PROP_PRESENT_VALUE, v)])) == None
  {
    var a: (nat, Value), b: (nat, Value) := (id, Flag(true)), (PROP_PRESENT_VALUE, v);
    CovReads(pid, device, objType, inst, remaining, [a, b]);
    hide CovOf, EncCov, Reading, ValueInRange;
    assert [a, b][1..] == [b] && |[b][1..]| == 0;
    assert Kept([a, b], false) == [a] + Kept([b], true);
    assert Kept([b], true) == [];
    assert LastPresentEntry([a], None).None? by { assert |[a][1..]| == 0; }
  }
}
