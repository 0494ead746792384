/** The APDU classes of ASHRAE 135 clause 20.1: the max-segments and max-APDU-length
  * encodings (clause 20.1.2.4, 20.1.2.5) and the header octets of each of the eight PDU
  * types, written on and read from a PDUData. */
module Apdu {
  import opened Wrappers
  import opened Bytes
  import opened PduData
  import opened Apci

  // PDU types (the high nibble of the first octet)
  const ConfirmedRequestType := 0
  const UnconfirmedRequestType := 1
  const SimpleAckType := 2
  const ComplexAckType := 3
  const SegmentAckType := 4
  const ErrorType := 5
  const RejectType := 6
  const AbortType := 7

  // Reject reasons
  const RejectMissingRequiredParameter := 5
  const RejectParameterOutOfRange := 6
  const RejectUnrecognizedService := 9

  // Abort reasons
  const AbortOther := 0
  const AbortBufferOverflow := 1
  const AbortInvalidApduInThisState := 2
  const AbortSegmentationNotSupported := 4
  const AbortWindowSizeOutOfRange := 7
  const AbortApduTooLong := 11
  const AbortServerTimeout := 64
  const AbortNoResponse := 65

  /** The number of trailing zero bits of n (0 for n == 0). */
  function TrailingZeros(n: int): nat
    decreases if n < 0 then -n else n
  {
    if n == 0 || n % 2 == 1 then 0 else 1 + TrailingZeros(n / 2)
  }

  /** What is left of n once its trailing zero bits are shifted out. */
  function OddPart(n: int): int
    decreases if n < 0 then -n else n
  {
    if n == 0 || n % 2 == 1 then n else OddPart(n / 2)
  }

  /** n is 2^TrailingZeros(n) times an odd number: the count is exactly the exponent of the
    * largest power of two dividing n. */
  lemma {:induction false} TrailingZerosSplit(n: int)
    requires n != 0
    ensures n == Pow2(TrailingZeros(n)) * OddPart(n) && OddPart(n) % 2 == 1
    decreases if n < 0 then -n else n
  {
    if n % 2 != 1 {
      var h := n / 2;
      TrailingZerosSplit(h);
      var k, o := TrailingZeros(h), OddPart(h);
      assert n == 2 * (Pow2(k) * o);
      assert 2 * (Pow2(k) * o) == (2 * Pow2(k)) * o;
    }
  }

  lemma {:induction false} TrailingZerosOfPow2(k: nat)
    ensures TrailingZeros(Pow2(k)) == k
  {
    if k > 0 {
      TrailingZerosOfPow2(k - 1);
      assert Pow2(k) / 2 == Pow2(k - 1);
    }
  }

  /** `encode_max_segments_accepted`: the count of trailing zero bits of arg; None and 0
    * encode as 0. */
  method EncodeMaxSegmentsAccepted(arg: Option<int>) returns (w: nat)
    ensures w == if arg.None? then 0 else TrailingZeros(arg.value)
  {
    w := 0;
    if arg.None? {
      return;
    }
    var a := arg.value;
    while a != 0 && a % 2 == 0
      invariant w + TrailingZeros(a) == TrailingZeros(arg.value)
      decreases if a < 0 then -a else a
    {
      w := w + 1;
      a := a / 2;
    }
  }

  /** The encoding the method above computes, for use in specifications. */
  function MaxSegmentsCode(arg: Option<int>): nat
  {
    if arg.None? then 0 else TrailingZeros(arg.value)
  }

  /** `decode_max_segments_accepted`: code 0 is "unspecified" (None), code k is 2^k. */
  function DecodeMaxSegmentsAccepted(code: nat): (r: Option<int>)
    ensures r.None? <==> code == 0
    ensures r.Some? ==> r.value == Pow2(code) && r.value >= 2
  {
    if code == 0 then None else Some(Pow2(code))
  }

  /** A power of two from 2 to 2^k encodes to k and decodes back to itself; 1 encodes to
    * 0 and so decodes to None. */
  lemma {:induction false} MaxSegmentsRoundTrip(k: nat)
    ensures DecodeMaxSegmentsAccepted(MaxSegmentsCode(Some(Pow2(k)))) ==
      if k == 0 then None else Some(Pow2(k))
  {
    TrailingZerosOfPow2(k);
  }

  /** `_max_apdu_response_encoding`: codes 0..5, then ten unused codes. */
  const MaxApduResponseEncoding: seq<Option<int>> :=
    [Some(50), Some(128), Some(206), Some(480), Some(1024), Some(1476),
     None, None, None, None, None, None, None, None, None, None]

  function MaxApduTable(i: nat): int
    requires i < 6
  {
    MaxApduResponseEncoding[i].value
  }

  /** `encode_max_apdu_length_accepted`, used by the specifications: the largest code whose
    * table value does not exceed arg; below 50 is a ValueError, None a TypeError. */
  function MaxApduCode(arg: Option<int>): (r: Result<nat>)
    ensures r.Ok? <==> arg.Some? && arg.value >= 50
    ensures arg.None? ==> r == Err(TypeError)
    ensures arg.Some? && arg.value < 50 ==> r == Err(ValueError)
    ensures r.Ok? ==>
      r.value < 6 && MaxApduTable(r.value) <= arg.value &&
      (r.value == 5 || arg.value < MaxApduTable(r.value + 1))
  {
    if arg.None? then Err(TypeError)
    else if arg.value >= 1476 then Ok(5)
    else if arg.value >= 1024 then Ok(4)
    else if arg.value >= 480 then Ok(3)
    else if arg.value >= 206 then Ok(2)
    else if arg.value >= 128 then Ok(1)
    else if arg.value >= 50 then Ok(0)
    else Err(ValueError)
  }

  /** `encode_max_apdu_length_accepted`: scan codes 5 down to 0 for the first table value
    * not above arg. */
  method EncodeMaxApduLengthAccepted(arg: Option<int>) returns (r: Result<nat>)
    ensures r == MaxApduCode(arg)
  {
    if arg.None? {
      return Err(TypeError);
    }
    var i := 6;
    while i > 0
      invariant 0 <= i <= 6
      invariant forall j :: i <= j < 6 ==> arg.value < MaxApduTable(j)
    {
      i := i - 1;
      if arg.value >= MaxApduTable(i) {
        return Ok(i);
      }
    }
    return Err(ValueError);
  }

  /** `decode_max_apdu_length_accepted`: codes 0..5 give the table value, the unused codes
    * 6..15 are a ValueError; a negative index counts from the end of the table as Python
    * does, and anything beyond it is an IndexError. */
  function DecodeMaxApduLengthAccepted(code: int): (r: Result<int>)
    ensures 0 <= code < 6 ==> r == Ok(MaxApduTable(code))
    ensures 6 <= code < 16 ==> r == Err(ValueError)
    ensures r.Ok? <==> (0 <= code < 6 || -16 <= code < -10)
  {
    if -16 <= code < 16 then
      var v := MaxApduResponseEncoding[if code < 0 then code + 16 else code];
      if v.None? then Err(ValueError) else Ok(v.value)
    else Err(IndexError)
  }

  /** Each table value encodes to its code and decodes back to itself. */
  lemma MaxApduRoundTrip(i: nat)
    requires i < 6
    ensures MaxApduCode(Some(MaxApduTable(i))) == Ok(i)
    ensures DecodeMaxApduLengthAccepted(i) == Ok(MaxApduTable(i))
  {
  }

  // ---------------------------------------------------------------------------------
  // Field helpers

  /** Python truthiness of an optional flag. */
  function Flag(b: Option<bool>): bool { b == Some(true) }

  predicate IsFlag(x: Option<bool>) { x.Some? }

  /** The value the encoder writes for a max-segments field that decodes back to itself:
    * unset, or a power of two from 2 to 128. */
  predicate CanonicalMaxSegs(x: Option<int>)
  {
    x.None? || exists k: nat {:trigger Pow2(k)} :: 1 <= k <= 7 && x.value == Pow2(k)
  }

  /** The fields a PDU of type t carries, set to canonical values, every other field unset:
    * what decoding into a fresh APCI produces. */
  predicate Canonical(f: ApciFields)
  {
    f.apduType.Some? && 0 <= f.apduType.value < 8 &&
    var t := f.apduType.value;
    if t == ConfirmedRequestType then
      IsFlag(f.apduSeg) && IsFlag(f.apduMor) && IsFlag(f.apduSA) &&
      CanonicalMaxSegs(f.apduMaxSegs) &&
      f.apduMaxResp.Some? && f.apduMaxResp.value in {50, 128, 206, 480, 1024, 1476} &&
      IsOctet(f.apduInvokeID) && IsOctet(f.apduService) &&
      (if Flag(f.apduSeg) then IsOctet(f.apduSeq) && IsOctet(f.apduWin)
       else f.apduSeq.None? && f.apduWin.None?) &&
      f == Unset.(apduType := f.apduType, apduSeg := f.apduSeg, apduMor := f.apduMor,
                  apduSA := f.apduSA, apduMaxSegs := f.apduMaxSegs, apduMaxResp := f.apduMaxResp,
                  apduInvokeID := f.apduInvokeID, apduSeq := f.apduSeq, apduWin := f.apduWin,
                  apduService := f.apduService)
    else if t == UnconfirmedRequestType then
      IsOctet(f.apduService) &&
      f == Unset.(apduType := f.apduType, apduService := f.apduService)
    else if t == SimpleAckType || t == ErrorType then
      IsOctet(f.apduInvokeID) && IsOctet(f.apduService) &&
      f == Unset.(apduType := f.apduType, apduInvokeID := f.apduInvokeID, apduService := f.apduService)
    else if t == ComplexAckType then
      IsFlag(f.apduSeg) && IsFlag(f.apduMor) &&
      IsOctet(f.apduInvokeID) && IsOctet(f.apduService) &&
      (if Flag(f.apduSeg) then IsOctet(f.apduSeq) && IsOctet(f.apduWin)
       else f.apduSeq.None? && f.apduWin.None?) &&
      f == Unset.(apduType := f.apduType, apduSeg := f.apduSeg, apduMor := f.apduMor,
                  apduInvokeID := f.apduInvokeID, apduSeq := f.apduSeq, apduWin := f.apduWin,
                  apduService := f.apduService)
    else if t == SegmentAckType then
      IsFlag(f.apduNak) && IsFlag(f.apduSrv) &&
      IsOctet(f.apduInvokeID) && IsOctet(f.apduSeq) && IsOctet(f.apduWin) &&
      f == Unset.(apduType := f.apduType, apduNak := f.apduNak, apduSrv := f.apduSrv,
                  apduInvokeID := f.apduInvokeID, apduSeq := f.apduSeq, apduWin := f.apduWin)
    else if t == RejectType then
      IsOctet(f.apduInvokeID) && IsOctet(f.apduAbortRejectReason) &&
      f == Unset.(apduType := f.apduType, apduInvokeID := f.apduInvokeID,
                  apduAbortRejectReason := f.apduAbortRejectReason)
    else
      IsFlag(f.apduSrv) && IsOctet(f.apduInvokeID) && IsOctet(f.apduAbortRejectReason) &&
      f == Unset.(apduType := f.apduType, apduSrv := f.apduSrv, apduInvokeID := f.apduInvokeID,
                  apduAbortRejectReason := f.apduAbortRejectReason)
  }

  // ---------------------------------------------------------------------------------
  // Encodings, as functions of the fields

  /** The optional sequence-number and window octets: present iff segmented. */
  function SeqWin(f: ApciFields): Result<seq<byte>>
  {
    if Flag(f.apduSeg) then
      var sq :- Octet(f.apduSeq);
      var w :- Octet(f.apduWin);
      Ok([sq, w])
    else Ok([])
  }

  function EncodeConfirmedRequest(f: ApciFields): Result<seq<byte>>
  {
    var b0 := FirstOctet(ConfirmedRequestType, Flag(f.apduSeg), Flag(f.apduMor), Flag(f.apduSA), false);
    var resp :- MaxApduCode(f.apduMaxResp);
    var b1 :- Octet(Some(MaxSegmentsCode(f.apduMaxSegs) * 16 + resp));
    var body :- EncodeIdSeqWinService(f);
    Ok([b0, b1] + body)
  }

  /** Invoke ID, then sequence number and window when segmented, then service choice. */
  function EncodeIdSeqWinService(f: ApciFields): Result<seq<byte>>
  {
    var id :- Octet(f.apduInvokeID);
    var sw :- SeqWin(f);
    var svc :- Octet(f.apduService);
    Ok([id] + sw + [svc])
  }

  function EncodeUnconfirmedRequest(f: ApciFields): Result<seq<byte>>
  {
    var svc :- Octet(f.apduService);
    Ok([FirstOctet(UnconfirmedRequestType, false, false, false, false), svc])
  }

  /** Simple-ACK and Error share a layout: type, invoke ID, service choice. */
  function EncodeIdService(t: int, f: ApciFields): Result<seq<byte>>
    requires 0 <= t < 8
  {
    var id :- Octet(f.apduInvokeID);
    var svc :- Octet(f.apduService);
    Ok([FirstOctet(t, false, false, false, false), id, svc])
  }

  function EncodeComplexAck(f: ApciFields): Result<seq<byte>>
  {
    var b0 := FirstOctet(ComplexAckType, Flag(f.apduSeg), Flag(f.apduMor), false, false);
    var body :- EncodeIdSeqWinService(f);
    Ok([b0] + body)
  }

  function EncodeSegmentAck(f: ApciFields): Result<seq<byte>>
  {
    var b0 := FirstOctet(SegmentAckType, false, false, Flag(f.apduNak), Flag(f.apduSrv));
    var id :- Octet(f.apduInvokeID);
    var sq :- Octet(f.apduSeq);
    var w :- Octet(f.apduWin);
    Ok([b0, id, sq, w])
  }

  function EncodeReject(f: ApciFields): Result<seq<byte>>
  {
    var id :- Octet(f.apduInvokeID);
    var reason :- Octet(f.apduAbortRejectReason);
    Ok([FirstOctet(RejectType, false, false, false, false), id, reason])
  }

  function EncodeAbort(f: ApciFields): Result<seq<byte>>
  {
    var b0 := FirstOctet(AbortType, false, false, false, Flag(f.apduSrv));
    var id :- Octet(f.apduInvokeID);
    var reason :- Octet(f.apduAbortRejectReason);
    Ok([b0, id, reason])
  }

  /** `APCI.encode`: the class registered for apduType writes the header; an unset or
    * unregistered type has no class (`None.encode_pdu` is an AttributeError). */
  function EncodeFields(f: ApciFields): Result<seq<byte>>
  {
    if f.apduType.None? || !(0 <= f.apduType.value < 8) then Err(AttributeError)
    else
      var t := f.apduType.value;
      if t == ConfirmedRequestType then EncodeConfirmedRequest(f)
      else if t == UnconfirmedRequestType then EncodeUnconfirmedRequest(f)
      else if t == SimpleAckType || t == ErrorType then EncodeIdService(t, f)
      else if t == ComplexAckType then EncodeComplexAck(f)
      else if t == SegmentAckType then EncodeSegmentAck(f)
      else if t == RejectType then EncodeReject(f)
      else EncodeAbort(f)
  }

  // ---------------------------------------------------------------------------------
  // Decodings, as functions of the current fields and the octets after the first

  /** The optional sequence-number and window octets of a segmented PDU. */
  function DecodeSeqWin(f: ApciFields, s: seq<byte>): Result<(ApciFields, seq<byte>)>
  {
    if !Flag(f.apduSeg) then Ok((f, s))
    else if |s| < 2 then Err(DecodingError)
    else Ok((f.(apduSeq := Some(s[0]), apduWin := Some(s[1])), s[2..]))
  }

  function DecodeService(f: ApciFields, s: seq<byte>): Result<(ApciFields, seq<byte>)>
  {
    if |s| < 1 then Err(DecodingError) else Ok((f.(apduService := Some(s[0])), s[1..]))
  }

  /** Invoke ID, then sequence number and window when segmented, then service choice. */
  function DecodeIdSeqWinService(f: ApciFields, s: seq<byte>): Result<(ApciFields, seq<byte>)>
  {
    if |s| < 1 then Err(DecodingError)
    else
      var p :- DecodeSeqWin(f.(apduInvokeID := Some(s[0])), s[1..]);
      DecodeService(p.0, p.1)
  }

  function DecodeConfirmedRequest(f: ApciFields, b0: byte, s: seq<byte>): Result<(ApciFields, seq<byte>)>
  {
    var f1 := f.(apduSeg := Some(Bit(b0, 3)), apduMor := Some(Bit(b0, 2)), apduSA := Some(Bit(b0, 1)));
    if |s| < 1 then Err(DecodingError)
    else
      var resp :- DecodeMaxApduLengthAccepted(s[0] % 16);
      var f2 := f1.(apduMaxSegs := DecodeMaxSegmentsAccepted((s[0] / 16) % 8), apduMaxResp := Some(resp));
      DecodeIdSeqWinService(f2, s[1..])
  }

  function DecodeUnconfirmedRequest(f: ApciFields, s: seq<byte>): Result<(ApciFields, seq<byte>)>
  {
    DecodeService(f, s)
  }

  function DecodeIdService(f: ApciFields, s: seq<byte>): Result<(ApciFields, seq<byte>)>
  {
    if |s| < 1 then Err(DecodingError) else DecodeService(f.(apduInvokeID := Some(s[0])), s[1..])
  }

  function DecodeComplexAck(f: ApciFields, b0: byte, s: seq<byte>): Result<(ApciFields, seq<byte>)>
  {
    DecodeIdSeqWinService(f.(apduSeg := Some(Bit(b0, 3)), apduMor := Some(Bit(b0, 2))), s)
  }

  function DecodeSegmentAck(f: ApciFields, b0: byte, s: seq<byte>): Result<(ApciFields, seq<byte>)>
  {
    var f1 := f.(apduNak := Some(Bit(b0, 1)), apduSrv := Some(Bit(b0, 0)));
    if |s| < 3 then Err(DecodingError)
    else Ok((f1.(apduInvokeID := Some(s[0]), apduSeq := Some(s[1]), apduWin := Some(s[2])), s[3..]))
  }

  function DecodeReject(f: ApciFields, s: seq<byte>): Result<(ApciFields, seq<byte>)>
  {
    if |s| < 2 then Err(DecodingError)
    else Ok((f.(apduInvokeID := Some(s[0]), apduAbortRejectReason := Some(s[1])), s[2..]))
  }

  function DecodeAbort(f: ApciFields, b0: byte, s: seq<byte>): Result<(ApciFields, seq<byte>)>
  {
    var f1 := f.(apduSrv := Some(Bit(b0, 0)));
    if |s| < 2 then Err(DecodingError)
    else Ok((f1.(apduInvokeID := Some(s[0]), apduAbortRejectReason := Some(s[1])), s[2..]))
  }

  /** `APCI.decode`: the high nibble of the first octet is the type; the registered class
    * reads the rest of the header. Types 8..15 have no class (an AttributeError). */
  function DecodeFields(f: ApciFields, s: seq<byte>): Result<(ApciFields, seq<byte>)>
  {
    if |s| == 0 then Err(DecodingError)
    else
      var b0 := s[0];
      var t := b0 / 16;
      var g := f.(apduType := Some(t));
      if t == ConfirmedRequestType then DecodeConfirmedRequest(g, b0, s[1..])
      else if t == UnconfirmedRequestType then DecodeUnconfirmedRequest(g, s[1..])
      else if t == SimpleAckType || t == ErrorType then DecodeIdService(g, s[1..])
      else if t == ComplexAckType then DecodeComplexAck(g, b0, s[1..])
      else if t == SegmentAckType then DecodeSegmentAck(g, b0, s[1..])
      else if t == RejectType then DecodeReject(g, s[1..])
      else if t == AbortType then DecodeAbort(g, b0, s[1..])
      else Err(AttributeError)
  }

  /** The types whose decoder also points the APDU's payload at the remaining octets. */
  predicate SetsPayload(t: int)
  {
    t == ConfirmedRequestType || t == UnconfirmedRequestType || t == ComplexAckType ||
    t == ErrorType || t == AbortType
  }

  // ---------------------------------------------------------------------------------
  // Round trips

  /** The header octet's bit pattern as an integer. */
  function HeaderValue(t: int, b3: bool, b2: bool, b1: bool, b0: bool): int
  {
    t * 16 + (if b3 then 8 else 0) + (if b2 then 4 else 0) + (if b1 then 2 else 0) + (if b0 then 1 else 0)
  }

  lemma FirstOctetBits(t: int, b3: bool, b2: bool, b1: bool, b0: bool)
    requires 0 <= t < 8
    ensures var v := HeaderValue(t, b3, b2, b1, b0);
      0 <= v < 256 && v / 16 == t &&
      Bit(v as byte, 3) == b3 && Bit(v as byte, 2) == b2 && Bit(v as byte, 1) == b1 && Bit(v as byte, 0) == b0
  {
    var v := HeaderValue(t, b3, b2, b1, b0);
    assert Pow2(3) == 8 && Pow2(2) == 4 && Pow2(1) == 2 && Pow2(0) == 1;
    assert v / 8 == 2 * t + (if b3 then 1 else 0);
    assert v / 4 == 4 * t + (if b3 then 2 else 0) + (if b2 then 1 else 0);
    assert v / 2 == 8 * t + (if b3 then 4 else 0) + (if b2 then 2 else 0) + (if b1 then 1 else 0);
  }

  /** The first octet of every APDU header: the type in the high nibble and four flag
    * bits below it, each of which the decoders read back. */
  function FirstOctet(t: int, b3: bool, b2: bool, b1: bool, b0: bool): (v: byte)
    requires 0 <= t < 8
    ensures v / 16 == t
    ensures Bit(v, 3) == b3 && Bit(v, 2) == b2 && Bit(v, 1) == b1 && Bit(v, 0) == b0
  {
    FirstOctetBits(t, b3, b2, b1, b0);
    HeaderValue(t, b3, b2, b1, b0) as byte
  }

  /** The max-segments/max-response octet of a canonical Confirmed-Request reads back. */
  lemma {:induction false} SizesOctet(segs: Option<int>, maxResp: int)
    requires CanonicalMaxSegs(segs) && maxResp in {50, 128, 206, 480, 1024, 1476}
    ensures MaxApduCode(Some(maxResp)).Ok?
    ensures var v := MaxSegmentsCode(segs) * 16 + MaxApduCode(Some(maxResp)).value;
      0 <= v < 256 && DecodeMaxSegmentsAccepted((v / 16) % 8) == segs &&
      DecodeMaxApduLengthAccepted(v % 16) == Ok(maxResp)
  {
    MaxApduCodeReadBack(maxResp);
    MaxSegsCodeReadBack(segs);
    SizesOfCodes(MaxSegmentsCode(segs), MaxApduCode(Some(maxResp)).value, segs, maxResp);
  }

  /** The octet made of a max-segments code and a max-response code reads back as the
    * values the two codes stand for. */
  lemma SizesOfCodes(code: nat, resp: nat, segs: Option<int>, maxResp: int)
    requires code <= 7 && resp < 6
    requires DecodeMaxSegmentsAccepted(code) == segs && DecodeMaxApduLengthAccepted(resp) == Ok(maxResp)
    ensures var v := code * 16 + resp;
      0 <= v < 256 && DecodeMaxSegmentsAccepted((v / 16) % 8) == segs &&
      DecodeMaxApduLengthAccepted(v % 16) == Ok(maxResp)
  {
    SplitOctet(code, resp);
  }

  /** A canonical max-segments value has a 3-bit code that decodes back to it. */
  lemma MaxSegsCodeReadBack(segs: Option<int>)
    requires CanonicalMaxSegs(segs)
    ensures MaxSegmentsCode(segs) <= 7 && DecodeMaxSegmentsAccepted(MaxSegmentsCode(segs)) == segs
  {
    if segs.Some? {
      var k: nat :| 1 <= k <= 7 && segs.value == Pow2(k);
      MaxSegmentsRoundTrip(k);
      TrailingZerosOfPow2(k);
    }
  }

  /** A table value of the max-response field has a code below 6 that decodes back to it. */
  lemma MaxApduCodeReadBack(maxResp: int)
    requires maxResp in {50, 128, 206, 480, 1024, 1476}
    ensures MaxApduCode(Some(maxResp)).Ok? && MaxApduCode(Some(maxResp)).value < 6
    ensures DecodeMaxApduLengthAccepted(MaxApduCode(Some(maxResp)).value) == Ok(maxResp)
  {
    MaxApduRoundTrip(MaxApduCode(Some(maxResp)).value);
  }

  /** An octet made of a 3-bit code in the high nibble and a 4-bit code in the low one
    * splits back into the two codes. */
  lemma SplitOctet(hi: nat, lo: nat)
    requires hi < 8 && lo < 16
    ensures 0 <= hi * 16 + lo < 256 && ((hi * 16 + lo) / 16) % 8 == hi && (hi * 16 + lo) % 16 == lo
  {
  }

  lemma {:induction false} ConfirmedRequestRoundTrip(f: ApciFields, rest: seq<byte>)
    requires f.apduType == Some(ConfirmedRequestType) && Canonical(f)
    ensures EncodeFields(f).Ok?
    ensures DecodeFields(Unset, EncodeFields(f).value + rest) == Ok((f, rest))
  {
    var f2 := Unset.(apduType := Some(ConfirmedRequestType), apduSeg := f.apduSeg, apduMor := f.apduMor,
                     apduSA := f.apduSA, apduMaxSegs := f.apduMaxSegs, apduMaxResp := f.apduMaxResp);
    IdSeqWinServiceRoundTrip(f2, f, rest);
    var b0, b1 := ConfirmedRequestHeader(f);
    ConfirmedRequestDecoding(f, f2, b0, b1, EncodeIdSeqWinService(f).value, rest);
  }

  /** The two header octets a canonical Confirmed-Request is encoded with. */
  lemma ConfirmedRequestHeader(f: ApciFields) returns (b0: byte, b1: byte)
    requires f.apduType == Some(ConfirmedRequestType) && IsFlag(f.apduSeg) && IsFlag(f.apduMor) && IsFlag(f.apduSA)
    requires CanonicalMaxSegs(f.apduMaxSegs) && f.apduMaxResp.Some? && f.apduMaxResp.value in {50, 128, 206, 480, 1024, 1476}
    requires EncodeIdSeqWinService(f).Ok?
    ensures EncodeIdSeqWinService(f).Ok? && EncodeFields(f) == Ok([b0, b1] + EncodeIdSeqWinService(f).value)
    ensures b0 / 16 == ConfirmedRequestType && f.apduMaxResp.Some?
    ensures f.apduSeg == Some(Bit(b0, 3)) && f.apduMor == Some(Bit(b0, 2)) && f.apduSA == Some(Bit(b0, 1))
    ensures DecodeMaxSegmentsAccepted((b1 / 16) % 8) == f.apduMaxSegs
    ensures DecodeMaxApduLengthAccepted(b1 % 16) == Ok(f.apduMaxResp.value)
  {
    b0 := FirstOctet(ConfirmedRequestType, Flag(f.apduSeg), Flag(f.apduMor), Flag(f.apduSA), false);
    b1 := ConfirmedSizes(f);
    FlagValue(f.apduSeg);
    FlagValue(f.apduMor);
    FlagValue(f.apduSA);
    ConfirmedRequestOctets(f, b0, b1);
  }

  lemma FlagValue(x: Option<bool>)
    requires IsFlag(x)
    ensures x == Some(Flag(x))
  {
    if x.value {
      assert x == Some(true);
    } else {
      assert x == Some(false);
    }
  }

  /** With its two header octets computed, a Confirmed-Request encodes as those octets and
    * the rest of its fields. */
  lemma ConfirmedRequestOctets(f: ApciFields, b0: byte, b1: byte)
    requires f.apduType == Some(ConfirmedRequestType) && MaxApduCode(f.apduMaxResp).Ok?
    requires b0 == FirstOctet(ConfirmedRequestType, Flag(f.apduSeg), Flag(f.apduMor), Flag(f.apduSA), false)
    requires Octet(Some(MaxSegmentsCode(f.apduMaxSegs) * 16 + MaxApduCode(f.apduMaxResp).value)) == Ok(b1)
    requires EncodeIdSeqWinService(f).Ok?
    ensures EncodeFields(f) == Ok([b0, b1] + EncodeIdSeqWinService(f).value)
  {
    assert EncodeConfirmedRequest(f) == Ok([b0, b1] + EncodeIdSeqWinService(f).value);
    EncodeConfirmedRequestFields(f);
  }

  /** The second header octet of a canonical Confirmed-Request, as the encoder writes it. */
  lemma ConfirmedSizes(f: ApciFields) returns (b1: byte)
    requires CanonicalMaxSegs(f.apduMaxSegs) && f.apduMaxResp.Some? && f.apduMaxResp.value in {50, 128, 206, 480, 1024, 1476}
    ensures MaxApduCode(f.apduMaxResp).Ok?
    ensures Octet(Some(MaxSegmentsCode(f.apduMaxSegs) * 16 + MaxApduCode(f.apduMaxResp).value)) == Ok(b1)
    ensures DecodeMaxSegmentsAccepted((b1 / 16) % 8) == f.apduMaxSegs
    ensures DecodeMaxApduLengthAccepted(b1 % 16) == Ok(f.apduMaxResp.value)
  {
    SizesOctet(f.apduMaxSegs, f.apduMaxResp.value);
    var v := MaxSegmentsCode(f.apduMaxSegs) * 16 + MaxApduCode(f.apduMaxResp).value;
    b1 := v as byte;
  }

  lemma EncodeConfirmedRequestFields(f: ApciFields)
    requires f.apduType == Some(ConfirmedRequestType)
    ensures EncodeFields(f) == EncodeConfirmedRequest(f)
  {
  }

  /** The header octets of a Confirmed-Request read back into the fields they came from. */
  lemma ConfirmedRequestDecoding(f: ApciFields, f2: ApciFields, b0: byte, b1: byte, body: seq<byte>, rest: seq<byte>)
    requires b0 / 16 == ConfirmedRequestType && f.apduMaxResp.Some?
    requires f.apduSeg == Some(Bit(b0, 3)) && f.apduMor == Some(Bit(b0, 2)) && f.apduSA == Some(Bit(b0, 1))
    requires DecodeMaxSegmentsAccepted((b1 / 16) % 8) == f.apduMaxSegs
    requires DecodeMaxApduLengthAccepted(b1 % 16) == Ok(f.apduMaxResp.value)
    requires f2 == Unset.(apduType := Some(ConfirmedRequestType), apduSeg := f.apduSeg, apduMor := f.apduMor,
                          apduSA := f.apduSA, apduMaxSegs := f.apduMaxSegs, apduMaxResp := f.apduMaxResp)
    requires DecodeIdSeqWinService(f2, body + rest) == Ok((f, rest))
    ensures DecodeFields(Unset, [b0, b1] + body + rest) == Ok((f, rest))
  {
    var s := [b0, b1] + body + rest;
    assert s[0] == b0 && s[1..][0] == b1 && s[1..][1..] == body + rest;
    DecodeConfirmedRequestFields(s);
  }

  lemma DecodeConfirmedRequestFields(s: seq<byte>)
    requires |s| > 0 && s[0] / 16 == ConfirmedRequestType
    ensures DecodeFields(Unset, s) == DecodeConfirmedRequest(Unset.(apduType := Some(ConfirmedRequestType)), s[0], s[1..])
  {
  }

  /** The invoke ID, sequence number and window when segmented, and service choice that
    * Confirmed-Request and Complex-ACK share read back into the fields they came from. */
  lemma {:induction false} IdSeqWinServiceRoundTrip(g: ApciFields, f: ApciFields, rest: seq<byte>)
    requires IsOctet(f.apduInvokeID) && IsOctet(f.apduService) && g.apduSeg == f.apduSeg
    requires g.apduSeq.None? && g.apduWin.None?
    requires if Flag(f.apduSeg) then IsOctet(f.apduSeq) && IsOctet(f.apduWin) else f.apduSeq.None? && f.apduWin.None?
    requires f == g.(apduInvokeID := f.apduInvokeID, apduSeq := f.apduSeq, apduWin := f.apduWin, apduService := f.apduService)
    ensures EncodeIdSeqWinService(f).Ok?
    ensures DecodeIdSeqWinService(g, EncodeIdSeqWinService(f).value + rest) == Ok((f, rest))
  {
    var id := f.apduInvokeID.value as byte;
    var svc := f.apduService.value as byte;
    var g1 := g.(apduInvokeID := f.apduInvokeID);
    if Flag(f.apduSeg) {
      var s := [id, f.apduSeq.value as byte, f.apduWin.value as byte, svc] + rest;
      assert EncodeIdSeqWinService(f).value + rest == s;
      assert s[1..] == [f.apduSeq.value as byte, f.apduWin.value as byte] + ([svc] + rest);
      assert DecodeSeqWin(g1, s[1..]) == Ok((g1.(apduSeq := f.apduSeq, apduWin := f.apduWin), [svc] + rest));
    } else {
      var s := [id, svc] + rest;
      assert EncodeIdSeqWinService(f).value + rest == s;
      assert s[1..] == [svc] + rest;
      assert DecodeSeqWin(g1, s[1..]) == Ok((g1, [svc] + rest));
    }
  }

  lemma {:induction false} ComplexAckRoundTrip(f: ApciFields, rest: seq<byte>)
    requires f.apduType == Some(ComplexAckType) && Canonical(f)
    ensures EncodeFields(f).Ok?
    ensures DecodeFields(Unset, EncodeFields(f).value + rest) == Ok((f, rest))
  {
    var b0 := FirstOctet(ComplexAckType, Flag(f.apduSeg), Flag(f.apduMor), false, false);
    var g := Unset.(apduType := Some(ComplexAckType), apduSeg := f.apduSeg, apduMor := f.apduMor);
    IdSeqWinServiceRoundTrip(g, f, rest);
    var body := EncodeIdSeqWinService(f).value;
    assert EncodeFields(f) == Ok([b0] + body);
    var s := [b0] + body + rest;
    assert s[0] == b0 && s[1..] == body + rest;
    assert f.apduSeg.value == Bit(b0, 3) && f.apduMor.value == Bit(b0, 2);
    assert DecodeFields(Unset, s) == DecodeIdSeqWinService(g, s[1..]);
  }

  lemma {:induction false} SegmentAckRoundTrip(f: ApciFields, rest: seq<byte>)
    requires f.apduType == Some(SegmentAckType) && Canonical(f)
    ensures EncodeFields(f).Ok?
    ensures DecodeFields(Unset, EncodeFields(f).value + rest) == Ok((f, rest))
  {
    var b0 := FirstOctet(SegmentAckType, false, false, Flag(f.apduNak), Flag(f.apduSrv));
    var e := [b0, f.apduInvokeID.value as byte, f.apduSeq.value as byte, f.apduWin.value as byte];
    assert EncodeFields(f) == Ok(e);
    var s := e + rest;
    assert s[0] == b0 && s[1..][3..] == rest;
    assert f.apduNak.value == Bit(b0, 1) && f.apduSrv.value == Bit(b0, 0);
    assert f.apduNak == Some(Bit(b0, 1)) && f.apduSrv == Some(Bit(b0, 0));
    var g := Unset.(apduType := Some(SegmentAckType));
    assert DecodeFields(Unset, s) == DecodeSegmentAck(g, b0, s[1..]);
  }

  lemma {:induction false} AbortRoundTrip(f: ApciFields, rest: seq<byte>)
    requires f.apduType == Some(AbortType) && Canonical(f)
    ensures EncodeFields(f).Ok?
    ensures DecodeFields(Unset, EncodeFields(f).value + rest) == Ok((f, rest))
  {
    var b0 := FirstOctet(AbortType, false, false, false, Flag(f.apduSrv));
    var e := [b0, f.apduInvokeID.value as byte, f.apduAbortRejectReason.value as byte];
    assert EncodeFields(f) == Ok(e);
    var s := e + rest;
    assert s[0] == b0 && s[1..][2..] == rest;
    assert f.apduSrv.value == Bit(b0, 0);
    var g := Unset.(apduType := Some(AbortType));
    assert DecodeFields(Unset, s) == DecodeAbort(g, b0, s[1..]);
  }

  /** Decoding what a canonical APCI encodes to, into a fresh APCI, gives back the same
    * fields and leaves the following octets untouched. */
  lemma {:induction false} ApciRoundTrip(f: ApciFields, rest: seq<byte>)
    requires Canonical(f)
    ensures EncodeFields(f).Ok?
    ensures DecodeFields(Unset, EncodeFields(f).value + rest) == Ok((f, rest))
  {
    var t := f.apduType.value;
    if t == ConfirmedRequestType {
      ConfirmedRequestRoundTrip(f, rest);
    } else if t == ComplexAckType {
      ComplexAckRoundTrip(f, rest);
    } else if t == SegmentAckType {
      SegmentAckRoundTrip(f, rest);
    } else if t == AbortType {
      AbortRoundTrip(f, rest);
    }
  }

  /** Whatever decodes into a fresh APCI decodes to canonical fields, so it re-encodes to
    * a header that decodes to the same fields again. */
  lemma {:induction false} DecodeIsCanonical(s: seq<byte>)
    requires DecodeFields(Unset, s).Ok?
    ensures Canonical(DecodeFields(Unset, s).value.0)
  {
    var f := DecodeFields(Unset, s).value.0;
    var t := s[0] / 16;
    if t == ConfirmedRequestType {
      var b1 := s[1];
      var k := (b1 / 16) % 8;
      if k != 0 {
        assert f.apduMaxSegs == Some(Pow2(k));
      }
      assert DecodeMaxApduLengthAccepted(b1 % 16).Ok?;
    }
  }

  // ---------------------------------------------------------------------------------
  // The encoders and decoders on a PDUData

  /** The fields and remaining octets are those of `spec`, or the call failed as `spec` did. */
  ghost predicate Read(spec: Result<(ApciFields, seq<byte>)>, r: Result<()>, f: ApciFields, rest: seq<byte>)
  {
    if spec.Ok? then r.Ok? && f == spec.value.0 && rest == spec.value.1 else r == Err(spec.error)
  }

  method PutSeqWin(apci: APCI, pdu: PDUData) returns (r: Result<()>)
    modifies pdu
    ensures Wrote(SeqWin(apci.Fields()), r, old(pdu.data), pdu.data)
  {
    if !Flag(apci.apduSeg) {
      return Ok(());
    }
    r := PutField(pdu, apci.apduSeq);
    if r.Err? { return; }
    r := PutField(pdu, apci.apduWin);
  }

  /** `ConfirmedRequestPDU.encode_pdu`. */
  method EncodeConfirmedRequestPdu(apci: APCI, pdu: PDUData) returns (r: Result<()>)
    modifies pdu
    ensures Wrote(EncodeConfirmedRequest(apci.Fields()), r, old(pdu.data), pdu.data)
  {
    ghost var f := apci.Fields();
    var b0 := FirstOctet(ConfirmedRequestType, Flag(apci.apduSeg), Flag(apci.apduMor), Flag(apci.apduSA), false);
    r := pdu.Put(b0);
    var segs := EncodeMaxSegmentsAccepted(apci.apduMaxSegs);
    var resp := EncodeMaxApduLengthAccepted(apci.apduMaxResp);
    if resp.Err? {
      assert EncodeConfirmedRequest(f) == Err(resp.error);
      return Err(resp.error);
    }
    r := pdu.Put(segs * 16 + resp.value);
    if r.Err? {
      assert EncodeConfirmedRequest(f) == Err(ValueError);
      return;
    }
    ghost var b1 := (segs * 16 + resp.value) as byte;
    assert pdu.data == old(pdu.data) + [b0, b1];
    assert EncodeConfirmedRequest(f) ==
      if EncodeIdSeqWinService(f).Ok? then Ok([b0, b1] + EncodeIdSeqWinService(f).value)
      else Err(EncodeIdSeqWinService(f).error);
    r := PutIdSeqWinService(apci, pdu);
  }

  method PutIdSeqWinService(apci: APCI, pdu: PDUData) returns (r: Result<()>)
    modifies pdu
    ensures Wrote(EncodeIdSeqWinService(apci.Fields()), r, old(pdu.data), pdu.data)
  {
    r := PutField(pdu, apci.apduInvokeID);
    if r.Err? { return; }
    r := PutSeqWin(apci, pdu);
    if r.Err? { return; }
    r := PutField(pdu, apci.apduService);
  }

  /** `UnconfirmedRequestPDU.encode_pdu`. */
  method EncodeUnconfirmedRequestPdu(apci: APCI, pdu: PDUData) returns (r: Result<()>)
    modifies pdu
    ensures Wrote(EncodeUnconfirmedRequest(apci.Fields()), r, old(pdu.data), pdu.data)
  {
    r := pdu.Put(FirstOctet(UnconfirmedRequestType, false, false, false, false));
    r := PutField(pdu, apci.apduService);
  }

  /** `SimpleAckPDU.encode_pdu` and `ErrorPDU.encode_pdu`. */
  method EncodeIdServicePdu(t: int, apci: APCI, pdu: PDUData) returns (r: Result<()>)
    requires t == SimpleAckType || t == ErrorType
    modifies pdu
    ensures Wrote(EncodeIdService(t, apci.Fields()), r, old(pdu.data), pdu.data)
  {
    r := pdu.Put(FirstOctet(t, false, false, false, false));
    r := PutField(pdu, apci.apduInvokeID);
    if r.Err? { return; }
    r := PutField(pdu, apci.apduService);
  }

  /** `ComplexAckPDU.encode_pdu`. */
  method EncodeComplexAckPdu(apci: APCI, pdu: PDUData) returns (r: Result<()>)
    modifies pdu
    ensures Wrote(EncodeComplexAck(apci.Fields()), r, old(pdu.data), pdu.data)
  {
    var b0 := FirstOctet(ComplexAckType, Flag(apci.apduSeg), Flag(apci.apduMor), false, false);
    r := pdu.Put(b0);
    r := PutIdSeqWinService(apci, pdu);
  }

  /** `SegmentAckPDU.encode_pdu`. */
  method EncodeSegmentAckPdu(apci: APCI, pdu: PDUData) returns (r: Result<()>)
    modifies pdu
    ensures Wrote(EncodeSegmentAck(apci.Fields()), r, old(pdu.data), pdu.data)
  {
    var b0 := FirstOctet(SegmentAckType, false, false, Flag(apci.apduNak), Flag(apci.apduSrv));
    r := pdu.Put(b0);
    r := PutField(pdu, apci.apduInvokeID);
    if r.Err? { return; }
    r := PutField(pdu, apci.apduSeq);
    if r.Err? { return; }
    r := PutField(pdu, apci.apduWin);
  }

  /** `RejectPDU.encode_pdu`. */
  method EncodeRejectPdu(apci: APCI, pdu: PDUData) returns (r: Result<()>)
    modifies pdu
    ensures Wrote(EncodeReject(apci.Fields()), r, old(pdu.data), pdu.data)
  {
    r := pdu.Put(FirstOctet(RejectType, false, false, false, false));
    r := PutField(pdu, apci.apduInvokeID);
    if r.Err? { return; }
    r := PutField(pdu, apci.apduAbortRejectReason);
  }

  /** `AbortPDU.encode_pdu`. */
  method EncodeAbortPdu(apci: APCI, pdu: PDUData) returns (r: Result<()>)
    modifies pdu
    ensures Wrote(EncodeAbort(apci.Fields()), r, old(pdu.data), pdu.data)
  {
    r := pdu.Put(FirstOctet(AbortType, false, false, false, Flag(apci.apduSrv)));
    r := PutField(pdu, apci.apduInvokeID);
    if r.Err? { return; }
    r := PutField(pdu, apci.apduAbortRejectReason);
  }

  /** `APCI.encode`: dispatch on apduType to the registered class. */
  method Encode(apci: APCI, pdu: PDUData) returns (r: Result<()>)
    modifies pdu
    ensures Wrote(EncodeFields(apci.Fields()), r, old(pdu.data), pdu.data)
  {
    if apci.apduType.None? || !(0 <= apci.apduType.value < 8) {
      return Err(AttributeError);
    }
    var t := apci.apduType.value;
    if t == ConfirmedRequestType {
      r := EncodeConfirmedRequestPdu(apci, pdu);
    } else if t == UnconfirmedRequestType {
      r := EncodeUnconfirmedRequestPdu(apci, pdu);
    } else if t == SimpleAckType || t == ErrorType {
      r := EncodeIdServicePdu(t, apci, pdu);
    } else if t == ComplexAckType {
      r := EncodeComplexAckPdu(apci, pdu);
    } else if t == SegmentAckType {
      r := EncodeSegmentAckPdu(apci, pdu);
    } else if t == RejectType {
      r := EncodeRejectPdu(apci, pdu);
    } else {
      r := EncodeAbortPdu(apci, pdu);
    }
  }

  /** Take one octet into an APCI field. */
  method GetInto(pdu: PDUData) returns (r: Result<Option<int>>)
    modifies pdu
    ensures |old(pdu.data)| == 0 ==> r == Err(DecodingError)
    ensures |old(pdu.data)| > 0 ==> r == Ok(Some(old(pdu.data)[0] as int)) && pdu.data == old(pdu.data)[1..]
  {
    var b := pdu.Get();
    if b.Err? {
      return Err(b.error);
    }
    r := Ok(Some(b.value as int));
  }

  method DecodeSeqWinPdu(apci: APCI, pdu: PDUData) returns (r: Result<()>)
    modifies apci, pdu
    ensures apci.pduData == old(apci.pduData)
    ensures Read(DecodeSeqWin(old(apci.Fields()), old(pdu.data)), r, apci.Fields(), pdu.data)
  {
    if !Flag(apci.apduSeg) {
      return Ok(());
    }
    var sq := GetInto(pdu);
    if sq.Err? { return Err(sq.error); }
    apci.apduSeq := sq.value;
    var w := GetInto(pdu);
    if w.Err? { return Err(w.error); }
    apci.apduWin := w.value;
    r := Ok(());
  }

  method DecodeServicePdu(apci: APCI, pdu: PDUData) returns (r: Result<()>)
    modifies apci, pdu
    ensures apci.pduData == old(apci.pduData)
    ensures Read(DecodeService(old(apci.Fields()), old(pdu.data)), r, apci.Fields(), pdu.data)
  {
    var svc := GetInto(pdu);
    if svc.Err? { return Err(svc.error); }
    apci.apduService := svc.value;
    r := Ok(());
  }

  method DecodeIdSeqWinServicePdu(apci: APCI, pdu: PDUData) returns (r: Result<()>)
    modifies apci, pdu
    ensures apci.pduData == old(apci.pduData)
    ensures Read(DecodeIdSeqWinService(old(apci.Fields()), old(pdu.data)), r, apci.Fields(), pdu.data)
  {
    var id := GetInto(pdu);
    if id.Err? { return Err(id.error); }
    apci.apduInvokeID := id.value;
    r := DecodeSeqWinPdu(apci, pdu);
    if r.Err? { return; }
    r := DecodeServicePdu(apci, pdu);
  }

  /** `ConfirmedRequestPDU.decode_pdu`: flags from the first octet, then max-segments and
    * max-response, invoke ID, sequence number and window when segmented, service choice;
    * the payload is what remains. */
  method DecodeConfirmedRequestPdu(apci: APCI, pdu: PDUData, b0: byte) returns (r: Result<()>)
    modifies apci, pdu
    ensures Read(DecodeConfirmedRequest(old(apci.Fields()), b0, old(pdu.data)), r, apci.Fields(), pdu.data)
    ensures r.Ok? ==> apci.pduData == pdu.data
  {
    ghost var f0, d0 := apci.Fields(), pdu.data;
    apci.apduSeg, apci.apduMor, apci.apduSA := Some(Bit(b0, 3)), Some(Bit(b0, 2)), Some(Bit(b0, 1));
    ghost var f1 := apci.Fields();
    assert f1 == f0.(apduSeg := Some(Bit(b0, 3)), apduMor := Some(Bit(b0, 2)), apduSA := Some(Bit(b0, 1)));
    var b1 := pdu.Get();
    if b1.Err? { return Err(b1.error); }
    apci.apduMaxSegs := DecodeMaxSegmentsAccepted((b1.value / 16) % 8);
    var resp := DecodeMaxApduLengthAccepted(b1.value % 16);
    if resp.Err? { return Err(resp.error); }
    apci.apduMaxResp := Some(resp.value);
    assert apci.Fields() == f1.(apduMaxSegs := DecodeMaxSegmentsAccepted((d0[0] / 16) % 8), apduMaxResp := Some(resp.value));
    assert DecodeConfirmedRequest(f0, b0, d0) == DecodeIdSeqWinService(apci.Fields(), d0[1..]);
    r := DecodeIdSeqWinServicePdu(apci, pdu);
    if r.Err? { return; }
    apci.pduData := pdu.data;
  }

  /** `UnconfirmedRequestPDU.decode_pdu`. */
  method DecodeUnconfirmedRequestPdu(apci: APCI, pdu: PDUData) returns (r: Result<()>)
    modifies apci, pdu
    ensures Read(DecodeUnconfirmedRequest(old(apci.Fields()), old(pdu.data)), r, apci.Fields(), pdu.data)
    ensures r.Ok? ==> apci.pduData == pdu.data
  {
    r := DecodeServicePdu(apci, pdu);
    if r.Err? { return; }
    apci.pduData := pdu.data;
  }

  /** `SimpleAckPDU.decode_pdu` and `ErrorPDU.decode_pdu`; only Error points the payload
    * at the remaining octets. */
  method DecodeIdServicePdu(apci: APCI, pdu: PDUData, setPayload: bool) returns (r: Result<()>)
    modifies apci, pdu
    ensures Read(DecodeIdService(old(apci.Fields()), old(pdu.data)), r, apci.Fields(), pdu.data)
    ensures r.Ok? ==> apci.pduData == if setPayload then pdu.data else old(apci.pduData)
  {
    var id := GetInto(pdu);
    if id.Err? { return Err(id.error); }
    apci.apduInvokeID := id.value;
    r := DecodeServicePdu(apci, pdu);
    if r.Err? { return; }
    if setPayload {
      apci.pduData := pdu.data;
    }
  }

  /** `ComplexAckPDU.decode_pdu`. */
  method DecodeComplexAckPdu(apci: APCI, pdu: PDUData, b0: byte) returns (r: Result<()>)
    modifies apci, pdu
    ensures Read(DecodeComplexAck(old(apci.Fields()), b0, old(pdu.data)), r, apci.Fields(), pdu.data)
    ensures r.Ok? ==> apci.pduData == pdu.data
  {
    apci.apduSeg, apci.apduMor := Some(Bit(b0, 3)), Some(Bit(b0, 2));
    r := DecodeIdSeqWinServicePdu(apci, pdu);
    if r.Err? { return; }
    apci.pduData := pdu.data;
  }

  /** `SegmentAckPDU.decode_pdu`. */
  method DecodeSegmentAckPdu(apci: APCI, pdu: PDUData, b0: byte) returns (r: Result<()>)
    modifies apci, pdu
    ensures Read(DecodeSegmentAck(old(apci.Fields()), b0, old(pdu.data)), r, apci.Fields(), pdu.data)
    ensures apci.pduData == old(apci.pduData)
  {
    ghost var f0, d0 := apci.Fields(), pdu.data;
    apci.apduNak, apci.apduSrv := Some(Bit(b0, 1)), Some(Bit(b0, 0));
    var id := GetInto(pdu);
    if id.Err? { return Err(id.error); }
    apci.apduInvokeID := id.value;
    var sq := GetInto(pdu);
    if sq.Err? { return Err(sq.error); }
    apci.apduSeq := sq.value;
    assert d0[1..][1..] == d0[2..];
    var w := GetInto(pdu);
    if w.Err? { return Err(w.error); }
    apci.apduWin := w.value;
    assert d0[2..][1..] == d0[3..];
    assert apci.Fields() == f0.(apduNak := Some(Bit(b0, 1)), apduSrv := Some(Bit(b0, 0)),
      apduInvokeID := Some(d0[0]), apduSeq := Some(d0[1]), apduWin := Some(d0[2]));
    r := Ok(());
  }

  /** `RejectPDU.decode_pdu` and `AbortPDU.decode_pdu` (Abort also reads the server bit and
    * points the payload at the remaining octets). */
  method DecodeRejectAbortPdu(apci: APCI, pdu: PDUData, b0: byte, abort: bool) returns (r: Result<()>)
    modifies apci, pdu
    ensures Read(if abort then DecodeAbort(old(apci.Fields()), b0, old(pdu.data))
                 else DecodeReject(old(apci.Fields()), old(pdu.data)), r, apci.Fields(), pdu.data)
    ensures r.Ok? ==> apci.pduData == if abort then pdu.data else old(apci.pduData)
  {
    if abort {
      apci.apduSrv := Some(Bit(b0, 0));
    }
    var id := GetInto(pdu);
    if id.Err? { return Err(id.error); }
    apci.apduInvokeID := id.value;
    var reason := GetInto(pdu);
    if reason.Err? { return Err(reason.error); }
    apci.apduAbortRejectReason := reason.value;
    if abort {
      apci.pduData := pdu.data;
    }
    r := Ok(());
  }

  /** `APCI.decode`: the type from the high nibble of the first octet, then the registered
    * class's decoder. */
  method Decode(apci: APCI, pdu: PDUData) returns (r: Result<()>)
    modifies apci, pdu
    ensures Read(DecodeFields(old(apci.Fields()), old(pdu.data)), r, apci.Fields(), pdu.data)
    ensures r.Ok? ==> apci.pduData == if SetsPayload(apci.apduType.value) then pdu.data else old(apci.pduData)
  {
    var b := pdu.Get();
    if b.Err? { return Err(b.error); }
    var b0 := b.value;
    var t := b0 / 16;
    apci.apduType := Some(t);
    if t == ConfirmedRequestType {
      r := DecodeConfirmedRequestPdu(apci, pdu, b0);
    } else if t == UnconfirmedRequestType {
      r := DecodeUnconfirmedRequestPdu(apci, pdu);
    } else if t == SimpleAckType || t == ErrorType {
      r := DecodeIdServicePdu(apci, pdu, t == ErrorType);
    } else if t == ComplexAckType {
      r := DecodeComplexAckPdu(apci, pdu, b0);
    } else if t == SegmentAckType {
      r := DecodeSegmentAckPdu(apci, pdu, b0);
    } else if t == RejectType || t == AbortType {
      r := DecodeRejectAbortPdu(apci, pdu, b0, t == AbortType);
    } else {
      r := Err(AttributeError);
    }
  }

  /** `APDU.encode`: the header, then the payload. */
  method EncodeApdu(apdu: APCI, pdu: PDUData) returns (r: Result<()>)
    modifies pdu
    ensures Wrote(var h :- EncodeFields(apdu.Fields()); Ok(h + apdu.pduData), r, old(pdu.data), pdu.data)
  {
    r := Encode(apdu, pdu);
    if r.Err? { return; }
    pdu.PutData(apdu.pduData);
  }

  /** `APDU.decode`: the header, then every remaining octet is the payload. */
  method DecodeApdu(apdu: APCI, pdu: PDUData) returns (r: Result<()>)
    modifies apdu, pdu
    ensures Read(DecodeFields(old(apdu.Fields()), old(pdu.data)), r, apdu.Fields(), apdu.pduData)
    ensures r.Ok? ==> pdu.data == []
  {
    r := Decode(apdu, pdu);
    if r.Err? { return; }
    var rest := pdu.GetData(|pdu.data|);
    apdu.pduData := rest.value;
  }
}
