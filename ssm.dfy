/** The segmentation state machine shared by client and server transactions
  * (`bacpypes/app/ssm.py`, ASHRAE 135 clause 5.4): the transaction states, the segmentation
  * context, cutting a request or a complex ack into segments, the window arithmetic on
  * 8-bit sequence numbers, and filling a window. */
module Ssm {
  import opened Wrappers
  import opened Bytes
  import opened Addresses
  import opened Apci
  import opened DeviceInfos
  import Apdu

  /** The eight transaction states, in the order of `transactionLabels`. */
  datatype State =
    | Idle | SegmentedRequest | AwaitConfirmation | AwaitResponse
    | SegmentedResponse | SegmentedConfirmation | Completed | Aborted

  predicate Terminal(s: State) { s == Completed || s == Aborted }

  /** The values of the state machine access point a transaction reads
    * (`bacpypes/app/state_machine_ap.py:30-49`). */
  datatype Settings = Settings(
    retryCount: nat,
    retryTimeout: nat,
    maxApduLengthAccepted: nat,
    segmentationSupported: Segmentation,
    segmentTimeout: nat,
    maxSegmentsAccepted: nat,
    applicationTimeout: nat)

  /** The access point's defaults when there is no local device object. */
  const DefaultSettings := Settings(3, 3000, 1024, NoSegmentation, 1500, 8, 3000)

  /** An APDU as a transaction handles it: its APCI, its octets, and its source and
    * destination. */
  datatype Pdu = Pdu(apci: ApciFields, pduData: seq<byte>, pduSource: Option<Address>, pduDestination: Option<Address>)

  predicate IsType(p: Pdu, t: int) { p.apci.apduType == Some(t) }

  /** Python's truth value of an optional flag. */
  predicate Flag(b: Option<bool>) { b == Some(true) }

  function Min(a: int, b: int): int { if a <= b then a else b }

  /** `AbortPDU(srv, invokeID, reason)`. */
  function AbortPdu(srv: bool, invokeID: Option<int>, reason: int): Pdu
  {
    Pdu(Unset.(apduType := Some(Apdu.AbortType), apduSrv := Some(srv), apduInvokeID := invokeID,
               apduAbortRejectReason := Some(reason)), [], None, None)
  }

  /** `SegmentAckPDU(nak, srv, invokeID, sequenceNumber, windowSize)`. */
  function SegmentAckPdu(nak: bool, srv: bool, invokeID: Option<int>, sequenceNumber: Option<int>, windowSize: Option<int>): Pdu
  {
    Pdu(Unset.(apduType := Some(Apdu.SegmentAckType), apduNak := Some(nak), apduSrv := Some(srv),
               apduInvokeID := invokeID, apduSeq := sequenceNumber, apduWin := windowSize), [], None, None)
  }

  /** The timer `set_state(..., timer)` leaves: none for a zero delay. */
  function Timer(msecs: nat): Option<nat> { if msecs > 0 then Some(msecs) else None }

  /** An APDU on its way to the peer has no source and the peer as destination. */
  function ToPeer(apdu: Pdu, peer: Option<Address>): Pdu
  {
    apdu.(pduSource := None, pduDestination := peer)
  }

  /** An APDU on its way to the application comes from the peer. */
  function ToApp(apdu: Pdu, peer: Option<Address>): Pdu
  {
    apdu.(pduSource := peer, pduDestination := None)
  }

  function Sent(f: Fields, peer: Option<Address>, apdu: Pdu): Fields
  {
    f.(sentDown := f.sentDown + [ToPeer(apdu, peer)])
  }

  function Delivered(f: Fields, peer: Option<Address>, apdu: Pdu): Fields
  {
    f.(sentUp := f.sentUp + [ToApp(apdu, peer)])
  }

  /** `set_state(s, msecs)` from a state that is not final. */
  function Moved(f: Fields, s: State, msecs: nat): Fields
  {
    f.(state := s, timer := Timer(msecs))
  }

  /** `min(a, b)` on fields that may be unset: comparing with `None` is a TypeError. */
  function OptMin(a: Option<int>, b: Option<int>): (r: Result<int>)
    ensures r.Err? <==> a.None? || b.None?
    ensures r.Ok? ==> r.value <= a.value && r.value <= b.value && (r.value == a.value || r.value == b.value)
  {
    if a.None? || b.None? then Err(TypeError) else Ok(Min(a.value, b.value))
  }

  /** A set 8-bit sequence number. */
  predicate SeqNumber(n: Option<int>) { n.Some? && 0 <= n.value < 256 }

  /** The octets `data[from:from + size]` of a Python slice, clamped to the data. */
  function Slice(data: seq<byte>, from: nat, size: nat): seq<byte>
  {
    var lo := Min(from, |data|);
    var hi := Min(from + size, |data|);
    data[lo..hi]
  }

  /** The number of segments of `len` octets cut into pieces of `size`: at least one, and
    * the smallest count that holds them; an empty size with data to cut is a division by
    * zero (`bacpypes/app/client_ssm.py:70-77`, `bacpypes/app/server_ssm.py:100-107`). */
  function SegmentCount(len: nat, size: nat): (r: Result<nat>)
    ensures r.Err? <==> len > 0 && size == 0
    ensures r.Err? ==> r.error == ZeroDivisionError
    ensures r.Ok? ==> r.value >= 1
    ensures r.Ok? && len == 0 ==> r.value == 1
    ensures r.Ok? && len > 0 ==> (r.value - 1) * size < len <= r.value * size
  {
    if len == 0 then Ok(1)
    else if size == 0 then Err(ZeroDivisionError)
    else
      var q := len / size;
      var n := if len % size != 0 then q + 1 else q;
      assert len == q * size + len % size;
      assert (n - 1) * size == n * size - size;
      Ok(n)
  }

  /** What `get_segment` reads: the context APDU and the counts, the transaction's own
    * values, the remote device and the access point's settings. */
  datatype Context = Context(
    segmentAPDU: Option<Pdu>,
    segmentCount: Option<int>,
    segmentSize: Option<nat>,
    invokeID: Option<int>,
    maxSegmentsAccepted: Option<int>,
    proposedWindowSize: Option<int>,
    remoteDevice: Option<DeviceInfo>,
    sap: Settings)

  /** The APCI of a segment before its segmentation flags: a confirmed request carries this
    * transaction's limits and invoke ID, a complex ack the context's service and invoke ID;
    * any other context type is a RuntimeError. */
  function SegmentHeader(c: Context): Result<ApciFields>
    requires c.segmentAPDU.Some?
  {
    var ctx := c.segmentAPDU.value;
    if IsType(ctx, Apdu.ConfirmedRequestType) then
      Ok(Unset.(apduType := Some(Apdu.ConfirmedRequestType), apduService := ctx.apci.apduService,
                apduMaxSegs := c.maxSegmentsAccepted, apduMaxResp := Some(c.sap.maxApduLengthAccepted),
                apduInvokeID := c.invokeID, apduSA := Some(ReceivesSegments(c.sap.segmentationSupported))))
    else if IsType(ctx, Apdu.ComplexAckType) then
      Ok(Unset.(apduType := Some(Apdu.ComplexAckType), apduService := ctx.apci.apduService,
                apduInvokeID := ctx.apci.apduInvokeID))
    else Err(RuntimeError)
  }

  /** `get_segment(indx)`. */
  function GetSegment(c: Context, indx: nat): Result<Pdu>
  {
    if c.segmentAPDU.None? then Err(RuntimeError)
    else if c.segmentCount.None? then Err(TypeError)
    else if indx >= c.segmentCount.value then Err(RuntimeError)
    else
      var head :- SegmentHeader(c);
      if c.remoteDevice.None? then Err(AttributeError)
      else
        var count := c.segmentCount.value;
        var apci :=
          if count != 1 then
            head.(apduSeg := Some(true), apduMor := Some(indx < count - 1), apduSeq := Some(indx % 256),
                  apduWin := c.proposedWindowSize)
          else head.(apduSeg := Some(false), apduMor := Some(false));
        if c.segmentSize.None? then Err(TypeError)
        else
          var size := c.segmentSize.value;
          Ok(Pdu(apci, Slice(c.segmentAPDU.value.pduData, indx * size, size), None, Some(c.remoteDevice.value.address)))
  }

  /** What `get_segment` promises: no segment without a context or past the last one; a
    * segment keeps the context's type and service and goes to the remote device; a
    * segmented message numbers its segments modulo 256 and marks all but the last with
    * more following; and each carries its own slice of the context's octets. */
  lemma SegmentShape(c: Context, indx: nat)
    ensures var r := GetSegment(c, indx);
      (c.segmentAPDU.None? ==> r == Err(RuntimeError)) &&
      (c.segmentAPDU.Some? && c.segmentCount.Some? && indx >= c.segmentCount.value ==> r == Err(RuntimeError)) &&
      (r.Ok? ==>
        c.segmentAPDU.Some? && c.segmentCount.Some? && indx < c.segmentCount.value &&
        c.segmentSize.Some? && c.remoteDevice.Some? &&
        r.value.apci.apduType == c.segmentAPDU.value.apci.apduType &&
        r.value.apci.apduService == c.segmentAPDU.value.apci.apduService &&
        r.value.pduDestination == Some(c.remoteDevice.value.address) &&
        r.value.pduData == Slice(c.segmentAPDU.value.pduData, indx * c.segmentSize.value, c.segmentSize.value)) &&
      (r.Ok? && c.segmentCount.value != 1 ==>
        r.value.apci.apduSeg == Some(true) && r.value.apci.apduMor == Some(indx < c.segmentCount.value - 1) &&
        r.value.apci.apduSeq == Some(indx % 256) && r.value.apci.apduWin == c.proposedWindowSize) &&
      (r.Ok? && c.segmentCount.value == 1 ==>
        r.value.apci.apduSeg == Some(false) && r.value.apci.apduMor == Some(false))
  {
  }

  /** The octets of the first `n` pieces of `size` of `data`, joined in order. */
  function Joined(data: seq<byte>, size: nat, n: nat): seq<byte>
  {
    if n == 0 then [] else Joined(data, size, n - 1) + Slice(data, (n - 1) * size, size)
  }

  /** The first `n` pieces are exactly the first `n * size` octets (or all of them). */
  lemma {:induction false} JoinedPrefix(data: seq<byte>, size: nat, n: nat)
    ensures Joined(data, size, n) == data[..Min(n * size, |data|)]
  {
    if n > 0 {
      JoinedPrefix(data, size, n - 1);
      var from := (n - 1) * size;
      MulStep(n, size);
      PrefixJoin(data, from, size);
    }
  }

  lemma MulStep(n: nat, size: nat)
    requires n > 0
    ensures (n - 1) * size + size == n * size
  {
  }

  /** The first `from` octets followed by the piece of `size` from there are the first
    * `from + size` octets (or all of them). */
  lemma PrefixJoin(data: seq<byte>, from: nat, size: nat)
    ensures data[..Min(from, |data|)] + Slice(data, from, size) == data[..Min(from + size, |data|)]
  {
    var lo := Min(from, |data|);
    var hi := Min(from + size, |data|);
    assert data[..lo] + data[lo..hi] == data[..hi];
  }

  /** Cut into `SegmentCount` pieces, the segments of a context carry its octets exactly
    * once each, in order: joining them gives back the whole APDU's data. */
  lemma SegmentsReassemble(c: Context)
    requires c.segmentAPDU.Some? && c.segmentSize.Some? && c.remoteDevice.Some?
    requires SegmentHeader(c).Ok?
    requires c.segmentCount.Some? && SegmentCount(|c.segmentAPDU.value.pduData|, c.segmentSize.value) == Ok(c.segmentCount.value)
    ensures forall i: nat :: i < c.segmentCount.value ==> GetSegment(c, i).Ok?
    ensures Joined(c.segmentAPDU.value.pduData, c.segmentSize.value, c.segmentCount.value) == c.segmentAPDU.value.pduData
  {
    var data := c.segmentAPDU.value.pduData;
    JoinedPrefix(data, c.segmentSize.value, c.segmentCount.value);
    assert Min(c.segmentCount.value * c.segmentSize.value, |data|) == |data|;
  }

  /** Sequence number arithmetic: `k` numbers after `b`, modulo 256. */
  function SeqAdd(b: int, k: int): int { (b + k) % 256 }

  /** `in_window`, on values already known: `seqA` is within `w` sequence numbers at or after
    * `seqB`, counting modulo 256. */
  predicate Within(seqA: int, seqB: int, w: int)
  {
    (seqA - seqB + 256) % 256 < w
  }

  /** `in_window(seqA, seqB)` on the fields as they are: an unset operand is a TypeError. */
  function InWindow(seqA: Option<int>, seqB: Option<int>, w: Option<int>): (r: Result<bool>)
    ensures r.Err? <==> seqA.None? || seqB.None? || w.None?
    ensures r.Ok? ==> r.value == Within(seqA.value, seqB.value, w.value)
  {
    if seqA.None? || seqB.None? || w.None? then Err(TypeError)
    else Ok(Within(seqA.value, seqB.value, w.value))
  }

  /** For 8-bit sequence numbers and a window of at most 256, `a` is in the window that
    * starts at `b` exactly when it is one of the `w` numbers `b`, `b + 1`, ... (mod 256). */
  lemma WithinWindow(a: int, b: int, w: int)
    requires 0 <= a < 256 && 0 <= b < 256 && w <= 256
    ensures Within(a, b, w) <==> exists k :: 0 <= k < w && SeqAdd(b, k) == a
  {
    var d := (a - b + 256) % 256;
    if b <= a {
      assert d == a - b;
    } else {
      assert d == a - b + 256;
    }
    assert SeqAdd(b, d) == a;
    if k :| 0 <= k < w && SeqAdd(b, k) == a {
      if b + k < 256 {
        assert a - b + 256 == k + 256;
      } else {
        assert a == b + k - 256;
        assert a - b + 256 == k;
      }
    }
  }

  /** Every field of a transaction, for stating what an operation leaves alone. */
  datatype Fields = Fields(
    remoteDevice: Option<DeviceInfo>,
    invokeID: Option<int>,
    state: State,
    segmentAPDU: Option<Pdu>,
    segmentSize: Option<nat>,
    segmentCount: Option<int>,
    retryCount: Option<nat>,
    segmentRetryCount: Option<nat>,
    sentAllSegments: Option<bool>,
    lastSequenceNumber: Option<int>,
    initialSequenceNumber: Option<int>,
    actualWindowSize: Option<int>,
    proposedWindowSize: Option<int>,
    maxSegmentsAccepted: Option<int>,
    timer: Option<nat>,
    sentDown: seq<Pdu>,
    sentUp: seq<Pdu>)

  /** The segmentation context of a transaction with fields `f`. */
  function ContextOf(f: Fields, sap: Settings): Context
  {
    Context(f.segmentAPDU, f.segmentCount, f.segmentSize, f.invokeID, f.maxSegmentsAccepted,
            f.proposedWindowSize, f.remoteDevice, sap)
  }

  /** `SSM`. The timer is the delay of the pending timeout (`None` when none is pending);
    * `sentDown` are the APDUs given to the access point's `request` (towards the network)
    * and `sentUp` those handed to the application, in order. */
  class SSM {
    const sap: Settings
    var remoteDevice: Option<DeviceInfo>
    var invokeID: Option<int>
    var state: State
    var segmentAPDU: Option<Pdu>
    var segmentSize: Option<nat>
    var segmentCount: Option<int>
    var retryCount: Option<nat>
    var segmentRetryCount: Option<nat>
    var sentAllSegments: Option<bool>
    var lastSequenceNumber: Option<int>
    var initialSequenceNumber: Option<int>
    var actualWindowSize: Option<int>
    var proposedWindowSize: Option<int>
    var maxSegmentsAccepted: Option<int>
    var timer: Option<nat>
    var sentDown: seq<Pdu>
    var sentUp: seq<Pdu>

    function Snapshot(): Fields
      reads this
    {
      Fields(remoteDevice, invokeID, state, segmentAPDU, segmentSize, segmentCount, retryCount,
             segmentRetryCount, sentAllSegments, lastSequenceNumber, initialSequenceNumber,
             actualWindowSize, proposedWindowSize, maxSegmentsAccepted, timer, sentDown, sentUp)
    }

    function SegmentContext(): Context
      reads this
    {
      ContextOf(Snapshot(), sap)
    }

    /** A new transaction is idle with nothing set, except that it accepts as many segments
      * as the access point does. */
    constructor (sap: Settings, remoteDevice: Option<DeviceInfo>)
      ensures this.sap == sap
      ensures Snapshot() == Fields(remoteDevice, None, Idle, None, None, None, None, None, None, None,
                                   None, None, None, Some(sap.maxSegmentsAccepted), None, [], [])
    {
      this.sap := sap;
      this.remoteDevice := remoteDevice;
      invokeID, state, segmentAPDU, segmentSize, segmentCount := None, Idle, None, None, None;
      retryCount, segmentRetryCount, sentAllSegments := None, None, None;
      lastSequenceNumber, initialSequenceNumber, actualWindowSize, proposedWindowSize := None, None, None, None;
      maxSegmentsAccepted := Some(sap.maxSegmentsAccepted);
      timer := None;
      sentDown, sentUp := [], [];
    }

    /** `start_timer`/`restart_timer`: the pending timeout is replaced. */
    method StartTimer(msecs: nat)
      modifies this
      ensures Snapshot() == old(Snapshot()).(timer := Some(msecs))
    {
      timer := Some(msecs);
    }

    /** `set_state`: leaving COMPLETED or ABORTED is a RuntimeError and changes nothing;
      * otherwise the timer is stopped, the state changes, and a new timer is started when
      * one is asked for. */
    method SetState(newState: State, msecs: nat) returns (r: Result<()>)
      modifies this
      ensures Terminal(old(state)) ==> r == Err(RuntimeError) && Snapshot() == old(Snapshot())
      ensures !Terminal(old(state)) ==>
        r == Ok(()) && Snapshot() == old(Snapshot()).(state := newState, timer := Timer(msecs))
    {
      if Terminal(state) {
        return Err(RuntimeError);
      }
      timer := None;
      state := newState;
      if msecs > 0 {
        timer := Some(msecs);
      }
      r := Ok(());
    }

    /** `append_segment`: the segment's octets go at the end of the context APDU; with no
      * context it is a RuntimeError. */
    method AppendSegment(apdu: Pdu) returns (r: Result<()>)
      modifies this
      ensures old(segmentAPDU).None? ==> r == Err(RuntimeError) && Snapshot() == old(Snapshot())
      ensures old(segmentAPDU).Some? ==>
        r == Ok(()) &&
        Snapshot() == old(Snapshot()).(segmentAPDU := Some(old(segmentAPDU.value).(pduData := old(segmentAPDU.value.pduData) + apdu.pduData)))
    {
      if segmentAPDU.None? {
        return Err(RuntimeError);
      }
      var ctx := segmentAPDU.value;
      segmentAPDU := Some(ctx.(pduData := ctx.pduData + apdu.pduData));
      r := Ok(());
    }

    /** `FillWindow(seqNum)`: sends the window `Fill` cuts from the current context, one
      * segment after the other, marking all segments sent when the last of them has gone. */
    method FillWindow(seqNum: nat) returns (r: Result<()>)
      modifies this
      ensures (r, Snapshot()) == FillWindowStep(old(Snapshot()), sap, seqNum)
    {
      if actualWindowSize.None? {
        return Err(TypeError);
      }
      var out;
      out, r := CutWindow(Segments(SegmentContext()), seqNum, actualWindowSize.value);
      sentDown := sentDown + out;
      if Ends(out) {
        sentAllSegments := Some(true);
      }
    }

    /** The next window from `start`, as a segment ack in the window asks for. */
    method SendNextWindow(start: nat) returns (r: Result<()>)
      modifies this
      ensures (r, Snapshot()) == NextWindowStep(old(Snapshot()), sap, start)
    {
      ghost var f := Snapshot().(initialSequenceNumber := Some(start), segmentRetryCount := Some(0));
      initialSequenceNumber := Some(start);
      segmentRetryCount := Some(0);
      assert Snapshot() == f;
      r := FillWindow(start);
      ghost var fill := FillWindowStep(f, sap, start);
      assert (r, Snapshot()) == fill;
      if r.Ok? {
        StartTimer(sap.segmentTimeout);
        assert Snapshot() == fill.1.(timer := Some(sap.segmentTimeout));
      }
    }
  }

  /** The loop of `FillWindow`: up to `w` segments from `seqNum` on, stopping after the
    * one with no more following or at the first that cannot be cut. */
  method CutWindow(get: nat -> Result<Pdu>, seqNum: nat, w: int) returns (out: seq<Pdu>, r: Result<()>)
    ensures (out, r) == FillFrom(get, seqNum, w)
  {
    ghost var total := FillFrom(get, seqNum, w);
    out := [];
    var ix := 0;
    r := Ok(());
    assert out + total.0 == total.0;
    while ix < w
      invariant 0 <= ix && |out| == ix && !Ends(out)
      invariant total == (out + FillFrom(get, seqNum + ix, w - ix).0, FillFrom(get, seqNum + ix, w - ix).1)
      invariant r == Ok(())
    {
      FillAdvance(get, seqNum, ix, w, out, total);
      var seg := get(seqNum + ix);
      if seg.Err? {
        r := Err(seg.error);
        break;
      }
      out := out + [seg.value];
      ix := ix + 1;
      if !Flag(seg.value.apci.apduMor) {
        break;
      }
    }
    if ix >= w {
      assert out + [] == out;
    }
  }

  /** The segments `get_segment` cuts from a context, by index. */
  function Segments(c: Context): nat -> Result<Pdu>
  {
    (n: nat) => GetSegment(c, n)
  }

  /** The window `FillWindow(seqNum)` sends with window size `w`, and how it ends: segment
    * after segment until the one with no more following, the `w`-th, or a failing
    * `get_segment`. */
  function Fill(c: Context, seqNum: nat, w: int): (seq<Pdu>, Result<()>)
  {
    FillFrom(Segments(c), seqNum, w)
  }

  /** `Fill` over any way of cutting segments. */
  function FillFrom(get: nat -> Result<Pdu>, seqNum: nat, w: int): (seq<Pdu>, Result<()>)
    decreases w
  {
    if w <= 0 then ([], Ok(()))
    else
      var seg := get(seqNum);
      if seg.Err? then ([], Err(seg.error))
      else if !Flag(seg.value.apci.apduMor) then ([seg.value], Ok(()))
      else
        var rest := FillFrom(get, seqNum + 1, w - 1);
        ([seg.value] + rest.0, rest.1)
  }

  /** The window property over any way of cutting segments. */
  ghost predicate WindowFrom(get: nat -> Result<Pdu>, seqNum: nat, out: seq<Pdu>)
  {
    (forall k :: 0 <= k < |out| ==> get(seqNum + k) == Ok(out[k])) &&
    (forall k :: 0 <= k < |out| - 1 ==> Flag(out[k].apci.apduMor))
  }

  lemma {:induction false} FillFromIsWindow(get: nat -> Result<Pdu>, seqNum: nat, w: int)
    ensures WindowFrom(get, seqNum, FillFrom(get, seqNum, w).0)
    decreases w
  {
    if w > 0 {
      var seg := get(seqNum);
      if seg.Ok? && Flag(seg.value.apci.apduMor) {
        FillFromIsWindow(get, seqNum + 1, w - 1);
        var rest := FillFrom(get, seqNum + 1, w - 1);
        assert FillFrom(get, seqNum, w).0 == [seg.value] + rest.0;
        WindowFromCons(get, seqNum, seg.value, rest.0);
      }
    }
  }

  lemma {:induction false} FillFromEnds(get: nat -> Result<Pdu>, seqNum: nat, w: int)
    ensures var r := FillFrom(get, seqNum, w);
      |r.0| <= (if w < 0 then 0 else w) &&
      (r.1.Err? ==> !Ends(r.0) && get(seqNum + |r.0|) == Err(r.1.error)) &&
      (r.1.Ok? && |r.0| < w ==> Ends(r.0))
    decreases w
  {
    if w > 0 {
      var seg := get(seqNum);
      if seg.Ok? && Flag(seg.value.apci.apduMor) {
        FillFromEnds(get, seqNum + 1, w - 1);
        var rest := FillFrom(get, seqNum + 1, w - 1);
        var out := [seg.value] + rest.0;
        assert FillFrom(get, seqNum, w) == (out, rest.1);
        assert seqNum + |out| == seqNum + 1 + |rest.0|;
        assert |rest.0| > 0 ==> out[|out| - 1] == rest.0[|rest.0| - 1];
      }
    }
  }

  lemma WindowFromCons(get: nat -> Result<Pdu>, seqNum: nat, seg: Pdu, rest: seq<Pdu>)
    requires get(seqNum) == Ok(seg) && Flag(seg.apci.apduMor)
    requires WindowFrom(get, seqNum + 1, rest)
    ensures WindowFrom(get, seqNum, [seg] + rest)
  {
    var out := [seg] + rest;
    forall k | 0 <= k < |out|
      ensures get(seqNum + k) == Ok(out[k])
    {
      if k > 0 {
        assert out[k] == rest[k - 1];
        assert seqNum + k == (seqNum + 1) + (k - 1);
      }
    }
  }

  /** What is sent is exactly what `get_segment` cuts, in order, at most `w` segments, each
    * but the last with more following; it stops short of `w` only after the segment with no
    * more following, and a failure is that of the `get_segment` after the last one sent. */
  lemma FillIsWindow(c: Context, seqNum: nat, w: int)
    ensures var r := Fill(c, seqNum, w);
      Window(c, seqNum, r.0) &&
      |r.0| <= (if w < 0 then 0 else w) &&
      (r.1.Err? ==> !Ends(r.0) && GetSegment(c, seqNum + |r.0|) == Err(r.1.error)) &&
      (r.1.Ok? && |r.0| < w ==> Ends(r.0))
  {
    FillFromIsWindow(Segments(c), seqNum, w);
    FillFromEnds(Segments(c), seqNum, w);
    var r := Fill(c, seqNum, w);
    if r.1.Err? {
      assert Segments(c)(seqNum + |r.0|) == Err(r.1.error);
    }
  }

  /** One step of `FillWindow`'s loop: the window sent so far followed by the rest of
    * `Fill` is the whole window. */
  lemma FillAdvance(get: nat -> Result<Pdu>, seqNum: nat, ix: nat, w: int, out: seq<Pdu>, total: (seq<Pdu>, Result<()>))
    requires ix < w && total == (out + FillFrom(get, seqNum + ix, w - ix).0, FillFrom(get, seqNum + ix, w - ix).1)
    ensures get(seqNum + ix).Err? ==> total == (out, Err(get(seqNum + ix).error))
    ensures get(seqNum + ix).Ok? && !Flag(get(seqNum + ix).value.apci.apduMor) ==>
      total == (out + [get(seqNum + ix).value], Ok(()))
    ensures get(seqNum + ix).Ok? && Flag(get(seqNum + ix).value.apci.apduMor) ==>
      var out' := out + [get(seqNum + ix).value];
      total == (out' + FillFrom(get, seqNum + (ix + 1), w - (ix + 1)).0, FillFrom(get, seqNum + (ix + 1), w - (ix + 1)).1)
  {
    var seg := get(seqNum + ix);
    if seg.Err? {
      assert out + [] == out;
    } else if Flag(seg.value.apci.apduMor) {
      var rest := FillFrom(get, seqNum + ix + 1, w - ix - 1);
      assert (out + [seg.value]) + rest.0 == out + ([seg.value] + rest.0);
    }
  }

  /** A transaction's fields after `FillWindow(seqNum)`: an unset window size is a
    * TypeError; otherwise the window is sent in order and, when it reaches the segment with
    * no more following, every segment is marked sent. */
  function FillWindowStep(f: Fields, sap: Settings, seqNum: nat): (Result<()>, Fields)
  {
    if f.actualWindowSize.None? then (Err(TypeError), f)
    else
      var fill := Fill(ContextOf(f, sap), seqNum, f.actualWindowSize.value);
      (fill.1, f.(sentDown := f.sentDown + fill.0,
                  sentAllSegments := if Ends(fill.0) then Some(true) else f.sentAllSegments))
  }

  /** The window from `start` goes out, with the segment retries reset, and the segment timer
    * restarts once it has. */
  function NextWindowStep(f: Fields, sap: Settings, start: nat): (Result<()>, Fields)
  {
    var fill := FillWindowStep(f.(initialSequenceNumber := Some(start), segmentRetryCount := Some(0)), sap, start);
    if fill.0.Err? then fill else (fill.0, fill.1.(timer := Some(sap.segmentTimeout)))
  }


  /** The APDUs `out` are the segments `seqNum`, `seqNum + 1`, ... in order, each one of them
    * but the last with more following. */
  ghost predicate Window(c: Context, seqNum: nat, out: seq<Pdu>)
  {
    WindowFrom(Segments(c), seqNum, out)
  }

  /** The window ends with the segment that has no more following. */
  predicate Ends(out: seq<Pdu>) { |out| > 0 && !Flag(out[|out| - 1].apci.apduMor) }



  /** The octets of `apdus`, one after the other. */
  function Octets(apdus: seq<Pdu>): seq<byte>
  {
    if |apdus| == 0 then [] else apdus[0].pduData + Octets(apdus[1..])
  }

  /** Segments of APDU type `t` that follow segment `last`, in order, the final one
    * without more following. */
  predicate InOrder(apdus: seq<Pdu>, last: int, t: int)
  {
    forall i :: 0 <= i < |apdus| ==>
      IsType(apdus[i], t) && Flag(apdus[i].apci.apduSeg) &&
      apdus[i].apci.apduSeq == Some((last + 1 + i) % 256) &&
      (Flag(apdus[i].apci.apduMor) <==> i < |apdus| - 1)
  }

  lemma InOrderRest(apdus: seq<Pdu>, last: int, t: int)
    requires |apdus| > 1 && InOrder(apdus, last, t)
    ensures InOrder(apdus[1..], (last + 1) % 256, t)
  {
    var rest := apdus[1..];
    forall i | 0 <= i < |rest|
      ensures rest[i].apci.apduSeq == Some(((last + 1) % 256 + 1 + i) % 256)
    {
      assert rest[i] == apdus[i + 1];
      ModShift(last + 1, 1 + i);
    }
  }

  lemma ModShift(a: int, b: int)
    ensures (a % 256 + b) % 256 == (a + b) % 256
  {
    var q := a / 256;
    assert a == 256 * q + a % 256;
    assert a + b == 256 * q + (a % 256 + b);
  }
}
