/** The client side of a confirmed-service transaction (`bacpypes/app/client_ssm.py`,
  * ASHRAE 135 clause 5.4.4): a request sent whole or in segments, the wait for its
  * confirmation, and the collection of a segmented complex ack. Each handler is a method on
  * the transaction's fields, proved equal to a step function on `Fields`; the properties
  * of the protocol are lemmas about the step functions. */
module ClientSsm {
  import opened Wrappers
  import opened Addresses
  import opened DeviceInfos
  import opened Ssm
  import Apdu

  /** As written, the constructor tests `self.device_info`, an attribute that nothing sets,
    * so creating a client transaction raises AttributeError. */
  function NewClientAsWritten(sap: Settings, remoteDevice: Option<DeviceInfo>): Result<()>
  {
    Err(AttributeError)
  }

  /** No client transaction can be made as written, whatever the access point passes. */
  lemma NewClientAlwaysFails(sap: Settings, remoteDevice: Option<DeviceInfo>)
    ensures NewClientAsWritten(sap, remoteDevice).Err?
  {
  }

  /** Were `self.device_info` taken from the argument, the constructor would still pass the
    * record itself to `acquire`, which takes an instance number or an address and refuses
    * anything else with TypeError, so no reference count moves. */
  method AcquireRecordAsWritten(cache: DeviceInfoCache) returns (r: Result<Option<nat>>)
    requires cache.Valid()
    modifies cache
    ensures r == Err(TypeError)
    ensures cache.Valid() && cache.records == old(cache.records) && cache.cache == old(cache.cache)
  {
    r := cache.Acquire(ByOther);
  }

  /** The transaction is aborted with `reason`; the abort goes to the application, and first
    * to the peer too when `both`. */
  function Aborting(f: Fields, peer: Option<Address>, reason: int, both: bool): Fields
  {
    var abort := AbortPdu(false, f.invokeID, reason);
    var g := Moved(f, Aborted, 0);
    Delivered(if both then Sent(g, peer, abort) else g, peer, abort)
  }

  /** The transaction ends in state `s` and hands `apdu` to the application. */
  function Ending(f: Fields, peer: Option<Address>, s: State, apdu: Pdu): Fields
  {
    Delivered(Moved(f, s, 0), peer, apdu)
  }

  /** What a client transaction keeps set in each of its states. */
  predicate ClientInvariant(f: Fields)
  {
    f.retryCount.Some? &&
    (f.state == SegmentedRequest ==>
      f.segmentAPDU.Some? && f.segmentRetryCount.Some? && SeqNumber(f.initialSequenceNumber)) &&
    (f.state == AwaitConfirmation ==> f.segmentAPDU.Some?) &&
    (f.state == SegmentedConfirmation ==>
      f.segmentAPDU.Some? && SeqNumber(f.lastSequenceNumber) && SeqNumber(f.initialSequenceNumber))
  }

  /** The segment size of a request: the access point's own limit when nothing is known of
    * the server, else the largest APDU the server accepts, cut to its largest NPDU when that
    * is known. */
  function RequestSegmentSize(sap: Settings, remote: Option<DeviceInfo>): (size: nat)
    ensures remote.None? ==> size == sap.maxApduLengthAccepted
    ensures remote.Some? ==>
      size <= remote.value.maxApduLengthAccepted &&
      (remote.value.maxNpduLength.Some? ==> size <= remote.value.maxNpduLength.value) &&
      (size == remote.value.maxApduLengthAccepted || remote.value.maxNpduLength == Some(size))
  {
    if remote.None? then sap.maxApduLengthAccepted
    else if remote.value.maxNpduLength.None? then remote.value.maxApduLengthAccepted
    else Min(remote.value.maxNpduLength.value, remote.value.maxApduLengthAccepted)
  }

  /** The server said how many segments it takes, and `count` is more. */
  predicate TooManySegments(d: DeviceInfo, count: nat)
  {
    d.maxSegmentsAccepted.Some? && d.maxSegmentsAccepted.value != 0 && count > d.maxSegmentsAccepted.value
  }

  /** The abort reason a request of `count` segments is refused with, if any. */
  function Refusal(sap: Settings, remote: Option<DeviceInfo>, count: nat): (r: Option<int>)
    ensures r == None <==>
      count <= 1 ||
      (TransmitsSegments(sap.segmentationSupported) &&
       (remote.None? ||
        (ReceivesSegments(remote.value.segmentationSupported) && !TooManySegments(remote.value, count))))
    ensures r == Some(Apdu.AbortSegmentationNotSupported) <==>
      count > 1 &&
      (!TransmitsSegments(sap.segmentationSupported) ||
       (remote.Some? && !ReceivesSegments(remote.value.segmentationSupported)))
    ensures r == Some(Apdu.AbortApduTooLong) <==>
      count > 1 && TransmitsSegments(sap.segmentationSupported) && remote.Some? &&
      ReceivesSegments(remote.value.segmentationSupported) && TooManySegments(remote.value, count)
  {
    if count <= 1 then None
    else if !TransmitsSegments(sap.segmentationSupported) then Some(Apdu.AbortSegmentationNotSupported)
    else if remote.Some? && !ReceivesSegments(remote.value.segmentationSupported) then Some(Apdu.AbortSegmentationNotSupported)
    else if remote.Some? && TooManySegments(remote.value, count) then Some(Apdu.AbortApduTooLong)
    else None
  }

  /** `indication(apdu)`: a confirmed request from the application becomes the
    * segmentation context and is cut into segments; a request the local device or the server
    * cannot segment is aborted towards the application; otherwise the first segment (or the
    * whole request) goes to the peer and the transaction waits for the segment ack or for
    * the confirmation. */
  function IndicationStep(f: Fields, sap: Settings, peer: Option<Address>, apdu: Pdu): (Result<()>, Fields)
  {
    if !IsType(apdu, Apdu.ConfirmedRequestType) then (Err(RuntimeError), f)
    else
      var f1 := f.(segmentAPDU := Some(apdu), segmentSize := Some(RequestSegmentSize(sap, f.remoteDevice)),
                   invokeID := apdu.apci.apduInvokeID);
      var n := SegmentCount(|apdu.pduData|, f1.segmentSize.value);
      if n.Err? then (Err(n.error), f1)
      else StartStep(f1.(segmentCount := Some(n.value)), sap, peer, n.value)
  }

  /** The request, cut into `count` segments, is refused or its first segment sent. */
  function StartStep(f: Fields, sap: Settings, peer: Option<Address>, count: nat): (Result<()>, Fields)
  {
    var refusal := Refusal(sap, f.remoteDevice, count);
    if refusal.Some? then
      if Terminal(f.state) then (Err(RuntimeError), f)
      else (Ok(()), Aborting(f, peer, refusal.value, false))
    else SendFirstStep(Primed(f, count), sap, peer, count)
  }

  /** The counters of a request about to be sent in `count` segments. */
  function Primed(f: Fields, count: nat): Fields
  {
    if count == 1 then f.(sentAllSegments := Some(true), retryCount := Some(0))
    else f.(sentAllSegments := Some(false), retryCount := Some(0), segmentRetryCount := Some(0),
            initialSequenceNumber := Some(0), actualWindowSize := None)
  }

  /** The first segment goes out and the transaction waits: for the confirmation when the
    * request is whole, for a segment ack otherwise. */
  function SendFirstStep(f: Fields, sap: Settings, peer: Option<Address>, count: nat): (Result<()>, Fields)
  {
    if Terminal(f.state) then (Err(RuntimeError), f)
    else
      var f1 :=
        if count == 1 then Moved(f, AwaitConfirmation, sap.retryTimeout)
        else Moved(f, SegmentedRequest, sap.segmentTimeout);
      var seg := GetSegment(ContextOf(f1, sap), 0);
      if seg.Err? then (Err(seg.error), f1)
      else (Ok(()), Sent(f1, peer, seg.value))
  }

  /** `segmented_request(apdu)`: while the request goes out in segments, a segment ack in the
    * window sends the next window (or, when all is sent, waits for the confirmation), one
    * outside it only restarts the timer; an ack before the whole request went out is an
    * invalid APDU; a segmented complex ack starts reassembly; an error, reject or abort ends
    * the transaction. */
  function SegmentedRequestStep(f: Fields, sap: Settings, peer: Option<Address>, apdu: Pdu): (Result<()>, Fields)
    requires ClientInvariant(f) && f.state == SegmentedRequest
  {
    var t := apdu.apci.apduType;
    if t == Some(Apdu.SegmentAckType) then SegmentAckStep(f, sap, apdu)
    else if t == Some(Apdu.SimpleAckType) then
      if !Flag(f.sentAllSegments) then (Ok(()), Aborting(f, peer, Apdu.AbortInvalidApduInThisState, true))
      else (Ok(()), Ending(f, peer, Completed, apdu))
    else if t == Some(Apdu.ComplexAckType) then
      if !Flag(f.sentAllSegments) then (Ok(()), Aborting(f, peer, Apdu.AbortInvalidApduInThisState, true))
      else if !Flag(apdu.apci.apduSeg) then (Ok(()), Ending(f, peer, Completed, apdu))
      else SegmentedAckStep(f, sap, apdu)
    else if t == Some(Apdu.ErrorType) || t == Some(Apdu.RejectType) || t == Some(Apdu.AbortType) then
      (Ok(()), Ending(f, peer, Completed, apdu))
    else (Err(RuntimeError), f)
  }

  /** A segment ack while sending the request: the server's window becomes the actual
    * window; an ack of a segment in the window sends the next window, or, when all was
    * sent, waits for the confirmation; one outside it only restarts the timer. */
  function SegmentAckStep(f: Fields, sap: Settings, apdu: Pdu): (Result<()>, Fields)
    requires ClientInvariant(f) && f.state == SegmentedRequest
  {
    var f1 := f.(actualWindowSize := apdu.apci.apduWin);
    var inWindow := InWindow(apdu.apci.apduSeq, f.initialSequenceNumber, apdu.apci.apduWin);
    if inWindow.Err? then (Err(inWindow.error), f1)
    else if !inWindow.value then (Ok(()), f1.(timer := Some(sap.segmentTimeout)))
    else if Flag(f.sentAllSegments) then (Ok(()), Moved(f1, AwaitConfirmation, sap.retryTimeout))
    else
      NextWindowStep(f1, sap, (apdu.apci.apduSeq.value + 1) % 256)
  }

  /** A segmented complex ack becomes the context of its reassembly, with the smaller of the
    * two proposed windows. */
  function SegmentedAckStep(f: Fields, sap: Settings, apdu: Pdu): (Result<()>, Fields)
    requires ClientInvariant(f) && f.state == SegmentedRequest
  {
    var f1 := f.(segmentAPDU := Some(apdu));
    var w := OptMin(apdu.apci.apduWin, f.proposedWindowSize);
    if w.Err? then (Err(w.error), f1)
    else
      (Ok(()), Moved(f1.(actualWindowSize := Some(w.value), lastSequenceNumber := Some(0),
                         initialSequenceNumber := Some(0)), SegmentedConfirmation, sap.segmentTimeout))
  }

  /** As written, the error/reject/abort branch of `segmented_request` replaces the bound
    * `response` method by the APDU and then calls it: the transaction is completed, nothing
    * reaches the application and the call is a TypeError. */
  function SegmentedRequestProblemAsWritten(f: Fields): (Result<()>, Fields)
  {
    (Err(TypeError), Moved(f, Completed, 0))
  }

  /** `await_confirmation(apdu)`: a simple ack, error, reject or abort ends the transaction;
    * an unsegmented complex ack completes it; a segmented one starts reassembly when its
    * first segment arrives and the local device can take segments. */
  function AwaitConfirmationStep(f: Fields, sap: Settings, peer: Option<Address>, apdu: Pdu): (Result<()>, Fields)
    requires ClientInvariant(f) && f.state == AwaitConfirmation
  {
    var t := apdu.apci.apduType;
    if t == Some(Apdu.AbortType) then (Ok(()), Ending(f, peer, Aborted, apdu))
    else if t == Some(Apdu.SimpleAckType) || t == Some(Apdu.ErrorType) || t == Some(Apdu.RejectType) then
      (Ok(()), Ending(f, peer, Completed, apdu))
    else if t == Some(Apdu.ComplexAckType) then AwaitComplexAckStep(f, sap, peer, apdu)
    else if t == Some(Apdu.SegmentAckType) then (Ok(()), f.(timer := Some(sap.segmentTimeout)))
    else (Err(RuntimeError), f)
  }

  /** A complex ack while waiting: unsegmented it completes the transaction; segmented,
    * its first segment starts reassembly and is acknowledged, provided the local device can
    * take segments. */
  function AwaitComplexAckStep(f: Fields, sap: Settings, peer: Option<Address>, apdu: Pdu): (Result<()>, Fields)
    requires ClientInvariant(f) && f.state == AwaitConfirmation
  {
    if !Flag(apdu.apci.apduSeg) then (Ok(()), Ending(f, peer, Completed, apdu))
    else if !ReceivesSegments(sap.segmentationSupported) then
      (Ok(()), Aborting(f, peer, Apdu.AbortSegmentationNotSupported, false))
    else if apdu.apci.apduSeq == Some(0) then (Ok(()), Reassembling(f, sap, peer, apdu))
    else (Ok(()), Aborting(f, peer, Apdu.AbortInvalidApduInThisState, true))
  }

  /** The first segment of a complex ack becomes the context of its reassembly, with the
    * server's window, and is acknowledged. */
  function Reassembling(f: Fields, sap: Settings, peer: Option<Address>, apdu: Pdu): Fields
  {
    var f1 := f.(segmentAPDU := Some(apdu), actualWindowSize := apdu.apci.apduWin,
                 lastSequenceNumber := Some(0), initialSequenceNumber := Some(0));
    Sent(Moved(f1, SegmentedConfirmation, sap.segmentTimeout), peer,
         SegmentAckPdu(false, false, f.invokeID, Some(0), apdu.apci.apduWin))
  }

  /** `segmented_confirmation(apdu)`: only segments of a complex ack are expected; the next
    * one in order is appended to the context and acknowledged when it is the last one or
    * closes the window; one out of order is refused with a negative ack of the last
    * segment taken. */
  function SegmentedConfirmationStep(f: Fields, sap: Settings, peer: Option<Address>, apdu: Pdu): (Result<()>, Fields)
    requires ClientInvariant(f) && f.state == SegmentedConfirmation
  {
    if !IsType(apdu, Apdu.ComplexAckType) || !Flag(apdu.apci.apduSeg) then
      (Ok(()), Aborting(f, peer, Apdu.AbortInvalidApduInThisState, true))
    else
      var last := f.lastSequenceNumber.value;
      if apdu.apci.apduSeq != Some((last + 1) % 256) then
        (Ok(()), Sent(f.(timer := Some(sap.segmentTimeout)), peer,
                      SegmentAckPdu(true, false, f.invokeID, f.lastSequenceNumber, f.actualWindowSize)))
      else TakeSegmentStep(f, sap, peer, apdu)
  }

  /** The next segment in order: its octets are appended and the last sequence number
    * advances; the final segment is acknowledged and the whole ack goes to the application,
    * the one that closes the window is acknowledged and opens the next. */
  function TakeSegmentStep(f: Fields, sap: Settings, peer: Option<Address>, apdu: Pdu): (Result<()>, Fields)
    requires ClientInvariant(f) && f.state == SegmentedConfirmation
  {
    var ctx := f.segmentAPDU.value;
    var next := (f.lastSequenceNumber.value + 1) % 256;
    AckSegmentStep(f.(segmentAPDU := Some(ctx.(pduData := ctx.pduData + apdu.pduData)), lastSequenceNumber := Some(next)),
                   sap, peer, apdu)
  }

  /** After the segment was taken: the last segment is acknowledged and completes the
    * transaction; the one that closes the window is acknowledged and opens the next; any
    * other only restarts the timer. */
  function AckSegmentStep(f: Fields, sap: Settings, peer: Option<Address>, apdu: Pdu): (Result<()>, Fields)
    requires ClientInvariant(f) && f.state == SegmentedConfirmation
  {
    var next := f.lastSequenceNumber.value;
    var ack := SegmentAckPdu(false, false, f.invokeID, Some(next), f.actualWindowSize);
    if !Flag(apdu.apci.apduMor) then
      (Ok(()), Ending(Sent(f, peer, ack), peer, Completed, f.segmentAPDU.value))
    else if f.actualWindowSize.None? then (Err(TypeError), f)
    else if next == (f.initialSequenceNumber.value + f.actualWindowSize.value) % 256 then
      (Ok(()), Sent(f.(initialSequenceNumber := Some(next), timer := Some(sap.segmentTimeout)), peer, ack))
    else (Ok(()), f.(timer := Some(sap.segmentTimeout)))
  }

  /** `segmented_request_timeout`: the window is sent again while retries are left, else
    * the transaction is aborted for want of a response. */
  function SegmentedRequestTimeoutStep(f: Fields, sap: Settings, peer: Option<Address>): (Result<()>, Fields)
    requires ClientInvariant(f) && f.state == SegmentedRequest
  {
    var k := f.segmentRetryCount.value;
    if k < sap.retryCount then
      FillWindowStep(f.(segmentRetryCount := Some(k + 1), timer := Some(sap.segmentTimeout)), sap,
                     f.initialSequenceNumber.value)
    else (Ok(()), Aborting(f, peer, Apdu.AbortNoResponse, false))
  }

  /** `await_confirmation_timeout`: the request is started again while retries are left,
    * keeping the retry count across the restart, else the transaction is aborted. */
  function AwaitConfirmationTimeoutStep(f: Fields, sap: Settings, peer: Option<Address>): (Result<()>, Fields)
    requires ClientInvariant(f) && f.state == AwaitConfirmation
  {
    var k := f.retryCount.value;
    if k < sap.retryCount then
      var again := IndicationStep(f.(retryCount := Some(k + 1)), sap, peer, f.segmentAPDU.value);
      if again.0.Err? then again else (Ok(()), again.1.(retryCount := Some(k + 1)))
    else (Ok(()), Aborting(f, peer, Apdu.AbortNoResponse, false))
  }

  /** `segmented_confirmation_timeout`: the server stopped sending segments. */
  function SegmentedConfirmationTimeoutStep(f: Fields, peer: Option<Address>): (Result<()>, Fields)
  {
    (Ok(()), Aborting(f, peer, Apdu.AbortNoResponse, false))
  }

  /** `confirmation(apdu)`: an APDU from the peer is handled by the state it finds. */
  function ConfirmationStep(f: Fields, sap: Settings, peer: Option<Address>, apdu: Pdu): (Result<()>, Fields)
    requires ClientInvariant(f)
  {
    match f.state
    case SegmentedRequest => SegmentedRequestStep(f, sap, peer, apdu)
    case AwaitConfirmation => AwaitConfirmationStep(f, sap, peer, apdu)
    case SegmentedConfirmation => SegmentedConfirmationStep(f, sap, peer, apdu)
    case _ => (Err(RuntimeError), f)
  }

  /** `handle_timeout`: a timeout is handled by the state it finds; a finished transaction
    * ignores it. */
  function TimeoutStep(f: Fields, sap: Settings, peer: Option<Address>): (Result<()>, Fields)
    requires ClientInvariant(f)
  {
    match f.state
    case SegmentedRequest => SegmentedRequestTimeoutStep(f, sap, peer)
    case AwaitConfirmation => AwaitConfirmationTimeoutStep(f, sap, peer)
    case SegmentedConfirmation => SegmentedConfirmationTimeoutStep(f, peer)
    case Completed => (Ok(()), f)
    case Aborted => (Ok(()), f)
    case _ => (Err(RuntimeError), f)
  }

  /** `ClientSSM`: a transaction started by the local application. `peer` is the address
    * the request goes to and the confirmation comes from. */
  class ClientSSM {
    const ssm: SSM
    const peer: Option<Address>
    /** The cache record the transaction holds a reference to, if any. */
    const deviceRef: Option<nat>

    ghost predicate Valid()
      reads this, ssm
    {
      ClientInvariant(ssm.Snapshot())
    }

    /** A new client transaction: idle, no retries yet. When the remote device is known,
      * its cache record is acquired by its device instance, so the record's reference count
      * goes up by one; an unknown device holds nothing. */
    constructor (sap: Settings, remoteDevice: Option<DeviceInfo>, peer: Option<Address>, cache: DeviceInfoCache)
      requires cache.Valid()
      modifies cache
      ensures fresh(ssm) && this.peer == peer && ssm.sap == sap && Valid()
      ensures ssm.Snapshot() == Fields(remoteDevice, None, Idle, None, None, None, Some(0), None, None, None,
                                       None, None, None, Some(sap.maxSegmentsAccepted), None, [], [])
      ensures cache.Valid() && cache.cache == old(cache.cache)
      ensures deviceRef == (if remoteDevice.Some? then old(cache.GetDeviceInfo(IdKey(remoteDevice.value.deviceIdentifier))) else None)
      ensures deviceRef.Some? ==>
        deviceRef.value < |old(cache.records)| && old(cache.records)[deviceRef.value].refCount.Some? &&
        cache.records == Acquired(old(cache.records), deviceRef.value)
      ensures deviceRef.None? ==> cache.records == old(cache.records)
    {
      var t := new SSM(sap, remoteDevice);
      t.retryCount := Some(0);
      var held: Option<nat> := None;
      if remoteDevice.Some? {
        var acquired := cache.Acquire(ByInt(remoteDevice.value.deviceIdentifier));
        held := acquired.value;
      }
      ssm := t;
      this.peer := peer;
      deviceRef := held;
    }

    /** `set_state`: the state changes as the SSM's does, and on reaching COMPLETED or
      * ABORTED the record acquired at creation is released. The removal from the access
      * point's list is StateMachineAccessPoint.RemoveClient. */
    method SetState(s: State, msecs: nat, cache: DeviceInfoCache) returns (r: Result<()>)
      requires cache.Valid() && (deviceRef.Some? ==> deviceRef.value < |cache.records|)
      modifies ssm, cache
      ensures cache.Valid() && cache.cache == old(cache.cache)
      ensures Terminal(old(ssm.state)) ==>
        r == Err(RuntimeError) && ssm.Snapshot() == old(ssm.Snapshot()) && cache.records == old(cache.records)
      ensures !Terminal(old(ssm.state)) ==> ssm.Snapshot() == Moved(old(ssm.Snapshot()), s, msecs)
      ensures !Terminal(old(ssm.state)) && Terminal(s) && deviceRef.Some? ==>
        (r, cache.records) == ReleaseStep(old(cache.records), deviceRef.value)
      ensures !Terminal(old(ssm.state)) && !(Terminal(s) && deviceRef.Some?) ==>
        r == Ok(()) && cache.records == old(cache.records)
    {
      r := ssm.SetState(s, msecs);
      if r.Ok? && Terminal(s) && deviceRef.Some? {
        r := cache.Release(deviceRef.value);
      }
    }

    method Request(apdu: Pdu)
      modifies ssm
      ensures ssm.Snapshot() == Sent(old(ssm.Snapshot()), peer, apdu)
    {
      ssm.sentDown := ssm.sentDown + [ToPeer(apdu, peer)];
    }

    method Response(apdu: Pdu)
      modifies ssm
      ensures ssm.Snapshot() == Delivered(old(ssm.Snapshot()), peer, apdu)
    {
      ssm.sentUp := ssm.sentUp + [ToApp(apdu, peer)];
    }

    /** `abort(reason)`: the transaction is aborted and the abort APDU returned; a finished
      * transaction cannot be aborted. */
    method Abort(reason: int) returns (r: Result<Pdu>)
      modifies ssm
      ensures Terminal(old(ssm.state)) ==> r == Err(RuntimeError) && ssm.Snapshot() == old(ssm.Snapshot())
      ensures !Terminal(old(ssm.state)) ==>
        r == Ok(AbortPdu(false, old(ssm.invokeID), reason)) &&
        ssm.Snapshot() == Moved(old(ssm.Snapshot()), Aborted, 0)
    {
      var s := ssm.SetState(Aborted, 0);
      if s.Err? {
        return Err(s.error);
      }
      r := Ok(AbortPdu(false, ssm.invokeID, reason));
    }

    method AbortAndTell(reason: int, both: bool)
      requires !Terminal(ssm.state)
      modifies ssm
      ensures ssm.Snapshot() == Aborting(old(ssm.Snapshot()), peer, reason, both)
    {
      var abort := Abort(reason);
      if both {
        Request(abort.value);
      }
      Response(abort.value);
    }

    method Finish(s: State, apdu: Pdu)
      requires !Terminal(ssm.state)
      modifies ssm
      ensures ssm.Snapshot() == Ending(old(ssm.Snapshot()), peer, s, apdu)
    {
      var ok := ssm.SetState(s, 0);
      Response(apdu);
    }

    method Indication(apdu: Pdu) returns (r: Result<()>)
      modifies ssm
      ensures (r, ssm.Snapshot()) == IndicationStep(old(ssm.Snapshot()), ssm.sap, peer, apdu)
    {
      if !IsType(apdu, Apdu.ConfirmedRequestType) {
        return Err(RuntimeError);
      }
      ghost var f := ssm.Snapshot();
      ssm.segmentAPDU := Some(apdu);
      ssm.segmentSize := Some(RequestSegmentSize(ssm.sap, ssm.remoteDevice));
      ssm.invokeID := apdu.apci.apduInvokeID;
      ghost var f1 := f.(segmentAPDU := Some(apdu), segmentSize := Some(RequestSegmentSize(ssm.sap, f.remoteDevice)),
                         invokeID := apdu.apci.apduInvokeID);
      assert ssm.Snapshot() == f1;
      var n := SegmentCount(|apdu.pduData|, ssm.segmentSize.value);
      if n.Err? {
        return Err(n.error);
      }
      ssm.segmentCount := Some(n.value);
      assert ssm.Snapshot() == f1.(segmentCount := Some(n.value));
      r := Start(n.value);
    }

    method Start(count: nat) returns (r: Result<()>)
      modifies ssm
      ensures (r, ssm.Snapshot()) == StartStep(old(ssm.Snapshot()), ssm.sap, peer, count)
    {
      var refusal := Refusal(ssm.sap, ssm.remoteDevice, count);
      if refusal.Some? {
        var abort := Abort(refusal.value);
        if abort.Err? {
          return Err(abort.error);
        }
        Response(abort.value);
        return Ok(());
      }
      if count == 1 {
        ssm.sentAllSegments, ssm.retryCount := Some(true), Some(0);
      } else {
        ssm.sentAllSegments, ssm.retryCount, ssm.segmentRetryCount := Some(false), Some(0), Some(0);
        ssm.initialSequenceNumber, ssm.actualWindowSize := Some(0), None;
      }
      r := SendFirst(count);
    }

    method SendFirst(count: nat) returns (r: Result<()>)
      modifies ssm
      ensures (r, ssm.Snapshot()) == SendFirstStep(old(ssm.Snapshot()), ssm.sap, peer, count)
    {
      if count == 1 {
        r := ssm.SetState(AwaitConfirmation, ssm.sap.retryTimeout);
      } else {
        r := ssm.SetState(SegmentedRequest, ssm.sap.segmentTimeout);
      }
      if r.Err? {
        return;
      }
      var seg := GetSegment(ssm.SegmentContext(), 0);
      if seg.Err? {
        return Err(seg.error);
      }
      Request(seg.value);
    }

    method OnSegmentedRequest(apdu: Pdu) returns (r: Result<()>)
      requires Valid() && ssm.state == SegmentedRequest
      modifies ssm
      ensures (r, ssm.Snapshot()) == SegmentedRequestStep(old(ssm.Snapshot()), ssm.sap, peer, apdu)
    {
      var t := apdu.apci.apduType;
      r := Ok(());
      if t == Some(Apdu.SegmentAckType) {
        r := OnSegmentAck(apdu);
      } else if t == Some(Apdu.SimpleAckType) {
        if !Flag(ssm.sentAllSegments) {
          AbortAndTell(Apdu.AbortInvalidApduInThisState, true);
        } else {
          Finish(Completed, apdu);
        }
      } else if t == Some(Apdu.ComplexAckType) {
        if !Flag(ssm.sentAllSegments) {
          AbortAndTell(Apdu.AbortInvalidApduInThisState, true);
        } else if !Flag(apdu.apci.apduSeg) {
          Finish(Completed, apdu);
        } else {
          r := OnSegmentedAck(apdu);
        }
      } else if t == Some(Apdu.ErrorType) || t == Some(Apdu.RejectType) || t == Some(Apdu.AbortType) {
        Finish(Completed, apdu);
      } else {
        r := Err(RuntimeError);
      }
    }

    method OnSegmentAck(apdu: Pdu) returns (r: Result<()>)
      requires Valid() && ssm.state == SegmentedRequest
      modifies ssm
      ensures (r, ssm.Snapshot()) == SegmentAckStep(old(ssm.Snapshot()), ssm.sap, apdu)
    {
      r := Ok(());
      ssm.actualWindowSize := apdu.apci.apduWin;
      var inWindow := InWindow(apdu.apci.apduSeq, ssm.initialSequenceNumber, ssm.actualWindowSize);
      if inWindow.Err? {
        r := Err(inWindow.error);
      } else if !inWindow.value {
        ssm.StartTimer(ssm.sap.segmentTimeout);
      } else if Flag(ssm.sentAllSegments) {
        r := ssm.SetState(AwaitConfirmation, ssm.sap.retryTimeout);
      } else {
        r := ssm.SendNextWindow((apdu.apci.apduSeq.value + 1) % 256);
      }
    }

    method OnSegmentedAck(apdu: Pdu) returns (r: Result<()>)
      requires Valid() && ssm.state == SegmentedRequest
      modifies ssm
      ensures (r, ssm.Snapshot()) == SegmentedAckStep(old(ssm.Snapshot()), ssm.sap, apdu)
    {
      ssm.segmentAPDU := Some(apdu);
      var w := OptMin(apdu.apci.apduWin, ssm.proposedWindowSize);
      if w.Err? {
        return Err(w.error);
      }
      ssm.actualWindowSize := Some(w.value);
      ssm.lastSequenceNumber, ssm.initialSequenceNumber := Some(0), Some(0);
      r := ssm.SetState(SegmentedConfirmation, ssm.sap.segmentTimeout);
    }

    method SegmentedRequestTimeout() returns (r: Result<()>)
      requires Valid() && ssm.state == SegmentedRequest
      modifies ssm
      ensures (r, ssm.Snapshot()) == SegmentedRequestTimeoutStep(old(ssm.Snapshot()), ssm.sap, peer)
    {
      var k := ssm.segmentRetryCount.value;
      if k < ssm.sap.retryCount {
        ssm.segmentRetryCount := Some(k + 1);
        ssm.StartTimer(ssm.sap.segmentTimeout);
        r := ssm.FillWindow(ssm.initialSequenceNumber.value);
      } else {
        AbortAndTell(Apdu.AbortNoResponse, false);
        r := Ok(());
      }
    }

    method OnAwaitConfirmation(apdu: Pdu) returns (r: Result<()>)
      requires Valid() && ssm.state == AwaitConfirmation
      modifies ssm
      ensures (r, ssm.Snapshot()) == AwaitConfirmationStep(old(ssm.Snapshot()), ssm.sap, peer, apdu)
    {
      var t := apdu.apci.apduType;
      r := Ok(());
      if t == Some(Apdu.AbortType) {
        Finish(Aborted, apdu);
      } else if t == Some(Apdu.SimpleAckType) || t == Some(Apdu.ErrorType) || t == Some(Apdu.RejectType) {
        Finish(Completed, apdu);
      } else if t == Some(Apdu.ComplexAckType) {
        OnAwaitComplexAck(apdu);
      } else if t == Some(Apdu.SegmentAckType) {
        ssm.StartTimer(ssm.sap.segmentTimeout);
      } else {
        r := Err(RuntimeError);
      }
    }

    method OnAwaitComplexAck(apdu: Pdu)
      requires Valid() && ssm.state == AwaitConfirmation
      modifies ssm
      ensures (Ok(()), ssm.Snapshot()) == AwaitComplexAckStep(old(ssm.Snapshot()), ssm.sap, peer, apdu)
    {
      if !Flag(apdu.apci.apduSeg) {
        Finish(Completed, apdu);
      } else if !ReceivesSegments(ssm.sap.segmentationSupported) {
        AbortAndTell(Apdu.AbortSegmentationNotSupported, false);
      } else if apdu.apci.apduSeq == Some(0) {
        StartReassembly(apdu);
      } else {
        AbortAndTell(Apdu.AbortInvalidApduInThisState, true);
      }
    }

    method StartReassembly(apdu: Pdu)
      requires !Terminal(ssm.state)
      modifies ssm
      ensures ssm.Snapshot() == Reassembling(old(ssm.Snapshot()), ssm.sap, peer, apdu)
    {
      ghost var f := ssm.Snapshot().(segmentAPDU := Some(apdu), actualWindowSize := apdu.apci.apduWin,
                                     lastSequenceNumber := Some(0), initialSequenceNumber := Some(0));
      ssm.segmentAPDU := Some(apdu);
      ssm.actualWindowSize := apdu.apci.apduWin;
      ssm.lastSequenceNumber, ssm.initialSequenceNumber := Some(0), Some(0);
      assert ssm.Snapshot() == f;
      var ok := ssm.SetState(SegmentedConfirmation, ssm.sap.segmentTimeout);
      assert ssm.Snapshot() == Moved(f, SegmentedConfirmation, ssm.sap.segmentTimeout);
      Request(SegmentAckPdu(false, false, ssm.invokeID, ssm.initialSequenceNumber, ssm.actualWindowSize));
    }

    method AwaitConfirmationTimeout() returns (r: Result<()>)
      requires Valid() && ssm.state == AwaitConfirmation
      modifies ssm
      ensures (r, ssm.Snapshot()) == AwaitConfirmationTimeoutStep(old(ssm.Snapshot()), ssm.sap, peer)
    {
      var k := ssm.retryCount.value;
      if k < ssm.sap.retryCount {
        ssm.retryCount := Some(k + 1);
        var saveCount := ssm.retryCount;
        r := Indication(ssm.segmentAPDU.value);
        if r.Err? {
          return;
        }
        ssm.retryCount := saveCount;
      } else {
        AbortAndTell(Apdu.AbortNoResponse, false);
        r := Ok(());
      }
    }

    method OnSegmentedConfirmation(apdu: Pdu) returns (r: Result<()>)
      requires Valid() && ssm.state == SegmentedConfirmation
      modifies ssm
      ensures (r, ssm.Snapshot()) == SegmentedConfirmationStep(old(ssm.Snapshot()), ssm.sap, peer, apdu)
    {
      r := Ok(());
      if !IsType(apdu, Apdu.ComplexAckType) || !Flag(apdu.apci.apduSeg) {
        AbortAndTell(Apdu.AbortInvalidApduInThisState, true);
        return;
      }
      var last := ssm.lastSequenceNumber.value;
      if apdu.apci.apduSeq != Some((last + 1) % 256) {
        ssm.StartTimer(ssm.sap.segmentTimeout);
        Request(SegmentAckPdu(true, false, ssm.invokeID, ssm.lastSequenceNumber, ssm.actualWindowSize));
        return;
      }
      r := TakeSegment(apdu);
    }

    method TakeSegment(apdu: Pdu) returns (r: Result<()>)
      requires Valid() && ssm.state == SegmentedConfirmation
      modifies ssm
      ensures (r, ssm.Snapshot()) == TakeSegmentStep(old(ssm.Snapshot()), ssm.sap, peer, apdu)
    {
      var last := ssm.lastSequenceNumber.value;
      var ok := ssm.AppendSegment(apdu);
      ssm.lastSequenceNumber := Some((last + 1) % 256);
      r := AckSegment(apdu);
    }

    method AckSegment(apdu: Pdu) returns (r: Result<()>)
      requires Valid() && ssm.state == SegmentedConfirmation
      modifies ssm
      ensures (r, ssm.Snapshot()) == AckSegmentStep(old(ssm.Snapshot()), ssm.sap, peer, apdu)
    {
      r := Ok(());
      if !Flag(apdu.apci.apduMor) {
        Request(SegmentAckPdu(false, false, ssm.invokeID, ssm.lastSequenceNumber, ssm.actualWindowSize));
        Finish(Completed, ssm.segmentAPDU.value);
      } else if ssm.actualWindowSize.None? {
        r := Err(TypeError);
      } else if ssm.lastSequenceNumber.value == (ssm.initialSequenceNumber.value + ssm.actualWindowSize.value) % 256 {
        ssm.initialSequenceNumber := ssm.lastSequenceNumber;
        ssm.StartTimer(ssm.sap.segmentTimeout);
        Request(SegmentAckPdu(false, false, ssm.invokeID, ssm.lastSequenceNumber, ssm.actualWindowSize));
      } else {
        ssm.StartTimer(ssm.sap.segmentTimeout);
      }
    }

    method SegmentedConfirmationTimeout() returns (r: Result<()>)
      requires Valid() && ssm.state == SegmentedConfirmation
      modifies ssm
      ensures (r, ssm.Snapshot()) == SegmentedConfirmationTimeoutStep(old(ssm.Snapshot()), peer)
    {
      AbortAndTell(Apdu.AbortNoResponse, false);
      r := Ok(());
    }

    /** `confirmation(apdu)`. */
    method Confirmation(apdu: Pdu) returns (r: Result<()>)
      requires Valid()
      modifies ssm
      ensures (r, ssm.Snapshot()) == ConfirmationStep(old(ssm.Snapshot()), ssm.sap, peer, apdu)
      ensures Valid()
    {
      ghost var f := ssm.Snapshot();
      if ssm.state == SegmentedRequest {
        r := OnSegmentedRequest(apdu);
      } else if ssm.state == AwaitConfirmation {
        r := OnAwaitConfirmation(apdu);
      } else if ssm.state == SegmentedConfirmation {
        r := OnSegmentedConfirmation(apdu);
      } else {
        r := Err(RuntimeError);
      }
      ConfirmationKeepsInvariant(f, ssm.sap, peer, apdu);
    }

    /** `handle_timeout`. */
    method HandleTimeout() returns (r: Result<()>)
      requires Valid()
      modifies ssm
      ensures (r, ssm.Snapshot()) == TimeoutStep(old(ssm.Snapshot()), ssm.sap, peer)
      ensures Valid()
    {
      ghost var f := ssm.Snapshot();
      if ssm.state == SegmentedRequest {
        r := SegmentedRequestTimeout();
      } else if ssm.state == AwaitConfirmation {
        r := AwaitConfirmationTimeout();
      } else if ssm.state == SegmentedConfirmation {
        r := SegmentedConfirmationTimeout();
      } else if Terminal(ssm.state) {
        r := Ok(());
      } else {
        r := Err(RuntimeError);
      }
      TimeoutKeepsInvariant(f, ssm.sap, peer);
    }
  }

  /** Starting a request keeps the client's invariant. */
  lemma IndicationKeepsInvariant(f: Fields, sap: Settings, peer: Option<Address>, apdu: Pdu)
    requires ClientInvariant(f)
    ensures ClientInvariant(IndicationStep(f, sap, peer, apdu).1)
  {
    if IsType(apdu, Apdu.ConfirmedRequestType) {
      var f1 := f.(segmentAPDU := Some(apdu), segmentSize := Some(RequestSegmentSize(sap, f.remoteDevice)),
                   invokeID := apdu.apci.apduInvokeID);
      var n := SegmentCount(|apdu.pduData|, f1.segmentSize.value);
      if n.Ok? {
        StartKeepsInvariant(f1.(segmentCount := Some(n.value)), sap, peer, n.value);
      }
    }
  }

  lemma StartKeepsInvariant(f: Fields, sap: Settings, peer: Option<Address>, count: nat)
    requires ClientInvariant(f) && f.segmentAPDU.Some?
    ensures ClientInvariant(StartStep(f, sap, peer, count).1)
  {
    if Refusal(sap, f.remoteDevice, count).None? {
      var f1 := Primed(f, count);
      assert ClientInvariant(f1);
    }
  }

  /** Filling a window changes only what was sent. */
  lemma FillWindowKeepsInvariant(f: Fields, sap: Settings, seqNum: nat)
    requires ClientInvariant(f)
    ensures ClientInvariant(FillWindowStep(f, sap, seqNum).1)
  {
  }

  lemma SegmentedRequestKeepsInvariant(f: Fields, sap: Settings, peer: Option<Address>, apdu: Pdu)
    requires ClientInvariant(f) && f.state == SegmentedRequest
    ensures ClientInvariant(SegmentedRequestStep(f, sap, peer, apdu).1)
  {
    if apdu.apci.apduType == Some(Apdu.SegmentAckType) {
      var inWindow := InWindow(apdu.apci.apduSeq, f.initialSequenceNumber, apdu.apci.apduWin);
      if inWindow.Ok? && inWindow.value && !Flag(f.sentAllSegments) {
        var start := (apdu.apci.apduSeq.value + 1) % 256;
        var f1 := f.(actualWindowSize := apdu.apci.apduWin, initialSequenceNumber := Some(start), segmentRetryCount := Some(0));
        FillWindowKeepsInvariant(f1, sap, start);
      }
    }
  }

  lemma AwaitConfirmationKeepsInvariant(f: Fields, sap: Settings, peer: Option<Address>, apdu: Pdu)
    requires ClientInvariant(f) && f.state == AwaitConfirmation
    ensures ClientInvariant(AwaitConfirmationStep(f, sap, peer, apdu).1)
  {
  }

  lemma SegmentedConfirmationKeepsInvariant(f: Fields, sap: Settings, peer: Option<Address>, apdu: Pdu)
    requires ClientInvariant(f) && f.state == SegmentedConfirmation
    ensures ClientInvariant(SegmentedConfirmationStep(f, sap, peer, apdu).1)
  {
  }

  /** Every APDU from the peer keeps the client's invariant. */
  lemma ConfirmationKeepsInvariant(f: Fields, sap: Settings, peer: Option<Address>, apdu: Pdu)
    requires ClientInvariant(f)
    ensures ClientInvariant(ConfirmationStep(f, sap, peer, apdu).1)
  {
    match f.state
    case SegmentedRequest => SegmentedRequestKeepsInvariant(f, sap, peer, apdu);
    case AwaitConfirmation => AwaitConfirmationKeepsInvariant(f, sap, peer, apdu);
    case SegmentedConfirmation => SegmentedConfirmationKeepsInvariant(f, sap, peer, apdu);
    case _ =>
  }

  /** Every timeout keeps the client's invariant. */
  lemma TimeoutKeepsInvariant(f: Fields, sap: Settings, peer: Option<Address>)
    requires ClientInvariant(f)
    ensures ClientInvariant(TimeoutStep(f, sap, peer).1)
  {
    if f.state == SegmentedRequest {
      FillWindowKeepsInvariant(f.(segmentRetryCount := Some(f.segmentRetryCount.value + 1), timer := Some(sap.segmentTimeout)),
                               sap, f.initialSequenceNumber.value);
    } else if f.state == AwaitConfirmation {
      AwaitConfirmationTimeoutKeepsInvariant(f, sap, peer);
    }
  }

  lemma AwaitConfirmationTimeoutKeepsInvariant(f: Fields, sap: Settings, peer: Option<Address>)
    requires ClientInvariant(f) && f.state == AwaitConfirmation
    ensures ClientInvariant(AwaitConfirmationTimeoutStep(f, sap, peer).1)
  {
    var k := f.retryCount.value;
    if k < sap.retryCount {
      IndicationKeepsInvariant(f.(retryCount := Some(k + 1)), sap, peer, f.segmentAPDU.value);
    }
  }
}

module ClientSsmProperties {
  import opened Wrappers
  import opened Addresses
  import opened Bytes
  import opened DeviceInfos
  import opened Ssm
  import opened ClientSsm
  import Apdu

  /** A finished transaction stays finished: an APDU is refused and a timeout ignored. */
  lemma TerminalIsFinal(f: Fields, sap: Settings, peer: Option<Address>, apdu: Pdu)
    requires ClientInvariant(f) && Terminal(f.state)
    ensures ConfirmationStep(f, sap, peer, apdu) == (Err(RuntimeError), f)
    ensures TimeoutStep(f, sap, peer) == (Ok(()), f)
    ensures IndicationStep(f, sap, peer, apdu).1.state == f.state
  {
  }

  /** A request that fits in one segment goes out whole: one confirmed request to the peer,
    * unsegmented, with the request's service, invoke ID and octets, and the transaction
    * waits for the confirmation. */
  lemma UnsegmentedRequestSentWhole(f: Fields, sap: Settings, peer: Option<Address>, apdu: Pdu)
    requires ClientInvariant(f) && !Terminal(f.state) && f.remoteDevice.Some?
    requires IsType(apdu, Apdu.ConfirmedRequestType)
    requires |apdu.pduData| <= RequestSegmentSize(sap, f.remoteDevice)
    ensures var (r, g) := IndicationStep(f, sap, peer, apdu);
      r == Ok(()) && g.state == AwaitConfirmation && g.timer == Timer(sap.retryTimeout) &&
      |g.sentDown| == |f.sentDown| + 1 && g.sentDown[..|f.sentDown|] == f.sentDown &&
      var seg := g.sentDown[|f.sentDown|];
      seg.pduData == apdu.pduData && seg.pduDestination == peer &&
      seg.apci.apduType == Some(Apdu.ConfirmedRequestType) && seg.apci.apduService == apdu.apci.apduService &&
      seg.apci.apduInvokeID == apdu.apci.apduInvokeID &&
      seg.apci.apduSeg == Some(false) && seg.apci.apduMor == Some(false)
  {
    var size := RequestSegmentSize(sap, f.remoteDevice);
    var len := |apdu.pduData|;
    if len > 0 {
      assert len / size <= 1 && (len / size == 1 ==> len % size == 0);
    }
    assert SegmentCount(len, size) == Ok(1);
    var f1 := f.(segmentAPDU := Some(apdu), segmentSize := Some(size), invokeID := apdu.apci.apduInvokeID,
                 segmentCount := Some(1));
    var f3 := Primed(f1, 1);
    var f4 := Moved(f3, AwaitConfirmation, sap.retryTimeout);
    assert IndicationStep(f, sap, peer, apdu) == SendFirstStep(f3, sap, peer, 1);
    SegmentShape(ContextOf(f4, sap), 0);
    assert Slice(apdu.pduData, 0 * size, size) == apdu.pduData;
  }

  /** A segment ack for a segment in the window, while segments remain, sends the next
    * window: exactly the segments that follow the acknowledged one, in order. */
  lemma AckedWindowSendsNext(f: Fields, sap: Settings, peer: Option<Address>, apdu: Pdu)
    requires ClientInvariant(f) && f.state == SegmentedRequest && !Flag(f.sentAllSegments)
    requires apdu.apci.apduType == Some(Apdu.SegmentAckType)
    requires InWindow(apdu.apci.apduSeq, f.initialSequenceNumber, apdu.apci.apduWin) == Ok(true)
    ensures var start := (apdu.apci.apduSeq.value + 1) % 256;
      var (r, g) := ConfirmationStep(f, sap, peer, apdu);
      g.state == SegmentedRequest && g.initialSequenceNumber == Some(start) &&
      |g.sentDown| >= |f.sentDown| && g.sentDown[..|f.sentDown|] == f.sentDown &&
      var out := g.sentDown[|f.sentDown|..];
      Window(ContextOf(f, sap), start, out) && |out| <= apdu.apci.apduWin.value &&
      (r.Ok? ==> g.timer == Some(sap.segmentTimeout)) &&
      (r.Err? ==> GetSegment(ContextOf(f, sap), start + |out|) == Err(r.error))
  {
    var start := (apdu.apci.apduSeq.value + 1) % 256;
    var f1 := f.(actualWindowSize := apdu.apci.apduWin, initialSequenceNumber := Some(start), segmentRetryCount := Some(0));
    assert ContextOf(f1, sap) == ContextOf(f, sap);
    FillIsWindow(ContextOf(f, sap), start, apdu.apci.apduWin.value);
    var fill := Fill(ContextOf(f, sap), start, apdu.apci.apduWin.value);
    assert (f.sentDown + fill.0)[..|f.sentDown|] == f.sentDown;
    assert (f.sentDown + fill.0)[|f.sentDown|..] == fill.0;
  }

  /** A client waiting for its confirmation retries at most `numberOfApduRetries` times:
    * each timeout with retries left counts one more, and the timeout after the last retry
    * aborts the transaction for want of a response, telling only the application. */
  lemma RetriesBounded(f: Fields, sap: Settings, peer: Option<Address>)
    requires ClientInvariant(f) && f.state == AwaitConfirmation
    ensures var (r, g) := TimeoutStep(f, sap, peer);
      (f.retryCount.value >= sap.retryCount ==>
        r == Ok(()) && g.state == Aborted && g.timer == None && g.sentDown == f.sentDown &&
        g.sentUp == f.sentUp + [ToApp(AbortPdu(false, f.invokeID, Apdu.AbortNoResponse), peer)]) &&
      (f.retryCount.value < sap.retryCount && r.Ok? ==>
        g.retryCount == Some(f.retryCount.value + 1) && g.segmentAPDU == f.segmentAPDU)
  {
    assert TimeoutStep(f, sap, peer) == AwaitConfirmationTimeoutStep(f, sap, peer);
    if f.retryCount.value < sap.retryCount {
      RetryKeepsRequest(f, sap, peer);
    }
  }

  lemma RetryKeepsRequest(f: Fields, sap: Settings, peer: Option<Address>)
    requires ClientInvariant(f) && f.state == AwaitConfirmation && f.retryCount.value < sap.retryCount
    ensures var (r, g) := AwaitConfirmationTimeoutStep(f, sap, peer);
      r.Ok? ==> g.retryCount == Some(f.retryCount.value + 1) && g.segmentAPDU == f.segmentAPDU
  {
    var k := f.retryCount.value;
    var f1 := f.(retryCount := Some(k + 1));
    var again := IndicationStep(f1, sap, peer, f.segmentAPDU.value);
    assert AwaitConfirmationTimeoutStep(f, sap, peer) ==
      (if again.0.Err? then again else (Ok(()), again.1.(retryCount := Some(k + 1))));
    IndicationKeepsSegment(f1, sap, peer, f.segmentAPDU.value);
  }

  /** Starting a request again keeps the request as the transaction's APDU. */
  lemma IndicationKeepsSegment(f: Fields, sap: Settings, peer: Option<Address>, apdu: Pdu)
    ensures var (r, g) := IndicationStep(f, sap, peer, apdu);
      r.Ok? ==> g.segmentAPDU == Some(apdu)
  {
  }

  /** While the request goes out in segments, an error from the server ends the transaction
    * and reaches the application; as written, the handler fails before anything is
    * delivered. */
  lemma SegmentedRequestErrorLost(f: Fields, sap: Settings, peer: Option<Address>, apdu: Pdu)
    requires ClientInvariant(f) && f.state == SegmentedRequest && IsType(apdu, Apdu.ErrorType)
    ensures var (r, g) := SegmentedRequestStep(f, sap, peer, apdu);
      r == Ok(()) && g.state == Completed && g.sentUp == f.sentUp + [ToApp(apdu, peer)]
    ensures var (r, g) := SegmentedRequestProblemAsWritten(f);
      r == Err(TypeError) && g.state == Completed && g.sentUp == f.sentUp
  {
  }

  /** The APDUs `apdus` from the peer handled one after the other, until one fails. */
  function Receive(f: Fields, sap: Settings, peer: Option<Address>, apdus: seq<Pdu>): (Result<()>, Fields)
    requires ClientInvariant(f)
    decreases |apdus|
  {
    if |apdus| == 0 then (Ok(()), f)
    else
      var step := ConfirmationStep(f, sap, peer, apdus[0]);
      ConfirmationKeepsInvariant(f, sap, peer, apdus[0]);
      if step.0.Err? then step else Receive(step.1, sap, peer, apdus[1..])
  }

  /** Reassembly: receiving the remaining segments of a segmented complex ack in order
    * completes the transaction, and the application gets the complex ack whose octets are
    * those of the first segment followed by those of every later segment, in order. */
  lemma {:induction false} ReassemblyInOrder(f: Fields, sap: Settings, peer: Option<Address>, apdus: seq<Pdu>)
    requires ClientInvariant(f) && f.state == SegmentedConfirmation && f.actualWindowSize.Some?
    requires |apdus| > 0 && InOrder(apdus, f.lastSequenceNumber.value, Apdu.ComplexAckType)
    ensures var (r, g) := Receive(f, sap, peer, apdus);
      r == Ok(()) && g.state == Completed && g.segmentAPDU.Some? &&
      g.segmentAPDU.value == f.segmentAPDU.value.(pduData := f.segmentAPDU.value.pduData + Octets(apdus)) &&
      g.sentUp == f.sentUp + [ToApp(g.segmentAPDU.value, peer)]
    decreases |apdus|
  {
    var a := apdus[0];
    var ctx := f.segmentAPDU.value;
    var last := f.lastSequenceNumber.value;
    assert a.apci.apduSeq == Some((last + 1) % 256);
    if |apdus| == 1 {
      assert Octets(apdus) == a.pduData + Octets(apdus[1..]);
      assert Octets(apdus[1..]) == [];
      FinalSegment(f, sap, peer, a);
      ReceiveStep(f, sap, peer, apdus, ConfirmationStep(f, sap, peer, a).1);
    } else {
      var g := MidSegment(f, sap, peer, a);
      var rest := apdus[1..];
      ReceiveStep(f, sap, peer, apdus, g);
      InOrderRest(apdus, last, Apdu.ComplexAckType);
      ReassemblyInOrder(g, sap, peer, rest);
      assert Octets(apdus) == a.pduData + Octets(rest);
      assert (ctx.pduData + a.pduData) + Octets(rest) == ctx.pduData + Octets(apdus);
    }
  }

  /** An APDU that is handled without error passes the rest on to the state it leaves. */
  lemma ReceiveStep(f: Fields, sap: Settings, peer: Option<Address>, apdus: seq<Pdu>, g: Fields)
    requires ClientInvariant(f) && |apdus| > 0 && ConfirmationStep(f, sap, peer, apdus[0]) == (Ok(()), g)
    ensures ClientInvariant(g) && Receive(f, sap, peer, apdus) == Receive(g, sap, peer, apdus[1..])
  {
    ConfirmationKeepsInvariant(f, sap, peer, apdus[0]);
  }

  /** The last segment completes the transaction and hands the whole ack up. */
  lemma FinalSegment(f: Fields, sap: Settings, peer: Option<Address>, a: Pdu)
    requires ClientInvariant(f) && f.state == SegmentedConfirmation
    requires IsType(a, Apdu.ComplexAckType) && Flag(a.apci.apduSeg) && !Flag(a.apci.apduMor)
    requires a.apci.apduSeq == Some((f.lastSequenceNumber.value + 1) % 256)
    ensures var ctx := f.segmentAPDU.value.(pduData := f.segmentAPDU.value.pduData + a.pduData);
      var (r, g) := ConfirmationStep(f, sap, peer, a);
      r == Ok(()) && g.state == Completed && g.segmentAPDU == Some(ctx) && g.sentUp == f.sentUp + [ToApp(ctx, peer)] &&
      Receive(g, sap, peer, []) == (r, g)
  {
  }

  /** A segment before the last is taken and the reassembly goes on. */
  lemma MidSegment(f: Fields, sap: Settings, peer: Option<Address>, a: Pdu) returns (g: Fields)
    requires ClientInvariant(f) && f.state == SegmentedConfirmation && f.actualWindowSize.Some?
    requires IsType(a, Apdu.ComplexAckType) && Flag(a.apci.apduSeg) && Flag(a.apci.apduMor)
    requires a.apci.apduSeq == Some((f.lastSequenceNumber.value + 1) % 256)
    ensures ConfirmationStep(f, sap, peer, a) == (Ok(()), g)
    ensures ClientInvariant(g) && g.state == SegmentedConfirmation && g.actualWindowSize == f.actualWindowSize
    ensures g.lastSequenceNumber == Some((f.lastSequenceNumber.value + 1) % 256)
    ensures g.segmentAPDU == Some(f.segmentAPDU.value.(pduData := f.segmentAPDU.value.pduData + a.pduData))
    ensures g.sentUp == f.sentUp
  {
    g := ConfirmationStep(f, sap, peer, a).1;
  }

  /** A client transaction gives back the reference it takes: made and then finished, it
    * releases without error and leaves every reference count and the cache's keys as they
    * were. */
  method TransactionLifeBalances(sap: Settings, remoteDevice: Option<DeviceInfo>, peer: Option<Address>, cache: DeviceInfoCache, s: State, msecs: nat)
    returns (r: Result<()>)
    requires cache.Valid() && Terminal(s)
    modifies cache
    ensures r == Ok(()) && cache.records == old(cache.records) && cache.cache == old(cache.cache)
  {
    var t := new ClientSSM(sap, remoteDevice, peer, cache);
    if t.deviceRef.Some? {
      AcquireReleaseBalance(old(cache.records), t.deviceRef.value);
    }
    r := t.SetState(s, msecs, cache);
  }
}
