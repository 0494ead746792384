/** The server transaction (`bacpypes/app/server_ssm.py`, ASHRAE 135 clause 5.4): a
  * confirmed request from a peer, received whole or in segments, handed to the application,
  * and the application's answer sent back whole or in segments. Each handler is a method on
  * the transaction's fields, proved equal to a step function on `Fields`; the properties of
  * the protocol are lemmas about the step functions. The peer is the remote device's
  * address: a server transaction leaves IDLE only once its remote device is known. */
module ServerSsm {
  import opened Wrappers
  import opened Addresses
  import opened DeviceInfos
  import opened Ssm
  import Apdu

  /** The peer's address, once the remote device is known. */
  function Addr(f: Fields): Option<Address>
    requires f.remoteDevice.Some?
  {
    Some(f.remoteDevice.value.address)
  }

  /** `set_state` as written: after the state change, the terminal states call the device
    * information cache's `release_device_info`, which the cache does not have. */
  function SetStateAsWritten(f: Fields, s: State, msecs: nat): (Result<()>, Fields)
  {
    if Terminal(f.state) then (Err(RuntimeError), f)
    else if Terminal(s) then (Err(AttributeError), Moved(f, s, msecs))
    else (Ok(()), Moved(f, s, msecs))
  }

  /** The segment size of a response as written: the smaller of the remote device's largest
    * NPDU and largest APDU, with no case for an unknown largest NPDU. */
  function ResponseSegmentSizeAsWritten(d: DeviceInfo): Result<nat>
  {
    if d.maxNpduLength.None? then Err(TypeError)
    else Ok(Min(d.maxNpduLength.value, d.maxApduLengthAccepted))
  }

  /** The segment size of a response: the largest APDU the remote device accepts, cut to
    * its largest NPDU when that is known. */
  function ResponseSegmentSize(d: DeviceInfo): (size: nat)
    ensures size <= d.maxApduLengthAccepted
    ensures d.maxNpduLength.Some? ==> size <= d.maxNpduLength.value
    ensures size == d.maxApduLengthAccepted || (d.maxNpduLength.Some? && size == d.maxNpduLength.value)
  {
    if d.maxNpduLength.None? then d.maxApduLengthAccepted
    else Min(d.maxNpduLength.value, d.maxApduLengthAccepted)
  }

  /** The remote device's segmentation after a request with the segmented-response-accepted
    * flag: a device said to take no segments takes them on receive, one said to only send
    * them takes both. */
  function Synced(d: DeviceInfo): (r: DeviceInfo)
    ensures ReceivesSegments(r.segmentationSupported)
    ensures TransmitsSegments(r.segmentationSupported) <==> TransmitsSegments(d.segmentationSupported)
    ensures r == d.(segmentationSupported := r.segmentationSupported)
    ensures ReceivesSegments(d.segmentationSupported) ==> r == d
  {
    match d.segmentationSupported
    case NoSegmentation => d.(segmentationSupported := SegmentedReceive)
    case SegmentedTransmit => d.(segmentationSupported := SegmentedBoth)
    case _ => d
  }

  /** The transaction is aborted with `reason`; the abort, a server's, goes to the
    * application when `up` and to the peer when `down`. */
  function Aborting(f: Fields, reason: int, up: bool, down: bool): Fields
    requires f.remoteDevice.Some?
  {
    var abort := AbortPdu(true, f.invokeID, reason);
    var g := Moved(f, Aborted, 0);
    var g1 := if up then Delivered(g, Addr(f), abort) else g;
    if down then Sent(g1, Addr(f), abort) else g1
  }

  /** What the reassembly of a segmented request reads. */
  predicate Receiving(f: Fields)
  {
    f.remoteDevice.Some? && f.segmentAPDU.Some? && f.lastSequenceNumber.Some? &&
    f.initialSequenceNumber.Some? && f.actualWindowSize.Some?
  }

  /** What a server transaction keeps set in each of its states. */
  predicate ServerInvariant(f: Fields)
  {
    (f.state != Idle ==> f.remoteDevice.Some?) &&
    (f.state == SegmentedRequest ==>
      f.segmentAPDU.Some? && SeqNumber(f.lastSequenceNumber) && SeqNumber(f.initialSequenceNumber) &&
      f.actualWindowSize.Some?) &&
    (f.state == SegmentedResponse ==>
      f.segmentAPDU.Some? && f.segmentRetryCount.Some? && SeqNumber(f.initialSequenceNumber))
  }

  /** `idle(apdu)`: only a confirmed request starts a transaction. Its invoke ID is kept and
    * the remote device's segmentation synced with it; an unsegmented request goes to the
    * application and the transaction awaits the response; a segmented one is aborted when
    * the local device takes no segments, else it becomes the context of its reassembly with
    * the smaller of the two windows, acknowledged to the peer. */
  function IdleStep(f: Fields, sap: Settings, apdu: Pdu): (Result<()>, Fields)
    requires f.state == Idle
  {
    if !IsType(apdu, Apdu.ConfirmedRequestType) then (Err(RuntimeError), f)
    else
      var f1 := f.(invokeID := apdu.apci.apduInvokeID);
      if f1.remoteDevice.None? then (Err(AttributeError), f1)
      else
        var f2 := if Flag(apdu.apci.apduSA) then f1.(remoteDevice := Some(Synced(f1.remoteDevice.value))) else f1;
        RequestStep(f2.(maxSegmentsAccepted := apdu.apci.apduMaxSegs), sap, apdu)
  }

  /** A confirmed request from a known device: whole, refused, or the first segment. */
  function RequestStep(f3: Fields, sap: Settings, apdu: Pdu): (Result<()>, Fields)
    requires f3.state == Idle && f3.remoteDevice.Some?
  {
    if !Flag(apdu.apci.apduSeg) then
      (Ok(()), Delivered(Moved(f3, AwaitResponse, sap.applicationTimeout), Addr(f3), apdu))
    else if !ReceivesSegments(sap.segmentationSupported) then
      (Ok(()), Aborting(f3, Apdu.AbortSegmentationNotSupported, false, true))
    else ReassemblyStep(f3.(segmentAPDU := Some(apdu)), sap, apdu)
  }

  /** The first segment of a segmented request: the window is the smaller of the peer's and
    * the local device's, and segment 0 is acknowledged. */
  function ReassemblyStep(f: Fields, sap: Settings, apdu: Pdu): (Result<()>, Fields)
    requires f.remoteDevice.Some? && !Terminal(f.state)
  {
    var w := OptMin(apdu.apci.apduWin, Some(sap.maxSegmentsAccepted));
    if w.Err? then (Err(w.error), f)
    else
      var f1 := f.(actualWindowSize := Some(w.value), lastSequenceNumber := Some(0), initialSequenceNumber := Some(0));
      (Ok(()), Sent(Moved(f1, SegmentedRequest, sap.segmentTimeout), Addr(f),
                    SegmentAckPdu(false, true, f.invokeID, Some(0), Some(w.value))))
  }

  /** `segmented_request(apdu)`: an abort completes the transaction and is sent back; any
    * APDU other than a segment of a confirmed request aborts it both ways; a segment is
    * taken in order. */
  function SegmentedRequestStep(f: Fields, sap: Settings, apdu: Pdu): (Result<()>, Fields)
    requires f.state == SegmentedRequest && Receiving(f)
  {
    if IsType(apdu, Apdu.AbortType) then (Ok(()), Sent(Moved(f, Completed, 0), Addr(f), apdu))
    else if !IsType(apdu, Apdu.ConfirmedRequestType) || !Flag(apdu.apci.apduSeg) then
      (Ok(()), Aborting(f, Apdu.AbortInvalidApduInThisState, true, true))
    else TakeRequestSegmentStep(f, sap, apdu)
  }

  /** A segment out of order is refused with a negative ack and the timer restarted; one in
    * order is appended. The last segment is acknowledged and the whole request goes to the
    * application; the last of a window is acknowledged and opens the next window; any other
    * only restarts the timer. */
  function TakeRequestSegmentStep(f: Fields, sap: Settings, apdu: Pdu): (Result<()>, Fields)
    requires f.state == SegmentedRequest && Receiving(f)
  {
    var last := f.lastSequenceNumber.value;
    if apdu.apci.apduSeq != Some((last + 1) % 256) then
      (Ok(()), Sent(f.(timer := Some(sap.segmentTimeout)), Addr(f),
                    SegmentAckPdu(true, true, f.invokeID, f.initialSequenceNumber, f.actualWindowSize)))
    else
      var ctx := f.segmentAPDU.value;
      var next := (last + 1) % 256;
      var whole := ctx.(pduData := ctx.pduData + apdu.pduData);
      var f1 := f.(segmentAPDU := Some(whole), lastSequenceNumber := Some(next));
      if !Flag(apdu.apci.apduMor) then
        var f2 := Sent(f1, Addr(f), SegmentAckPdu(false, true, f.invokeID, Some(next), f.actualWindowSize));
        (Ok(()), Delivered(Moved(f2, AwaitResponse, sap.applicationTimeout), Addr(f), whole))
      else if apdu.apci.apduSeq == Some((f.initialSequenceNumber.value + f.actualWindowSize.value) % 256) then
        var f2 := f1.(initialSequenceNumber := Some(next), timer := Some(sap.segmentTimeout));
        (Ok(()), Sent(f2, Addr(f), SegmentAckPdu(false, true, f.invokeID, Some(next), f.actualWindowSize)))
      else (Ok(()), f1.(timer := Some(sap.segmentTimeout)))
  }

  /** `await_response(apdu)`: the peer sending the request again is ignored; its abort
    * aborts the transaction and goes to the application; anything else is a RuntimeError. */
  function AwaitResponseStep(f: Fields, apdu: Pdu): (Result<()>, Fields)
    requires f.state == AwaitResponse && f.remoteDevice.Some?
  {
    if IsType(apdu, Apdu.ConfirmedRequestType) then (Ok(()), f)
    else if IsType(apdu, Apdu.AbortType) then (Ok(()), Delivered(Moved(f, Aborted, 0), Addr(f), apdu))
    else (Err(RuntimeError), f)
  }

  /** `segmented_response(apdu)`: a segment ack outside the window only restarts the timer;
    * one in the window completes the transaction when all was sent, else sends the next
    * window with the peer's window size; an abort completes the transaction and is sent
    * back; anything else is a RuntimeError. */
  function SegmentedResponseStep(f: Fields, sap: Settings, apdu: Pdu): (Result<()>, Fields)
    requires f.state == SegmentedResponse && f.remoteDevice.Some?
  {
    if IsType(apdu, Apdu.SegmentAckType) then ResponseSegmentAckStep(f, sap, apdu)
    else if IsType(apdu, Apdu.AbortType) then (Ok(()), Sent(Moved(f, Completed, 0), Addr(f), apdu))
    else (Err(RuntimeError), f)
  }

  /** A segment ack of the response. */
  function ResponseSegmentAckStep(f: Fields, sap: Settings, apdu: Pdu): (Result<()>, Fields)
    requires f.state == SegmentedResponse
  {
    var inWindow := InWindow(apdu.apci.apduSeq, f.initialSequenceNumber, f.actualWindowSize);
    if inWindow.Err? then (Err(inWindow.error), f)
    else if !inWindow.value then (Ok(()), f.(timer := Some(sap.segmentTimeout)))
    else if Flag(f.sentAllSegments) then (Ok(()), Moved(f, Completed, 0))
    else NextWindowStep(f.(actualWindowSize := apdu.apci.apduWin), sap, (apdu.apci.apduSeq.value + 1) % 256)
  }

  /** `indication(apdu)`: an APDU from the peer is handled by the state it finds; a finished
    * transaction ignores it. */
  function IndicationStep(f: Fields, sap: Settings, apdu: Pdu): (Result<()>, Fields)
    requires ServerInvariant(f)
  {
    match f.state
    case Idle => IdleStep(f, sap, apdu)
    case SegmentedRequest => SegmentedRequestStep(f, sap, apdu)
    case AwaitResponse => AwaitResponseStep(f, apdu)
    case SegmentedResponse => SegmentedResponseStep(f, sap, apdu)
    case _ => (Ok(()), f)
  }

  /** The transaction ends in state `s` and `apdu` goes back to the peer; a finished
    * transaction cannot end again, and nothing is sent. */
  function AnswerStep(f: Fields, s: State, apdu: Pdu): (Result<()>, Fields)
    requires f.remoteDevice.Some?
  {
    if Terminal(f.state) then (Err(RuntimeError), f) else (Ok(()), Sent(Moved(f, s, 0), Addr(f), apdu))
  }

  /** `confirmation(apdu)`: the application's answer, whatever the state. An abort aborts
    * the transaction, a simple ack, error or reject completes it, and it is sent to the
    * peer; a complex ack is sent whole or in segments; anything else is a RuntimeError. */
  function ConfirmationStep(f: Fields, sap: Settings, apdu: Pdu): (Result<()>, Fields)
    requires f.remoteDevice.Some?
  {
    if IsType(apdu, Apdu.AbortType) then AnswerStep(f, Aborted, apdu)
    else if IsType(apdu, Apdu.SimpleAckType) || IsType(apdu, Apdu.ErrorType) || IsType(apdu, Apdu.RejectType) then
      AnswerStep(f, Completed, apdu)
    else if IsType(apdu, Apdu.ComplexAckType) then ComplexAckStep(f, sap, apdu)
    else (Err(RuntimeError), f)
  }

  /** A complex ack becomes the segmentation context, cut to the remote device's segment
    * size. When it needs segments that the local device cannot send or the peer cannot take,
    * the transaction is aborted and the abort sent; otherwise the whole ack, or its first
    * segment, goes to the peer, completing the transaction or awaiting segment acks. */
  function ComplexAckStep(f: Fields, sap: Settings, apdu: Pdu): (Result<()>, Fields)
    requires f.remoteDevice.Some?
  {
    var remote := f.remoteDevice.value;
    var size := ResponseSegmentSize(remote);
    var n := SegmentCount(|apdu.pduData|, size);
    var f1 := f.(segmentAPDU := Some(apdu), segmentSize := Some(size));
    if n.Err? then (Err(n.error), f1)
    else CountedAckStep(f1.(segmentCount := Some(n.value)), sap, apdu, n.value)
  }

  /** A complex ack cut into `count` segments is refused, or sent. */
  function CountedAckStep(f2: Fields, sap: Settings, apdu: Pdu, count: nat): (Result<()>, Fields)
    requires f2.remoteDevice.Some?
  {
    var remote := f2.remoteDevice.value;
    if count > 1 && (!TransmitsSegments(sap.segmentationSupported) || !ReceivesSegments(remote.segmentationSupported)) then
      if Terminal(f2.state) then (Err(RuntimeError), f2)
      else (Ok(()), Aborting(f2, Apdu.AbortSegmentationNotSupported, false, true))
    else
      var f3 := f2.(segmentRetryCount := Some(0), initialSequenceNumber := Some(0),
                    proposedWindowSize := Some(sap.maxSegmentsAccepted), actualWindowSize := Some(1));
      SendAnswerStep(f3, sap, apdu, count)
  }

  /** The whole ack, or its first segment, goes to the peer; then the state changes. */
  function SendAnswerStep(f: Fields, sap: Settings, apdu: Pdu, count: nat): (Result<()>, Fields)
    requires f.remoteDevice.Some?
  {
    var seg := if count == 1 then Ok(apdu) else GetSegment(ContextOf(f, sap), 0);
    if seg.Err? then (Err(seg.error), f)
    else
      var f1 := Sent(f, Addr(f), seg.value);
      if Terminal(f1.state) then (Err(RuntimeError), f1)
      else if count == 1 then (Ok(()), Moved(f1, Completed, 0))
      else (Ok(()), Moved(f1, SegmentedResponse, sap.segmentTimeout))
  }

  /** `segmented_response_timeout`: the window is sent again while retries are left, else
    * the transaction is aborted. */
  function SegmentedResponseTimeoutStep(f: Fields, sap: Settings): (Result<()>, Fields)
    requires f.state == SegmentedResponse && f.segmentRetryCount.Some? && SeqNumber(f.initialSequenceNumber)
  {
    var k := f.segmentRetryCount.value;
    if k < sap.retryCount then
      FillWindowStep(f.(segmentRetryCount := Some(k + 1), timer := Some(sap.segmentTimeout)), sap,
                     f.initialSequenceNumber.value)
    else (Ok(()), Moved(f, Aborted, 0))
  }

  /** `handle_timeout`: a segmented request that stops coming is aborted; an application
    * that does not answer gets an abort for a server timeout; a segmented response is sent
    * again; a finished transaction ignores the timeout, and so does no other state. */
  function TimeoutStep(f: Fields, sap: Settings): (Result<()>, Fields)
    requires ServerInvariant(f)
  {
    match f.state
    case SegmentedRequest => (Ok(()), Moved(f, Aborted, 0))
    case AwaitResponse => (Ok(()), Aborting(f, Apdu.AbortServerTimeout, true, false))
    case SegmentedResponse => SegmentedResponseTimeoutStep(f, sap)
    case Completed => (Ok(()), f)
    case Aborted => (Ok(()), f)
    case _ => (Err(RuntimeError), f)
  }

  /** `ServerSSM`: a transaction started by a peer's confirmed request. */
  class ServerSSM {
    const ssm: SSM
    /** The cache record the transaction holds a reference to, if any. */
    const deviceRef: Option<nat>

    ghost predicate Valid()
      reads this, ssm
    {
      ServerInvariant(ssm.Snapshot())
    }

    /** A new server transaction: idle, with nothing set. Corrected to acquire the remote
      * device's cache record by its device instance, as a client transaction does, so that
      * the release at its end has a reference to give back; an unknown device holds
      * nothing. */
    constructor (sap: Settings, remoteDevice: Option<DeviceInfo>, cache: DeviceInfoCache)
      requires cache.Valid()
      modifies cache
      ensures fresh(ssm) && ssm.sap == sap && Valid()
      ensures ssm.Snapshot() == Fields(remoteDevice, None, Idle, None, None, None, None, None, None, None,
                                       None, None, None, Some(sap.maxSegmentsAccepted), None, [], [])
      ensures cache.Valid() && cache.cache == old(cache.cache)
      ensures deviceRef == (if remoteDevice.Some? then old(cache.GetDeviceInfo(IdKey(remoteDevice.value.deviceIdentifier))) else None)
      ensures deviceRef.Some? ==>
        deviceRef.value < |old(cache.records)| && old(cache.records)[deviceRef.value].refCount.Some? &&
        cache.records == Acquired(old(cache.records), deviceRef.value)
      ensures deviceRef.None? ==> cache.records == old(cache.records)
    {
      ssm := new SSM(sap, remoteDevice);
      var held: Option<nat> := None;
      if remoteDevice.Some? {
        var acquired := cache.Acquire(ByInt(remoteDevice.value.deviceIdentifier));
        held := acquired.value;
      }
      deviceRef := held;
    }

    /** `set_state`, corrected to call the cache's `release`: a finished transaction cannot
      * change state; otherwise the state changes, and on reaching COMPLETED or ABORTED the
      * record acquired at creation is released. The removal from the access point's list is
      * StateMachineAccessPoint.RemoveServer. */
    method SetState(s: State, msecs: nat, cache: DeviceInfoCache) returns (r: Result<()>)
      requires cache.Valid() && (deviceRef.Some? ==> deviceRef.value < |cache.records|)
      modifies ssm, cache
      ensures cache.Valid() && cache.cache == old(cache.cache)
      ensures Terminal(old(ssm.state)) ==>
        r == Err(RuntimeError) && ssm.Snapshot() == old(ssm.Snapshot()) && cache.records == old(cache.records)
      ensures !Terminal(old(ssm.state)) ==> ssm.Snapshot() == Moved(old(ssm.Snapshot()), s, msecs)
      ensures !Terminal(old(ssm.state)) && Terminal(s) && deviceRef.Some? ==>
        (r, cache.records) == ReleaseStep(old(cache.records), deviceRef.value)
      ensures !Terminal(old(ssm.state)) && !(Terminal(s) && deviceRef.Some?) ==>
        r == Ok(()) && cache.records == old(cache.records)
    {
      r := ssm.SetState(s, msecs);
      if r.Ok? && Terminal(s) && deviceRef.Some? {
        r := cache.Release(deviceRef.value);
      }
    }

    /** `request`: an APDU for the application comes from the peer. */
    method Request(apdu: Pdu)
      requires ssm.remoteDevice.Some?
      modifies ssm
      ensures ssm.Snapshot() == Delivered(old(ssm.Snapshot()), Addr(old(ssm.Snapshot())), apdu)
    {
      ssm.sentUp := ssm.sentUp + [ToApp(apdu, Some(ssm.remoteDevice.value.address))];
    }

    /** `response`: an APDU for the peer goes to its address. */
    method Response(apdu: Pdu)
      requires ssm.remoteDevice.Some?
      modifies ssm
      ensures ssm.Snapshot() == Sent(old(ssm.Snapshot()), Addr(old(ssm.Snapshot())), apdu)
    {
      ssm.sentDown := ssm.sentDown + [ToPeer(apdu, Some(ssm.remoteDevice.value.address))];
    }

    /** `abort(reason)`: the transaction is aborted and a server's abort APDU returned; a
      * finished transaction cannot be aborted. */
    method Abort(reason: int) returns (r: Result<Pdu>)
      modifies ssm
      ensures Terminal(old(ssm.state)) ==> r == Err(RuntimeError) && ssm.Snapshot() == old(ssm.Snapshot())
      ensures !Terminal(old(ssm.state)) ==>
        r == Ok(AbortPdu(true, old(ssm.invokeID), reason)) && ssm.Snapshot() == Moved(old(ssm.Snapshot()), Aborted, 0)
    {
      var s := ssm.SetState(Aborted, 0);
      if s.Err? {
        return Err(s.error);
      }
      r := Ok(AbortPdu(true, ssm.invokeID, reason));
    }

    method AbortAndTell(reason: int, up: bool, down: bool)
      requires !Terminal(ssm.state) && ssm.remoteDevice.Some?
      modifies ssm
      ensures ssm.Snapshot() == Aborting(old(ssm.Snapshot()), reason, up, down)
    {
      var abort := Abort(reason);
      if up {
        Request(abort.value);
      }
      if down {
        Response(abort.value);
      }
    }

    /** `indication(apdu)`. */
    method Indication(apdu: Pdu) returns (r: Result<()>)
      requires Valid()
      modifies ssm
      ensures (r, ssm.Snapshot()) == IndicationStep(old(ssm.Snapshot()), ssm.sap, apdu)
      ensures Valid()
    {
      ghost var f := ssm.Snapshot();
      r := Dispatch(apdu);
      IndicationKeepsInvariant(f, ssm.sap, apdu);
    }

    method Dispatch(apdu: Pdu) returns (r: Result<()>)
      requires Valid()
      modifies ssm
      ensures (r, ssm.Snapshot()) == IndicationStep(old(ssm.Snapshot()), ssm.sap, apdu)
    {
      match ssm.state
      case Idle => r := OnIdle(apdu);
      case SegmentedRequest => r := OnSegmentedRequest(apdu);
      case AwaitResponse => r := OnAwaitResponse(apdu);
      case SegmentedResponse => r := OnSegmentedResponse(apdu);
      case _ => r := Ok(());
    }

    method OnIdle(apdu: Pdu) returns (r: Result<()>)
      requires ssm.state == Idle
      modifies ssm
      ensures (r, ssm.Snapshot()) == IdleStep(old(ssm.Snapshot()), ssm.sap, apdu)
    {
      if !IsType(apdu, Apdu.ConfirmedRequestType) {
        return Err(RuntimeError);
      }
      ssm.invokeID := apdu.apci.apduInvokeID;
      if ssm.remoteDevice.None? {
        return Err(AttributeError);
      }
      if Flag(apdu.apci.apduSA) {
        ssm.remoteDevice := Some(Synced(ssm.remoteDevice.value));
      }
      ssm.maxSegmentsAccepted := apdu.apci.apduMaxSegs;
      r := OnRequest(apdu);
    }

    method OnRequest(apdu: Pdu) returns (r: Result<()>)
      requires ssm.state == Idle && ssm.remoteDevice.Some?
      modifies ssm
      ensures (r, ssm.Snapshot()) == RequestStep(old(ssm.Snapshot()), ssm.sap, apdu)
    {
      r := Ok(());
      if !Flag(apdu.apci.apduSeg) {
        var s := ssm.SetState(AwaitResponse, ssm.sap.applicationTimeout);
        Request(apdu);
      } else if !ReceivesSegments(ssm.sap.segmentationSupported) {
        AbortAndTell(Apdu.AbortSegmentationNotSupported, false, true);
      } else {
        ssm.segmentAPDU := Some(apdu);
        r := StartReassembly(apdu);
      }
    }

    method StartReassembly(apdu: Pdu) returns (r: Result<()>)
      requires ssm.remoteDevice.Some? && !Terminal(ssm.state)
      modifies ssm
      ensures (r, ssm.Snapshot()) == ReassemblyStep(old(ssm.Snapshot()), ssm.sap, apdu)
    {
      var w := OptMin(apdu.apci.apduWin, Some(ssm.sap.maxSegmentsAccepted));
      if w.Err? {
        return Err(w.error);
      }
      ssm.actualWindowSize := Some(w.value);
      ssm.lastSequenceNumber, ssm.initialSequenceNumber := Some(0), Some(0);
      var s := ssm.SetState(SegmentedRequest, ssm.sap.segmentTimeout);
      Response(SegmentAckPdu(false, true, ssm.invokeID, Some(0), Some(w.value)));
      r := Ok(());
    }

    method OnSegmentedRequest(apdu: Pdu) returns (r: Result<()>)
      requires ssm.state == SegmentedRequest && Receiving(ssm.Snapshot())
      modifies ssm
      ensures (r, ssm.Snapshot()) == SegmentedRequestStep(old(ssm.Snapshot()), ssm.sap, apdu)
    {
      r := Ok(());
      if IsType(apdu, Apdu.AbortType) {
        var s := ssm.SetState(Completed, 0);
        Response(apdu);
      } else if !IsType(apdu, Apdu.ConfirmedRequestType) || !Flag(apdu.apci.apduSeg) {
        AbortAndTell(Apdu.AbortInvalidApduInThisState, true, true);
      } else {
        r := TakeRequestSegment(apdu);
      }
    }

    method TakeRequestSegment(apdu: Pdu) returns (r: Result<()>)
      requires ssm.state == SegmentedRequest && Receiving(ssm.Snapshot())
      modifies ssm
      ensures (r, ssm.Snapshot()) == TakeRequestSegmentStep(old(ssm.Snapshot()), ssm.sap, apdu)
    {
      r := Ok(());
      var last := ssm.lastSequenceNumber.value;
      if apdu.apci.apduSeq != Some((last + 1) % 256) {
        ssm.StartTimer(ssm.sap.segmentTimeout);
        Response(SegmentAckPdu(true, true, ssm.invokeID, ssm.initialSequenceNumber, ssm.actualWindowSize));
        return;
      }
      var next := (last + 1) % 256;
      var ok := ssm.AppendSegment(apdu);
      ssm.lastSequenceNumber := Some(next);
      if !Flag(apdu.apci.apduMor) {
        Response(SegmentAckPdu(false, true, ssm.invokeID, Some(next), ssm.actualWindowSize));
        var s := ssm.SetState(AwaitResponse, ssm.sap.applicationTimeout);
        Request(ssm.segmentAPDU.value);
      } else if apdu.apci.apduSeq == Some((ssm.initialSequenceNumber.value + ssm.actualWindowSize.value) % 256) {
        ssm.initialSequenceNumber := Some(next);
        ssm.StartTimer(ssm.sap.segmentTimeout);
        Response(SegmentAckPdu(false, true, ssm.invokeID, Some(next), ssm.actualWindowSize));
      } else {
        ssm.StartTimer(ssm.sap.segmentTimeout);
      }
    }

    method OnAwaitResponse(apdu: Pdu) returns (r: Result<()>)
      requires ssm.state == AwaitResponse && ssm.remoteDevice.Some?
      modifies ssm
      ensures (r, ssm.Snapshot()) == AwaitResponseStep(old(ssm.Snapshot()), apdu)
    {
      r := Ok(());
      if IsType(apdu, Apdu.ConfirmedRequestType) {
      } else if IsType(apdu, Apdu.AbortType) {
        var s := ssm.SetState(Aborted, 0);
        Request(apdu);
      } else {
        r := Err(RuntimeError);
      }
    }

    method OnSegmentedResponse(apdu: Pdu) returns (r: Result<()>)
      requires ssm.state == SegmentedResponse && ssm.remoteDevice.Some?
      modifies ssm
      ensures (r, ssm.Snapshot()) == SegmentedResponseStep(old(ssm.Snapshot()), ssm.sap, apdu)
    {
      r := Ok(());
      if IsType(apdu, Apdu.SegmentAckType) {
        r := OnResponseSegmentAck(apdu);
      } else if IsType(apdu, Apdu.AbortType) {
        var s := ssm.SetState(Completed, 0);
        Response(apdu);
      } else {
        r := Err(RuntimeError);
      }
    }

    method OnResponseSegmentAck(apdu: Pdu) returns (r: Result<()>)
      requires ssm.state == SegmentedResponse
      modifies ssm
      ensures (r, ssm.Snapshot()) == ResponseSegmentAckStep(old(ssm.Snapshot()), ssm.sap, apdu)
    {
      r := Ok(());
      var inWindow := InWindow(apdu.apci.apduSeq, ssm.initialSequenceNumber, ssm.actualWindowSize);
      if inWindow.Err? {
        r := Err(inWindow.error);
      } else if !inWindow.value {
        ssm.StartTimer(ssm.sap.segmentTimeout);
      } else if Flag(ssm.sentAllSegments) {
        var s := ssm.SetState(Completed, 0);
      } else {
        ssm.actualWindowSize := apdu.apci.apduWin;
        r := ssm.SendNextWindow((apdu.apci.apduSeq.value + 1) % 256);
      }
    }

    /** `confirmation(apdu)`: the application's answer. The access point finds the
      * transaction by its remote device's address, so that device is known. */
    method Confirmation(apdu: Pdu) returns (r: Result<()>)
      requires Valid() && ssm.remoteDevice.Some?
      modifies ssm
      ensures (r, ssm.Snapshot()) == ConfirmationStep(old(ssm.Snapshot()), ssm.sap, apdu)
      ensures Valid()
    {
      ghost var f := ssm.Snapshot();
      if IsType(apdu, Apdu.AbortType) {
        r := Answer(Aborted, apdu);
      } else if IsType(apdu, Apdu.SimpleAckType) || IsType(apdu, Apdu.ErrorType) || IsType(apdu, Apdu.RejectType) {
        r := Answer(Completed, apdu);
      } else if IsType(apdu, Apdu.ComplexAckType) {
        r := OnComplexAck(apdu);
      } else {
        r := Err(RuntimeError);
      }
      ConfirmationKeepsInvariant(f, ssm.sap, apdu);
    }

    method Answer(s: State, apdu: Pdu) returns (r: Result<()>)
      requires ssm.remoteDevice.Some?
      modifies ssm
      ensures (r, ssm.Snapshot()) == AnswerStep(old(ssm.Snapshot()), s, apdu)
    {
      r := ssm.SetState(s, 0);
      if r.Ok? {
        Response(apdu);
      }
    }

    method OnComplexAck(apdu: Pdu) returns (r: Result<()>)
      requires ssm.remoteDevice.Some?
      modifies ssm
      ensures (r, ssm.Snapshot()) == ComplexAckStep(old(ssm.Snapshot()), ssm.sap, apdu)
    {
      ghost var f := ssm.Snapshot();
      var remote := ssm.remoteDevice.value;
      ssm.segmentAPDU := Some(apdu);
      ssm.segmentSize := Some(ResponseSegmentSize(remote));
      ghost var f1 := f.(segmentAPDU := Some(apdu), segmentSize := Some(ResponseSegmentSize(remote)));
      assert ssm.Snapshot() == f1;
      var n := SegmentCount(|apdu.pduData|, ssm.segmentSize.value);
      if n.Err? {
        return Err(n.error);
      }
      ssm.segmentCount := Some(n.value);
      assert ssm.Snapshot() == f1.(segmentCount := Some(n.value));
      r := OnCountedAck(apdu, n.value);
    }

    method OnCountedAck(apdu: Pdu, count: nat) returns (r: Result<()>)
      requires ssm.remoteDevice.Some?
      modifies ssm
      ensures (r, ssm.Snapshot()) == CountedAckStep(old(ssm.Snapshot()), ssm.sap, apdu, count)
    {
      var remote := ssm.remoteDevice.value;
      if count > 1 && (!TransmitsSegments(ssm.sap.segmentationSupported) || !ReceivesSegments(remote.segmentationSupported)) {
        if Terminal(ssm.state) {
          return Err(RuntimeError);
        }
        AbortAndTell(Apdu.AbortSegmentationNotSupported, false, true);
        return Ok(());
      }
      ghost var f3 := ssm.Snapshot().(segmentRetryCount := Some(0), initialSequenceNumber := Some(0),
                                      proposedWindowSize := Some(ssm.sap.maxSegmentsAccepted), actualWindowSize := Some(1));
      ssm.segmentRetryCount, ssm.initialSequenceNumber := Some(0), Some(0);
      ssm.proposedWindowSize, ssm.actualWindowSize := Some(ssm.sap.maxSegmentsAccepted), Some(1);
      assert ssm.Snapshot() == f3;
      r := SendAnswer(apdu, count);
    }

    method SendAnswer(apdu: Pdu, count: nat) returns (r: Result<()>)
      requires ssm.remoteDevice.Some?
      modifies ssm
      ensures (r, ssm.Snapshot()) == SendAnswerStep(old(ssm.Snapshot()), ssm.sap, apdu, count)
    {
      var seg := if count == 1 then Ok(apdu) else GetSegment(ssm.SegmentContext(), 0);
      if seg.Err? {
        return Err(seg.error);
      }
      Response(seg.value);
      if count == 1 {
        r := ssm.SetState(Completed, 0);
      } else {
        r := ssm.SetState(SegmentedResponse, ssm.sap.segmentTimeout);
      }
    }

    /** `handle_timeout`. */
    method HandleTimeout() returns (r: Result<()>)
      requires Valid()
      modifies ssm
      ensures (r, ssm.Snapshot()) == TimeoutStep(old(ssm.Snapshot()), ssm.sap)
      ensures Valid()
    {
      ghost var f := ssm.Snapshot();
      r := Ok(());
      match ssm.state
      case SegmentedRequest => var s := ssm.SetState(Aborted, 0);
      case AwaitResponse => AbortAndTell(Apdu.AbortServerTimeout, true, false);
      case SegmentedResponse => r := SegmentedResponseTimeout();
      case Completed =>
      case Aborted =>
      case _ => r := Err(RuntimeError);
      TimeoutKeepsInvariant(f, ssm.sap);
    }

    method SegmentedResponseTimeout() returns (r: Result<()>)
      requires ssm.state == SegmentedResponse && ssm.segmentRetryCount.Some? && SeqNumber(ssm.initialSequenceNumber)
      modifies ssm
      ensures (r, ssm.Snapshot()) == SegmentedResponseTimeoutStep(old(ssm.Snapshot()), ssm.sap)
    {
      var k := ssm.segmentRetryCount.value;
      if k < ssm.sap.retryCount {
        ssm.segmentRetryCount := Some(k + 1);
        ssm.StartTimer(ssm.sap.segmentTimeout);
        r := ssm.FillWindow(ssm.initialSequenceNumber.value);
      } else {
        r := ssm.SetState(Aborted, 0);
      }
    }
  }

  lemma IndicationKeepsInvariant(f: Fields, sap: Settings, apdu: Pdu)
    requires ServerInvariant(f)
    ensures ServerInvariant(IndicationStep(f, sap, apdu).1)
  {
    match f.state
    case Idle =>
    case SegmentedRequest =>
    case AwaitResponse =>
    case SegmentedResponse => SegmentedResponseKeepsInvariant(f, sap, apdu);
    case _ =>
  }

  lemma SegmentedResponseKeepsInvariant(f: Fields, sap: Settings, apdu: Pdu)
    requires ServerInvariant(f) && f.state == SegmentedResponse
    ensures ServerInvariant(SegmentedResponseStep(f, sap, apdu).1)
  {
    if IsType(apdu, Apdu.SegmentAckType) {
      var inWindow := InWindow(apdu.apci.apduSeq, f.initialSequenceNumber, f.actualWindowSize);
      if inWindow.Ok? && inWindow.value && !Flag(f.sentAllSegments) {
        var start := (apdu.apci.apduSeq.value + 1) % 256;
        FillWindowKeeps(f.(actualWindowSize := apdu.apci.apduWin, initialSequenceNumber := Some(start),
                           segmentRetryCount := Some(0)), sap, start);
      }
    }
  }

  /** Filling a window changes only what was sent and whether all of it was. */
  lemma FillWindowKeeps(f: Fields, sap: Settings, seqNum: nat)
    ensures var g := FillWindowStep(f, sap, seqNum).1;
      g == f.(sentDown := g.sentDown, sentAllSegments := g.sentAllSegments)
  {
  }

  lemma ConfirmationKeepsInvariant(f: Fields, sap: Settings, apdu: Pdu)
    requires ServerInvariant(f) && f.remoteDevice.Some?
    ensures ServerInvariant(ConfirmationStep(f, sap, apdu).1)
  {
  }

  lemma TimeoutKeepsInvariant(f: Fields, sap: Settings)
    requires ServerInvariant(f)
    ensures ServerInvariant(TimeoutStep(f, sap).1)
  {
    if f.state == SegmentedResponse {
      var k := f.segmentRetryCount.value;
      FillWindowKeeps(f.(segmentRetryCount := Some(k + 1), timer := Some(sap.segmentTimeout)), sap,
                      f.initialSequenceNumber.value);
    }
  }
}

module ServerSsmProperties {
  import opened Wrappers
  import opened Addresses
  import opened DeviceInfos
  import opened Ssm
  import opened ServerSsm
  import Apdu

  /** As written, every transition to COMPLETED or ABORTED fails once the state has
    * changed, while the transaction with the device information left alone ends cleanly. */
  lemma ReleaseFails(f: Fields, s: State, msecs: nat)
    requires !Terminal(f.state) && Terminal(s)
    ensures SetStateAsWritten(f, s, msecs) == (Err(AttributeError), Moved(f, s, msecs))
    ensures AnswerStep(f.(remoteDevice := Some(NewDeviceInfo(0, GlobalBroadcast))), s,
                       AbortPdu(true, f.invokeID, Apdu.AbortOther)).0 == Ok(())
  {
  }

  /** As written, no complex ack can be answered to a device whose largest NPDU is unknown,
    * as it is for every record the cache makes; the segment size falls back to the largest
    * APDU the device accepts. */
  lemma UnknownNpduLength(id: int, a: Address)
    ensures ResponseSegmentSizeAsWritten(NewDeviceInfo(id, a)) == Err(TypeError)
    ensures ResponseSegmentSize(NewDeviceInfo(id, a)) == 1024
  {
  }

  /** `idle`: a confirmed request from an unknown device fails; from a known one it keeps
    * its invoke ID and, with the segmented-response-accepted flag, the device is taken to
    * receive segments; an unsegmented request goes to the application; a segmented one the
    * local device cannot take is aborted to the peer; else the first segment is acked with
    * the smaller window. */
  lemma IdleOutcome(f: Fields, sap: Settings, apdu: Pdu)
    requires ServerInvariant(f) && f.state == Idle && IsType(apdu, Apdu.ConfirmedRequestType)
    ensures var (r, g) := IndicationStep(f, sap, apdu);
      g.invokeID == apdu.apci.apduInvokeID &&
      (f.remoteDevice.None? ==> r == Err(AttributeError) && g.sentDown == f.sentDown && g.sentUp == f.sentUp) &&
      (f.remoteDevice.Some? ==>
        g.remoteDevice.Some? && g.remoteDevice.value.address == f.remoteDevice.value.address &&
        (Flag(apdu.apci.apduSA) ==> ReceivesSegments(g.remoteDevice.value.segmentationSupported)) &&
        g.maxSegmentsAccepted == apdu.apci.apduMaxSegs) &&
      (f.remoteDevice.Some? && !Flag(apdu.apci.apduSeg) ==>
        r == Ok(()) && g.state == AwaitResponse && g.timer == Timer(sap.applicationTimeout) &&
        g.sentUp == f.sentUp + [ToApp(apdu, Addr(f))] && g.sentDown == f.sentDown) &&
      (f.remoteDevice.Some? && Flag(apdu.apci.apduSeg) && !ReceivesSegments(sap.segmentationSupported) ==>
        r == Ok(()) && g.state == Aborted && g.sentUp == f.sentUp &&
        g.sentDown == f.sentDown + [ToPeer(AbortPdu(true, apdu.apci.apduInvokeID, Apdu.AbortSegmentationNotSupported), Addr(f))]) &&
      (f.remoteDevice.Some? && Flag(apdu.apci.apduSeg) && ReceivesSegments(sap.segmentationSupported) ==>
        (apdu.apci.apduWin.None? <==> r == Err(TypeError)) &&
        (apdu.apci.apduWin.Some? ==>
          r == Ok(()) && g.state == SegmentedRequest && g.segmentAPDU == Some(apdu) &&
          g.actualWindowSize == Some(Min(apdu.apci.apduWin.value, sap.maxSegmentsAccepted)) &&
          g.lastSequenceNumber == Some(0) && g.sentUp == f.sentUp &&
          g.sentDown == f.sentDown + [ToPeer(SegmentAckPdu(false, true, apdu.apci.apduInvokeID, Some(0), g.actualWindowSize), Addr(f))]))
  {
  }

  /** `await_response`: the peer repeating its request changes nothing; its abort aborts the
    * transaction and reaches the application. */
  lemma AwaitResponseOutcome(f: Fields, sap: Settings, apdu: Pdu)
    requires ServerInvariant(f) && f.state == AwaitResponse
    ensures IsType(apdu, Apdu.ConfirmedRequestType) ==> IndicationStep(f, sap, apdu) == (Ok(()), f)
    ensures IsType(apdu, Apdu.AbortType) ==>
      var (r, g) := IndicationStep(f, sap, apdu);
      r == Ok(()) && g.state == Aborted && g.sentUp == f.sentUp + [ToApp(apdu, Addr(f))] && g.sentDown == f.sentDown
  {
  }

  /** The application's simple answer ends a live transaction, an abort in ABORTED and the
    * rest in COMPLETED, and goes to the peer; a finished transaction refuses it. */
  lemma SimpleAnswerOutcome(f: Fields, sap: Settings, apdu: Pdu)
    requires ServerInvariant(f) && f.remoteDevice.Some?
    requires IsType(apdu, Apdu.AbortType) || IsType(apdu, Apdu.SimpleAckType) ||
             IsType(apdu, Apdu.ErrorType) || IsType(apdu, Apdu.RejectType)
    ensures var (r, g) := ConfirmationStep(f, sap, apdu);
      (Terminal(f.state) <==> r == Err(RuntimeError)) &&
      (Terminal(f.state) ==> g == f) &&
      (!Terminal(f.state) ==>
        g.state == (if IsType(apdu, Apdu.AbortType) then Aborted else Completed) &&
        g.sentDown == f.sentDown + [ToPeer(apdu, Addr(f))] && g.sentUp == f.sentUp)
  {
  }

  /** A complex ack that fits in one segment goes to the peer whole and completes the
    * transaction. */
  lemma SmallAnswerSentWhole(f: Fields, sap: Settings, apdu: Pdu)
    requires ServerInvariant(f) && f.remoteDevice.Some? && !Terminal(f.state)
    requires IsType(apdu, Apdu.ComplexAckType)
    requires |apdu.pduData| <= ResponseSegmentSize(f.remoteDevice.value)
    ensures var (r, g) := ConfirmationStep(f, sap, apdu);
      r == Ok(()) && g.state == Completed && g.segmentAPDU == Some(apdu) &&
      g.sentDown == f.sentDown + [ToPeer(apdu, Addr(f))] && g.sentUp == f.sentUp
  {
    var size := ResponseSegmentSize(f.remoteDevice.value);
    var len := |apdu.pduData|;
    if len > 0 {
      assert len / size <= 1 && (len / size == 1 ==> len % size == 0);
    }
    assert SegmentCount(len, size) == Ok(1);
  }

  /** A segment ack of the response in the window, while segments remain, sends the next
    * window: exactly the segments that follow the acknowledged one, in order. */
  lemma ResponseAckSendsNext(f: Fields, sap: Settings, apdu: Pdu)
    requires ServerInvariant(f) && f.state == SegmentedResponse && !Flag(f.sentAllSegments)
    requires IsType(apdu, Apdu.SegmentAckType) && apdu.apci.apduWin.Some?
    requires InWindow(apdu.apci.apduSeq, f.initialSequenceNumber, f.actualWindowSize) == Ok(true)
    ensures var start := (apdu.apci.apduSeq.value + 1) % 256;
      var (r, g) := IndicationStep(f, sap, apdu);
      g.state == SegmentedResponse && g.initialSequenceNumber == Some(start) &&
      g.actualWindowSize == apdu.apci.apduWin && g.segmentRetryCount == Some(0) &&
      |g.sentDown| >= |f.sentDown| && g.sentDown[..|f.sentDown|] == f.sentDown &&
      var out := g.sentDown[|f.sentDown|..];
      Window(ContextOf(f, sap), start, out) &&
      |out| <= (if apdu.apci.apduWin.value < 0 then 0 else apdu.apci.apduWin.value) &&
      (r.Ok? ==> g.timer == Some(sap.segmentTimeout)) &&
      (r.Err? ==> GetSegment(ContextOf(f, sap), start + |out|) == Err(r.error))
  {
    var start := (apdu.apci.apduSeq.value + 1) % 256;
    var f1 := f.(actualWindowSize := apdu.apci.apduWin, initialSequenceNumber := Some(start), segmentRetryCount := Some(0));
    assert ContextOf(f1, sap) == ContextOf(f, sap);
    FillIsWindow(ContextOf(f, sap), start, apdu.apci.apduWin.value);
    var fill := Fill(ContextOf(f, sap), start, apdu.apci.apduWin.value);
    assert (f.sentDown + fill.0)[..|f.sentDown|] == f.sentDown;
    assert (f.sentDown + fill.0)[|f.sentDown|..] == fill.0;
  }

  /** The response is sent again at most `retryCount` times: each timeout with retries left
    * counts one more and sends the window again from its first segment; the timeout after
    * the last retry aborts the transaction, sending nothing. */
  lemma ResponseRetriesBounded(f: Fields, sap: Settings)
    requires ServerInvariant(f) && f.state == SegmentedResponse
    ensures var (r, g) := TimeoutStep(f, sap);
      (f.segmentRetryCount.value >= sap.retryCount ==>
        r == Ok(()) && g.state == Aborted && g.sentDown == f.sentDown && g.sentUp == f.sentUp) &&
      (f.segmentRetryCount.value < sap.retryCount ==>
        g.state == SegmentedResponse && g.segmentRetryCount == Some(f.segmentRetryCount.value + 1) &&
        |g.sentDown| >= |f.sentDown| && g.sentDown[..|f.sentDown|] == f.sentDown &&
        (f.actualWindowSize.Some? ==>
          Window(ContextOf(f, sap), f.initialSequenceNumber.value, g.sentDown[|f.sentDown|..])))
  {
    var k := f.segmentRetryCount.value;
    if k < sap.retryCount && f.actualWindowSize.Some? {
      var start := f.initialSequenceNumber.value;
      FillIsWindow(ContextOf(f, sap), start, f.actualWindowSize.value);
      var fill := Fill(ContextOf(f, sap), start, f.actualWindowSize.value);
      assert (f.sentDown + fill.0)[..|f.sentDown|] == f.sentDown;
      assert (f.sentDown + fill.0)[|f.sentDown|..] == fill.0;
    }
  }

  /** The APDUs `apdus` from the peer handled one after the other, until one fails. */
  function Receive(f: Fields, sap: Settings, apdus: seq<Pdu>): (Result<()>, Fields)
    requires ServerInvariant(f)
    decreases |apdus|
  {
    if |apdus| == 0 then (Ok(()), f)
    else
      var step := IndicationStep(f, sap, apdus[0]);
      IndicationKeepsInvariant(f, sap, apdus[0]);
      if step.0.Err? then step else Receive(step.1, sap, apdus[1..])
  }

  /** Reassembly: receiving the remaining segments of a segmented request in order makes
    * the transaction await the response; the application gets the request whose octets are
    * those of the first segment followed by those of every later segment, in order, and the
    * last segment sent to the peer is the final ack of the last segment. */
  lemma {:induction false} RequestReassemblyInOrder(f: Fields, sap: Settings, apdus: seq<Pdu>)
    requires ServerInvariant(f) && f.state == SegmentedRequest
    requires |apdus| > 0 && InOrder(apdus, f.lastSequenceNumber.value, Apdu.ConfirmedRequestType)
    ensures var (r, g) := Receive(f, sap, apdus);
      var whole := f.segmentAPDU.value.(pduData := f.segmentAPDU.value.pduData + Octets(apdus));
      r == Ok(()) && g.state == AwaitResponse && g.segmentAPDU == Some(whole) &&
      g.sentUp == f.sentUp + [ToApp(whole, Addr(f))] &&
      |g.sentDown| > 0 &&
      g.sentDown[|g.sentDown| - 1] ==
        ToPeer(SegmentAckPdu(false, true, f.invokeID, Some((f.lastSequenceNumber.value + |apdus|) % 256), f.actualWindowSize), Addr(f))
    decreases |apdus|
  {
    if |apdus| == 1 {
      RequestReassemblyLast(f, sap, apdus);
    } else {
      var a := apdus[0];
      var ctx := f.segmentAPDU.value;
      var last := f.lastSequenceNumber.value;
      assert a.apci.apduSeq == Some((last + 1) % 256);
      var g := MidRequestSegment(f, sap, a);
      var rest := apdus[1..];
      ReceiveStep(f, sap, apdus, g);
      InOrderRest(apdus, last, Apdu.ConfirmedRequestType);
      RequestReassemblyInOrder(g, sap, rest);
      ModShift(last + 1, |rest|);
      assert Octets(apdus) == a.pduData + Octets(rest);
      assert (ctx.pduData + a.pduData) + Octets(rest) == ctx.pduData + Octets(apdus);
    }
  }

  /** The last segment alone completes the request. */
  lemma RequestReassemblyLast(f: Fields, sap: Settings, apdus: seq<Pdu>)
    requires ServerInvariant(f) && f.state == SegmentedRequest
    requires |apdus| == 1 && InOrder(apdus, f.lastSequenceNumber.value, Apdu.ConfirmedRequestType)
    ensures var (r, g) := Receive(f, sap, apdus);
      var whole := f.segmentAPDU.value.(pduData := f.segmentAPDU.value.pduData + Octets(apdus));
      r == Ok(()) && g.state == AwaitResponse && g.segmentAPDU == Some(whole) &&
      g.sentUp == f.sentUp + [ToApp(whole, Addr(f))] &&
      |g.sentDown| > 0 &&
      g.sentDown[|g.sentDown| - 1] ==
        ToPeer(SegmentAckPdu(false, true, f.invokeID, Some((f.lastSequenceNumber.value + |apdus|) % 256), f.actualWindowSize), Addr(f))
  {
    var a := apdus[0];
    var last := f.lastSequenceNumber.value;
    assert a.apci.apduSeq == Some((last + 1) % 256);
    assert Octets(apdus) == a.pduData + Octets(apdus[1..]);
    assert Octets(apdus[1..]) == [];
    LastRequestSegment(f, sap, a);
    ReceiveStep(f, sap, apdus, IndicationStep(f, sap, a).1);
    assert Octets(apdus) == a.pduData;
  }

  /** An APDU that is handled without error passes the rest on to the state it leaves. */
  lemma ReceiveStep(f: Fields, sap: Settings, apdus: seq<Pdu>, g: Fields)
    requires ServerInvariant(f) && |apdus| > 0 && IndicationStep(f, sap, apdus[0]) == (Ok(()), g)
    ensures ServerInvariant(g) && Receive(f, sap, apdus) == Receive(g, sap, apdus[1..])
  {
    IndicationKeepsInvariant(f, sap, apdus[0]);
  }

  lemma LastRequestSegment(f: Fields, sap: Settings, a: Pdu)
    requires ServerInvariant(f) && f.state == SegmentedRequest
    requires IsType(a, Apdu.ConfirmedRequestType) && Flag(a.apci.apduSeg) && !Flag(a.apci.apduMor)
    requires a.apci.apduSeq == Some((f.lastSequenceNumber.value + 1) % 256)
    ensures var whole := f.segmentAPDU.value.(pduData := f.segmentAPDU.value.pduData + a.pduData);
      var (r, g) := IndicationStep(f, sap, a);
      r == Ok(()) && g.state == AwaitResponse && g.segmentAPDU == Some(whole) &&
      g.sentUp == f.sentUp + [ToApp(whole, Addr(f))] &&
      g.sentDown == f.sentDown +
        [ToPeer(SegmentAckPdu(false, true, f.invokeID, Some((f.lastSequenceNumber.value + 1) % 256), f.actualWindowSize), Addr(f))] &&
      Receive(g, sap, []) == (r, g)
  {
  }

  lemma MidRequestSegment(f: Fields, sap: Settings, a: Pdu) returns (g: Fields)
    requires ServerInvariant(f) && f.state == SegmentedRequest
    requires IsType(a, Apdu.ConfirmedRequestType) && Flag(a.apci.apduSeg) && Flag(a.apci.apduMor)
    requires a.apci.apduSeq == Some((f.lastSequenceNumber.value + 1) % 256)
    ensures IndicationStep(f, sap, a) == (Ok(()), g)
    ensures ServerInvariant(g) && g.state == SegmentedRequest
    ensures g.remoteDevice == f.remoteDevice && g.invokeID == f.invokeID && g.actualWindowSize == f.actualWindowSize
    ensures g.lastSequenceNumber == Some((f.lastSequenceNumber.value + 1) % 256)
    ensures g.segmentAPDU == Some(f.segmentAPDU.value.(pduData := f.segmentAPDU.value.pduData + a.pduData))
    ensures g.sentUp == f.sentUp
  {
    g := IndicationStep(f, sap, a).1;
  }

  /** A server transaction gives back the reference it takes: made and then finished, it
    * releases without error and leaves every reference count and the cache's keys as they
    * were. */
  method TransactionLifeBalances(sap: Settings, remoteDevice: Option<DeviceInfo>, cache: DeviceInfoCache, s: State, msecs: nat)
    returns (r: Result<()>)
    requires cache.Valid() && Terminal(s)
    modifies cache
    ensures r == Ok(()) && cache.records == old(cache.records) && cache.cache == old(cache.cache)
  {
    var t := new ServerSSM(sap, remoteDevice, cache);
    if t.deviceRef.Some? {
      AcquireReleaseBalance(old(cache.records), t.deviceRef.value);
    }
    r := t.SetState(s, msecs, cache);
  }
}
