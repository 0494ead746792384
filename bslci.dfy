/** The BACnet Streaming Link Control Information (`bacpypes/bsll/bslci.py`): the type octet
  * 0x83, the function, and the length of the whole BSLL message. */
module Bslci {
  import opened Wrappers
  import opened Bytes
  import opened PduData

  /** The type octet of the streaming link layer. */
  const BsllType := 0x83

  // BSLCI function codes
  const BsllResult := 0x00
  const ServiceRequest := 0x01
  const AccessRequest := 0x02
  const AccessChallenge := 0x03
  const AccessResponse := 0x04
  const DeviceToDeviceAPDU := 0x05
  const RouterToRouterNPDU := 0x06
  const ProxyToServerUnicastNPDU := 0x07
  const ProxyToServerBroadcastNPDU := 0x08
  const ServerToProxyUnicastNPDU := 0x09
  const ServerToProxyBroadcastNPDU := 0x0A
  const ClientToLESUnicastNPDU := 0x0B
  const ClientToLESBroadcastNPDU := 0x0C
  const LESToClientUnicastNPDU := 0x0D
  const LESToClientBroadcastNPDU := 0x0E
  const ClientToServerUnicastAPDU := 0x0F
  const ClientToServerBroadcastAPDU := 0x10
  const ServerToClientUnicastAPDU := 0x11
  const ServerToClientBroadcastAPDU := 0x12

  datatype BslciFields = BslciFields(bslciType: int, bslciFunction: Option<int>, bslciLength: Option<int>)

  /** A fresh BSLCI: type 0x83, no function, no length. */
  const Fresh := BslciFields(BsllType, None, None)

  /** `encode` of the header in front of `dataLen` octets of data: the type, the function,
    * then the length, which must be the data length plus the four header octets. */
  function EncodeBslci(f: BslciFields, dataLen: nat): (r: Result<seq<byte>>)
    ensures IsOctet(Some(f.bslciType)) && IsOctet(f.bslciFunction) ==>
      (r.Ok? <==> f.bslciLength == Some(dataLen + 4))
    ensures IsOctet(Some(f.bslciType)) && IsOctet(f.bslciFunction) && r.Err? ==> r.error == EncodingError
    ensures r.Ok? ==>
      |r.value| == 4 && r.value[0] == f.bslciType && Some(r.value[1] as int) == f.bslciFunction &&
      ShortValue(r.value[2..]) == (dataLen + 4) % ShortMask
  {
    var t :- Octet(Some(f.bslciType));
    var fn :- Octet(f.bslciFunction);
    if f.bslciLength != Some(dataLen + 4) then Err(EncodingError)
    else Ok([t, fn] + Short(dataLen + 4))
  }

  /** `decode` of the header: the type must be 0x83 and the length must count the header
    * and every octet after it. */
  function DecodeBslci(s: seq<byte>): (r: Result<(BslciFields, seq<byte>)>)
    ensures r.Ok? <==> |s| >= 4 && s[0] == BsllType && ShortValue(s[2..4]) == |s|
    ensures r.Err? ==> r.error == DecodingError
    ensures r.Ok? ==> r.value == (BslciFields(BsllType, Some(s[1] as int), Some(|s|)), s[4..])
  {
    var t :- Take(s);
    if t.0 != BsllType then Err(DecodingError)
    else
      var fn :- Take(t.1);
      var len :- TakeShort(fn.1);
      assert s[2..4] == Short(len.0) by {
        assert s == [t.0, fn.0] + Short(len.0) + len.1;
      }
      ShortOfValue(s[2..4]);
      if len.0 != |len.1| + 4 then Err(DecodingError)
      else Ok((BslciFields(BsllType, Some(fn.0 as int), Some(len.0)), len.1))
  }

  /** Decoding a header `encode` wrote in front of its data gives back the fields and the
    * data, as long as the length fits its 16 bits. */
  lemma BslciRoundTrip(fn: byte, data: seq<byte>)
    requires |data| + 4 < ShortMask
    ensures var f := BslciFields(BsllType, Some(fn as int), Some(|data| + 4));
      EncodeBslci(f, |data|).Ok? && DecodeBslci(EncodeBslci(f, |data|).value + data) == Ok((f, data))
  {
    var f := BslciFields(BsllType, Some(fn as int), Some(|data| + 4));
    var s := EncodeBslci(f, |data|).value + data;
    assert s[2..4] == Short(|data| + 4);
    assert s[4..] == data;
  }

  /** `BSLCI.encode`. */
  method PutBslci(pdu: PDUData, f: BslciFields, dataLen: nat) returns (r: Result<()>)
    modifies pdu
    ensures Wrote(EncodeBslci(f, dataLen), r, old(pdu.data), pdu.data)
  {
    r := pdu.Put(f.bslciType);
    if r.Err? {
      return;
    }
    r := PutField(pdu, f.bslciFunction);
    if r.Err? {
      return;
    }
    if f.bslciLength != Some(dataLen + 4) {
      return Err(EncodingError);
    }
    pdu.PutShort(f.bslciLength.value);
  }

  /** `BSLCI.decode`. */
  method GetBslci(pdu: PDUData) returns (r: Result<BslciFields>)
    modifies pdu
    ensures Took(DecodeBslci(old(pdu.data)), r, pdu.data)
  {
    var t := pdu.Get();
    if t.Err? {
      return Err(t.error);
    }
    if t.value != BsllType {
      return Err(DecodingError);
    }
    var fn := pdu.Get();
    if fn.Err? {
      return Err(fn.error);
    }
    var len := pdu.GetShort();
    if len.Err? {
      return Err(len.error);
    }
    if len.value != |pdu.data| + 4 {
      return Err(DecodingError);
    }
    r := Ok(BslciFields(BsllType, Some(fn.value as int), Some(len.value)));
  }
}
