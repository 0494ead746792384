/** The BACnet Virtual Link Control Information of BACnet/IP (ASHRAE 135 Annex J.2): the
  * type octet 0x81, the function, and the length of the whole BVLL message
  * (`bacpypes/bvll/bvlci.py`). */
module Bvlci {
  import opened Wrappers
  import opened Bytes
  import opened PduData

  /** The type octet of BACnet/IP. */
  const BvllType := 0x81

  // BVLC function codes
  const BvlcResult := 0x00
  const WriteBroadcastDistributionTable := 0x01
  const ReadBroadcastDistributionTable := 0x02
  const ReadBroadcastDistributionTableAck := 0x03
  const ForwardedNPDU := 0x04
  const RegisterForeignDevice := 0x05
  const ReadForeignDeviceTable := 0x06
  const ReadForeignDeviceTableAck := 0x07
  const DeleteForeignDeviceTableEntry := 0x08
  const DistributeBroadcastToNetwork := 0x09
  const OriginalUnicastNPDU := 0x0A
  const OriginalBroadcastNPDU := 0x0B

  datatype BvlciFields = BvlciFields(bvlciType: int, bvlciFunction: Option<int>, bvlciLength: Option<int>)

  /** A fresh BVLCI: type 0x81, no function, no length. */
  const Fresh := BvlciFields(BvllType, None, None)

  /** `encode` of the header in front of `dataLen` octets of data: the type, the function,
    * then the length, which must be the data length plus the four header octets. */
  function EncodeBvlci(f: BvlciFields, dataLen: nat): (r: Result<seq<byte>>)
    ensures IsOctet(Some(f.bvlciType)) && IsOctet(f.bvlciFunction) ==>
      (r.Ok? <==> f.bvlciLength == Some(dataLen + 4))
    ensures IsOctet(Some(f.bvlciType)) && IsOctet(f.bvlciFunction) && r.Err? ==> r.error == EncodingError
    ensures r.Ok? ==>
      |r.value| == 4 && r.value[0] == f.bvlciType && Some(r.value[1] as int) == f.bvlciFunction &&
      ShortValue(r.value[2..]) == (dataLen + 4) % ShortMask
  {
    var t :- Octet(Some(f.bvlciType));
    var fn :- Octet(f.bvlciFunction);
    if f.bvlciLength != Some(dataLen + 4) then Err(EncodingError)
    else Ok([t, fn] + Short(dataLen + 4))
  }

  /** `decode` of the header: the type must be 0x81 and the length must count the header
    * and every octet after it. */
  function DecodeBvlci(s: seq<byte>): (r: Result<(BvlciFields, seq<byte>)>)
    ensures r.Ok? <==> |s| >= 4 && s[0] == BvllType && ShortValue(s[2..4]) == |s|
    ensures r.Err? ==> r.error == DecodingError
    ensures r.Ok? ==> r.value == (BvlciFields(BvllType, Some(s[1] as int), Some(|s|)), s[4..])
  {
    var t :- Take(s);
    if t.0 != BvllType then Err(DecodingError)
    else
      var fn :- Take(t.1);
      var len :- TakeShort(fn.1);
      assert s[2..4] == Short(len.0) by {
        assert s == [t.0, fn.0] + Short(len.0) + len.1;
      }
      ShortOfValue(s[2..4]);
      if len.0 != |len.1| + 4 then Err(DecodingError)
      else Ok((BvlciFields(BvllType, Some(fn.0 as int), Some(len.0)), len.1))
  }

  /** Decoding a header `encode` wrote in front of its data gives back the fields and the
    * data, as long as the length fits its 16 bits. */
  lemma BvlciRoundTrip(fn: byte, data: seq<byte>)
    requires |data| + 4 < ShortMask
    ensures var f := BvlciFields(BvllType, Some(fn as int), Some(|data| + 4));
      EncodeBvlci(f, |data|).Ok? && DecodeBvlci(EncodeBvlci(f, |data|).value + data) == Ok((f, data))
  {
    var f := BvlciFields(BvllType, Some(fn as int), Some(|data| + 4));
    var s := EncodeBvlci(f, |data|).value + data;
    assert s[2..4] == Short(|data| + 4);
    assert s[4..] == data;
  }

  /** A length that does not fit 16 bits is masked by `put_short`, and `decode` then
    * rejects what `encode` wrote. */
  lemma BvlciLengthWraps(fn: byte, data: seq<byte>)
    requires |data| + 4 >= ShortMask
    ensures var f := BvlciFields(BvllType, Some(fn as int), Some(|data| + 4));
      EncodeBvlci(f, |data|).Ok? && DecodeBvlci(EncodeBvlci(f, |data|).value + data) == Err(DecodingError)
  {
    var f := BvlciFields(BvllType, Some(fn as int), Some(|data| + 4));
    var s := EncodeBvlci(f, |data|).value + data;
    assert s[2..4] == Short(|data| + 4);
  }

  /** `BVLCI.encode`. */
  method PutBvlci(pdu: PDUData, f: BvlciFields, dataLen: nat) returns (r: Result<()>)
    modifies pdu
    ensures Wrote(EncodeBvlci(f, dataLen), r, old(pdu.data), pdu.data)
  {
    r := pdu.Put(f.bvlciType);
    if r.Err? {
      return;
    }
    r := PutField(pdu, f.bvlciFunction);
    if r.Err? {
      return;
    }
    if f.bvlciLength != Some(dataLen + 4) {
      return Err(EncodingError);
    }
    pdu.PutShort(f.bvlciLength.value);
  }

  /** `BVLCI.decode`. */
  method GetBvlci(pdu: PDUData) returns (r: Result<BvlciFields>)
    modifies pdu
    ensures Took(DecodeBvlci(old(pdu.data)), r, pdu.data)
  {
    var t := pdu.Get();
    if t.Err? {
      return Err(t.error);
    }
    if t.value != BvllType {
      return Err(DecodingError);
    }
    var fn := pdu.Get();
    if fn.Err? {
      return Err(fn.error);
    }
    var len := pdu.GetShort();
    if len.Err? {
      return Err(len.error);
    }
    if len.value != |pdu.data| + 4 {
      return Err(DecodingError);
    }
    r := Ok(BvlciFields(BvllType, Some(fn.value as int), Some(len.value)));
  }
}
