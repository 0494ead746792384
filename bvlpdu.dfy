/** The BVLL messages of BACnet/IP (ASHRAE 135 Annex J.2): their bodies, the length each
  * message class puts in its header, and the BVLPDU that carries them
  * (`bacpypes/bvll/bvlpdu.py`). */
module Bvlpdu {
  import opened Wrappers
  import opened Bytes
  import opened PduData
  import opened Addresses
  import Bvlci

  /** A broadcast distribution table entry: a B/IP address and its broadcast mask. */
  datatype BdtEntry = BdtEntry(bdtAddress: Address, addrMask: int)

  /** A foreign device table entry: a B/IP address, its time-to-live and the seconds left. */
  datatype FdtEntry = FdtEntry(fdAddress: Address, fdTTL: int, fdRemain: int)

  /** The BVLL messages with the body fields of each class (`Result` is `BvlcResult`). An
    * address argument left at its default is `None`. */
  datatype BvllMessage =
    | BvlcResult(bvlciResultCode: Option<int>)
    | WriteBroadcastDistributionTable(bvlciBDT: seq<BdtEntry>)
    | ReadBroadcastDistributionTable
    | ReadBroadcastDistributionTableAck(bvlciBDT: seq<BdtEntry>)
    | ForwardedNPDU(bvlciAddress: Option<Address>, pduData: seq<byte>)
    | RegisterForeignDevice(bvlciTimeToLive: Option<int>)
    | ReadForeignDeviceTable
    | ReadForeignDeviceTableAck(bvlciFDT: seq<FdtEntry>)
    | DeleteForeignDeviceTableEntry(bvlciAddress: Option<Address>)
    | DistributeBroadcastToNetwork(pduData: seq<byte>)
    | OriginalUnicastNPDU(pduData: seq<byte>)
    | OriginalBroadcastNPDU(pduData: seq<byte>)

  /** The class attribute `messageType`, which is also the BVLC function. */
  function MessageType(m: BvllMessage): byte
  {
    match m
    case BvlcResult(_) => Bvlci.BvlcResult
    case WriteBroadcastDistributionTable(_) => Bvlci.WriteBroadcastDistributionTable
    case ReadBroadcastDistributionTable => Bvlci.ReadBroadcastDistributionTable
    case ReadBroadcastDistributionTableAck(_) => Bvlci.ReadBroadcastDistributionTableAck
    case ForwardedNPDU(_, _) => Bvlci.ForwardedNPDU
    case RegisterForeignDevice(_) => Bvlci.RegisterForeignDevice
    case ReadForeignDeviceTable => Bvlci.ReadForeignDeviceTable
    case ReadForeignDeviceTableAck(_) => Bvlci.ReadForeignDeviceTableAck
    case DeleteForeignDeviceTableEntry(_) => Bvlci.DeleteForeignDeviceTableEntry
    case DistributeBroadcastToNetwork(_) => Bvlci.DistributeBroadcastToNetwork
    case OriginalUnicastNPDU(_) => Bvlci.OriginalUnicastNPDU
    case OriginalBroadcastNPDU(_) => Bvlci.OriginalBroadcastNPDU
  }

  /** The `bvlciLength` each class sets, in its constructor or in `encode`: the four header
    * octets, ten per table entry, six for an address, and the NPDU. */
  function MessageLength(m: BvllMessage): nat
  {
    match m
    case BvlcResult(_) => 6
    case WriteBroadcastDistributionTable(bdt) => 4 + 10 * |bdt|
    case ReadBroadcastDistributionTable => 4
    case ReadBroadcastDistributionTableAck(bdt) => 4 + 10 * |bdt|
    case ForwardedNPDU(_, data) => 10 + |data|
    case RegisterForeignDevice(_) => 6
    case ReadForeignDeviceTable => 4
    case ReadForeignDeviceTableAck(fdt) => 4 + 10 * |fdt|
    case DeleteForeignDeviceTableEntry(_) => 10
    case DistributeBroadcastToNetwork(data) => 4 + |data|
    case OriginalUnicastNPDU(data) => 4 + |data|
    case OriginalBroadcastNPDU(data) => 4 + |data|
  }

  /** The header fields a message copies into the BVLPDU it is encoded into. */
  function MessageFields(m: BvllMessage): Bvlci.BvlciFields
  {
    Bvlci.BvlciFields(Bvlci.BvllType, Some(MessageType(m) as int), Some(MessageLength(m)))
  }

  // ---------------------------------------------------------------------------------
  // Encoding the bodies

  /** `put_data(a.addrAddr)`: an address without octets is a TypeError. */
  function AddrOctets(a: Address): Result<seq<byte>>
  {
    if a.addrAddr.None? then Err(TypeError) else Ok(a.addrAddr.value)
  }

  /** An optional address argument: `None` has no `addrAddr`. */
  function OptionalAddrOctets(a: Option<Address>): Result<seq<byte>>
  {
    if a.None? then Err(AttributeError) else AddrOctets(a.value)
  }

  function EncodeBdtEntry(e: BdtEntry): Result<seq<byte>>
  {
    var a :- AddrOctets(e.bdtAddress);
    Ok(a + Long(e.addrMask))
  }

  /** The entries of a broadcast distribution table, in order. */
  function EncodeBdt(t: seq<BdtEntry>): Result<seq<byte>>
  {
    if |t| == 0 then Ok([])
    else
      var front :- EncodeBdt(t[..|t| - 1]);
      var last :- EncodeBdtEntry(t[|t| - 1]);
      Ok(front + last)
  }

  function EncodeFdtEntry(e: FdtEntry): Result<seq<byte>>
  {
    var a :- AddrOctets(e.fdAddress);
    Ok(a + Short(e.fdTTL) + Short(e.fdRemain))
  }

  /** The entries of a foreign device table, in order. */
  function EncodeFdt(t: seq<FdtEntry>): Result<seq<byte>>
  {
    if |t| == 0 then Ok([])
    else
      var front :- EncodeFdt(t[..|t| - 1]);
      var last :- EncodeFdtEntry(t[|t| - 1]);
      Ok(front + last)
  }

  /** `put_short` of an optional field: unset is a TypeError. */
  function ShortField(n: Option<int>): Result<seq<byte>>
  {
    if n.None? then Err(TypeError) else Ok(Short(n.value))
  }

  /** What each message class's `encode` writes into the BVLPDU's data. */
  function EncodeBody(m: BvllMessage): Result<seq<byte>>
  {
    match m
    case BvlcResult(code) => ShortField(code)
    case WriteBroadcastDistributionTable(bdt) => EncodeBdt(bdt)
    case ReadBroadcastDistributionTable => Ok([])
    case ReadBroadcastDistributionTableAck(bdt) => EncodeBdt(bdt)
    case ForwardedNPDU(addr, data) =>
      var a :- OptionalAddrOctets(addr);
      Ok(a + data)
    case RegisterForeignDevice(ttl) => ShortField(ttl)
    case ReadForeignDeviceTable => Ok([])
    case ReadForeignDeviceTableAck(fdt) => EncodeFdt(fdt)
    case DeleteForeignDeviceTableEntry(addr) => OptionalAddrOctets(addr)
    case DistributeBroadcastToNetwork(data) => Ok(data)
    case OriginalUnicastNPDU(data) => Ok(data)
    case OriginalBroadcastNPDU(data) => Ok(data)
  }

  // ---------------------------------------------------------------------------------
  // Decoding the bodies

  /** `Address(unpack_ip_addr(b))`: the local station with those six octets (lemma
    * `UnpackIpAddr`). */
  function IpStation(b: seq<byte>): Address
  {
    Address(LocalStationAddr, None, Some(b))
  }

  /** A six-octet address read from the data. */
  function TakeIpAddr(s: seq<byte>): (r: Result<(Address, seq<byte>)>)
    ensures r.Ok? <==> |s| >= 6
    ensures r.Ok? ==> IpForm(r.value.0) && r.value.0.addrAddr.value + r.value.1 == s
  {
    var a :- TakeData(s, 6);
    Ok((IpStation(a.0), a.1))
  }

  function DecodeBdtEntry(s: seq<byte>): (r: Result<(BdtEntry, seq<byte>)>)
    ensures r.Ok? ==> |r.value.1| + 10 == |s|
  {
    var a :- TakeIpAddr(s);
    var mask :- TakeData(a.1, 4);
    Ok((BdtEntry(a.0, LongValue(mask.0)), mask.1))
  }

  /** BDT entries until the data is empty. */
  function DecodeBdt(s: seq<byte>): (r: Result<seq<BdtEntry>>)
    ensures r.Ok? ==> 10 * |r.value| == |s|
    ensures r.Err? ==> r.error == DecodingError
    decreases |s|
  {
    if |s| == 0 then Ok([])
    else
      var e :- DecodeBdtEntry(s);
      var t :- DecodeBdt(e.1);
      Ok([e.0] + t)
  }

  function DecodeFdtEntry(s: seq<byte>): (r: Result<(FdtEntry, seq<byte>)>)
    ensures r.Ok? ==> |r.value.1| + 10 == |s|
  {
    var a :- TakeIpAddr(s);
    var ttl :- TakeShort(a.1);
    var remain :- TakeShort(ttl.1);
    Ok((FdtEntry(a.0, ttl.0, remain.0), remain.1))
  }

  /** FDT entries until the data is empty. */
  function DecodeFdt(s: seq<byte>): (r: Result<seq<FdtEntry>>)
    ensures r.Ok? ==> 10 * |r.value| == |s|
    ensures r.Err? ==> r.error == DecodingError
    decreases |s|
  {
    if |s| == 0 then Ok([])
    else
      var e :- DecodeFdtEntry(s);
      var t :- DecodeFdt(e.1);
      Ok([e.0] + t)
  }

  /** What the class registered for BVLC function `fn` reads; the tables and the NPDUs
    * take everything that is left. */
  function DecodeBody(fn: int, s: seq<byte>): (r: Result<(BvllMessage, seq<byte>)>)
    ensures !(0 <= fn <= 0x0B) ==> r == Err(KeyError)
    ensures r.Ok? ==> MessageType(r.value.0) == fn && |r.value.1| <= |s|
  {
    if fn == Bvlci.BvlcResult then
      var code :- TakeShort(s);
      Ok((BvlcResult(Some(code.0)), code.1))
    else if fn == Bvlci.WriteBroadcastDistributionTable then
      var bdt :- DecodeBdt(s);
      Ok((WriteBroadcastDistributionTable(bdt), []))
    else if fn == Bvlci.ReadBroadcastDistributionTable then
      Ok((ReadBroadcastDistributionTable, s))
    else if fn == Bvlci.ReadBroadcastDistributionTableAck then
      var bdt :- DecodeBdt(s);
      Ok((ReadBroadcastDistributionTableAck(bdt), []))
    else if fn == Bvlci.ForwardedNPDU then
      var a :- TakeIpAddr(s);
      Ok((ForwardedNPDU(Some(a.0), a.1), []))
    else if fn == Bvlci.RegisterForeignDevice then
      var ttl :- TakeShort(s);
      Ok((RegisterForeignDevice(Some(ttl.0)), ttl.1))
    else if fn == Bvlci.ReadForeignDeviceTable then
      Ok((ReadForeignDeviceTable, s))
    else if fn == Bvlci.ReadForeignDeviceTableAck then
      var fdt :- DecodeFdt(s);
      Ok((ReadForeignDeviceTableAck(fdt), []))
    else if fn == Bvlci.DeleteForeignDeviceTableEntry then
      var a :- TakeIpAddr(s);
      Ok((DeleteForeignDeviceTableEntry(Some(a.0)), a.1))
    else if fn == Bvlci.DistributeBroadcastToNetwork then
      Ok((DistributeBroadcastToNetwork(s), []))
    else if fn == Bvlci.OriginalUnicastNPDU then
      Ok((OriginalUnicastNPDU(s), []))
    else if fn == Bvlci.OriginalBroadcastNPDU then
      Ok((OriginalBroadcastNPDU(s), []))
    else Err(KeyError)
  }

  // ---------------------------------------------------------------------------------
  // The BVLPDU on the wire

  /** `BVLPDU.encode`: the header, then the data. */
  function EncodeBvlpdu(f: Bvlci.BvlciFields, data: seq<byte>): Result<seq<byte>>
  {
    var h :- Bvlci.EncodeBvlci(f, |data|);
    Ok(h + data)
  }

  /** A message encoded into a BVLPDU and the BVLPDU onto the wire. */
  function EncodeBvll(m: BvllMessage): Result<seq<byte>>
  {
    var body :- EncodeBody(m);
    EncodeBvlpdu(MessageFields(m), body)
  }

  /** The octets read into a BVLPDU, then the message its function names decoded from
    * the BVLPDU's data. */
  function DecodeBvll(s: seq<byte>): (r: Result<BvllMessage>)
    ensures r.Ok? ==> |s| >= 4 && s[0] == Bvlci.BvllType && MessageType(r.value) == s[1]
  {
    var pdu :- Bvlci.DecodeBvlci(s);
    var m :- DecodeBody(pdu.0.bvlciFunction.value, pdu.1);
    Ok(m.0)
  }

  // ---------------------------------------------------------------------------------
  // Lengths and round trips

  /** A B/IP station: a local station of six octets. */
  predicate IpForm(a: Address)
  {
    a.addrType == LocalStationAddr && a.addrNet.None? && a.addrAddr.Some? && |a.addrAddr.value| == 6
  }

  predicate BdtForm(t: seq<BdtEntry>)
  {
    forall i :: 0 <= i < |t| ==> IpForm(t[i].bdtAddress) && 0 <= t[i].addrMask < LongMask
  }

  predicate FdtForm(t: seq<FdtEntry>)
  {
    forall i :: 0 <= i < |t| ==>
      IpForm(t[i].fdAddress) && 0 <= t[i].fdTTL < ShortMask && 0 <= t[i].fdRemain < ShortMask
  }

  predicate IsShort(n: Option<int>) { n.Some? && 0 <= n.value < ShortMask }

  /** A message whose fields are set, whose addresses are B/IP stations and whose
    * numbers fit their octets. */
  predicate BodyForm(m: BvllMessage)
  {
    match m
    case BvlcResult(code) => IsShort(code)
    case WriteBroadcastDistributionTable(bdt) => BdtForm(bdt)
    case ReadBroadcastDistributionTableAck(bdt) => BdtForm(bdt)
    case ForwardedNPDU(addr, _) => addr.Some? && IpForm(addr.value)
    case RegisterForeignDevice(ttl) => IsShort(ttl)
    case ReadForeignDeviceTableAck(fdt) => FdtForm(fdt)
    case DeleteForeignDeviceTableEntry(addr) => addr.Some? && IpForm(addr.value)
    case _ => true
  }

  lemma {:induction false} BdtLength(t: seq<BdtEntry>)
    requires BdtForm(t)
    ensures EncodeBdt(t).Ok? && |EncodeBdt(t).value| == 10 * |t|
    decreases |t|
  {
    if |t| > 0 {
      BdtLength(t[..|t| - 1]);
    }
  }

  lemma {:induction false} FdtLength(t: seq<FdtEntry>)
    requires FdtForm(t)
    ensures EncodeFdt(t).Ok? && |EncodeFdt(t).value| == 10 * |t|
    decreases |t|
  {
    if |t| > 0 {
      FdtLength(t[..|t| - 1]);
    }
  }

  /** The length each class puts in its header counts exactly the header and the body its
    * `encode` writes, so the BVLPDU accepts it. */
  lemma BodyLength(m: BvllMessage)
    requires BodyForm(m)
    ensures EncodeBody(m).Ok? && |EncodeBody(m).value| + 4 == MessageLength(m)
  {
    match m
    case WriteBroadcastDistributionTable(bdt) => BdtLength(bdt);
    case ReadBroadcastDistributionTableAck(bdt) => BdtLength(bdt);
    case ReadForeignDeviceTableAck(fdt) => FdtLength(fdt);
    case _ =>
  }

  /** A table entry whose address is not a six-octet station makes the body disagree with
    * the length the class set, and `BVLPDU.encode` raises EncodingError. */
  lemma ShortAddressRejected(b: seq<byte>, mask: int)
    requires |b| != 6
    ensures EncodeBvll(WriteBroadcastDistributionTable([BdtEntry(Address(LocalStationAddr, None, Some(b)), mask)])) ==
      Err(EncodingError)
  {
    var t := [BdtEntry(Address(LocalStationAddr, None, Some(b)), mask)];
    assert t[..0] == [];
    assert EncodeBdt(t) == Ok([] + (b + Long(mask)));
  }

  lemma ConsBdt(e: BdtEntry, t: seq<BdtEntry>)
    requires EncodeBdtEntry(e).Ok? && EncodeBdt(t).Ok?
    ensures EncodeBdt([e] + t) == Ok(EncodeBdtEntry(e).value + EncodeBdt(t).value)
    decreases |t|
  {
    if |t| > 0 {
      var front := t[..|t| - 1];
      assert ([e] + t)[..|t|] == [e] + front;
      assert ([e] + t)[|t|] == t[|t| - 1];
      assert EncodeBdt(t) == Ok(EncodeBdt(front).value + EncodeBdtEntry(t[|t| - 1]).value);
      ConsBdt(e, front);
      assert EncodeBdt([e] + t) == Ok(EncodeBdt([e] + front).value + EncodeBdtEntry(t[|t| - 1]).value);
      Assoc(EncodeBdtEntry(e).value, EncodeBdt(front).value, EncodeBdtEntry(t[|t| - 1]).value);
    } else {
      assert [e] + t == [e];
      assert EncodeBdt([e]) == Ok([] + EncodeBdtEntry(e).value);
      assert EncodeBdtEntry(e).value + [] == [] + EncodeBdtEntry(e).value;
    }
  }

  lemma ConsFdt(e: FdtEntry, t: seq<FdtEntry>)
    requires EncodeFdtEntry(e).Ok? && EncodeFdt(t).Ok?
    ensures EncodeFdt([e] + t) == Ok(EncodeFdtEntry(e).value + EncodeFdt(t).value)
    decreases |t|
  {
    if |t| > 0 {
      var front := t[..|t| - 1];
      assert ([e] + t)[..|t|] == [e] + front;
      assert ([e] + t)[|t|] == t[|t| - 1];
      assert EncodeFdt(t) == Ok(EncodeFdt(front).value + EncodeFdtEntry(t[|t| - 1]).value);
      ConsFdt(e, front);
      assert EncodeFdt([e] + t) == Ok(EncodeFdt([e] + front).value + EncodeFdtEntry(t[|t| - 1]).value);
      Assoc(EncodeFdtEntry(e).value, EncodeFdt(front).value, EncodeFdtEntry(t[|t| - 1]).value);
    } else {
      assert [e] + t == [e];
      assert EncodeFdt([e]) == Ok([] + EncodeFdtEntry(e).value);
      assert EncodeFdtEntry(e).value + [] == [] + EncodeFdtEntry(e).value;
    }
  }

  lemma BdtEntryRoundTrip(e: BdtEntry, rest: seq<byte>)
    requires IpForm(e.bdtAddress) && 0 <= e.addrMask < LongMask
    ensures EncodeBdtEntry(e).Ok? && DecodeBdtEntry(EncodeBdtEntry(e).value + rest) == Ok((e, rest))
  {
    var a := e.bdtAddress.addrAddr.value;
    var s := EncodeBdtEntry(e).value + rest;
    assert s == a + (Long(e.addrMask) + rest);
    assert s[..6] == a && s[6..] == Long(e.addrMask) + rest;
    LongReadBack(e.addrMask, rest);
  }

  lemma FdtEntryRoundTrip(e: FdtEntry, rest: seq<byte>)
    requires IpForm(e.fdAddress) && 0 <= e.fdTTL < ShortMask && 0 <= e.fdRemain < ShortMask
    ensures EncodeFdtEntry(e).Ok? && DecodeFdtEntry(EncodeFdtEntry(e).value + rest) == Ok((e, rest))
  {
    var a := e.fdAddress.addrAddr.value;
    var s := EncodeFdtEntry(e).value + rest;
    assert s == a + (Short(e.fdTTL) + (Short(e.fdRemain) + rest));
    assert s[..6] == a && s[6..] == Short(e.fdTTL) + (Short(e.fdRemain) + rest);
    ShortReadBack(e.fdTTL, Short(e.fdRemain) + rest);
    ShortReadBack(e.fdRemain, rest);
    ShortOfValue(Short(e.fdTTL));
    ShortOfValue(Short(e.fdRemain));
  }

  /** Reading back a broadcast distribution table gives the table. */
  lemma {:induction false} BdtRoundTrip(t: seq<BdtEntry>)
    requires BdtForm(t)
    ensures EncodeBdt(t).Ok? && DecodeBdt(EncodeBdt(t).value) == Ok(t)
    decreases |t|
  {
    if |t| > 0 {
      var tail := t[1..];
      assert t == [t[0]] + tail;
      assert BdtForm(tail) by { assert forall i :: 0 <= i < |tail| ==> tail[i] == t[i + 1]; }
      BdtRoundTrip(tail);
      BdtEntryRoundTrip(t[0], EncodeBdt(tail).value);
      ConsBdt(t[0], tail);
      BdtLength(t);
    }
  }

  /** Reading back a foreign device table gives the table. */
  lemma {:induction false} FdtRoundTrip(t: seq<FdtEntry>)
    requires FdtForm(t)
    ensures EncodeFdt(t).Ok? && DecodeFdt(EncodeFdt(t).value) == Ok(t)
    decreases |t|
  {
    if |t| > 0 {
      var tail := t[1..];
      assert t == [t[0]] + tail;
      assert FdtForm(tail) by { assert forall i :: 0 <= i < |tail| ==> tail[i] == t[i + 1]; }
      FdtRoundTrip(tail);
      FdtEntryRoundTrip(t[0], EncodeFdt(tail).value);
      ConsFdt(t[0], tail);
      FdtLength(t);
    }
  }

  /** Decoding a body `encode` wrote, under the message's own function, gives back the
    * message. */
  lemma BodyRoundTrip(m: BvllMessage)
    requires BodyForm(m)
    ensures EncodeBody(m).Ok? && DecodeBody(MessageType(m), EncodeBody(m).value).Ok? &&
      DecodeBody(MessageType(m), EncodeBody(m).value).value.0 == m
  {
    match m
    case BvlcResult(code) =>
      ShortReadBack(code.value, []);
      ShortOfValue(Short(code.value));
    case WriteBroadcastDistributionTable(bdt) => BdtRoundTrip(bdt);
    case ReadBroadcastDistributionTableAck(bdt) => BdtRoundTrip(bdt);
    case ForwardedNPDU(addr, data) =>
      var a := addr.value.addrAddr.value;
      assert (a + data)[..6] == a && (a + data)[6..] == data;
    case RegisterForeignDevice(ttl) =>
      ShortReadBack(ttl.value, []);
      ShortOfValue(Short(ttl.value));
    case ReadForeignDeviceTableAck(fdt) => FdtRoundTrip(fdt);
    case DeleteForeignDeviceTableEntry(addr) =>
      var a := addr.value.addrAddr.value;
      assert a[..6] == a;
    case _ =>
  }

  /** A message encoded into a BVLPDU, sent and read back, is the same message; its length
    * field is the one its class set. */
  lemma BvllRoundTrip(m: BvllMessage)
    requires BodyForm(m) && MessageLength(m) < ShortMask
    ensures EncodeBvll(m).Ok? && |EncodeBvll(m).value| == MessageLength(m)
    ensures DecodeBvll(EncodeBvll(m).value) == Ok(m)
  {
    BodyLength(m);
    BodyRoundTrip(m);
    var body := EncodeBody(m).value;
    Bvlci.BvlciRoundTrip(MessageType(m), body);
  }

  // ---------------------------------------------------------------------------------
  // Writing and reading the bodies on a PDUData

  method PutAddr(pdu: PDUData, a: Address) returns (r: Result<()>)
    modifies pdu
    ensures Wrote(AddrOctets(a), r, old(pdu.data), pdu.data)
  {
    if a.addrAddr.None? {
      return Err(TypeError);
    }
    pdu.PutData(a.addrAddr.value);
    r := Ok(());
  }

  lemma {:induction false} BdtFailsFrom(t: seq<BdtEntry>, j: nat)
    requires j <= |t| && EncodeBdt(t[..j]).Err?
    ensures EncodeBdt(t) == Err(EncodeBdt(t[..j]).error)
    decreases |t| - j
  {
    if j < |t| {
      var front := t[..|t| - 1];
      assert front[..j] == t[..j];
      BdtFailsFrom(front, j);
    } else {
      assert t[..j] == t;
    }
  }

  lemma {:induction false} FdtFailsFrom(t: seq<FdtEntry>, j: nat)
    requires j <= |t| && EncodeFdt(t[..j]).Err?
    ensures EncodeFdt(t) == Err(EncodeFdt(t[..j]).error)
    decreases |t| - j
  {
    if j < |t| {
      var front := t[..|t| - 1];
      assert front[..j] == t[..j];
      FdtFailsFrom(front, j);
    } else {
      assert t[..j] == t;
    }
  }

  /** The loop of the BDT messages' `encode`: address then mask, entry by entry. */
  method PutBdt(pdu: PDUData, bdt: seq<BdtEntry>) returns (r: Result<()>)
    modifies pdu
    ensures Wrote(EncodeBdt(bdt), r, old(pdu.data), pdu.data)
  {
    for i := 0 to |bdt|
      invariant EncodeBdt(bdt[..i]).Ok?
      invariant pdu.data == old(pdu.data) + EncodeBdt(bdt[..i]).value
    {
      assert bdt[..i + 1][..i] == bdt[..i];
      r := PutAddr(pdu, bdt[i].bdtAddress);
      if r.Err? {
        BdtFailsFrom(bdt, i + 1);
        return;
      }
      pdu.PutLong(bdt[i].addrMask);
      Assoc(old(pdu.data), EncodeBdt(bdt[..i]).value, EncodeBdtEntry(bdt[i]).value);
    }
    assert bdt[..|bdt|] == bdt;
    r := Ok(());
  }

  /** The loop of `ReadForeignDeviceTableAck.encode`: address, TTL and time remaining. */
  method PutFdt(pdu: PDUData, fdt: seq<FdtEntry>) returns (r: Result<()>)
    modifies pdu
    ensures Wrote(EncodeFdt(fdt), r, old(pdu.data), pdu.data)
  {
    for i := 0 to |fdt|
      invariant EncodeFdt(fdt[..i]).Ok?
      invariant pdu.data == old(pdu.data) + EncodeFdt(fdt[..i]).value
    {
      assert fdt[..i + 1][..i] == fdt[..i];
      r := PutAddr(pdu, fdt[i].fdAddress);
      if r.Err? {
        FdtFailsFrom(fdt, i + 1);
        return;
      }
      pdu.PutShort(fdt[i].fdTTL);
      pdu.PutShort(fdt[i].fdRemain);
      Assoc(old(pdu.data), EncodeFdt(fdt[..i]).value, EncodeFdtEntry(fdt[i]).value);
    }
    assert fdt[..|fdt|] == fdt;
    r := Ok(());
  }

  function PrefixedBdt(acc: seq<BdtEntry>, r: Result<seq<BdtEntry>>): Result<seq<BdtEntry>>
  {
    if r.Ok? then Ok(acc + r.value) else r
  }

  function PrefixedFdt(acc: seq<FdtEntry>, r: Result<seq<FdtEntry>>): Result<seq<FdtEntry>>
  {
    if r.Ok? then Ok(acc + r.value) else r
  }

  lemma BdtStep(s: seq<byte>)
    requires |s| > 0
    ensures DecodeBdtEntry(s).Err? ==> DecodeBdt(s) == Err(DecodeBdtEntry(s).error)
    ensures DecodeBdtEntry(s).Ok? ==>
      DecodeBdt(s) == PrefixedBdt([DecodeBdtEntry(s).value.0], DecodeBdt(DecodeBdtEntry(s).value.1))
  {
  }

  lemma FdtStep(s: seq<byte>)
    requires |s| > 0
    ensures DecodeFdtEntry(s).Err? ==> DecodeFdt(s) == Err(DecodeFdtEntry(s).error)
    ensures DecodeFdtEntry(s).Ok? ==>
      DecodeFdt(s) == PrefixedFdt([DecodeFdtEntry(s).value.0], DecodeFdt(DecodeFdtEntry(s).value.1))
  {
  }

  lemma PrefixedBdtTwice(a: seq<BdtEntry>, b: seq<BdtEntry>, r: Result<seq<BdtEntry>>)
    ensures PrefixedBdt(a, PrefixedBdt(b, r)) == PrefixedBdt(a + b, r)
  {
    if r.Ok? {
      assert a + (b + r.value) == a + b + r.value;
    }
  }

  lemma PrefixedFdtTwice(a: seq<FdtEntry>, b: seq<FdtEntry>, r: Result<seq<FdtEntry>>)
    ensures PrefixedFdt(a, PrefixedFdt(b, r)) == PrefixedFdt(a + b, r)
  {
    if r.Ok? {
      assert a + (b + r.value) == a + b + r.value;
    }
  }

  method GetIpAddr(pdu: PDUData) returns (r: Result<Address>)
    modifies pdu
    ensures Took(TakeIpAddr(old(pdu.data)), r, pdu.data)
  {
    var a := pdu.GetData(6);
    if a.Err? {
      return Err(a.error);
    }
    r := Ok(IpStation(a.value));
  }

  method GetBdtEntry(pdu: PDUData) returns (r: Result<BdtEntry>)
    modifies pdu
    ensures Took(DecodeBdtEntry(old(pdu.data)), r, pdu.data)
  {
    var a := GetIpAddr(pdu);
    if a.Err? {
      return Err(a.error);
    }
    var mask := pdu.GetLong();
    if mask.Err? {
      return Err(mask.error);
    }
    r := Ok(BdtEntry(a.value, mask.value));
  }

  method GetFdtEntry(pdu: PDUData) returns (r: Result<FdtEntry>)
    modifies pdu
    ensures Took(DecodeFdtEntry(old(pdu.data)), r, pdu.data)
  {
    var a := GetIpAddr(pdu);
    if a.Err? {
      return Err(a.error);
    }
    var ttl := pdu.GetShort();
    if ttl.Err? {
      return Err(ttl.error);
    }
    var remain := pdu.GetShort();
    if remain.Err? {
      return Err(remain.error);
    }
    r := Ok(FdtEntry(a.value, ttl.value, remain.value));
  }

  /** The loop of the BDT messages' `decode`: entries while any data is left. */
  method GetBdt(pdu: PDUData) returns (r: Result<seq<BdtEntry>>)
    modifies pdu
    ensures r == DecodeBdt(old(pdu.data))
    ensures r.Ok? ==> pdu.data == []
  {
    var bdt: seq<BdtEntry> := [];
    ghost var spec := DecodeBdt(pdu.data);
    assert PrefixedBdt([], spec) == spec by {
      if spec.Ok? {
        assert [] + spec.value == spec.value;
      }
    }
    while |pdu.data| > 0
      invariant spec == PrefixedBdt(bdt, DecodeBdt(pdu.data))
      decreases |pdu.data|
    {
      ghost var before := pdu.data;
      var e := GetBdtEntry(pdu);
      BdtStep(before);
      if e.Err? {
        return Err(e.error);
      }
      PrefixedBdtTwice(bdt, [e.value], DecodeBdt(pdu.data));
      bdt := bdt + [e.value];
    }
    assert bdt + [] == bdt;
    r := Ok(bdt);
  }

  /** The loop of `ReadForeignDeviceTableAck.decode`. */
  method GetFdt(pdu: PDUData) returns (r: Result<seq<FdtEntry>>)
    modifies pdu
    ensures r == DecodeFdt(old(pdu.data))
    ensures r.Ok? ==> pdu.data == []
  {
    var fdt: seq<FdtEntry> := [];
    ghost var spec := DecodeFdt(pdu.data);
    assert PrefixedFdt([], spec) == spec by {
      if spec.Ok? {
        assert [] + spec.value == spec.value;
      }
    }
    while |pdu.data| > 0
      invariant spec == PrefixedFdt(fdt, DecodeFdt(pdu.data))
      decreases |pdu.data|
    {
      ghost var before := pdu.data;
      var e := GetFdtEntry(pdu);
      FdtStep(before);
      if e.Err? {
        return Err(e.error);
      }
      PrefixedFdtTwice(fdt, [e.value], DecodeFdt(pdu.data));
      fdt := fdt + [e.value];
    }
    assert fdt + [] == fdt;
    r := Ok(fdt);
  }

  /** Each message class's `encode`, onto the BVLPDU's data. */
  method PutBody(pdu: PDUData, m: BvllMessage) returns (r: Result<()>)
    modifies pdu
    ensures Wrote(EncodeBody(m), r, old(pdu.data), pdu.data)
  {
    match m
    case BvlcResult(code) =>
      if code.None? {
        return Err(TypeError);
      }
      pdu.PutShort(code.value);
      r := Ok(());
    case WriteBroadcastDistributionTable(bdt) =>
      r := PutBdt(pdu, bdt);
    case ReadBroadcastDistributionTable =>
      r := Ok(());
    case ReadBroadcastDistributionTableAck(bdt) =>
      r := PutBdt(pdu, bdt);
    case ForwardedNPDU(addr, data) =>
      if addr.None? {
        return Err(AttributeError);
      }
      r := PutAddr(pdu, addr.value);
      if r.Err? {
        return;
      }
      pdu.PutData(data);
    case RegisterForeignDevice(ttl) =>
      if ttl.None? {
        return Err(TypeError);
      }
      pdu.PutShort(ttl.value);
      r := Ok(());
    case ReadForeignDeviceTable =>
      r := Ok(());
    case ReadForeignDeviceTableAck(fdt) =>
      r := PutFdt(pdu, fdt);
    case DeleteForeignDeviceTableEntry(addr) =>
      if addr.None? {
        return Err(AttributeError);
      }
      r := PutAddr(pdu, addr.value);
    case DistributeBroadcastToNetwork(data) =>
      pdu.PutData(data);
      r := Ok(());
    case OriginalUnicastNPDU(data) =>
      pdu.PutData(data);
      r := Ok(());
    case OriginalBroadcastNPDU(data) =>
      pdu.PutData(data);
      r := Ok(());
  }

  /** Each message class's `decode`, from the BVLPDU's data. */
  method GetBody(fn: int, pdu: PDUData) returns (r: Result<BvllMessage>)
    modifies pdu
    ensures Took(DecodeBody(fn, old(pdu.data)), r, pdu.data)
  {
    if fn == Bvlci.BvlcResult {
      var code := pdu.GetShort();
      if code.Err? {
        return Err(code.error);
      }
      r := Ok(BvlcResult(Some(code.value)));
    } else if fn == Bvlci.WriteBroadcastDistributionTable {
      var bdt := GetBdt(pdu);
      if bdt.Err? {
        return Err(bdt.error);
      }
      r := Ok(WriteBroadcastDistributionTable(bdt.value));
    } else if fn == Bvlci.ReadBroadcastDistributionTable {
      r := Ok(ReadBroadcastDistributionTable);
    } else if fn == Bvlci.ReadBroadcastDistributionTableAck {
      var bdt := GetBdt(pdu);
      if bdt.Err? {
        return Err(bdt.error);
      }
      r := Ok(ReadBroadcastDistributionTableAck(bdt.value));
    } else if fn == Bvlci.ForwardedNPDU {
      var a := GetIpAddr(pdu);
      if a.Err? {
        return Err(a.error);
      }
      ghost var before := pdu.data;
      var d := pdu.GetData(|pdu.data|);
      assert d.value == before && pdu.data == [];
      r := Ok(ForwardedNPDU(Some(a.value), d.value));
    } else if fn == Bvlci.RegisterForeignDevice {
      var ttl := pdu.GetShort();
      if ttl.Err? {
        return Err(ttl.error);
      }
      r := Ok(RegisterForeignDevice(Some(ttl.value)));
    } else if fn == Bvlci.ReadForeignDeviceTable {
      r := Ok(ReadForeignDeviceTable);
    } else if fn == Bvlci.ReadForeignDeviceTableAck {
      var fdt := GetFdt(pdu);
      if fdt.Err? {
        return Err(fdt.error);
      }
      r := Ok(ReadForeignDeviceTableAck(fdt.value));
    } else if fn == Bvlci.DeleteForeignDeviceTableEntry {
      var a := GetIpAddr(pdu);
      if a.Err? {
        return Err(a.error);
      }
      r := Ok(DeleteForeignDeviceTableEntry(Some(a.value)));
    } else if fn == Bvlci.DistributeBroadcastToNetwork {
      ghost var before := pdu.data;
      var d := pdu.GetData(|pdu.data|);
      assert d.value == before && pdu.data == [];
      r := Ok(DistributeBroadcastToNetwork(d.value));
    } else if fn == Bvlci.OriginalUnicastNPDU {
      ghost var before := pdu.data;
      var d := pdu.GetData(|pdu.data|);
      assert d.value == before && pdu.data == [];
      r := Ok(OriginalUnicastNPDU(d.value));
    } else if fn == Bvlci.OriginalBroadcastNPDU {
      ghost var before := pdu.data;
      var d := pdu.GetData(|pdu.data|);
      assert d.value == before && pdu.data == [];
      r := Ok(OriginalBroadcastNPDU(d.value));
    } else {
      r := Err(KeyError);
    }
  }

  /** A BVLPDU: the BVLCI header fields and its own data. */
  class BVLPDU {
    var bvlciType: int
    var bvlciFunction: Option<int>
    var bvlciLength: Option<int>
    const pduData: PDUData

    function Fields(): Bvlci.BvlciFields
      reads this
    {
      Bvlci.BvlciFields(bvlciType, bvlciFunction, bvlciLength)
    }

    constructor ()
      ensures Fields() == Bvlci.Fresh && pduData.data == [] && fresh(pduData)
    {
      bvlciType, bvlciFunction, bvlciLength := Bvlci.BvllType, None, None;
      pduData := new PDUData([]);
    }

    /** `encode`: the header, checked against the data, then the data, into another PDU. */
    method Encode(pdu: PDUData) returns (r: Result<()>)
      requires pdu != pduData
      modifies pdu
      ensures Wrote(EncodeBvlpdu(Fields(), pduData.data), r, old(pdu.data), pdu.data)
    {
      r := Bvlci.PutBvlci(pdu, Fields(), |pduData.data|);
      if r.Err? {
        return;
      }
      pdu.PutData(pduData.data);
    }

    /** `decode`: the header, then all that is left as the data. */
    method Decode(pdu: PDUData) returns (r: Result<()>)
      requires pdu != pduData
      modifies this, pdu, pduData
      ensures var spec := Bvlci.DecodeBvlci(old(pdu.data));
        if spec.Ok? then r.Ok? && Fields() == spec.value.0 && pduData.data == spec.value.1 && pdu.data == []
        else r == Err(spec.error)
    {
      var f := Bvlci.GetBvlci(pdu);
      if f.Err? {
        return Err(f.error);
      }
      bvlciType, bvlciFunction, bvlciLength := f.value.bvlciType, f.value.bvlciFunction, f.value.bvlciLength;
      var d := pdu.GetData(|pdu.data|);
      pduData.data := d.value;
      r := Ok(());
    }

    /** A message's `encode` into this BVLPDU: the message's header fields are copied in
      * and its body is written to the data. */
    method EncodeMessage(m: BvllMessage) returns (r: Result<()>)
      modifies this, pduData
      ensures Fields() == MessageFields(m)
      ensures Wrote(EncodeBody(m), r, old(pduData.data), pduData.data)
    {
      bvlciType, bvlciFunction, bvlciLength := Bvlci.BvllType, Some(MessageType(m) as int), Some(MessageLength(m));
      r := PutBody(pduData, m);
    }

    /** The message class named by the function decodes this BVLPDU's data. */
    method DecodeMessage() returns (r: Result<BvllMessage>)
      requires bvlciFunction.Some?
      modifies pduData
      ensures var spec := DecodeBody(old(bvlciFunction.value), old(pduData.data));
        if spec.Ok? then r == Ok(spec.value.0) else r == Err(spec.error)
    {
      r := GetBody(bvlciFunction.value, pduData);
    }
  }
}
