/** The messages of the BACnet Streaming Link Layer (`bacpypes/bsll/bslci.py`,
  * `bacpypes/bsll/bslpdu.py`, `bacpypes/bsll/registry.py`): their bodies, the length each
  * class sets, the registry of decodable functions and the BSLPDU that carries them. */
module Bslpdu {
  import opened Wrappers
  import opened Bytes
  import opened PduData
  import opened Addresses
  import Bslci

  /** The BSLL messages with the body fields of each class. The classes that carry an
    * address in front of their data share one constructor, which keeps the function
    * code (`IsAddressed`). */
  datatype BsllMessage =
    | BsllResult(bslciResultCode: Option<int>)
    | ServiceRequest(bslciServiceID: Option<int>)
    | AccessRequest(bslciHashFn: int, bslciUsername: seq<byte>)
    | AccessChallenge(bslciHashFn: int, bslciChallenge: seq<byte>)
    | AccessResponse(bslciHashFn: int, bslciResponse: seq<byte>)
    | DeviceToDeviceAPDU(pduData: seq<byte>)
    | RouterToRouterNPDU(pduData: seq<byte>)
    | ServerToProxyBroadcastNPDU(pduData: seq<byte>)
    | AddressedPDU(fn: byte, bslciAddress: Option<Address>, pduData: seq<byte>)

  /** The functions whose classes put an address length and an address before the data. */
  predicate IsAddressed(fn: int)
  {
    fn == Bslci.ProxyToServerUnicastNPDU || fn == Bslci.ProxyToServerBroadcastNPDU ||
    fn == Bslci.ServerToProxyUnicastNPDU || fn == Bslci.ClientToLESUnicastNPDU ||
    fn == Bslci.ClientToLESBroadcastNPDU || fn == Bslci.LESToClientUnicastNPDU ||
    fn == Bslci.LESToClientBroadcastNPDU || fn == Bslci.ClientToServerUnicastAPDU ||
    fn == Bslci.ClientToServerBroadcastAPDU || fn == Bslci.ServerToClientUnicastAPDU ||
    fn == Bslci.ServerToClientBroadcastAPDU
  }

  /** The functions in `bsl_pdu_types`: only the classes carrying `@register_bslpdu_type`. */
  predicate Registered(fn: int)
  {
    0 <= fn <= Bslci.ProxyToServerUnicastNPDU || fn == Bslci.ClientToLESUnicastNPDU ||
    fn == Bslci.LESToClientUnicastNPDU || fn == Bslci.ClientToServerBroadcastAPDU
  }

  /** The class attribute `messageType`, which is also the function it sets. */
  function MessageType(m: BsllMessage): byte
  {
    match m
    case BsllResult(_) => Bslci.BsllResult
    case ServiceRequest(_) => Bslci.ServiceRequest
    case AccessRequest(_, _) => Bslci.AccessRequest
    case AccessChallenge(_, _) => Bslci.AccessChallenge
    case AccessResponse(_, _) => Bslci.AccessResponse
    case DeviceToDeviceAPDU(_) => Bslci.DeviceToDeviceAPDU
    case RouterToRouterNPDU(_) => Bslci.RouterToRouterNPDU
    case ServerToProxyBroadcastNPDU(_) => Bslci.ServerToProxyBroadcastNPDU
    case AddressedPDU(fn, _, _) => fn
  }

  /** The `bslciLength` each class sets: six for a code, five and the field for the access
    * messages, four and the data, or five, the address and the data. An addressed message
    * fails as `self.bslciAddress.addrLen` and `5 + addr_len` do. */
  function MessageLength(m: BsllMessage): (r: Result<nat>)
    ensures r.Ok? ==> r.value >= 4
    ensures m.AddressedPDU? ==>
      if m.bslciAddress.None? then r == Err(AttributeError)
      else if m.bslciAddress.value.addrAddr.None? then r == Err(TypeError)
      else r == Ok(5 + |m.bslciAddress.value.addrAddr.value| + |m.pduData|)
  {
    match m
    case BsllResult(_) => Ok(6)
    case ServiceRequest(_) => Ok(6)
    case AccessRequest(_, username) => Ok(5 + |username|)
    case AccessChallenge(_, challenge) => Ok(5 + |challenge|)
    case AccessResponse(_, response) => Ok(5 + |response|)
    case DeviceToDeviceAPDU(data) => Ok(4 + |data|)
    case RouterToRouterNPDU(data) => Ok(4 + |data|)
    case ServerToProxyBroadcastNPDU(data) => Ok(4 + |data|)
    case AddressedPDU(_, addr, data) =>
      if addr.None? then Err(AttributeError)
      else
        var n := AddrLen(addr.value);
        if n.None? then Err(TypeError) else Ok(5 + n.value + |data|)
  }

  // ---------------------------------------------------------------------------------
  // Encoding and decoding the bodies

  /** `put_short` of an optional field: unset is a TypeError. */
  function ShortField(n: Option<int>): Result<seq<byte>>
  {
    if n.None? then Err(TypeError) else Ok(Short(n.value))
  }

  /** `put(hashFn)` then `put_data(field)`. */
  function HashedField(hashFn: int, field: seq<byte>): Result<seq<byte>>
  {
    var h :- Octet(Some(hashFn));
    Ok([h] + field)
  }

  /** What each class's `encode` writes into the BSLPDU's data. */
  function EncodeBody(m: BsllMessage): Result<seq<byte>>
  {
    match m
    case BsllResult(code) => ShortField(code)
    case ServiceRequest(id) => ShortField(id)
    case AccessRequest(h, username) => HashedField(h, username)
    case AccessChallenge(h, challenge) => HashedField(h, challenge)
    case AccessResponse(h, response) => HashedField(h, response)
    case DeviceToDeviceAPDU(data) => Ok(data)
    case RouterToRouterNPDU(data) => Ok(data)
    case ServerToProxyBroadcastNPDU(data) => Ok(data)
    case AddressedPDU(_, addr, data) =>
      var _ :- MessageLength(m);
      var n :- Octet(Some(|addr.value.addrAddr.value|));
      Ok([n] + addr.value.addrAddr.value + data)
  }

  /** The address-length octet, the address as a local station, then the data. */
  function DecodeAddressed(fn: byte, s: seq<byte>): (r: Result<BsllMessage>)
    ensures r.Ok? ==> r.value.AddressedPDU? && r.value.fn == fn
  {
    var n :- Take(s);
    var a :- TakeData(n.1, n.0);
    Ok(AddressedPDU(fn, Some(Address(LocalStationAddr, None, Some(a.0))), a.1))
  }

  /** What the class registered for `fn` reads; the access messages and the data-carrying
    * classes take everything that is left. */
  function DecodeBody(fn: int, s: seq<byte>): (r: Result<(BsllMessage, seq<byte>)>)
    ensures !Registered(fn) ==> r == Err(KeyError)
    ensures r.Ok? ==> MessageType(r.value.0) == fn && |r.value.1| <= |s|
  {
    if !Registered(fn) then Err(KeyError)
    else if fn == Bslci.BsllResult then
      var code :- TakeShort(s);
      Ok((BsllResult(Some(code.0)), code.1))
    else if fn == Bslci.ServiceRequest then
      var id :- TakeShort(s);
      Ok((ServiceRequest(Some(id.0)), id.1))
    else if fn == Bslci.AccessRequest then
      var h :- Take(s);
      Ok((AccessRequest(h.0, h.1), []))
    else if fn == Bslci.AccessChallenge then
      var h :- Take(s);
      Ok((AccessChallenge(h.0, h.1), []))
    else if fn == Bslci.AccessResponse then
      var h :- Take(s);
      Ok((AccessResponse(h.0, h.1), []))
    else if fn == Bslci.DeviceToDeviceAPDU then
      Ok((DeviceToDeviceAPDU(s), []))
    else if fn == Bslci.RouterToRouterNPDU then
      Ok((RouterToRouterNPDU(s), []))
    else
      var m :- DecodeAddressed(fn as byte, s);
      Ok((m, []))
  }

  // ---------------------------------------------------------------------------------
  // The BSLPDU on the wire

  /** The header fields a message copies into the BSLPDU it is encoded into. */
  function MessageFields(m: BsllMessage): Result<Bslci.BslciFields>
  {
    var len :- MessageLength(m);
    Ok(Bslci.BslciFields(Bslci.BsllType, Some(MessageType(m) as int), Some(len)))
  }

  /** `BSLPDU.encode`: the header, then the data. */
  function EncodeBslpdu(f: Bslci.BslciFields, data: seq<byte>): Result<seq<byte>>
  {
    var h :- Bslci.EncodeBslci(f, |data|);
    Ok(h + data)
  }

  /** A message encoded into a BSLPDU and the BSLPDU onto the stream. */
  function EncodeBsll(m: BsllMessage): Result<seq<byte>>
  {
    var f :- MessageFields(m);
    var body :- EncodeBody(m);
    EncodeBslpdu(f, body)
  }

  /** What the server multiplexer's `confirmation` does with a packet: a BSLPDU, then the
    * class of its function from `bsl_pdu_types`. */
  function DecodeBsll(s: seq<byte>): (r: Result<BsllMessage>)
    ensures r.Ok? ==> |s| >= 4 && s[0] == Bslci.BsllType && MessageType(r.value) == s[1] && Registered(s[1])
  {
    var pdu :- Bslci.DecodeBslci(s);
    var m :- DecodeBody(pdu.0.bslciFunction.value, pdu.1);
    Ok(m.0)
  }

  // ---------------------------------------------------------------------------------
  // Lengths and round trips

  /** A message whose fields are set and fit their octets; an addressed one carries a
    * local station (what `decode` rebuilds) of at most 255 octets. */
  predicate BodyForm(m: BsllMessage)
  {
    match m
    case BsllResult(code) => code.Some? && 0 <= code.value < ShortMask
    case ServiceRequest(id) => id.Some? && 0 <= id.value < ShortMask
    case AccessRequest(h, _) => 0 <= h < 256
    case AccessChallenge(h, _) => 0 <= h < 256
    case AccessResponse(h, _) => 0 <= h < 256
    case AddressedPDU(fn, addr, _) =>
      IsAddressed(fn) && addr.Some? && addr.value.addrType == LocalStationAddr && addr.value.addrNet.None? &&
      addr.value.addrAddr.Some? && |addr.value.addrAddr.value| < 256
    case _ => true
  }

  /** The length each class sets counts the header and exactly the body its `encode`
    * writes, so the BSLPDU accepts it. */
  lemma BodyLength(m: BsllMessage)
    requires BodyForm(m)
    ensures MessageLength(m).Ok? && EncodeBody(m).Ok?
    ensures |EncodeBody(m).value| + 4 == MessageLength(m).value
  {
  }

  /** Decoding a body `encode` wrote, under the message's own registered function, gives
    * back the message. */
  lemma BodyRoundTrip(m: BsllMessage)
    requires BodyForm(m) && Registered(MessageType(m))
    ensures EncodeBody(m).Ok? && DecodeBody(MessageType(m), EncodeBody(m).value).Ok? &&
      DecodeBody(MessageType(m), EncodeBody(m).value).value.0 == m
  {
    match m
    case BsllResult(code) =>
      ShortReadBack(code.value, []);
      ShortOfValue(Short(code.value));
    case ServiceRequest(id) =>
      ShortReadBack(id.value, []);
      ShortOfValue(Short(id.value));
    case AddressedPDU(fn, addr, data) =>
      var a := addr.value.addrAddr.value;
      var s := [|a| as byte] + a + data;
      assert s[1..] == a + data;
      assert (a + data)[..|a|] == a && (a + data)[|a|..] == data;
    case _ =>
  }

  /** A message of a registered class encoded into a BSLPDU and read back by the server
    * multiplexer is the same message, with the length its class set. */
  lemma BsllRoundTrip(m: BsllMessage)
    requires BodyForm(m) && Registered(MessageType(m)) && MessageLength(m).value < ShortMask
    ensures EncodeBsll(m).Ok? && |EncodeBsll(m).value| == MessageLength(m).value
    ensures DecodeBsll(EncodeBsll(m).value) == Ok(m)
  {
    BodyLength(m);
    BodyRoundTrip(m);
    Bslci.BslciRoundTrip(MessageType(m), EncodeBody(m).value);
  }

  /** A message of a class without `@register_bslpdu_type` is encoded, but the function
    * of what arrives is not in `bsl_pdu_types`, and the lookup raises KeyError. */
  lemma UnregisteredRejected(m: BsllMessage)
    requires BodyForm(m) && !Registered(MessageType(m)) && MessageLength(m).value < ShortMask
    ensures EncodeBsll(m).Ok? && DecodeBsll(EncodeBsll(m).value) == Err(KeyError)
  {
    BodyLength(m);
    Bslci.BslciRoundTrip(MessageType(m), EncodeBody(m).value);
  }

  /** An address-carrying message needs its address: an unset one is an AttributeError and
    * one without octets a TypeError, before anything is written. */
  lemma AddressRequired(fn: byte, data: seq<byte>, t: int, net: Option<int>)
    ensures EncodeBsll(AddressedPDU(fn, None, data)) == Err(AttributeError)
    ensures EncodeBsll(AddressedPDU(fn, Some(Address(t, net, None)), data)) == Err(TypeError)
  {
  }

  // ---------------------------------------------------------------------------------
  // The names `@register_bslpdu_type` leaves behind

  /** A class name after its decorator as `register_bslpdu_type` is written: the class is
    * recorded in `bsl_pdu_types`, but the function returns nothing, so a decorated name
    * is bound to `None`; `Some(fn)` stands for the class of function `fn`. */
  function BoundNameAsWritten(fn: byte): (r: Option<byte>)
    ensures r.None? <==> Registered(fn)
  {
    if Registered(fn) then None else Some(fn)
  }

  /** A decorator that returns the class it registers leaves every name bound to it. */
  function BoundName(fn: byte): (r: Option<byte>)
    ensures r == Some(fn)
  {
    Some(fn)
  }

  /** `Result(code)` through the module name: calling `None` is a TypeError. */
  function ConstructResultAsWritten(code: int): Result<BsllMessage>
  {
    if BoundNameAsWritten(Bslci.BsllResult).None? then Err(TypeError) else Ok(BsllResult(Some(code)))
  }

  /** `Result(code)` with the decorator returning the class. */
  function ConstructResult(code: int): Result<BsllMessage>
  {
    if BoundName(Bslci.BsllResult).None? then Err(TypeError) else Ok(BsllResult(Some(code)))
  }

  /** As written, every `Result` response the server multiplexer builds raises TypeError,
    * for every code. */
  lemma ResultResponseAsWritten(code: int)
    ensures ConstructResultAsWritten(code) == Err(TypeError)
  {
  }

  /** With the decorator returning the class, a `Result` response of any 16-bit code is
    * built, sent as six octets, and read back as the same code. */
  lemma ResultResponse(code: int)
    requires 0 <= code < ShortMask
    ensures ConstructResult(code).Ok?
    ensures EncodeBsll(ConstructResult(code).value).Ok? && |EncodeBsll(ConstructResult(code).value).value| == 6
    ensures DecodeBsll(EncodeBsll(ConstructResult(code).value).value) == Ok(BsllResult(Some(code)))
  {
    BsllRoundTrip(BsllResult(Some(code)));
  }

  // ---------------------------------------------------------------------------------
  // Writing and reading the bodies on a PDUData

  /** Each class's `encode`, onto the BSLPDU's data. */
  method PutBody(pdu: PDUData, m: BsllMessage) returns (r: Result<()>)
    modifies pdu
    ensures Wrote(EncodeBody(m), r, old(pdu.data), pdu.data)
  {
    match m
    case BsllResult(code) =>
      if code.None? {
        return Err(TypeError);
      }
      pdu.PutShort(code.value);
      r := Ok(());
    case ServiceRequest(id) =>
      if id.None? {
        return Err(TypeError);
      }
      pdu.PutShort(id.value);
      r := Ok(());
    case AccessRequest(h, username) =>
      r := pdu.Put(h);
      if r.Ok? {
        pdu.PutData(username);
      }
    case AccessChallenge(h, challenge) =>
      r := pdu.Put(h);
      if r.Ok? {
        pdu.PutData(challenge);
      }
    case AccessResponse(h, response) =>
      r := pdu.Put(h);
      if r.Ok? {
        pdu.PutData(response);
      }
    case DeviceToDeviceAPDU(data) =>
      pdu.PutData(data);
      r := Ok(());
    case RouterToRouterNPDU(data) =>
      pdu.PutData(data);
      r := Ok(());
    case ServerToProxyBroadcastNPDU(data) =>
      pdu.PutData(data);
      r := Ok(());
    case AddressedPDU(_, addr, data) =>
      if addr.None? {
        return Err(AttributeError);
      }
      if addr.value.addrAddr.None? {
        return Err(TypeError);
      }
      r := pdu.Put(|addr.value.addrAddr.value|);
      if r.Err? {
        return;
      }
      pdu.PutData(addr.value.addrAddr.value);
      pdu.PutData(data);
  }

  /** Each registered class's `decode`, from the BSLPDU's data. */
  method GetBody(fn: int, pdu: PDUData) returns (r: Result<BsllMessage>)
    modifies pdu
    ensures Took(DecodeBody(fn, old(pdu.data)), r, pdu.data)
  {
    if !Registered(fn) {
      return Err(KeyError);
    }
    if fn == Bslci.BsllResult || fn == Bslci.ServiceRequest {
      var n := pdu.GetShort();
      if n.Err? {
        return Err(n.error);
      }
      if fn == Bslci.BsllResult {
        r := Ok(BsllResult(Some(n.value)));
      } else {
        r := Ok(ServiceRequest(Some(n.value)));
      }
    } else if fn == Bslci.AccessRequest || fn == Bslci.AccessChallenge || fn == Bslci.AccessResponse {
      var h := pdu.Get();
      if h.Err? {
        return Err(h.error);
      }
      ghost var before := pdu.data;
      var d := pdu.GetData(|pdu.data|);
      assert d.value == before && pdu.data == [];
      if fn == Bslci.AccessRequest {
        r := Ok(AccessRequest(h.value, d.value));
      } else if fn == Bslci.AccessChallenge {
        r := Ok(AccessChallenge(h.value, d.value));
      } else {
        r := Ok(AccessResponse(h.value, d.value));
      }
    } else if fn == Bslci.DeviceToDeviceAPDU || fn == Bslci.RouterToRouterNPDU {
      ghost var before := pdu.data;
      var d := pdu.GetData(|pdu.data|);
      assert d.value == before && pdu.data == [];
      if fn == Bslci.DeviceToDeviceAPDU {
        r := Ok(DeviceToDeviceAPDU(d.value));
      } else {
        r := Ok(RouterToRouterNPDU(d.value));
      }
    } else {
      var n := pdu.Get();
      if n.Err? {
        return Err(n.error);
      }
      var a := pdu.GetData(n.value);
      if a.Err? {
        return Err(a.error);
      }
      ghost var before := pdu.data;
      var d := pdu.GetData(|pdu.data|);
      assert d.value == before && pdu.data == [];
      r := Ok(AddressedPDU(fn as byte, Some(Address(LocalStationAddr, None, Some(a.value))), d.value));
    }
  }

  /** A BSLPDU: the BSLCI header fields and its own data. */
  class BSLPDU {
    var bslciType: int
    var bslciFunction: Option<int>
    var bslciLength: Option<int>
    const pduData: PDUData

    function Fields(): Bslci.BslciFields
      reads this
    {
      Bslci.BslciFields(bslciType, bslciFunction, bslciLength)
    }

    constructor ()
      ensures Fields() == Bslci.Fresh && pduData.data == [] && fresh(pduData)
    {
      bslciType, bslciFunction, bslciLength := Bslci.BsllType, None, None;
      pduData := new PDUData([]);
    }

    /** `encode`: the header, checked against the data, then the data, into another PDU. */
    method Encode(pdu: PDUData) returns (r: Result<()>)
      requires pdu != pduData
      modifies pdu
      ensures Wrote(EncodeBslpdu(Fields(), pduData.data), r, old(pdu.data), pdu.data)
    {
      r := Bslci.PutBslci(pdu, Fields(), |pduData.data|);
      if r.Err? {
        return;
      }
      pdu.PutData(pduData.data);
    }

    /** `decode`: the header, then all that is left as the data. */
    method Decode(pdu: PDUData) returns (r: Result<()>)
      requires pdu != pduData
      modifies this, pdu, pduData
      ensures var spec := Bslci.DecodeBslci(old(pdu.data));
        if spec.Ok? then r.Ok? && Fields() == spec.value.0 && pduData.data == spec.value.1 && pdu.data == []
        else r == Err(spec.error)
    {
      var f := Bslci.GetBslci(pdu);
      if f.Err? {
        return Err(f.error);
      }
      bslciType, bslciFunction, bslciLength := f.value.bslciType, f.value.bslciFunction, f.value.bslciLength;
      var d := pdu.GetData(|pdu.data|);
      pduData.data := d.value;
      r := Ok(());
    }

    /** A message's `encode` into this BSLPDU: the length is worked out, the header fields
      * are copied in and the body is written to the data. */
    method EncodeMessage(m: BsllMessage) returns (r: Result<()>)
      modifies this, pduData
      ensures MessageFields(m).Err? ==>
        r == Err(MessageFields(m).error) && Fields() == old(Fields()) && pduData.data == old(pduData.data)
      ensures MessageFields(m).Ok? ==>
        Fields() == MessageFields(m).value && Wrote(EncodeBody(m), r, old(pduData.data), pduData.data)
    {
      var len := MessageLength(m);
      if len.Err? {
        return Err(len.error);
      }
      bslciType, bslciFunction, bslciLength := Bslci.BsllType, Some(MessageType(m) as int), Some(len.value);
      r := PutBody(pduData, m);
    }

    /** The class registered for the function decodes this BSLPDU's data. */
    method DecodeMessage() returns (r: Result<BsllMessage>)
      requires bslciFunction.Some?
      modifies pduData
      ensures var spec := DecodeBody(old(bslciFunction.value), old(pduData.data));
        if spec.Ok? then r == Ok(spec.value.0) else r == Err(spec.error)
    {
      r := GetBody(bslciFunction.value, pduData);
    }
  }
}
