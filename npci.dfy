/** Network Layer Protocol Control Information (ASHRAE 135 clause 6.2): version, control
  * octet, destination and source network addresses, hop count and network message type,
  * written on and read from a PDUData (`bacpypes/network/npci.py`). */
module Npci {
  import opened Wrappers
  import opened Bytes
  import opened PduData
  import opened Addresses

  // Network layer message types
  const WhoIsRouterToNetwork := 0x00
  const IAmRouterToNetwork := 0x01
  const ICouldBeRouterToNetwork := 0x02
  const RejectMessageToNetwork := 0x03
  const RouterBusyToNetwork := 0x04
  const RouterAvailableToNetwork := 0x05
  const InitializeRoutingTable := 0x06
  const InitializeRoutingTableAck := 0x07
  const EstablishConnectionToNetwork := 0x08
  const DisconnectConnectionToNetwork := 0x09
  const WhatIsNetworkNumber := 0x12
  const NetworkNumberIs := 0x13

  /** The NPCI fields and the two link-layer PCI fields the control octet carries. */
  datatype NpciFields = NpciFields(
    npduVersion: int,
    npduControl: Option<int>,
    npduDADR: Option<Address>,
    npduSADR: Option<Address>,
    npduHopCount: Option<int>,
    npduNetMessage: Option<int>,
    npduVendorID: Option<int>,
    pduExpectingReply: bool,
    pduNetworkPriority: int)

  /** A fresh NPCI: version 1, nothing else set, priority 0, not expecting a reply. */
  const Fresh := NpciFields(1, None, None, None, None, None, None, false, 0)

  // ---------------------------------------------------------------------------------
  // Encoding, as a function of the fields

  /** The control octet: bit 7 a network layer message, bit 5 a destination, bit 3 a
    * source, bit 2 expecting a reply, bits 1..0 the priority (`& 0x03`). */
  function Control(f: NpciFields): (c: byte)
  {
    (if f.npduNetMessage.Some? then 0x80 else 0) + (if f.npduDADR.Some? then 0x20 else 0) +
    (if f.npduSADR.Some? then 0x08 else 0) + (if f.pduExpectingReply then 0x04 else 0) +
    f.pduNetworkPriority % 4
  }

  /** `put_short(n)` of an optional network number: unset is a TypeError. */
  function NetShort(n: Option<int>): (r: Result<seq<byte>>)
    ensures r.Ok? <==> n.Some?
    ensures r.Ok? ==> r.value == Short(n.value)
  {
    if n.None? then Err(TypeError) else Ok(Short(n.value))
  }

  /** A remote station or a source as net, length, octets. */
  function EncodeNetAddr(a: Address): Result<seq<byte>>
  {
    var net :- NetShort(a.addrNet);
    var len :- Octet(AddrLen(a));
    Ok(net + [len] + a.addrAddr.value)
  }

  /** The destination: a remote station as net, length, octets; a remote broadcast as net
    * and length 0; a global broadcast as 0xFFFF and length 0; any other type as nothing. */
  function EncodeDadr(a: Address): Result<seq<byte>>
  {
    if a.addrType == RemoteStationAddr then EncodeNetAddr(a)
    else if a.addrType == RemoteBroadcastAddr then
      var net :- NetShort(a.addrNet);
      Ok(net + [0])
    else if a.addrType == GlobalBroadcastAddr then Ok(Short(0xFFFF) + [0])
    else Ok([])
  }

  /** The addresses and the hop count: destination, source, then the hop count iff there
    * is a destination. */
  function EncodeAddresses(f: NpciFields): Result<seq<byte>>
  {
    var d :- if f.npduDADR.Some? then EncodeDadr(f.npduDADR.value) else Ok([]);
    var s :- if f.npduSADR.Some? then EncodeNetAddr(f.npduSADR.value) else Ok([]);
    var h :- if f.npduDADR.Some? then OctetSeq(f.npduHopCount) else Ok([]);
    Ok(d + s + h)
  }

  /** The message type, then the vendor ID iff the type is 0x80..0xFF. */
  function EncodeMessage(f: NpciFields): Result<seq<byte>>
  {
    if f.npduNetMessage.None? then Ok([])
    else
      var m :- Octet(f.npduNetMessage);
      if 0x80 <= m then
        var v :- NetShort(f.npduVendorID);
        Ok([m] + v)
      else Ok([m])
  }

  /** `NPCI.encode`. */
  function EncodeNpci(f: NpciFields): Result<seq<byte>>
  {
    var v :- Octet(Some(f.npduVersion));
    var a :- EncodeAddresses(f);
    var m :- EncodeMessage(f);
    Ok([v, Control(f)] + a + m)
  }

  // ---------------------------------------------------------------------------------
  // Decoding, as a function of the fields and the octets

  /** `control & 0x20`: a destination follows. An all-ones network is the global broadcast,
    * an empty address a remote broadcast, anything else a remote station. */
  function DecodeDadr(f: NpciFields, c: byte, s: seq<byte>): (r: Result<(NpciFields, seq<byte>)>)
    ensures r.Ok? && !Bit(c, 5) ==> r.value == (f, s)
    ensures r.Ok? && Bit(c, 5) ==> r.value.0 == f.(npduDADR := r.value.0.npduDADR) && r.value.0.npduDADR.Some?
    ensures r.Ok? && Bit(c, 5) ==> DadrForm(r.value.0.npduDADR.value) && |r.value.1| + 3 <= |s|
  {
    if !Bit(c, 5) then Ok((f, s))
    else
      var dnet :- TakeShort(s);
      var dlen :- Take(dnet.1);
      var dadr :- TakeData(dlen.1, dlen.0);
      var a := if dnet.0 == 0xFFFF then GlobalBroadcast
               else if dlen.0 == 0 then Address(RemoteBroadcastAddr, Some(dnet.0), None)
               else Address(RemoteStationAddr, Some(dnet.0), Some(dadr.0));
      Ok((f.(npduDADR := Some(a)), dadr.1))
  }

  /** `control & 0x08`: a source follows, which must be a remote station. */
  function DecodeSadr(f: NpciFields, c: byte, s: seq<byte>): (r: Result<(NpciFields, seq<byte>)>)
    ensures r.Ok? && !Bit(c, 3) ==> r.value == (f, s)
    ensures r.Ok? && Bit(c, 3) ==> r.value.0 == f.(npduSADR := r.value.0.npduSADR) && r.value.0.npduSADR.Some?
    ensures r.Ok? && Bit(c, 3) ==> StationForm(r.value.0.npduSADR.value) && |r.value.1| + 4 <= |s|
  {
    if !Bit(c, 3) then Ok((f, s))
    else
      var snet :- TakeShort(s);
      var slen :- Take(snet.1);
      var sadr :- TakeData(slen.1, slen.0);
      if snet.0 == 0xFFFF then Err(DecodingError)
      else if slen.0 == 0 then Err(DecodingError)
      else Ok((f.(npduSADR := Some(Address(RemoteStationAddr, Some(snet.0), Some(sadr.0)))), sadr.1))
  }

  /** The hop count, iff a destination was present. */
  function DecodeHop(f: NpciFields, c: byte, s: seq<byte>): (r: Result<(NpciFields, seq<byte>)>)
    ensures r.Ok? ==> r.value.0 == f.(npduHopCount := r.value.0.npduHopCount) && |r.value.1| <= |s|
    ensures r.Ok? ==> (Bit(c, 5) <==> |r.value.1| < |s|) && (Bit(c, 5) ==> IsOctet(r.value.0.npduHopCount))
  {
    if !Bit(c, 5) then Ok((f, s))
    else
      var h :- Take(s);
      Ok((f.(npduHopCount := Some(h.0)), h.1))
  }

  /** The message type if bit 7 is set (and a vendor ID for types 0x80 and up); otherwise
    * an application layer message, whose message type is cleared. */
  function DecodeMessage(f: NpciFields, c: byte, s: seq<byte>): (r: Result<(NpciFields, seq<byte>)>)
    ensures r.Ok? ==> r.value.0 == f.(npduNetMessage := r.value.0.npduNetMessage, npduVendorID := r.value.0.npduVendorID)
    ensures r.Ok? ==> (r.value.0.npduNetMessage.Some? <==> Bit(c, 7)) && |r.value.1| <= |s|
    ensures r.Ok? && r.value.0.npduNetMessage.Some? ==> IsOctet(r.value.0.npduNetMessage)
    ensures r.Ok? && r.value.0.npduNetMessage.Some? && r.value.0.npduNetMessage.value >= 0x80 ==>
      r.value.0.npduVendorID.Some? && 0 <= r.value.0.npduVendorID.value < 0x1_0000
    ensures r.Ok? && (r.value.0.npduNetMessage.None? || r.value.0.npduNetMessage.value < 0x80) ==>
      r.value.0.npduVendorID == f.npduVendorID
  {
    if !Bit(c, 7) then Ok((f.(npduNetMessage := None), s))
    else
      var m :- Take(s);
      if 0x80 <= m.0 then
        var v :- TakeShort(m.1);
        Ok((f.(npduNetMessage := Some(m.0), npduVendorID := Some(v.0)), v.1))
      else Ok((f.(npduNetMessage := Some(m.0)), m.1))
  }

  /** The fields the control octet sets, and what follows it. */
  function DecodeAfterControl(f: NpciFields, c: byte, s: seq<byte>): (r: Result<(NpciFields, seq<byte>)>)
    ensures r.Ok? ==> r.value.0.npduVersion == 1 && r.value.0.npduControl == Some(c as int) && |r.value.1| <= |s|
    ensures r.Ok? ==> r.value.0.pduExpectingReply == Bit(c, 2) && r.value.0.pduNetworkPriority == c % 4
    ensures r.Ok? && r.value.0.npduSADR != f.npduSADR ==>
      r.value.0.npduSADR.Some? && StationForm(r.value.0.npduSADR.value)
    ensures r.Ok? && r.value.0.npduDADR != f.npduDADR ==>
      r.value.0.npduDADR.Some? && DadrForm(r.value.0.npduDADR.value)
  {
    var g := f.(npduVersion := 1, npduControl := Some(c), pduExpectingReply := Bit(c, 2),
                pduNetworkPriority := c % 4);
    DecodeMessageAfter(DecodeAddresses(g, c, s), c)
  }

  /** The message type after a successful read of the addresses. */
  function DecodeMessageAfter(h: Result<(NpciFields, seq<byte>)>, c: byte): Result<(NpciFields, seq<byte>)>
  {
    var h :- h;
    DecodeMessage(h.0, c, h.1)
  }

  /** Destination, source and hop count, in the order `encode` writes them. */
  function DecodeAddresses(f: NpciFields, c: byte, s: seq<byte>): (r: Result<(NpciFields, seq<byte>)>)
    ensures r.Ok? ==> r.value.0 == f.(npduDADR := r.value.0.npduDADR, npduSADR := r.value.0.npduSADR,
                                      npduHopCount := r.value.0.npduHopCount) && |r.value.1| <= |s|
    ensures r.Ok? && r.value.0.npduSADR != f.npduSADR ==>
      r.value.0.npduSADR.Some? && StationForm(r.value.0.npduSADR.value)
    ensures r.Ok? && r.value.0.npduDADR != f.npduDADR ==>
      r.value.0.npduDADR.Some? && DadrForm(r.value.0.npduDADR.value)
  {
    var d :- DecodeDadr(f, c, s);
    var a :- DecodeSadr(d.0, c, d.1);
    DecodeHop(a.0, c, a.1)
  }

  /** `NPCI.decode`: fewer than two octets, or a version other than 1, is a DecodingError. */
  function DecodeNpci(f: NpciFields, s: seq<byte>): (r: Result<(NpciFields, seq<byte>)>)
    ensures |s| < 2 || s[0] != 1 ==> r == Err(DecodingError)
    ensures r.Ok? ==> r.value.0.npduVersion == 1 && r.value.0.npduControl == Some(s[1] as int)
    ensures r.Ok? ==> |r.value.1| < |s|
  {
    if |s| < 2 then Err(DecodingError)
    else if s[0] != 1 then Err(DecodingError)
    else DecodeAfterControl(f, s[1], s[2..])
  }

  // ---------------------------------------------------------------------------------
  // Properties

  /** The control octet reads back as the five things it encodes. */
  lemma ControlBits(f: NpciFields)
    ensures var c := Control(f);
      Bit(c, 7) == f.npduNetMessage.Some? && Bit(c, 5) == f.npduDADR.Some? &&
      Bit(c, 3) == f.npduSADR.Some? && Bit(c, 2) == f.pduExpectingReply &&
      !Bit(c, 6) && !Bit(c, 4) && c % 4 == f.pduNetworkPriority % 4
  {
    ControlOctetBits(f.npduNetMessage.Some?, f.npduDADR.Some?, f.npduSADR.Some?, f.pduExpectingReply,
                     f.pduNetworkPriority % 4);
  }

  function IfSet(b: bool, v: int): int { if b then v else 0 }

  lemma ControlOctetBits(a: bool, d: bool, s: bool, e: bool, p: int)
    requires 0 <= p < 4
    ensures var v := IfSet(a, 128) + IfSet(d, 32) + IfSet(s, 8) + IfSet(e, 4) + p;
      0 <= v < 256 &&
      Bit(v as byte, 7) == a && Bit(v as byte, 5) == d && Bit(v as byte, 3) == s && Bit(v as byte, 2) == e &&
      !Bit(v as byte, 6) && !Bit(v as byte, 4) && v % 4 == p
  {
    var v := IfSet(a, 128) + IfSet(d, 32) + IfSet(s, 8) + IfSet(e, 4) + p;
    assert Pow2(2) == 4 && Pow2(3) == 8 && Pow2(4) == 16 && Pow2(5) == 32;
    assert Pow2(6) == 64 && Pow2(7) == 128;
    assert v / 128 == IfSet(a, 1);
    assert v / 64 == IfSet(a, 2);
    assert v / 32 == IfSet(a, 4) + IfSet(d, 1);
    assert v / 16 == IfSet(a, 8) + IfSet(d, 2);
    assert v / 8 == IfSet(a, 16) + IfSet(d, 4) + IfSet(s, 1);
    assert v / 4 == IfSet(a, 32) + IfSet(d, 8) + IfSet(s, 2) + IfSet(e, 1);
  }

  /** A decoded source is always a remote station on a network below 0xFFFF with at least
    * one octet, never a broadcast; a decoded destination is such a station, a remote
    * broadcast on a network below 0xFFFF, or the global broadcast. */
  lemma DecodedAddresses(s: seq<byte>)
    requires DecodeNpci(Fresh, s).Ok?
    ensures var g := DecodeNpci(Fresh, s).value.0;
      (g.npduSADR.Some? ==> StationForm(g.npduSADR.value)) &&
      (g.npduDADR.Some? ==> DadrForm(g.npduDADR.value))
  {
  }

  /** The fields an NPCI must hold for `decode` to give back what `encode` wrote: version 1;
    * a destination that is a remote station or remote broadcast on a network below 0xFFFF,
    * or the global broadcast, with a hop count; a source that is a remote station; a
    * vendor ID exactly for the proprietary message types; a priority in 0..3. */
  predicate WellFormed(f: NpciFields)
  {
    f.npduVersion == 1 && 0 <= f.pduNetworkPriority < 4 &&
    (f.npduDADR.Some? ==> DadrForm(f.npduDADR.value) && IsOctet(f.npduHopCount)) &&
    (f.npduDADR.None? ==> f.npduHopCount.None?) &&
    (f.npduSADR.Some? ==> StationForm(f.npduSADR.value)) &&
    (f.npduNetMessage.Some? ==> IsOctet(f.npduNetMessage)) &&
    (if f.npduNetMessage.Some? && f.npduNetMessage.value >= 0x80
     then f.npduVendorID.Some? && 0 <= f.npduVendorID.value < 0x1_0000
     else f.npduVendorID.None?)
  }

  predicate StationForm(a: Address)
  {
    a.addrType == RemoteStationAddr && a.addrNet.Some? && 0 <= a.addrNet.value < 0xFFFF &&
    a.addrAddr.Some? && 1 <= |a.addrAddr.value| < 256
  }

  predicate DadrForm(a: Address)
  {
    StationForm(a) || a == GlobalBroadcast ||
    (a.addrType == RemoteBroadcastAddr && a.addrNet.Some? && 0 <= a.addrNet.value < 0xFFFF && a.addrAddr.None?)
  }

  lemma ShortThen(n: nat, rest: seq<byte>)
    requires n < ShortMask
    ensures TakeShort(Short(n) + rest) == Ok((n, rest))
  {
    ShortReadBack(n, rest);
  }

  lemma NetAddrRoundTrip(a: Address, rest: seq<byte>)
    requires StationForm(a)
    ensures EncodeNetAddr(a).Ok?
    ensures var e := EncodeNetAddr(a).value + rest;
      TakeShort(e).Ok? && Take(TakeShort(e).value.1).Ok? &&
      var len := Take(TakeShort(e).value.1).value;
      len.0 == |a.addrAddr.value| && TakeShort(e).value.0 == a.addrNet.value &&
      TakeData(len.1, len.0) == Ok((a.addrAddr.value, rest))
  {
    var b := a.addrAddr.value;
    var net := Short(a.addrNet.value);
    assert EncodeNetAddr(a).value + rest == net + ([|b|] + b + rest);
    ShortThen(a.addrNet.value, [|b|] + b + rest);
    assert ([|b|] + b + rest)[1..] == b + rest;
    assert (b + rest)[..|b|] == b && (b + rest)[|b|..] == rest;
  }

  lemma DadrRoundTrip(f: NpciFields, g: NpciFields, rest: seq<byte>)
    requires WellFormed(f) && f.npduDADR.Some?
    ensures EncodeDadr(f.npduDADR.value).Ok?
    ensures DecodeDadr(g, Control(f), EncodeDadr(f.npduDADR.value).value + rest) ==
      Ok((g.(npduDADR := f.npduDADR), rest))
  {
    ControlBits(f);
    var a := f.npduDADR.value;
    if a.addrType == RemoteStationAddr {
      NetAddrRoundTrip(a, rest);
    } else if a.addrType == RemoteBroadcastAddr {
      assert EncodeDadr(a).value + rest == Short(a.addrNet.value) + ([0] + rest);
      ShortThen(a.addrNet.value, [0] + rest);
      assert ([0] + rest)[1..] == rest;
    } else {
      assert EncodeDadr(a).value + rest == Short(0xFFFF) + ([0] + rest);
      ShortThen(0xFFFF, [0] + rest);
      assert ([0] + rest)[1..] == rest;
    }
  }

  lemma SadrRoundTrip(f: NpciFields, g: NpciFields, rest: seq<byte>)
    requires WellFormed(f) && f.npduSADR.Some?
    ensures EncodeNetAddr(f.npduSADR.value).Ok?
    ensures DecodeSadr(g, Control(f), EncodeNetAddr(f.npduSADR.value).value + rest) ==
      Ok((g.(npduSADR := f.npduSADR), rest))
  {
    ControlBits(f);
    NetAddrRoundTrip(f.npduSADR.value, rest);
  }

  lemma MessageRoundTrip(f: NpciFields, g: NpciFields, rest: seq<byte>)
    requires WellFormed(f) && g.npduVendorID.None?
    ensures EncodeMessage(f).Ok?
    ensures DecodeMessage(g, Control(f), EncodeMessage(f).value + rest) ==
      Ok((g.(npduNetMessage := f.npduNetMessage, npduVendorID := f.npduVendorID), rest))
  {
    ControlBits(f);
    if f.npduNetMessage.Some? {
      var m := f.npduNetMessage.value;
      var e := EncodeMessage(f).value + rest;
      if m >= 0x80 {
        var v := f.npduVendorID.value;
        assert e == [m] + (Short(v) + rest);
        ShortThen(v, rest);
        var d := DecodeMessage(g, Control(f), e).value;
        assert d.0.npduNetMessage.value == m && d.0.npduVendorID.value == v;
      } else {
        assert e == [m] + rest;
        var d := DecodeMessage(g, Control(f), e).value;
        assert d.0.npduNetMessage.value == m;
      }
    } else {
      assert EncodeMessage(f).value + rest == rest;
    }
  }

  lemma HopRoundTrip(f: NpciFields, g: NpciFields, rest: seq<byte>)
    requires WellFormed(f) && g.npduHopCount.None?
    ensures var h := if f.npduDADR.Some? then [f.npduHopCount.value as byte] else [];
      DecodeHop(g, Control(f), h + rest) == Ok((g.(npduHopCount := f.npduHopCount), rest))
  {
    ControlBits(f);
    if f.npduDADR.Some? {
      var h := [f.npduHopCount.value as byte];
      assert (h + rest)[0] == h[0] && (h + rest)[1..] == rest;
      var d := DecodeHop(g, Control(f), h + rest).value;
      assert d.0.npduHopCount.value == f.npduHopCount.value;
    } else {
      assert !Bit(Control(f), 5);
      assert [] + rest == rest;
      assert DecodeHop(g, Control(f), rest) == Ok((g, rest));
    }
  }

  /** The control octet's fields of a well-formed NPCI. */
  lemma ControlFields(f: NpciFields)
    requires WellFormed(f)
    ensures var c := Control(f);
      Fresh.(npduVersion := 1, npduControl := Some(c), pduExpectingReply := Bit(c, 2), pduNetworkPriority := c % 4)
      == Fresh.(npduControl := Some(c), pduExpectingReply := f.pduExpectingReply,
                pduNetworkPriority := f.pduNetworkPriority)
  {
    ControlBits(f);
  }

  /** Decoding into a fresh NPCI what `encode` wrote gives back the fields, with the control
    * octet `encode` stored, and leaves the octets after it. */
  lemma {:induction false} NpciRoundTrip(f: NpciFields, rest: seq<byte>)
    requires WellFormed(f)
    ensures EncodeNpci(f).Ok?
    ensures DecodeNpci(Fresh, EncodeNpci(f).value + rest) == Ok((f.(npduControl := Some(Control(f))), rest))
  {
    var c := Control(f);
    ControlFields(f);
    var g0 := Fresh.(npduControl := Some(c), pduExpectingReply := f.pduExpectingReply,
                     pduNetworkPriority := f.pduNetworkPriority);
    AddressesRoundTrip(f, g0, EncodeMessage(f).value + rest);
    var a := EncodeAddresses(f).value;
    var m := EncodeMessage(f).value;
    var g1 := g0.(npduDADR := f.npduDADR, npduSADR := f.npduSADR, npduHopCount := f.npduHopCount);
    MessageRoundTrip(f, g1, rest);
    assert g1.(npduNetMessage := f.npduNetMessage, npduVendorID := f.npduVendorID) == f.(npduControl := Some(c));
    var e := EncodeNpci(f).value + rest;
    Assoc([1, c] + a, m, rest);
    Assoc([1, c], a, m + rest);
    HeaderSplit(1, c, a + (m + rest));
  }

  lemma HeaderSplit(x: byte, y: byte, t: seq<byte>)
    ensures var e := [x, y] + t; |e| >= 2 && e[0] == x && e[1] == y && e[2..] == t
  {
  }

  lemma AddressesRoundTrip(f: NpciFields, g: NpciFields, tail: seq<byte>)
    requires WellFormed(f) && g.npduDADR.None? && g.npduSADR.None? && g.npduHopCount.None?
    ensures EncodeAddresses(f).Ok?
    ensures DecodeAddresses(g, Control(f), EncodeAddresses(f).value + tail) ==
      Ok((g.(npduDADR := f.npduDADR, npduSADR := f.npduSADR, npduHopCount := f.npduHopCount), tail))
  {
    var c := Control(f);
    ControlBits(f);
    var d := if f.npduDADR.Some? then EncodeDadr(f.npduDADR.value).value else [];
    var s := if f.npduSADR.Some? then EncodeNetAddr(f.npduSADR.value).value else [];
    var h := if f.npduDADR.Some? then [f.npduHopCount.value as byte] else [];
    assert EncodeAddresses(f) == Ok(d + s + h);
    var g1 := g.(npduDADR := f.npduDADR);
    assert DecodeDadr(g, c, d + (s + h + tail)) == Ok((g1, s + h + tail)) by {
      if f.npduDADR.Some? {
        DadrRoundTrip(f, g, s + h + tail);
      } else {
        assert d + (s + h + tail) == s + h + tail;
      }
    }
    var g2 := g1.(npduSADR := f.npduSADR);
    assert DecodeSadr(g1, c, s + (h + tail)) == Ok((g2, h + tail)) by {
      if f.npduSADR.Some? {
        SadrRoundTrip(f, g1, h + tail);
      } else {
        assert s + (h + tail) == h + tail;
      }
    }
    HopRoundTrip(f, g2, tail);
    Assoc(d, s + h, tail);
    Assoc(d, s, h);
    Assoc(s, h, tail);
  }

  // ---------------------------------------------------------------------------------
  // The NPCI object

  class NPCI {
    var npduVersion: int
    var npduControl: Option<int>
    var npduDADR: Option<Address>
    var npduSADR: Option<Address>
    var npduHopCount: Option<int>
    var npduNetMessage: Option<int>
    var npduVendorID: Option<int>
    var pduExpectingReply: bool
    var pduNetworkPriority: int

    function Fields(): NpciFields
      reads this
    {
      NpciFields(npduVersion, npduControl, npduDADR, npduSADR, npduHopCount, npduNetMessage,
                 npduVendorID, pduExpectingReply, pduNetworkPriority)
    }

    constructor ()
      ensures Fields() == Fresh
    {
      npduVersion, npduControl, npduDADR, npduSADR := 1, None, None, None;
      npduHopCount, npduNetMessage, npduVendorID := None, None, None;
      pduExpectingReply, pduNetworkPriority := false, 0;
    }

    method SetFields(f: NpciFields)
      modifies this
      ensures Fields() == f
    {
      npduVersion, npduControl, npduDADR, npduSADR := f.npduVersion, f.npduControl, f.npduDADR, f.npduSADR;
      npduHopCount, npduNetMessage, npduVendorID := f.npduHopCount, f.npduNetMessage, f.npduVendorID;
      pduExpectingReply, pduNetworkPriority := f.pduExpectingReply, f.pduNetworkPriority;
    }

    /** `update`: copy every NPCI field of `src`. */
    method Update(src: NPCI)
      modifies this
      ensures Fields() == old(src.Fields())
    {
      SetFields(src.Fields());
    }

    /** `encode`: writes the fields and records the control octet it wrote. */
    method Encode(pdu: PDUData) returns (r: Result<()>)
      modifies this, pdu
      ensures Wrote(EncodeNpci(old(Fields())), r, old(pdu.data), pdu.data)
      ensures r.Ok? ==> Fields() == old(Fields()).(npduControl := Some(Control(old(Fields()))))
    {
      var f := Fields();
      r := pdu.Put(npduVersion);
      if r.Err? { return; }
      var control := Control(f);
      npduControl := Some(control);
      r := pdu.Put(control);
      r := PutAddresses(pdu, f);
      if r.Err? { return; }
      r := PutMessage(pdu, f);
    }

    /** `decode`: reads the fields from the front of the buffer. */
    method Decode(pdu: PDUData) returns (r: Result<()>)
      modifies this, pdu
      ensures ReadNpci(DecodeNpci(old(Fields()), old(pdu.data)), r, Fields(), pdu.data)
    {
      if |pdu.data| < 2 {
        return Err(DecodingError);
      }
      var version := pdu.Get();
      npduVersion := version.value;
      if npduVersion != 1 {
        return Err(DecodingError);
      }
      var control := pdu.Get();
      var c := control.value;
      npduControl, pduExpectingReply, pduNetworkPriority := Some(c), Bit(c, 2), c % 4;
      r := GetAfterControl(pdu, c);
    }

    method GetAfterControl(pdu: PDUData, c: byte) returns (r: Result<()>)
      modifies this, pdu
      ensures ReadNpci(DecodeMessageAfter(DecodeAddresses(old(Fields()), c, old(pdu.data)), c), r, Fields(), pdu.data)
    {
      r := GetAddresses(pdu, c);
      if r.Err? { return; }
      r := GetMessage(pdu, c);
    }

    method GetAddresses(pdu: PDUData, c: byte) returns (r: Result<()>)
      modifies this, pdu
      ensures ReadNpci(DecodeAddresses(old(Fields()), c, old(pdu.data)), r, Fields(), pdu.data)
    {
      if Bit(c, 5) {
        r := GetDadr(pdu, c);
        if r.Err? { return; }
      }
      if Bit(c, 3) {
        r := GetSadr(pdu, c);
        if r.Err? { return; }
      }
      if Bit(c, 5) {
        var h := pdu.Get();
        if h.Err? { return Err(h.error); }
        npduHopCount := Some(h.value);
      }
      r := Ok(());
    }

    method GetDadr(pdu: PDUData, c: byte) returns (r: Result<()>)
      requires Bit(c, 5)
      modifies this, pdu
      ensures ReadNpci(DecodeDadr(old(Fields()), c, old(pdu.data)), r, Fields(), pdu.data)
    {
      var dnet := pdu.GetShort();
      if dnet.Err? { return Err(dnet.error); }
      var dlen := pdu.Get();
      if dlen.Err? { return Err(dlen.error); }
      var dadr := pdu.GetData(dlen.value);
      if dadr.Err? { return Err(dadr.error); }
      if dnet.value == 0xFFFF {
        npduDADR := Some(GlobalBroadcast);
      } else if dlen.value == 0 {
        npduDADR := Some(Address(RemoteBroadcastAddr, Some(dnet.value), None));
      } else {
        npduDADR := Some(Address(RemoteStationAddr, Some(dnet.value), Some(dadr.value)));
      }
      r := Ok(());
    }

    method GetSadr(pdu: PDUData, c: byte) returns (r: Result<()>)
      requires Bit(c, 3)
      modifies this, pdu
      ensures ReadNpci(DecodeSadr(old(Fields()), c, old(pdu.data)), r, Fields(), pdu.data)
    {
      var snet := pdu.GetShort();
      if snet.Err? { return Err(snet.error); }
      var slen := pdu.Get();
      if slen.Err? { return Err(slen.error); }
      var sadr := pdu.GetData(slen.value);
      if sadr.Err? { return Err(sadr.error); }
      if snet.value == 0xFFFF {
        return Err(DecodingError);
      } else if slen.value == 0 {
        return Err(DecodingError);
      }
      npduSADR := Some(Address(RemoteStationAddr, Some(snet.value), Some(sadr.value)));
      r := Ok(());
    }

    method GetMessage(pdu: PDUData, c: byte) returns (r: Result<()>)
      modifies this, pdu
      ensures ReadNpci(DecodeMessage(old(Fields()), c, old(pdu.data)), r, Fields(), pdu.data)
    {
      if !Bit(c, 7) {
        npduNetMessage := None;
        return Ok(());
      }
      var m := pdu.Get();
      if m.Err? { return Err(m.error); }
      npduNetMessage := Some(m.value);
      if 0x80 <= m.value {
        var v := pdu.GetShort();
        if v.Err? { return Err(v.error); }
        npduVendorID := Some(v.value);
      }
      r := Ok(());
    }
  }

  /** The decoded fields and remaining octets are those of `spec`, or the call failed as
    * `spec` did. */
  ghost predicate ReadNpci(spec: Result<(NpciFields, seq<byte>)>, r: Result<()>, f: NpciFields, rest: seq<byte>)
  {
    if spec.Ok? then r.Ok? && f == spec.value.0 && rest == spec.value.1 else r == Err(spec.error)
  }

  method PutNetAddr(pdu: PDUData, a: Address) returns (r: Result<()>)
    modifies pdu
    ensures Wrote(EncodeNetAddr(a), r, old(pdu.data), pdu.data)
  {
    if a.addrNet.None? {
      return Err(TypeError);
    }
    pdu.PutShort(a.addrNet.value);
    r := PutField(pdu, AddrLen(a));
    if r.Err? { return; }
    pdu.PutData(a.addrAddr.value);
  }

  method PutDadr(pdu: PDUData, a: Address) returns (r: Result<()>)
    modifies pdu
    ensures Wrote(EncodeDadr(a), r, old(pdu.data), pdu.data)
  {
    if a.addrType == RemoteStationAddr {
      r := PutNetAddr(pdu, a);
    } else if a.addrType == RemoteBroadcastAddr {
      if a.addrNet.None? {
        return Err(TypeError);
      }
      pdu.PutShort(a.addrNet.value);
      r := pdu.Put(0);
    } else if a.addrType == GlobalBroadcastAddr {
      pdu.PutShort(0xFFFF);
      r := pdu.Put(0);
    } else {
      r := Ok(());
    }
  }

  method PutAddresses(pdu: PDUData, f: NpciFields) returns (r: Result<()>)
    modifies pdu
    ensures Wrote(EncodeAddresses(f), r, old(pdu.data), pdu.data)
  {
    r := Ok(());
    if f.npduDADR.Some? {
      r := PutDadr(pdu, f.npduDADR.value);
      if r.Err? { return; }
    }
    if f.npduSADR.Some? {
      r := PutNetAddr(pdu, f.npduSADR.value);
      if r.Err? { return; }
    }
    if f.npduDADR.Some? {
      r := PutField(pdu, f.npduHopCount);
    }
  }

  method PutMessage(pdu: PDUData, f: NpciFields) returns (r: Result<()>)
    modifies pdu
    ensures Wrote(EncodeMessage(f), r, old(pdu.data), pdu.data)
  {
    if f.npduNetMessage.None? {
      return Ok(());
    }
    r := PutField(pdu, f.npduNetMessage);
    if r.Err? { return; }
    if 0x80 <= f.npduNetMessage.value {
      if f.npduVendorID.None? {
        return Err(TypeError);
      }
      pdu.PutShort(f.npduVendorID.value);
    }
  }
}
