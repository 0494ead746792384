/** Network layer messages (ASHRAE 135 clause 6.4) and the NPDU that carries them: the
  * message bodies written on and read from an NPDU's data (`bacpypes/network/npdu.py`). */
module Npdu {
  import opened Wrappers
  import opened Bytes
  import opened PduData
  import Npci

  /** One routing table entry: a network, a port and the port information octets. */
  datatype RoutingTableEntry = RoutingTableEntry(rtDNET: Option<int>, rtPortID: Option<int>, rtPortInfo: Option<seq<byte>>)

  /** The network layer messages, with the body fields of each message class. An unset
    * field is `None`; for `NetworkNumberIs`, whose class has no constructor, `None` is an
    * attribute that was never assigned. */
  datatype NetworkMessage =
    | WhoIsRouterToNetwork(wirtnNetwork: Option<int>)
    | IAmRouterToNetwork(iartnNetworkList: seq<int>)
    | ICouldBeRouterToNetwork(icbrtnNetwork: Option<int>, icbrtnPerformanceIndex: Option<int>)
    | RejectMessageToNetwork(rmtnRejectionReason: Option<int>, rmtnDNET: Option<int>)
    | RouterBusyToNetwork(rbtnNetworkList: seq<int>)
    | RouterAvailableToNetwork(ratnNetworkList: seq<int>)
    | InitializeRoutingTable(irtTable: seq<RoutingTableEntry>)
    | InitializeRoutingTableAck(irtaTable: seq<RoutingTableEntry>)
    | EstablishConnectionToNetwork(ectnDNET: Option<int>, ectnTerminationTime: Option<int>)
    | DisconnectConnectionToNetwork(dctnDNET: Option<int>)
    | WhatIsNetworkNumber
    | NetworkNumberIs(nniNET: Option<int>, nniFlag: Option<int>)

  /** The class attribute `messageType` of each message class. */
  function MessageType(m: NetworkMessage): byte
  {
    match m
    case WhoIsRouterToNetwork(_) => Npci.WhoIsRouterToNetwork
    case IAmRouterToNetwork(_) => Npci.IAmRouterToNetwork
    case ICouldBeRouterToNetwork(_, _) => Npci.ICouldBeRouterToNetwork
    case RejectMessageToNetwork(_, _) => Npci.RejectMessageToNetwork
    case RouterBusyToNetwork(_) => Npci.RouterBusyToNetwork
    case RouterAvailableToNetwork(_) => Npci.RouterAvailableToNetwork
    case InitializeRoutingTable(_) => Npci.InitializeRoutingTable
    case InitializeRoutingTableAck(_) => Npci.InitializeRoutingTableAck
    case EstablishConnectionToNetwork(_, _) => Npci.EstablishConnectionToNetwork
    case DisconnectConnectionToNetwork(_) => Npci.DisconnectConnectionToNetwork
    case WhatIsNetworkNumber => Npci.WhatIsNetworkNumber
    case NetworkNumberIs(_, _) => Npci.NetworkNumberIs
  }

  /** The message types with a registered class (`npdu_types`). */
  predicate Registered(t: int)
  {
    0 <= t <= 9 || t == Npci.WhatIsNetworkNumber || t == Npci.NetworkNumberIs
  }

  // ---------------------------------------------------------------------------------
  // Encoding the bodies

  /** `put_short` of a list of networks, in order. */
  function Shorts(nets: seq<int>): (r: seq<byte>)
    ensures |r| == 2 * |nets|
  {
    if |nets| == 0 then [] else Shorts(nets[..|nets| - 1]) + Short(nets[|nets| - 1])
  }

  /** One entry: the network (2 octets), the port ID, the length of the port information,
    * then the information. */
  function EncodeEntry(e: RoutingTableEntry): Result<seq<byte>>
  {
    var dnet :- Npci.NetShort(e.rtDNET);
    var port :- Octet(e.rtPortID);
    if e.rtPortInfo.None? then Err(TypeError)
    else
      var len :- Octet(Some(|e.rtPortInfo.value|));
      Ok(dnet + [port, len] + e.rtPortInfo.value)
  }

  /** The entries one after the other; the first entry that cannot be written stops it. */
  function EncodeEntries(t: seq<RoutingTableEntry>): Result<seq<byte>>
  {
    if |t| == 0 then Ok([])
    else
      var front :- EncodeEntries(t[..|t| - 1]);
      var last :- EncodeEntry(t[|t| - 1]);
      Ok(front + last)
  }

  /** A routing table: the number of entries in one octet, then the entries. */
  function EncodeTable(t: seq<RoutingTableEntry>): Result<seq<byte>>
  {
    var n :- Octet(Some(|t|));
    var e :- EncodeEntries(t);
    Ok([n] + e)
  }

  /** `put_short` of a network then `put` of an octet; `unset` is what a missing field
    * raises (a TypeError for `None`, an AttributeError for an attribute never assigned). */
  function ShortOctet(n: Option<int>, p: Option<int>, unset: Error): Result<seq<byte>>
  {
    if n.None? then Err(unset)
    else if p.None? then Err(unset)
    else
      var o :- Octet(p);
      Ok(Short(n.value) + [o])
  }

  /** The body each message class's `encode` writes. */
  function EncodeBody(m: NetworkMessage): Result<seq<byte>>
  {
    match m
    case WhoIsRouterToNetwork(net) => if net.None? then Ok([]) else Ok(Short(net.value))
    case IAmRouterToNetwork(nets) => Ok(Shorts(nets))
    case ICouldBeRouterToNetwork(net, perf) => ShortOctet(net, perf, TypeError)
    case RejectMessageToNetwork(reason, dnet) =>
      var p :- OctetSeq(reason);
      var n :- Npci.NetShort(dnet);
      Ok(p + n)
    case RouterBusyToNetwork(nets) => Ok(Shorts(nets))
    case RouterAvailableToNetwork(nets) => Ok(Shorts(nets))
    case InitializeRoutingTable(table) => EncodeTable(table)
    case InitializeRoutingTableAck(table) => EncodeTable(table)
    case EstablishConnectionToNetwork(dnet, time) => ShortOctet(dnet, time, TypeError)
    case DisconnectConnectionToNetwork(dnet) => Npci.NetShort(dnet)
    case WhatIsNetworkNumber => Ok([])
    case NetworkNumberIs(net, flag) => ShortOctet(net, flag, AttributeError)
  }

  /** `RouterBusyToNetwork.encode` as written: it writes `ratnNetworkList`, an attribute of
    * the Router-Available class that a Router-Busy message never has. */
  function EncodeBodyAsWritten(m: NetworkMessage): Result<seq<byte>>
  {
    if m.RouterBusyToNetwork? then Err(AttributeError) else EncodeBody(m)
  }

  // ---------------------------------------------------------------------------------
  // Decoding the bodies

  /** `get_short` until the data is empty; an odd octet left over is a decoding error. */
  function DecodeShorts(s: seq<byte>): (r: Result<seq<int>>)
    ensures r.Ok? <==> |s| % 2 == 0
    ensures r.Err? ==> r.error == DecodingError
    ensures r.Ok? ==> |r.value| * 2 == |s| && Shorts(r.value) == s
    ensures r.Ok? ==> forall i :: 0 <= i < |r.value| ==> 0 <= r.value[i] < ShortMask
    decreases |s|
  {
    if |s| == 0 then Ok([])
    else
      var n :- TakeShort(s);
      assert |n.1| == |s| - 2 && (|s| % 2 == 0 <==> |n.1| % 2 == 0) by { assert |Short(n.0)| == 2; }
      var nets :- DecodeShorts(n.1);
      var r: seq<int> := [n.0 as int] + nets;
      ShortsCons(n.0, nets);
      assert Shorts(r) == s;
      assert forall i :: 1 <= i < |r| ==> r[i] == nets[i - 1];
      Ok(r)
  }

  /** One step of `DecodeShorts`: the first network, then the others. */
  lemma ShortsStep(s: seq<byte>)
    requires |s| >= 2
    ensures DecodeShorts(s) == Prefixed([ShortValue(s[..2])], DecodeShorts(s[2..]))
  {
  }

  lemma PrefixedTwice(a: seq<int>, b: seq<int>, r: Result<seq<int>>)
    ensures Prefixed(a, Prefixed(b, r)) == Prefixed(a + b, r)
  {
    if r.Ok? {
      assert a + (b + r.value) == a + b + r.value;
    }
  }

  lemma {:induction false} ShortsCons(n: int, nets: seq<int>)
    ensures Shorts([n] + nets) == Short(n) + Shorts(nets)
    decreases |nets|
  {
    if |nets| > 0 {
      var front := nets[..|nets| - 1];
      assert ([n] + nets)[..|nets|] == [n] + front;
      ShortsCons(n, front);
    }
  }

  /** One entry read back: network, port ID, information length and information. */
  function DecodeEntry(s: seq<byte>): (r: Result<(RoutingTableEntry, seq<byte>)>)
    ensures r.Ok? ==> EntryForm(r.value.0) && |r.value.1| + 4 <= |s|
  {
    var dnet :- TakeShort(s);
    var port :- Take(dnet.1);
    var len :- Take(port.1);
    var info :- TakeData(len.1, len.0);
    Ok((RoutingTableEntry(Some(dnet.0), Some(port.0 as int), Some(info.0)), info.1))
  }

  /** `n` entries, one after the other. */
  function DecodeEntries(n: nat, s: seq<byte>): (r: Result<(seq<RoutingTableEntry>, seq<byte>)>)
    ensures r.Ok? ==> |r.value.0| == n && |r.value.1| <= |s|
    ensures r.Ok? ==> forall i :: 0 <= i < n ==> EntryForm(r.value.0[i])
    decreases n
  {
    if n == 0 then Ok(([], s))
    else
      var e :- DecodeEntry(s);
      var t :- DecodeEntries(n - 1, e.1);
      Ok(([e.0] + t.0, t.1))
  }

  /** A routing table read back: the entry count, then that many entries. */
  function DecodeTable(s: seq<byte>): (r: Result<(seq<RoutingTableEntry>, seq<byte>)>)
    ensures r.Ok? ==> |r.value.0| < 256 && |r.value.1| < |s|
  {
    var n :- Take(s);
    DecodeEntries(n.0, n.1)
  }

  /** The body the class registered for message type `t` reads; the network lists take
    * everything that is left, the other messages leave what they do not read. */
  function DecodeBody(t: int, s: seq<byte>): (r: Result<(NetworkMessage, seq<byte>)>)
    ensures !Registered(t) ==> r == Err(KeyError)
    ensures r.Ok? ==> MessageType(r.value.0) == t && |r.value.1| <= |s|
  {
    if t == Npci.WhoIsRouterToNetwork then
      if |s| == 0 then Ok((WhoIsRouterToNetwork(None), s))
      else
        var n :- TakeShort(s);
        Ok((WhoIsRouterToNetwork(Some(n.0)), n.1))
    else if t == Npci.IAmRouterToNetwork then
      var nets :- DecodeShorts(s);
      Ok((IAmRouterToNetwork(nets), []))
    else if t == Npci.ICouldBeRouterToNetwork then
      var n :- TakeShort(s);
      var p :- Take(n.1);
      Ok((ICouldBeRouterToNetwork(Some(n.0), Some(p.0 as int)), p.1))
    else if t == Npci.RejectMessageToNetwork then
      var p :- Take(s);
      var n :- TakeShort(p.1);
      Ok((RejectMessageToNetwork(Some(p.0 as int), Some(n.0)), n.1))
    else if t == Npci.RouterBusyToNetwork then
      var nets :- DecodeShorts(s);
      Ok((RouterBusyToNetwork(nets), []))
    else if t == Npci.RouterAvailableToNetwork then
      var nets :- DecodeShorts(s);
      Ok((RouterAvailableToNetwork(nets), []))
    else if t == Npci.InitializeRoutingTable then
      var table :- DecodeTable(s);
      Ok((InitializeRoutingTable(table.0), table.1))
    else if t == Npci.InitializeRoutingTableAck then
      var table :- DecodeTable(s);
      Ok((InitializeRoutingTableAck(table.0), table.1))
    else if t == Npci.EstablishConnectionToNetwork then
      var n :- TakeShort(s);
      var p :- Take(n.1);
      Ok((EstablishConnectionToNetwork(Some(n.0), Some(p.0 as int)), p.1))
    else if t == Npci.DisconnectConnectionToNetwork then
      var n :- TakeShort(s);
      Ok((DisconnectConnectionToNetwork(Some(n.0)), n.1))
    else if t == Npci.WhatIsNetworkNumber then Ok((WhatIsNetworkNumber, s))
    else if t == Npci.NetworkNumberIs then
      var n :- TakeShort(s);
      var p :- Take(n.1);
      Ok((NetworkNumberIs(Some(n.0), Some(p.0 as int)), p.1))
    else Err(KeyError)
  }

  // ---------------------------------------------------------------------------------
  // Round trips

  predicate IsShort(x: Option<int>) { x.Some? && 0 <= x.value < ShortMask }

  predicate Nets(nets: seq<int>) { forall i :: 0 <= i < |nets| ==> 0 <= nets[i] < ShortMask }

  /** An entry every field of which fits its octets. */
  predicate EntryForm(e: RoutingTableEntry)
  {
    IsShort(e.rtDNET) && IsOctet(e.rtPortID) && e.rtPortInfo.Some? && |e.rtPortInfo.value| < 256
  }

  predicate TableForm(t: seq<RoutingTableEntry>)
  {
    |t| < 256 && forall i :: 0 <= i < |t| ==> EntryForm(t[i])
  }

  /** A message whose fields are all set and fit their octets. */
  predicate BodyForm(m: NetworkMessage)
  {
    match m
    case WhoIsRouterToNetwork(net) => net.Some? ==> IsShort(net)
    case IAmRouterToNetwork(nets) => Nets(nets)
    case ICouldBeRouterToNetwork(net, perf) => IsShort(net) && IsOctet(perf)
    case RejectMessageToNetwork(reason, dnet) => IsOctet(reason) && IsShort(dnet)
    case RouterBusyToNetwork(nets) => Nets(nets)
    case RouterAvailableToNetwork(nets) => Nets(nets)
    case InitializeRoutingTable(table) => TableForm(table)
    case InitializeRoutingTableAck(table) => TableForm(table)
    case EstablishConnectionToNetwork(dnet, time) => IsShort(dnet) && IsOctet(time)
    case DisconnectConnectionToNetwork(dnet) => IsShort(dnet)
    case WhatIsNetworkNumber => true
    case NetworkNumberIs(net, flag) => IsShort(net) && IsOctet(flag)
  }

  /** The network lists consume the rest of the data, and so does a Who-Is-Router with no
    * network (an empty body is what makes it so): only the other messages can be followed
    * by more octets. */
  predicate Delimited(m: NetworkMessage)
  {
    match m
    case WhoIsRouterToNetwork(net) => net.Some?
    case IAmRouterToNetwork(_) => false
    case RouterBusyToNetwork(_) => false
    case RouterAvailableToNetwork(_) => false
    case _ => true
  }

  /** Reading a list of networks back gives the list. */
  lemma {:induction false} ShortsRoundTrip(nets: seq<int>)
    requires Nets(nets)
    ensures DecodeShorts(Shorts(nets)) == Ok(nets)
    decreases |nets|
  {
    if |nets| > 0 {
      var tail := nets[1..];
      assert nets == [nets[0]] + tail;
      ShortsCons(nets[0], tail);
      ShortThen(nets[0], Shorts(tail));
      ShortsRoundTrip(tail);
    }
  }

  lemma ShortThen(n: int, rest: seq<byte>)
    requires 0 <= n < ShortMask
    ensures TakeShort(Short(n) + rest) == Ok((n, rest))
  {
    Npci.ShortThen(n, rest);
  }

  /** Reading an entry back gives the entry and leaves what follows it. */
  lemma EntryRoundTrip(e: RoutingTableEntry, rest: seq<byte>)
    requires EntryForm(e)
    ensures EncodeEntry(e).Ok? && DecodeEntry(EncodeEntry(e).value + rest) == Ok((e, rest))
  {
    var info := e.rtPortInfo.value;
    var port := e.rtPortID.value as byte;
    var tail := [port, |info|] + info + rest;
    assert EncodeEntry(e).value + rest == Short(e.rtDNET.value) + tail;
    ShortThen(e.rtDNET.value, tail);
    assert tail[1..] == [|info|] + info + rest;
    assert (info + rest)[..|info|] == info && (info + rest)[|info|..] == rest;
    assert ([|info|] + info + rest)[1..] == info + rest;
  }

  lemma {:induction false} EntriesCons(e: RoutingTableEntry, t: seq<RoutingTableEntry>)
    requires EncodeEntry(e).Ok? && EncodeEntries(t).Ok?
    ensures EncodeEntries([e] + t) == Ok(EncodeEntry(e).value + EncodeEntries(t).value)
    decreases |t|
  {
    if |t| > 0 {
      var front := t[..|t| - 1];
      assert ([e] + t)[..|t|] == [e] + front;
      assert ([e] + t)[|t|] == t[|t| - 1];
      assert EncodeEntries(t) == Ok(EncodeEntries(front).value + EncodeEntry(t[|t| - 1]).value);
      EntriesCons(e, front);
      assert EncodeEntries([e] + t) == Ok(EncodeEntries([e] + front).value + EncodeEntry(t[|t| - 1]).value);
      Assoc(EncodeEntry(e).value, EncodeEntries(front).value, EncodeEntry(t[|t| - 1]).value);
    } else {
      assert [e] + t == [e];
      assert EncodeEntries([e]) == Ok([] + EncodeEntry(e).value);
      assert EncodeEntry(e).value + [] == [] + EncodeEntry(e).value;
    }
  }

  lemma {:induction false} EntriesRoundTrip(t: seq<RoutingTableEntry>, rest: seq<byte>)
    requires forall i :: 0 <= i < |t| ==> EntryForm(t[i])
    ensures EncodeEntries(t).Ok?
    ensures DecodeEntries(|t|, EncodeEntries(t).value + rest) == Ok((t, rest))
    decreases |t|
  {
    if |t| > 0 {
      var tail := t[1..];
      assert t == [t[0]] + tail;
      EntriesRoundTrip(tail, rest);
      EntryRoundTrip(t[0], EncodeEntries(tail).value + rest);
      EntriesCons(t[0], tail);
      Assoc(EncodeEntry(t[0]).value, EncodeEntries(tail).value, rest);
    } else {
      assert EncodeEntries(t).value + rest == rest;
    }
  }

  /** Reading a routing table back gives the table and leaves what follows it. */
  lemma TableRoundTrip(t: seq<RoutingTableEntry>, rest: seq<byte>)
    requires TableForm(t)
    ensures EncodeTable(t).Ok? && DecodeTable(EncodeTable(t).value + rest) == Ok((t, rest))
  {
    EntriesRoundTrip(t, rest);
    var e := EncodeEntries(t).value;
    assert EncodeTable(t) == Ok([|t| as byte] + e);
    assert ([|t| as byte] + e) + rest == [|t| as byte] + (e + rest);
    assert Take([|t| as byte] + (e + rest)) == Ok((|t| as byte, e + rest));
  }

  /** Two fields read back: a network then an octet. */
  lemma ShortOctetRoundTrip(n: int, p: int, rest: seq<byte>)
    requires 0 <= n < ShortMask && 0 <= p < 256
    ensures var s := Short(n) + [p] + rest;
      TakeShort(s) == Ok((n, [p] + rest)) && Take([p] + rest) == Ok((p, rest))
  {
    ShortThen(n, [p] + rest);
    Assoc(Short(n), [p], rest);
    assert ([p] + rest)[1..] == rest;
  }

  /** Decoding a body that `encode` wrote, under the message's own type, gives back the
    * message and leaves what follows it. */
  lemma {:induction false} BodyRoundTrip(m: NetworkMessage, rest: seq<byte>)
    requires BodyForm(m) && (Delimited(m) || rest == [])
    ensures EncodeBody(m).Ok?
    ensures DecodeBody(MessageType(m), EncodeBody(m).value + rest) == Ok((m, rest))
  {
    if m.IAmRouterToNetwork? || m.RouterBusyToNetwork? || m.RouterAvailableToNetwork? {
      ListBodyRoundTrip(m, rest);
    } else if m.InitializeRoutingTable? || m.InitializeRoutingTableAck? {
      TableBodyRoundTrip(m, rest);
    } else if m.ICouldBeRouterToNetwork? || m.EstablishConnectionToNetwork? || m.NetworkNumberIs? {
      ShortOctetBodyRoundTrip(m, rest);
    } else {
      ShortBodyRoundTrip(m, rest);
    }
  }

  /** The bodies that are a list of networks. */
  lemma ListBodyRoundTrip(m: NetworkMessage, rest: seq<byte>)
    requires m.IAmRouterToNetwork? || m.RouterBusyToNetwork? || m.RouterAvailableToNetwork?
    requires BodyForm(m) && (Delimited(m) || rest == [])
    ensures EncodeBody(m).Ok?
    ensures DecodeBody(MessageType(m), EncodeBody(m).value + rest) == Ok((m, rest))
  {
    match m
    case IAmRouterToNetwork(nets) =>
      ShortsRoundTrip(nets);
      assert Shorts(nets) + rest == Shorts(nets);
    case RouterBusyToNetwork(nets) =>
      ShortsRoundTrip(nets);
      assert Shorts(nets) + rest == Shorts(nets);
    case RouterAvailableToNetwork(nets) =>
      ShortsRoundTrip(nets);
      assert Shorts(nets) + rest == Shorts(nets);
  }

  /** The bodies that are a routing table. */
  lemma TableBodyRoundTrip(m: NetworkMessage, rest: seq<byte>)
    requires m.InitializeRoutingTable? || m.InitializeRoutingTableAck?
    requires BodyForm(m) && (Delimited(m) || rest == [])
    ensures EncodeBody(m).Ok?
    ensures DecodeBody(MessageType(m), EncodeBody(m).value + rest) == Ok((m, rest))
  {
    match m
    case InitializeRoutingTable(table) =>
      TableRoundTrip(table, rest);
      RoutingTableBody(EncodeTable(table).value + rest);
    case InitializeRoutingTableAck(table) =>
      TableRoundTrip(table, rest);
      RoutingTableAckBody(EncodeTable(table).value + rest);
  }

  /** How an Initialize-Routing-Table body is read: a table, then the rest. */
  lemma RoutingTableBody(s: seq<byte>)
    ensures DecodeBody(Npci.InitializeRoutingTable, s) ==
      if DecodeTable(s).Ok? then Ok((InitializeRoutingTable(DecodeTable(s).value.0), DecodeTable(s).value.1))
      else Err(DecodeTable(s).error)
  {
  }

  lemma RoutingTableAckBody(s: seq<byte>)
    ensures DecodeBody(Npci.InitializeRoutingTableAck, s) ==
      if DecodeTable(s).Ok? then Ok((InitializeRoutingTableAck(DecodeTable(s).value.0), DecodeTable(s).value.1))
      else Err(DecodeTable(s).error)
  {
  }

  /** The bodies that are a network and one octet. */
  lemma ShortOctetBodyRoundTrip(m: NetworkMessage, rest: seq<byte>)
    requires m.ICouldBeRouterToNetwork? || m.EstablishConnectionToNetwork? || m.NetworkNumberIs?
    requires BodyForm(m) && (Delimited(m) || rest == [])
    ensures EncodeBody(m).Ok?
    ensures DecodeBody(MessageType(m), EncodeBody(m).value + rest) == Ok((m, rest))
  {
    match m
    case ICouldBeRouterToNetwork(net, perf) =>
      ShortOctetRoundTrip(net.value, perf.value, rest);
      assert EncodeBody(m).value + rest == Short(net.value) + [perf.value as byte] + rest;
    case EstablishConnectionToNetwork(dnet, time) =>
      ShortOctetRoundTrip(dnet.value, time.value, rest);
      assert EncodeBody(m).value + rest == Short(dnet.value) + [time.value as byte] + rest;
    case NetworkNumberIs(net, flag) =>
      ShortOctetRoundTrip(net.value, flag.value, rest);
      assert EncodeBody(m).value + rest == Short(net.value) + [flag.value as byte] + rest;
  }

  /** The bodies that are empty, one network, or a reason and a network. */
  lemma ShortBodyRoundTrip(m: NetworkMessage, rest: seq<byte>)
    requires m.WhoIsRouterToNetwork? || m.RejectMessageToNetwork? || m.DisconnectConnectionToNetwork? || m.WhatIsNetworkNumber?
    requires BodyForm(m) && (Delimited(m) || rest == [])
    ensures EncodeBody(m).Ok?
    ensures DecodeBody(MessageType(m), EncodeBody(m).value + rest) == Ok((m, rest))
  {
    match m
    case WhoIsRouterToNetwork(net) =>
      if net.Some? {
        ShortThen(net.value, rest);
      }
    case RejectMessageToNetwork(reason, dnet) =>
      ShortThen(dnet.value, rest);
      assert EncodeBody(m).value + rest == [reason.value as byte] + (Short(dnet.value) + rest);
    case DisconnectConnectionToNetwork(dnet) =>
      ShortThen(dnet.value, rest);
    case WhatIsNetworkNumber =>
      assert EncodeBody(m).value + rest == rest;
  }

  /** A Router-Busy-To-Network message as written can never be sent: its `encode` fails on
    * every network list, while the corrected body reads back as the same list. */
  lemma RouterBusyAsWritten(nets: seq<int>)
    requires Nets(nets)
    ensures EncodeBodyAsWritten(RouterBusyToNetwork(nets)) == Err(AttributeError)
    ensures DecodeBody(Npci.RouterBusyToNetwork, EncodeBody(RouterBusyToNetwork(nets)).value) ==
      Ok((RouterBusyToNetwork(nets), []))
  {
    BodyRoundTrip(RouterBusyToNetwork(nets), []);
    assert EncodeBody(RouterBusyToNetwork(nets)).value + [] == EncodeBody(RouterBusyToNetwork(nets)).value;
  }

  // ---------------------------------------------------------------------------------
  // The NPDU on the wire

  /** `NPDU.encode`: the NPCI, then the NPDU's data. */
  function EncodeNpdu(f: Npci.NpciFields, data: seq<byte>): Result<seq<byte>>
  {
    var h :- Npci.EncodeNpci(f);
    Ok(h + data)
  }

  /** `NPDU.decode`: the NPCI, then everything that is left is the data. */
  function DecodeNpdu(f: Npci.NpciFields, s: seq<byte>): (r: Result<(Npci.NpciFields, seq<byte>)>)
    ensures r.Ok? ==> |r.value.1| < |s|
  {
    Npci.DecodeNpci(f, s)
  }

  /** Decoding into a fresh NPDU the octets `encode` wrote gives the NPCI fields with the
    * control octet that was written, and the data unchanged. */
  lemma NpduRoundTrip(f: Npci.NpciFields, data: seq<byte>)
    requires Npci.WellFormed(f)
    ensures EncodeNpdu(f, data).Ok?
    ensures DecodeNpdu(Npci.Fresh, EncodeNpdu(f, data).value) == Ok((f.(npduControl := Some(Npci.Control(f))), data))
  {
    Npci.NpciRoundTrip(f, data);
  }

  /** The `npduNetMessage` each message class's constructor sets, as written: the Network-
    * Number classes have no constructor, so theirs stays the NPCI default `None`. */
  function ConstructedNetMessageAsWritten(m: NetworkMessage): Option<int>
  {
    if m.WhatIsNetworkNumber? || m.NetworkNumberIs? then None else Some(MessageType(m) as int)
  }

  /** The `npduNetMessage` a message class's constructor evidently should set: its type. */
  function ConstructedNetMessage(m: NetworkMessage): Option<int>
  {
    Some(MessageType(m) as int)
  }

  /** A message sent in an NPDU: the message's own NPCI fields (copied into the NPDU by the
    * message's `encode`), then its body as the NPDU's data. */
  function EncodeNetworkMessage(f: Npci.NpciFields, m: NetworkMessage): Result<seq<byte>>
  {
    var body :- EncodeBody(m);
    EncodeNpdu(f, body)
  }

  /** What a network service element makes of the octets: the NPCI; then, if it names a
    * network layer message, that message decoded from the data, and otherwise nothing, the
    * data being for the application layer. */
  function DecodeNetworkMessage(s: seq<byte>): (r: Result<(Npci.NpciFields, Option<NetworkMessage>)>)
    ensures r.Ok? ==> (r.value.1.Some? <==> r.value.0.npduNetMessage.Some?)
    ensures r.Ok? && r.value.1.Some? ==> Some(MessageType(r.value.1.value) as int) == r.value.0.npduNetMessage
  {
    var npdu :- DecodeNpdu(Npci.Fresh, s);
    if npdu.0.npduNetMessage.None? then Ok((npdu.0, None))
    else
      var m :- DecodeBody(npdu.0.npduNetMessage.value, npdu.1);
      Ok((npdu.0, Some(m.0)))
  }

  /** A message built by the corrected constructor, sent and received, is the same message
    * with the same NPCI fields. */
  lemma NetworkMessageRoundTrip(f: Npci.NpciFields, m: NetworkMessage)
    requires Npci.WellFormed(f) && f.npduNetMessage == ConstructedNetMessage(m) && BodyForm(m)
    ensures EncodeNetworkMessage(f, m).Ok?
    ensures DecodeNetworkMessage(EncodeNetworkMessage(f, m).value) ==
      Ok((f.(npduControl := Some(Npci.Control(f))), Some(m)))
  {
    BodyRoundTrip(m, []);
    var body := EncodeBody(m).value;
    assert body + [] == body;
    NpduRoundTrip(f, body);
  }

  /** A What-Is-Network-Number or Network-Number-Is message as written reaches the
    * receiver as application layer data: the control octet does not mark it as a
    * network layer message and no message is decoded. */
  lemma NetworkNumberAsWritten(f: Npci.NpciFields, m: NetworkMessage)
    requires m.WhatIsNetworkNumber? || m.NetworkNumberIs?
    requires Npci.WellFormed(f) && f.npduNetMessage == ConstructedNetMessageAsWritten(m) && BodyForm(m)
    ensures EncodeNetworkMessage(f, m).Ok?
    ensures !Bit(Npci.Control(f), 7)
    ensures DecodeNetworkMessage(EncodeNetworkMessage(f, m).value) ==
      Ok((f.(npduControl := Some(Npci.Control(f))), None))
  {
    Npci.ControlBits(f);
    BodyRoundTrip(m, []);
    NpduRoundTrip(f, EncodeBody(m).value);
  }

  // ---------------------------------------------------------------------------------
  // Writing and reading the bodies on a PDUData

  /** The loop of the list messages' `encode`. */
  method PutNetworkList(pdu: PDUData, nets: seq<int>)
    modifies pdu
    ensures pdu.data == old(pdu.data) + Shorts(nets)
  {
    for i := 0 to |nets|
      invariant pdu.data == old(pdu.data) + Shorts(nets[..i])
    {
      assert nets[..i + 1][..i] == nets[..i];
      pdu.PutShort(nets[i]);
    }
    assert nets[..|nets|] == nets;
  }

  function Prefixed(acc: seq<int>, r: Result<seq<int>>): Result<seq<int>>
  {
    if r.Ok? then Ok(acc + r.value) else r
  }

  /** The loop of the list messages' `decode`: `get_short` while any data is left. */
  method GetNetworkList(pdu: PDUData) returns (r: Result<seq<int>>)
    modifies pdu
    ensures r == DecodeShorts(old(pdu.data))
    ensures r.Ok? ==> pdu.data == []
  {
    var nets: seq<int> := [];
    assert Prefixed([], DecodeShorts(pdu.data)) == DecodeShorts(pdu.data) by {
      if DecodeShorts(pdu.data).Ok? {
        assert [] + DecodeShorts(pdu.data).value == DecodeShorts(pdu.data).value;
      }
    }
    while |pdu.data| > 0
      invariant DecodeShorts(old(pdu.data)) == Prefixed(nets, DecodeShorts(pdu.data))
      decreases |pdu.data|
    {
      ghost var before := pdu.data;
      var n := pdu.GetShort();
      if n.Err? {
        return Err(n.error);
      }
      ShortsStep(before);
      PrefixedTwice(nets, [n.value], DecodeShorts(pdu.data));
      nets := nets + [n.value];
    }
    assert nets + [] == nets;
    return Ok(nets);
  }

  method PutEntry(pdu: PDUData, e: RoutingTableEntry) returns (r: Result<()>)
    modifies pdu
    ensures Wrote(EncodeEntry(e), r, old(pdu.data), pdu.data)
  {
    if e.rtDNET.None? {
      return Err(TypeError);
    }
    pdu.PutShort(e.rtDNET.value);
    r := PutField(pdu, e.rtPortID);
    if r.Err? {
      return;
    }
    if e.rtPortInfo.None? {
      return Err(TypeError);
    }
    r := pdu.Put(|e.rtPortInfo.value|);
    if r.Err? {
      return;
    }
    pdu.PutData(e.rtPortInfo.value);
  }

  lemma {:induction false} EntriesFailFrom(t: seq<RoutingTableEntry>, j: nat)
    requires j <= |t| && EncodeEntries(t[..j]).Err?
    ensures EncodeEntries(t) == Err(EncodeEntries(t[..j]).error)
    decreases |t| - j
  {
    if j < |t| {
      var front := t[..|t| - 1];
      assert front[..j] == t[..j];
      EntriesFailFrom(front, j);
    } else {
      assert t[..j] == t;
    }
  }

  /** The routing table part of `InitializeRoutingTable.encode` (and of the Ack). */
  method PutRoutingTable(pdu: PDUData, table: seq<RoutingTableEntry>) returns (r: Result<()>)
    modifies pdu
    ensures Wrote(EncodeTable(table), r, old(pdu.data), pdu.data)
  {
    r := pdu.Put(|table|);
    if r.Err? {
      return;
    }
    ghost var start := pdu.data;
    for i := 0 to |table|
      invariant EncodeEntries(table[..i]).Ok?
      invariant pdu.data == start + EncodeEntries(table[..i]).value
    {
      assert table[..i + 1][..i] == table[..i];
      ghost var mid := pdu.data;
      r := PutEntry(pdu, table[i]);
      if r.Err? {
        EntriesFailFrom(table, i + 1);
        return;
      }
      Assoc(start, EncodeEntries(table[..i]).value, EncodeEntry(table[i]).value);
    }
    assert table[..|table|] == table;
    r := Ok(());
  }

  function PrefixedTable(acc: seq<RoutingTableEntry>, r: Result<(seq<RoutingTableEntry>, seq<byte>)>):
    Result<(seq<RoutingTableEntry>, seq<byte>)>
  {
    if r.Ok? then Ok((acc + r.value.0, r.value.1)) else r
  }

  /** One step of `DecodeEntries`: the first entry, then the others. */
  lemma EntriesStep(n: nat, s: seq<byte>)
    requires n > 0
    ensures DecodeEntry(s).Err? ==> DecodeEntries(n, s) == Err(DecodeEntry(s).error)
    ensures DecodeEntry(s).Ok? ==>
      DecodeEntries(n, s) == PrefixedTable([DecodeEntry(s).value.0], DecodeEntries(n - 1, DecodeEntry(s).value.1))
  {
  }

  lemma PrefixedTableTwice(a: seq<RoutingTableEntry>, b: seq<RoutingTableEntry>, r: Result<(seq<RoutingTableEntry>, seq<byte>)>)
    ensures PrefixedTable(a, PrefixedTable(b, r)) == PrefixedTable(a + b, r)
  {
    if r.Ok? {
      assert a + (b + r.value.0) == a + b + r.value.0;
    }
  }

  method GetEntry(pdu: PDUData) returns (r: Result<RoutingTableEntry>)
    modifies pdu
    ensures Took(DecodeEntry(old(pdu.data)), r, pdu.data)
  {
    var dnet := pdu.GetShort();
    if dnet.Err? {
      return Err(dnet.error);
    }
    var port := pdu.Get();
    if port.Err? {
      return Err(port.error);
    }
    var len := pdu.Get();
    if len.Err? {
      return Err(len.error);
    }
    var info := pdu.GetData(len.value);
    if info.Err? {
      return Err(info.error);
    }
    r := Ok(RoutingTableEntry(Some(dnet.value), Some(port.value as int), Some(info.value)));
  }

  /** The routing table part of `InitializeRoutingTable.decode`: the count, then a loop
    * reading that many entries. */
  method GetRoutingTable(pdu: PDUData) returns (r: Result<seq<RoutingTableEntry>>)
    modifies pdu
    ensures Took(DecodeTable(old(pdu.data)), r, pdu.data)
  {
    var n := pdu.Get();
    if n.Err? {
      return Err(n.error);
    }
    r := GetEntries(pdu, n.value);
  }

  /** The loop reading `count` entries. */
  method GetEntries(pdu: PDUData, count: nat) returns (r: Result<seq<RoutingTableEntry>>)
    modifies pdu
    ensures Took(DecodeEntries(count, old(pdu.data)), r, pdu.data)
  {
    var table: seq<RoutingTableEntry> := [];
    ghost var spec := DecodeEntries(count, pdu.data);
    assert PrefixedTable([], spec) == spec by {
      if spec.Ok? {
        assert [] + spec.value.0 == spec.value.0;
      }
    }
    for i := 0 to count
      invariant spec == PrefixedTable(table, DecodeEntries(count - i, pdu.data))
    {
      ghost var before := pdu.data;
      var e := GetEntry(pdu);
      EntriesStep(count - i, before);
      if e.Err? {
        return Err(e.error);
      }
      PrefixedTableTwice(table, [e.value], DecodeEntries(count - i - 1, pdu.data));
      table := table + [e.value];
    }
    assert table + [] == table;
    r := Ok(table);
  }

  /** Each message class's `encode`, onto the NPDU's data. */
  method PutBody(pdu: PDUData, m: NetworkMessage) returns (r: Result<()>)
    modifies pdu
    ensures Wrote(EncodeBody(m), r, old(pdu.data), pdu.data)
  {
    match m
    case WhoIsRouterToNetwork(net) =>
      if net.Some? {
        pdu.PutShort(net.value);
      }
      r := Ok(());
    case IAmRouterToNetwork(nets) =>
      PutNetworkList(pdu, nets);
      r := Ok(());
    case ICouldBeRouterToNetwork(net, perf) =>
      r := PutShortOctet(pdu, net, perf, TypeError);
    case RejectMessageToNetwork(reason, dnet) =>
      r := PutField(pdu, reason);
      if r.Err? {
        return;
      }
      if dnet.None? {
        return Err(TypeError);
      }
      pdu.PutShort(dnet.value);
    case RouterBusyToNetwork(nets) =>
      PutNetworkList(pdu, nets);
      r := Ok(());
    case RouterAvailableToNetwork(nets) =>
      PutNetworkList(pdu, nets);
      r := Ok(());
    case InitializeRoutingTable(table) =>
      r := PutRoutingTable(pdu, table);
    case InitializeRoutingTableAck(table) =>
      r := PutRoutingTable(pdu, table);
    case EstablishConnectionToNetwork(dnet, time) =>
      r := PutShortOctet(pdu, dnet, time, TypeError);
    case DisconnectConnectionToNetwork(dnet) =>
      if dnet.None? {
        return Err(TypeError);
      }
      pdu.PutShort(dnet.value);
      r := Ok(());
    case WhatIsNetworkNumber =>
      r := Ok(());
    case NetworkNumberIs(net, flag) =>
      r := PutShortOctet(pdu, net, flag, AttributeError);
  }

  /** A network then an octet; `unset` is what a missing field raises. */
  method PutShortOctet(pdu: PDUData, n: Option<int>, p: Option<int>, unset: Error) returns (r: Result<()>)
    modifies pdu
    ensures Wrote(ShortOctet(n, p, unset), r, old(pdu.data), pdu.data)
  {
    if n.None? {
      return Err(unset);
    }
    pdu.PutShort(n.value);
    if p.None? {
      return Err(unset);
    }
    r := pdu.Put(p.value);
  }

  /** Each message class's `decode`, from the NPDU's data. */
  method GetBody(t: int, pdu: PDUData) returns (r: Result<NetworkMessage>)
    modifies pdu
    ensures Took(DecodeBody(t, old(pdu.data)), r, pdu.data)
  {
    if t == Npci.WhoIsRouterToNetwork {
      if |pdu.data| == 0 {
        return Ok(WhoIsRouterToNetwork(None));
      }
      var n := pdu.GetShort();
      if n.Err? {
        return Err(n.error);
      }
      r := Ok(WhoIsRouterToNetwork(Some(n.value)));
    } else if t == Npci.IAmRouterToNetwork || t == Npci.RouterBusyToNetwork || t == Npci.RouterAvailableToNetwork {
      var nets := GetNetworkList(pdu);
      if nets.Err? {
        return Err(nets.error);
      }
      r := Ok(if t == Npci.IAmRouterToNetwork then IAmRouterToNetwork(nets.value)
              else if t == Npci.RouterBusyToNetwork then RouterBusyToNetwork(nets.value)
              else RouterAvailableToNetwork(nets.value));
    } else if t == Npci.RejectMessageToNetwork {
      var p := pdu.Get();
      if p.Err? {
        return Err(p.error);
      }
      var n := pdu.GetShort();
      if n.Err? {
        return Err(n.error);
      }
      r := Ok(RejectMessageToNetwork(Some(p.value as int), Some(n.value)));
    } else if t == Npci.InitializeRoutingTable || t == Npci.InitializeRoutingTableAck {
      var table := GetRoutingTable(pdu);
      if table.Err? {
        return Err(table.error);
      }
      r := Ok(if t == Npci.InitializeRoutingTable then InitializeRoutingTable(table.value)
              else InitializeRoutingTableAck(table.value));
    } else if t == Npci.DisconnectConnectionToNetwork {
      var n := pdu.GetShort();
      if n.Err? {
        return Err(n.error);
      }
      r := Ok(DisconnectConnectionToNetwork(Some(n.value)));
    } else if t == Npci.WhatIsNetworkNumber {
      r := Ok(WhatIsNetworkNumber);
    } else if t == Npci.ICouldBeRouterToNetwork || t == Npci.EstablishConnectionToNetwork || t == Npci.NetworkNumberIs {
      var n := pdu.GetShort();
      if n.Err? {
        return Err(n.error);
      }
      var p := pdu.Get();
      if p.Err? {
        return Err(p.error);
      }
      r := Ok(if t == Npci.ICouldBeRouterToNetwork then ICouldBeRouterToNetwork(Some(n.value), Some(p.value as int))
              else if t == Npci.EstablishConnectionToNetwork then EstablishConnectionToNetwork(Some(n.value), Some(p.value as int))
              else NetworkNumberIs(Some(n.value), Some(p.value as int)));
    } else {
      r := Err(KeyError);
    }
  }

  /** An NPDU: its NPCI and its own data. */
  class NPDU {
    const npci: Npci.NPCI
    const pduData: PDUData

    constructor ()
      ensures npci.Fields() == Npci.Fresh && pduData.data == []
      ensures fresh(npci) && fresh(pduData)
    {
      npci := new Npci.NPCI();
      pduData := new PDUData([]);
    }

    /** `encode`: the NPCI, then the data, into another PDU. */
    method Encode(pdu: PDUData) returns (r: Result<()>)
      requires pdu != pduData
      modifies npci, pdu
      ensures Wrote(EncodeNpdu(old(npci.Fields()), pduData.data), r, old(pdu.data), pdu.data)
    {
      r := npci.Encode(pdu);
      if r.Err? {
        return;
      }
      pdu.PutData(pduData.data);
    }

    /** `decode`: the NPCI, then all that is left as the data. */
    method Decode(pdu: PDUData) returns (r: Result<()>)
      requires pdu != pduData
      modifies npci, pdu, pduData
      ensures var spec := DecodeNpdu(old(npci.Fields()), old(pdu.data));
        if spec.Ok? then r.Ok? && npci.Fields() == spec.value.0 && pduData.data == spec.value.1 && pdu.data == []
        else r == Err(spec.error)
    {
      r := npci.Decode(pdu);
      if r.Err? {
        return;
      }
      var d := pdu.GetData(|pdu.data|);
      pduData.data := d.value;
    }
  }
}
