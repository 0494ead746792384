/** The network layer service access point (`bacpypes/network/network_sap.py`): the
  * adapters it is bound to, the routing table it learns from source-routed NPDUs and
  * I-Am-Router-To-Network messages, and where each NPDU it is given or receives goes. */
module NetworkSap {
  import opened Wrappers
  import opened Bytes
  import opened Seqs
  import opened Addresses
  import Stations
  import Npdu

  /** A key of the `networks` table: a network number, or None where an address without a
    * network is the source of a route. */
  type NetKey = Option<int>

  /** A key of the `routers` table, `(adapter, address)`: the adapter is compared by
    * identity, which the index of the adapter in the list of adapters is. */
  datatype RKey = RKey(adapter: nat, address: Address)

  /** The state of the service access point. A `RouterReference` is held in `routers`
    * under its key; `networks` refers to it by that key, so the list of networks a
    * router reaches is shared as in the source. A reference's status is always 0 here. */
  datatype SapFields = SapFields(
    adapters: seq<NetKey>,
    routers: map<RKey, seq<NetKey>>,
    networks: map<NetKey, RKey>,
    localAdapter: Option<nat>,
    localAddress: Option<Address>)

  /** Every entry of `networks` refers to a router reference that exists. */
  predicate RefsResolve(f: SapFields)
  {
    forall n :: n in f.networks ==> f.networks[n] in f.routers
  }

  /** The local adapter is one of the adapters, and has an address exactly when it is set. */
  predicate Configured(f: SapFields)
  {
    && (f.localAdapter.Some? ==> f.localAdapter.value < |f.adapters|)
    && (f.localAdapter.Some? <==> f.localAddress.Some?)
  }

  /** `bind`: a second adapter must have a network number; an address makes the new
    * adapter the local one. */
  function BindStep(f: SapFields, net: NetKey, address: Option<Address>): (Result<()>, SapFields)
  {
    if net.None? && |f.adapters| > 0 then (Err(RuntimeError), f)
    else
      var g := f.(adapters := f.adapters + [net]);
      if address.Some? then (Ok(()), g.(localAdapter := Some(|f.adapters|), localAddress := address))
      else (Ok(()), g)
  }

  /** The first stage of one network of `add_router_references`: a network another
    * router claimed is taken from that router's list. */
  function Unclaimed(f: SapFields, key: RKey, snet: NetKey): (r: Result<SapFields>)
    requires RefsResolve(f)
    ensures r.Ok? ==> RefsResolve(r.value)
    ensures r.Err? ==> r.error == ValueError
    ensures r.Ok? ==> r.value.adapters == f.adapters && r.value.localAdapter == f.localAdapter && r.value.localAddress == f.localAddress
  {
    if snet in f.networks && f.networks[snet] != key then
      var other := f.networks[snet];
      var i := IndexOf(f.routers[other], snet);
      if i == -1 then Err(ValueError)
      else Ok(f.(routers := f.routers[other := RemoveAt(f.routers[other], i)], networks := f.networks - {snet}))
    else Ok(f)
  }

  /** The second stage: the network is added to the list of router `key`, which is
    * created if it is new. */
  function Attached(c: SapFields, key: RKey, snet: NetKey): (r: SapFields)
    requires RefsResolve(c)
    ensures RefsResolve(r)
    ensures r.adapters == c.adapters && r.localAdapter == c.localAdapter && r.localAddress == c.localAddress
  {
    if key in c.routers then
      if snet !in c.routers[key] then c.(routers := c.routers[key := c.routers[key] + [snet]], networks := c.networks[snet := key])
      else c
    else c.(routers := c.routers[key := [snet]], networks := c.networks[snet := key])
  }

  /** One network of `add_router_references` (and of the source routing of
    * `process_npdu`). */
  function AddNet(f: SapFields, key: RKey, snet: NetKey): (r: Result<SapFields>)
    requires RefsResolve(f)
    ensures r.Ok? ==> RefsResolve(r.value)
    ensures r.Err? ==> r.error == ValueError
    ensures r.Ok? ==> r.value.adapters == f.adapters && r.value.localAdapter == f.localAdapter && r.value.localAddress == f.localAddress
  {
    var cleared :- Unclaimed(f, key, snet);
    Ok(Attached(cleared, key, snet))
  }

  /** `add_router_references`: the networks in order; a failure leaves the networks
    * before it added. */
  function AddRefs(f: SapFields, key: RKey, nets: seq<NetKey>): (r: (Result<()>, SapFields))
    requires RefsResolve(f)
    ensures RefsResolve(r.1)
    ensures r.1.adapters == f.adapters && r.1.localAdapter == f.localAdapter && r.1.localAddress == f.localAddress
  {
    if |nets| == 0 then (Ok(()), f)
    else
      var (e, g) := AddRefs(f, key, nets[..|nets| - 1]);
      if e.Err? then (e, g)
      else match AddNet(g, key, nets[|nets| - 1])
        case Err(x) => (Err(x), g)
        case Ok(h) => (Ok(()), h)
  }

  /** A router reference chosen by `remove_router_references`: one on the adapter, at the
    * given address if there is one. */
  predicate Matches(k: RKey, adapter: nat, address: Option<Address>)
  {
    k.adapter == adapter && (address.Some? ==> k.address == address.value)
  }

  /** `remove_router_references`: the chosen router references are deleted, and so is every
    * network in their lists. */
  function Removed(f: SapFields, adapter: nat, address: Option<Address>): SapFields
  {
    var gone := set k, n | k in f.routers && Matches(k, adapter, address) && n in f.routers[k] :: n;
    f.(routers := map k | k in f.routers && !Matches(k, adapter, address) :: f.routers[k],
       networks := map n | n in f.networks && n !in gone :: f.networks[n])
  }

  /** An NPDU as the service access point hands it to an adapter. */
  datatype Routed = Routed(adapter: nat, destination: Address, dadr: Option<Address>, hopCount: int)

  /** The same NPDU to every adapter, in order. */
  function ToAll(n: nat, destination: Address, dadr: Option<Address>, hop: int): (s: seq<Routed>)
    ensures |s| == n && forall i :: 0 <= i < n ==> s[i] == Routed(i, destination, dadr, hop)
  {
    seq(n, i requires 0 <= i < n => Routed(i, destination, dadr, hop))
  }

  /** The adapter `indication` sends through: the local one, or the only one. */
  function DefaultAdapter(f: SapFields): nat
  {
    if f.localAdapter.Some? then f.localAdapter.value else 0
  }

  /** `indication`: an NPDU from the application layer, with hop count 255, to a local
    * address through the default adapter; a global broadcast to every adapter; a remote
    * address through the router known for its network, or as a broadcast to every adapter
    * to find one; a remote address on the default adapter's own network is refused. */
  function IndicationOut(f: SapFields, dest: Address): Result<seq<Routed>>
    requires Configured(f)
  {
    if |f.adapters| == 0 then Err(ConfigurationError)
    else if |f.adapters| > 1 && f.localAdapter.None? then Err(ConfigurationError)
    else
      var a := DefaultAdapter(f);
      if dest.addrType == LocalStationAddr || dest.addrType == LocalBroadcastAddr then Ok([Routed(a, dest, None, 255)])
      else if dest.addrType == GlobalBroadcastAddr then Ok(ToAll(|f.adapters|, LocalBroadcast, Some(dest), 255))
      else if dest.addrType != RemoteBroadcastAddr && dest.addrType != RemoteStationAddr then Err(RuntimeError)
      else if dest.addrNet == f.adapters[a] then Err(RuntimeError)
      else if dest.addrNet in f.networks then
        var k := f.networks[dest.addrNet];
        Ok([Routed(k.adapter, k.address, Some(dest), 255)])
      else Ok(ToAll(|f.adapters|, LocalBroadcast, Some(dest), 255))
  }

  /** An NPDU received from an adapter. */
  datatype InNpdu = InNpdu(
    pduSource: Address,
    pduDestination: Address,
    npduSADR: Option<Address>,
    npduDADR: Option<Address>,
    npduNetMessage: Option<int>,
    npduHopCount: int)

  /** What `process_npdu` does with it: an APDU to the application layer, a network
    * message to the network service element, a forwarded NPDU, or a
    * Who-Is-Router-To-Network to find a path. */
  datatype Action =
    | ToApplication(source: Address, destination: Address)
    | ToServiceElement(adapter: nat, netMessage: int)
    | Forward(adapter: nat, destination: Address, sadr: Address, dadr: Option<Address>, hopCount: int)
    | WhoIsRouter(adapter: nat, dnet: NetKey)

  /** A source route naming the network of another adapter. */
  predicate Spoofed(adapters: seq<NetKey>, a: nat, snet: NetKey)
  {
    exists i :: 0 <= i < |adapters| && i != a && adapters[i] == snet
  }

  /** The source routing of `process_npdu`: a source-routed NPDU whose network is that of
    * another adapter is dropped (false); otherwise its network is learned as reached
    * through the router that sent it. */
  function SourceRouting(f: SapFields, a: nat, npdu: InNpdu): (r: Result<(bool, SapFields)>)
    requires RefsResolve(f)
    ensures r.Ok? ==> RefsResolve(r.value.1)
    ensures r.Ok? ==> r.value.1.adapters == f.adapters && r.value.1.localAdapter == f.localAdapter && r.value.1.localAddress == f.localAddress
  {
    if npdu.npduSADR.Some? && npdu.npduSADR.value.addrType != NullAddr then
      var snet := npdu.npduSADR.value.addrNet;
      if Spoofed(f.adapters, a, snet) then Ok((false, f))
      else
        var g :- AddNet(f, RKey(a, npdu.pduSource), snet);
        Ok((true, g))
    else Ok((true, f))
  }

  /** The destination routing of `process_npdu`: drop it, or whether to process it here
    * and whether to forward it. */
  datatype Route = Drop | Decide(processLocally: bool, forward: bool)

  function DestinationRouting(f: SapFields, a: nat, npdu: InNpdu): (r: Route)
    requires Configured(f) && a < |f.adapters|
    ensures r.Decide? && r.forward ==> npdu.npduDADR.Some?
  {
    if npdu.npduDADR.None? || npdu.npduDADR.value.addrType == NullAddr then
      Decide(f.localAdapter.None? || f.localAdapter == Some(a) || npdu.npduNetMessage.Some?, false)
    else
      var dadr := npdu.npduDADR.value;
      if dadr.addrType == RemoteBroadcastAddr then
        if f.localAdapter.None? || dadr.addrNet == f.adapters[a] then Drop
        else Decide(dadr.addrNet == f.adapters[f.localAdapter.value], true)
      else if dadr.addrType == RemoteStationAddr then
        if f.localAdapter.None? || dadr.addrNet == f.adapters[a] then Drop
        else
          var here := dadr.addrNet == f.adapters[f.localAdapter.value] && dadr.addrAddr == f.localAddress.value.addrAddr;
          Decide(here, !here)
      else if dadr.addrType == GlobalBroadcastAddr then Decide(true, true)
      else Drop
  }

  /** The octets and the network given to the station constructors. */
  function OctetsArg(b: Option<seq<byte>>): Arg
  {
    if b.Some? then BytesArg(b.value) else OtherArg
  }

  function NetArg(n: NetKey): Arg
  {
    if n.Some? then IntArg(n.value) else OtherArg
  }

  /** The addresses of an APDU passed up: an NPDU from another adapter of a router looks
    * as if it came from a remote station on that adapter's network and was sent to the
    * local address; otherwise the source route or the sender, and the global broadcast or
    * the destination. */
  function ApduAddresses(f: SapFields, a: nat, npdu: InNpdu): Result<(Address, Address)>
    requires Configured(f) && a < |f.adapters|
    requires |f.adapters| > 1 ==> f.localAdapter.Some?
  {
    if |f.adapters| > 1 && f.localAdapter != Some(a) then
      var source :-
        if npdu.npduSADR.None? then Stations.RemoteStation(NetArg(f.adapters[a]), OctetsArg(npdu.pduSource.addrAddr))
        else Ok(npdu.npduSADR.value);
      var destination :=
        if npdu.npduDADR.None? then f.localAddress.value
        else if npdu.npduDADR.value.addrType == GlobalBroadcastAddr then npdu.npduDADR.value
        else if npdu.npduDADR.value.addrType == RemoteBroadcastAddr then LocalBroadcast
        else f.localAddress.value;
      Ok((source, destination))
    else
      var source := if npdu.npduSADR.Some? then npdu.npduSADR.value else npdu.pduSource;
      var destination :=
        if npdu.npduDADR.Some? && npdu.npduDADR.value.addrType == GlobalBroadcastAddr then npdu.npduDADR.value
        else npdu.pduDestination;
      Ok((source, destination))
  }

  /** The local part of `process_npdu`: what is given to the layers above, and whether
    * forwarding goes on; a network message of an unknown type stops everything. */
  function Deliver(f: SapFields, a: nat, npdu: InNpdu, processLocally: bool, forward: bool, hasUpper: bool)
    : (Result<()>, seq<Action>, bool)
    requires Configured(f) && a < |f.adapters|
    requires |f.adapters| > 1 ==> f.localAdapter.Some?
  {
    if npdu.npduNetMessage.None? then
      if processLocally && hasUpper then
        match ApduAddresses(f, a, npdu)
        case Err(e) => (Err(e), [], false)
        case Ok((s, d)) => (Ok(()), [ToApplication(s, d)], forward)
      else (Ok(()), [], forward)
    else if processLocally then
      if !Npdu.Registered(npdu.npduNetMessage.value) then (Ok(()), [], false)
      else (Ok(()), [ToServiceElement(a, npdu.npduNetMessage.value)], forward)
    else (Ok(()), [], forward)
  }

  /** The same forwarded NPDU to every adapter but the one it came in on. */
  function ToOthers(n: nat, a: nat, destination: Address, sadr: Address, dadr: Option<Address>, hop: int): (s: seq<Action>)
  {
    if n == 0 then []
    else ToOthers(n - 1, a, destination, sadr, dadr, hop) + (if n - 1 == a then [] else [Forward(n - 1, destination, sadr, dadr, hop)])
  }

  /** A Who-Is-Router-To-Network to every adapter but the one the NPDU came in on. */
  function WhoIsOthers(n: nat, a: nat, dnet: NetKey): (s: seq<Action>)
  {
    if n == 0 then []
    else WhoIsOthers(n - 1, a, dnet) + (if n - 1 == a then [] else [WhoIsRouter(n - 1, dnet)])
  }

  /** The forwarding part of `process_npdu`: only a router forwards, and only an NPDU whose
    * hop count is not yet 0; the copy has one hop less and a source route. A global
    * broadcast goes to every other adapter; a remote destination to the adapter on its
    * network, to the router known for it, or a Who-Is-Router-To-Network is sent instead. */
  function ForwardActions(f: SapFields, a: nat, npdu: InNpdu): Result<seq<Action>>
    requires a < |f.adapters| && npdu.npduDADR.Some?
  {
    if |f.adapters| == 1 || npdu.npduHopCount == 0 then Ok([])
    else
      var hop := npdu.npduHopCount - 1;
      var sadr :-
        if npdu.npduSADR.None? then Stations.RemoteStation(NetArg(f.adapters[a]), OctetsArg(npdu.pduSource.addrAddr))
        else Ok(npdu.npduSADR.value);
      var dadr := npdu.npduDADR.value;
      if dadr.addrType == GlobalBroadcastAddr then Ok(ToOthers(|f.adapters|, a, LocalBroadcast, sadr, npdu.npduDADR, hop))
      else if dadr.addrType == RemoteBroadcastAddr || dadr.addrType == RemoteStationAddr then
        var i := IndexOf(f.adapters, dadr.addrNet);
        if i >= 0 then
          var destination :-
            if dadr.addrType == RemoteBroadcastAddr then Ok(LocalBroadcast)
            else Stations.LocalStation(OctetsArg(dadr.addrAddr));
          Ok([Forward(i, destination, sadr, None, hop)])
        else if dadr.addrNet in f.networks then
          var k := f.networks[dadr.addrNet];
          Ok([Forward(k.adapter, k.address, sadr, npdu.npduDADR, hop)])
        else Ok(WhoIsOthers(|f.adapters|, a, dadr.addrNet))
      else Ok([])
  }

  /** `process_npdu` on an NPDU from adapter `a`: the outcome, the new state and what was
    * done before the outcome. */
  function ProcessStep(f: SapFields, a: nat, npdu: InNpdu, hasUpper: bool): (Result<()>, SapFields, seq<Action>)
    requires Configured(f) && a < |f.adapters| && RefsResolve(f)
  {
    if |f.adapters| == 0 || (|f.adapters| > 1 && f.localAdapter.None?) then (Err(ConfigurationError), f, [])
    else match SourceRouting(f, a, npdu)
      case Err(e) => (Err(e), f, [])
      case Ok((go, g)) =>
        if !go then (Ok(()), g, [])
        else match DestinationRouting(g, a, npdu)
          case Drop => (Ok(()), g, [])
          case Decide(here, forward) =>
            var (r, acts, more) := Deliver(g, a, npdu, here, forward, hasUpper);
            if r.Err? || !more then (r, g, acts)
            else match ForwardActions(g, a, npdu)
              case Err(e) => (Err(e), g, acts)
              case Ok(fwd) => (Ok(()), g, acts + fwd)
  }

  /** The loop of the spoofing check. */
  method CheckSpoofed(adapters: seq<NetKey>, a: nat, snet: NetKey) returns (b: bool)
    ensures b == Spoofed(adapters, a, snet)
  {
    var i := 0;
    while i < |adapters|
      invariant 0 <= i <= |adapters|
      invariant forall j :: 0 <= j < i && j != a ==> adapters[j] != snet
    {
      if i != a && adapters[i] == snet {
        return true;
      }
      i := i + 1;
    }
    return false;
  }

  /** The loop looking for the adapter directly connected to a network. */
  method FindAdapter(adapters: seq<NetKey>, net: NetKey) returns (i: int)
    ensures i == IndexOf(adapters, net)
  {
    i := 0;
    while i < |adapters| && adapters[i] != net
      invariant 0 <= i <= |adapters|
      invariant net !in adapters[..i]
    {
      i := i + 1;
    }
    IndexOfIs(adapters, net, i);
    if i == |adapters| {
      i := -1;
    }
  }

  /** The loop sending an NPDU to every adapter. */
  method SendToAll(n: nat, destination: Address, dadr: Option<Address>, hop: int) returns (out: seq<Routed>)
    ensures out == ToAll(n, destination, dadr, hop)
  {
    out := [];
    for i := 0 to n
      invariant out == ToAll(i, destination, dadr, hop)
    {
      out := out + [Routed(i, destination, dadr, hop)];
    }
  }

  /** The loop forwarding an NPDU to every adapter but the one it came in on. */
  method SendToOthers(n: nat, a: nat, destination: Address, sadr: Address, dadr: Option<Address>, hop: int)
    returns (out: seq<Action>)
    ensures out == ToOthers(n, a, destination, sadr, dadr, hop)
  {
    out := [];
    for i := 0 to n
      invariant out == ToOthers(i, a, destination, sadr, dadr, hop)
    {
      if i != a {
        out := out + [Forward(i, destination, sadr, dadr, hop)];
      }
    }
  }

  /** The loop sending a Who-Is-Router-To-Network to every adapter but the one the NPDU
    * came in on. */
  method SendWhoIs(n: nat, a: nat, dnet: NetKey) returns (out: seq<Action>)
    ensures out == WhoIsOthers(n, a, dnet)
  {
    out := [];
    for i := 0 to n
      invariant out == WhoIsOthers(i, a, dnet)
    {
      if i != a {
        out := out + [WhoIsRouter(i, dnet)];
      }
    }
  }

  /** The forwarding part of `process_npdu`, with its loops. */
  method Forwarding(f: SapFields, a: nat, npdu: InNpdu) returns (r: Result<seq<Action>>)
    requires a < |f.adapters| && npdu.npduDADR.Some?
    ensures r == ForwardActions(f, a, npdu)
  {
    if |f.adapters| == 1 || npdu.npduHopCount == 0 {
      return Ok([]);
    }
    var hop := npdu.npduHopCount - 1;
    var sadr := npdu.pduSource;
    if npdu.npduSADR.Some? {
      sadr := npdu.npduSADR.value;
    } else {
      var s := Stations.RemoteStation(NetArg(f.adapters[a]), OctetsArg(npdu.pduSource.addrAddr));
      if s.Err? {
        return Err(s.error);
      }
      sadr := s.value;
    }
    var dadr := npdu.npduDADR.value;
    if dadr.addrType == GlobalBroadcastAddr {
      var out := SendToOthers(|f.adapters|, a, LocalBroadcast, sadr, npdu.npduDADR, hop);
      return Ok(out);
    }
    if dadr.addrType == RemoteBroadcastAddr || dadr.addrType == RemoteStationAddr {
      var i := FindAdapter(f.adapters, dadr.addrNet);
      if i >= 0 {
        var destination := LocalBroadcast;
        if dadr.addrType != RemoteBroadcastAddr {
          var d := Stations.LocalStation(OctetsArg(dadr.addrAddr));
          if d.Err? {
            return Err(d.error);
          }
          destination := d.value;
        }
        return Ok([Forward(i, destination, sadr, None, hop)]);
      }
      if dadr.addrNet in f.networks {
        var k := f.networks[dadr.addrNet];
        return Ok([Forward(k.adapter, k.address, sadr, npdu.npduDADR, hop)]);
      }
      var out := SendWhoIs(|f.adapters|, a, dadr.addrNet);
      return Ok(out);
    }
    return Ok([]);
  }

  class NetworkServiceAccessPoint {
    var adapters: seq<NetKey>
    var routers: map<RKey, seq<NetKey>>
    var networks: map<NetKey, RKey>
    var localAdapter: Option<nat>
    var localAddress: Option<Address>

    function Fields(): SapFields
      reads this
    {
      SapFields(adapters, routers, networks, localAdapter, localAddress)
    }

    /** No adapters, no routes, no local adapter. */
    constructor()
      ensures Fields() == SapFields([], map[], map[], None, None)
    {
      adapters := [];
      routers := map[];
      networks := map[];
      localAdapter := None;
      localAddress := None;
    }

    method Bind(net: NetKey, address: Option<Address>) returns (r: Result<()>)
      modifies this
      ensures (r, Fields()) == BindStep(old(Fields()), net, address)
    {
      if net.None? && |adapters| > 0 {
        return Err(RuntimeError);
      }
      if address.Some? {
        localAdapter := Some(|adapters|);
        localAddress := address;
      }
      adapters := adapters + [net];
      r := Ok(());
    }

    /** The body of the loops over networks in `add_router_references` and `process_npdu`. */
    method AddNetRef(key: RKey, snet: NetKey) returns (r: Result<()>)
      modifies this
      requires RefsResolve(Fields())
      ensures AddNet(old(Fields()), key, snet).Ok? ==> r == Ok(()) && Fields() == AddNet(old(Fields()), key, snet).value
      ensures AddNet(old(Fields()), key, snet).Err? ==> r == Err(ValueError) && Fields() == old(Fields())
    {
      if snet in networks && networks[snet] != key {
        var other := networks[snet];
        var i := IndexOf(routers[other], snet);
        if i == -1 {
          return Err(ValueError);
        }
        routers := routers[other := RemoveAt(routers[other], i)];
        networks := networks - {snet};
      }
      if key in routers {
        if snet !in routers[key] {
          routers := routers[key := routers[key] + [snet]];
          networks := networks[snet := key];
        }
      } else {
        routers := routers[key := [snet]];
        networks := networks[snet := key];
      }
      r := Ok(());
    }

    method AddRouterReferences(a: nat, address: Address, nets: seq<NetKey>) returns (r: Result<()>)
      modifies this
      requires RefsResolve(Fields())
      ensures (r, Fields()) == AddRefs(old(Fields()), RKey(a, address), nets)
    {
      var key := RKey(a, address);
      ghost var f0 := Fields();
      var i := 0;
      while i < |nets|
        invariant 0 <= i <= |nets|
        invariant AddRefs(f0, key, nets[..i]) == (Ok(()), Fields())
      {
        assert nets[..i + 1][..i] == nets[..i];
        r := AddNetRef(key, nets[i]);
        if r.Err? {
          AddRefsStops(f0, key, nets, i + 1);
          return;
        }
        i := i + 1;
      }
      assert nets[..i] == nets;
      r := Ok(());
    }

    method RemoveRouterReferences(a: nat, address: Option<Address>)
      modifies this
      ensures Fields() == Removed(old(Fields()), a, address)
    {
      var gone := set k, n | k in routers && Matches(k, a, address) && n in routers[k] :: n;
      routers := map k | k in routers && !Matches(k, a, address) :: routers[k];
      networks := map n | n in networks && n !in gone :: networks[n];
    }

    method Indication(dest: Address) returns (r: Result<seq<Routed>>)
      requires Configured(Fields())
      ensures r == IndicationOut(Fields(), dest)
    {
      if |adapters| == 0 || (|adapters| > 1 && localAdapter.None?) {
        return Err(ConfigurationError);
      }
      var a := DefaultAdapter(Fields());
      if dest.addrType == LocalStationAddr || dest.addrType == LocalBroadcastAddr {
        return Ok([Routed(a, dest, None, 255)]);
      }
      if dest.addrType == GlobalBroadcastAddr {
        var out := SendToAll(|adapters|, LocalBroadcast, Some(dest), 255);
        return Ok(out);
      }
      if dest.addrType != RemoteBroadcastAddr && dest.addrType != RemoteStationAddr {
        return Err(RuntimeError);
      }
      if dest.addrNet == adapters[a] {
        return Err(RuntimeError);
      }
      if dest.addrNet in networks {
        var k := networks[dest.addrNet];
        return Ok([Routed(k.adapter, k.address, Some(dest), 255)]);
      }
      var out := SendToAll(|adapters|, LocalBroadcast, Some(dest), 255);
      return Ok(out);
    }

    method ProcessNpdu(a: nat, npdu: InNpdu, hasUpper: bool) returns (r: Result<()>, acts: seq<Action>)
      modifies this
      requires Configured(Fields()) && a < |adapters| && RefsResolve(Fields())
      ensures (r, Fields(), acts) == ProcessStep(old(Fields()), a, npdu, hasUpper)
    {
      if |adapters| == 0 || (|adapters| > 1 && localAdapter.None?) {
        return Err(ConfigurationError), [];
      }
      acts := [];
      if npdu.npduSADR.Some? && npdu.npduSADR.value.addrType != NullAddr {
        var spoof := CheckSpoofed(adapters, a, npdu.npduSADR.value.addrNet);
        if spoof {
          return Ok(()), [];
        }
        r := AddNetRef(RKey(a, npdu.pduSource), npdu.npduSADR.value.addrNet);
        if r.Err? {
          return;
        }
      }
      var route := DestinationRouting(Fields(), a, npdu);
      if route.Drop? {
        return Ok(()), [];
      }
      var d := Deliver(Fields(), a, npdu, route.processLocally, route.forward, hasUpper);
      r, acts := d.0, d.1;
      if r.Err? || !d.2 {
        return;
      }
      var fwd := Forwarding(Fields(), a, npdu);
      if fwd.Err? {
        return Err(fwd.error), acts;
      }
      r, acts := Ok(()), acts + fwd.value;
    }
  }

  /** Once `add_router_references` has failed, the later networks change nothing. */
  lemma {:induction false} AddRefsStops(f: SapFields, key: RKey, nets: seq<NetKey>, i: nat)
    requires RefsResolve(f) && i <= |nets| && AddRefs(f, key, nets[..i]).0.Err?
    ensures AddRefs(f, key, nets) == AddRefs(f, key, nets[..i])
    decreases |nets| - i
  {
    if i < |nets| {
      assert nets[..i + 1][..i] == nets[..i];
      AddRefsStops(f, key, nets, i + 1);
    } else {
      assert nets[..i] == nets;
    }
  }
}

/** What the routing table of the network layer keeps and how NPDUs are routed. */
module NetworkSapProperties {
  import opened Wrappers
  import opened Seqs
  import opened Addresses
  import opened NetworkSap

  /** Every network refers to a router that lists it. */
  predicate Listed(f: SapFields)
    requires RefsResolve(f)
  {
    forall n :: n in f.networks ==> n in f.routers[f.networks[n]]
  }

  /** Every network a router lists refers back to it. */
  predicate Owned(f: SapFields)
  {
    forall k, n :: k in f.routers && n in f.routers[k] ==> n in f.networks && f.networks[n] == k
  }

  /** No router lists a network twice. */
  predicate ListsDistinct(f: SapFields)
  {
    forall k :: k in f.routers ==> Distinct(f.routers[k])
  }

  /** The routing table is consistent and the configuration sound. */
  predicate Valid(f: SapFields)
  {
    RefsResolve(f) && Configured(f) && Listed(f) && Owned(f) && ListsDistinct(f)
  }

  /** A fresh service access point is valid. */
  lemma InitialValid()
    ensures Valid(SapFields([], map[], map[], None, None))
  {
  }

  /** Binding keeps the routing table and a valid configuration. */
  lemma BindKeepsValid(f: SapFields, net: NetKey, address: Option<Address>)
    requires Valid(f)
    ensures Valid(BindStep(f, net, address).1)
    ensures BindStep(f, net, address).0.Err? <==> net.None? && |f.adapters| > 0
  {
  }

  /** The first stage of `AddNet` takes a network claimed by another router from that
    * router's list; afterwards no router but `key` lists it. */
  lemma UnclaimedSpec(f: SapFields, key: RKey, snet: NetKey)
    requires Valid(f)
    ensures Unclaimed(f, key, snet).Ok?
    ensures var c := Unclaimed(f, key, snet).value;
            && Valid(c)
            && (snet in c.networks ==> c.networks[snet] == key)
            && (forall n :: n != snet ==> (n in c.networks <==> n in f.networks))
            && (forall n :: n != snet && n in f.networks ==> c.networks[n] == f.networks[n])
            && (snet in f.networks && f.networks[snet] != key ==> f.networks[snet] in c.routers && snet !in c.routers[f.networks[snet]])
  {
    if snet in f.networks && f.networks[snet] != key {
      var other := f.networks[snet];
      var l := f.routers[other];
      assert snet in l;
      var i := IndexOf(l, snet);
      RemoveDistinct(l, i);
      RemoveAtMembers(l, i);
      var m := RemoveAt(l, i);
      assert Unclaimed(f, key, snet) == Ok(f.(routers := f.routers[other := m], networks := f.networks - {snet}));
      ShrunkValid(f, other, snet, m);
    }
  }

  /** Taking network `snet` from the list of router `other`, which becomes `m`, keeps the
    * table valid. */
  lemma ShrunkValid(f: SapFields, other: RKey, snet: NetKey, m: seq<NetKey>)
    requires Valid(f) && snet in f.networks && f.networks[snet] == other
    requires Distinct(m) && snet !in m && (forall n :: n in m ==> n in f.routers[other])
    requires forall n :: n in f.routers[other] && n != snet ==> n in m
    ensures Valid(f.(routers := f.routers[other := m], networks := f.networks - {snet}))
  {
    var c := f.(routers := f.routers[other := m], networks := f.networks - {snet});
    forall k, n | k in c.routers && n in c.routers[k]
      ensures n in c.networks && c.networks[n] == k
    {
      if k == other {
        assert n in f.routers[other] && n != snet;
      }
    }
    assert Owned(c);
    assert Listed(c);
  }

  /** The second stage of `AddNet`, on a network no router but `key` lists: the network
    * then refers to `key`, which lists it. */
  lemma AttachedSpec(c: SapFields, key: RKey, snet: NetKey)
    requires Valid(c) && (snet in c.networks ==> c.networks[snet] == key)
    ensures var g := Attached(c, key, snet);
            && Valid(g)
            && snet in g.networks && g.networks[snet] == key && key in g.routers && snet in g.routers[key]
            && (forall n :: n != snet ==> (n in g.networks <==> n in c.networks))
            && (forall n :: n != snet && n in c.networks ==> g.networks[n] == c.networks[n])
  {
    if snet in c.networks {
      assert snet in c.routers[key];
    } else {
      var g := Attached(c, key, snet);
      var m := if key in c.routers then c.routers[key] + [snet] else [snet];
      assert key in c.routers ==> snet !in c.routers[key];
      assert g == c.(routers := c.routers[key := m], networks := c.networks[snet := key]);
      assert Distinct(m) by {
        if key in c.routers {
          AppendDistinct(c.routers[key], snet);
        }
      }
      ExtendedValid(c, key, snet, m);
    }
  }

  lemma AppendDistinct(l: seq<NetKey>, x: NetKey)
    requires Distinct(l) && x !in l
    ensures Distinct(l + [x])
  {
    var m := l + [x];
    forall j, k | 0 <= j < k < |m|
      ensures m[j] != m[k]
    {
      if k == |l| {
        assert m[j] == l[j];
      }
    }
  }

  /** Entering a new network under router `key`, whose list becomes `m`, keeps the table
    * valid. */
  lemma ExtendedValid(c: SapFields, key: RKey, snet: NetKey, m: seq<NetKey>)
    requires Valid(c) && snet !in c.networks && Distinct(m) && snet in m
    requires forall n :: n in m && n != snet ==> key in c.routers && n in c.routers[key]
    requires key in c.routers ==> forall n :: n in c.routers[key] ==> n in m
    ensures Valid(c.(routers := c.routers[key := m], networks := c.networks[snet := key]))
  {
    var g := c.(routers := c.routers[key := m], networks := c.networks[snet := key]);
    assert Owned(g);
    assert Listed(g);
  }

  /** Adding a network to a router never fails on a valid table; the network then refers
    * to that router, which lists it, and no other network changes. */
  lemma AddNetSpec(f: SapFields, key: RKey, snet: NetKey)
    requires Valid(f)
    ensures AddNet(f, key, snet).Ok?
    ensures var g := AddNet(f, key, snet).value;
            && Valid(g)
            && snet in g.networks && g.networks[snet] == key && key in g.routers && snet in g.routers[key]
            && (forall n :: n != snet ==> (n in g.networks <==> n in f.networks))
            && (forall n :: n != snet && n in f.networks ==> g.networks[n] == f.networks[n])
  {
    UnclaimedSpec(f, key, snet);
    AttachedSpec(Unclaimed(f, key, snet).value, key, snet);
  }

  /** A network already claimed by another router is taken out of that router's list. */
  lemma AddNetReclaims(f: SapFields, key: RKey, snet: NetKey)
    requires Valid(f) && snet in f.networks && f.networks[snet] != key
    ensures var other := f.networks[snet];
            var g := AddNet(f, key, snet).value;
            AddNet(f, key, snet).Ok? && other in g.routers && snet !in g.routers[other]
  {
    UnclaimedSpec(f, key, snet);
  }

  /** `add_router_references` never fails on a valid table; afterwards every network in the
    * list refers to the router, which lists it. */
  lemma {:induction false} AddRefsSpec(f: SapFields, key: RKey, nets: seq<NetKey>)
    requires Valid(f)
    ensures AddRefs(f, key, nets).0.Ok? && Valid(AddRefs(f, key, nets).1)
    ensures forall n :: n in nets ==>
              n in AddRefs(f, key, nets).1.networks && AddRefs(f, key, nets).1.networks[n] == key && n in AddRefs(f, key, nets).1.routers[key]
  {
    if |nets| > 0 {
      var init := nets[..|nets| - 1];
      AddRefsSpec(f, key, init);
      var g := AddRefs(f, key, init).1;
      AddNetSpec(g, key, nets[|nets| - 1]);
      assert forall n :: n in nets ==> n in init || n == nets[|nets| - 1];
    }
  }

  /** On a valid table, the networks `remove_router_references` deletes are exactly those
    * referring to a chosen router. */
  lemma GoneNetworks(f: SapFields, adapter: nat, address: Option<Address>, n: NetKey)
    requires Valid(f)
    ensures (n in set k, m | k in f.routers && Matches(k, adapter, address) && m in f.routers[k] :: m)
            <==> n in f.networks && Matches(f.networks[n], adapter, address)
  {
    if n in f.networks && Matches(f.networks[n], adapter, address) {
      assert n in f.routers[f.networks[n]];
    }
  }

  /** `remove_router_references` deletes exactly the chosen router references and the
    * networks that referred to them, keeps everything else, and keeps the table valid. */
  lemma RemovedSpec(f: SapFields, adapter: nat, address: Option<Address>)
    requires Valid(f)
    ensures var g := Removed(f, adapter, address);
            && Valid(g)
            && (forall k :: k in g.routers <==> k in f.routers && !Matches(k, adapter, address))
            && (forall k :: k in g.routers ==> g.routers[k] == f.routers[k])
            && (forall n :: n in g.networks <==> n in f.networks && !Matches(f.networks[n], adapter, address))
            && (forall n :: n in g.networks ==> g.networks[n] == f.networks[n])
  {
    var g := Removed(f, adapter, address);
    forall n
      ensures n in g.networks <==> n in f.networks && !Matches(f.networks[n], adapter, address)
    {
      GoneNetworks(f, adapter, address, n);
    }
    forall k, n | k in g.routers && n in g.routers[k]
      ensures n in g.networks && g.networks[n] == k
    {
      GoneNetworks(f, adapter, address, n);
    }
  }

  /** Every NPDU the application layer sends starts with hop count 255. */
  lemma IndicationHopCount(f: SapFields, dest: Address)
    requires Configured(f) && IndicationOut(f, dest).Ok?
    ensures forall p :: p in IndicationOut(f, dest).value ==> p.hopCount == 255
  {
  }

  /** A remote destination on the network of the adapter the application sends through is
    * refused, as is an address type that is neither local, remote nor global. */
  lemma IndicationRefused(f: SapFields, dest: Address)
    requires Configured(f) && |f.adapters| > 0 && (|f.adapters| > 1 ==> f.localAdapter.Some?)
    ensures ((dest.addrType == RemoteBroadcastAddr || dest.addrType == RemoteStationAddr) &&
             dest.addrNet == f.adapters[DefaultAdapter(f)]) ==> IndicationOut(f, dest) == Err(RuntimeError)
    ensures dest.addrType !in {LocalStationAddr, LocalBroadcastAddr, GlobalBroadcastAddr, RemoteBroadcastAddr, RemoteStationAddr} ==>
              IndicationOut(f, dest) == Err(RuntimeError)
    ensures IndicationOut(f, dest).Err? ==> IndicationOut(f, dest).error == RuntimeError
  {
  }

  /** A remote destination on another network goes to the router known to reach it, or,
    * when none is known, as a local broadcast through every adapter; the original
    * destination travels as the DADR. */
  lemma IndicationRemote(f: SapFields, dest: Address)
    requires Configured(f) && |f.adapters| > 0 && (|f.adapters| > 1 ==> f.localAdapter.Some?)
    requires dest.addrType == RemoteBroadcastAddr || dest.addrType == RemoteStationAddr
    requires dest.addrNet != f.adapters[DefaultAdapter(f)]
    ensures IndicationOut(f, dest).Ok?
    ensures forall p :: p in IndicationOut(f, dest).value ==> p.dadr == Some(dest) && p.hopCount == 255
    ensures dest.addrNet in f.networks ==>
              IndicationOut(f, dest).value == [Routed(f.networks[dest.addrNet].adapter, f.networks[dest.addrNet].address, Some(dest), 255)]
    ensures dest.addrNet !in f.networks ==>
              |IndicationOut(f, dest).value| == |f.adapters| &&
              forall i :: 0 <= i < |f.adapters| ==> IndicationOut(f, dest).value[i].adapter == i && IndicationOut(f, dest).value[i].destination == LocalBroadcast
  {
  }

  /** A forwarded copy goes once to every adapter but the one it came in on. */
  lemma {:induction false} ToOthersSpec(n: nat, a: nat, destination: Address, sadr: Address, dadr: Option<Address>, hop: int)
    ensures |ToOthers(n, a, destination, sadr, dadr, hop)| == if a < n then n - 1 else n
    ensures forall x :: x in ToOthers(n, a, destination, sadr, dadr, hop) ==>
              x.Forward? && x.adapter != a && x.adapter < n && x == Forward(x.adapter, destination, sadr, dadr, hop)
    ensures forall i :: 0 <= i < n && i != a ==> Forward(i, destination, sadr, dadr, hop) in ToOthers(n, a, destination, sadr, dadr, hop)
  {
    if n > 0 {
      ToOthersSpec(n - 1, a, destination, sadr, dadr, hop);
    }
  }

  /** A Who-Is-Router-To-Network goes once to every adapter but the one the NPDU came in on. */
  lemma {:induction false} WhoIsOthersSpec(n: nat, a: nat, dnet: NetKey)
    ensures |WhoIsOthers(n, a, dnet)| == if a < n then n - 1 else n
    ensures forall x :: x in WhoIsOthers(n, a, dnet) ==> x.WhoIsRouter? && x == WhoIsRouter(x.adapter, dnet) && x.adapter != a && x.adapter < n
    ensures forall i :: 0 <= i < n && i != a ==> WhoIsRouter(i, dnet) in WhoIsOthers(n, a, dnet)
  {
    if n > 0 {
      WhoIsOthersSpec(n - 1, a, dnet);
    }
  }

  /** Only a router forwards, and only an NPDU whose hop count is not 0; every forwarded
    * copy has one hop less and carries a source route; a global broadcast and a search
    * for a path never go back through the adapter the NPDU came in on. */
  lemma ForwardSpec(f: SapFields, a: nat, npdu: InNpdu)
    requires a < |f.adapters| && npdu.npduDADR.Some?
    ensures |f.adapters| == 1 || npdu.npduHopCount == 0 ==> ForwardActions(f, a, npdu) == Ok([])
    ensures ForwardActions(f, a, npdu).Ok? ==>
              forall x :: x in ForwardActions(f, a, npdu).value ==>
                && (x.Forward? || x.WhoIsRouter?)
                && (x.Forward? ==> x.hopCount == npdu.npduHopCount - 1)
                && (x.Forward? && npdu.npduSADR.Some? ==> x.sadr == npdu.npduSADR.value)
                && (x.WhoIsRouter? ==> x.adapter != a && x.dnet == npdu.npduDADR.value.addrNet)
                && (npdu.npduDADR.value.addrType == GlobalBroadcastAddr ==> x.Forward? && x.adapter != a && x.destination == LocalBroadcast)
  {
    if |f.adapters| > 1 && npdu.npduHopCount != 0 {
      var sadr := if npdu.npduSADR.None? then Stations.RemoteStation(NetArg(f.adapters[a]), OctetsArg(npdu.pduSource.addrAddr))
                  else Ok(npdu.npduSADR.value);
      if sadr.Ok? {
        ToOthersSpec(|f.adapters|, a, LocalBroadcast, sadr.value, npdu.npduDADR, npdu.npduHopCount - 1);
      }
      WhoIsOthersSpec(|f.adapters|, a, npdu.npduDADR.value.addrNet);
    }
  }

  /** A source route that names the network of another adapter is dropped: nothing is
    * learned and nothing is done. */
  lemma SpoofDropped(f: SapFields, a: nat, npdu: InNpdu, hasUpper: bool)
    requires Configured(f) && a < |f.adapters| && RefsResolve(f)
    requires |f.adapters| == 1 || f.localAdapter.Some?
    requires npdu.npduSADR.Some? && npdu.npduSADR.value.addrType != NullAddr
    requires Spoofed(f.adapters, a, npdu.npduSADR.value.addrNet)
    ensures ProcessStep(f, a, npdu, hasUpper) == (Ok(()), f, [])
  {
  }

  /** The table after `process_npdu` is the one its source routing left. */
  lemma ProcessState(f: SapFields, a: nat, npdu: InNpdu, hasUpper: bool)
    requires Configured(f) && a < |f.adapters| && RefsResolve(f)
    ensures var g := ProcessStep(f, a, npdu, hasUpper).1;
            g == f || (SourceRouting(f, a, npdu).Ok? && g == SourceRouting(f, a, npdu).value.1)
  {
  }

  /** Processing an NPDU keeps the routing table valid and learning a route never fails; a source
    * route that is not dropped is learned as reached through the router that sent it. */
  lemma ProcessKeepsValid(f: SapFields, a: nat, npdu: InNpdu, hasUpper: bool)
    requires Valid(f) && a < |f.adapters|
    ensures Valid(ProcessStep(f, a, npdu, hasUpper).1)
    ensures SourceRouting(f, a, npdu).Ok?
    ensures (|f.adapters| == 1 || f.localAdapter.Some?) &&
            npdu.npduSADR.Some? && npdu.npduSADR.value.addrType != NullAddr && !Spoofed(f.adapters, a, npdu.npduSADR.value.addrNet) ==>
              var g := ProcessStep(f, a, npdu, hasUpper).1;
              npdu.npduSADR.value.addrNet in g.networks && g.networks[npdu.npduSADR.value.addrNet] == RKey(a, npdu.pduSource)
  {
    ProcessState(f, a, npdu, hasUpper);
    if npdu.npduSADR.Some? && npdu.npduSADR.value.addrType != NullAddr && !Spoofed(f.adapters, a, npdu.npduSADR.value.addrNet) {
      AddNetSpec(f, RKey(a, npdu.pduSource), npdu.npduSADR.value.addrNet);
    }
  }

  /** A device with one adapter, or an NPDU whose hop count is 0, is never forwarded; any
    * forwarded copy has one hop less. */
  lemma ProcessForwarding(f: SapFields, a: nat, npdu: InNpdu, hasUpper: bool)
    requires Configured(f) && a < |f.adapters| && RefsResolve(f)
    ensures forall x :: x in ProcessStep(f, a, npdu, hasUpper).2 && x.Forward? ==> x.hopCount == npdu.npduHopCount - 1
    ensures |f.adapters| == 1 || npdu.npduHopCount == 0 ==>
              forall x :: x in ProcessStep(f, a, npdu, hasUpper).2 ==> x.ToApplication? || x.ToServiceElement?
  {
    if |f.adapters| > 0 && !(|f.adapters| > 1 && f.localAdapter.None?) && SourceRouting(f, a, npdu).Ok? {
      var g := SourceRouting(f, a, npdu).value.1;
      if npdu.npduDADR.Some? {
        ForwardSpec(g, a, npdu);
      }
    }
  }
}
