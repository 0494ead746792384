/** The server side of the BACnet Streaming Link Layer (`bacpypes/bsll/tcp_server_mux.py`,
  * with the connection record of `bacpypes/bsll/connection_state.py`, the user record of
  * `bacpypes/bsll/user_info.py` and the connection bookkeeping of
  * `bacpypes/bsll/service_adapter.py`): how a connection asks for a service and
  * authenticates. The service identifiers and result codes are those of
  * `bacpypes/bsll.py`. */
module TcpServerMux {
  import opened Wrappers
  import opened Bytes
  import opened Addresses
  import Bslci
  import opened Bslpdu

  // Service identifiers
  const DeviceToDeviceServiceId := 0x01
  const RouterToRouterServiceId := 0x02
  const ProxyServiceId := 0x03
  const LaneServiceId := 0x04
  const ClientServerServiceId := 0x05

  // Result codes
  const Success := 0
  const NoDeviceToDeviceService := 1
  const NoRouterToRouterService := 2
  const NoProxyService := 3
  const NoLaneService := 4
  const UnrecognizedService := 5
  const AuthenticationRequired := 10
  const AuthenticationFailure := 11
  const AuthenticationNoService := 12
  const AuthenticationHash := 13

  // Access states of a connection
  const NotAuthenticated := 0
  const Requested := 1
  const Challenged := 2
  const Authenticated := 3

  /** `UserInformation`: `services` holds the identifiers whose entry in the `service`
    * dictionary is true; the dictionary has an entry for every service. The password is
    * None unless one is given. */
  datatype UserInformation = UserInformation(username: Option<seq<byte>>, password: Option<seq<byte>>, services: set<int>)

  /** The six hash functions of `hash_functions`, by their index 0 to 5, applied to
    * octets; computing a digest is not modelled. */
  type HashFn = (int, seq<byte>) -> seq<byte>

  /** An index into the tuple `hash_functions`: Python also accepts -6 to -1. */
  predicate HashIndex(i: int)
  {
    -6 <= i < 6
  }

  function HashSlot(i: int): int
  {
    if i < 0 then i + 6 else i
  }

  /** A service adapter: its identifier, its authentication policy (the hooks
    * `authentication_required`, `get_default_user_info` and `get_user_info`, which derived
    * classes override, as data) and the addresses of the connections it holds. */
  class ServiceAdapter {
    const serviceID: int
    const authenticationRequired: bool
    const defaultUsers: map<Address, UserInformation>
    const users: map<seq<byte>, UserInformation>
    var connections: set<Address>

    constructor(serviceID: int, authenticationRequired: bool, defaultUsers: map<Address, UserInformation>, users: map<seq<byte>, UserInformation>)
      ensures this.serviceID == serviceID && this.authenticationRequired == authenticationRequired
      ensures this.defaultUsers == defaultUsers && this.users == users && connections == {}
    {
      this.serviceID := serviceID;
      this.authenticationRequired := authenticationRequired;
      this.defaultUsers := defaultUsers;
      this.users := users;
      connections := {};
    }

    /** `add_connection`: the connection is held and knows it is connected to this service. */
    method AddConnection(conn: ConnectionState)
      modifies this, conn
      ensures connections == old(connections) + {conn.address}
      ensures conn.Fields() == old(conn.Fields()).(service := this, connected := true)
    {
      connections := connections + {conn.address};
      conn.service := this;
      conn.connected := true;
    }

    /** `remove_connection`: an address not held is only logged. */
    method RemoveConnection(conn: ConnectionState)
      modifies this, conn
      ensures connections == old(connections) - {conn.address}
      ensures conn.Fields() == old(conn.Fields()).(service := null, connected := false)
    {
      connections := connections - {conn.address};
      conn.service := null;
      conn.connected := false;
    }
  }

  /** The mutable fields of a `ConnectionState`. */
  datatype ConnFields = ConnFields(
    service: ServiceAdapter?,
    connected: bool,
    accessState: int,
    challenge: Option<seq<byte>>,
    userinfo: Option<UserInformation>)

  class ConnectionState {
    const address: Address
    var service: ServiceAdapter?
    var connected: bool
    var accessState: int
    var challenge: Option<seq<byte>>
    var userinfo: Option<UserInformation>

    function Fields(): ConnFields
      reads this
    {
      ConnFields(service, connected, accessState, challenge, userinfo)
    }

    /** A new connection: no service, not connected, not authenticated. */
    constructor(addr: Address)
      ensures address == addr && Fields() == ConnFields(null, false, NotAuthenticated, None, None)
    {
      address := addr;
      service := null;
      connected := false;
      accessState := NotAuthenticated;
      challenge := None;
      userinfo := None;
    }
  }

  /** The four services a multiplexer may offer. */
  datatype Services = Services(deviceToDevice: ServiceAdapter?, routerToRouter: ServiceAdapter?, proxy: ServiceAdapter?, lane: ServiceAdapter?)

  /** What the multiplexer does: a response sent down the stream, or a message given to a
    * service's `service_confirmation`. */
  datatype Out =
    | ResultSent(code: int, destination: Address)
    | ChallengeSent(hashFn: int, challenge: seq<byte>, destination: Address)
    | ToService(service: ServiceAdapter, message: BsllMessage)

  /** The outcome of one message: what was raised, the connection's new fields, what was
    * done, and the service the connection was taken from and the one it was added to. */
  datatype Handled = Handled(r: Result<()>, conn: ConnFields, out: seq<Out>, removed: ServiceAdapter?, added: ServiceAdapter?)

  /** The service a Service-Request asks for, or the result code refusing it. */
  datatype Pick = Picked(sap: ServiceAdapter) | Refused(code: int)

  function Choose(sv: Services, id: Option<int>): Pick
  {
    if id == Some(DeviceToDeviceServiceId) then
      if sv.deviceToDevice != null then Picked(sv.deviceToDevice) else Refused(NoDeviceToDeviceService)
    else if id == Some(RouterToRouterServiceId) then
      if sv.routerToRouter != null then Picked(sv.routerToRouter) else Refused(NoRouterToRouterService)
    else if id == Some(ProxyServiceId) then
      if sv.proxy != null then Picked(sv.proxy) else Refused(NoProxyService)
    else if id == Some(LaneServiceId) then
      if sv.lane != null then Picked(sv.lane) else Refused(NoLaneService)
    else Refused(UnrecognizedService)
  }

  function Lookup<K, V>(m: map<K, V>, k: K): Option<V>
  {
    if k in m then Some(m[k]) else None
  }

  /** The Service-Request branch of `confirmation`: a connected connection is first taken
    * from its service; a refused request is answered with its code; a service without
    * authentication takes the connection; otherwise a trusted address may supply a default
    * user, and the connection is added only when authenticated and the user may use the
    * service. */
  function ServiceRequestStep(sv: Services, c: ConnFields, addr: Address, id: Option<int>, src: Address): (h: Handled)
  {
    var removed := if c.service != null && c.connected then c.service else null;
    var c1 := if removed != null then c.(service := null, connected := false) else c;
    match Choose(sv, id)
    case Refused(code) => Handled(Ok(()), c1, [ResultSent(code, src)], removed, null)
    case Picked(sap) =>
      if !sap.authenticationRequired then
        Handled(Ok(()), c1.(service := sap, connected := true), [ResultSent(Success, src)], removed, sap)
      else
        var c2 :=
          if c1.userinfo.Some? then c1
          else
            var u := Lookup(sap.defaultUsers, addr);
            if u.Some? then c1.(userinfo := u, accessState := Authenticated) else c1.(userinfo := u);
        if c2.accessState != Authenticated then
          Handled(Ok(()), c2.(service := sap), [ResultSent(AuthenticationRequired, src)], removed, null)
        else if c2.userinfo.None? then Handled(Err(AttributeError), c2, [], removed, null)
        else if sap.serviceID !in c2.userinfo.value.services then
          Handled(Ok(()), c2, [ResultSent(AuthenticationNoService, src)], removed, null)
        else Handled(Ok(()), c2.(service := sap, connected := true), [ResultSent(Success, src)], removed, sap)
  }

  /** `do_AccessRequest`: only a connection that asked for a service and has not tried to
    * authenticate, naming a hash function that exists and a user the service knows, is
    * challenged; the challenge is remembered. `challenge` is the digest of the random
    * string. */
  function AccessRequestStep(c: ConnFields, addr: Address, hashFn: int, username: seq<byte>, src: Address, challenge: seq<byte>): (h: Handled)
  {
    if c.service == null then Handled(Ok(()), c, [ResultSent(AuthenticationNoService, src)], null, null)
    else if c.accessState != NotAuthenticated then Handled(Ok(()), c, [ResultSent(AuthenticationFailure, src)], null, null)
    else if !HashIndex(hashFn) then Handled(Ok(()), c, [ResultSent(AuthenticationHash, src)], null, null)
    else
      var c1 := c.(userinfo := Lookup(c.service.users, username));
      if c1.userinfo.None? then Handled(Ok(()), c1, [ResultSent(AuthenticationFailure, src)], null, null)
      else Handled(Ok(()), c1.(challenge := Some(challenge), accessState := Challenged), [ChallengeSent(hashFn, challenge, addr)], null, null)
  }

  /** A `Result(code)` reply as written: the decorator of `bacpypes/bsll/registry.py` binds
    * `Result` to None, so building the reply raises TypeError and nothing is sent. */
  function ReplyAsWritten(c: ConnFields, code: int, src: Address): (h: Handled)
  {
    match ConstructResultAsWritten(code)
    case Err(e) => Handled(Err(e), c, [], null, null)
    case Ok(_) => Handled(Ok(()), c, [ResultSent(code, src)], null, null)
  }

  /** `do_AccessRequest` as written. Every refusal builds a `Result`, bound to None. A user
    * the service knows fails earlier: the challenge is the digest of a `str` of 128 random
    * characters, and the hashlib digests of `hash_functions` take only octets, so TypeError
    * is raised once `conn.userinfo` is stored, before `AccessChallenge` (also None) is
    * reached. */
  function AccessRequestAsWritten(c: ConnFields, addr: Address, hashFn: int, username: seq<byte>, src: Address): (h: Handled)
  {
    if c.service == null then ReplyAsWritten(c, AuthenticationNoService, src)
    else if c.accessState != NotAuthenticated then ReplyAsWritten(c, AuthenticationFailure, src)
    else if !HashIndex(hashFn) then ReplyAsWritten(c, AuthenticationHash, src)
    else
      var c1 := c.(userinfo := Lookup(c.service.users, username));
      if c1.userinfo.None? then ReplyAsWritten(c1, AuthenticationFailure, src)
      else Handled(Err(TypeError), c1, [], null, null)
  }

  /** `do_AccessResponse`: a challenged connection whose response is the digest of the
    * password and the challenge is authenticated, then connected to the service it asked
    * for if the user may use it, or loses that service if not. A missing password or
    * challenge cannot be concatenated and raises TypeError. */
  function AccessResponseStep(c: ConnFields, hashFn: int, response: seq<byte>, src: Address, hash: HashFn): (h: Handled)
  {
    if c.userinfo.None? then Handled(Ok(()), c, [ResultSent(AuthenticationFailure, src)], null, null)
    else if c.accessState != Challenged then Handled(Ok(()), c, [ResultSent(AuthenticationFailure, src)], null, null)
    else if !HashIndex(hashFn) then Handled(Ok(()), c, [ResultSent(AuthenticationHash, src)], null, null)
    else if c.userinfo.value.password.None? || c.challenge.None? then Handled(Err(TypeError), c, [], null, null)
    else if hash(HashSlot(hashFn), c.userinfo.value.password.value + c.challenge.value) != response then
      Handled(Ok(()), c, [ResultSent(AuthenticationFailure, src)], null, null)
    else
      var c1 := c.(accessState := Authenticated);
      if c1.service == null then Handled(Ok(()), c1, [ResultSent(Success, src)], null, null)
      else if c1.service.serviceID !in c1.userinfo.value.services then
        Handled(Ok(()), c1.(service := null), [ResultSent(AuthenticationNoService, src)], null, null)
      else Handled(Ok(()), c1.(connected := true), [ResultSent(Success, src)], null, c1.service)
  }

  /** A data message for a service: passed on only from a connection to that service. */
  function Relay(s: ServiceAdapter?, c: ConnFields, m: BsllMessage): (h: Handled)
  {
    if s != null && c.service == s then Handled(Ok(()), c, [ToService(s, m)], null, null)
    else Handled(Ok(()), c, [], null, null)
  }

  /** `confirmation` on a decoded message from a connection: the branch of its function. */
  function ConfirmationStep(sv: Services, c: ConnFields, addr: Address, m: BsllMessage, src: Address, challenge: seq<byte>, hash: HashFn): (h: Handled)
  {
    match m
    case ServiceRequest(id) => ServiceRequestStep(sv, c, addr, id, src)
    case AccessRequest(fn, username) => AccessRequestStep(c, addr, fn, username, src, challenge)
    case AccessResponse(fn, response) => AccessResponseStep(c, fn, response, src, hash)
    case DeviceToDeviceAPDU(_) => Relay(sv.deviceToDevice, c, m)
    case RouterToRouterNPDU(_) => Relay(sv.routerToRouter, c, m)
    case AddressedPDU(fn, _, _) =>
      if fn == Bslci.ProxyToServerUnicastNPDU || fn == Bslci.ProxyToServerBroadcastNPDU then Relay(sv.proxy, c, m)
      else if fn == Bslci.ClientToLESUnicastNPDU || fn == Bslci.ClientToLESBroadcastNPDU then Relay(sv.lane, c, m)
      else Handled(Ok(()), c, [], null, null)
    case _ => Handled(Ok(()), c, [], null, null)
  }

  /** The addresses a service holds after a message: the connection is taken from the
    * service it was connected to, then added to the one it joins. */
  function Members(m: set<Address>, s: ServiceAdapter, removed: ServiceAdapter?, added: ServiceAdapter?, addr: Address): set<Address>
  {
    (if s == removed then m - {addr} else m) + (if s == added then {addr} else {})
  }

  class TCPServerMultiplexer {
    var connections: map<Address, ConnectionState>
    var deviceToDeviceService: ServiceAdapter?
    var routerToRouterService: ServiceAdapter?
    var proxyService: ServiceAdapter?
    var laneService: ServiceAdapter?

    function Offered(): Services
      reads this
    {
      Services(deviceToDeviceService, routerToRouterService, proxyService, laneService)
    }

    /** The services, as objects a message may change. */
    function Adapters(): set<object>
      reads this
    {
      (if deviceToDeviceService != null then {deviceToDeviceService as object} else {}) +
      (if routerToRouterService != null then {routerToRouterService as object} else {}) +
      (if proxyService != null then {proxyService as object} else {}) +
      (if laneService != null then {laneService as object} else {})
    }

    /** What a message may change: the connections, the services they are connected to,
      * and the services offered. */
    function Frame(): set<object>
      reads this, connections.Values
    {
      (set c | c in connections.Values :: c as object) +
      (set c | c in connections.Values && c.service != null :: c.service as object) +
      Adapters()
    }

    /** A new multiplexer has no connections and offers no service. The transport and the
      * bindings it creates are not modelled. */
    constructor()
      ensures connections == map[] && Offered() == Services(null, null, null, null)
    {
      connections := map[];
      deviceToDeviceService, routerToRouterService, proxyService, laneService := null, null, null, null;
    }

    /** The registration a `ServiceAdapter` makes with its multiplexer when it is built: an
      * adapter of any other identifier is refused. */
    method Offer(sap: ServiceAdapter) returns (r: Result<()>)
      modifies this
      ensures connections == old(connections)
      ensures sap.serviceID == DeviceToDeviceServiceId ==> r == Ok(()) && Offered() == old(Offered()).(deviceToDevice := sap)
      ensures sap.serviceID == RouterToRouterServiceId ==> r == Ok(()) && Offered() == old(Offered()).(routerToRouter := sap)
      ensures sap.serviceID == ProxyServiceId ==> r == Ok(()) && Offered() == old(Offered()).(proxy := sap)
      ensures sap.serviceID == LaneServiceId ==> r == Ok(()) && Offered() == old(Offered()).(lane := sap)
      ensures !(DeviceToDeviceServiceId <= sap.serviceID <= LaneServiceId) ==> r == Err(RuntimeError) && Offered() == old(Offered())
    {
      if sap.serviceID == DeviceToDeviceServiceId {
        deviceToDeviceService := sap;
      } else if sap.serviceID == RouterToRouterServiceId {
        routerToRouterService := sap;
      } else if sap.serviceID == ProxyServiceId {
        proxyService := sap;
      } else if sap.serviceID == LaneServiceId {
        laneService := sap;
      } else {
        return Err(RuntimeError);
      }
      r := Ok(());
    }

    /** The Service-Request branch of `confirmation`. */
    method ServiceRequest(conn: ConnectionState, id: Option<int>, src: Address) returns (r: Result<()>, out: seq<Out>)
      modifies conn, conn.service, Adapters()
      ensures var h := ServiceRequestStep(old(Offered()), old(conn.Fields()), conn.address, id, src);
              && r == h.r && out == h.out && conn.Fields() == h.conn
              && (forall s: ServiceAdapter :: s in old(Adapters()) || s == old(conn.service) ==>
                    s.connections == Members(old(s.connections), s, h.removed, h.added, conn.address))
    {
      ghost var c0 := conn.Fields();
      ghost var sv := Offered();
      ghost var old0 := conn.service;
      if conn.service != null && conn.connected {
        conn.service.RemoveConnection(conn);
      }
      ghost var removed := if c0.service != null && c0.connected then c0.service else null;
      assert conn.Fields() == (if removed != null then c0.(service := null, connected := false) else c0);
      var pick := Choose(Offered(), id);
      if pick.Refused? {
        return Ok(()), [ResultSent(pick.code, src)];
      }
      var sap := pick.sap;
      if !sap.authenticationRequired {
        sap.AddConnection(conn);
        return Ok(()), [ResultSent(Success, src)];
      }
      if conn.userinfo.None? {
        conn.userinfo := Lookup(sap.defaultUsers, conn.address);
        if conn.userinfo.Some? {
          conn.accessState := Authenticated;
        }
      }
      var code := Success;
      if conn.accessState != Authenticated {
        code := AuthenticationRequired;
        conn.service := sap;
      } else if conn.userinfo.None? {
        return Err(AttributeError), [];
      } else if sap.serviceID !in conn.userinfo.value.services {
        code := AuthenticationNoService;
      } else {
        sap.AddConnection(conn);
      }
      r, out := Ok(()), [ResultSent(code, src)];
    }

    /** `do_AccessRequest`. */
    method AccessRequest(conn: ConnectionState, hashFn: int, username: seq<byte>, src: Address, challenge: seq<byte>)
      returns (out: seq<Out>)
      modifies conn
      ensures var h := AccessRequestStep(old(conn.Fields()), conn.address, hashFn, username, src, challenge);
              h.r == Ok(()) && out == h.out && conn.Fields() == h.conn
    {
      if conn.service == null {
        return [ResultSent(AuthenticationNoService, src)];
      }
      if conn.accessState != NotAuthenticated {
        return [ResultSent(AuthenticationFailure, src)];
      }
      if !HashIndex(hashFn) {
        return [ResultSent(AuthenticationHash, src)];
      }
      conn.userinfo := Lookup(conn.service.users, username);
      if conn.userinfo.None? {
        return [ResultSent(AuthenticationFailure, src)];
      }
      conn.challenge := Some(challenge);
      conn.accessState := Challenged;
      out := [ChallengeSent(hashFn, challenge, conn.address)];
    }

    /** `do_AccessResponse`. */
    method AccessResponse(conn: ConnectionState, hashFn: int, response: seq<byte>, src: Address, hash: HashFn)
      returns (r: Result<()>, out: seq<Out>)
      modifies conn, conn.service
      ensures var h := AccessResponseStep(old(conn.Fields()), hashFn, response, src, hash);
              && r == h.r && out == h.out && conn.Fields() == h.conn
              && (forall s: ServiceAdapter :: s == old(conn.service) ==>
                    s.connections == Members(old(s.connections), s, h.removed, h.added, conn.address))
    {
      var code := Success;
      if conn.userinfo.None? {
        code := AuthenticationFailure;
      } else if conn.accessState != Challenged {
        code := AuthenticationFailure;
      } else {
        if !HashIndex(hashFn) {
          return Ok(()), [ResultSent(AuthenticationHash, src)];
        }
        if conn.userinfo.value.password.None? || conn.challenge.None? {
          return Err(TypeError), [];
        }
        var digest := hash(HashSlot(hashFn), conn.userinfo.value.password.value + conn.challenge.value);
        if digest == response {
          conn.accessState := Authenticated;
          if conn.service == null {
          } else if conn.service.serviceID !in conn.userinfo.value.services {
            code := AuthenticationNoService;
            conn.service := null;
          } else {
            conn.service.AddConnection(conn);
          }
        } else {
          code := AuthenticationFailure;
        }
      }
      r, out := Ok(()), [ResultSent(code, src)];
    }

    /** `confirmation`: a packet from the stream of `src`. A packet that is no BSLPDU raises;
      * one from an address without a connection is dropped; one whose function has no
      * registered class raises KeyError; the rest go to the branch of their function. */
    method Confirmation(src: Address, data: seq<byte>, challenge: seq<byte>, hash: HashFn) returns (r: Result<()>, out: seq<Out>)
      modifies Frame()
      ensures connections == old(connections) && Offered() == old(Offered())
      ensures var d := Bslci.DecodeBslci(data);
              && (d.Err? ==> r == Err(d.error) && out == [])
              && (d.Ok? && src !in connections ==> r == Ok(()) && out == [])
              && (d.Ok? && src in connections ==>
                    var conn := connections[src];
                    var b := DecodeBody(d.value.0.bslciFunction.value, d.value.1);
                    && (b.Err? ==> r == Err(b.error) && out == [])
                    && (b.Ok? ==>
                          var h := ConfirmationStep(old(Offered()), old(conn.Fields()), conn.address, b.value.0, src, challenge, hash);
                          r == h.r && out == h.out && conn.Fields() == h.conn))
    {
      var d := Bslci.DecodeBslci(data);
      if d.Err? {
        return Err(d.error), [];
      }
      if src !in connections {
        return Ok(()), [];
      }
      var conn := connections[src];
      assert conn in connections.Values;
      var b := DecodeBody(d.value.0.bslciFunction.value, d.value.1);
      if b.Err? {
        return Err(b.error), [];
      }
      r, out := Dispatch(conn, b.value.0, src, challenge, hash);
    }

    /** The branch of `confirmation` for a decoded message on a known connection. */
    method Dispatch(conn: ConnectionState, m: BsllMessage, src: Address, challenge: seq<byte>, hash: HashFn)
      returns (r: Result<()>, out: seq<Out>)
      requires conn in connections.Values
      modifies Frame()
      ensures var h := ConfirmationStep(old(Offered()), old(conn.Fields()), conn.address, m, src, challenge, hash);
              r == h.r && out == h.out && conn.Fields() == h.conn
    {
      assert conn in Frame() && (conn.service != null ==> conn.service in Frame());
      match m {
        case ServiceRequest(id) =>
          r, out := ServiceRequest(conn, id, src);
        case AccessRequest(fn, username) =>
          out := AccessRequest(conn, fn, username, src, challenge);
          r := Ok(());
        case AccessResponse(fn, response) =>
          r, out := AccessResponse(conn, fn, response, src, hash);
        case DeviceToDeviceAPDU(_) =>
          r, out := Ok(()), Relay(deviceToDeviceService, conn.Fields(), m).out;
        case RouterToRouterNPDU(_) =>
          r, out := Ok(()), Relay(routerToRouterService, conn.Fields(), m).out;
        case AddressedPDU(fn, _, _) =>
          if fn == Bslci.ProxyToServerUnicastNPDU || fn == Bslci.ProxyToServerBroadcastNPDU {
            r, out := Ok(()), Relay(proxyService, conn.Fields(), m).out;
          } else if fn == Bslci.ClientToLESUnicastNPDU || fn == Bslci.ClientToLESBroadcastNPDU {
            r, out := Ok(()), Relay(laneService, conn.Fields(), m).out;
          } else {
            r, out := Ok(()), [];
          }
        case _ =>
          r, out := Ok(()), [];
      }
    }
  }
}

/** What the server multiplexer promises about services and authentication. */
module TcpServerMuxProperties {
  import opened Wrappers
  import opened Bytes
  import opened Addresses
  import opened Bslpdu
  import opened TcpServerMux

  /** A connection the server has touched: never in the client-only state REQUESTED, with a
    * user once it is challenged or authenticated, and a challenge while challenged. */
  predicate ConnValid(c: ConnFields)
  {
    && (c.accessState == NotAuthenticated || c.accessState == Challenged || c.accessState == Authenticated)
    && (c.accessState != NotAuthenticated ==> c.userinfo.Some?)
    && (c.accessState == Challenged ==> c.challenge.Some?)
  }

  lemma NewConnectionValid()
    ensures ConnValid(ConnFields(null, false, NotAuthenticated, None, None))
  {
  }

  /** A Service-Request for an identifier that is not a service gets UNRECOGNIZED_SERVICE;
    * one for a service not offered gets its NO_* code, which is the identifier itself;
    * either way nothing else happens but leaving the service the connection had. */
  lemma ServiceRequestRefused(sv: Services, c: ConnFields, addr: Address, id: Option<int>, src: Address)
    ensures var h := ServiceRequestStep(sv, c, addr, id, src);
            && (id.None? || !(DeviceToDeviceServiceId <= id.value <= LaneServiceId) ==> h.out == [ResultSent(TcpServerMux.UnrecognizedService, src)])
            && (Choose(sv, id).Refused? && id.Some? && DeviceToDeviceServiceId <= id.value <= LaneServiceId ==> h.out == [ResultSent(id.value, src)])
            && (Choose(sv, id).Refused? ==>
                  h.r == Ok(()) && h.added == null &&
                  h.conn == (if c.service != null && c.connected then c.(service := null, connected := false) else c))
  {
  }

  /** A connection already connected is first taken from its service. */
  lemma ServiceRequestLeaves(sv: Services, c: ConnFields, addr: Address, id: Option<int>, src: Address)
    ensures var h := ServiceRequestStep(sv, c, addr, id, src);
            h.removed == (if c.service != null && c.connected then c.service else null)
  {
  }

  /** A service that needs no authentication takes the connection at once. */
  lemma ServiceRequestOpen(sv: Services, c: ConnFields, addr: Address, id: Option<int>, src: Address)
    requires Choose(sv, id).Picked? && !Choose(sv, id).sap.authenticationRequired
    ensures var h := ServiceRequestStep(sv, c, addr, id, src);
            && h.r == Ok(()) && h.out == [ResultSent(Success, src)]
            && h.added == Choose(sv, id).sap && h.conn.service == Choose(sv, id).sap && h.conn.connected
            && h.conn.accessState == c.accessState && h.conn.userinfo == c.userinfo
  {
  }

  /** A service that needs authentication, asked for by a connection that is not
    * authenticated and has no trusted default user, is remembered for later and answered
    * with AUTHENTICATION_REQUIRED. */
  lemma ServiceRequestNeedsAuthentication(sv: Services, c: ConnFields, addr: Address, id: Option<int>, src: Address)
    requires Choose(sv, id).Picked? && Choose(sv, id).sap.authenticationRequired
    requires c.accessState != Authenticated && (c.userinfo.Some? || addr !in Choose(sv, id).sap.defaultUsers)
    ensures var h := ServiceRequestStep(sv, c, addr, id, src);
            && h.r == Ok(()) && h.out == [ResultSent(AuthenticationRequired, src)]
            && h.added == null && h.conn.service == Choose(sv, id).sap && h.conn.accessState == c.accessState
  {
  }

  /** A connection from a trusted address is authenticated with its default user, and
    * connected exactly when that user may use the service. */
  lemma ServiceRequestTrusted(sv: Services, c: ConnFields, addr: Address, id: Option<int>, src: Address)
    requires Choose(sv, id).Picked? && Choose(sv, id).sap.authenticationRequired
    requires c.userinfo.None? && addr in Choose(sv, id).sap.defaultUsers
    ensures var h := ServiceRequestStep(sv, c, addr, id, src);
            var sap := Choose(sv, id).sap;
            && h.r == Ok(()) && h.conn.accessState == Authenticated && h.conn.userinfo == Some(sap.defaultUsers[addr])
            && (h.added == sap <==> sap.serviceID in sap.defaultUsers[addr].services)
            && (h.added == null <==> sap.serviceID !in sap.defaultUsers[addr].services)
            && h.out == [ResultSent(if h.added == sap then Success else AuthenticationNoService, src)]
  {
  }

  /** An Access-Request is refused without a service asked for, once authentication was
    * tried, and for a hash function that does not exist, leaving the connection as it
    * was; a user the service knows is challenged, and the challenge is remembered; any
    * other user is refused and forgotten. */
  lemma AccessRequestSpec(c: ConnFields, addr: Address, hashFn: int, username: seq<byte>, src: Address, challenge: seq<byte>)
    ensures var h := AccessRequestStep(c, addr, hashFn, username, src, challenge);
            && h.r == Ok(()) && h.added == null && h.removed == null
            && (c.service == null ==> h.out == [ResultSent(AuthenticationNoService, src)] && h.conn == c)
            && (c.service != null && c.accessState != NotAuthenticated ==> h.out == [ResultSent(AuthenticationFailure, src)] && h.conn == c)
            && (c.service != null && c.accessState == NotAuthenticated && !HashIndex(hashFn) ==>
                  h.out == [ResultSent(AuthenticationHash, src)] && h.conn == c)
            && (c.service != null && c.accessState == NotAuthenticated && HashIndex(hashFn) && username in c.service.users ==>
                  && h.out == [ChallengeSent(hashFn, challenge, addr)]
                  && h.conn == c.(userinfo := Some(c.service.users[username]), challenge := Some(challenge), accessState := Challenged))
            && (c.service != null && c.accessState == NotAuthenticated && HashIndex(hashFn) && username !in c.service.users ==>
                  h.out == [ResultSent(AuthenticationFailure, src)] && h.conn == c.(userinfo := None))
  {
  }

  /** As written, every Access-Request raises TypeError with nothing sent, and none ever
    * challenges a connection: a user the service knows is stored before the digest fails,
    * and every other case leaves the connection as the corrected step does but cannot
    * build its `Result` reply. */
  lemma AccessRequestAsWrittenRaises(c: ConnFields, addr: Address, hashFn: int, username: seq<byte>, src: Address, challenge: seq<byte>)
    ensures var w := AccessRequestAsWritten(c, addr, hashFn, username, src);
            && w.r == Err(TypeError) && w.out == [] && w.removed == null && w.added == null
            && w.conn.accessState == c.accessState && w.conn.challenge == c.challenge
            && (c.service != null && c.accessState == NotAuthenticated && HashIndex(hashFn) && username in c.service.users ==>
                  w.conn == c.(userinfo := Some(c.service.users[username])))
            && (!(c.service != null && c.accessState == NotAuthenticated && HashIndex(hashFn) && username in c.service.users) ==>
                  w.conn == AccessRequestStep(c, addr, hashFn, username, src, challenge).conn)
  {
  }

  /** An Access-Response outside a challenge, or with the wrong digest, fails and changes
    * nothing; the right digest authenticates the connection, which then joins the service
    * it asked for if the user may use it and otherwise loses it. */
  lemma AccessResponseSpec(c: ConnFields, hashFn: int, response: seq<byte>, src: Address, hash: HashFn)
    ensures var h := AccessResponseStep(c, hashFn, response, src, hash);
            && h.removed == null
            && (c.accessState != Challenged || c.userinfo.None? ==> h.out == [ResultSent(AuthenticationFailure, src)] && h.conn == c && h.r == Ok(()))
            && (c.accessState == Challenged && c.userinfo.Some? && !HashIndex(hashFn) ==>
                  h.out == [ResultSent(AuthenticationHash, src)] && h.conn == c && h.r == Ok(()))
            && (c.accessState == Challenged && c.userinfo.Some? && HashIndex(hashFn) && c.userinfo.value.password.Some? && c.challenge.Some? ==>
                  var matched := hash(HashSlot(hashFn), c.userinfo.value.password.value + c.challenge.value) == response;
                  && h.r == Ok(())
                  && (!matched ==> h.out == [ResultSent(AuthenticationFailure, src)] && h.conn == c && h.added == null)
                  && (matched ==> h.conn.accessState == Authenticated)
                  && (matched && c.service != null && c.service.serviceID !in c.userinfo.value.services ==>
                        h.out == [ResultSent(AuthenticationNoService, src)] && h.conn.service == null && h.added == null)
                  && (matched && c.service != null && c.service.serviceID in c.userinfo.value.services ==>
                        h.out == [ResultSent(Success, src)] && h.added == c.service && h.conn.connected))
  {
  }

  /** A connection joins a service only when it needs no authentication, or when the
    * connection is authenticated with a user who may use it. */
  lemma JoinsOnlyWhenAllowed(sv: Services, c: ConnFields, addr: Address, m: BsllMessage, src: Address, challenge: seq<byte>, hash: HashFn)
    ensures var h := ConfirmationStep(sv, c, addr, m, src, challenge, hash);
            h.added != null ==>
              && h.conn.service == h.added && h.conn.connected
              && ((m.ServiceRequest? && !h.added.authenticationRequired) ||
                  (h.conn.accessState == Authenticated && h.conn.userinfo.Some? && h.added.serviceID in h.conn.userinfo.value.services))
  {
  }

  /** A data message reaches a service only from a connection to that service, and
    * changes nothing. */
  lemma RelaysOnlyToOwnService(sv: Services, c: ConnFields, addr: Address, m: BsllMessage, src: Address, challenge: seq<byte>, hash: HashFn)
    requires !m.ServiceRequest? && !m.AccessRequest? && !m.AccessResponse?
    ensures var h := ConfirmationStep(sv, c, addr, m, src, challenge, hash);
            && h.r == Ok(()) && h.conn == c && h.added == null && h.removed == null
            && (forall o :: o in h.out ==> o.ToService? && o.service == c.service && o.message == m)
  {
  }

  /** Every message keeps a connection valid; with the corrected Access-Request the only
    * thing that can raise is a user without a password answering a challenge. */
  lemma ConfirmationKeepsValid(sv: Services, c: ConnFields, addr: Address, m: BsllMessage, src: Address, challenge: seq<byte>, hash: HashFn)
    requires ConnValid(c)
    ensures var h := ConfirmationStep(sv, c, addr, m, src, challenge, hash);
            && ConnValid(h.conn)
            && (h.r.Err? ==> h.r == Err(TypeError) && m.AccessResponse? && c.userinfo.Some? && c.userinfo.value.password.None?)
  {
  }
}
