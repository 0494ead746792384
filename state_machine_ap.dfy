/** The state machine access point (`bacpypes/app/state_machine_ap.py`): it hands out invoke
  * IDs, keeps the lists of client and server transactions, routes each APDU to the
  * transaction it belongs to, and applies device communication control. A transaction is
  * known here by the key the access point compares: its invoke ID and the address of its
  * remote device (none when the device information cache had no record for the peer). */
module StateMachineAp {
  import opened Wrappers
  import opened Addresses
  import opened Ssm
  import opened DeviceInfos
  import Apdu

  /** The three values of `dccEnableDisable` (ASHRAE 135 clause 16.1). */
  datatype Dcc = Enable | Disable | DisableInitiation

  /** A transaction as the access point sees it: `tr.invokeID` and `tr.remoteDevice.address`. */
  datatype Tr = Tr(invokeID: Option<int>, remote: Option<Address>)

  /** Where an APDU goes: nowhere, up to the application (`sap_request`), down to the
    * device (`request`), or to the `indication` or `confirmation` of the transaction at an
    * index of the server or client list. */
  datatype Route =
    | Dropped
    | Up
    | Down
    | ServerIndication(index: nat)
    | ServerConfirmation(index: nat)
    | ClientIndication(index: nat)
    | ClientConfirmation(index: nat)

  /** The fields of the access point that routing reads and changes. */
  datatype SapFields = SapFields(nextInvokeID: int, clients: seq<Tr>, servers: seq<Tr>, dcc: Dcc)

  /** The order of the two comparisons of a transaction search: the invoke ID first, as in
    * every search but one, or the address first, as in the search for a repeated
    * confirmed request (`apdu.pduSource == tr.remoteDevice.address` before the invoke ID). */
  datatype Order = IdFirst | AddressFirst

  /** `(invoke_id == tr.invokeID) and (addr == tr.remoteDevice.address)`, or the two the
    * other way round: the second comparison is only made when the first holds. Reading the
    * address of a transaction without device information is an AttributeError, and a missing
    * `addr` cannot be made an address for the comparison (TypeError). */
  function Matches(tr: Tr, id: Option<int>, addr: Option<Address>, order: Order := IdFirst): (r: Result<bool>)
    ensures r == Ok(true) <==> id == tr.invokeID && tr.remote.Some? && addr == tr.remote
  {
    if order == IdFirst then
      if id != tr.invokeID then Ok(false)
      else if tr.remote.None? then Err(AttributeError)
      else if addr.None? then Err(TypeError)
      else Ok(addr.value == tr.remote.value)
    else
      if tr.remote.None? then Err(AttributeError)
      else if addr.None? then Err(TypeError)
      else if addr.value != tr.remote.value then Ok(false)
      else Ok(id == tr.invokeID)
  }

  /** What the order changes: only a missing address or device information raises; with
    * the invoke ID first a different ID is a plain "no", with the address first a
    * transaction without device information raises AttributeError whatever the ID. */
  lemma MatchesOrder(tr: Tr, id: Option<int>, addr: Option<Address>, order: Order)
    ensures Matches(tr, id, addr, order).Err? ==> tr.remote.None? || addr.None?
    ensures order == IdFirst && id != tr.invokeID ==> Matches(tr, id, addr, order) == Ok(false)
    ensures order == AddressFirst && tr.remote.None? ==> Matches(tr, id, addr, order) == Err(AttributeError)
  {
  }

  /** The `for tr in ...: if ...: break / else:` search: the first transaction that matches,
    * or none; the first comparison that fails ends the search with its error. */
  function Lookup(trs: seq<Tr>, id: Option<int>, addr: Option<Address>, order: Order := IdFirst): Result<Option<nat>>
  {
    if |trs| == 0 then Ok(None)
    else
      var m := Matches(trs[0], id, addr, order);
      if m.Err? then Err(m.error)
      else if m.value then Ok(Some(0))
      else
        var rest := Lookup(trs[1..], id, addr, order);
        if rest.Err? then rest
        else if rest.value.None? then Ok(None)
        else Ok(Some(rest.value.value + 1))
  }

  /** What the search finds: the first transaction that matches, every one before it a plain
    * "no"; none exactly when every comparison is a plain "no"; an error exactly that of the
    * first comparison that is not. */
  lemma {:induction false} LookupSpec(trs: seq<Tr>, id: Option<int>, addr: Option<Address>, order: Order := IdFirst)
    ensures var r := Lookup(trs, id, addr, order);
      (r.Ok? && r.value.Some? ==>
        r.value.value < |trs| && Matches(trs[r.value.value], id, addr, order) == Ok(true) &&
        forall j :: 0 <= j < r.value.value ==> Matches(trs[j], id, addr, order) == Ok(false)) &&
      (r == Ok(None) <==> forall j :: 0 <= j < |trs| ==> Matches(trs[j], id, addr, order) == Ok(false)) &&
      (r.Err? ==> exists j :: 0 <= j < |trs| && Matches(trs[j], id, addr, order) == Err(r.error) &&
                              forall i :: 0 <= i < j ==> Matches(trs[i], id, addr, order) == Ok(false))
  {
    if |trs| > 0 {
      LookupSpec(trs[1..], id, addr, order);
      var rest := Lookup(trs[1..], id, addr, order);
      if Matches(trs[0], id, addr, order) == Ok(false) {
        forall j | 0 < j < |trs|
          ensures Matches(trs[j], id, addr, order) == Matches(trs[1..][j - 1], id, addr, order)
        {
        }
        if rest.Err? {
          var j :| 0 <= j < |trs| - 1 && Matches(trs[1..][j], id, addr, order) == Err(rest.error) &&
                   forall i :: 0 <= i < j ==> Matches(trs[1..][i], id, addr, order) == Ok(false);
          assert Matches(trs[j + 1], id, addr, order) == Err(rest.error);
          forall i | 0 <= i < j + 1
            ensures Matches(trs[i], id, addr, order) == Ok(false)
          {
            if i > 0 { assert Matches(trs[1..][i - 1], id, addr, order) == Ok(false); }
          }
        }
      }
    }
  }

  /** The search loop itself. */
  method FindTransaction(trs: seq<Tr>, id: Option<int>, addr: Option<Address>, order: Order := IdFirst) returns (r: Result<Option<nat>>)
    ensures r == Lookup(trs, id, addr, order)
  {
    var i := 0;
    while i < |trs|
      invariant 0 <= i <= |trs|
      invariant forall j :: 0 <= j < i ==> Matches(trs[j], id, addr, order) == Ok(false)
    {
      var m := Matches(trs[i], id, addr, order);
      if m.Err? {
        LookupStops(trs, id, addr, order, i);
        return Err(m.error);
      }
      if m.value {
        LookupStops(trs, id, addr, order, i);
        return Ok(Some(i));
      }
      i := i + 1;
    }
    LookupSpec(trs, id, addr, order);
    return Ok(None);
  }

  /** The search stops at the first transaction whose comparison is not a plain "no". */
  lemma {:induction false} LookupStops(trs: seq<Tr>, id: Option<int>, addr: Option<Address>, order: Order, i: nat)
    requires i < |trs| && Matches(trs[i], id, addr, order) != Ok(false)
    requires forall j :: 0 <= j < i ==> Matches(trs[j], id, addr, order) == Ok(false)
    ensures Lookup(trs, id, addr, order) ==
      (if Matches(trs[i], id, addr, order).Err? then Err(Matches(trs[i], id, addr, order).error) else Ok(Some(i)))
    decreases i
  {
    if i > 0 {
      assert Matches(trs[0], id, addr, order) == Ok(false);
      assert trs[1..][i - 1] == trs[i];
      forall j | 0 <= j < i - 1
        ensures Matches(trs[1..][j], id, addr, order) == Ok(false)
      {
        assert trs[1..][j] == trs[j + 1];
      }
      LookupStops(trs[1..], id, addr, order, i - 1);
    }
  }

  // ---------------------------------------------------------------------------------
  // get_next_invoke_id

  /** The invoke ID search from its `k`-th try, `nextInvokeID` having started at `initial`:
    * the result and the new `nextInvokeID`. Each try takes the current ID and advances the
    * counter modulo 256; the search fails once the counter is back at `initial`, before the
    * ID just taken is looked at. */
  function SearchFrom(trs: seq<Tr>, addr: Option<Address>, initial: int, k: nat): (Result<int>, int)
    requires 0 <= initial < 256 && k < 256
    decreases 256 - k
  {
    var id := IdAt(initial, k);
    var next := (initial + k + 1) % 256;
    if next == initial then (Err(RuntimeError), next)
    else
      var used := Lookup(trs, Some(id), addr);
      if used.Err? then (Err(used.error), next)
      else if used.value.Some? then SearchFrom(trs, addr, initial, k + 1)
      else (Ok(id), next)
  }

  /** The ID of the `j`-th try of a search that started at `initial`. */
  function IdAt(initial: int, j: int): int { (initial + j) % 256 }

  /** What the search promises: an ID it returns is one of the 255 it tries, is used by no
    * client transaction to `addr`, every ID tried before it is, and the counter is left just
    * past it. */
  lemma {:induction false} SearchFound(trs: seq<Tr>, addr: Option<Address>, initial: int, k: nat)
    requires 0 <= initial < 256 && k < 256
    requires forall j :: 0 <= j < k ==> InUse(trs, IdAt(initial, j), addr)
    ensures var (r, next) := SearchFrom(trs, addr, initial, k);
      r.Ok? ==>
        exists j :: k <= j < 255 && r.value == IdAt(initial, j) &&
          Free(trs, r.value, addr) && next == (r.value + 1) % 256 &&
          forall i :: 0 <= i < j ==> InUse(trs, IdAt(initial, i), addr)
    decreases 256 - k
  {
    var next := (initial + k + 1) % 256;
    if next == initial {
    } else if InUse(trs, IdAt(initial, k), addr) {
      SearchFound(trs, addr, initial, k + 1);
    } else if Lookup(trs, Some(IdAt(initial, k)), addr).Ok? {
      ModShift(initial + k, 1);
      assert k != 255;
    }
  }

  /** The search fails with RuntimeError exactly when all 255 IDs it tries are in use, so
    * the ID just before `initial` is never handed out. */
  lemma {:induction false} SearchExhausted(trs: seq<Tr>, addr: Option<Address>, initial: int, k: nat)
    requires 0 <= initial < 256 && k < 256
    requires forall j :: 0 <= j < k ==> InUse(trs, IdAt(initial, j), addr)
    ensures SearchFrom(trs, addr, initial, k).0 == Err(RuntimeError) <==>
      forall j :: 0 <= j < 255 ==> InUse(trs, IdAt(initial, j), addr)
    decreases 256 - k
  {
    var next := (initial + k + 1) % 256;
    if next == initial {
      assert k == 255;
    } else if InUse(trs, IdAt(initial, k), addr) {
      SearchExhausted(trs, addr, initial, k + 1);
    } else {
      LookupSpec(trs, Some(IdAt(initial, k)), addr);
    }
  }

  /** No client transaction to `addr` has the invoke ID `id`: the search finds none. */
  predicate Free(trs: seq<Tr>, id: int, addr: Option<Address>)
  {
    Lookup(trs, Some(id), addr) == Ok(None)
  }

  /** The invoke ID `id` is taken by a client transaction to `addr`. */
  predicate InUse(trs: seq<Tr>, id: int, addr: Option<Address>)
  {
    var found := Lookup(trs, Some(id), addr);
    found.Ok? && found.value.Some?
  }

  /** One try of the search, with the counter `next` already advanced past `id`. */
  lemma SearchStep(trs: seq<Tr>, addr: Option<Address>, initial: int, k: nat, id: int, next: int, used: Result<Option<nat>>)
    requires 0 <= initial < 256 && k < 256
    requires id == IdAt(initial, k) && next == (id + 1) % 256 && used == Lookup(trs, Some(id), addr)
    ensures next == (initial + k + 1) % 256
    ensures next == initial ==> SearchFrom(trs, addr, initial, k) == (Err(RuntimeError), next)
    ensures next != initial && used.Err? ==> SearchFrom(trs, addr, initial, k) == (Err(used.error), next)
    ensures next != initial && used.Ok? && used.value.None? ==> SearchFrom(trs, addr, initial, k) == (Ok(id), next)
    ensures next != initial && used.Ok? && used.value.Some? ==>
      k + 1 < 256 && next == IdAt(initial, k + 1) && SearchFrom(trs, addr, initial, k) == SearchFrom(trs, addr, initial, k + 1)
  {
    ModShift(initial + k, 1);
    if next != initial {
      assert k != 255;
    }
  }

  /** The loop of `get_next_invoke_id`: the ID found and the new `nextInvokeID`. */
  method Search(trs: seq<Tr>, addr: Option<Address>, initial: int) returns (r: Result<int>, next: int)
    requires 0 <= initial < 256
    ensures 0 <= next < 256
    ensures (r, next) == SearchFrom(trs, addr, initial, 0)
  {
    next := initial;
    var k := 0;
    while true
      invariant 0 <= k < 256
      invariant next == IdAt(initial, k)
      invariant SearchFrom(trs, addr, initial, k) == SearchFrom(trs, addr, initial, 0)
      decreases 256 - k
    {
      var invokeId := next;
      next := (next + 1) % 256;
      if initial == next {
        SearchStep(trs, addr, initial, k, invokeId, next, Lookup(trs, Some(invokeId), addr));
        return Err(RuntimeError), next;
      }
      var used := FindTransaction(trs, Some(invokeId), addr);
      SearchStep(trs, addr, initial, k, invokeId, next, used);
      if used.Err? {
        return Err(used.error), next;
      }
      if used.value.None? {
        return Ok(invokeId), next;
      }
      k := k + 1;
    }
  }

  // ---------------------------------------------------------------------------------
  // Device communication control

  /** `confirmation`: with communication disabled only DeviceCommunicationControl (17) and
    * ReinitializeDevice (20) requests and Who-Is (8) come in. */
  predicate AdmittedInbound(dcc: Dcc, p: Pdu)
  {
    dcc != Disable ||
    (IsType(p, Apdu.ConfirmedRequestType) && p.apci.apduService == Some(17)) ||
    (IsType(p, Apdu.ConfirmedRequestType) && p.apci.apduService == Some(20)) ||
    (IsType(p, Apdu.UnconfirmedRequestType) && p.apci.apduService == Some(8))
  }

  /** `sap_indication`: with communication disabled nothing goes out; with initiation
    * disabled only I-Am (0) does. */
  predicate AdmittedOutbound(dcc: Dcc, p: Pdu)
  {
    dcc == Enable ||
    (dcc == DisableInitiation && IsType(p, Apdu.UnconfirmedRequestType) && p.apci.apduService == Some(0))
  }

  predicate IsAnswerType(p: Pdu)
  {
    IsType(p, Apdu.SimpleAckType) || IsType(p, Apdu.ComplexAckType) ||
    IsType(p, Apdu.ErrorType) || IsType(p, Apdu.RejectType)
  }

  /** A registered APDU type. */
  predicate KnownType(p: Pdu)
  {
    p.apci.apduType.Some? && 0 <= p.apci.apduType.value <= 7
  }

  /** A client transaction found by an APDU's invoke ID and source gets it as a confirmation;
    * an APDU no transaction claims is dropped. */
  function ToClient(s: SapFields, p: Pdu): Result<Route>
  {
    var found := Lookup(s.clients, p.apci.apduInvokeID, p.pduSource);
    if found.Err? then Err(found.error)
    else if found.value.None? then Ok(Dropped)
    else Ok(ClientConfirmation(found.value.value))
  }

  /** The same for a server transaction and its indication. */
  function ToServer(s: SapFields, p: Pdu): Result<Route>
  {
    var found := Lookup(s.servers, p.apci.apduInvokeID, p.pduSource);
    if found.Err? then Err(found.error)
    else if found.value.None? then Ok(Dropped)
    else Ok(ServerIndication(found.value.value))
  }

  /** `confirmation(pdu)`: an APDU from the network, after communication control and
    * decoding. A confirmed request goes to the server transaction it repeats, found by
    * comparing addresses first, or to a new one, appended, whose key is its invoke ID and
    * the address in the peer's device information `remote`; an unconfirmed request goes up; an answer goes to its client
    * transaction; an abort or segment ack from a server goes to a client transaction, from
    * a client to a server transaction. */
  function InboundStep(s: SapFields, p: Pdu, remote: Option<Address>): (Result<Route>, SapFields)
  {
    if !AdmittedInbound(s.dcc, p) || !KnownType(p) then (Ok(Dropped), s)
    else if IsType(p, Apdu.ConfirmedRequestType) then
      var found := Lookup(s.servers, p.apci.apduInvokeID, p.pduSource, AddressFirst);
      if found.Err? then (Err(found.error), s)
      else if found.value.Some? then (Ok(ServerIndication(found.value.value)), s)
      else (Ok(ServerIndication(|s.servers|)), s.(servers := s.servers + [Tr(p.apci.apduInvokeID, remote)]))
    else if IsType(p, Apdu.UnconfirmedRequestType) then (Ok(Up), s)
    else if IsAnswerType(p) then (ToClient(s, p), s)
    else if Flag(p.apci.apduSrv) then (ToClient(s, p), s)
    else (ToServer(s, p), s)
  }

  /** The explicit invoke ID check of `sap_indication`: in use for the destination is a
    * RuntimeError. */
  function CheckInvokeId(s: SapFields, p: Pdu): Result<()>
  {
    var found := Lookup(s.clients, p.apci.apduInvokeID, p.pduDestination);
    if found.Err? then Err(found.error)
    else if found.value.Some? then Err(RuntimeError)
    else Ok(())
  }

  /** `sap_indication(apdu)`: a request from the application, after communication control.
    * An unconfirmed request goes down. A confirmed request without an invoke ID gets the next
    * free one; one with an invoke ID must not be in use for the destination; the destination
    * must be there to be looked at; then a new client transaction is appended, keyed by the
    * invoke ID and the address in the destination's device information `remote`, and gets
    * the request. Returns the route and the request as it goes on. */
  function OutboundStep(s: SapFields, p: Pdu, remote: Option<Address>): (Result<Route>, Pdu, SapFields)
    requires 0 <= s.nextInvokeID < 256
  {
    if !AdmittedOutbound(s.dcc, p) then (Ok(Dropped), p, s)
    else if IsType(p, Apdu.UnconfirmedRequestType) then (Ok(Down), p, s)
    else if !IsType(p, Apdu.ConfirmedRequestType) then (Err(RuntimeError), p, s)
    else
      var (r, p1, s1) := AssignInvokeId(s, p);
      if r.Err? then (Err(r.error), p1, s1)
      else if p1.pduDestination.None? then (Err(AttributeError), p1, s1)
      else
        (Ok(ClientIndication(|s1.clients|)), p1,
         s1.(clients := s1.clients + [Tr(p1.apci.apduInvokeID, remote)]))
  }

  /** A request without an invoke ID gets the next free one; one with an invoke ID must not
    * have it in use for the destination. */
  function AssignInvokeId(s: SapFields, p: Pdu): (Result<()>, Pdu, SapFields)
    requires 0 <= s.nextInvokeID < 256
  {
    if p.apci.apduInvokeID.None? then
      var (id, next) := SearchFrom(s.clients, p.pduDestination, s.nextInvokeID, 0);
      var s1 := s.(nextInvokeID := next);
      if id.Err? then (Err(id.error), p, s1)
      else (Ok(()), p.(apci := p.apci.(apduInvokeID := Some(id.value))), s1)
    else (CheckInvokeId(s, p), p, s)
  }

  /** `sap_confirmation(apdu)`: the application's answer goes to the server transaction with
    * its invoke ID and destination, or nowhere; any other APDU is a RuntimeError. */
  function AnswerStep(s: SapFields, p: Pdu): Result<Route>
  {
    if IsAnswerType(p) || IsType(p, Apdu.AbortType) then
      var found := Lookup(s.servers, p.apci.apduInvokeID, p.pduDestination);
      if found.Err? then Err(found.error)
      else if found.value.None? then Ok(Dropped)
      else Ok(ServerConfirmation(found.value.value))
    else Err(RuntimeError)
  }

  /** The list without the entry at `i`: `list.remove(tr)` of a transaction that finished. */
  function Without(trs: seq<Tr>, i: nat): (r: seq<Tr>)
    requires i < |trs|
    ensures |r| == |trs| - 1
    ensures forall j :: 0 <= j < i ==> r[j] == trs[j]
    ensures forall j :: i <= j < |r| ==> r[j] == trs[j + 1]
  {
    trs[..i] + trs[i + 1..]
  }

  /** No two transactions of a list have the same key, each with device information. */
  ghost predicate Unique(trs: seq<Tr>)
  {
    forall i, j :: 0 <= i < j < |trs| && trs[i].remote.Some? ==> trs[i] != trs[j]
  }

  class StateMachineAccessPoint {
    var nextInvokeID: int
    var clientTransactions: seq<Tr>
    var serverTransactions: seq<Tr>
    var dccEnableDisable: Dcc
    /** The timers, retry counts and sizes the transactions use. */
    var settings: Settings
    const deviceInfoCache: DeviceInfoCache

    ghost predicate Valid()
      reads this, deviceInfoCache
    {
      0 <= nextInvokeID < 256 && deviceInfoCache.Valid()
    }

    function Fields(): SapFields
      reads this
    {
      SapFields(nextInvokeID, clientTransactions, serverTransactions, dccEnableDisable)
    }

    /** `get_device_info(addr).address`, or none when the cache holds no record for it. */
    function RemoteOf(addr: Option<Address>): Option<Address>
      reads this, deviceInfoCache
      requires Valid()
    {
      if addr.None? then None
      else
        var found := deviceInfoCache.GetDeviceInfo(AddressKey(addr.value));
        if found.None? then None else Some(deviceInfoCache.records[found.value].info.address)
    }

    /** `__init__`: invoke IDs from 1, no transactions, communication enabled; the local
      * device's settings replace the defaults, and the application timeout is 3000 ms. */
    constructor (localDevice: Option<Settings>, cache: DeviceInfoCache)
      requires cache.Valid()
      ensures Valid() && deviceInfoCache == cache
      ensures nextInvokeID == 1 && clientTransactions == [] && serverTransactions == []
      ensures dccEnableDisable == Enable
      ensures settings == (if localDevice.Some? then localDevice.value else DefaultSettings).(applicationTimeout := 3000)
    {
      deviceInfoCache := cache;
      nextInvokeID := 1;
      clientTransactions := [];
      serverTransactions := [];
      dccEnableDisable := Enable;
      settings := (if localDevice.Some? then localDevice.value else DefaultSettings).(applicationTimeout := 3000);
    }

    /** `get_next_invoke_id(addr)`. */
    method GetNextInvokeId(addr: Option<Address>) returns (r: Result<int>)
      requires Valid()
      modifies this
      ensures Valid()
      ensures (r, nextInvokeID) == SearchFrom(old(clientTransactions), addr, old(nextInvokeID), 0)
      ensures clientTransactions == old(clientTransactions) && serverTransactions == old(serverTransactions)
      ensures dccEnableDisable == old(dccEnableDisable) && settings == old(settings)
    {
      r, nextInvokeID := Search(clientTransactions, addr, nextInvokeID);
    }

    /** `confirmation(pdu)`. */
    method Confirmation(pdu: Pdu) returns (r: Result<Route>)
      requires Valid()
      modifies this
      ensures Valid()
      ensures (r, Fields()) == InboundStep(old(Fields()), pdu, old(RemoteOf(pdu.pduSource)))
      ensures settings == old(settings)
    {
      var remote := RemoteOf(pdu.pduSource);
      if !AdmittedInbound(dccEnableDisable, pdu) || !KnownType(pdu) {
        return Ok(Dropped);
      }
      if IsType(pdu, Apdu.ConfirmedRequestType) {
        var found := FindTransaction(serverTransactions, pdu.apci.apduInvokeID, pdu.pduSource, AddressFirst);
        if found.Err? {
          return Err(found.error);
        }
        if found.value.Some? {
          return Ok(ServerIndication(found.value.value));
        }
        r := Ok(ServerIndication(|serverTransactions|));
        serverTransactions := serverTransactions + [Tr(pdu.apci.apduInvokeID, remote)];
      } else if IsType(pdu, Apdu.UnconfirmedRequestType) {
        r := Ok(Up);
      } else if IsAnswerType(pdu) || Flag(pdu.apci.apduSrv) {
        r := SearchClients(pdu);
      } else {
        r := SearchServers(pdu);
      }
    }

    method SearchClients(pdu: Pdu) returns (r: Result<Route>)
      ensures r == ToClient(Fields(), pdu)
    {
      var found := FindTransaction(clientTransactions, pdu.apci.apduInvokeID, pdu.pduSource);
      if found.Err? {
        return Err(found.error);
      }
      if found.value.None? {
        return Ok(Dropped);
      }
      return Ok(ClientConfirmation(found.value.value));
    }

    method SearchServers(pdu: Pdu) returns (r: Result<Route>)
      ensures r == ToServer(Fields(), pdu)
    {
      var found := FindTransaction(serverTransactions, pdu.apci.apduInvokeID, pdu.pduSource);
      if found.Err? {
        return Err(found.error);
      }
      if found.value.None? {
        return Ok(Dropped);
      }
      return Ok(ServerIndication(found.value.value));
    }

    /** `sap_indication(apdu)`: the route and the request as it goes on. */
    method SapIndication(apdu: Pdu) returns (r: Result<Route>, sent: Pdu)
      requires Valid()
      modifies this
      ensures Valid()
      ensures (r, sent, Fields()) == OutboundStep(old(Fields()), apdu, old(RemoteOf(apdu.pduDestination)))
      ensures settings == old(settings)
    {
      var remote := RemoteOf(apdu.pduDestination);
      sent := apdu;
      if !AdmittedOutbound(dccEnableDisable, apdu) {
        return Ok(Dropped), sent;
      }
      if IsType(apdu, Apdu.UnconfirmedRequestType) {
        return Ok(Down), sent;
      }
      if !IsType(apdu, Apdu.ConfirmedRequestType) {
        return Err(RuntimeError), sent;
      }
      if apdu.apci.apduInvokeID.None? {
        var id := GetNextInvokeId(apdu.pduDestination);
        if id.Err? {
          return Err(id.error), sent;
        }
        sent := apdu.(apci := apdu.apci.(apduInvokeID := Some(id.value)));
      } else {
        var found := FindTransaction(clientTransactions, apdu.apci.apduInvokeID, apdu.pduDestination);
        if found.Err? {
          return Err(found.error), sent;
        }
        if found.value.Some? {
          return Err(RuntimeError), sent;
        }
      }
      if sent.pduDestination.None? {
        return Err(AttributeError), sent;
      }
      r := Ok(ClientIndication(|clientTransactions|));
      clientTransactions := clientTransactions + [Tr(sent.apci.apduInvokeID, remote)];
    }

    /** `sap_confirmation(apdu)`. */
    method SapConfirmation(apdu: Pdu) returns (r: Result<Route>)
      ensures r == AnswerStep(Fields(), apdu)
    {
      if !(IsAnswerType(apdu) || IsType(apdu, Apdu.AbortType)) {
        return Err(RuntimeError);
      }
      var found := FindTransaction(serverTransactions, apdu.apci.apduInvokeID, apdu.pduDestination);
      if found.Err? {
        return Err(found.error);
      }
      if found.value.None? {
        return Ok(Dropped);
      }
      return Ok(ServerConfirmation(found.value.value));
    }

    /** `clientTransactions.remove(tr)` when client transaction `i` finishes. */
    method RemoveClient(i: nat)
      requires i < |clientTransactions|
      modifies this
      ensures clientTransactions == Without(old(clientTransactions), i)
      ensures nextInvokeID == old(nextInvokeID) && serverTransactions == old(serverTransactions)
      ensures dccEnableDisable == old(dccEnableDisable) && settings == old(settings)
    {
      clientTransactions := clientTransactions[..i] + clientTransactions[i + 1..];
    }

    /** `serverTransactions.remove(tr)` when server transaction `i` finishes. */
    method RemoveServer(i: nat)
      requires i < |serverTransactions|
      modifies this
      ensures serverTransactions == Without(old(serverTransactions), i)
      ensures nextInvokeID == old(nextInvokeID) && clientTransactions == old(clientTransactions)
      ensures dccEnableDisable == old(dccEnableDisable) && settings == old(settings)
    {
      serverTransactions := serverTransactions[..i] + serverTransactions[i + 1..];
    }
  }
}

module StateMachineApProperties {
  import opened Wrappers
  import opened Addresses
  import opened Ssm
  import opened StateMachineAp
  import Apdu

  /** `get_next_invoke_id`: an ID it hands out is below 256, used by no client transaction
    * to `addr`, and the counter moves just past it. */
  lemma NextIdUnused(s: SapFields, addr: Option<Address>)
    requires 0 <= s.nextInvokeID < 256
    ensures var (r, next) := SearchFrom(s.clients, addr, s.nextInvokeID, 0);
      r.Ok? ==> 0 <= r.value < 256 && Free(s.clients, r.value, addr) && next == (r.value + 1) % 256
  {
    SearchFound(s.clients, addr, s.nextInvokeID, 0);
  }

  /** `get_next_invoke_id` raises "no available invoke ID" exactly when the 255 IDs from
    * `nextInvokeID` on are all in use for `addr`. */
  lemma NoIdLeft(s: SapFields, addr: Option<Address>)
    requires 0 <= s.nextInvokeID < 256
    ensures SearchFrom(s.clients, addr, s.nextInvokeID, 0).0 == Err(RuntimeError) <==>
      forall j :: 0 <= j < 255 ==> InUse(s.clients, IdAt(s.nextInvokeID, j), addr)
  {
    SearchExhausted(s.clients, addr, s.nextInvokeID, 0);
  }

  /** An explicit invoke ID already used for the destination is a RuntimeError, and nothing
    * changes. */
  lemma InvokeIdInUse(s: SapFields, p: Pdu, remote: Option<Address>)
    requires 0 <= s.nextInvokeID < 256
    requires AdmittedOutbound(s.dcc, p) && IsType(p, Apdu.ConfirmedRequestType) && p.apci.apduInvokeID.Some?
    requires InUse(s.clients, p.apci.apduInvokeID.value, p.pduDestination)
    ensures OutboundStep(s, p, remote) == (Err(RuntimeError), p, s)
  {
  }

  /** The request keeps its invoke ID or gets one, which no client transaction to the
    * destination has; only the counter may change. */
  lemma AssignedIdUnused(s: SapFields, p: Pdu)
    requires 0 <= s.nextInvokeID < 256
    ensures var (r, p1, s1) := AssignInvokeId(s, p);
      s1.clients == s.clients && s1.servers == s.servers && s1.dcc == s.dcc &&
      (r.Ok? ==>
        p1.apci.apduInvokeID.Some? && Free(s.clients, p1.apci.apduInvokeID.value, p.pduDestination) &&
        (p.apci.apduInvokeID.Some? ==> p1 == p) &&
        p1 == p.(apci := p.apci.(apduInvokeID := p1.apci.apduInvokeID)))
  {
    if p.apci.apduInvokeID.None? {
      NextIdUnused(s, p.pduDestination);
      var (id, next) := SearchFrom(s.clients, p.pduDestination, s.nextInvokeID, 0);
      if id.Ok? {
        var p1 := p.(apci := p.apci.(apduInvokeID := Some(id.value)));
        assert AssignInvokeId(s, p) == (Ok(()), p1, s.(nextInvokeID := next));
        assert p1.apci.apduInvokeID.value == id.value;
        assert Free(s.clients, id.value, p.pduDestination);
      }
    } else {
      assert Some(p.apci.apduInvokeID.value) == p.apci.apduInvokeID;
      assert CheckInvokeId(s, p).Ok? ==> Lookup(s.clients, p.apci.apduInvokeID, p.pduDestination) == Ok(None);
    }
  }

  /** A new client transaction is appended last, with an invoke ID no client transaction
    * to the destination already has; it is the only change to the lists. */
  lemma NewClientTransaction(s: SapFields, p: Pdu, remote: Option<Address>)
    requires 0 <= s.nextInvokeID < 256
    ensures var (r, sent, s1) := OutboundStep(s, p, remote);
      s1.servers == s.servers && s1.dcc == s.dcc &&
      (r.Ok? && r.value.ClientIndication? ==>
        r.value.index == |s.clients| && sent.apci.apduInvokeID.Some? &&
        s1.clients == s.clients + [Tr(sent.apci.apduInvokeID, remote)] &&
        Free(s.clients, sent.apci.apduInvokeID.value, p.pduDestination) &&
        sent == p.(apci := p.apci.(apduInvokeID := sent.apci.apduInvokeID)))
  {
    AssignedIdUnused(s, p);
  }

  /** With the destination's device information keyed under its own address, no two client
    * transactions ever share an invoke ID and address. */
  lemma OutboundKeepsUnique(s: SapFields, p: Pdu)
    requires 0 <= s.nextInvokeID < 256 && Unique(s.clients)
    ensures Unique(OutboundStep(s, p, p.pduDestination).2.clients)
  {
    var (r, sent, s1) := OutboundStep(s, p, p.pduDestination);
    if s1.clients != s.clients {
      NewClientTransaction(s, p, p.pduDestination);
      var t := Tr(sent.apci.apduInvokeID, p.pduDestination);
      assert t.remote == sent.pduDestination;
      LookupSpec(s.clients, sent.apci.apduInvokeID, p.pduDestination);
      AppendFresh(s.clients, t);
    }
  }

  /** Appending a key no entry matches keeps the keys unique. */
  lemma AppendFresh(trs: seq<Tr>, t: Tr, order: Order := IdFirst)
    requires Unique(trs) && t.remote.Some?
    requires forall j :: 0 <= j < |trs| ==> Matches(trs[j], t.invokeID, t.remote, order) == Ok(false)
    ensures Unique(trs + [t])
  {
    forall i, j | 0 <= i < j < |trs + [t]| && (trs + [t])[i].remote.Some?
      ensures (trs + [t])[i] != (trs + [t])[j]
    {
      if j == |trs| {
        assert Matches(trs[i], t.invokeID, t.remote, order) == Ok(false);
      }
    }
  }

  /** A confirmed request the peer sends again goes to the server transaction that has it;
    * a new one opens a server transaction, appended last. */
  lemma RequestRouting(s: SapFields, p: Pdu, remote: Option<Address>)
    requires AdmittedInbound(s.dcc, p) && IsType(p, Apdu.ConfirmedRequestType)
    ensures var (r, s1) := InboundStep(s, p, remote);
      var found := Lookup(s.servers, p.apci.apduInvokeID, p.pduSource, AddressFirst);
      s1.clients == s.clients && s1.nextInvokeID == s.nextInvokeID &&
      (found.Ok? && found.value.Some? ==>
        r == Ok(ServerIndication(found.value.value)) && s1 == s && found.value.value < |s.servers| &&
        Matches(s.servers[found.value.value], p.apci.apduInvokeID, p.pduSource, AddressFirst) == Ok(true)) &&
      (found == Ok(None) ==>
        r == Ok(ServerIndication(|s.servers|)) && s1.servers == s.servers + [Tr(p.apci.apduInvokeID, remote)])
  {
    LookupSpec(s.servers, p.apci.apduInvokeID, p.pduSource, AddressFirst);
  }

  /** A server transaction without device information stops every later confirmed request:
    * the address-first search reads its address, so the request goes to a transaction before
    * it or raises, no transaction is opened, and as the first entry it makes every request
    * an AttributeError. */
  lemma DevicelessServerBlocks(s: SapFields, p: Pdu, remote: Option<Address>, i: nat)
    requires AdmittedInbound(s.dcc, p) && IsType(p, Apdu.ConfirmedRequestType)
    requires i < |s.servers| && s.servers[i].remote.None?
    ensures var (r, s1) := InboundStep(s, p, remote);
      s1 == s && (r.Ok? ==> r.value.ServerIndication? && r.value.index < i) &&
      (i == 0 ==> r == Err(AttributeError))
  {
    LookupSpec(s.servers, p.apci.apduInvokeID, p.pduSource, AddressFirst);
    var found := Lookup(s.servers, p.apci.apduInvokeID, p.pduSource, AddressFirst);
    assert Matches(s.servers[i], p.apci.apduInvokeID, p.pduSource, AddressFirst) == Err(AttributeError);
    if i == 0 {
      assert found == Err(AttributeError);
    }
  }

  /** With the peer's device information keyed under its own address, no two server
    * transactions ever share an invoke ID and address. */
  lemma InboundKeepsUnique(s: SapFields, p: Pdu)
    requires Unique(s.servers)
    ensures Unique(InboundStep(s, p, p.pduSource).1.servers)
  {
    var (r, s1) := InboundStep(s, p, p.pduSource);
    if s1.servers != s.servers {
      LookupSpec(s.servers, p.apci.apduInvokeID, p.pduSource, AddressFirst);
      if p.pduSource.Some? {
        AppendFresh(s.servers, Tr(p.apci.apduInvokeID, p.pduSource), AddressFirst);
      }
    }
  }

  /** An answer, or an abort or segment ack from a server, goes to the client transaction
    * with its invoke ID and source, and is dropped when there is none; an abort or segment
    * ack from a client goes to the server transaction in the same way. */
  lemma AckRouting(s: SapFields, p: Pdu, remote: Option<Address>)
    requires AdmittedInbound(s.dcc, p)
    requires IsAnswerType(p) || IsType(p, Apdu.AbortType) || IsType(p, Apdu.SegmentAckType)
    ensures var (r, s1) := InboundStep(s, p, remote);
      var toClient := IsAnswerType(p) || Flag(p.apci.apduSrv);
      var trs := if toClient then s.clients else s.servers;
      s1 == s &&
      (r == Ok(Dropped) <==> forall j :: 0 <= j < |trs| ==> Matches(trs[j], p.apci.apduInvokeID, p.pduSource) == Ok(false)) &&
      (r.Ok? && r != Ok(Dropped) ==>
        (if toClient then r.value.ClientConfirmation? else r.value.ServerIndication?) &&
        r.value.index < |trs| && Matches(trs[r.value.index], p.apci.apduInvokeID, p.pduSource) == Ok(true))
  {
    LookupSpec(s.clients, p.apci.apduInvokeID, p.pduSource);
    LookupSpec(s.servers, p.apci.apduInvokeID, p.pduSource);
  }

  /** With communication disabled, only DeviceCommunicationControl, ReinitializeDevice and
    * Who-Is come in, and nothing goes out; with initiation disabled only I-Am goes out. */
  lemma CommunicationControl(s: SapFields, p: Pdu, remote: Option<Address>)
    requires 0 <= s.nextInvokeID < 256
    ensures s.dcc == Disable && !(IsType(p, Apdu.ConfirmedRequestType) && p.apci.apduService in {Some(17), Some(20)}) &&
            !(IsType(p, Apdu.UnconfirmedRequestType) && p.apci.apduService == Some(8)) ==>
      InboundStep(s, p, remote) == (Ok(Dropped), s)
    ensures s.dcc == Disable ==> OutboundStep(s, p, remote) == (Ok(Dropped), p, s)
    ensures s.dcc == DisableInitiation ==>
      (OutboundStep(s, p, remote) == (Ok(Dropped), p, s) <==>
       !(IsType(p, Apdu.UnconfirmedRequestType) && p.apci.apduService == Some(0)))
  {
  }

  /** The application's answer goes to the server transaction with its invoke ID and
    * destination, or nowhere. */
  lemma AnswerRouting(s: SapFields, p: Pdu)
    ensures var r := AnswerStep(s, p);
      (!(IsAnswerType(p) || IsType(p, Apdu.AbortType)) ==> r == Err(RuntimeError)) &&
      ((IsAnswerType(p) || IsType(p, Apdu.AbortType)) ==>
        (r == Ok(Dropped) <==> forall j :: 0 <= j < |s.servers| ==> Matches(s.servers[j], p.apci.apduInvokeID, p.pduDestination) == Ok(false)) &&
        (r.Ok? && r.value.ServerConfirmation? ==>
          r.value.index < |s.servers| && Matches(s.servers[r.value.index], p.apci.apduInvokeID, p.pduDestination) == Ok(true)))
  {
    LookupSpec(s.servers, p.apci.apduInvokeID, p.pduDestination);
  }

  /** Removing a finished transaction keeps the keys unique. */
  lemma RemoveKeepsUnique(trs: seq<Tr>, i: nat)
    requires i < |trs| && Unique(trs)
    ensures Unique(Without(trs, i))
  {
    var w := Without(trs, i);
    forall a, b | 0 <= a < b < |w| && w[a].remote.Some?
      ensures w[a] != w[b]
    {
      var a' := if a < i then a else a + 1;
      var b' := if b < i then b else b + 1;
      assert w[a] == trs[a'] && w[b] == trs[b'];
    }
  }
}
