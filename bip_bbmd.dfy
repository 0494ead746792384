/** A BACnet/IP broadcast management device (`bacpypes/bvll/bip_bbmd.py`, ASHRAE 135
  * Annex J.4 and J.5): its broadcast distribution table (BDT) of peer BBMDs, its foreign
  * device table (FDT), and where each message it handles is sent. */
module Bbmd {
  import opened Wrappers
  import opened Bytes
  import opened Seqs
  import opened Addresses
  import opened Bvlpdu

  /** An address argument of the table operations: an `Address` (for a BDT peer, with its
    * broadcast mask), a string, or anything else. */
  datatype AddrArg<T> = Given(value: T) | Text(s: string) | Other

  /** `isinstance(addr, Address)` or `LocalStation(addr)`: a station made from a string is
    * refused by `LocalStation` itself, so only an address is accepted. */
  function Coerce<T>(arg: AddrArg<T>): (r: Result<T>)
    ensures r.Ok? <==> arg.Given?
    ensures r.Ok? ==> r.value == arg.value
    ensures r.Err? ==> r.error == TypeError
  {
    if arg.Given? then Ok(arg.value) else Err(TypeError)
  }

  /** The addresses of the FDT entries and of the BDT peers, in table order. */
  function FdAddrs(fdt: seq<FdtEntry>): (s: seq<Address>)
    ensures |s| == |fdt| && forall k :: 0 <= k < |fdt| ==> s[k] == fdt[k].fdAddress
  {
    seq(|fdt|, k requires 0 <= k < |fdt| => fdt[k].fdAddress)
  }

  function PeerAddrs(bdt: seq<BdtEntry>): (s: seq<Address>)
    ensures |s| == |bdt| && forall k :: 0 <= k < |bdt| ==> s[k] == bdt[k].bdtAddress
  {
    seq(|bdt|, k requires 0 <= k < |bdt| => bdt[k].bdtAddress)
  }

  /** `register_foreign_device` on an address: the first entry for it is renewed, or a new
    * one appended; the time left is the time-to-live plus 5 seconds of grace. */
  function Registered(fdt: seq<FdtEntry>, a: Address, ttl: int): seq<FdtEntry>
  {
    var i := IndexOf(FdAddrs(fdt), a);
    if i == -1 then fdt + [FdtEntry(a, ttl, ttl + 5)] else fdt[i := FdtEntry(a, ttl, ttl + 5)]
  }

  /** `delete_foreign_device_table_entry` on an address: the last entry for it is deleted
    * and the status is 0, or the status is 99 when there is none. */
  function Deleted(fdt: seq<FdtEntry>, a: Address): (int, seq<FdtEntry>)
  {
    var i := LastIndexOf(FdAddrs(fdt), a);
    if i == -1 then (99, fdt) else (0, RemoveAt(fdt, i))
  }

  /** One second of `process_task`: every entry loses a second and those left with none
    * are deleted. */
  function Expire(fdt: seq<FdtEntry>): seq<FdtEntry>
  {
    if |fdt| == 0 then []
    else
      var e := fdt[0].(fdRemain := fdt[0].fdRemain - 1);
      (if e.fdRemain <= 0 then [] else [e]) + Expire(fdt[1..])
  }

  /** One pass of the reverse loop of `process_task` extends the expired suffix by one. */
  lemma ExpireOne(fdt: seq<FdtEntry>, cur: seq<FdtEntry>, i: nat)
    requires i < |fdt| && cur == fdt[..i + 1] + Expire(fdt[i + 1..])
    ensures var e := cur[i].(fdRemain := cur[i].fdRemain - 1);
            (if e.fdRemain <= 0 then RemoveAt(cur, i) else cur[i := e]) == fdt[..i] + Expire(fdt[i..])
  {
    assert cur[i] == fdt[i];
    assert fdt[i..][1..] == fdt[i + 1..];
    var e := cur[i].(fdRemain := cur[i].fdRemain - 1);
    assert Expire(fdt[i..]) == (if e.fdRemain <= 0 then [] else [e]) + Expire(fdt[i + 1..]);
    if e.fdRemain <= 0 {
      assert RemoveAt(cur, i) == fdt[..i] + Expire(fdt[i + 1..]);
    } else {
      assert cur[i := e] == fdt[..i] + [e] + Expire(fdt[i + 1..]);
    }
  }

  /** `add_peer` on an address: this BBMD may only be the first entry; an address already
    * in the table is not added again. */
  function PeerAdded(bdt: seq<BdtEntry>, me: Address, e: BdtEntry): Result<seq<BdtEntry>>
  {
    if |bdt| > 0 && e.bdtAddress == me then Err(RuntimeError)
    else if e.bdtAddress in PeerAddrs(bdt) then Ok(bdt)
    else Ok(bdt + [e])
  }

  /** `delete_peer` on an address: the last entry for it is deleted, if there is one. */
  function PeerDeleted(bdt: seq<BdtEntry>, a: Address): seq<BdtEntry>
  {
    var i := LastIndexOf(PeerAddrs(bdt), a);
    if i == -1 then bdt else RemoveAt(bdt, i)
  }

  /** `Address(((bdte.addrIP | ~bdte.addrMask), bdte.addrPort))`: the directed broadcast
    * address of a peer's subnet, on the peer's port; only a B/IP address has `addrIP`. */
  function DirectedBroadcast(e: BdtEntry): Result<Address>
  {
    if !IpForm(e.bdtAddress) then Err(AttributeError)
    else
      var a := e.bdtAddress.addrAddr.value;
      Ok(Address(LocalStationAddr, None, Some(BroadcastOctets(a, e.addrMask))))
  }

  /** The six octets of the directed broadcast address of a B/IP address under a mask: the
    * four address octets with every host bit set, then the same two port octets. */
  function BroadcastOctets(a: seq<byte>, mask: int): (r: seq<byte>)
    requires |a| == 6
    ensures |r| == 6 && r[4..] == a[4..]
    ensures LongValue(r[..4]) == Unsigned(HostBitsSet(LongValue(a[..4]) as bv32, (mask % LongMask) as bv32))
  {
    var db := Unsigned(HostBitsSet(LongValue(a[..4]) as bv32, (mask % LongMask) as bv32));
    LongOfSmall(db);
    var r := Long(db) + a[4..6];
    assert r[..4] == Long(db);
    r
  }

  lemma LongOfSmall(v: int)
    requires 0 <= v < LongMask
    ensures LongValue(Long(v)) == v
  {
  }

  /** A 32-bit value as an unsigned integer. */
  function Unsigned(x: bv32): (v: int)
    ensures 0 <= v < LongMask
  {
    x as int
  }

  /** `ip | ~mask` on 32-bit values: the network bits of `ip` under the mask `m`, with every
    * host bit set. */
  function HostBitsSet(ip: bv32, m: bv32): (r: bv32)
    ensures r & m == ip & m
    ensures r | m == 0xFFFF_FFFF
  {
    ip | !m
  }

  /** What a BBMD sends: a BVLL message to a destination below, a PDU to the network layer
    * above, or a response handed to its service access point. */
  datatype Sent =
    | OriginalUnicastSent
    | OriginalBroadcastSent
    | ForwardedSent(origin: Address)
    | ResultSent(code: int)
    | ReadBdtAckSent(bdt: seq<BdtEntry>)
    | ReadFdtAckSent(fdt: seq<FdtEntry>)

  datatype Out =
    | Downstream(sent: Sent, destination: Address)
    | Upstream(source: Address, destination: Address)
    | ToSap

  /** The messages `confirmation` tells apart; `OtherMessage` is logged and dropped. */
  datatype Inbound =
    | ResultMessage
    | WriteBdtMessage
    | ReadBdtMessage
    | ReadBdtAckMessage
    | ForwardedMessage(bvlciAddress: Address)
    | RegisterMessage(bvlciTimeToLive: int)
    | ReadFdtMessage
    | ReadFdtAckMessage
    | DeleteFdtEntryMessage(entryAddress: Address)
    | DistributeBroadcastMessage
    | OriginalUnicastMessage(pduDestination: Address)
    | OriginalBroadcastMessage
    | OtherMessage

  /** The copy a BDT loop sends to one peer: this BBMD itself gets a local broadcast when
    * `selfLocal`, and nothing otherwise; any other peer its directed broadcast. */
  function PeerOut(e: BdtEntry, me: Address, origin: Address, selfLocal: bool): Result<seq<Out>>
  {
    if e.bdtAddress == me then Ok(if selfLocal then [Downstream(ForwardedSent(origin), LocalBroadcast)] else [])
    else
      var d :- DirectedBroadcast(e);
      Ok([Downstream(ForwardedSent(origin), d)])
  }

  /** The BDT loop: the copies to the peers in table order, up to the first peer that has no
    * directed broadcast address. */
  function PeerSends(bdt: seq<BdtEntry>, me: Address, origin: Address, selfLocal: bool): (Result<()>, seq<Out>)
  {
    if |bdt| == 0 then (Ok(()), [])
    else
      var (r, out) := PeerSends(bdt[..|bdt| - 1], me, origin, selfLocal);
      if r.Err? then (r, out)
      else match PeerOut(bdt[|bdt| - 1], me, origin, selfLocal)
        case Err(e) => (Err(e), out)
        case Ok(o) => (Ok(()), out + o)
  }

  /** The FDT loop: a copy to every registered foreign device except `except`. */
  function ForeignSends(fdt: seq<FdtEntry>, origin: Address, except: Option<Address>): seq<Out>
  {
    if |fdt| == 0 then []
    else
      var e := fdt[|fdt| - 1];
      ForeignSends(fdt[..|fdt| - 1], origin, except) +
        (if Some(e.fdAddress) == except then [] else [Downstream(ForwardedSent(origin), e.fdAddress)])
  }

  /** The loop over the BDT. */
  method SendToPeers(bdt: seq<BdtEntry>, me: Address, origin: Address, selfLocal: bool)
    returns (r: Result<()>, out: seq<Out>)
    ensures (r, out) == PeerSends(bdt, me, origin, selfLocal)
  {
    out := [];
    var i := 0;
    while i < |bdt|
      invariant 0 <= i <= |bdt|
      invariant PeerSends(bdt[..i], me, origin, selfLocal) == (Ok(()), out)
    {
      assert bdt[..i + 1][..i] == bdt[..i];
      var o := PeerOut(bdt[i], me, origin, selfLocal);
      if o.Err? {
        r := Err(o.error);
        assert PeerSends(bdt[..i + 1], me, origin, selfLocal) == (r, out);
        PeerSendsStops(bdt, me, origin, selfLocal, i + 1);
        return;
      }
      out := out + o.value;
      i := i + 1;
    }
    assert bdt[..i] == bdt;
    r := Ok(());
  }

  /** Once the BDT loop has failed, the later peers change nothing. */
  lemma {:induction false} PeerSendsStops(bdt: seq<BdtEntry>, me: Address, origin: Address, selfLocal: bool, i: nat)
    requires i <= |bdt| && PeerSends(bdt[..i], me, origin, selfLocal).0.Err?
    ensures PeerSends(bdt, me, origin, selfLocal) == PeerSends(bdt[..i], me, origin, selfLocal)
    decreases |bdt| - i
  {
    if i < |bdt| {
      assert bdt[..i + 1][..i] == bdt[..i];
      PeerSendsStops(bdt, me, origin, selfLocal, i + 1);
    } else {
      assert bdt[..i] == bdt;
    }
  }

  /** The loop over the FDT. */
  method SendToForeign(fdt: seq<FdtEntry>, origin: Address, except: Option<Address>) returns (out: seq<Out>)
    ensures out == ForeignSends(fdt, origin, except)
  {
    out := [];
    var i := 0;
    while i < |fdt|
      invariant 0 <= i <= |fdt|
      invariant out == ForeignSends(fdt[..i], origin, except)
    {
      assert fdt[..i + 1][..i] == fdt[..i];
      if Some(fdt[i].fdAddress) != except {
        out := out + [Downstream(ForwardedSent(origin), fdt[i].fdAddress)];
      }
      i := i + 1;
    }
    assert fdt[..i] == fdt;
  }

  /** The tables of a BBMD. */
  datatype BbmdFields = BbmdFields(bdt: seq<BdtEntry>, fdt: seq<FdtEntry>)

  /** `indication`: a PDU from the network layer goes out as an original unicast to a
    * local station; a local broadcast goes out as an original broadcast and is forwarded
    * to the other peers and to every foreign device; anything else is dropped. */
  function IndicationOut(f: BbmdFields, me: Address, dest: Address): (Result<()>, seq<Out>)
  {
    if dest.addrType == LocalStationAddr then (Ok(()), [Downstream(OriginalUnicastSent, dest)])
    else if dest.addrType == LocalBroadcastAddr then
      var (r, peers) := PeerSends(f.bdt, me, me, false);
      var first := [Downstream(OriginalBroadcastSent, dest)] + peers;
      if r.Err? then (r, first) else (Ok(()), first + ForeignSends(f.fdt, me, None))
    else (Ok(()), [])
  }

  /** `confirmation`: the outputs for a message from `source`, and the tables after it. */
  function ConfirmationStep(f: BbmdFields, me: Address, msg: Inbound, source: Address)
    : (Result<()>, seq<Out>, BbmdFields)
  {
    match msg
    case ResultMessage => (Ok(()), [ToSap], f)
    case WriteBdtMessage => (Ok(()), [Downstream(ResultSent(99), source)], f)
    case ReadBdtMessage => (Ok(()), [Downstream(ReadBdtAckSent(f.bdt), source)], f)
    case ReadBdtAckMessage => (Ok(()), [ToSap], f)
    case ForwardedMessage(origin) =>
      var up := [Upstream(origin, LocalBroadcast)];
      var local := if |f.bdt| > 0 && f.bdt[0].bdtAddress == me then [Downstream(ForwardedSent(origin), LocalBroadcast)] else [];
      (Ok(()), up + local + ForeignSends(f.fdt, origin, None), f)
    case RegisterMessage(ttl) =>
      (Ok(()), [Downstream(ResultSent(0), source)], f.(fdt := Registered(f.fdt, source, ttl)))
    case ReadFdtMessage => (Ok(()), [Downstream(ReadFdtAckSent(f.fdt), source)], f)
    case ReadFdtAckMessage => (Ok(()), [ToSap], f)
    case DeleteFdtEntryMessage(a) =>
      var (stat, fdt) := Deleted(f.fdt, a);
      (Ok(()), [Downstream(ResultSent(stat), source)], f.(fdt := fdt))
    case DistributeBroadcastMessage =>
      var (r, peers) := PeerSends(f.bdt, me, source, true);
      var first := [Upstream(source, LocalBroadcast)] + peers;
      if r.Err? then (r, first, f) else (Ok(()), first + ForeignSends(f.fdt, source, Some(source)), f)
    case OriginalUnicastMessage(dest) => (Ok(()), [Upstream(source, dest)], f)
    case OriginalBroadcastMessage =>
      var (r, peers) := PeerSends(f.bdt, me, source, false);
      var first := [Upstream(source, LocalBroadcast)] + peers;
      if r.Err? then (r, first, f) else (Ok(()), first + ForeignSends(f.fdt, source, None), f)
    case OtherMessage => (Ok(()), [], f)
  }

  class BipBbmd {
    const bbmdAddress: Address
    var bbmdBDT: seq<BdtEntry>
    var bbmdFDT: seq<FdtEntry>

    function Fields(): BbmdFields
      reads this
    {
      BbmdFields(bbmdBDT, bbmdFDT)
    }

    /** A BBMD starts with empty tables. */
    constructor(addr: Address)
      ensures bbmdAddress == addr && bbmdBDT == [] && bbmdFDT == []
    {
      bbmdAddress := addr;
      bbmdBDT := [];
      bbmdFDT := [];
    }

    method RegisterForeignDevice(addr: AddrArg<Address>, ttl: int) returns (r: Result<int>)
      modifies this
      ensures bbmdBDT == old(bbmdBDT)
      ensures r == if addr.Given? then Ok(0) else Err(TypeError)
      ensures bbmdFDT == if addr.Given? then Registered(old(bbmdFDT), addr.value, ttl) else old(bbmdFDT)
    {
      var a :- Coerce(addr);
      var i := 0;
      while i < |bbmdFDT| && bbmdFDT[i].fdAddress != a
        invariant 0 <= i <= |bbmdFDT|
        invariant forall k :: 0 <= k < i ==> bbmdFDT[k].fdAddress != a
      {
        i := i + 1;
      }
      assert a !in FdAddrs(bbmdFDT)[..i];
      IndexOfIs(FdAddrs(bbmdFDT), a, i);
      if i == |bbmdFDT| {
        bbmdFDT := bbmdFDT + [FdtEntry(a, ttl, ttl + 5)];
      } else {
        bbmdFDT := bbmdFDT[i := FdtEntry(a, ttl, ttl + 5)];
      }
      r := Ok(0);
    }

    method DeleteForeignDeviceTableEntry(addr: AddrArg<Address>) returns (r: Result<int>)
      modifies this
      ensures bbmdBDT == old(bbmdBDT)
      ensures addr.Given? ==> r == Ok(Deleted(old(bbmdFDT), addr.value).0) && bbmdFDT == Deleted(old(bbmdFDT), addr.value).1
      ensures !addr.Given? ==> r == Err(TypeError) && bbmdFDT == old(bbmdFDT)
    {
      var a :- Coerce(addr);
      var i := |bbmdFDT| - 1;
      while i >= 0 && bbmdFDT[i].fdAddress != a
        invariant -1 <= i < |bbmdFDT|
        invariant forall k :: i < k < |bbmdFDT| ==> bbmdFDT[k].fdAddress != a
      {
        i := i - 1;
      }
      assert a !in FdAddrs(bbmdFDT)[i + 1..];
      LastIndexOfIs(FdAddrs(bbmdFDT), a, i);
      if i >= 0 {
        bbmdFDT := RemoveAt(bbmdFDT, i);
        r := Ok(0);
      } else {
        r := Ok(99);
      }
    }

    /** `process_task`, run once a second by the recurring task. */
    method ProcessTask()
      modifies this
      ensures bbmdBDT == old(bbmdBDT)
      ensures bbmdFDT == Expire(old(bbmdFDT))
    {
      ghost var fdt := bbmdFDT;
      var i := |bbmdFDT| - 1;
      while i >= 0
        invariant -1 <= i < |fdt|
        invariant bbmdBDT == old(bbmdBDT)
        invariant bbmdFDT == fdt[..i + 1] + Expire(fdt[i + 1..])
      {
        ExpireOne(fdt, bbmdFDT, i);
        var e := bbmdFDT[i].(fdRemain := bbmdFDT[i].fdRemain - 1);
        if e.fdRemain <= 0 {
          bbmdFDT := RemoveAt(bbmdFDT, i);
        } else {
          bbmdFDT := bbmdFDT[i := e];
        }
        i := i - 1;
      }
    }

    method AddPeer(addr: AddrArg<BdtEntry>) returns (r: Result<()>)
      modifies this
      ensures bbmdFDT == old(bbmdFDT)
      ensures addr.Given? ==> (var p := PeerAdded(old(bbmdBDT), bbmdAddress, addr.value);
                               if p.Ok? then r == Ok(()) && bbmdBDT == p.value
                               else r == Err(p.error) && bbmdBDT == old(bbmdBDT))
      ensures !addr.Given? ==> r == Err(TypeError) && bbmdBDT == old(bbmdBDT)
    {
      var e :- Coerce(addr);
      if |bbmdBDT| > 0 && e.bdtAddress == bbmdAddress {
        return Err(RuntimeError);
      }
      var i := 0;
      while i < |bbmdBDT| && e.bdtAddress != bbmdBDT[i].bdtAddress
        invariant 0 <= i <= |bbmdBDT|
        invariant forall k :: 0 <= k < i ==> bbmdBDT[k].bdtAddress != e.bdtAddress
      {
        i := i + 1;
      }
      if i == |bbmdBDT| {
        assert PeerAddrs(bbmdBDT)[..i] == PeerAddrs(bbmdBDT);
        bbmdBDT := bbmdBDT + [e];
      } else {
        assert PeerAddrs(bbmdBDT)[i] == e.bdtAddress;
      }
      r := Ok(());
    }

    method DeletePeer(addr: AddrArg<Address>) returns (r: Result<()>)
      modifies this
      ensures bbmdFDT == old(bbmdFDT)
      ensures r == if addr.Given? then Ok(()) else Err(TypeError)
      ensures bbmdBDT == if addr.Given? then PeerDeleted(old(bbmdBDT), addr.value) else old(bbmdBDT)
    {
      var a :- Coerce(addr);
      var i := |bbmdBDT| - 1;
      while i >= 0 && a != bbmdBDT[i].bdtAddress
        invariant -1 <= i < |bbmdBDT|
        invariant forall k :: i < k < |bbmdBDT| ==> bbmdBDT[k].bdtAddress != a
      {
        i := i - 1;
      }
      assert a !in PeerAddrs(bbmdBDT)[i + 1..];
      LastIndexOfIs(PeerAddrs(bbmdBDT), a, i);
      if i >= 0 {
        bbmdBDT := RemoveAt(bbmdBDT, i);
      }
      r := Ok(());
    }

    method Indication(dest: Address) returns (r: Result<()>, out: seq<Out>)
      ensures (r, out) == IndicationOut(Fields(), bbmdAddress, dest)
    {
      if dest.addrType == LocalStationAddr {
        return Ok(()), [Downstream(OriginalUnicastSent, dest)];
      } else if dest.addrType == LocalBroadcastAddr {
        var peers;
        r, peers := SendToPeers(bbmdBDT, bbmdAddress, bbmdAddress, false);
        out := [Downstream(OriginalBroadcastSent, dest)] + peers;
        if r.Ok? {
          var foreign := SendToForeign(bbmdFDT, bbmdAddress, None);
          out := out + foreign;
        }
      } else {
        return Ok(()), [];
      }
    }

    method Confirmation(msg: Inbound, source: Address) returns (r: Result<()>, out: seq<Out>)
      modifies this
      ensures (r, out, Fields()) == ConfirmationStep(old(Fields()), bbmdAddress, msg, source)
    {
      match msg {
        case ResultMessage => r, out := Ok(()), [ToSap];
        case WriteBdtMessage => r, out := Ok(()), [Downstream(ResultSent(99), source)];
        case ReadBdtMessage => r, out := Ok(()), [Downstream(ReadBdtAckSent(bbmdBDT), source)];
        case ReadBdtAckMessage => r, out := Ok(()), [ToSap];
        case ForwardedMessage(origin) =>
          var local := [];
          if |bbmdBDT| > 0 && bbmdBDT[0].bdtAddress == bbmdAddress {
            local := [Downstream(ForwardedSent(origin), LocalBroadcast)];
          }
          var foreign := SendToForeign(bbmdFDT, origin, None);
          r, out := Ok(()), [Upstream(origin, LocalBroadcast)] + local + foreign;
        case RegisterMessage(ttl) =>
          var stat := RegisterForeignDevice(Given(source), ttl);
          r, out := Ok(()), [Downstream(ResultSent(stat.value), source)];
        case ReadFdtMessage => r, out := Ok(()), [Downstream(ReadFdtAckSent(bbmdFDT), source)];
        case ReadFdtAckMessage => r, out := Ok(()), [ToSap];
        case DeleteFdtEntryMessage(a) =>
          var stat := DeleteForeignDeviceTableEntry(Given(a));
          r, out := Ok(()), [Downstream(ResultSent(stat.value), source)];
        case DistributeBroadcastMessage =>
          var peers;
          r, peers := SendToPeers(bbmdBDT, bbmdAddress, source, true);
          out := [Upstream(source, LocalBroadcast)] + peers;
          if r.Ok? {
            var foreign := SendToForeign(bbmdFDT, source, Some(source));
            out := out + foreign;
          }
        case OriginalUnicastMessage(dest) => r, out := Ok(()), [Upstream(source, dest)];
        case OriginalBroadcastMessage =>
          var peers;
          r, peers := SendToPeers(bbmdBDT, bbmdAddress, source, false);
          out := [Upstream(source, LocalBroadcast)] + peers;
          if r.Ok? {
            var foreign := SendToForeign(bbmdFDT, source, None);
            out := out + foreign;
          }
        case OtherMessage => r, out := Ok(()), [];
      }
    }
  }
}

/** What the table operations of a BBMD keep and promise. */
module BbmdProperties {
  import opened Wrappers
  import opened Bytes
  import opened Seqs
  import opened Addresses
  import opened Bvlpdu
  import opened Bbmd

  /** This BBMD is, if anywhere, the first entry of its BDT. */
  predicate SelfFirst(bdt: seq<BdtEntry>, me: Address)
  {
    forall k :: 0 < k < |bdt| ==> bdt[k].bdtAddress != me
  }

  /** No address is in either table twice, and this BBMD heads the BDT if it is in it. */
  predicate Valid(f: BbmdFields, me: Address)
  {
    Distinct(FdAddrs(f.fdt)) && Distinct(PeerAddrs(f.bdt)) && SelfFirst(f.bdt, me)
  }

  lemma FdAddrsAppend(fdt: seq<FdtEntry>, e: FdtEntry)
    ensures FdAddrs(fdt + [e]) == FdAddrs(fdt) + [e.fdAddress]
  {
    assert FdAddrs(fdt + [e])[..|fdt|] == FdAddrs(fdt);
  }

  lemma FdAddrsRemove(fdt: seq<FdtEntry>, i: nat)
    requires i < |fdt|
    ensures FdAddrs(RemoveAt(fdt, i)) == RemoveAt(FdAddrs(fdt), i)
  {
  }

  lemma PeerAddrsRemove(bdt: seq<BdtEntry>, i: nat)
    requires i < |bdt|
    ensures PeerAddrs(RemoveAt(bdt, i)) == RemoveAt(PeerAddrs(bdt), i)
  {
  }

  /** After a registration there is an entry for the device with the new time-to-live and
    * 5 seconds of grace; it was renewed in place or appended, and no entry for another
    * address changed. */
  lemma RegisterSpec(fdt: seq<FdtEntry>, a: Address, ttl: int)
    ensures var r := Registered(fdt, a, ttl);
            && a in FdAddrs(r)
            && r[IndexOf(FdAddrs(r), a)] == FdtEntry(a, ttl, ttl + 5)
            && |r| == (if a in FdAddrs(fdt) then |fdt| else |fdt| + 1)
            && (forall k :: 0 <= k < |fdt| && fdt[k].fdAddress != a ==> r[k] == fdt[k])
  {
    var r := Registered(fdt, a, ttl);
    var i := IndexOf(FdAddrs(fdt), a);
    if i == -1 {
      FdAddrsAppend(fdt, FdtEntry(a, ttl, ttl + 5));
      assert FdAddrs(r)[..|fdt|] == FdAddrs(fdt);
      IndexOfIs(FdAddrs(r), a, |fdt|);
    } else {
      assert FdAddrs(r) == FdAddrs(fdt);
    }
  }

  /** A registration adds no second entry for an address. */
  lemma RegisterKeepsUnique(fdt: seq<FdtEntry>, a: Address, ttl: int)
    requires Distinct(FdAddrs(fdt))
    ensures Distinct(FdAddrs(Registered(fdt, a, ttl)))
  {
    var i := IndexOf(FdAddrs(fdt), a);
    if i == -1 {
      FdAddrsAppend(fdt, FdtEntry(a, ttl, ttl + 5));
    } else {
      assert FdAddrs(Registered(fdt, a, ttl)) == FdAddrs(fdt);
    }
  }

  /** A deletion answers 0 exactly when the address was registered, and 99 otherwise. */
  lemma DeleteStatus(fdt: seq<FdtEntry>, a: Address)
    ensures var (stat, r) := Deleted(fdt, a);
            && (stat == 0 <==> a in FdAddrs(fdt))
            && (stat == 99 <==> a !in FdAddrs(fdt))
            && (stat == 99 ==> r == fdt)
            && |r| == (if stat == 0 then |fdt| - 1 else |fdt|)
  {
  }

  /** An entry's address is among the table's addresses. */
  lemma FdAddrsHas(fdt: seq<FdtEntry>)
    ensures forall e :: e in fdt ==> e.fdAddress in FdAddrs(fdt)
  {
    forall e | e in fdt
      ensures e.fdAddress in FdAddrs(fdt)
    {
      var k :| 0 <= k < |fdt| && fdt[k] == e;
      assert FdAddrs(fdt)[k] == e.fdAddress;
    }
  }

  lemma PeerAddrsHas(bdt: seq<BdtEntry>)
    ensures forall e :: e in bdt ==> e.bdtAddress in PeerAddrs(bdt)
  {
    forall e | e in bdt
      ensures e.bdtAddress in PeerAddrs(bdt)
    {
      var k :| 0 <= k < |bdt| && bdt[k] == e;
      assert PeerAddrs(bdt)[k] == e.bdtAddress;
    }
  }

  /** In a table without repeated addresses, a deletion removes the device's entry and
    * keeps every other entry. */
  lemma DeleteSpec(fdt: seq<FdtEntry>, a: Address)
    requires Distinct(FdAddrs(fdt))
    ensures var r := Deleted(fdt, a).1;
            && a !in FdAddrs(r)
            && Distinct(FdAddrs(r))
            && (forall e :: e in r <==> e in fdt && e.fdAddress != a)
  {
    var i := LastIndexOf(FdAddrs(fdt), a);
    var r := Deleted(fdt, a).1;
    if i >= 0 {
      FdAddrsRemove(fdt, i);
      RemoveDistinct(FdAddrs(fdt), i);
      RemoveAtMembers(fdt, i);
    }
    FdAddrsHas(r);
  }

  /** Registering a new device and then deleting its entry gives the table back. */
  lemma RegisterThenDelete(fdt: seq<FdtEntry>, a: Address, ttl: int)
    requires a !in FdAddrs(fdt)
    ensures Deleted(Registered(fdt, a, ttl), a) == (0, fdt)
  {
    var e := FdtEntry(a, ttl, ttl + 5);
    FdAddrsAppend(fdt, e);
    LastIndexOfIs(FdAddrs(fdt + [e]), a, |fdt|);
    assert RemoveAt(fdt + [e], |fdt|) == fdt;
  }

  /** After one second of expiry every entry still in the table has a second or more left
    * and is an entry of the old table with one second less. */
  lemma {:induction false} ExpireShrinks(fdt: seq<FdtEntry>)
    ensures |Expire(fdt)| <= |fdt|
    ensures forall e :: e in Expire(fdt) ==> e.fdRemain >= 1 && e.(fdRemain := e.fdRemain + 1) in fdt
  {
    if |fdt| > 0 {
      ExpireShrinks(fdt[1..]);
      var e := fdt[0].(fdRemain := fdt[0].fdRemain - 1);
      assert e.(fdRemain := e.fdRemain + 1) == fdt[0];
      forall x | x in Expire(fdt)
        ensures x.fdRemain >= 1 && x.(fdRemain := x.fdRemain + 1) in fdt
      {
        if x in Expire(fdt[1..]) {
          assert x.(fdRemain := x.fdRemain + 1) in fdt[1..];
        }
      }
    }
  }

  /** Every entry that had more than one second left is still in the table, with one
    * second less. */
  lemma {:induction false} ExpireKeeps(fdt: seq<FdtEntry>)
    ensures forall k :: 0 <= k < |fdt| && fdt[k].fdRemain > 1 ==> fdt[k].(fdRemain := fdt[k].fdRemain - 1) in Expire(fdt)
  {
    if |fdt| > 0 {
      ExpireKeeps(fdt[1..]);
      forall k | 0 <= k < |fdt| && fdt[k].fdRemain > 1
        ensures fdt[k].(fdRemain := fdt[k].fdRemain - 1) in Expire(fdt)
      {
        if k > 0 {
          assert fdt[k] == fdt[1..][k - 1];
        }
      }
    }
  }

  /** Expiry adds no address and so keeps the FDT free of repeated addresses. */
  lemma {:induction false} ExpireKeepsUnique(fdt: seq<FdtEntry>)
    requires Distinct(FdAddrs(fdt))
    ensures Distinct(FdAddrs(Expire(fdt)))
    ensures forall a :: a in FdAddrs(Expire(fdt)) ==> a in FdAddrs(fdt)
  {
    if |fdt| > 0 {
      assert FdAddrs(fdt[1..]) == FdAddrs(fdt)[1..];
      ExpireKeepsUnique(fdt[1..]);
      var e := fdt[0].(fdRemain := fdt[0].fdRemain - 1);
      var rest := Expire(fdt[1..]);
      assert fdt[0].fdAddress !in FdAddrs(fdt[1..]);
      assert fdt[0].fdAddress !in FdAddrs(rest);
      if e.fdRemain > 0 {
        assert FdAddrs(Expire(fdt)) == [e.fdAddress] + FdAddrs(rest);
      } else {
        assert Expire(fdt) == rest;
      }
    }
  }

  /** Adding a peer fails exactly when it is this BBMD and the table is not empty; an
    * added peer is in the table and was appended only when it was new. */
  lemma PeerAddedSpec(bdt: seq<BdtEntry>, me: Address, e: BdtEntry)
    ensures var r := PeerAdded(bdt, me, e);
            && (r.Err? <==> |bdt| > 0 && e.bdtAddress == me)
            && (r.Err? ==> r.error == RuntimeError)
            && (r.Ok? ==> e.bdtAddress in PeerAddrs(r.value))
            && (r.Ok? ==> r.value == if e.bdtAddress in PeerAddrs(bdt) then bdt else bdt + [e])
  {
    if e.bdtAddress !in PeerAddrs(bdt) && !(|bdt| > 0 && e.bdtAddress == me) {
      assert PeerAddrs(bdt + [e])[|bdt|] == e.bdtAddress;
    }
  }

  /** Adding a peer keeps the BDT free of repeated addresses and this BBMD at its head. */
  lemma PeerAddedKeepsValid(f: BbmdFields, me: Address, e: BdtEntry)
    requires Valid(f, me) && PeerAdded(f.bdt, me, e).Ok?
    ensures Valid(f.(bdt := PeerAdded(f.bdt, me, e).value), me)
  {
    if e.bdtAddress !in PeerAddrs(f.bdt) {
      assert PeerAddrs(f.bdt + [e]) == PeerAddrs(f.bdt) + [e.bdtAddress];
    }
  }

  /** In a table without repeated addresses, deleting a peer removes it and keeps every
    * other peer. */
  lemma PeerDeletedSpec(bdt: seq<BdtEntry>, a: Address)
    requires Distinct(PeerAddrs(bdt))
    ensures var r := PeerDeleted(bdt, a);
            && a !in PeerAddrs(r)
            && Distinct(PeerAddrs(r))
            && (forall e :: e in r <==> e in bdt && e.bdtAddress != a)
  {
    var i := LastIndexOf(PeerAddrs(bdt), a);
    var r := PeerDeleted(bdt, a);
    if i >= 0 {
      PeerAddrsRemove(bdt, i);
      RemoveDistinct(PeerAddrs(bdt), i);
      RemoveAtMembers(bdt, i);
    }
    PeerAddrsHas(r);
  }

  /** Deleting a peer keeps the tables valid: no repeated address, this BBMD at the head. */
  lemma PeerDeletedKeepsValid(f: BbmdFields, me: Address, a: Address)
    requires Valid(f, me)
    ensures Valid(f.(bdt := PeerDeleted(f.bdt, a)), me)
  {
    PeerDeletedSpec(f.bdt, a);
    var i := LastIndexOf(PeerAddrs(f.bdt), a);
    if i >= 0 {
      var r := RemoveAt(f.bdt, i);
      forall k | 0 < k < |r|
        ensures r[k].bdtAddress != me
      {
        if k >= i { assert r[k] == f.bdt[k + 1]; }
      }
    }
  }

  /** Adding a new peer and then deleting it gives the table back. */
  lemma AddThenDeletePeer(bdt: seq<BdtEntry>, me: Address, e: BdtEntry)
    requires e.bdtAddress !in PeerAddrs(bdt) && (|bdt| > 0 ==> e.bdtAddress != me)
    ensures PeerAdded(bdt, me, e).Ok? && PeerDeleted(PeerAdded(bdt, me, e).value, e.bdtAddress) == bdt
  {
    assert PeerAddrs(bdt + [e]) == PeerAddrs(bdt) + [e.bdtAddress];
    LastIndexOfIs(PeerAddrs(bdt + [e]), e.bdtAddress, |bdt|);
    assert RemoveAt(bdt + [e], |bdt|) == bdt;
  }

  /** Only a B/IP peer has a directed broadcast address; any other lacks `addrIP`. */
  lemma DirectedBroadcastDefined(e: BdtEntry)
    ensures DirectedBroadcast(e).Ok? <==> IpForm(e.bdtAddress)
    ensures DirectedBroadcast(e).Err? ==> DirectedBroadcast(e).error == AttributeError
  {
  }

  /** The FDT loop sends one copy to every foreign device but `except`, and nothing else. */
  lemma {:induction false} ForeignSendsSpec(fdt: seq<FdtEntry>, origin: Address, except: Option<Address>)
    ensures |ForeignSends(fdt, origin, except)| <= |fdt|
    ensures forall k :: 0 <= k < |fdt| && Some(fdt[k].fdAddress) != except ==>
              Downstream(ForwardedSent(origin), fdt[k].fdAddress) in ForeignSends(fdt, origin, except)
    ensures forall m :: m in ForeignSends(fdt, origin, except) ==>
              && m.Downstream? && m.sent == ForwardedSent(origin)
              && m.destination in FdAddrs(fdt) && Some(m.destination) != except
  {
    if |fdt| > 0 {
      var init := fdt[..|fdt| - 1];
      ForeignSendsSpec(init, origin, except);
      forall k | 0 <= k < |fdt| && Some(fdt[k].fdAddress) != except
        ensures Downstream(ForwardedSent(origin), fdt[k].fdAddress) in ForeignSends(fdt, origin, except)
      {
        if k < |fdt| - 1 {
          assert fdt[k] == init[k];
        }
      }
      forall m | m in ForeignSends(fdt, origin, except)
        ensures m.destination in FdAddrs(fdt)
      {
        if m in ForeignSends(init, origin, except) {
          var k :| 0 <= k < |init| && FdAddrs(init)[k] == m.destination;
          assert FdAddrs(fdt)[k] == m.destination;
        } else {
          assert FdAddrs(fdt)[|fdt| - 1] == m.destination;
        }
      }
    }
  }

  /** Every peer but this BBMD has a directed broadcast address. */
  predicate Reachable(bdt: seq<BdtEntry>, me: Address)
  {
    forall k :: 0 <= k < |bdt| && bdt[k].bdtAddress != me ==> IpForm(bdt[k].bdtAddress)
  }

  lemma ReachableLast(bdt: seq<BdtEntry>, me: Address)
    requires |bdt| > 0
    ensures Reachable(bdt, me) <==>
              Reachable(bdt[..|bdt| - 1], me) && (bdt[|bdt| - 1].bdtAddress != me ==> IpForm(bdt[|bdt| - 1].bdtAddress))
  {
    var init := bdt[..|bdt| - 1];
    assert forall k :: 0 <= k < |init| ==> init[k] == bdt[k];
  }

  /** The BDT loop completes exactly when every other peer is reachable, and otherwise
    * fails as the missing `addrIP` attribute does. */
  lemma {:induction false} PeerSendsCompletes(bdt: seq<BdtEntry>, me: Address, origin: Address, selfLocal: bool)
    ensures PeerSends(bdt, me, origin, selfLocal).0.Ok? <==> Reachable(bdt, me)
    ensures PeerSends(bdt, me, origin, selfLocal).0.Err? ==> PeerSends(bdt, me, origin, selfLocal).0.error == AttributeError
    ensures |PeerSends(bdt, me, origin, selfLocal).1| <= |bdt|
  {
    if |bdt| > 0 {
      PeerSendsCompletes(bdt[..|bdt| - 1], me, origin, selfLocal);
      ReachableLast(bdt, me);
    }
  }

  /** When it completes, the BDT loop sends a copy to the directed broadcast address of
    * every peer but this BBMD. */
  lemma {:induction false} PeerSendsCovers(bdt: seq<BdtEntry>, me: Address, origin: Address, selfLocal: bool)
    requires Reachable(bdt, me)
    ensures forall k :: 0 <= k < |bdt| && bdt[k].bdtAddress != me ==>
              Downstream(ForwardedSent(origin), DirectedBroadcast(bdt[k]).value) in PeerSends(bdt, me, origin, selfLocal).1
  {
    if |bdt| > 0 {
      var init := bdt[..|bdt| - 1];
      ReachableLast(bdt, me);
      PeerSendsCovers(init, me, origin, selfLocal);
      PeerSendsCompletes(init, me, origin, selfLocal);
      var out := PeerSends(init, me, origin, selfLocal).1;
      var all := PeerSends(bdt, me, origin, selfLocal).1;
      assert all == out + PeerOut(bdt[|bdt| - 1], me, origin, selfLocal).value;
      forall k | 0 <= k < |bdt| - 1 && bdt[k].bdtAddress != me
        ensures Downstream(ForwardedSent(origin), DirectedBroadcast(bdt[k]).value) in all
      {
        assert bdt[k] == init[k];
      }
    }
  }

  /** When it completes with `selfLocal`, the BDT loop sends a local broadcast for this
    * BBMD's own entry. */
  lemma {:induction false} PeerSendsSelf(bdt: seq<BdtEntry>, me: Address, origin: Address)
    requires Reachable(bdt, me) && me in PeerAddrs(bdt)
    ensures Downstream(ForwardedSent(origin), LocalBroadcast) in PeerSends(bdt, me, origin, true).1
  {
    var init := bdt[..|bdt| - 1];
    var last := bdt[|bdt| - 1];
    ReachableLast(bdt, me);
    PeerSendsCompletes(init, me, origin, true);
    var out := PeerSends(init, me, origin, true).1;
    var all := PeerSends(bdt, me, origin, true).1;
    assert all == out + PeerOut(last, me, origin, true).value;
    if last.bdtAddress == me {
      assert all[|all| - 1] == Downstream(ForwardedSent(origin), LocalBroadcast);
    } else {
      var k :| 0 <= k < |bdt| && PeerAddrs(bdt)[k] == me;
      assert PeerAddrs(init)[k] == me;
      PeerSendsSelf(init, me, origin);
    }
  }

  /** The BDT loop sends only forwarded copies, to stations or, for this BBMD's own entry
    * when `selfLocal`, as a local broadcast. */
  lemma {:induction false} PeerSendsOnly(bdt: seq<BdtEntry>, me: Address, origin: Address, selfLocal: bool)
    ensures forall m :: m in PeerSends(bdt, me, origin, selfLocal).1 ==>
              && m.Downstream? && m.sent == ForwardedSent(origin)
              && (m.destination.addrType != LocalStationAddr ==> m.destination == LocalBroadcast && selfLocal && me in PeerAddrs(bdt))
  {
    if |bdt| > 0 {
      var init := bdt[..|bdt| - 1];
      PeerSendsOnly(init, me, origin, selfLocal);
      var out := PeerSends(init, me, origin, selfLocal).1;
      forall m | m in PeerSends(bdt, me, origin, selfLocal).1 && m.destination.addrType != LocalStationAddr
        ensures me in PeerAddrs(bdt)
      {
        if m in out {
          var k :| 0 <= k < |init| && PeerAddrs(init)[k] == me;
          assert PeerAddrs(bdt)[k] == me;
        } else {
          assert PeerAddrs(bdt)[|bdt| - 1] == me;
        }
      }
    }
  }

  /** Every station the BDT loop sends to is the directed broadcast address of a peer
    * other than this BBMD. */
  lemma {:induction false} PeerSendsTargets(bdt: seq<BdtEntry>, me: Address, origin: Address, selfLocal: bool)
    ensures forall m :: m in PeerSends(bdt, me, origin, selfLocal).1 && m.Downstream? && m.destination.addrType == LocalStationAddr ==>
              exists k :: 0 <= k < |bdt| && bdt[k].bdtAddress != me && DirectedBroadcast(bdt[k]) == Ok(m.destination)
  {
    if |bdt| > 0 {
      var init := bdt[..|bdt| - 1];
      PeerSendsTargets(init, me, origin, selfLocal);
      var out := PeerSends(init, me, origin, selfLocal).1;
      forall m | m in PeerSends(bdt, me, origin, selfLocal).1 && m.Downstream? && m.destination.addrType == LocalStationAddr
        ensures exists k :: 0 <= k < |bdt| && bdt[k].bdtAddress != me && DirectedBroadcast(bdt[k]) == Ok(m.destination)
      {
        if m in out {
          var k :| 0 <= k < |init| && init[k].bdtAddress != me && DirectedBroadcast(init[k]) == Ok(m.destination);
          assert bdt[k] == init[k];
        } else {
          assert DirectedBroadcast(bdt[|bdt| - 1]) == Ok(m.destination);
        }
      }
    }
  }

  lemma InSplit<T>(x: T, a: seq<T>, b: seq<T>)
    requires x in a + b
    ensures x in a || x in b
  {
  }

  /** A local broadcast from the network layer is sent as an original broadcast, then
    * forwarded only to stations or foreign devices; it fails exactly when a peer other
    * than this BBMD is not a B/IP station. */
  lemma LocalBroadcastOnly(f: BbmdFields, me: Address, dest: Address)
    requires dest.addrType == LocalBroadcastAddr
    ensures IndicationOut(f, me, dest).0.Ok? <==> Reachable(f.bdt, me)
    ensures var out := IndicationOut(f, me, dest).1;
            && out[0] == Downstream(OriginalBroadcastSent, dest)
            && (forall m :: m in out[1..] ==>
                  && m.Downstream? && m.sent == ForwardedSent(me)
                  && (m.destination.addrType == LocalStationAddr || m.destination in FdAddrs(f.fdt)))
  {
    PeerSendsCompletes(f.bdt, me, me, false);
    var ps := PeerSends(f.bdt, me, me, false);
    var rest := if ps.0.Ok? then ps.1 + ForeignSends(f.fdt, me, None) else ps.1;
    assert IndicationOut(f, me, dest).1 == [Downstream(OriginalBroadcastSent, dest)] + rest;
    ForwardedOnly(f, me, rest);
  }

  lemma ForwardedOnly(f: BbmdFields, me: Address, rest: seq<Out>)
    requires rest == PeerSends(f.bdt, me, me, false).1 || rest == PeerSends(f.bdt, me, me, false).1 + ForeignSends(f.fdt, me, None)
    ensures forall m :: m in rest ==>
              && m.Downstream? && m.sent == ForwardedSent(me)
              && (m.destination.addrType == LocalStationAddr || m.destination in FdAddrs(f.fdt))
  {
    PeerSendsOnly(f.bdt, me, me, false);
    ForeignSendsSpec(f.fdt, me, None);
    var peers := PeerSends(f.bdt, me, me, false).1;
    forall m | m in rest
      ensures m.Downstream? && m.sent == ForwardedSent(me)
      ensures m.destination.addrType == LocalStationAddr || m.destination in FdAddrs(f.fdt)
    {
      if rest != peers { InSplit(m, peers, ForeignSends(f.fdt, me, None)); }
    }
  }

  /** With every other peer reachable, a local broadcast from the network layer is
    * forwarded to the directed broadcast address of every peer but this BBMD and to every
    * foreign device. */
  lemma LocalBroadcastCovers(f: BbmdFields, me: Address, dest: Address)
    requires dest.addrType == LocalBroadcastAddr && Reachable(f.bdt, me)
    ensures var out := IndicationOut(f, me, dest).1;
            && (forall k :: 0 <= k < |f.bdt| && f.bdt[k].bdtAddress != me ==>
                  Downstream(ForwardedSent(me), DirectedBroadcast(f.bdt[k]).value) in out)
            && (forall k :: 0 <= k < |f.fdt| ==> Downstream(ForwardedSent(me), f.fdt[k].fdAddress) in out)
  {
    PeerSendsCompletes(f.bdt, me, me, false);
    PeerSendsCovers(f.bdt, me, me, false);
    ForeignSendsSpec(f.fdt, me, None);
    var peers := PeerSends(f.bdt, me, me, false).1;
    var foreign := ForeignSends(f.fdt, me, None);
    assert IndicationOut(f, me, dest).1 == [Downstream(OriginalBroadcastSent, dest)] + peers + foreign;
  }

  /** The outputs of a distributed broadcast when every other peer is reachable. */
  lemma DistributeOut(f: BbmdFields, me: Address, source: Address)
    requires Reachable(f.bdt, me)
    ensures var (r, out, g) := ConfirmationStep(f, me, DistributeBroadcastMessage, source);
            && r.Ok? && g == f
            && out == [Upstream(source, LocalBroadcast)] + PeerSends(f.bdt, me, source, true).1 + ForeignSends(f.fdt, source, Some(source))
  {
    PeerSendsCompletes(f.bdt, me, source, true);
  }

  /** A broadcast a foreign device asks this BBMD to distribute goes to the network layer
    * here, as a local broadcast for this BBMD's own BDT entry, to the directed broadcast
    * address of every other peer, and to every foreign device but the one that sent it. */
  lemma DistributeCovers(f: BbmdFields, me: Address, source: Address)
    requires Reachable(f.bdt, me)
    ensures var out := ConfirmationStep(f, me, DistributeBroadcastMessage, source).1;
            && out[0] == Upstream(source, LocalBroadcast)
            && (me in PeerAddrs(f.bdt) ==> Downstream(ForwardedSent(source), LocalBroadcast) in out)
            && (forall k :: 0 <= k < |f.bdt| && f.bdt[k].bdtAddress != me ==>
                  Downstream(ForwardedSent(source), DirectedBroadcast(f.bdt[k]).value) in out)
            && (forall k :: 0 <= k < |f.fdt| && f.fdt[k].fdAddress != source ==>
                  Downstream(ForwardedSent(source), f.fdt[k].fdAddress) in out)
  {
    DistributeOut(f, me, source);
    PeerSendsCovers(f.bdt, me, source, true);
    if me in PeerAddrs(f.bdt) {
      PeerSendsSelf(f.bdt, me, source);
    }
    ForeignSendsSpec(f.fdt, source, Some(source));
  }

  /** The foreign device (a station) that asked for a broadcast to be distributed gets no
    * copy back, unless it is itself the directed broadcast address of a peer. */
  lemma DistributeNoEcho(f: BbmdFields, me: Address, source: Address)
    requires Reachable(f.bdt, me) && source.addrType == LocalStationAddr
    requires Downstream(ForwardedSent(source), source) in ConfirmationStep(f, me, DistributeBroadcastMessage, source).1
    ensures exists k :: 0 <= k < |f.bdt| && f.bdt[k].bdtAddress != me && DirectedBroadcast(f.bdt[k]) == Ok(source)
  {
    DistributeOut(f, me, source);
    PeerSendsTargets(f.bdt, me, source, true);
    ForeignSendsSpec(f.fdt, source, Some(source));
    var peers := PeerSends(f.bdt, me, source, true).1;
    var foreign := ForeignSends(f.fdt, source, Some(source));
    var m := Downstream(ForwardedSent(source), source);
    assert m !in foreign;
    InSplit(m, [Upstream(source, LocalBroadcast)] + peers, foreign);
    InSplit(m, [Upstream(source, LocalBroadcast)], peers);
    assert m in peers;
  }

  /** Expiry keeps the tables valid. */
  lemma ExpireKeepsValid(f: BbmdFields, me: Address)
    requires Valid(f, me)
    ensures Valid(f.(fdt := Expire(f.fdt)), me)
  {
    ExpireKeepsUnique(f.fdt);
  }

  /** Every message handled keeps the tables valid and leaves the BDT as it was. */
  lemma ConfirmationKeepsValid(f: BbmdFields, me: Address, msg: Inbound, source: Address)
    requires Valid(f, me)
    ensures ConfirmationStep(f, me, msg, source).2.bdt == f.bdt
    ensures Valid(ConfirmationStep(f, me, msg, source).2, me)
  {
    match msg
    case RegisterMessage(ttl) => RegisterKeepsUnique(f.fdt, source, ttl);
    case DeleteFdtEntryMessage(a) => DeleteSpec(f.fdt, a);
    case _ =>
  }
}
