/** Station and broadcast addresses (`bacpypes/link/station.py`, `bacpypes/link/broadcast.py`):
  * constructors that check their arguments and build an `Address`. */
module Stations {
  import opened Wrappers
  import opened Bytes
  import opened Addresses

  /** The octets of a station given as an int (one octet, 0..255) or as bytes. */
  function StationOctets(addr: Arg): (r: Result<seq<byte>>)
    ensures addr.IntArg? ==> (r.Ok? <==> 0 <= addr.i < 256) && (r.Ok? ==> r.value == [addr.i as byte])
    ensures addr.IntArg? && r.Err? ==> r.error == ValueError
    ensures addr.BytesArg? ==> r == Ok(addr.b)
    ensures !addr.IntArg? && !addr.BytesArg? ==> r == Err(TypeError)
  {
    match addr
    case IntArg(i) => if i < 0 || i >= 256 then Err(ValueError) else Ok([i as byte])
    case BytesArg(b) => Ok(b)
    case _ => Err(TypeError)
  }

  /** `LocalStation(addr)`. */
  function LocalStation(addr: Arg): (r: Result<Address>)
    ensures r.Ok? <==> StationOctets(addr).Ok?
    ensures r.Ok? ==> r.value == Address(LocalStationAddr, None, Some(StationOctets(addr).value))
    ensures r.Err? ==> r.error == StationOctets(addr).error
  {
    var b :- StationOctets(addr);
    Ok(Address(LocalStationAddr, None, Some(b)))
  }

  /** The network check shared by `RemoteStation` and `RemoteBroadcast`: an int in 0..65534. */
  function NetworkNumber(net: Arg): (r: Result<nat>)
    ensures r.Ok? <==> net.IntArg? && 0 <= net.i < 65535
    ensures r.Ok? ==> r.value == net.i
    ensures r.Err? ==> r.error == if net.IntArg? then ValueError else TypeError
  {
    if !net.IntArg? then Err(TypeError)
    else if net.i < 0 || net.i >= 65535 then Err(ValueError)
    else Ok(net.i)
  }

  /** `RemoteStation(net, addr)`: the network is checked before the address. */
  function RemoteStation(net: Arg, addr: Arg): (r: Result<Address>)
    ensures r.Ok? <==> NetworkNumber(net).Ok? && StationOctets(addr).Ok?
    ensures r.Ok? ==> r.value == Address(RemoteStationAddr, Some(net.i), Some(StationOctets(addr).value))
    ensures NetworkNumber(net).Err? ==> r == Err(NetworkNumber(net).error)
  {
    var n :- NetworkNumber(net);
    var b :- StationOctets(addr);
    Ok(Address(RemoteStationAddr, Some(n), Some(b)))
  }

  /** `RemoteBroadcast(net)`. */
  function RemoteBroadcast(net: Arg): (r: Result<Address>)
    ensures r.Ok? <==> NetworkNumber(net).Ok?
    ensures r.Ok? ==> r.value == Address(RemoteBroadcastAddr, Some(net.i), None)
  {
    var n :- NetworkNumber(net);
    Ok(Address(RemoteBroadcastAddr, Some(n), None))
  }

  /** A local station built from an int or bytes is the address `Address(addr)` decodes,
    * except that `Address` also accepts strings and tuples. */
  lemma LocalStationIsDecoded(addr: Arg)
    requires addr.IntArg? || addr.BytesArg?
    ensures LocalStation(addr) == DecodeAddress(addr)
  {
  }

  /** A remote station is the local station moved onto the network, as the two-argument
    * `Address(net, addr)` does. */
  lemma RemoteStationIsMoved(net: int, addr: Arg)
    requires 0 <= net < 65535 && (addr.IntArg? || addr.BytesArg?)
    ensures RemoteStation(IntArg(net), addr) == DecodeAddressOnNet(net, addr)
  {
  }

  /** Every station the constructors build with at least one octet prints as text that
    * decodes back to it; so do remote broadcasts. */
  lemma StationsPrintBack(net: Arg, addr: Arg)
    requires StationOctets(addr).Ok? && |StationOctets(addr).value| >= 1
    ensures var l := LocalStation(addr).value;
      Str(l).Ok? && DecodeAddress(StrArg(Str(l).value)) == Ok(l)
    ensures RemoteStation(net, addr).Ok? ==>
      var r := RemoteStation(net, addr).value;
      Str(r).Ok? && DecodeAddress(StrArg(Str(r).value)) == Ok(r)
    ensures RemoteBroadcast(net).Ok? ==>
      var r := RemoteBroadcast(net).value;
      Str(r).Ok? && DecodeAddress(StrArg(Str(r).value)) == Ok(r)
  {
    StrRoundTrip(LocalStation(addr).value);
    if RemoteStation(net, addr).Ok? {
      StrRoundTrip(RemoteStation(net, addr).value);
    }
    if RemoteBroadcast(net).Ok? {
      StrRoundTrip(RemoteBroadcast(net).value);
    }
  }
}
