/** BACnet addresses (`bacpypes/link/address.py`): the six address types, the many textual
  * and binary forms `decode_address` accepts, equality and `__str__`. */
module Addresses {
  import opened Wrappers
  import opened Bytes
  import opened Text

  const NullAddr := 0
  const LocalBroadcastAddr := 1
  const LocalStationAddr := 2
  const RemoteBroadcastAddr := 3
  const RemoteStationAddr := 4
  const GlobalBroadcastAddr := 5

  const DefaultPort := 47808

  /** An address is what `__eq__` and `__hash__` compare: its type, its network (None for a
    * local address) and its octets (None for a broadcast). Datatype equality is therefore
    * exactly the source's equality. */
  datatype Address = Address(addrType: int, addrNet: Option<int>, addrAddr: Option<seq<byte>>)

  /** `addrLen`, which every constructor keeps equal to the length of `addrAddr`. */
  function AddrLen(a: Address): (n: Option<nat>)
    ensures n.Some? <==> a.addrAddr.Some?
    ensures n.Some? ==> n.value == |a.addrAddr.value|
  {
    if a.addrAddr.Some? then Some(|a.addrAddr.value|) else None
  }

  /** A fresh `Address()`: the null address with no octets. */
  const NullAddress := Address(NullAddr, None, Some([]))
  const LocalBroadcast := Address(LocalBroadcastAddr, None, None)
  const GlobalBroadcast := Address(GlobalBroadcastAddr, None, None)

  predicate IsStation(a: Address) { a.addrType == LocalStationAddr || a.addrType == RemoteStationAddr }

  /** The Python values the constructors are given: an int, bytes, a str, an (host, port)
    * tuple, or anything else. */
  datatype Arg = IntArg(i: int) | BytesArg(b: seq<byte>) | StrArg(s: string) | TupleArg(host: Arg, port: int) | OtherArg

  // ---------------------------------------------------------------------------------
  // Scanning the textual forms

  /** The end of the run of digits that starts at i. */
  function DigitEnd(s: string, i: nat): (j: nat)
    requires i <= |s|
    ensures i <= j <= |s| && AllDigits(s[i..j]) && (j == |s| || !IsDigit(s[j]))
    decreases |s| - i
  {
    if i < |s| && IsDigit(s[i]) then
      var j := DigitEnd(s, i + 1);
      assert s[i..j] == [s[i]] + s[i + 1..j];
      j
    else i
  }

  /** The index of the first ':' in s, or |s|. */
  function FirstColon(s: string): (k: nat)
    ensures k <= |s| && (k < |s| ==> s[k] == ':') && forall i :: 0 <= i < k ==> s[i] != ':'
  {
    if |s| == 0 then 0 else if s[0] == ':' then 0 else 1 + FirstColon(s[1..])
  }

  /** The parts of `ip_address_mask_port_re`: optional network, the four numbers of the
    * dotted quad, optional mask width, optional port. */
  datatype IpParts = IpParts(net: Option<string>, quad: seq<string>, mask: Option<string>, port: Option<string>)

  predicate QuadDigits(quad: seq<string>)
  {
    |quad| == 4 && forall k :: 0 <= k < 4 ==> |quad[k]| > 0 && AllDigits(quad[k])
  }

  /** A run of digits at i followed by a dot; the index after the dot. */
  function DotRun(s: string, i: nat): (r: Option<nat>)
    requires i <= |s|
    ensures r.Some? ==> i + 2 <= r.value <= |s| && |s[i..r.value - 1]| > 0 && AllDigits(s[i..r.value - 1])
  {
    var a := DigitEnd(s, i);
    if a == i || a >= |s| || s[a] != '.' then None else Some(a + 1)
  }

  /** n runs of digits separated by dots, starting at i; the runs and the end index. */
  function MatchRuns(s: string, i: nat, n: nat): (r: Option<(seq<string>, nat)>)
    requires i <= |s| && n >= 1
    ensures r.Some? ==> |r.value.0| == n && RunsDigits(r.value.0) && i < r.value.1 <= |s|
    ensures r.Some? ==> r.value.1 == |s| || !IsDigit(s[r.value.1])
    decreases n
  {
    if n == 1 then
      var e := DigitEnd(s, i);
      if e == i then None else Some(([s[i..e]], e))
    else
      match DotRun(s, i)
      case None => None
      case Some(b) =>
        match MatchRuns(s, b, n - 1)
        case None => None
        case Some((rs, e)) => Some(([s[i..b - 1]] + rs, e))
  }

  predicate RunsDigits(q: seq<string>) { forall k :: 0 <= k < |q| ==> |q[k]| > 0 && AllDigits(q[k]) }

  /** Four runs of digits separated by dots: a dotted quad. */
  function MatchQuad(s: string, i: nat): (r: Option<(seq<string>, nat)>)
    requires i <= |s|
    ensures r.Some? ==> QuadDigits(r.value.0) && i < r.value.1 <= |s|
    ensures r.Some? ==> r.value.1 == |s| || !IsDigit(s[r.value.1])
  {
    MatchRuns(s, i, 4)
  }

  /** The optional `N:` in front of an IP address: the network digits and where the
    * address starts. */
  function NetPrefix(s: string): (r: (Option<string>, nat))
    ensures r.1 <= |s|
    ensures r.0.Some? ==> IsDigits(r.0.value)
  {
    var i0 := DigitEnd(s, 0);
    if 0 < i0 < |s| && s[i0] == ':' then (Some(s[..i0]), i0 + 1) else (None, 0)
  }

  /** The optional `/mask` and `:port` after the dotted quad, up to the end of s. */
  function MatchIpTail(s: string, d: nat): (r: Option<(Option<string>, Option<string>)>)
    requires d <= |s|
    ensures r.Some? ==> (r.value.0.Some? ==> IsDigits(r.value.0.value)) && (r.value.1.Some? ==> IsDigits(r.value.1.value))
  {
    var e := if d < |s| && s[d] == '/' then DigitEnd(s, d + 1) else d;
    var hasMask := e > d + 1;
    var pos := if hasMask then e else d;
    var f := if pos < |s| && s[pos] == ':' then DigitEnd(s, pos + 1) else pos;
    var hasPort := f > pos + 1;
    if (hasPort && f == |s|) || (!hasPort && pos == |s|) then
      Some((if hasMask then Some(s[d + 1..e]) else None, if hasPort then Some(s[pos + 1..f]) else None))
    else None
  }

  /** `ip_address_mask_port_re.match(s)`: `[N:]a.b.c.d[/mask][:port]`. */
  function MatchIp(s: string): Option<IpParts>
  {
    var (net, start) := NetPrefix(s);
    match MatchQuad(s, start)
    case None => None
    case Some((quad, d)) =>
      match MatchIpTail(s, d)
      case None => None
      case Some((mask, port)) => Some(IpParts(net, quad, mask, port))
  }

  /** `ethernet_re`: six pairs of hex digits separated by colons. */
  predicate IsEthernet(s: string)
  {
    |s| == 17 && forall i :: 0 <= i < 17 ==> if i % 3 == 2 then s[i] == ':' else IsHex(s[i])
  }

  /** `xtob(s, ':')` for an ethernet address. */
  function EthernetOctets(s: string): (b: seq<byte>)
    requires IsEthernet(s)
    ensures |b| == 6
  {
    var hex := s[0..2] + s[3..5] + s[6..8] + s[9..11] + s[12..14] + s[15..17];
    assert AllHex(hex) by {
      forall i | 0 <= i < |hex| ensures IsHex(hex[i]) {
        assert hex[i] == s[(i / 2) * 3 + i % 2];
      }
    }
    Unhexlify(hex)
  }

  /** `^\d+:[*]$`. */
  predicate IsNetStar(s: string) { |s| >= 3 && s[|s| - 2..] == ":*" && IsDigits(s[..|s| - 2]) }

  /** `^\d+:\d+$`. */
  predicate IsNetNumber(s: string)
  {
    var k := FirstColon(s);
    k < |s| && IsDigits(s[..k]) && IsDigits(s[k + 1..])
  }

  /** `^0x([0-9A-Fa-f][0-9A-Fa-f])+$`. */
  predicate IsModernHex(s: string) { |s| >= 2 && s[..2] == "0x" && IsHexPairs(s[2..]) }

  /** `^X'([0-9A-Fa-f][0-9A-Fa-f])+'$`. */
  predicate IsOldHex(s: string) { |s| >= 3 && s[..2] == "X'" && s[|s| - 1] == '\'' && IsHexPairs(s[2..|s| - 1]) }

  /** `^\d+:0x(..)+$`. */
  predicate IsNetModernHex(s: string)
  {
    var k := FirstColon(s);
    k < |s| && IsDigits(s[..k]) && IsModernHex(s[k + 1..])
  }

  /** `^\d+:X'(..)+'$`. */
  predicate IsNetOldHex(s: string)
  {
    var k := FirstColon(s);
    k < |s| && IsDigits(s[..k]) && IsOldHex(s[k + 1..])
  }

  /** `socket.inet_aton` of four decimal numbers: each must fit in an octet. */
  function InetAtonQuad(quad: seq<string>): (r: Result<seq<byte>>)
    requires QuadDigits(quad)
    ensures r.Ok? <==> forall k :: 0 <= k < 4 ==> DecimalValue(quad[k]) < 256
    ensures r.Ok? ==> |r.value| == 4 && forall k :: 0 <= k < 4 ==> r.value[k] == DecimalValue(quad[k])
    ensures r.Err? ==> r.error == OSError
  {
    if forall k :: 0 <= k < 4 ==> DecimalValue(quad[k]) < 256 then
      Ok([DecimalValue(quad[0]) as byte, DecimalValue(quad[1]) as byte,
          DecimalValue(quad[2]) as byte, DecimalValue(quad[3]) as byte])
    else Err(OSError)
  }

  /** `socket.inet_aton(h)` for a host string written as a dotted quad. */
  function InetAton(h: string): Result<seq<byte>>
  {
    match MatchQuad(h, 0)
    case Some((quad, d)) => if d == |h| then InetAtonQuad(quad) else Err(OSError)
    case None => Err(OSError)
  }

  /** The IP form: a network prefix below 65535 makes a remote station; the port defaults
    * to 47808 and is masked to 16 bits; a mask wider than 32 is a negative shift. */
  function DecodeIp(p: IpParts): Result<Address>
    requires QuadDigits(p.quad)
    requires p.net.Some? ==> IsDigits(p.net.value)
    requires p.mask.Some? ==> IsDigits(p.mask.value)
    requires p.port.Some? ==> IsDigits(p.port.value)
  {
    var net :- if p.net.None? then Ok(None)
               else if DecimalValue(p.net.value) >= 65535 then Err(ValueError)
               else Ok(Some(DecimalValue(p.net.value)));
    var port := if p.port.Some? then DecimalValue(p.port.value) else DefaultPort;
    var ip :- InetAtonQuad(p.quad);
    var width := if p.mask.Some? then DecimalValue(p.mask.value) else 32;
    if width > 32 then Err(ValueError)
    else Ok(Address(if net.Some? then RemoteStationAddr else LocalStationAddr, net, Some(ip + Short(port))))
  }

  lemma MatchIpParts(s: string)
    requires MatchIp(s).Some?
    ensures var p := MatchIp(s).value;
      QuadDigits(p.quad) &&
      (p.net.Some? ==> IsDigits(p.net.value)) && (p.mask.Some? ==> IsDigits(p.mask.value)) &&
      (p.port.Some? ==> IsDigits(p.port.value))
  {
  }

  /** `decode_address` of a string, trying the forms in the source's order. */
  function DecodeString(s: string): Result<Address>
  {
    if s == "*" then Ok(LocalBroadcast)
    else if s == "*:*" then Ok(GlobalBroadcast)
    else if MatchIp(s).Some? then
      MatchIpParts(s);
      DecodeIp(MatchIp(s).value)
    else if IsEthernet(s) then Ok(Address(LocalStationAddr, None, Some(EthernetOctets(s))))
    else if IsDigits(s) then
      if DecimalValue(s) > 255 then Err(ValueError)
      else Ok(Address(LocalStationAddr, None, Some([DecimalValue(s) as byte])))
    else DecodeNetForm(s)
  }

  /** The network-prefixed and hex forms, tried after the forms above. */
  function DecodeNetForm(s: string): Result<Address>
  {
    if IsNetStar(s) then
      var net := DecimalValue(s[..|s| - 2]);
      if net >= 65535 then Err(ValueError) else Ok(Address(RemoteBroadcastAddr, Some(net), None))
    else if IsNetNumber(s) then
      var k := FirstColon(s);
      var net := DecimalValue(s[..k]);
      var n := DecimalValue(s[k + 1..]);
      if net >= 65535 then Err(ValueError)
      else if n > 255 then Err(ValueError)
      else Ok(Address(RemoteStationAddr, Some(net), Some([n as byte])))
    else DecodeHexForm(s)
  }

  function DecodeHexForm(s: string): Result<Address>
  {
    if IsModernHex(s) then Ok(Address(LocalStationAddr, None, Some(Unhexlify(s[2..]))))
    else if IsOldHex(s) then Ok(Address(LocalStationAddr, None, Some(Unhexlify(s[2..|s| - 1]))))
    else if IsNetModernHex(s) then
      var k := FirstColon(s);
      var net := DecimalValue(s[..k]);
      if net >= 65535 then Err(ValueError)
      else Ok(Address(RemoteStationAddr, Some(net), Some(Unhexlify(s[k + 1..][2..]))))
    else if IsNetOldHex(s) then
      var k := FirstColon(s);
      var net := DecimalValue(s[..k]);
      if net >= 65535 then Err(ValueError)
      else
        var t := s[k + 1..];
        Ok(Address(RemoteStationAddr, Some(net), Some(Unhexlify(t[2..|t| - 1]))))
    else Err(ValueError)
  }

  /** `Address(arg)`: `decode_address` of one argument. */
  function DecodeAddress(arg: Arg): (r: Result<Address>)
    ensures arg.IntArg? ==> (r.Ok? <==> 0 <= arg.i < 256)
    ensures arg.BytesArg? ==> r == Ok(Address(LocalStationAddr, None, Some(arg.b)))
    ensures arg.OtherArg? ==> r == Err(TypeError)
    ensures r.Ok? && !arg.StrArg? ==> r.value.addrType == LocalStationAddr && r.value.addrNet.None?
  {
    match arg
    case StrArg(s) => DecodeString(s)
    case IntArg(i) =>
      if i < 0 || i >= 256 then Err(ValueError) else Ok(Address(LocalStationAddr, None, Some([i as byte])))
    case BytesArg(b) => Ok(Address(LocalStationAddr, None, Some(b)))
    case TupleArg(host, port) =>
      var ip :- match host
                case StrArg(h) => if h == "" then Ok([0, 0, 0, 0]) else InetAton(h)
                case IntArg(n) => Ok(Long(n))
                case _ => Err(TypeError);
      Ok(Address(LocalStationAddr, None, Some(ip + Short(port))))
    case OtherArg => Err(TypeError)
  }

  /** `Address(net, arg)`: a local station or local broadcast moved onto network `net`
    * (which is not checked); any other form is a ValueError. */
  function DecodeAddressOnNet(net: int, arg: Arg): (r: Result<Address>)
    ensures r.Ok? <==>
      (DecodeAddress(arg).Ok? && DecodeAddress(arg).value.addrType in {LocalStationAddr, LocalBroadcastAddr})
    ensures r.Ok? ==>
      (r.value.addrNet == Some(net) && r.value.addrAddr == DecodeAddress(arg).value.addrAddr &&
       r.value.addrType == if DecodeAddress(arg).value.addrType == LocalStationAddr
                           then RemoteStationAddr else RemoteBroadcastAddr)
  {
    var a :- DecodeAddress(arg);
    if a.addrType == LocalStationAddr then Ok(a.(addrType := RemoteStationAddr, addrNet := Some(net)))
    else if a.addrType == LocalBroadcastAddr then Ok(a.(addrType := RemoteBroadcastAddr, addrNet := Some(net)))
    else Err(ValueError)
  }

  // ---------------------------------------------------------------------------------
  // __str__

  /** The host part of a station: one octet in decimal; six octets with a BACnet/IP port
    * (47808..47823) as a dotted quad, with the port unless it is 47808; otherwise hex.
    * Fewer than two octets other than one cannot be unpacked. */
  function StationString(b: seq<byte>): Result<string>
  {
    if |b| == 1 then Ok(NatToString(b[0]))
    else if |b| < 2 then Err(StructError)
    else
      var port := ShortValue(b[|b| - 2..]);
      if |b| == 6 && DefaultPort <= port <= 47823 then
        Ok(DottedQuad(b[..4]) + PortSuffix(port))
      else Ok("0x" + Hexlify(b))
  }

  function DottedQuad(b: seq<byte>): string
    requires |b| == 4
  {
    QuadText(QuadStrings(b))
  }

  /** The four octets of an IPv4 address in decimal. */
  function QuadStrings(b: seq<byte>): (q: seq<string>)
    requires |b| == 4
    ensures QuadDigits(q)
  {
    [NatToString(b[0]), NatToString(b[1]), NatToString(b[2]), NatToString(b[3])]
  }

  /** `Address.__str__`. */
  function Str(a: Address): (r: Result<string>)
    ensures a.addrType == NullAddr ==> r == Ok("Null")
    ensures a.addrType == LocalBroadcastAddr ==> r == Ok("*")
    ensures a.addrType == GlobalBroadcastAddr ==> r == Ok("*:*")
    ensures a.addrType == RemoteBroadcastAddr && a.addrNet.Some? ==> r == Ok(IntToString(a.addrNet.value) + ":*")
    ensures !(0 <= a.addrType <= 5) ==> r == Err(TypeError)
  {
    if a.addrType == NullAddr then Ok("Null")
    else if a.addrType == LocalBroadcastAddr then Ok("*")
    else if a.addrType == LocalStationAddr then
      if a.addrAddr.None? then Err(TypeError) else StationString(a.addrAddr.value)
    else if a.addrType == RemoteBroadcastAddr then
      if a.addrNet.None? then Err(TypeError) else Ok(IntToString(a.addrNet.value) + ":*")
    else if a.addrType == RemoteStationAddr then
      if a.addrNet.None? || a.addrAddr.None? then Err(TypeError)
      else
        var h :- StationString(a.addrAddr.value);
        Ok(IntToString(a.addrNet.value) + ":" + h)
    else if a.addrType == GlobalBroadcastAddr then Ok("*:*")
    else Err(TypeError)
  }

  // ---------------------------------------------------------------------------------
  // Printing then parsing gives the address back

  /** The addresses `__str__` prints in a form `decode_address` reads back: the broadcasts,
    * and stations with at least one octet, on a network below 65535 when remote. */
  predicate Presentable(a: Address)
  {
    a == LocalBroadcast || a == GlobalBroadcast ||
    (a.addrType == RemoteBroadcastAddr && a.addrNet.Some? && 0 <= a.addrNet.value < 65535 && a.addrAddr.None?) ||
    (a.addrType == LocalStationAddr && a.addrNet.None? && a.addrAddr.Some? && |a.addrAddr.value| >= 1) ||
    (a.addrType == RemoteStationAddr && a.addrNet.Some? && 0 <= a.addrNet.value < 65535 &&
     a.addrAddr.Some? && |a.addrAddr.value| >= 1)
  }

  /** A run of digits ending at j (at the end or before a non-digit) is the run DigitEnd finds. */
  lemma {:induction false} DigitEndOfDigits(s: string, i: nat, j: nat)
    requires i <= j <= |s| && AllDigits(s[i..j]) && (j == |s| || !IsDigit(s[j]))
    ensures DigitEnd(s, i) == j
    decreases j - i
  {
    if i < j {
      assert s[i..j][0] == s[i];
      assert s[i + 1..j] == s[i..j][1..];
      DigitEndOfDigits(s, i + 1, j);
    }
  }

  /** The run of digits w between x and text y not starting with a digit. */
  lemma DigitRunAt(x: string, w: string, y: string)
    requires AllDigits(w) && (y == "" || !IsDigit(y[0]))
    ensures DigitEnd(x + w + y, |x|) == |x| + |w|
    ensures (x + w + y)[|x|..|x| + |w|] == w
  {
    var s := x + w + y;
    assert s[|x|..|x| + |w|] == w;
    assert |x| + |w| < |s| ==> s[|x| + |w|] == y[0];
    DigitEndOfDigits(s, |x|, |x| + |w|);
  }

  /** A colon-free prefix ending in a colon puts FirstColon just after it. */
  lemma FirstColonAt(s: string, k: nat)
    requires k < |s| && s[k] == ':' && forall i :: 0 <= i < k ==> s[i] != ':'
    ensures FirstColon(s) == k
  {
  }

  lemma NoColon(s: string)
    requires forall i :: 0 <= i < |s| ==> s[i] != ':'
    ensures FirstColon(s) == |s|
  {
  }

  /** The strings of q joined by dots. */
  function JoinDots(q: seq<string>): string
    requires |q| >= 1
  {
    if |q| == 1 then q[0] else q[0] + "." + JoinDots(q[1..])
  }

  function QuadText(q: seq<string>): string
    requires |q| == 4
  {
    JoinDots(q)
  }

  /** A run of digits w after x, then a dot. */
  lemma DotRunAt(x: string, w: string, y: string)
    requires |w| > 0 && AllDigits(w)
    ensures DotRun(x + w + "." + y, |x|) == Some(|x| + |w| + 1)
    ensures (x + w + "." + y)[|x|..|x| + |w|] == w
  {
    var s := x + w + "." + y;
    assert s == x + w + ("." + y);
    DigitRunAt(x, w, "." + y);
    assert s[|x| + |w|] == '.';
  }

  /** Digit strings joined by dots, then text that does not start with a digit, match
    * that many runs. */
  lemma {:induction false} MatchRunsText(x: string, q: seq<string>, tail: string)
    requires |q| >= 1 && RunsDigits(q) && (tail == "" || !IsDigit(tail[0]))
    ensures MatchRuns(x + JoinDots(q) + tail, |x|, |q|) == Some((q, |x| + |JoinDots(q)|))
    decreases |q|
  {
    if |q| == 1 {
      MatchOneRun(x, q, tail);
    } else {
      var x1 := x + q[0] + ".";
      MatchRunsText(x1, q[1..], tail);
      MatchRunStep(x, q, tail);
    }
  }

  lemma MatchOneRun(x: string, q: seq<string>, tail: string)
    requires |q| == 1 && RunsDigits(q) && (tail == "" || !IsDigit(tail[0]))
    ensures MatchRuns(x + JoinDots(q) + tail, |x|, |q|) == Some((q, |x| + |JoinDots(q)|))
  {
    var w := q[0];
    assert q == [w];
    assert JoinDots(q) == w;
    var s := x + w + tail;
    assert x + JoinDots(q) + tail == s;
    DigitRunAt(x, w, tail);
    MatchSingleRun(s, |x|, |x| + |w|);
    assert MatchRuns(s, |x|, 1) == Some((q, |x| + |w|));
    assert |q| == 1;
    assert MatchRuns(x + JoinDots(q) + tail, |x|, |q|) == MatchRuns(s, |x|, 1);
  }

  lemma MatchSingleRun(s: string, i: nat, e: nat)
    requires i < e <= |s| && DigitEnd(s, i) == e
    ensures MatchRuns(s, i, 1) == Some(([s[i..e]], e))
  {
  }

  lemma Assoc4(a: string, b: string, c: string, d: string, e: string)
    ensures a + (b + c + d) + e == a + b + c + (d + e)
    ensures a + (b + c + d) + e == a + b + c + d + e
  {
  }

  lemma MatchRunStep(x: string, q: seq<string>, tail: string)
    requires |q| >= 2 && RunsDigits(q) && (tail == "" || !IsDigit(tail[0]))
    requires MatchRuns(x + q[0] + "." + JoinDots(q[1..]) + tail, |x + q[0] + "."|, |q| - 1)
      == Some((q[1..], |x + q[0] + "."| + |JoinDots(q[1..])|))
    ensures MatchRuns(x + JoinDots(q) + tail, |x|, |q|) == Some((q, |x| + |JoinDots(q)|))
  {
    var w, y := q[0], JoinDots(q[1..]);
    JoinDotsCons(q);
    var t := x + w + "." + y + tail;
    var e := |x + w + "."| + |y|;
    assert |w| > 0 && AllDigits(w) by { assert q[0] == w; }
    MatchRunsDotted(x, w, y, tail, |q|, q[1..], e);
    ConsTail(q);
    SameText(x, w, y, tail, JoinDots(q));
    assert MatchRuns(t, |x|, |q|) == Some((q, e));
  }

  lemma JoinDotsCons(q: seq<string>)
    requires |q| >= 2
    ensures JoinDots(q) == q[0] + "." + JoinDots(q[1..])
  {
  }

  lemma ConsTail(q: seq<string>)
    requires |q| >= 1
    ensures [q[0]] + q[1..] == q
  {
  }

  lemma SameText(x: string, w: string, y: string, tail: string, j: string)
    requires j == w + "." + y
    ensures x + j + tail == x + w + "." + y + tail
    ensures |x| + |j| == |x + w + "."| + |y|
  {
    Assoc4(x, w, ".", y, tail);
  }

  /** A run of digits and a dot in front of n - 1 matched runs makes n matched runs. */
  lemma MatchRunsDotted(x: string, w: string, y: string, tail: string, n: nat, rs: seq<string>, e: nat)
    requires |w| > 0 && AllDigits(w) && n >= 2
    requires MatchRuns(x + w + "." + y + tail, |x + w + "."|, n - 1) == Some((rs, e))
    ensures MatchRuns(x + w + "." + y + tail, |x|, n) == Some(([w] + rs, e))
  {
    var s := x + w + "." + y + tail;
    assert |x + w + "."| == |x| + |w| + 1;
    assert x + w + "." + (y + tail) == s;
    DotRunAt(x, w, y + tail);
    MatchRunsCons(s, |x|, |x| + |w| + 1, n, rs, e);
  }

  lemma MatchRunsCons(s: string, i: nat, b: nat, n: nat, rs: seq<string>, e: nat)
    requires i <= |s| && n >= 2 && DotRun(s, i) == Some(b) && MatchRuns(s, b, n - 1) == Some((rs, e))
    ensures MatchRuns(s, i, n) == Some(([s[i..b - 1]] + rs, e))
  {
  }

  lemma MatchQuadText(x: string, q: seq<string>, tail: string)
    requires QuadDigits(q) && (tail == "" || !IsDigit(tail[0]))
    ensures MatchQuad(x + QuadText(q) + tail, |x|) == Some((q, |x| + |QuadText(q)|))
  {
    MatchRunsText(x, q, tail);
  }

  /** The text of an IP station, with or without a network prefix and a port, matches
    * `ip_address_mask_port_re` with exactly those parts. */
  /** An address that starts with a run of digits and a dot has no network prefix; one
    * written `N:` has network N. */
  lemma NetPrefixOf(net: Option<string>, w: string, rest: string)
    requires |w| > 0 && AllDigits(w) && (net.Some? ==> IsDigits(net.value))
    ensures var pre := if net.Some? then net.value + ":" else "";
      NetPrefix(pre + (w + "." + rest)) == (net, |pre|)
  {
    var pre := if net.Some? then net.value + ":" else "";
    var s := pre + (w + "." + rest);
    if net.Some? {
      assert s == "" + net.value + (":" + (w + "." + rest));
      DigitRunAt("", net.value, ":" + (w + "." + rest));
      assert s[|net.value|] == ':';
    } else {
      assert s == "" + w + ("." + rest);
      DigitRunAt("", w, "." + rest);
      assert s[|w|] == '.';
    }
  }

  /** Nothing, or `:port`, after the dotted quad. */
  lemma IpTailOf(x: string, port: Option<string>)
    requires port.Some? ==> IsDigits(port.value)
    ensures var post := if port.Some? then ":" + port.value else "";
      MatchIpTail(x + post, |x|) == Some((None, port))
  {
    if port.Some? {
      var s := x + (":" + port.value);
      assert s == x + ":" + port.value + "";
      DigitRunAt(x + ":", port.value, "");
      assert s[|x|] == ':';
    }
  }

  /** The text of an IP station, with or without a network prefix and a port, matches
    * `ip_address_mask_port_re` with exactly those parts. */
  lemma MatchIpText(net: Option<string>, q: seq<string>, port: Option<string>)
    requires QuadDigits(q) && (net.Some? ==> IsDigits(net.value)) && (port.Some? ==> IsDigits(port.value))
    ensures var pre := if net.Some? then net.value + ":" else "";
      var post := if port.Some? then ":" + port.value else "";
      MatchIp(pre + QuadText(q) + post) == Some(IpParts(net, q, None, port))
  {
    var pre := if net.Some? then net.value + ":" else "";
    var post := if port.Some? then ":" + port.value else "";
    var s := pre + QuadText(q) + post;
    var x := pre + QuadText(q);
    MatchQuadText(pre, q, post);
    assert MatchQuad(s, |pre|) == Some((q, |x|));
    var y := JoinDots(q[1..]);
    assert QuadText(q) == q[0] + "." + y;
    Assoc3Tail(pre, q[0], ".", y, post);
    assert s == pre + (q[0] + "." + (y + post));
    NetPrefixOf(net, q[0], y + post);
    assert NetPrefix(s) == (net, |pre|);
    IpTailOf(x, port);
    assert MatchIpTail(s, |x|) == Some((None, port));
    MatchIpOf(s, net, |pre|, q, |x|, port);
  }

  lemma Assoc3Tail(p: string, a: string, b: string, c: string, t: string)
    ensures p + (a + b + c) + t == p + (a + b + (c + t))
  {
  }

  lemma MatchIpOf(s: string, net: Option<string>, start: nat, q: seq<string>, d: nat, port: Option<string>)
    requires NetPrefix(s) == (net, start) && MatchQuad(s, start) == Some((q, d))
    requires MatchIpTail(s, d) == Some((None, port))
    ensures MatchIp(s) == Some(IpParts(net, q, None, port))
  {
  }

  /** After the broadcast forms, DecodeString of a string that starts with a digit and is
    * not an IP address, an ethernet address or all digits goes on to the network forms. */
  lemma DecodeStringSkips(s: string)
    requires |s| > 1 && IsDigit(s[0]) && MatchIp(s).None? && !IsEthernet(s) && !IsDigits(s)
    ensures DecodeString(s) == DecodeNetForm(s)
  {
    assert s != "*" && s != "*:*" by {
      assert s[0] != "*:*"[0];
    }
  }

  lemma DecimalRoundTrip(v: byte)
    ensures DecodeString(NatToString(v)) == Ok(Address(LocalStationAddr, None, Some([v])))
  {
    var s := NatToString(v);
    DigitEndOfDigits(s, 0, |s|);
    assert s[0] != '*';
    assert MatchIp(s).None?;
  }

  lemma HexRoundTrip(b: seq<byte>)
    requires |b| >= 1
    ensures DecodeString("0x" + Hexlify(b)) == Ok(Address(LocalStationAddr, None, Some(b)))
  {
    var s := "0x" + Hexlify(b);
    assert s[..2] == "0x" && s[2..] == Hexlify(b);
    HexlifyPairs(b);
    ModernHexText(s);
    UnhexlifyHexlify(b);
  }

  /** `0x` and pairs of hex digits decode as the local station with those octets. */
  lemma ModernHexText(s: string)
    requires |s| >= 2 && s[..2] == "0x" && IsHexPairs(s[2..])
    ensures DecodeString(s) == Ok(Address(LocalStationAddr, None, Some(Unhexlify(s[2..]))))
  {
    assert s[0] == '0' && s[1] == 'x' by { assert s[0] == s[..2][0] && s[1] == s[..2][1]; }
    assert DecodeString(s) == DecodeNetForm(s) by {
      DigitEndOfDigits(s, 0, 1);
      assert MatchIp(s).None?;
      assert !IsEthernet(s) by { if |s| == 17 { assert !IsHex(s[1]); } }
      assert !IsDigits(s) by { assert !IsDigit(s[1]); }
      DecodeStringSkips(s);
    }
    assert !IsNetStar(s) by { assert IsHex(s[|s| - 1]) by { assert s[|s| - 1] == s[2..][|s| - 3]; } }
    HexNoColon(s);
  }

  /** `0x` and hex digits hold no colon. */
  lemma HexNoColon(s: string)
    requires |s| >= 2 && s[..2] == "0x" && AllHex(s[2..])
    ensures FirstColon(s) == |s|
  {
    forall i | 0 <= i < |s|
      ensures s[i] != ':'
    {
      if i >= 2 {
        assert s[i] == s[2..][i - 2];
      } else {
        assert s[i] == s[..2][i];
      }
    }
    NoColon(s);
  }

  /** The text `d:rest` for a run of digits d. */
  lemma NetColon(d: string, rest: string)
    requires IsDigits(d)
    ensures var s := d + ":" + rest;
      s[|d|] == ':' && s[..|d|] == d && s[|d| + 1..] == rest &&
      NetPrefix(s) == (Some(d), |d| + 1) && FirstColon(s) == |d| && !IsDigits(s)
  {
    var s := d + ":" + rest;
    assert s == "" + d + (":" + rest);
    DigitRunAt("", d, ":" + rest);
    assert s[|d|] == ':' && s[..|d|] == d && s[|d| + 1..] == rest;
    assert forall i :: 0 <= i < |d| ==> s[i] == d[i];
    FirstColonAt(s, |d|);
    assert !IsDigit(s[|d|]);
  }

  /** No run of digits followed by a dot at i: no dotted quad starts there. */
  lemma NoQuadAt(s: string, i: nat)
    requires i <= |s| && DotRun(s, i).None?
    ensures MatchQuad(s, i).None?
  {
  }

  lemma NoIp(s: string)
    requires DotRun(s, NetPrefix(s).1).None?
    ensures MatchIp(s).None?
  {
    NoQuadAt(s, NetPrefix(s).1);
  }

  /** A digit run at i ending at the end of s, or before a character other than a dot. */
  lemma NoDotAfterRun(s: string, i: nat, j: nat)
    requires i <= j <= |s| && AllDigits(s[i..j]) && (j == |s| || (!IsDigit(s[j]) && s[j] != '.'))
    ensures DotRun(s, i).None?
  {
    DigitEndOfDigits(s, i, j);
  }

  lemma NetStarRoundTrip(n: nat)
    requires n < 65535
    ensures DecodeString(NatToString(n) + ":*") == Ok(Address(RemoteBroadcastAddr, Some(n), None))
  {
    var d := NatToString(n);
    var s := d + ":*";
    NetColon(d, "*");
    NoDotAfterRun(s, |d| + 1, |d| + 1);
    NoIp(s);
    DecodeStringSkips(s);
    assert s[|s| - 2..] == ":*" && s[..|s| - 2] == d;
  }

  lemma NetNumberRoundTrip(n: nat, v: byte)
    requires n < 65535
    ensures DecodeString(NatToString(n) + ":" + NatToString(v)) == Ok(Address(RemoteStationAddr, Some(n), Some([v])))
  {
    var d := NatToString(n);
    var m := NatToString(v);
    var s := d + ":" + m;
    NetColon(d, m);
    NoDotAfterRun(s, |d| + 1, |s|);
    NoIp(s);
    DecodeStringSkips(s);
    assert !IsNetStar(s) by { assert IsDigit(s[|s| - 1]); }
  }

  lemma NetHexRoundTrip(n: nat, b: seq<byte>)
    requires n < 65535 && |b| >= 1
    ensures DecodeString(NatToString(n) + ":" + ("0x" + Hexlify(b))) == Ok(Address(RemoteStationAddr, Some(n), Some(b)))
  {
    var d := NatToString(n);
    NetHexForm(d, b);
    UnhexlifyHexlify(b);
  }

  /** `N:0x...` goes past every earlier form to the network-prefixed modern hex form. */
  lemma NetHexForm(d: string, b: seq<byte>)
    requires IsDigits(d) && |b| >= 1
    ensures var s := d + ":" + ("0x" + Hexlify(b));
      DecodeString(s) == DecodeHexForm(s) && !IsModernHex(s) && !IsOldHex(s) && IsNetModernHex(s) &&
      FirstColon(s) == |d| && s[..|d|] == d && s[|d| + 1..][2..] == Hexlify(b)
  {
    var h := "0x" + Hexlify(b);
    var s := d + ":" + h;
    NetColon(d, h);
    assert h[..2] == "0x" && h[2..] == Hexlify(b);
    HexlifyPairs(b);
    NetHexSkips(s, d, h);
    assert s[|d| + 1] == '0' && s[|d| + 2] == 'x';
    NetHexNotEarlier(s, |d|);
  }

  lemma HexlifyPairs(b: seq<byte>)
    requires |b| >= 1
    ensures IsHexPairs(Hexlify(b))
  {
    var n := |b|;
    assert (2 * n) % 2 == 0;
  }

  /** `N:0x` followed by anything is none of the forms tried before the network forms. */
  lemma NetHexNotEarlier(s: string, k: nat)
    requires k + 2 < |s| && k > 0 && AllDigits(s[..k]) && s[k] == ':' && s[k + 1] == '0' && s[k + 2] == 'x'
    requires NetPrefix(s).1 == k + 1 && !IsDigits(s)
    ensures DecodeString(s) == DecodeNetForm(s)
  {
    assert AllDigits(s[k + 1..k + 2]);
    NoDotAfterRun(s, k + 1, k + 2);
    NoIp(s);
    NotEthernetAt(s, k + 2);
    assert IsDigit(s[0]) by { assert s[0] == s[..k][0]; }
    DecodeStringSkips(s);
  }

  /** A character that is neither a hex digit nor a colon rules out the ethernet form. */
  lemma NotEthernetAt(s: string, i: nat)
    requires i < |s| && !IsHex(s[i]) && s[i] != ':'
    ensures !IsEthernet(s)
  {
    if |s| == 17 {
      assert i < 17;
    }
  }

  lemma NetHexSkips(s: string, d: string, h: string)
    requires IsDigits(d) && s == d + ":" + h && |h| >= 4 && h[..2] == "0x" && IsHexPairs(h[2..])
    requires s[|d|] == ':' && s[..|d|] == d && s[|d| + 1..] == h && FirstColon(s) == |d|
    ensures DecodeNetForm(s) == DecodeHexForm(s)
    ensures !IsModernHex(s) && !IsOldHex(s) && IsNetModernHex(s)
  {
    assert !IsNetStar(s) by { assert IsHex(s[|s| - 1]); }
    assert !IsNetNumber(s) by { assert !IsDigit(h[1]); }
    assert !IsModernHex(s) by { assert s[1] == ':' || IsDigit(s[1]); }
  }

  /** The decimal octets read back through `inet_aton`. */
  lemma InetAtonQuadStrings(b: seq<byte>)
    requires |b| == 4
    ensures InetAtonQuad(QuadStrings(b)) == Ok(b)
  {
    var q := QuadStrings(b);
    assert forall k :: 0 <= k < 4 ==> DecimalValue(q[k]) == b[k];
    assert InetAtonQuad(q).value == [b[0], b[1], b[2], b[3]] == b;
  }

  /** `Address(unpack_ip_addr(b))` of six octets (`socket.inet_ntoa` of the first four,
    * the port from the last two) is the local station with those same octets. */
  lemma UnpackIpAddr(b: seq<byte>)
    requires |b| == 6
    ensures DecodeAddress(TupleArg(StrArg(DottedQuad(b[..4])), ShortValue(b[4..]))) ==
      Ok(Address(LocalStationAddr, None, Some(b)))
  {
    InetAtonDottedQuad(b[..4]);
    DecodeTupleString(DottedQuad(b[..4]), ShortValue(b[4..]));
    ShortOfValue(b[4..]);
    assert b[..4] + b[4..] == b;
  }

  /** A dotted quad reads back through `inet_aton` as its four octets. */
  lemma InetAtonDottedQuad(b: seq<byte>)
    requires |b| == 4
    ensures InetAton(DottedQuad(b)) == Ok(b)
  {
    var q := QuadStrings(b);
    MatchQuadText("", q, "");
    assert "" + QuadText(q) + "" == QuadText(q);
    InetAtonQuadStrings(b);
  }

  /** A `(host, port)` tuple with a non-empty host string is the host's address and port. */
  lemma DecodeTupleString(h: string, port: int)
    requires h != "" && InetAton(h).Ok?
    ensures DecodeAddress(TupleArg(StrArg(h), port)) ==
      Ok(Address(LocalStationAddr, None, Some(InetAton(h).value + Short(port))))
  {
  }

  /** The optional `:port` suffix of a BACnet/IP station. */
  function PortSuffix(port: nat): string
  {
    if port != DefaultPort then ":" + NatToString(port) else ""
  }

  function PortPart(port: nat): (r: Option<string>)
    ensures r.Some? ==> IsDigits(r.value)
  {
    if port != DefaultPort then Some(NatToString(port)) else None
  }

  /** A BACnet/IP station printed as `[N:]a.b.c.d[:port]` reads back as the same station. */
  lemma IpRoundTrip(net: Option<nat>, b: seq<byte>)
    requires |b| == 6 && (net.Some? ==> net.value < 65535)
    ensures var pre := if net.Some? then NatToString(net.value) + ":" else "";
      var s := pre + DottedQuad(b[..4]) + PortSuffix(ShortValue(b[4..]));
      DecodeString(s) ==
        Ok(Address(if net.Some? then RemoteStationAddr else LocalStationAddr, net, Some(b)))
  {
    var netStr := if net.Some? then Some(NatToString(net.value)) else None;
    var pre := if net.Some? then NatToString(net.value) + ":" else "";
    var port := ShortValue(b[4..]);
    var q := QuadStrings(b[..4]);
    var s := pre + DottedQuad(b[..4]) + PortSuffix(port);
    MatchIpText(netStr, q, PortPart(port));
    assert s[0] != '*' by {
      if net.Some? { assert s[0] == NatToString(net.value)[0]; } else { assert s[0] == q[0][0]; }
    }
    DecodeIpMatched(s, IpParts(netStr, q, None, PortPart(port)));
    DecodeIpStation(net, b);
  }

  lemma DecodeIpMatched(s: string, p: IpParts)
    requires MatchIp(s) == Some(p) && |s| > 0 && s[0] != '*'
    requires QuadDigits(p.quad) && (p.net.Some? ==> IsDigits(p.net.value))
    requires p.mask.None? && (p.port.Some? ==> IsDigits(p.port.value))
    ensures DecodeString(s) == DecodeIp(p)
  {
    MatchIpParts(s);
  }

  lemma DecodeIpStation(net: Option<nat>, b: seq<byte>)
    requires |b| == 6 && (net.Some? ==> net.value < 65535)
    ensures var netStr := if net.Some? then Some(NatToString(net.value)) else None;
      DecodeIp(IpParts(netStr, QuadStrings(b[..4]), None, PortPart(ShortValue(b[4..])))) ==
        Ok(Address(if net.Some? then RemoteStationAddr else LocalStationAddr, net, Some(b)))
  {
    InetAtonQuadStrings(b[..4]);
    ShortOfValue(b[4..]);
    assert b[..4] + b[4..] == b;
  }

  /** A local station's text reads back as that station. */
  lemma LocalStationRoundTrip(b: seq<byte>)
    requires |b| >= 1
    ensures StationString(b).Ok? && DecodeString(StationString(b).value) == Ok(Address(LocalStationAddr, None, Some(b)))
  {
    if |b| == 1 {
      DecimalRoundTrip(b[0]);
      assert [b[0]] == b;
    } else if |b| == 6 && DefaultPort <= ShortValue(b[|b| - 2..]) <= 47823 {
      IpRoundTrip(None, b);
      assert "" + DottedQuad(b[..4]) == DottedQuad(b[..4]);
    } else {
      HexRoundTrip(b);
    }
  }

  /** A remote station's text reads back as that station. */
  lemma RemoteStationRoundTrip(n: nat, b: seq<byte>)
    requires n < 65535 && |b| >= 1
    ensures StationString(b).Ok? &&
      DecodeString(NatToString(n) + ":" + StationString(b).value) == Ok(Address(RemoteStationAddr, Some(n), Some(b)))
  {
    if |b| == 1 {
      NetNumberRoundTrip(n, b[0]);
      assert [b[0]] == b;
    } else if |b| == 6 && DefaultPort <= ShortValue(b[|b| - 2..]) <= 47823 {
      RemoteIpRoundTrip(n, b);
    } else {
      NetHexRoundTrip(n, b);
    }
  }

  lemma RemoteIpRoundTrip(n: nat, b: seq<byte>)
    requires n < 65535 && |b| == 6 && DefaultPort <= ShortValue(b[|b| - 2..]) <= 47823
    ensures StationString(b).Ok? &&
      DecodeString(NatToString(n) + ":" + StationString(b).value) == Ok(Address(RemoteStationAddr, Some(n), Some(b)))
  {
    var d := NatToString(n);
    var q := DottedQuad(b[..4]);
    var t := PortSuffix(ShortValue(b[4..]));
    assert b[|b| - 2..] == b[4..];
    assert StationString(b) == Ok(q + t);
    IpRoundTrip(Some(n), b);
    ConcatAssoc(d + ":", q, t);
  }

  lemma ConcatAssoc(a: string, b: string, c: string)
    ensures a + (b + c) == a + b + c
  {
  }

  /** The two broadcasts print as `*` and `*:*` and read back. */
  lemma BroadcastRoundTrip(a: Address)
    requires a == LocalBroadcast || a == GlobalBroadcast
    ensures Str(a).Ok? && DecodeAddress(StrArg(Str(a).value)) == Ok(a)
  {
    if a == LocalBroadcast {
      assert Str(a) == Ok("*");
    } else {
      assert Str(a) == Ok("*:*");
      assert DecodeString("*:*") == Ok(a);
    }
  }

  /** A string argument is decoded as text. */
  lemma StrArgDecodes(s: string, a: Address)
    requires DecodeString(s) == Ok(a)
    ensures DecodeAddress(StrArg(s)) == Ok(a)
  {
  }

  /** `decode_address(str(a))` gives back every printable address. */
  lemma StrRoundTrip(a: Address)
    requires Presentable(a)
    ensures Str(a).Ok? && DecodeAddress(StrArg(Str(a).value)) == Ok(a)
  {
    if a == LocalBroadcast || a == GlobalBroadcast {
      BroadcastRoundTrip(a);
    } else if a.addrType == RemoteBroadcastAddr {
      var n := a.addrNet.value;
      NetStarRoundTrip(n);
      assert a == Address(RemoteBroadcastAddr, Some(n), None);
      assert Str(a) == Ok(NatToString(n) + ":*");
      StrArgDecodes(NatToString(n) + ":*", a);
    } else if a.addrType == LocalStationAddr {
      var b := a.addrAddr.value;
      LocalStationRoundTrip(b);
      assert a == Address(LocalStationAddr, None, Some(b));
      assert Str(a) == StationString(b);
      StrArgDecodes(StationString(b).value, a);
    } else {
      var n, b := a.addrNet.value, a.addrAddr.value;
      RemoteStationRoundTrip(n, b);
      assert a == Address(RemoteStationAddr, Some(n), Some(b));
      assert Str(a) == Ok(NatToString(n) + ":" + StationString(b).value);
      StrArgDecodes(NatToString(n) + ":" + StationString(b).value, a);
    }
  }
}
