/** The stream framer of the BACnet Streaming Link Layer (`bacpypes/bsll/utils.py`): it
  * finds the next BSLL message in the octets a TCP stream has delivered so far. */
module Packetize {
  import opened Wrappers
  import opened Bytes
  import Bslci
  import Bslpdu

  /** `find`: the index of the first `b` in `s`, or -1. */
  function Find(s: seq<byte>, b: byte): (r: int)
    ensures -1 <= r < |s|
    ensures r == -1 <==> b !in s
    ensures r >= 0 ==> s[r] == b && b !in s[..r]
  {
    if |s| == 0 then -1
    else if s[0] == b then 0
    else
      var k := Find(s[1..], b);
      if k == -1 then -1 else k + 1
  }

  /** `_Packetize` as written runs on the `bytes` buffer of the stream, and `bytes.find`
    * refuses the `str` argument `'\x83'` with a TypeError, whatever the buffer holds. */
  function PacketizeAsWritten(data: seq<byte>): Result<Option<(seq<byte>, seq<byte>)>>
  {
    Err(TypeError)
  }

  /** `_Packetize` read on octets: skip to the first 0x83, then a whole message of the
    * length in octets 2..3, and what follows it; `None` while the message is incomplete. */
  function Packetize(data: seq<byte>): Option<(seq<byte>, seq<byte>)>
  {
    var start := Find(data, Bslci.BsllType);
    if start == -1 then None
    else
      var d := data[start..];
      if |d| < 4 then None
      else
        var total := ShortValue(d[2..4]);
        if |d| < total then None
        else Some((d[..total], d[total..]))
  }

  /** What `Packetize` promises: nothing without a 0x83; otherwise the octets before the
    * first 0x83 are dropped, and a packet is returned exactly when the header is complete
    * and the whole length has arrived, cut at that length, so that packet and rest make up
    * the trimmed input. */
  lemma PacketizeSpec(data: seq<byte>)
    ensures Bslci.BsllType !in data ==> Packetize(data).None?
    ensures Bslci.BsllType in data ==>
      exists k :: 0 <= k < |data| && data[k] == Bslci.BsllType && Bslci.BsllType !in data[..k] &&
        var d := data[k..];
        (Packetize(data).Some? <==> |d| >= 4 && ShortValue(d[2..4]) <= |d|) &&
        (Packetize(data).Some? ==>
          |Packetize(data).value.0| == ShortValue(d[2..4]) &&
          Packetize(data).value.0 + Packetize(data).value.1 == d)
  {
    if Bslci.BsllType in data {
      var k := Find(data, Bslci.BsllType);
      var d := data[k..];
      if Packetize(data).Some? {
        assert d[..ShortValue(d[2..4])] + d[ShortValue(d[2..4])..] == d;
      }
    }
  }

  /** As written, no buffer is ever framed. */
  lemma PacketizeAsWrittenFails(data: seq<byte>)
    ensures PacketizeAsWritten(data) != Ok(Packetize(data))
  {
  }

  /** Framing the stream gives back a message the BSLL encoded, whatever garbage without
    * 0x83 came before it and whatever follows it. */
  lemma PacketizeFrames(m: Bslpdu.BsllMessage, garbage: seq<byte>, rest: seq<byte>)
    requires Bslpdu.BodyForm(m) && Bslpdu.MessageLength(m).value < ShortMask
    requires Bslci.BsllType !in garbage
    ensures Bslpdu.EncodeBsll(m).Ok?
    ensures Packetize(garbage + Bslpdu.EncodeBsll(m).value + rest) == Some((Bslpdu.EncodeBsll(m).value, rest))
  {
    EncodedFrame(m);
    PacketizeAt(garbage, Bslpdu.EncodeBsll(m).value, rest);
  }

  /** An encoded message starts with 0x83 and carries its own length. */
  lemma EncodedFrame(m: Bslpdu.BsllMessage)
    requires Bslpdu.BodyForm(m) && Bslpdu.MessageLength(m).value < ShortMask
    ensures Bslpdu.EncodeBsll(m).Ok?
    ensures var p := Bslpdu.EncodeBsll(m).value;
      |p| >= 4 && p[0] == Bslci.BsllType && ShortValue(p[2..4]) == |p|
  {
    Bslpdu.BodyLength(m);
    var body := Bslpdu.EncodeBody(m).value;
    var f := Bslpdu.MessageFields(m).value;
    var h := Bslci.EncodeBslci(f, |body|).value;
    assert Bslpdu.EncodeBsll(m).value == h + body;
    assert (h + body)[2..4] == h[2..];
  }

  /** A frame that starts with 0x83 and carries its own length is cut out of the stream. */
  lemma PacketizeAt(garbage: seq<byte>, p: seq<byte>, rest: seq<byte>)
    requires Bslci.BsllType !in garbage
    requires |p| >= 4 && p[0] == Bslci.BsllType && ShortValue(p[2..4]) == |p|
    ensures Packetize(garbage + p + rest) == Some((p, rest))
  {
    var data := garbage + p + rest;
    FindAfter(garbage, p + rest);
    assert data == garbage + (p + rest);
    var d := data[|garbage|..];
    assert d == p + rest;
    assert d[2..4] == p[2..4];
    assert d[..|p|] == p && d[|p|..] == rest;
  }

  lemma FindAfter(g: seq<byte>, s: seq<byte>)
    requires Bslci.BsllType !in g && |s| > 0 && s[0] == Bslci.BsllType
    ensures Find(g + s, Bslci.BsllType) == |g|
  {
    assert (g + s)[|g|] == Bslci.BsllType;
    assert (g + s)[..|g|] == g;
  }

  /** A header whose length field is below 4 is framed as a packet shorter than the header:
    * the first `n` octets, the rest starting inside the header. */
  lemma ShortLengthFramesPartHeader(n: byte, x: byte, rest: seq<byte>)
    requires n < 4
    ensures var data := [Bslci.BsllType as byte, x, 0, n] + rest;
      Packetize(data) == Some((data[..n], data[n..])) && |data[..n]| < 4
  {
    var data := [Bslci.BsllType as byte, x, 0, n] + rest;
    assert data[2..4] == [0, n];
    assert ShortValue([0, n]) == n as int;
  }

  /** A header whose length field is 0 is framed as an empty packet and leaves the whole
    * input as the rest: nothing is consumed. */
  lemma ShortLengthMakesNoProgress(rest: seq<byte>)
    ensures var data := [Bslci.BsllType as byte, 0, 0, 0] + rest;
      Packetize(data) == Some(([], data))
  {
    var data := [Bslci.BsllType as byte, 0, 0, 0] + rest;
    assert data[2..4] == [0, 0];
  }
}
