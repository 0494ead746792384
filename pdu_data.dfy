/** The consumable octet buffer every PDU carries (`PDUData`): reads take from the
  * front, writes append at the end. */
module PduData {
  import opened Wrappers
  import opened Bytes

  class PDUData {
    var data: seq<byte>

    /** A buffer holding a copy of `init` (`PDUData(None)` is the empty buffer). */
    constructor (init: seq<byte>)
      ensures data == init
    {
      data := init;
    }

    /** Take the first octet; an empty buffer is a decoding error and is left alone. */
    method Get() returns (r: Result<byte>)
      modifies this
      ensures |old(data)| == 0 ==> r == Err(DecodingError) && data == old(data)
      ensures |old(data)| > 0 ==> r == Ok(old(data)[0]) && data == old(data)[1..]
    {
      if |data| == 0 {
        return Err(DecodingError);
      }
      r := Ok(data[0]);
      data := data[1..];
    }

    /** Take the first `dlen` octets, or fail without consuming when fewer remain. */
    method GetData(dlen: nat) returns (r: Result<seq<byte>>)
      modifies this
      ensures |old(data)| < dlen ==> r == Err(DecodingError) && data == old(data)
      ensures dlen <= |old(data)| ==> r == Ok(old(data)[..dlen]) && data == old(data)[dlen..]
    {
      if |data| < dlen {
        return Err(DecodingError);
      }
      r := Ok(data[..dlen]);
      data := data[dlen..];
    }

    /** Take a big-endian 16-bit value. */
    method GetShort() returns (r: Result<nat>)
      modifies this
      ensures |old(data)| < 2 ==> r == Err(DecodingError) && data == old(data)
      ensures 2 <= |old(data)| ==> r == Ok(ShortValue(old(data)[..2])) && data == old(data)[2..]
    {
      var d := GetData(2);
      if d.Err? {
        return Err(d.error);
      }
      r := Ok(ShortValue(d.value));
    }

    /** Take a big-endian 32-bit value. */
    method GetLong() returns (r: Result<nat>)
      modifies this
      ensures |old(data)| < 4 ==> r == Err(DecodingError) && data == old(data)
      ensures 4 <= |old(data)| ==> r == Ok(LongValue(old(data)[..4])) && data == old(data)[4..]
    {
      var d := GetData(4);
      if d.Err? {
        return Err(d.error);
      }
      r := Ok(LongValue(d.value));
    }

    /** Append one octet; `bytes([n])` rejects a value outside 0..255 with a ValueError. */
    method Put(n: int) returns (r: Result<()>)
      modifies this
      ensures r.Ok? <==> 0 <= n < 256
      ensures r.Ok? ==> data == old(data) + [n as byte]
      ensures r.Err? ==> r.error == ValueError && data == old(data)
    {
      if !(0 <= n < 256) {
        return Err(ValueError);
      }
      data := data + [n as byte];
      r := Ok(());
    }

    /** Append a run of octets. */
    method PutData(d: seq<byte>)
      modifies this
      ensures data == old(data) + d
    {
      data := data + d;
    }

    /** Append n masked to 16 bits, high octet first. */
    method PutShort(n: int)
      modifies this
      ensures data == old(data) + Short(n)
    {
      data := data + Short(n);
    }

    /** Append n masked to 32 bits, high octet first. */
    method PutLong(n: int)
      modifies this
      ensures data == old(data) + Long(n)
    {
      data := data + Long(n);
    }
  }

  /** `bytes([x])` for an optional field: an unset field is a TypeError, a value outside
    * 0..255 a ValueError. */
  function Octet(x: Option<int>): (r: Result<byte>)
    ensures r.Ok? <==> x.Some? && 0 <= x.value < 256
    ensures r.Ok? ==> r.value == x.value
  {
    if x.None? then Err(TypeError)
    else if 0 <= x.value < 256 then Ok(x.value as byte)
    else Err(ValueError)
  }

  predicate IsOctet(x: Option<int>) { x.Some? && 0 <= x.value < 256 }

  /** The buffer grew by exactly the octets of `spec`, or the call failed as `spec` did. */
  ghost predicate Wrote(spec: Result<seq<byte>>, r: Result<()>, before: seq<byte>, after: seq<byte>)
  {
    if spec.Ok? then r.Ok? && after == before + spec.value else r == Err(spec.error)
  }

  function OctetSeq(x: Option<int>): Result<seq<byte>>
  {
    var v :- Octet(x);
    Ok([v])
  }

  /** `pdu.put(field)` for an optional field. */
  method PutField(pdu: PDUData, x: Option<int>) returns (r: Result<()>)
    modifies pdu
    ensures Wrote(OctetSeq(x), r, old(pdu.data), pdu.data)
    ensures r.Err? ==> pdu.data == old(pdu.data)
  {
    if x.None? {
      return Err(TypeError);
    }
    r := pdu.Put(x.value);
  }

  /** A read returned the value `spec` takes and left the octets it leaves, or failed as
    * `spec` did. */
  ghost predicate Took<T>(spec: Result<(T, seq<byte>)>, r: Result<T>, rest: seq<byte>)
  {
    if spec.Ok? then r == Ok(spec.value.0) && rest == spec.value.1 else r == Err(spec.error)
  }

  // What the reads take, as functions of the octets left in the buffer

  /** `get`: the first octet and the rest. */
  function Take(s: seq<byte>): (r: Result<(byte, seq<byte>)>)
    ensures r.Ok? <==> |s| > 0
    ensures r.Ok? ==> [r.value.0] + r.value.1 == s
    ensures r.Err? ==> r.error == DecodingError
  {
    if |s| == 0 then Err(DecodingError) else Ok((s[0], s[1..]))
  }

  /** `get_data(n)`: the first n octets and the rest. */
  function TakeData(s: seq<byte>, n: nat): (r: Result<(seq<byte>, seq<byte>)>)
    ensures r.Ok? <==> n <= |s|
    ensures r.Ok? ==> |r.value.0| == n && r.value.0 + r.value.1 == s
    ensures r.Err? ==> r.error == DecodingError
  {
    if |s| < n then Err(DecodingError) else Ok((s[..n], s[n..]))
  }

  /** `get_short`: a big-endian 16-bit value and the rest. */
  function TakeShort(s: seq<byte>): (r: Result<(nat, seq<byte>)>)
    ensures r.Ok? <==> 2 <= |s|
    ensures r.Ok? ==> r.value.0 < ShortMask && Short(r.value.0) + r.value.1 == s
    ensures r.Err? ==> r.error == DecodingError
  {
    var d :- TakeData(s, 2);
    ShortOfValue(d.0);
    Ok((ShortValue(d.0), d.1))
  }

  /** What a `get_short` reads back after a `put_short`: n masked to 16 bits, and the
    * octets that were there before stay where they were. */
  lemma {:induction false} ShortReadBack(n: int, after: seq<byte>)
    ensures var s := Short(n) + after;
      |s| >= 2 && ShortValue(s[..2]) == n % ShortMask && s[2..] == after
  {
    var s := Short(n) + after;
    assert s[..2] == Short(n);
    assert s[2..] == after;
  }

  /** What a `get_long` reads back after a `put_long`: n masked to 32 bits. */
  lemma {:induction false} LongReadBack(n: int, after: seq<byte>)
    ensures var s := Long(n) + after;
      |s| >= 4 && LongValue(s[..4]) == n % LongMask && s[4..] == after
  {
    var s := Long(n) + after;
    assert s[..4] == Long(n);
    assert s[4..] == after;
  }
}
