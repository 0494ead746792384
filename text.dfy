/** Decimal and hexadecimal text: Python's `int(s)`, `str(n)`, `binascii.hexlify` and
  * `binascii.unhexlify`, on the ASCII forms the address parser accepts. */
module Text {
  import opened Bytes

  predicate IsDigit(c: char) { '0' <= c <= '9' }
  predicate IsHex(c: char) { IsDigit(c) || 'a' <= c <= 'f' || 'A' <= c <= 'F' }

  /** `re.match(r'^\d+$', s)`, for ASCII digits. */
  predicate IsDigits(s: string) { |s| > 0 && AllDigits(s) }
  predicate AllDigits(s: string) { forall i :: 0 <= i < |s| ==> IsDigit(s[i]) }
  predicate AllHex(s: string) { forall i :: 0 <= i < |s| ==> IsHex(s[i]) }

  /** `([0-9A-Fa-f][0-9A-Fa-f])+`. */
  predicate IsHexPairs(s: string) { |s| > 0 && |s| % 2 == 0 && AllHex(s) }

  function DigitValue(c: char): nat
    requires IsDigit(c)
  {
    c as int - '0' as int
  }

  function HexValue(c: char): (v: nat)
    requires IsHex(c)
    ensures v < 16
  {
    if IsDigit(c) then c as int - '0' as int
    else if 'a' <= c <= 'f' then c as int - 'a' as int + 10
    else c as int - 'A' as int + 10
  }

  /** The lower-case hex digit of a nibble. */
  function HexChar(n: nat): (c: char)
    requires n < 16
    ensures IsHex(c) && HexValue(c) == n
  {
    if n < 10 then ('0' as int + n) as char else ('a' as int + n - 10) as char
  }

  /** `int(s)` for a string of decimal digits. */
  function DecimalValue(s: string): nat
    requires AllDigits(s)
    decreases |s|
  {
    if |s| == 0 then 0 else DecimalValue(s[..|s| - 1]) * 10 + DigitValue(s[|s| - 1])
  }

  /** `str(n)` for a natural number: its decimal digits without leading zeros. */
  function NatToString(n: nat): (s: string)
    ensures IsDigits(s) && DecimalValue(s) == n
    ensures n < 10 ==> |s| == 1
    ensures n < 1000 ==> |s| <= 3
    ensures n < 100000 ==> |s| <= 5
  {
    var last := [('0' as int + n % 10) as char];
    if n < 10 then last
    else
      var s := NatToString(n / 10) + last;
      assert s[..|s| - 1] == NatToString(n / 10);
      s
  }

  /** `'%d' % i` for any integer. */
  function IntToString(i: int): string
  {
    if i < 0 then "-" + NatToString(-i) else NatToString(i)
  }

  /** `binascii.unhexlify` of an even number of hex digits. */
  function Unhexlify(s: string): (b: seq<byte>)
    requires |s| % 2 == 0 && AllHex(s)
    ensures |b| == |s| / 2
    decreases |s|
  {
    if |s| == 0 then [] else [(HexValue(s[0]) * 16 + HexValue(s[1])) as byte] + Unhexlify(s[2..])
  }

  /** `binascii.hexlify`: two lower-case hex digits per octet, high nibble first. */
  function Hexlify(b: seq<byte>): (s: string)
    ensures |s| == 2 * |b| && AllHex(s)
  {
    if |b| == 0 then [] else [HexChar(b[0] / 16), HexChar(b[0] % 16)] + Hexlify(b[1..])
  }

  /** Hexlify and unhexlify are inverse. */
  lemma {:induction false} UnhexlifyHexlify(b: seq<byte>)
    ensures Unhexlify(Hexlify(b)) == b
  {
    if |b| > 0 {
      var s := Hexlify(b);
      assert s[2..] == Hexlify(b[1..]);
      UnhexlifyHexlify(b[1..]);
    }
  }
}
