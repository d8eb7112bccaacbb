/** Alarm identifiers. An alarm's id is a 128-bit UUID; the notification
    centre knows it only by its textual form `uuidString`, the 36-character
    8-4-4-4-12 upper-case hexadecimal layout of RFC 4122 section 3. The
    parser exists to show that this textual form loses nothing: two alarms
    with different ids never share a notification identifier. */
module Uuids {
  import opened Wrappers

  type Byte = b: int | 0 <= b < 256

  /** The 16 bytes of a UUID. */
  type Uuid = s: seq<Byte> | |s| == 16 witness [0, 0, 0, 0, 0, 0, 0, 0, 0, 0, 0, 0, 0, 0, 0, 0]

  const HexDigits: string := "0123456789ABCDEF"

  function HexDigit(n: int): (c: char)
    requires 0 <= n < 16
  {
    HexDigits[n]
  }

  /** The value of one hexadecimal digit, either case. */
  function DigitValue(c: char): (r: Option<int>)
    ensures r.Some? ==> 0 <= r.value < 16
  {
    if '0' <= c <= '9' then Some(c as int - '0' as int)
    else if 'A' <= c <= 'F' then Some(c as int - 'A' as int + 10)
    else if 'a' <= c <= 'f' then Some(c as int - 'a' as int + 10)
    else None
  }

  lemma DigitValueOfHexDigit(n: int)
    requires 0 <= n < 16
    ensures DigitValue(HexDigit(n)) == Some(n)
  {
    if n < 10 {
      assert HexDigit(n) as int == '0' as int + n by {
        assert HexDigits[n] == ['0', '1', '2', '3', '4', '5', '6', '7', '8', '9'][n];
      }
    } else {
      assert HexDigit(n) as int == 'A' as int + (n - 10) by {
        assert HexDigits[n] == ['A', 'B', 'C', 'D', 'E', 'F'][n - 10];
      }
    }
  }

  /** Two hexadecimal digits per byte, most significant first. */
  function Hex(bs: seq<Byte>): (s: string)
    ensures |s| == 2 * |bs|
  {
    if bs == [] then []
    else [HexDigit(bs[0] / 16), HexDigit(bs[0] % 16)] + Hex(bs[1..])
  }

  function ParseHex(s: string): (r: Option<seq<Byte>>)
    ensures r.Some? ==> 2 * |r.value| == |s|
  {
    if s == [] then Some([])
    else if |s| == 1 then None
    else
      match (DigitValue(s[0]), DigitValue(s[1]), ParseHex(s[2..]))
      case (Some(hi), Some(lo), Some(rest)) => Some([hi * 16 + lo] + rest)
      case _ => None
  }

  lemma {:induction false} ParseHexOfHex(bs: seq<Byte>)
    ensures ParseHex(Hex(bs)) == Some(bs)
  {
    if bs != [] {
      var hi, lo := bs[0] / 16, bs[0] % 16;
      DigitValueOfHexDigit(hi);
      DigitValueOfHexDigit(lo);
      var s := Hex(bs);
      assert s == [HexDigit(hi), HexDigit(lo)] + Hex(bs[1..]);
      assert s[0] == HexDigit(hi) && s[1] == HexDigit(lo) && s[2..] == Hex(bs[1..]);
      ParseHexOfHex(bs[1..]);
      assert hi * 16 + lo == bs[0];
      assert [bs[0]] + bs[1..] == bs;
    }
  }

  /** Foundation's `UUID.uuidString`. */
  function UuidString(u: Uuid): (s: string)
    ensures |s| == 36
    ensures s[8] == '-' && s[13] == '-' && s[18] == '-' && s[23] == '-'
  {
    Hex(u[..4]) + "-" + Hex(u[4..6]) + "-" + Hex(u[6..8]) + "-" + Hex(u[8..10]) + "-" + Hex(u[10..])
  }

  /** Reads the 8-4-4-4-12 layout back into the 16 bytes. */
  function ParseUuid(s: string): (r: Option<Uuid>)
    ensures r.Some? ==> |s| == 36
  {
    if |s| != 36 || s[8] != '-' || s[13] != '-' || s[18] != '-' || s[23] != '-' then None
    else
      match (ParseHex(s[..8]), ParseHex(s[9..13]), ParseHex(s[14..18]), ParseHex(s[19..23]), ParseHex(s[24..]))
      case (Some(a), Some(b), Some(c), Some(d), Some(e)) => Some(a + b + c + d + e)
      case _ => None
  }

  /** The five groups of the 8-4-4-4-12 layout sit between its dashes. */
  lemma GroupsOfLayout(p: string, q: string, r: string, t: string, w: string)
    requires |p| == 8 && |q| == 4 && |r| == 4 && |t| == 4 && |w| == 12
    ensures var s := p + "-" + q + "-" + r + "-" + t + "-" + w;
      s[..8] == p && s[9..13] == q && s[14..18] == r && s[19..23] == t && s[24..] == w
  {
  }

  lemma UuidStringRoundTrip(u: Uuid)
    ensures ParseUuid(UuidString(u)) == Some(u)
  {
    GroupsOfLayout(Hex(u[..4]), Hex(u[4..6]), Hex(u[6..8]), Hex(u[8..10]), Hex(u[10..]));
    ParseHexOfHex(u[..4]);
    ParseHexOfHex(u[4..6]);
    ParseHexOfHex(u[6..8]);
    ParseHexOfHex(u[8..10]);
    ParseHexOfHex(u[10..]);
    assert u[..4] + u[4..6] + u[6..8] + u[8..10] + u[10..] == u;
  }

  /** Distinct alarm ids give distinct notification identifiers. */
  lemma UuidStringInjective(u: Uuid, v: Uuid)
    ensures UuidString(u) == UuidString(v) ==> u == v
  {
    UuidStringRoundTrip(u);
    UuidStringRoundTrip(v);
  }
}
