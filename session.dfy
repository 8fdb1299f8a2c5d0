/**
 * src/lib/session.ts: `value.hexsig` session tokens. The HMAC-SHA-256 of a
 * value under the server secret is a parameter `mac` (any function from
 * strings to byte strings); `sign` renders its bytes in lowercase hex after
 * a dot, and `verify` re-signs the text before the token's last dot.
 */
module Session {
  import opened Wrappers
  import opened Text

  type Byte = x: int | 0 <= x < 256

  predicate IsLowerHex(c: char) {
    '0' <= c <= '9' || 'a' <= c <= 'f'
  }

  /** The digit `0`-`9`, `a`-`f` of value `d`. */
  function HexDigit(d: nat): (c: char)
    requires d < 16
    ensures IsLowerHex(c)
  {
    if d < 10 then ('0' as int + d) as char else ('a' as int + d - 10) as char
  }

  /** `n.toString(16)`. */
  function ToBase16(n: nat): (r: string)
    ensures |r| >= 1 && forall i :: 0 <= i < |r| ==> IsLowerHex(r[i])
    ensures n < 16 ==> r == [HexDigit(n)]
    ensures 16 <= n < 256 ==> r == [HexDigit(n / 16), HexDigit(n % 16)]
  {
    if n < 16 then [HexDigit(n)] else ToBase16(n / 16) + [HexDigit(n % 16)]
  }

  /** `b.toString(16).padStart(2, '0')`. */
  function ByteToHex(b: Byte): (r: string)
    ensures r == [HexDigit(b / 16), HexDigit(b % 16)]
  {
    var t := ToBase16(b);
    if |t| < 2 then "0" + t else t
  }

  function HexValue(c: char): nat
    requires IsLowerHex(c)
  {
    if c <= '9' then c as int - '0' as int else c as int - 'a' as int + 10
  }

  /** The signature bytes joined as hex: two lowercase digits per byte. */
  function HexEncode(bytes: seq<Byte>): (r: string)
    ensures |r| == 2 * |bytes|
    ensures forall i :: 0 <= i < |r| ==> IsLowerHex(r[i])
    ensures '.' !in r
  {
    if bytes == [] then [] else ByteToHex(bytes[0]) + HexEncode(bytes[1..])
  }

  function HexDecode(s: string): seq<Byte>
    requires |s| % 2 == 0 && forall i :: 0 <= i < |s| ==> IsLowerHex(s[i])
  {
    if s == [] then [] else [16 * HexValue(s[0]) + HexValue(s[1])] + HexDecode(s[2..])
  }

  /** Each byte is recoverable from its two digits: the rendering loses nothing. */
  lemma {:induction false} HexRoundTrip(bytes: seq<Byte>)
    ensures HexDecode(HexEncode(bytes)) == bytes
  {
    if bytes != [] {
      var b := bytes[0];
      assert HexValue(HexDigit(b / 16)) == b / 16;
      assert HexValue(HexDigit(b % 16)) == b % 16;
      assert 16 * (b / 16) + b % 16 == b;
      assert HexEncode(bytes)[2..] == HexEncode(bytes[1..]);
      HexRoundTrip(bytes[1..]);
    }
  }

  /** `sign(value)`. */
  function Sign(mac: string -> seq<Byte>, value: string): (token: string)
    ensures |token| == |value| + 1 + 2 * |mac(value)|
    ensures token[..|value|] == value && token[|value|] == '.'
    ensures token[|value| + 1..] == HexEncode(mac(value))
  {
    value + "." + HexEncode(mac(value))
  }

  /** `verify(token)`: only a token `sign` could have produced is accepted. */
  function Verify(mac: string -> seq<Byte>, token: string): (ok: bool)
    ensures ok ==> '.' in token
    ensures ok ==> exists value :: token == Sign(mac, value)
  {
    match LastIndexOf(token, '.')
    case None => false
    case Some(lastDot) => token == Sign(mac, token[..lastDot])
  }

  /** A token without a dot never verifies. */
  lemma VerifyNeedsDot(mac: string -> seq<Byte>, token: string)
    requires '.' !in token
    ensures !Verify(mac, token)
  {
  }

  /** Every signed value verifies, even one that contains dots, because the hex part has none. */
  lemma SignVerifies(mac: string -> seq<Byte>, value: string)
    ensures Verify(mac, Sign(mac, value))
  {
    var token := Sign(mac, value);
    var hex := HexEncode(mac(value));
    assert token == value + "." + hex;
    assert token[|value| + 1..] == hex;
    LastIndexOfAt(token, '.', |value|);
  }

  /** Exactly the tokens `sign` produces verify. */
  lemma VerifyIffSigned(mac: string -> seq<Byte>, token: string)
    ensures Verify(mac, token) <==> exists value :: token == Sign(mac, value)
  {
    if exists value :: token == Sign(mac, value) {
      var value :| token == Sign(mac, value);
      SignVerifies(mac, value);
    }
  }
}
