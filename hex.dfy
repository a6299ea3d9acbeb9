/**
 * The hex helpers the account uses: `to_hex` on bytes, `to_bytes(hexstr=...)` and
 * `remove_0x_prefix`, as the eth_utils package defines them.
 */
module Hex {
  import opened Wrappers
  import opened Ledger

  /** The lower-case hex digit of a nibble, as binascii.hexlify writes it. */
  function Digit(n: int): (c: char)
    requires 0 <= n < 16
    ensures IsLowerHexDigit(c)
  {
    if n < 10 then ('0' as int + n) as char else ('a' as int + n - 10) as char
  }

  predicate IsLowerHexDigit(c: char)
  {
    '0' <= c <= '9' || 'a' <= c <= 'f'
  }

  /** The value of a hex digit of either case; None for any other character. */
  function DigitValue(c: char): (r: Option<int>)
    ensures r.Some? ==> 0 <= r.value < 16
    ensures r.Some? <==> IsLowerHexDigit(c) || 'A' <= c <= 'F'
  {
    if '0' <= c <= '9' then Some(c as int - '0' as int)
    else if 'a' <= c <= 'f' then Some(c as int - 'a' as int + 10)
    else if 'A' <= c <= 'F' then Some(c as int - 'A' as int + 10)
    else None
  }

  lemma DigitValueOfDigit(n: int)
    requires 0 <= n < 16
    ensures DigitValue(Digit(n)) == Some(n)
  {
  }

  /** Two lower-case hex digits per byte, most significant nibble first, no prefix. */
  function HexDigits(b: Bytes): (s: string)
    ensures |s| == 2 * |b|
    ensures forall i :: 0 <= i < |s| ==> IsLowerHexDigit(s[i])
  {
    if b == [] then "" else [Digit(b[0] / 16), Digit(b[0] % 16)] + HexDigits(b[1..])
  }

  /** `to_hex(bytes)`: the digits behind a `0x` prefix. */
  function ToHex(b: Bytes): (s: string)
    ensures |s| == 2 + 2 * |b|
    ensures s[..2] == "0x" && s[2..] == HexDigits(b)
  {
    "0x" + HexDigits(b)
  }

  /** `is_0x_prefixed`: the text starts with `0x` or `0X`. */
  predicate Has0xPrefix(s: string)
  {
    |s| >= 2 && s[0] == '0' && (s[1] == 'x' || s[1] == 'X')
  }

  /** `remove_0x_prefix`: drops one leading `0x`/`0X`, leaves any other text alone. */
  function Remove0xPrefix(s: string): (t: string)
    ensures Has0xPrefix(s) ==> s == s[..2] + t
    ensures !Has0xPrefix(s) ==> t == s
  {
    if Has0xPrefix(s) then s[2..] else s
  }

  /** Every character is a hex digit of either case. */
  predicate AllHexDigits(s: string)
  {
    forall i :: 0 <= i < |s| ==> DigitValue(s[i]).Some?
  }

  /** `binascii.unhexlify` on an even-length text: None as soon as a character is not a hex digit. */
  function DecodeDigits(s: string): (r: Option<Bytes>)
    requires |s| % 2 == 0
    ensures r.Some? ==> |r.value| == |s| / 2
    ensures r.Some? <==> AllHexDigits(s)
    ensures r.Some? ==> forall i :: 0 <= i < |s| / 2 ==>
      r.value[i] == DigitValue(s[2 * i]).value * 16 + DigitValue(s[2 * i + 1]).value
  {
    if s == [] then Some([])
    else
      var hi, lo, rest := DigitValue(s[0]), DigitValue(s[1]), DecodeDigits(s[2..]);
      if hi.Some? && lo.Some? && rest.Some? then Some([hi.value * 16 + lo.value] + rest.value)
      else None
  }

  /**
   * `to_bytes(hexstr=h)`: strip an optional prefix, pad an odd number of digits with a
   * leading `0`, then decode; None where the library raises.
   */
  function HexToBytes(h: string): (r: Option<Bytes>)
    ensures r.Some? <==> AllHexDigits(Remove0xPrefix(h))
    ensures |Remove0xPrefix(h)| % 2 == 0 ==> r == DecodeDigits(Remove0xPrefix(h))
    ensures |Remove0xPrefix(h)| % 2 == 1 ==> r == DecodeDigits("0" + Remove0xPrefix(h))
    ensures r.Some? ==> |r.value| == (|Remove0xPrefix(h)| + 1) / 2
  {
    var t := Remove0xPrefix(h);
    PaddingKeepsHexDigits(t);
    DecodeDigits(if |t| % 2 == 1 then "0" + t else t)
  }

  lemma PaddingKeepsHexDigits(t: string)
    ensures AllHexDigits("0" + t) <==> AllHexDigits(t)
  {
    assert forall i :: 0 <= i < |t| ==> ("0" + t)[i + 1] == t[i];
    assert DigitValue(("0" + t)[0]).Some?;
  }

  lemma {:induction false} DecodeHexDigits(b: Bytes)
    ensures DecodeDigits(HexDigits(b)) == Some(b)
  {
    if b != [] {
      var s := HexDigits(b);
      DigitValueOfDigit(b[0] / 16);
      DigitValueOfDigit(b[0] % 16);
      assert s[2..] == HexDigits(b[1..]);
      DecodeHexDigits(b[1..]);
      assert [b[0]] + b[1..] == b;
    }
  }

  /** Decoding the text `to_hex` produced gives back the same bytes. */
  lemma ToHexRoundTrip(b: Bytes)
    ensures HexToBytes(ToHex(b)) == Some(b)
  {
    assert Remove0xPrefix(ToHex(b)) == HexDigits(b);
    DecodeHexDigits(b);
  }

  /** The digits alone (the `0x` already removed) decode to the same bytes too. */
  lemma HexDigitsRoundTrip(b: Bytes)
    ensures HexToBytes(HexDigits(b)) == Some(b)
  {
    var s := HexDigits(b);
    assert !Has0xPrefix(s) by {
      if |s| >= 2 {
        assert IsLowerHexDigit(s[1]);
      }
    }
    assert Remove0xPrefix(s) == s && |s| % 2 == 0;
    DecodeHexDigits(b);
  }
}
