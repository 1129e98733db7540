/** Bytes, little-endian 32-bit lengths, and hexadecimal ids. */
module Bytes {
  import opened Common

  type byte = b: int | 0 <= b < 256

  const TWO_TO_THE_32 := 0x1_0000_0000

  // ---- little-endian integers ----

  function Pow256(width: nat): (p: int)
    ensures p >= 1
  {
    if width == 0 then 1 else 0x100 * Pow256(width - 1)
  }

  lemma FourBytes()
    ensures Pow256(4) == TWO_TO_THE_32
  {
    assert Pow256(4) == 0x100 * Pow256(3);
    assert Pow256(2) == 0x100 * Pow256(1) == 0x1_0000;
  }

  /** The lowest `width` bytes of `n`. */
  function ToLE(n: nat, width: nat): (b: seq<byte>)
    ensures |b| == width
  {
    if width == 0 then [] else [n % 0x100] + ToLE(n / 0x100, width - 1)
  }

  function FromLE(b: seq<byte>): (n: nat) {
    if b == [] then 0 else b[0] as int + 0x100 * FromLE(b[1..])
  }

  lemma {:induction false} LERoundTrip(n: nat, width: nat)
    requires n < Pow256(width)
    ensures FromLE(ToLE(n, width)) == n
  {
    if width > 0 {
      LERoundTrip(n / 0x100, width - 1);
      assert ToLE(n, width)[1..] == ToLE(n / 0x100, width - 1);
    }
  }

  /** The least byte comes first, and the high digit of a byte before its low one. */
  lemma LeastByteFirst(n: nat, width: nat, b: byte)
    ensures width > 0 ==> ToLE(n, width) != [] && ToLE(n, width)[0] == n % 256
    ensures HexEncode([b]) == [HEX_DIGITS[b / 16], HEX_DIGITS[b % 16]]
    ensures HEX_DIGITS == "0123456789abcdef"
  {
    assert [b][1..] == [];
  }

  lemma {:induction false} FromLEInRange(b: seq<byte>)
    ensures FromLE(b) < Pow256(|b|)
    ensures ToLE(FromLE(b), |b|) == b
  {
    if b != [] {
      FromLEInRange(b[1..]);
      assert FromLE(b) / 0x100 == FromLE(b[1..]) && FromLE(b) % 0x100 == b[0];
    }
  }

  // ---- hexadecimal ----

  const HEX_DIGITS: string := "0123456789abcdef"

  /** The value of a hex digit of either case. */
  function HexValue(c: char): Option<int> {
    if '0' <= c <= '9' then Some(c as int - '0' as int)
    else if 'a' <= c <= 'f' then Some(c as int - 'a' as int + 10)
    else if 'A' <= c <= 'F' then Some(c as int - 'A' as int + 10)
    else None
  }

  predicate IsLowerDigit(c: char) {
    '0' <= c <= '9' || 'a' <= c <= 'f'
  }

  predicate IsLowerHex(s: string) {
    forall i :: 0 <= i < |s| ==> IsLowerDigit(s[i])
  }

  function HexEncode(raw: seq<byte>): string {
    if raw == [] then ""
    else [HEX_DIGITS[raw[0] / 16], HEX_DIGITS[raw[0] % 16]] + HexEncode(raw[1..])
  }

  /** `None` on an odd length or a character that is no hex digit. */
  function HexDecode(s: string): Option<seq<byte>> {
    if s == "" then Some([])
    else if |s| == 1 then None
    else
      match (HexValue(s[0]), HexValue(s[1]), HexDecode(s[2..]))
      case (Some(hi), Some(lo), Some(rest)) => Some([16 * hi + lo] + rest)
      case _ => None
  }

  lemma HexDecodeCons(hi: int, lo: int, rest: string)
    requires 0 <= hi < 16 && 0 <= lo < 16
    ensures var s := [HEX_DIGITS[hi], HEX_DIGITS[lo]] + rest;
            HexDecode(s) == if HexDecode(rest).Some? then Some([16 * hi + lo] + HexDecode(rest).value) else None
  {
    DigitRoundTrip(hi);
    DigitRoundTrip(lo);
    var s := [HEX_DIGITS[hi], HEX_DIGITS[lo]] + rest;
    assert |s| >= 2 && s[0] == HEX_DIGITS[hi] && s[1] == HEX_DIGITS[lo];
    assert s[2..] == rest;
    HexDecodeStep(s, hi, lo);
  }

  lemma HexDecodeStep(s: string, hi: int, lo: int)
    requires |s| >= 2 && HexValue(s[0]) == Some(hi) && HexValue(s[1]) == Some(lo) && 0 <= hi < 16 && 0 <= lo < 16
    ensures HexDecode(s) ==
            if HexDecode(s[2..]).Some? then Some([16 * hi + lo] + HexDecode(s[2..]).value) else None
  {
  }

  lemma {:induction false} HexRoundTrip(raw: seq<byte>)
    ensures HexDecode(HexEncode(raw)) == Some(raw)
    ensures |HexEncode(raw)| == 2 * |raw| && IsLowerHex(HexEncode(raw))
  {
    if raw != [] {
      HexRoundTrip(raw[1..]);
      HexDecodeCons(raw[0] / 16, raw[0] % 16, HexEncode(raw[1..]));
      assert raw == [raw[0]] + raw[1..];
      assert 16 * (raw[0] / 16) + raw[0] % 16 == raw[0];
      DigitRoundTrip(raw[0] / 16);
      DigitRoundTrip(raw[0] % 16);
    }
  }

  lemma DigitRoundTrip(n: int)
    requires 0 <= n < 16
    ensures HexValue(HEX_DIGITS[n]) == Some(n) && IsLowerDigit(HEX_DIGITS[n])
  {
  }

  lemma DigitUnique(c: char)
    requires HexValue(c).Some?
    ensures 0 <= HexValue(c).value < 16
    ensures HEX_DIGITS[HexValue(c).value] == c <==> IsLowerDigit(c)
  {
    if IsLowerDigit(c) {
      var n := HexValue(c).value;
      assert HEX_DIGITS[n] == if n < 10 then (n + '0' as int) as char else (n - 10 + 'a' as int) as char;
    } else {
      DigitRoundTrip(HexValue(c).value);
    }
  }

  /** Decoding accepts both cases but encoding writes lower case: the text comes back exactly
      when it was lower case. */
  lemma {:induction false} HexTextRoundTrip(s: string)
    requires HexDecode(s).Some?
    ensures |s| == 2 * |HexDecode(s).value|
    ensures HexEncode(HexDecode(s).value) == s <==> IsLowerHex(s)
  {
    if s != "" {
      var raw := HexDecode(s).value;
      var hi, lo := HexValue(s[0]).value, HexValue(s[1]).value;
      HexTextRoundTrip(s[2..]);
      DigitUnique(s[0]);
      DigitUnique(s[1]);
      assert raw[0] == 16 * hi + lo && raw[1..] == HexDecode(s[2..]).value;
      assert raw[0] / 16 == hi && raw[0] % 16 == lo;
      assert s == [s[0], s[1]] + s[2..];
      assert HexEncode(raw)[2..] == HexEncode(raw[1..]);
      assert IsLowerHex(s) <==> IsLowerDigit(s[0]) && IsLowerDigit(s[1]) && IsLowerHex(s[2..]) by {
        if IsLowerDigit(s[0]) && IsLowerDigit(s[1]) && IsLowerHex(s[2..]) {
          forall i | 0 <= i < |s| ensures IsLowerDigit(s[i]) {
            if i >= 2 { assert s[i] == s[2..][i - 2]; }
          }
        }
      }
    }
  }

  lemma HexEncodeInjective(a: seq<byte>, b: seq<byte>)
    requires HexEncode(a) == HexEncode(b)
    ensures a == b
  {
    HexRoundTrip(a);
    HexRoundTrip(b);
  }
}
