/** Hexadecimal text, read the way Node's `Buffer.from(s, 'hex')` reads it. */
module Hex {
  import opened Prelude
  import opened Numerals

  function HexValue(c: char): (v: Option<nat>)
    ensures v.Some? ==> v.value < 16
  {
    if '0' <= c <= '9' then Some(c as nat - '0' as nat)
    else if 'a' <= c <= 'f' then Some(c as nat - 'a' as nat + 10)
    else if 'A' <= c <= 'F' then Some(c as nat - 'A' as nat + 10)
    else None
  }

  predicate AllHex(s: string) { forall i {:trigger HexValue(s[i])} :: 0 <= i < |s| ==> HexValue(s[i]).Some? }

  function HexDigits(s: string): (r: seq<nat>)
    requires AllHex(s)
    ensures |r| == |s| && InBase(16, r)
    ensures forall i :: 0 <= i < |s| ==> r[i] == HexValue(s[i]).value
  {
    seq(|s|, i requires 0 <= i < |s| => HexValue(s[i]).value)
  }

  /** Whole pairs of hex digits from the front; the first pair that is not one ends the text. */
  function FromHex(s: string): (r: seq<byte>)
    ensures |r| <= |s| / 2
    ensures AllHex(s) ==> |r| == |s| / 2
  {
    if |s| < 2 || HexValue(s[0]).None? || HexValue(s[1]).None? then []
    else
      assert AllHex(s) ==> AllHex(s[2..]);
      [HexValue(s[0]).value * 16 + HexValue(s[1]).value] + FromHex(s[2..])
  }

  /** A text of even length is read to its end exactly when it is all hex. */
  lemma {:induction false} WholeIffHex(s: string)
    requires |s| % 2 == 0
    ensures |FromHex(s)| == |s| / 2 <==> AllHex(s)
  {
    if s != [] {
      WholeIffHex(s[2..]);
      if |FromHex(s)| == |s| / 2 {
        forall i | 0 <= i < |s| ensures HexValue(s[i]).Some? {
          if i >= 2 { assert HexValue(s[2..][i - 2]).Some?; }
        }
      }
    }
  }

  function HexChar(v: nat): (c: char)
    requires v < 16
    ensures HexValue(c) == Some(v)
  {
    if v < 10 then ('0' as nat + v) as char else ('a' as nat + v - 10) as char
  }

  /** Lower-case hex text, two characters a byte. */
  function ToHex(bytes: seq<byte>): (s: string)
    ensures |s| == 2 * |bytes| && AllHex(s)
  {
    if bytes == [] then []
    else [HexChar(bytes[0] / 16), HexChar(bytes[0] % 16)] + ToHex(bytes[1..])
  }

  lemma {:induction false} FromToHex(bytes: seq<byte>)
    ensures FromHex(ToHex(bytes)) == bytes
  {
    if bytes != [] {
      FromToHex(bytes[1..]);
      assert ToHex(bytes)[2..] == ToHex(bytes[1..]);
    }
  }

  /** Hex texts of whole bytes decode alike exactly when their digits agree, whatever their case. */
  lemma {:induction false} FromHexInjective(s: string, t: string)
    requires AllHex(s) && AllHex(t) && |s| == |t| && |s| % 2 == 0
    ensures FromHex(s) == FromHex(t) <==> HexDigits(s) == HexDigits(t)
  {
    if s != [] {
      FromHexInjective(s[2..], t[2..]);
      var a, b := HexDigits(s), HexDigits(t);
      assert a == [a[0], a[1]] + HexDigits(s[2..]) && b == [b[0], b[1]] + HexDigits(t[2..]);
      assert FromHex(s)[0] == a[0] * 16 + a[1] && FromHex(t)[0] == b[0] * 16 + b[1];
      assert FromHex(s)[1..] == FromHex(s[2..]) && FromHex(t)[1..] == FromHex(t[2..]);
      assert FromHex(s) == FromHex(t) <==> FromHex(s)[0] == FromHex(t)[0] && FromHex(s)[1..] == FromHex(t)[1..];
      assert a == b <==> a[0] == b[0] && a[1] == b[1] && a[2..] == b[2..];
      assert a[2..] == HexDigits(s[2..]) && b[2..] == HexDigits(t[2..]);
    }
  }

  // ---- Digit by digit ---------------------------------------------------------------------

  const LOWER_DIGITS := "0123456789abcdef"
  const UPPER_DIGITS := "0123456789ABCDEF"

  /** `c` is the hex digit for `v`, in either case. */
  predicate IsDigit(c: char, v: nat) { v < 16 && (c == LOWER_DIGITS[v] || c == UPPER_DIGITS[v]) }

  lemma HexValueIsDigit(c: char, v: nat)
    ensures HexValue(c) == Some(v) <==> IsDigit(c, v)
  {}

  lemma HexCharIsLower(v: nat)
    requires v < 16
    ensures HexChar(v) == LOWER_DIGITS[v]
  {}

  /** Two digits and the byte they stand for. */
  predicate StandForByte(high: char, low: char, b: byte) { IsDigit(high, b / 16) && IsDigit(low, b % 16) }

  lemma HighAndLow(high: nat, low: nat)
    requires high < 16 && low < 16
    ensures (high * 16 + low) / 16 == high && (high * 16 + low) % 16 == low
  {}

  lemma PairStands(a: char, b: char)
    requires HexValue(a).Some? && HexValue(b).Some?
    ensures StandForByte(a, b, HexValue(a).value * 16 + HexValue(b).value)
  {
    HexValueIsDigit(a, HexValue(a).value);
    HexValueIsDigit(b, HexValue(b).value);
    HighAndLow(HexValue(a).value, HexValue(b).value);
  }

  lemma FirstPair(s: string)
    requires AllHex(s) && |s| >= 2
    ensures FromHex(s) == [HexValue(s[0]).value * 16 + HexValue(s[1]).value] + FromHex(s[2..])
    ensures AllHex(s[2..])
  {}

  /** Each byte read from hex text is the value of its two digits. */
  lemma {:induction false} FromHexAt(s: string, i: nat)
    requires AllHex(s) && 2 * i + 1 < |s|
    ensures i < |FromHex(s)| && StandForByte(s[2 * i], s[2 * i + 1], FromHex(s)[i])
  {
    FirstPair(s);
    if i == 0 {
      PairStands(s[0], s[1]);
    } else {
      FromHexAt(s[2..], i - 1);
      assert s[2..][2 * (i - 1)] == s[2 * i] && s[2..][2 * (i - 1) + 1] == s[2 * i + 1];
      assert FromHex(s)[i] == FromHex(s[2..])[i - 1];
    }
  }

  /** Each byte is written as two lower-case digits. */
  lemma {:induction false} ToHexAt(bytes: seq<byte>, i: nat)
    requires i < |bytes|
    ensures ToHex(bytes)[2 * i] == LOWER_DIGITS[bytes[i] / 16] && ToHex(bytes)[2 * i + 1] == LOWER_DIGITS[bytes[i] % 16]
  {
    HexCharIsLower(bytes[0] / 16);
    HexCharIsLower(bytes[0] % 16);
    if i > 0 { ToHexAt(bytes[1..], i - 1); }
  }

  lemma ToHexInjective(a: seq<byte>, b: seq<byte>)
    ensures ToHex(a) == ToHex(b) <==> a == b
  {
    FromToHex(a);
    FromToHex(b);
  }
}
