/** Base58 decoding of Solana signatures, and the replay-key preimage built from one. */
module Base58 {
  import opened Prelude
  import opened Numerals

  /** The alphabet in order of value: '1'..'9', then the letters without 'I', 'O' and 'l'. */
  function CharOf(v: nat): (c: char)
    requires v < 58
  {
    if v < 9 then ('1' as nat + v) as char
    else if v < 17 then ('A' as nat + v - 9) as char
    else if v < 22 then ('J' as nat + v - 17) as char
    else if v < 33 then ('P' as nat + v - 22) as char
    else if v < 44 then ('a' as nat + v - 33) as char
    else ('m' as nat + v - 44) as char
  }

  /** The value of a character, `None` outside the alphabet. */
  function CharValue(c: char): (v: Option<nat>)
    ensures v.Some? ==> v.value < 58 && CharOf(v.value) == c
    ensures v.None? ==> forall w :: 0 <= w < 58 ==> CharOf(w) != c
  {
    if '1' <= c <= '9' then Some(c as nat - '1' as nat)
    else if 'A' <= c <= 'H' then Some(c as nat - 'A' as nat + 9)
    else if 'J' <= c <= 'N' then Some(c as nat - 'J' as nat + 17)
    else if 'P' <= c <= 'Z' then Some(c as nat - 'P' as nat + 22)
    else if 'a' <= c <= 'k' then Some(c as nat - 'a' as nat + 33)
    else if 'm' <= c <= 'z' then Some(c as nat - 'm' as nat + 44)
    else None
  }

  lemma CharValueInverts(v: nat)
    requires v < 58
    ensures CharValue(CharOf(v)) == Some(v)
  {}

  /** The alphabet (draft-msporny-base58-03 section 2): each character stands for its position. */
  const ALPHABET := "123456789ABCDEFGH" + "JKLMNPQRSTUVWXYZ" + "abcdefghijk" + "mnopqrstuvwxyz"

  lemma AlphabetInOrder(v: nat)
    requires v < 58
    ensures |ALPHABET| == 58 && CharOf(v) == ALPHABET[v]
  {
    if v < 17 {
      assert CharOf(v) == "123456789ABCDEFGH"[v];
    } else if v < 33 {
      assert CharOf(v) == "JKLMNPQRSTUVWXYZ"[v - 17];
    } else if v < 44 {
      assert CharOf(v) == "abcdefghijk"[v - 33];
    } else {
      assert CharOf(v) == "mnopqrstuvwxyz"[v - 44];
    }
  }

  predicate OverAlphabet(s: string) { forall i :: 0 <= i < |s| ==> CharValue(s[i]).Some? }

  function Values(s: string): (r: seq<nat>)
    requires OverAlphabet(s)
    ensures |r| == |s| && InBase(58, r)
    ensures forall i :: 0 <= i < |s| ==> r[i] == CharValue(s[i]).value
  {
    seq(|s|, i requires 0 <= i < |s| => CharValue(s[i]).value)
  }

  function Chars(digits: seq<nat>): (s: string)
    requires InBase(58, digits)
    ensures |s| == |digits| && OverAlphabet(s) && Values(s) == digits
  {
    assert forall v :: 0 <= v < 58 ==> CharValue(CharOf(v)) == Some(v) by {
      forall v | 0 <= v < 58 ensures CharValue(CharOf(v)) == Some(v) { CharValueInverts(v); }
    }
    seq(|digits|, i requires 0 <= i < |digits| => CharOf(digits[i]))
  }

  function Ones(n: nat): (s: string)
    ensures |s| == n && forall i :: 0 <= i < n ==> s[i] == '1'
  {
    seq(n, _ => '1')
  }

  /** The bytes a base58 string stands for. */
  function Decoded(s: string): (r: Option<seq<byte>>) {
    if s == [] || !OverAlphabet(s) then None
    else Some(ZeroDigits(Zeros(Values(s))) + Digits(256, Val(58, Values(s))))
  }

  /** The reference encoder. */
  function Encoded(bytes: seq<byte>): (s: string) {
    Ones(Zeros(bytes)) + Chars(Digits(58, Val(256, bytes)))
  }

  /** `base58Decode`: count the leading '1's, accumulate the number, peel its bytes off the low end. */
  method Decode(input: string) returns (r: Option<seq<byte>>)
    ensures r == Decoded(input)
    ensures r.Some? <==> input != [] && OverAlphabet(input)
  {
    if |input| == 0 { return None; }
    var leadingZeros := 0;
    while leadingZeros < |input| && input[leadingZeros] == '1'
      invariant leadingZeros <= |input|
      invariant forall i :: 0 <= i < leadingZeros ==> input[i] == '1'
    {
      leadingZeros := leadingZeros + 1;
    }
    var num := Accumulate(input);
    if num.None? { return None; }
    LeadingOnes(input, leadingZeros);
    var bytes := PeelBytes(num.value);
    r := Some(ZeroDigits(leadingZeros) + bytes);
  }

  /** The character loop of `base58Decode`, which fails at the first character outside the alphabet. */
  method Accumulate(input: string) returns (num: Option<nat>)
    ensures num.Some? <==> OverAlphabet(input)
    ensures num.Some? ==> num.value == Val(58, Values(input))
  {
    var n: nat := 0;
    for i := 0 to |input|
      invariant OverAlphabet(input[..i])
      invariant n == Val(58, Values(input[..i]))
    {
      var value := CharValue(input[i]);
      if value.None? { return None; }
      assert OverAlphabet(input[..i + 1]);
      assert Values(input[..i + 1]) == Values(input[..i]) + [value.value];
      n := n * 58 + value.value;
    }
    assert input[..|input|] == input;
    num := Some(n);
  }

  /** The byte loop of `base58Decode`: each turn puts the low byte in front. */
  method PeelBytes(n: nat) returns (bytes: seq<byte>)
    ensures bytes == Digits(256, n)
    ensures Val(256, bytes) == n
  {
    bytes := [];
    var num := n;
    while num > 0
      invariant Digits(256, n) == Digits(256, num) + bytes
    {
      QuotientShrinks(num, 256);
      assert Digits(256, num) + bytes == Digits(256, num / 256) + ([num % 256] + bytes);
      bytes := [num % 256] + bytes;
      num := num / 256;
    }
    assert Digits(256, 0) + bytes == bytes;
    ValOfDigits(256, n);
  }

  lemma LeadingOnes(s: string, k: nat)
    requires OverAlphabet(s) && k <= |s|
    requires forall i :: 0 <= i < k ==> s[i] == '1'
    requires k < |s| ==> s[k] != '1'
    ensures Zeros(Values(s)) == k
  {
    forall c | CharValue(c) == Some(0) ensures c == '1' {}
    ZerosUnique(Values(s), k);
  }

  lemma PaddedChars(z: nat, digits: seq<nat>)
    requires InBase(58, digits)
    ensures OverAlphabet(Ones(z) + Chars(digits))
    ensures Values(Ones(z) + Chars(digits)) == ZeroDigits(z) + digits
  {
    var s := Ones(z) + Chars(digits);
    assert CharValue('1') == Some(0);
    forall i | 0 <= i < |s| ensures CharValue(s[i]) == Some((ZeroDigits(z) + digits)[i]) {
      if i >= z { assert Values(Chars(digits))[i - z] == digits[i - z]; }
    }
  }

  /** A string is determined by its values. */
  lemma ValuesInjective(s: string, t: string)
    requires OverAlphabet(s) && OverAlphabet(t) && Values(s) == Values(t)
    ensures s == t
  {
    forall i | 0 <= i < |s| ensures s[i] == t[i] {
      assert Values(s)[i] == Values(t)[i];
    }
  }

  /** Decoding then encoding: every non-empty string over the alphabet comes back. */
  lemma EncodeDecode(s: string)
    requires s != [] && OverAlphabet(s)
    ensures Decoded(s).Some? && Decoded(s).value != [] && Encoded(Decoded(s).value) == s
  {
    FromNumber(58, Values(s));
    ToNumber(256, Zeros(Values(s)), Val(58, Values(s)));
    var bytes := Decoded(s).value;
    PaddedChars(Zeros(bytes), Digits(58, Val(256, bytes)));
    ValuesInjective(Encoded(bytes), s);
  }

  /** Encoding then decoding: every non-empty byte string comes back, leading zeros as leading '1's. */
  lemma DecodeEncode(bytes: seq<byte>)
    requires bytes != []
    ensures Encoded(bytes) != [] && OverAlphabet(Encoded(bytes)) && Decoded(Encoded(bytes)) == Some(bytes)
  {
    FromNumber(256, bytes);
    ToNumber(58, Zeros(bytes), Val(256, bytes));
    PaddedChars(Zeros(bytes), Digits(58, Val(256, bytes)));
  }

  /** No two strings decode to the same bytes. */
  lemma DecodeInjective(s: string, t: string)
    requires Decoded(s).Some? && Decoded(s) == Decoded(t)
    ensures s == t
  {
    EncodeDecode(s);
    EncodeDecode(t);
  }

  /** What the Solana replay key hashes: the 64 signature bytes, then the line index as a u32. */
  function ReplayPreimage(signature: string, lineIndex: nat): (r: Option<seq<byte>>) {
    var bytes := Decoded(signature);
    if bytes.None? || |bytes.value| != 64 || lineIndex >= 0x1_0000_0000 then None
    else Some(bytes.value + Fixed(256, 4, lineIndex))
  }

  /** Replay preimages are 68 bytes long and name one signature and one line. */
  lemma ReplayPreimageInjective(s: string, i: nat, t: string, j: nat)
    requires ReplayPreimage(s, i).Some? && ReplayPreimage(t, j).Some?
    ensures |ReplayPreimage(s, i).value| == 68
    ensures ReplayPreimage(s, i) == ReplayPreimage(t, j) <==> s == t && i == j
  {
    var x, y := ReplayPreimage(s, i).value, ReplayPreimage(t, j).value;
    if x == y {
      assert x[..64] == Decoded(s).value && y[..64] == Decoded(t).value;
      assert x[64..] == Fixed(256, 4, i) && y[64..] == Fixed(256, 4, j);
      DecodeInjective(s, t);
      assert Pow(256, 4) == 0x1_0000_0000;
      FixedInjective(256, 4, i, j);
    }
  }

  /** The 68 bytes: those the signature is base58 for, then the line's number as a big-endian u32. */
  lemma ReplayPreimageLayout(signature: string, lineIndex: nat)
    ensures ReplayPreimage(signature, lineIndex).Some? <==>
              lineIndex < 4_294_967_296 && exists bytes: seq<byte> :: |bytes| == 64 && Encoded(bytes) == signature
    ensures ReplayPreimage(signature, lineIndex).Some? ==>
              var p := ReplayPreimage(signature, lineIndex).value;
              |p| == 68 && Encoded(p[..64]) == signature && Val(256, p[64..]) == lineIndex
  {
    if ReplayPreimage(signature, lineIndex).Some? {
      var bytes := Decoded(signature).value;
      EncodeDecode(signature);
      assert ReplayPreimage(signature, lineIndex).value[..64] == bytes;
      assert ReplayPreimage(signature, lineIndex).value[64..] == Fixed(256, 4, lineIndex);
      assert Pow(256, 4) == 0x1_0000_0000;
      ValOfFixed(256, 4, lineIndex);
    }
    if bytes: seq<byte> :| |bytes| == 64 && Encoded(bytes) == signature { DecodeEncode(bytes); }
  }
}
