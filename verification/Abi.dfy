/**
 Decoding a `BridgeFund` log: `abi.encode(string target, string asset, uint256 amount)` as hex text.
 Offsets and lengths are exact integers here. The JavaScript numbers they stand for are exact up to
 2^53, and anything larger is beyond the end of any text, where both readings reject.
 */
module Abi {
  import opened Prelude
  import opened Numerals
  import opened Hex

  // ---- parseInt(s, 16) and BigInt('0x' + s) ------------------------------------------------

  /** The white space JavaScript skips at the ends of a number. */
  predicate IsSpace(c: char) {
    var n := c as nat;
    || 9 <= n <= 13 || n == 32 || n == 0xA0 || n == 0x1680 || 0x2000 <= n <= 0x200A
    || n == 0x2028 || n == 0x2029 || n == 0x202F || n == 0x205F || n == 0x3000 || n == 0xFEFF
  }

  function TrimLeft(s: string): (r: string)
    ensures |r| <= |s|
  {
    if s != [] && IsSpace(s[0]) then TrimLeft(s[1..]) else s
  }

  function TrimRight(s: string): (r: string)
    ensures |r| <= |s|
  {
    if s != [] && IsSpace(s[|s| - 1]) then TrimRight(s[..|s| - 1]) else s
  }

  /** The longest prefix of hex digits. */
  function HexPrefix(s: string): (r: string)
    ensures AllHex(r) && |r| <= |s|
  {
    if s == [] || HexValue(s[0]).None? then [] else [s[0]] + HexPrefix(s[1..])
  }

  function Unsigned(t: string): (u: string) { if t != [] && (t[0] == '-' || t[0] == '+') then t[1..] else t }

  function WithoutRadix(u: string): (v: string) {
    if |u| >= 2 && u[0] == '0' && (u[1] == 'x' || u[1] == 'X') then u[2..] else u
  }

  function ParseTrimmed(t: string): (r: Option<int>) {
    var digits := HexPrefix(WithoutRadix(Unsigned(t)));
    if digits == [] then None
    else
      var n: int := Val(16, HexDigits(digits));
      Some(if t != [] && t[0] == '-' then -n else n)
  }

  /** `parseInt(s, 16)`: `None` is NaN. */
  function ParseHexInt(s: string): (r: Option<int>) { ParseTrimmed(TrimLeft(s)) }

  /** `BigInt('0x' + s)`: `None` is a SyntaxError. */
  function ParseHexBig(s: string): (r: Option<nat>) {
    var t := TrimRight(s);
    if t == [] || !AllHex(t) then None else Some(Val(16, HexDigits(t)))
  }

  /** JavaScript's `slice` for a start that is not negative: out-of-range ends are clipped. */
  function Slice(s: string, from: nat, to: int): (r: string) {
    var end := if to > |s| then |s| else if to < 0 then (if |s| + to < 0 then 0 else |s| + to) else to;
    if from >= end then [] else s[from..end]
  }

  // ---- The decoder ------------------------------------------------------------------------

  datatype Deposit = Deposit(target: seq<byte>, asset: seq<byte>, amount: nat)

  function Word(data: string, n: nat): (w: string) { Slice(data, n * 64, (n + 1) * 64) }

  /** How number words are read; `DecodeData` reads them the way JavaScript does. */
  datatype Parsers = Parsers(word: string -> Option<int>, amount: string -> Option<nat>)

  const JS_PARSERS := Parsers(s => ParseHexInt(s), s => ParseHexBig(s))

  /** A length word at a hex offset, then that many bytes. */
  function StringAt(parse: Parsers, data: string, offset: int): (r: Option<seq<byte>>) {
    if offset < 0 || offset + 64 > |data| then None
    else
      var len := parse.word(Slice(data, offset, offset + 64));
      if len.None? then None
      else
        var text := Slice(data, offset + 64, offset + 64 + len.value * 2);
        if |text| != len.value * 2 then None else Some(FromHex(text))
  }

  /** The deposit that three head words make of the strings at their offsets. */
  function DepositOf(targetWord: Option<int>, assetWord: Option<int>, amountHex: string, amount: Option<nat>,
                     stringAt: int -> Option<seq<byte>>): (r: Option<Deposit>)
  {
    if targetWord.None? || assetWord.None? || |amountHex| != 64 then None
    else
      var target, asset := stringAt(targetWord.value * 2), stringAt(assetWord.value * 2);
      if target.None? || asset.None? || amount.None? then None
      else Some(Deposit(target.value, asset.value, amount.value))
  }

  function DepositIn(parse: Parsers, data: string): (r: Option<Deposit>) {
    if |data| < 64 * 3 then None
    else
      DepositOf(parse.word(Word(data, 0)), parse.word(Word(data, 1)), Word(data, 2), parse.amount(Word(data, 2)),
                (offset: int) => StringAt(parse, data, offset))
  }

  /** The data part of `decode`, after the `0x` prefix has been stripped. */
  function DecodeData(data: string): (r: Option<Deposit>) { DepositIn(JS_PARSERS, data) }

  // ---- The encoding -----------------------------------------------------------------------

  /** The 64 hex digits of a uint256. */
  function Uint256(n: nat): (s: string)
    ensures |s| == 64 && AllHex(s) && HexDigits(s) == Fixed(16, 64, n)
  {
    var digits := Fixed(16, 64, n);
    seq(64, i requires 0 <= i < 64 => HexChar(digits[i]))
  }

  function Padding(bytes: nat): (n: nat)
    ensures n < 32 && (bytes + n) % 32 == 0
  {
    (32 - bytes % 32) % 32
  }

  function ZeroText(n: nat): (s: string)
    ensures |s| == n && AllHex(s)
  {
    seq(n, _ => '0')
  }

  /** The tail of a string: its length, its bytes, and zeros up to a whole word. */
  function Tail(bytes: seq<byte>): (s: string)
    ensures |s| == 2 * (32 + |bytes| + Padding(|bytes|))
  {
    Uint256(|bytes|) + ToHex(bytes) + ZeroText(2 * Padding(|bytes|))
  }

  /** Where the asset's tail starts, in bytes. */
  function AssetOffset(d: Deposit): (n: nat)
    ensures 2 * n == 192 + |Tail(d.target)|
  {
    96 + 32 + |d.target| + Padding(|d.target|)
  }

  /** The offsets of the two strings, and the amount. */
  function Heads(d: Deposit): (s: string)
    ensures |s| == 192
  {
    Uint256(96) + Uint256(AssetOffset(d)) + Uint256(d.amount)
  }

  /** Heads, then tails. */
  function EncodeData(d: Deposit): (s: string) { Heads(d) + Tail(d.target) + Tail(d.asset) }

  const TWO_TO_256: nat := 0x1_0000_0000_0000_0000_0000_0000_0000_0000_0000_0000_0000_0000_0000_0000_0000_0000

  /** The deposit's numbers fit the words that carry them. */
  predicate FitsWords(d: Deposit) {
    d.amount < TWO_TO_256 && |d.target| < TWO_TO_256 && |d.asset| < TWO_TO_256 && AssetOffset(d) < TWO_TO_256
  }

  lemma {:induction false} HexPrefixOfHex(s: string)
    requires AllHex(s)
    ensures HexPrefix(s) == s
  {
    if s != [] {
      assert AllHex(s[1..]);
      HexPrefixOfHex(s[1..]);
    }
  }

  lemma HexIsNotSpace(c: char)
    requires HexValue(c).Some?
    ensures !IsSpace(c) && c != '-' && c != '+' && c != 'x' && c != 'X'
  {}

  lemma PowersOf16(k: nat)
    requires k == 64
    ensures Pow(16, k) == TWO_TO_256
  {
    PowSplit(16, 16, 16);
    PowSplit(16, 32, 32);
    assert Pow(16, 8) == 0x1_0000_0000;
    PowSplit(16, 8, 8);
  }

  lemma {:induction false} PowSplit(base: nat, j: nat, k: nat)
    ensures Pow(base, j + k) == Pow(base, j) * Pow(base, k)
  {
    if j > 0 {
      PowSplit(base, j - 1, k);
      assert base * (Pow(base, j - 1) * Pow(base, k)) == (base * Pow(base, j - 1)) * Pow(base, k);
    }
  }

  /** A word reads back as the number it was written for, with either parser. */
  lemma ParseUint256(n: nat)
    requires n < TWO_TO_256
    ensures ParseHexInt(Uint256(n)) == Some(n) && ParseHexBig(Uint256(n)) == Some(n)
  {
    var s := Uint256(n);
    HexIsNotSpace(s[0]);
    HexIsNotSpace(s[1]);
    HexIsNotSpace(s[63]);
    HexPrefixOfHex(s);
    PowersOf16(64);
    ValOfFixed(16, 64, n);
  }

  lemma SliceMiddle(a: string, b: string, c: string)
    ensures Slice(a + b + c, |a|, |a| + |b|) == b
  {
    if b != [] { assert (a + b + c)[|a|..|a| + |b|] == b; }
  }

  lemma StringFromParts(parse: Parsers, data: string, offset: nat, bytes: seq<byte>, text: string)
    requires offset + 64 <= |data|
    requires parse.word(Slice(data, offset, offset + 64)) == Some(|bytes|)
    requires Slice(data, offset + 64, offset + 64 + 2 * |bytes|) == text
    requires |text| == 2 * |bytes| && FromHex(text) == bytes
    ensures StringAt(parse, data, offset) == Some(bytes)
  {}

  lemma Regroup(before: string, len: string, text: string, zeros: string, after: string)
    ensures before + (len + text + zeros) + after == before + len + (text + (zeros + after))
    ensures before + (len + text + zeros) + after == (before + len) + text + (zeros + after)
  {}

  /** A tail decodes to its bytes wherever it stands in the data. */
  lemma DecodeTail(data: string, before: string, bytes: seq<byte>, after: string)
    requires data == before + Tail(bytes) + after && |bytes| < TWO_TO_256
    ensures StringAt(JS_PARSERS, data, |before|) == Some(bytes)
  {
    var len, text, zeros := Uint256(|bytes|), ToHex(bytes), ZeroText(2 * Padding(|bytes|));
    Regroup(before, len, text, zeros, after);
    SliceMiddle(before, len, text + (zeros + after));
    SliceMiddle(before + len, text, zeros + after);
    ParseUint256(|bytes|);
    FromToHex(bytes);
    StringFromParts(JS_PARSERS, data, |before|, bytes, text);
  }

  /** The three head words of an encoding read back as they were written. */
  lemma HeadWords(a: string, b: string, c: string, rest: string, data: string)
    requires |a| == 64 && |b| == 64 && |c| == 64 && data == a + b + c + rest
    ensures Word(data, 0) == a && Word(data, 1) == b && Word(data, 2) == c
  {
    assert data == [] + a + (b + c + rest);
    SliceMiddle([], a, b + c + rest);
    assert data == a + b + (c + rest);
    SliceMiddle(a, b, c + rest);
    assert data == (a + b) + c + rest;
    SliceMiddle(a + b, c, rest);
  }

  lemma DecodeLastTail(data: string, before: string, bytes: seq<byte>)
    requires data == before + Tail(bytes) && |bytes| < TWO_TO_256
    ensures StringAt(JS_PARSERS, data, |before|) == Some(bytes)
  {
    var tail := Tail(bytes);
    AppendNothing(before + tail);
    DecodeTail(data, before, bytes, "");
  }

  lemma AppendNothing(s: string)
    ensures s + "" == s
  {}

  lemma HeadsDecode(d: Deposit, rest: string, data: string)
    requires FitsWords(d) && data == Heads(d) + rest
    ensures ParseHexInt(Word(data, 0)) == Some(96)
    ensures ParseHexInt(Word(data, 1)) == Some(AssetOffset(d))
    ensures |Word(data, 2)| == 64 && ParseHexBig(Word(data, 2)) == Some(d.amount)
  {
    HeadWords(Uint256(96), Uint256(AssetOffset(d)), Uint256(d.amount), rest, data);
    ParseUint256(96);
    ParseUint256(AssetOffset(d));
    ParseUint256(d.amount);
  }

  lemma DepositOfParts(targetWord: Option<int>, assetWord: Option<int>, amountHex: string, amount: Option<nat>,
                           stringAt: int -> Option<seq<byte>>, d: Deposit, targetAt: nat, assetAt: nat)
    requires targetWord == Some(targetAt) && assetWord == Some(assetAt) && |amountHex| == 64 && amount == Some(d.amount)
    requires stringAt(2 * targetAt) == Some(d.target) && stringAt(2 * assetAt) == Some(d.asset)
    ensures DepositOf(targetWord, assetWord, amountHex, amount, stringAt) == Some(d)
  {}

  lemma DepositFromParts(parse: Parsers, data: string, d: Deposit, targetAt: nat, assetAt: nat)
    requires |data| >= 192 && |Word(data, 2)| == 64
    requires parse.word(Word(data, 0)) == Some(targetAt) && parse.word(Word(data, 1)) == Some(assetAt)
    requires parse.amount(Word(data, 2)) == Some(d.amount)
    requires StringAt(parse, data, 2 * targetAt) == Some(d.target)
    requires StringAt(parse, data, 2 * assetAt) == Some(d.asset)
    ensures DepositIn(parse, data) == Some(d)
  {
    DepositOfParts(parse.word(Word(data, 0)), parse.word(Word(data, 1)), Word(data, 2), parse.amount(Word(data, 2)),
                       (offset: int) => StringAt(parse, data, offset), d, targetAt, assetAt);
  }

  /** Round trip: any deposit whose numbers fit their words is decoded from its encoding unchanged. */
  lemma DecodeEncode(d: Deposit)
    requires FitsWords(d)
    ensures DecodeData(EncodeData(d)) == Some(d)
  {
    var data, tails := EncodeData(d), Tail(d.target) + Tail(d.asset);
    AppendTwice(Heads(d), Tail(d.target), Tail(d.asset));
    HeadsDecode(d, tails, data);
    DecodeTail(data, Heads(d), d.target, Tail(d.asset));
    DecodeLastTail(data, Heads(d) + Tail(d.target), d.asset);
    DepositFromParts(JS_PARSERS, data, d, 96, AssetOffset(d));
  }

  lemma AppendTwice(a: string, b: string, c: string)
    ensures a + b + c == a + (b + c)
  {}

  /** Deposits that fit have the same encoding only if they are the same. */
  lemma EncodeInjective(d: Deposit, e: Deposit)
    requires FitsWords(d) && FitsWords(e)
    ensures EncodeData(d) == EncodeData(e) <==> d == e
  {
    DecodeEncode(d);
    DecodeEncode(e);
  }

  // ---- The replay key ---------------------------------------------------------------------

  /** What the Ethereum replay key hashes; `None` where `decode` rejects the log's own coordinates. */
  function ReplayPreimage(transactionHash: string, logIndex: int): (r: Option<seq<byte>>) {
    if !("0x" <= transactionHash && |transactionHash| == 66) then None
    else if !(0 <= logIndex < 0x1_0000_0000) then None
    else Some(FromHex(transactionHash[2..]) + Fixed(256, 4, logIndex))
  }

  /** What stands before the last four bytes, and these, can be told apart. */
  lemma SplitLastFour(a: seq<byte>, x: seq<byte>, b: seq<byte>, y: seq<byte>)
    requires |x| == 4 && |y| == 4
    ensures a + x == b + y <==> a == b && x == y
  {
    if a + x == b + y {
      assert |a| == |b|;
      assert (a + x)[..|a|] == a && (b + y)[..|b|] == b;
      assert (a + x)[|a|..] == x && (b + y)[|b|..] == y;
    }
  }

  /**
   Preimages agree exactly when the bytes read from the transaction hashes do and the log indices do. A
   hash that is hex text gives 36 bytes that name one transaction; of any other hash, which the decoder
   accepts too, only the hex pairs in front count.
   */
  lemma ReplayPreimageInjective(s: string, i: int, t: string, j: int)
    requires ReplayPreimage(s, i).Some? && ReplayPreimage(t, j).Some?
    ensures ReplayPreimage(s, i) == ReplayPreimage(t, j) <==> FromHex(s[2..]) == FromHex(t[2..]) && i == j
    ensures AllHex(s[2..]) <==> |ReplayPreimage(s, i).value| == 36
    ensures AllHex(s[2..]) && AllHex(t[2..]) ==>
              (ReplayPreimage(s, i) == ReplayPreimage(t, j) <==> HexDigits(s[2..]) == HexDigits(t[2..]) && i == j)
  {
    SplitLastFour(FromHex(s[2..]), Fixed(256, 4, i), FromHex(t[2..]), Fixed(256, 4, j));
    assert Pow(256, 4) == 0x1_0000_0000;
    FixedInjective(256, 4, i, j);
    WholeIffHex(s[2..]);
    if AllHex(s[2..]) && AllHex(t[2..]) { FromHexInjective(s[2..], t[2..]); }
  }

  /**
   The bytes: those read from the transaction hash, which are 32 for hex text, each for two digits, then the
   log index as a big-endian u32. There are none for a hash that is not `0x` and 64 characters, or an index
   that is no u32.
   */
  lemma ReplayPreimageLayout(hash: string, logIndex: int)
    ensures ReplayPreimage(hash, logIndex).Some? <==>
              |hash| == 66 && hash[0] == '0' && hash[1] == 'x' && 0 <= logIndex < 4_294_967_296
    ensures ReplayPreimage(hash, logIndex).Some? ==>
              var p := ReplayPreimage(hash, logIndex).value;
              && |p| >= 4 && p[..|p| - 4] == FromHex(hash[2..]) && Val(256, p[|p| - 4..]) == logIndex
              && (AllHex(hash[2..]) ==>
                    |p| == 36 && forall i :: 0 <= i < 32 ==> StandForByte(hash[2..][2 * i], hash[2..][2 * i + 1], p[i]))
  {
    if ReplayPreimage(hash, logIndex).Some? {
      var p := ReplayPreimage(hash, logIndex).value;
      assert p[..|p| - 4] == FromHex(hash[2..]) && p[|p| - 4..] == Fixed(256, 4, logIndex);
      assert Pow(256, 4) == 0x1_0000_0000;
      ValOfFixed(256, 4, logIndex);
      if AllHex(hash[2..]) {
        forall i | 0 <= i < 32 ensures StandForByte(hash[2..][2 * i], hash[2..][2 * i + 1], p[i]) {
          FromHexAt(hash[2..], i);
        }
      }
    }
  }

  lemma SliceFits(s: string, from: nat, to: int)
    requires from <= |s| && |Slice(s, from, to)| == to - from
    ensures from <= to <= |s|
  {}

  /** Whatever the data, the text its length word announces lies inside it: nothing past the end is read. */
  lemma DecodedStringIsInside(parse: Parsers, data: string, offset: int)
    requires StringAt(parse, data, offset).Some?
    ensures 0 <= offset && offset + 64 <= |data|
    ensures var len := parse.word(Slice(data, offset, offset + 64));
            && len.Some? && 0 <= len.value && offset + 64 + 2 * len.value <= |data|
            && |StringAt(parse, data, offset).value| <= len.value
            && (AllHex(data) ==> |StringAt(parse, data, offset).value| == len.value)
  {
    var len := parse.word(Slice(data, offset, offset + 64)).value;
    SliceFits(data, offset + 64, offset + 64 + len * 2);
    if AllHex(data) {
      var text := Slice(data, offset + 64, offset + 64 + len * 2);
      forall i | 0 <= i < |text| ensures HexValue(text[i]).Some? {
        assert HexValue(data[offset + 64 + i]).Some?;
      }
    }
  }

  // ---- Any hex data -----------------------------------------------------------------------

  /** A word of hex digits reads as its value, with either parser. */
  lemma ParseHexWord(word: string)
    requires |word| == 64 && AllHex(word)
    ensures ParseHexInt(word) == Some(Val(16, HexDigits(word))) && ParseHexBig(word) == Some(Val(16, HexDigits(word)))
  {
    HexIsNotSpace(word[0]);
    HexIsNotSpace(word[1]);
    HexIsNotSpace(word[63]);
    HexPrefixOfHex(word);
  }

  /** `bytes` are what the digits of `text` stand for, two by two. */
  predicate Spells(text: string, bytes: seq<byte>) {
    |text| == 2 * |bytes| && forall i :: 0 <= i < |bytes| ==> StandForByte(text[2 * i], text[2 * i + 1], bytes[i])
  }

  lemma SameByte(high: char, low: char, a: byte, b: byte)
    requires StandForByte(high, low, a) && StandForByte(high, low, b)
    ensures a == b
  {
    HexValueIsDigit(high, a / 16);
    HexValueIsDigit(high, b / 16);
    HexValueIsDigit(low, a % 16);
    HexValueIsDigit(low, b % 16);
  }

  lemma ReadSpells(text: string)
    requires AllHex(text) && |text| % 2 == 0
    ensures Spells(text, FromHex(text))
  {
    forall i | 0 <= i < |FromHex(text)| ensures StandForByte(text[2 * i], text[2 * i + 1], FromHex(text)[i]) {
      FromHexAt(text, i);
    }
  }

  lemma SpellsOnce(text: string, a: seq<byte>, b: seq<byte>)
    requires Spells(text, a) && Spells(text, b)
    ensures a == b
  {
    forall i | 0 <= i < |a| ensures a[i] == b[i] { SameByte(text[2 * i], text[2 * i + 1], a[i], b[i]); }
  }

  lemma HexTextSpells(text: string, bytes: seq<byte>)
    requires AllHex(text) && |text| % 2 == 0
    ensures FromHex(text) == bytes <==> Spells(text, bytes)
  {
    ReadSpells(text);
    if Spells(text, bytes) { SpellsOnce(text, FromHex(text), bytes); }
  }

  lemma SubHex(s: string, lo: nat, hi: nat)
    requires AllHex(s) && lo <= hi <= |s|
    ensures AllHex(s[lo..hi])
  {
    forall i | 0 <= i < hi - lo ensures HexValue(s[lo..hi][i]).Some? { assert HexValue(s[lo + i]).Some?; }
  }

  /** The number in the 64 digits from `at` on. */
  function WordAt(data: string, at: nat): (n: nat)
    requires AllHex(data) && at + 64 <= |data|
  {
    SubHex(data, at, at + 64);
    Val(16, HexDigits(data[at..at + 64]))
  }

  /** At digit `at` stands a length, and behind it as many bytes, which are `bytes`. */
  predicate StringStandsAt(data: string, at: nat, bytes: seq<byte>)
    requires AllHex(data)
  {
    && at + 64 + 2 * |bytes| <= |data|
    && WordAt(data, at) == |bytes|
    && Spells(data[at + 64..at + 64 + 2 * |bytes|], bytes)
  }

  lemma StringAtReads(parse: Parsers, data: string, at: nat, len: nat)
    requires at + 64 <= |data| && parse.word(Slice(data, at, at + 64)) == Some(len)
    ensures StringAt(parse, data, at) ==
            if at + 64 + 2 * len <= |data| then Some(FromHex(data[at + 64..at + 64 + 2 * len])) else None
  {}

  lemma HexWordAt(data: string, at: nat)
    requires AllHex(data) && at + 64 <= |data|
    ensures ParseHexInt(Slice(data, at, at + 64)) == Some(WordAt(data, at))
    ensures ParseHexBig(Slice(data, at, at + 64)) == Some(WordAt(data, at))
  {
    SubHex(data, at, at + 64);
    ParseHexWord(data[at..at + 64]);
  }

  lemma TextStands(data: string, at: nat, len: nat, bytes: seq<byte>)
    requires AllHex(data) && at + 64 <= |data| && len == WordAt(data, at)
    ensures at + 64 + 2 * len <= |data| && FromHex(data[at + 64..at + 64 + 2 * len]) == bytes <==>
            StringStandsAt(data, at, bytes)
  {
    if at + 64 + 2 * len <= |data| {
      var text := data[at + 64..at + 64 + 2 * len];
      SubHex(data, at + 64, at + 64 + 2 * len);
      HexTextSpells(text, bytes);
      assert |FromHex(text)| == len;
    }
  }

  /** A string that starts too late to have a length is not there. */
  lemma NoRoomForLength(parse: Parsers, data: string, at: nat, bytes: seq<byte>)
    requires AllHex(data) && at + 64 > |data|
    ensures StringAt(parse, data, at) == None && !StringStandsAt(data, at, bytes)
  {}

  lemma SameReading(read: Option<seq<byte>>, fits: bool, text: seq<byte>, bytes: seq<byte>)
    requires read == if fits then Some(text) else None
    ensures read == Some(bytes) <==> fits && text == bytes
  {}

  lemma StringAtStands(data: string, at: nat, bytes: seq<byte>)
    requires AllHex(data)
    ensures StringAt(JS_PARSERS, data, at) == Some(bytes) <==> StringStandsAt(data, at, bytes)
  {
    if at + 64 <= |data| {
      var len := WordAt(data, at);
      var fits := at + 64 + 2 * len <= |data|;
      HexWordAt(data, at);
      StringAtReads(JS_PARSERS, data, at, len);
      TextStands(data, at, len, bytes);
      SameReading(StringAt(JS_PARSERS, data, at), fits,
                  if fits then FromHex(data[at + 64..at + 64 + 2 * len]) else [], bytes);
    } else {
      NoRoomForLength(JS_PARSERS, data, at, bytes);
    }
  }

  lemma DepositReads(parse: Parsers, data: string, targetAt: nat, assetAt: nat, amount: nat, d: Deposit)
    requires |data| >= 192 && |Word(data, 2)| == 64
    requires parse.word(Word(data, 0)) == Some(targetAt) && parse.word(Word(data, 1)) == Some(assetAt)
    requires parse.amount(Word(data, 2)) == Some(amount)
    ensures DepositIn(parse, data) == Some(d) <==>
              && StringAt(parse, data, 2 * targetAt) == Some(d.target)
              && StringAt(parse, data, 2 * assetAt) == Some(d.asset)
              && d.amount == amount
  {
    PartsOfDeposit(parse.word(Word(data, 0)), parse.word(Word(data, 1)), Word(data, 2), parse.amount(Word(data, 2)),
                   (offset: int) => StringAt(parse, data, offset), targetAt, assetAt, amount, d);
  }

  lemma PartsOfDeposit(targetWord: Option<int>, assetWord: Option<int>, amountHex: string, amountRead: Option<nat>,
                       stringAt: int -> Option<seq<byte>>, targetAt: nat, assetAt: nat, amount: nat, d: Deposit)
    requires targetWord == Some(targetAt) && assetWord == Some(assetAt)
    requires |amountHex| == 64 && amountRead == Some(amount)
    ensures DepositOf(targetWord, assetWord, amountHex, amountRead, stringAt) == Some(d) <==>
              stringAt(2 * targetAt) == Some(d.target) && stringAt(2 * assetAt) == Some(d.asset) && d.amount == amount
  {}

  /**
   What any hex data decodes to: there have to be three words; the first two are the byte offsets of two
   strings that lie inside the data, and the third is the amount.
   */
  lemma HexDataDecodes(data: string, d: Deposit)
    requires AllHex(data)
    ensures DecodeData(data) == Some(d) <==>
              && |data| >= 192
              && StringStandsAt(data, 2 * WordAt(data, 0), d.target)
              && StringStandsAt(data, 2 * WordAt(data, 64), d.asset)
              && d.amount == WordAt(data, 128)
  {
    if |data| >= 192 {
      HexWordAt(data, 0);
      HexWordAt(data, 64);
      HexWordAt(data, 128);
      StringAtStands(data, 2 * WordAt(data, 0), d.target);
      StringAtStands(data, 2 * WordAt(data, 64), d.asset);
      WordsAreSlices(data);
      DepositReads(JS_PARSERS, data, WordAt(data, 0), WordAt(data, 64), WordAt(data, 128), d);
    }
  }

  lemma WordsAreSlices(data: string)
    requires |data| >= 192
    ensures Word(data, 0) == Slice(data, 0, 64) && Word(data, 1) == Slice(data, 64, 128)
    ensures Word(data, 2) == Slice(data, 128, 192) && |Word(data, 2)| == 64
  {}

  // ---- Words that are not plain hex -------------------------------------------------------

  predicate AllSpace(s: string) { forall i :: 0 <= i < |s| ==> IsSpace(s[i]) }

  lemma {:induction false} TrimLeftSkips(space: string, s: string)
    requires AllSpace(space) && (s != "" ==> !IsSpace(s[0]))
    ensures TrimLeft(space + s) == s
  {
    if space == "" {
      assert space + s == s;
    } else {
      assert (space + s)[1..] == space[1..] + s;
      TrimLeftSkips(space[1..], s);
    }
  }

  lemma {:induction false} TrimRightSkips(s: string, space: string)
    requires AllSpace(space) && (s != "" ==> !IsSpace(s[|s| - 1]))
    ensures TrimRight(s + space) == s
  {
    if space == "" {
      assert s + space == s;
    } else {
      assert (s + space)[..|s + space| - 1] == s + space[..|space| - 1];
      TrimRightSkips(s, space[..|space| - 1]);
    }
  }

  lemma {:induction false} HexPrefixStops(digits: string, rest: string)
    requires AllHex(digits) && (rest != "" ==> HexValue(rest[0]).None?)
    ensures HexPrefix(digits + rest) == digits
  {
    if digits == "" {
      assert digits + rest == rest;
    } else {
      assert (digits + rest)[1..] == digits[1..] + rest;
      assert AllHex(digits[1..]);
      HexPrefixStops(digits[1..], rest);
    }
  }

  /**
   What `parseInt(_, 16)` makes of white space, a sign, a radix prefix, digits, and whatever follows: the
   signed number.
   */
  lemma ParseHexIntReads(space: string, sign: string, radix: string, digits: string, rest: string)
    requires AllSpace(space) && sign in {"", "+", "-"} && radix in {"", "0x", "0X"}
    requires AllHex(digits) && digits != "" && (rest != "" ==> HexValue(rest[0]).None?)
    requires radix == "" && digits == "0" && rest != "" ==> rest[0] != 'x' && rest[0] != 'X'
    ensures var n: int := Val(16, HexDigits(digits));
            ParseHexInt(space + (sign + (radix + (digits + rest)))) == Some(if sign == "-" then -n else n)
  {
    var u := radix + (digits + rest);
    StartsWell(sign, radix, digits, rest);
    TrimLeftSkips(space, sign + u);
    SignComesOff(sign, u);
    RadixComesOff(radix, digits, rest);
    HexPrefixStops(digits, rest);
  }

  lemma StartsWell(sign: string, radix: string, digits: string, rest: string)
    requires sign in {"", "+", "-"} && radix in {"", "0x", "0X"} && AllHex(digits) && digits != ""
    ensures var u := radix + (digits + rest);
            u != "" && u[0] != '-' && u[0] != '+' && sign + u != "" && !IsSpace((sign + u)[0])
  {
    HexIsNotSpace(digits[0]);
    var u := radix + (digits + rest);
    assert u[0] == if radix == "" then digits[0] else '0';
    assert (sign + u)[0] == if sign == "" then u[0] else sign[0];
  }

  lemma SignComesOff(sign: string, u: string)
    requires sign in {"", "+", "-"} && (u != "" ==> u[0] != '-' && u[0] != '+')
    ensures Unsigned(sign + u) == u
    ensures sign + u != [] && (sign + u)[0] == '-' <==> sign == "-"
  {
    if sign == "" { assert sign + u == u; }
  }

  lemma RadixComesOff(radix: string, digits: string, rest: string)
    requires radix in {"", "0x", "0X"} && AllHex(digits) && digits != ""
    requires radix == "" && digits == "0" && rest != "" ==> rest[0] != 'x' && rest[0] != 'X'
    ensures WithoutRadix(radix + (digits + rest)) == digits + rest
  {
    var v := digits + rest;
    if radix == "" {
      assert radix + v == v;
      if |digits| >= 2 { HexIsNotSpace(digits[1]); assert v[1] == digits[1]; }
    } else {
      assert (radix + v)[2..] == v;
    }
  }

  /** `BigInt('0x' + _)` reads digits with white space behind them, and nothing else. */
  lemma ParseHexBigReads(digits: string, space: string)
    requires AllSpace(space) && digits != "" && !IsSpace(digits[|digits| - 1])
    ensures ParseHexBig(digits + space) == if AllHex(digits) then Some(Val(16, HexDigits(digits))) else None
  {
    TrimRightSkips(digits, space);
  }
}
