/** The byte strings that are hashed and signed: payload, nonce and commitment preimages. */
module Preimages {
  import opened Prelude
  import opened Numerals
  import opened Hex
  import opened Stores

  /** Functions whose insides do not matter here: SHA-256, UTF-8 and the strkey checks. */
  datatype Hashing = Hashing(
    sha256: seq<byte> -> seq<byte>,
    utf8: string -> seq<byte>,
    isAccount: string -> bool,
    isContract: string -> bool)

  ghost predicate DigestsAre32Bytes(h: Hashing) { forall x :: |h.sha256(x)| == 32 }

  const MAX_I128: nat := 0x7FFF_FFFF_FFFF_FFFF_FFFF_FFFF_FFFF_FFFF

  /** `validateBridgeEvent`. */
  predicate Valid(h: Hashing, e: BridgeEvent) {
    && 0 <= e.chainId <= 0xFFFF_FFFF
    && |e.txHash| == 64 && AllHex(e.txHash)
    && e.amount != "" && AllDecimal(e.amount) && 0 < Amount(e.amount) <= MAX_I128
    && (h.isAccount(e.target) || h.isContract(e.target))
    && h.isContract(e.asset)
  }

  /** An amount as two big-endian 64-bit halves. */
  function AmountBytes(amount: nat): (r: seq<byte>)
    ensures |r| == 16
  {
    Fixed(256, 8, amount / TWO_TO_64) + Fixed(256, 8, amount % TWO_TO_64)
  }

  lemma AmountRebuilds(amount: nat)
    requires amount <= MAX_I128
    ensures Val(256, AmountBytes(amount)[..8]) * TWO_TO_64 + Val(256, AmountBytes(amount)[8..]) == amount
  {
    var high, low := amount / TWO_TO_64, amount % TWO_TO_64;
    assert Pow(256, 8) == TWO_TO_64;
    assert AmountBytes(amount)[..8] == Fixed(256, 8, high) && AmountBytes(amount)[8..] == Fixed(256, 8, low);
    ValOfFixed(256, 8, high);
    ValOfFixed(256, 8, low);
  }

  lemma AmountBytesInjective(m: nat, n: nat)
    requires m <= MAX_I128 && n <= MAX_I128
    ensures AmountBytes(m) == AmountBytes(n) <==> m == n
  {
    AmountRebuilds(m);
    AmountRebuilds(n);
  }

  function NoncePreimage(e: BridgeEvent): (r: seq<byte>)
    requires 0 <= e.chainId
  {
    Fixed(256, 4, e.chainId) + FromHex(e.txHash)
  }

  /** What `computePayloadHash` hashes. */
  function PayloadPreimage(h: Hashing, e: BridgeEvent): (r: seq<byte>)
    requires 0 <= e.chainId && AllDecimal(e.amount)
  {
    Fixed(256, 4, e.chainId)
    + FromHex(e.txHash)
    + h.sha256(h.utf8(e.target))
    + h.sha256(h.utf8(e.asset))
    + AmountBytes(Amount(e.amount))
    + h.sha256(NoncePreimage(e))
  }

  /** Concatenations of parts of equal length agree exactly when the parts do. */
  lemma Split<T>(a: seq<T>, x: seq<T>, b: seq<T>, y: seq<T>)
    requires |a| == |b|
    ensures a + x == b + y <==> a == b && x == y
  {
    if a + x == b + y {
      assert (a + x)[..|a|] == a && (b + y)[..|b|] == b;
      assert (a + x)[|a|..] == x && (b + y)[|b|..] == y;
    }
  }

  /** For valid events the 148-byte payload preimage pins down every signed field, and nothing else. */
  lemma PayloadPreimageInjective(h: Hashing, a: BridgeEvent, b: BridgeEvent)
    requires DigestsAre32Bytes(h) && Valid(h, a) && Valid(h, b)
    ensures |PayloadPreimage(h, a)| == 148
    ensures PayloadPreimage(h, a) == PayloadPreimage(h, b) <==>
              && a.chainId == b.chainId
              && HexDigits(a.txHash) == HexDigits(b.txHash)
              && h.sha256(h.utf8(a.target)) == h.sha256(h.utf8(b.target))
              && h.sha256(h.utf8(a.asset)) == h.sha256(h.utf8(b.asset))
              && Amount(a.amount) == Amount(b.amount)
  {
    var c1, c2 := Fixed(256, 4, a.chainId), Fixed(256, 4, b.chainId);
    var t1, t2 := FromHex(a.txHash), FromHex(b.txHash);
    var g1, g2 := h.sha256(h.utf8(a.target)), h.sha256(h.utf8(b.target));
    var s1, s2 := h.sha256(h.utf8(a.asset)), h.sha256(h.utf8(b.asset));
    var m1, m2 := AmountBytes(Amount(a.amount)), AmountBytes(Amount(b.amount));
    var n1, n2 := h.sha256(NoncePreimage(a)), h.sha256(NoncePreimage(b));
    Split(c1 + t1 + g1 + s1 + m1, n1, c2 + t2 + g2 + s2 + m2, n2);
    Split(c1 + t1 + g1 + s1, m1, c2 + t2 + g2 + s2, m2);
    Split(c1 + t1 + g1, s1, c2 + t2 + g2, s2);
    Split(c1 + t1, g1, c2 + t2, g2);
    Split(c1, t1, c2, t2);
    assert Pow(256, 4) == 0x1_0000_0000;
    FixedInjective(256, 4, a.chainId, b.chainId);
    FromHexInjective(a.txHash, b.txHash);
    AmountBytesInjective(Amount(a.amount), Amount(b.amount));
  }

  /** The nonce preimage is the on-chain replay key: chain id and transaction hash bytes. */
  lemma NoncePreimageInjective(h: Hashing, a: BridgeEvent, b: BridgeEvent)
    requires Valid(h, a) && Valid(h, b)
    ensures NoncePreimage(a) == NoncePreimage(b) <==>
              a.chainId == b.chainId && HexDigits(a.txHash) == HexDigits(b.txHash)
  {
    Split(Fixed(256, 4, a.chainId), FromHex(a.txHash), Fixed(256, 4, b.chainId), FromHex(b.txHash));
    assert Pow(256, 4) == 0x1_0000_0000;
    FixedInjective(256, 4, a.chainId, b.chainId);
    FromHexInjective(a.txHash, b.txHash);
  }

  // ---- The place of every byte ------------------------------------------------------------

  lemma Slices<T>(a: seq<T>, b: seq<T>, c: seq<T>)
    ensures (a + b + c)[|a|..|a| + |b|] == b
  {}

  lemma BytesOfHash(hash: string, bytes: seq<byte>)
    requires |hash| == 64 && AllHex(hash) && bytes == FromHex(hash)
    ensures |bytes| == 32 && forall i :: 0 <= i < 32 ==> StandForByte(hash[2 * i], hash[2 * i + 1], bytes[i])
  {
    forall i | 0 <= i < 32 ensures StandForByte(hash[2 * i], hash[2 * i + 1], bytes[i]) { FromHexAt(hash, i); }
  }

  /** Six fields one after the other, cut apart again. */
  lemma CutApart(c: seq<byte>, t: seq<byte>, g: seq<byte>, a: seq<byte>, m: seq<byte>, n: seq<byte>, p: seq<byte>)
    requires p == c + t + g + a + m + n
    requires |c| == 4 && |t| == 32 && |g| == 32 && |a| == 32 && |m| == 16 && |n| == 32
    ensures |p| == 148
    ensures p[0..4] == c && p[4..36] == t && p[36..68] == g && p[68..100] == a && p[100..116] == m && p[116..148] == n
    ensures p[0..36] == c + t
  {}

  /**
   The 148 signed bytes: the chain id as a big-endian u32; the transaction hash, a byte for two digits; the
   digest of the target, then of the asset; the amount as a big-endian u128 in two halves; and the digest of
   the first 36 bytes.
   */
  lemma PayloadLayout(h: Hashing, e: BridgeEvent)
    requires DigestsAre32Bytes(h) && Valid(h, e)
    ensures var p := PayloadPreimage(h, e);
            && |p| == 148
            && Val(256, p[0..4]) == e.chainId
            && (forall i :: 0 <= i < 32 ==> StandForByte(e.txHash[2 * i], e.txHash[2 * i + 1], p[4..36][i]))
            && p[36..68] == h.sha256(h.utf8(e.target))
            && p[68..100] == h.sha256(h.utf8(e.asset))
            && Val(256, p[100..116][..8]) * 0x1_0000_0000_0000_0000 + Val(256, p[100..116][8..]) == Amount(e.amount)
            && p[116..148] == h.sha256(p[0..36])
            && NoncePreimage(e) == p[0..36]
  {
    var c, t := Fixed(256, 4, e.chainId), FromHex(e.txHash);
    var g, a, m := h.sha256(h.utf8(e.target)), h.sha256(h.utf8(e.asset)), AmountBytes(Amount(e.amount));
    CutApart(c, t, g, a, m, h.sha256(NoncePreimage(e)), PayloadPreimage(h, e));
    assert Pow(256, 4) == 0x1_0000_0000;
    ValOfFixed(256, 4, e.chainId);
    BytesOfHash(e.txHash, t);
    AmountRebuilds(Amount(e.amount));
  }

  // ---- What is valid ----------------------------------------------------------------------

  datatype InvalidEvent = BadChainId | BadTxHash | BadAmount | BadTarget | BadAsset

  predicate HexDigit(c: char) { c in LOWER_DIGITS || c in UPPER_DIGITS }

  lemma HexDigitHasValue(c: char)
    ensures HexDigit(c) <==> HexValue(c).Some?
  {
    if HexValue(c).Some? { HexValueIsDigit(c, HexValue(c).value); }
    if v :| 0 <= v < 16 && (c == LOWER_DIGITS[v] || c == UPPER_DIGITS[v]) { HexValueIsDigit(c, v); }
  }

  /**
   `validateBridgeEvent`: the first complaint, if any. There is none exactly if the chain id is a u32, the hash
   32 bytes in hex, the amount decimal digits for a positive i128, the target an account or a contract, and the
   asset a contract.
   */
  method ValidateBridgeEvent(h: Hashing, e: BridgeEvent) returns (error: Option<InvalidEvent>)
    ensures error == None <==> Valid(h, e)
    ensures error == None <==>
              && 0 <= e.chainId < 4_294_967_296
              && |e.txHash| == 64 && (forall i :: 0 <= i < 64 ==> HexDigit(e.txHash[i]))
              && e.amount != "" && AllDecimal(e.amount)
              && 1 <= Amount(e.amount) <= 170_141_183_460_469_231_731_687_303_715_884_105_727
              && (h.isAccount(e.target) || h.isContract(e.target))
              && h.isContract(e.asset)
  {
    if e.chainId < 0 || e.chainId > 0xFFFF_FFFF { return Some(BadChainId); }
    forall i | 0 <= i < |e.txHash| ensures HexDigit(e.txHash[i]) <==> HexValue(e.txHash[i]).Some? {
      HexDigitHasValue(e.txHash[i]);
    }
    if |e.txHash| != 64 || !AllHex(e.txHash) { return Some(BadTxHash); }
    if e.amount == "" || !AllDecimal(e.amount) { return Some(BadAmount); }
    var amount := Amount(e.amount);
    if amount <= 0 || amount > 0x7FFF_FFFF_FFFF_FFFF_FFFF_FFFF_FFFF_FFFF { return Some(BadAmount); }
    if !h.isAccount(e.target) && !h.isContract(e.target) { return Some(BadTarget); }
    if !h.isContract(e.asset) { return Some(BadAsset); }
    error := None;
  }

  // ---- Commitments ------------------------------------------------------------------------

  datatype Commitment = Commitment(
    contractId: string, networkPassphrase: string,
    source: string, target: string, asset: string, amount: int, nonce: int)

  predicate InRange(o: Commitment) {
    0 < o.amount <= MAX_I128 && 0 <= o.nonce < TWO_TO_64
  }

  /** What `computeCommitmentHash` hashes; `None` where it throws. */
  function CommitmentPreimage(h: Hashing, o: Commitment): (r: Option<seq<byte>>) {
    if !InRange(o) then None
    else Some(h.utf8("onboarding_bridge_commitment_v1")
              + h.utf8(o.contractId)
              + h.sha256(h.utf8(o.networkPassphrase))
              + h.utf8(o.source)
              + h.utf8(o.target)
              + h.utf8(o.asset)
              + AmountBytes(o.amount)
              + Fixed(256, 8, o.nonce))
  }

  /**
   The commitment bytes: the tag, the contract, the digest of the network passphrase, source, target and asset,
   the amount as a u128 in two halves, and the nonce as a u64; there are none for an amount that is no positive
   i128 or a nonce that is no u64.
   */
  lemma CommitmentLayout(h: Hashing, o: Commitment)
    requires DigestsAre32Bytes(h)
    ensures CommitmentPreimage(h, o).None? <==>
              || o.amount <= 0 || o.amount > 170_141_183_460_469_231_731_687_303_715_884_105_727
              || o.nonce < 0 || o.nonce >= 18_446_744_073_709_551_616
    ensures CommitmentPreimage(h, o).Some? ==>
              var p := CommitmentPreimage(h, o).value;
              var contractAt := |h.utf8("onboarding_bridge_commitment_v1")|;
              var sourceAt := contractAt + |h.utf8(o.contractId)| + 32;
              var targetAt := sourceAt + |h.utf8(o.source)|;
              var assetAt := targetAt + |h.utf8(o.target)|;
              var amountAt := assetAt + |h.utf8(o.asset)|;
              && |p| == amountAt + 24
              && p[..contractAt] == h.utf8("onboarding_bridge_commitment_v1")
              && p[contractAt..sourceAt - 32] == h.utf8(o.contractId)
              && p[sourceAt - 32..sourceAt] == h.sha256(h.utf8(o.networkPassphrase))
              && p[sourceAt..targetAt] == h.utf8(o.source)
              && p[targetAt..assetAt] == h.utf8(o.target)
              && p[assetAt..amountAt] == h.utf8(o.asset)
              && Val(256, p[amountAt..amountAt + 16][..8]) * 0x1_0000_0000_0000_0000
                 + Val(256, p[amountAt..amountAt + 16][8..]) == o.amount
              && Val(256, p[amountAt + 16..]) == o.nonce
  {
    if InRange(o) {
      AmountRebuilds(o.amount);
      assert Pow(256, 8) == TWO_TO_64;
      ValOfFixed(256, 8, o.nonce);
    }
  }

  ghost predicate SameFields(h: Hashing, a: Commitment, b: Commitment) {
    && h.utf8(a.contractId) == h.utf8(b.contractId)
    && h.sha256(h.utf8(a.networkPassphrase)) == h.sha256(h.utf8(b.networkPassphrase))
    && h.utf8(a.source) == h.utf8(b.source)
    && h.utf8(a.target) == h.utf8(b.target)
    && h.utf8(a.asset) == h.utf8(b.asset)
    && a.amount == b.amount
    && a.nonce == b.nonce
  }

  /** The three variable-length fields in front of the last address are equally long. */
  predicate SameLengths(h: Hashing, a: Commitment, b: Commitment) {
    && |h.utf8(a.contractId)| == |h.utf8(b.contractId)|
    && |h.utf8(a.source)| == |h.utf8(b.source)|
    && |h.utf8(a.target)| == |h.utf8(b.target)|
  }

  /** When two commitments hash the same bytes, their fields agree exactly when the field lengths do. */
  lemma CommitmentsAgreeIffLengthsDo(h: Hashing, a: Commitment, b: Commitment)
    requires DigestsAre32Bytes(h) && InRange(a) && InRange(b)
    ensures CommitmentPreimage(h, a) == CommitmentPreimage(h, b) && SameLengths(h, a, b) <==> SameFields(h, a, b)
  {
    if SameLengths(h, a, b) {
      var tag := h.utf8("onboarding_bridge_commitment_v1");
      var c1, c2 := tag + h.utf8(a.contractId), tag + h.utf8(b.contractId);
      var p1, p2 := c1 + h.sha256(h.utf8(a.networkPassphrase)), c2 + h.sha256(h.utf8(b.networkPassphrase));
      var s1, s2 := p1 + h.utf8(a.source), p2 + h.utf8(b.source);
      var t1, t2 := s1 + h.utf8(a.target), s2 + h.utf8(b.target);
      var x1, x2 := t1 + h.utf8(a.asset), t2 + h.utf8(b.asset);
      var m1, m2 := AmountBytes(a.amount), AmountBytes(b.amount);
      var n1, n2 := Fixed(256, 8, a.nonce), Fixed(256, 8, b.nonce);
      assert |x1 + m1 + n1| == |x1| + 24 && |x2 + m2 + n2| == |x2| + 24;
      if |x1| == |x2| {
        Split(x1 + m1, n1, x2 + m2, n2);
        Split(x1, m1, x2, m2);
      }
      Split(t1, h.utf8(a.asset), t2, h.utf8(b.asset));
      Split(s1, h.utf8(a.target), s2, h.utf8(b.target));
      Split(p1, h.utf8(a.source), p2, h.utf8(b.source));
      Split(c1, h.sha256(h.utf8(a.networkPassphrase)), c2, h.sha256(h.utf8(b.networkPassphrase)));
      Split(tag, h.utf8(a.contractId), tag, h.utf8(b.contractId));
      AmountBytesInjective(a.amount, b.amount);
      assert Pow(256, 8) == TWO_TO_64;
      FixedInjective(256, 8, a.nonce, b.nonce);
    }
  }

  /** With 56-byte strkeys throughout, the commitment preimage is injective. */
  lemma CommitmentInjectiveOnStrkeys(h: Hashing, a: Commitment, b: Commitment)
    requires DigestsAre32Bytes(h) && InRange(a) && InRange(b)
    requires forall o :: o in {a, b} ==>
               && |h.utf8(o.contractId)| == 56 && |h.utf8(o.source)| == 56
               && |h.utf8(o.target)| == 56 && |h.utf8(o.asset)| == 56
    ensures CommitmentPreimage(h, a) == CommitmentPreimage(h, b) <==> SameFields(h, a, b)
  {
    assert SameLengths(h, a, b);
    CommitmentsAgreeIffLengthsDo(h, a, b);
  }

  /** Only the source and target bytes put together reach the preimage. */
  lemma OnlyTogether(h: Hashing, a: Commitment, b: Commitment)
    requires b == a.(source := b.source, target := b.target) && InRange(a)
    requires h.utf8(a.source) + h.utf8(a.target) == h.utf8(b.source) + h.utf8(b.target)
    ensures CommitmentPreimage(h, a) == CommitmentPreimage(h, b)
  {
    var p := h.utf8("onboarding_bridge_commitment_v1") + h.utf8(a.contractId) + h.sha256(h.utf8(a.networkPassphrase));
    assert p + h.utf8(a.source) + h.utf8(a.target) == p + (h.utf8(a.source) + h.utf8(a.target));
    assert p + h.utf8(b.source) + h.utf8(b.target) == p + (h.utf8(b.source) + h.utf8(b.target));
  }

  /** Without the length check, which the code does not make, a byte can move from one address to the next. */
  lemma UncheckedLengthsCollide(h: Hashing)
    requires h.utf8("AB") == [65, 66] && h.utf8("A") == [65] && h.utf8("BC") == [66, 67] && h.utf8("C") == [67]
    ensures exists a, b :: InRange(a) && InRange(b) && !SameFields(h, a, b)
              && CommitmentPreimage(h, a) == CommitmentPreimage(h, b)
  {
    var a := Commitment("X", "net", "AB", "C", "Y", 1, 0);
    var b := Commitment("X", "net", "A", "BC", "Y", 1, 0);
    OnlyTogether(h, a, b);
    assert |h.utf8(a.source)| != |h.utf8(b.source)|;
    assert InRange(a) && InRange(b) && !SameFields(h, a, b);
  }
}
