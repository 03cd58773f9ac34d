/** The Ethereum path put together: from an ABI-encoded deposit in a block to its key in a store. */
module EndToEnd {
  import opened Prelude
  import opened Stores
  import opened Protocol
  import ProtocolCoverage
  import Hex
  import Numerals
  import Abi
  import opened Preimages

  /** `EthChainListener.decode`; `text` is UTF-8 decoding. */
  function DecodeLog(h: Hashing, text: seq<byte> -> string, chainId: nat, log: EthLog): (r: Option<BridgeEvent>) {
    var preimage := Abi.ReplayPreimage(log.transactionHash, log.logIndex);
    if preimage.None? || !("0x" <= log.data) then None
    else
      match Abi.DecodeData(log.data[2..])
      case None => None
      case Some(d) =>
        Some(BridgeEvent(chainId, Hex.ToHex(h.sha256(preimage.value)), text(d.target), text(d.asset),
                         Decimal(d.amount)))
  }

  /** A configuration that reads, validates and hashes as the relayer does. */
  ghost predicate Assembled(c: Config, h: Hashing, text: seq<byte> -> string, chainId: nat) {
    && chainId <= 0xFFFF_FFFF
    && DigestsAre32Bytes(h)
    && (forall log :: c.decode(log) == DecodeLog(h, text, chainId, log))
    && (forall e :: c.valid(e) == Valid(h, e))
  }

  /**
   The replay key of a log: the digest, in lower-case hex, of the bytes of its transaction hash and its index as
   a big-endian u32.
   */
  ghost predicate KeyedByLog(h: Hashing, log: EthLog, txHash: string)
    requires WellPlaced(log)
  {
    exists p: seq<byte> ::
      && |p| >= 4 && p[..|p| - 4] == Hex.FromHex(log.transactionHash[2..])
      && Numerals.Val(256, p[|p| - 4..]) == log.logIndex && txHash == Hex.ToHex(h.sha256(p))
  }

  /** The log's own coordinates: a hash of `0x` and 64 characters, and an index that is a u32. */
  predicate WellPlaced(log: EthLog)
    ensures WellPlaced(log) ==> |log.transactionHash| == 66
  {
    && |log.transactionHash| == 66 && log.transactionHash[0] == '0' && log.transactionHash[1] == 'x'
    && 0 <= log.logIndex < 4_294_967_296
  }

  /** The event says what the deposit says, and is filed under this chain and the log's own key. */
  ghost predicate Reports(h: Hashing, text: seq<byte> -> string, chainId: nat, log: EthLog, d: Abi.Deposit,
                          e: BridgeEvent)
    requires WellPlaced(log)
  {
    && e.chainId == chainId && KeyedByLog(h, log, e.txHash)
    && e.target == text(d.target) && e.asset == text(d.asset)
    && AllDecimal(e.amount) && Amount(e.amount) == d.amount
  }

  /**
   A log that carries an encoded deposit decodes to an event that reports it, valid exactly when the deposit
   makes sense.
   */
  lemma DepositLogDecodes(h: Hashing, text: seq<byte> -> string, chainId: nat, log: EthLog, d: Abi.Deposit)
    requires DigestsAre32Bytes(h) && chainId <= 0xFFFF_FFFF && Abi.FitsWords(d)
    requires WellPlaced(log) && log.data == "0x" + Abi.EncodeData(d)
    ensures var r := DecodeLog(h, text, chainId, log);
            && r.Some? && Reports(h, text, chainId, log, d, r.value)
            && (Valid(h, r.value) <==>
                  && 0 < d.amount <= MAX_I128
                  && (h.isAccount(text(d.target)) || h.isContract(text(d.target)))
                  && h.isContract(text(d.asset)))
  {
    var txHash := LogIsKeyed(h, log);
    DepositLogIsRead(h, text, chainId, log, d, txHash);
    AmountIsKept(h, BridgeEvent(chainId, txHash, text(d.target), text(d.asset), Decimal(d.amount)), d.amount);
  }

  lemma LogIsKeyed(h: Hashing, log: EthLog) returns (txHash: string)
    requires DigestsAre32Bytes(h) && WellPlaced(log)
    ensures KeyedByLog(h, log, txHash) && |txHash| == 64 && Hex.AllHex(txHash)
    ensures var p := Abi.ReplayPreimage(log.transactionHash, log.logIndex);
            p.Some? && txHash == Hex.ToHex(h.sha256(p.value))
  {
    Abi.ReplayPreimageLayout(log.transactionHash, log.logIndex);
    var p := Abi.ReplayPreimage(log.transactionHash, log.logIndex).value;
    txHash := Hex.ToHex(h.sha256(p));
    assert p[..|p| - 4] == Hex.FromHex(log.transactionHash[2..]) && Numerals.Val(256, p[|p| - 4..]) == log.logIndex;
  }

  lemma DepositLogIsRead(h: Hashing, text: seq<byte> -> string, chainId: nat, log: EthLog, d: Abi.Deposit,
                         txHash: string)
    requires Abi.FitsWords(d) && log.data == "0x" + Abi.EncodeData(d)
    requires var p := Abi.ReplayPreimage(log.transactionHash, log.logIndex);
             p.Some? && txHash == Hex.ToHex(h.sha256(p.value))
    ensures DecodeLog(h, text, chainId, log) ==
            Some(BridgeEvent(chainId, txHash, text(d.target), text(d.asset), Decimal(d.amount)))
  {
    Abi.DecodeEncode(d);
    assert log.data[2..] == Abi.EncodeData(d);
  }

  lemma AmountIsKept(h: Hashing, e: BridgeEvent, amount: nat)
    requires e.amount == Decimal(amount) && 0 <= e.chainId <= 0xFFFF_FFFF && |e.txHash| == 64 && Hex.AllHex(e.txHash)
    ensures AllDecimal(e.amount) && Amount(e.amount) == amount
    ensures Valid(h, e) <==>
              && 0 < amount <= MAX_I128
              && (h.isAccount(e.target) || h.isContract(e.target))
              && h.isContract(e.asset)
  {
    DecimalAmount(amount);
  }

  /**
   End to end: with a truthful node, a well-formed deposit in a block the cursor has passed is, from
   then on, either submitted or dead-lettered, under the key derived from its own transaction and log index.
   */
  lemma DepositReachesAStore(c: Config, h: Hashing, text: seq<byte> -> string, chainId: nat,
                             states: seq<State>, steps: seq<Step>, start: nat, i: nat, j: nat,
                             b: nat, log: EthLog, d: Abi.Deposit)
    requires Assembled(c, h, text, chainId)
    requires TruthfulRun(c, states, steps) && Init(states[0], start) && i <= j < |states|
    requires start <= b < states[i].cursor && log in c.history(b) && !log.removed
    requires WellPlaced(log)
    requires Abi.FitsWords(d) && log.data == "0x" + Abi.EncodeData(d)
    requires 0 < d.amount <= MAX_I128
    requires (h.isAccount(text(d.target)) || h.isContract(text(d.target))) && h.isContract(text(d.asset))
    ensures exists e ::
              && Reports(h, text, chainId, log, d, e)
              && (Key(e.chainId, e.txHash) in states[j].nonces || Key(e.chainId, e.txHash) in Queued(states[j].dlq))
  {
    DepositLogDecodes(h, text, chainId, log, d);
    var e := DecodeLog(h, text, chainId, log).value;
    assert c.decode(log) == Some(e) && c.valid(e);
    ValidLogIsStored(c, states, steps, start, i, j, b, log, e);
  }

  lemma ValidLogIsStored(c: Config, states: seq<State>, steps: seq<Step>, start: nat, i: nat, j: nat,
                         b: nat, log: EthLog, e: BridgeEvent)
    requires TruthfulRun(c, states, steps) && Init(states[0], start) && i <= j < |states|
    requires start <= b < states[i].cursor && log in c.history(b)
    requires !log.removed && c.decode(log) == Some(e) && c.valid(e)
    ensures Key(e.chainId, e.txHash) in states[j].nonces || Key(e.chainId, e.txHash) in Queued(states[j].dlq)
  {
    ProtocolCoverage.NoEventIsLost(c, states, steps, start, i, j);
  }
}
