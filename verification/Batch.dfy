/** Splitting a batch funding into transactions of at most 100 recipients, with optional sequential nonces. */
module Batch {
  import opened Prelude

  const BATCH_TX_LIMIT := 100

  datatype Address = Address(strkey: string)

  datatype Status = Pending | Failed

  datatype TransactionResult = TransactionResult(hash: string, status: Status, error: Option<string>)

  /** What the RPC does with one chunk: the transaction is sent, or some call throws. */
  datatype Sending = Sent(hash: string, pending: bool) | SendThrew(message: string)

  /** What one `getTransaction` call says about a sent transaction. */
  datatype Answer = NotFound | Success | FailedOnChain | CallThrew(message: string)

  /** The RPC's answers: to the submission of a chunk, and to each call that asks after it. */
  datatype Rpc = Rpc(send: nat -> Sending, confirm: nat -> nat -> Answer)

  /** One transaction handed to the RPC. */
  datatype Attempt = Attempt(targets: seq<Address>, amounts: seq<int>, nonce: Option<int>)

  datatype Progress = Progress(completed: nat, total: nat, hash: Option<string>)

  function ChunkCount(n: nat): (c: nat)
    ensures (c - 1) * BATCH_TX_LIMIT < n <= c * BATCH_TX_LIMIT || n == c == 0
  {
    (n + BATCH_TX_LIMIT - 1) / BATCH_TX_LIMIT
  }

  /** The `i`-th chunk of a list. */
  function Chunk<T>(s: seq<T>, i: nat): (r: seq<T>)
    ensures |r| <= BATCH_TX_LIMIT
  {
    var lo := if i * BATCH_TX_LIMIT < |s| then i * BATCH_TX_LIMIT else |s|;
    var hi := if lo + BATCH_TX_LIMIT < |s| then lo + BATCH_TX_LIMIT else |s|;
    s[lo..hi]
  }

  /** The first `k` chunks, one after the other. */
  function Chunks<T>(s: seq<T>, k: nat): (r: seq<T>) {
    if k == 0 then [] else Chunks(s, k - 1) + Chunk(s, k - 1)
  }

  lemma {:induction false} ChunksArePrefix<T>(s: seq<T>, k: nat)
    ensures Chunks(s, k) == if k * BATCH_TX_LIMIT < |s| then s[..k * BATCH_TX_LIMIT] else s
  {
    if k > 0 {
      ChunksArePrefix(s, k - 1);
      var lo := (k - 1) * BATCH_TX_LIMIT;
      if lo < |s| {
        var hi := if lo + BATCH_TX_LIMIT < |s| then lo + BATCH_TX_LIMIT else |s|;
        assert s[..lo] + s[lo..hi] == s[..hi];
      }
    }
  }

  /** Cut into chunks, a list is put back together by concatenating them. */
  lemma ChunksAreWhole<T>(s: seq<T>)
    ensures Chunks(s, ChunkCount(|s|)) == s
  {
    ChunksArePrefix(s, ChunkCount(|s|));
  }

  /** Answer number `i` is the first that is not NOT_FOUND. */
  ghost predicate Decides(answers: nat -> Answer, i: nat) {
    answers(i) != NotFound && forall j: nat :: j < i ==> answers(j) == NotFound
  }

  ghost predicate Confirms(answers: nat -> Answer) {
    exists i :: Decides(answers, i) && answers(i) == Success
  }

  /** Some answer is not NOT_FOUND; the code waits for it without a limit. */
  ghost predicate EventuallyFound(answers: nat -> Answer) { exists i: nat :: answers(i) != NotFound }

  ghost predicate Answers(rpc: Rpc) { forall i: nat :: EventuallyFound(rpc.confirm(i)) }

  /** Chunk `i` is confirmed: it was accepted for submission and settled on chain. */
  ghost predicate Settled(rpc: Rpc, i: nat) {
    rpc.send(i).Sent? && rpc.send(i).pending && Confirms(rpc.confirm(i))
  }

  /** The number of chunks attempted: all of them without a nonce, up to the first unsettled one with a nonce. */
  ghost function AttemptCount(rpc: Rpc, count: nat, hasNonce: bool, i: nat): (n: nat)
    requires i <= count
    ensures n <= count - i
    ensures !hasNonce ==> n == count - i
    ensures i < count ==> n >= 1
    decreases count - i
  {
    if i == count then 0
    else if hasNonce && i + 1 < count && !Settled(rpc, i) then 1
    else 1 + AttemptCount(rpc, count, hasNonce, i + 1)
  }

  predicate FitsU64(n: int) { 0 <= n < TWO_TO_64 }

  /** The number of chunks, of the first `count`, whose nonce is a u64; building the next one throws. */
  function Fitting(nonce: Option<int>, count: nat): (n: nat)
    ensures n <= count
    ensures nonce.None? ==> n == count
    ensures nonce.Some? && n > 0 ==> FitsU64(nonce.value) && FitsU64(nonce.value + n - 1)
    ensures nonce.Some? && n < count ==> !FitsU64(nonce.value + n)
  {
    if nonce.None? then count
    else if !FitsU64(nonce.value) then 0
    else if nonce.value + count <= TWO_TO_64 then count
    else TWO_TO_64 - nonce.value
  }

  /** What a chunk's own submission reports. */
  function SendResult(sending: Sending): (r: TransactionResult) {
    match sending
    case Sent(hash, pending) => TransactionResult(hash, if pending then Pending else Failed, None)
    case SendThrew(message) => TransactionResult("", Failed, Some(message))
  }

  const EARLIER_FAILED := "Not submitted because an earlier nonce transaction failed"
  const EARLIER_UNCONFIRMED := "Not submitted because an earlier nonce transaction could not be confirmed"

  function Skipped(n: nat, message: string): (r: seq<TransactionResult>)
    ensures |r| == n && forall i :: 0 <= i < n ==> r[i] == TransactionResult("", Failed, Some(message))
  {
    seq(n, _ => TransactionResult("", Failed, Some(message)))
  }

  /** `getTransaction` until the transaction is found. */
  method AwaitConfirmation(answers: nat -> Answer) returns (ending: Answer, calls: nat)
    requires EventuallyFound(answers)
    ensures calls >= 1 && Decides(answers, calls - 1) && ending == answers(calls - 1)
  {
    ghost var found: nat :| answers(found) != NotFound;
    ending := answers(0);
    calls := 1;
    while ending == NotFound
      invariant 1 <= calls && ending == answers(calls - 1)
      invariant forall j: nat :: j < calls - 1 ==> answers(j) == NotFound
      decreases found + 1 - calls
    {
      assert calls - 1 < found;
      ending := answers(calls);
      calls := calls + 1;
    }
  }

  /** Waits for a chunk that others depend on: the chunk's final result, and why the rest is dropped, if it is. */
  method ConfirmChunk(ghost sending: Sending, result: TransactionResult, answers: nat -> Answer)
    returns (own: TransactionResult, abort: Option<string>)
    requires EventuallyFound(answers) && Tells(sending, result)
    ensures abort.None? <==> sending.Sent? && sending.pending && Confirms(answers)
    ensures abort.None? ==> own == result
    ensures abort.Some? ==> own.status == Failed && Breaks(sending, answers, own, abort.value)
  {
    if result.status == Failed { return result, Some(EARLIER_FAILED); }
    var ending, calls := AwaitConfirmation(answers);
    OneDecides(answers, calls - 1);
    match ending
    case FailedOnChain =>
      own := result.(status := Failed, error := Some("Transaction failed on-chain"));
      abort := Some(EARLIER_FAILED);
    case CallThrew(message) =>
      own, abort := result.(status := Failed, error := Some(message)), Some(EARLIER_UNCONFIRMED);
    case Success => own, abort := result, None;
  }

  lemma OneDecides(answers: nat -> Answer, i: nat)
    requires Decides(answers, i)
    ensures forall j :: Decides(answers, j) ==> j == i
  {}

  /** Transaction number `i`: up to a hundred recipients from the `100 * i`-th on, and the nonce `i` after the first. */
  ghost predicate Carries(targets: seq<Address>, amounts: seq<int>, nonce: Option<int>, i: nat, a: Attempt) {
    var lo, hi := 100 * i, if 100 * i + 100 < |targets| then 100 * i + 100 else |targets|;
    && lo < hi && |targets| == |amounts|
    && a.targets == targets[lo..hi] && a.amounts == amounts[lo..hi]
    && (nonce.None? ==> a.nonce.None?)
    && (nonce.Some? ==> a.nonce == Some(nonce.value + i))
  }

  function CompletedAfter(total: nat, chunks: nat): (n: nat) {
    if chunks * BATCH_TX_LIMIT < total then chunks * BATCH_TX_LIMIT else total
  }

  /** The first `k` chunks were handed over, each with its own nonce, and progress was reported after each. */
  ghost predicate HandedOver(targets: seq<Address>, amounts: seq<int>, nonce: Option<int>, k: nat,
                             attempts: seq<Attempt>, progress: seq<Progress>)
  {
    && |attempts| == |progress| == k
    && (forall i :: 0 <= i < k ==> Carries(targets, amounts, nonce, i, attempts[i]))
    && (forall i :: 0 <= i < k ==> progress[i].total == |targets|)
    && (forall i :: 0 <= i < k ==> progress[i].completed == CompletedAfter(|targets|, i + 1))
  }

  lemma HandOver(targets: seq<Address>, amounts: seq<int>, nonce: Option<int>, k: nat,
                 attempts: seq<Attempt>, progress: seq<Progress>, attempt: Attempt, next: Progress)
    requires HandedOver(targets, amounts, nonce, k, attempts, progress) && Carries(targets, amounts, nonce, k, attempt)
    requires next.completed == CompletedAfter(|targets|, k + 1) && next.total == |targets|
    ensures HandedOver(targets, amounts, nonce, k + 1, attempts + [attempt], progress + [next])
  {}

  lemma RestCount(total: nat, k: nat)
    requires (k + 1) * BATCH_TX_LIMIT < total
    ensures ChunkCount(total - k * BATCH_TX_LIMIT - BATCH_TX_LIMIT) == ChunkCount(total) - k - 1
  {}

  /** The result says how the submission went: its hash, and whether it is pending; or what was thrown. */
  ghost predicate Tells(sending: Sending, result: TransactionResult) {
    && (sending.Sent? ==>
          && result.hash == sending.hash && result.error.None?
          && (result.status == Pending <==> sending.pending))
    && (sending.SendThrew? ==> result.hash == "" && result.status == Failed && result.error == Some(sending.message))
  }

  /** `results` reports the submissions of the first `k` chunks. */
  ghost predicate Reports(rpc: Rpc, k: nat, results: seq<TransactionResult>)
    requires k <= |results|
  {
    forall i :: 0 <= i < k ==> Tells(rpc.send(i), results[i])
  }

  /** The callback was given the hash of each of the first `k` submissions that has one. */
  ghost predicate Announced(rpc: Rpc, k: nat, progress: seq<Progress>)
    requires k <= |progress|
  {
    forall i :: 0 <= i < k ==>
      progress[i].hash ==
      if rpc.send(i).Sent? && rpc.send(i).hash != "" then Some(rpc.send(i).hash) else None
  }

  ghost predicate SettledBefore(rpc: Rpc, k: nat) { forall i :: 0 <= i < k ==> Settled(rpc, i) }

  /** A result that others depend on failed: by its submission, on chain, or because nothing could be learned of it. */
  ghost predicate Breaks(sending: Sending, answers: nat -> Answer, own: TransactionResult, message: string) {
    if !(sending.Sent? && sending.pending) then
      Tells(sending, own) && message == "Not submitted because an earlier nonce transaction failed"
    else
      && own.status == Failed && own.hash == sending.hash && own.error.Some?
      && exists i ::
           && Decides(answers, i)
           && ((&& answers(i) == FailedOnChain && own.error.value == "Transaction failed on-chain"
                && message == "Not submitted because an earlier nonce transaction failed")
               || (&& answers(i) == CallThrew(own.error.value)
                   && message == "Not submitted because an earlier nonce transaction could not be confirmed"))
  }

  /** The last attempted chunk was not settled: it says why, and all chunks behind it say that they were dropped. */
  ghost predicate Aborted(rpc: Rpc, n: nat, results: seq<TransactionResult>)
    requires 1 <= n <= |results|
  {
    !Settled(rpc, n - 1) && results[n - 1].status == Failed && exists message :: AbortedWith(rpc, n, results, message)
  }

  ghost predicate AbortedWith(rpc: Rpc, n: nat, results: seq<TransactionResult>, message: string)
    requires 1 <= n <= |results|
  {
    && Breaks(rpc.send(n - 1), rpc.confirm(n - 1), results[n - 1], message)
    && forall i :: n <= i < |results| ==> results[i] == TransactionResult("", Failed, Some(message))
  }

  /** What is asked for: `BatchFundCOptions`. */
  datatype Options = Options(source: Address, targets: seq<Address>, amounts: seq<int>, asset: Address,
                             nonce: Option<int>)

  /** The strkey checks of the SDK. */
  datatype Checks = Checks(isAccount: Address -> bool, isContract: Address -> bool)

  datatype InputError = BadSource | UnequalLengths | BadTarget(i: nat) | BadAsset

  /** The first thing wrong with the input, in the order the checks are made. */
  ghost predicate Rejects(c: Checks, o: Options, e: InputError) {
    if !c.isAccount(o.source) then e == BadSource
    else if |o.targets| != |o.amounts| then e == UnequalLengths
    else
      match e
      case BadTarget(i) =>
        && i < |o.targets| && !c.isContract(o.targets[i])
        && forall j :: 0 <= j < i ==> c.isContract(o.targets[j])
      case BadAsset => (forall j :: 0 <= j < |o.targets| ==> c.isContract(o.targets[j])) && !c.isContract(o.asset)
      case _ => false
  }

  method CheckInput(c: Checks, o: Options) returns (error: Option<InputError>)
    ensures error.Some? ==> Rejects(c, o, error.value)
    ensures error.None? ==> |o.targets| == |o.amounts| && forall e :: !Rejects(c, o, e)
  {
    if !c.isAccount(o.source) { return Some(BadSource); }
    if |o.targets| != |o.amounts| { return Some(UnequalLengths); }
    for i := 0 to |o.targets|
      invariant forall j :: 0 <= j < i ==> c.isContract(o.targets[j])
    {
      if !c.isContract(o.targets[i]) { return Some(BadTarget(i)); }
    }
    if !c.isContract(o.asset) { return Some(BadAsset); }
    error := None;
  }

  /**
   `batchFundCAddresses`. Invalid input is answered with the one failed result for its first fault, and
   nothing is sent. On valid input chunk `i` carries `nonce + i`; without a nonce every chunk is attempted
   and reports its own submission; with a nonce the attempted chunks are a prefix, each but the last of them
   confirmed on chain before the next was sent. There is one result per chunk, in order, the chunks behind
   the attempted ones reported failed; unless a nonce leaves the u64 range at a chunk that would have been
   attempted, where the call throws and the results of the chunks already sent are lost.
   */
  method BatchFundCAddresses(rpc: Rpc, c: Checks, message: InputError -> string, o: Options)
    returns (attempts: seq<Attempt>, results: Option<seq<TransactionResult>>, progress: seq<Progress>)
    requires Answers(rpc)
    ensures forall e :: Rejects(c, o, e) ==>
              attempts == [] && progress == [] && results == Some([TransactionResult("", Failed, Some(message(e)))])
    ensures (forall e :: !Rejects(c, o, e)) ==>
              |o.targets| == |o.amounts| && Funded(rpc, o.targets, o.amounts, o.nonce, attempts, results, progress)
    ensures (forall e :: !Rejects(c, o, e)) ==>
              forall i :: 0 <= i < |attempts| ==>
                && 100 * i < |o.targets| && |attempts[i].targets| == |attempts[i].amounts| <= 100
                && attempts[i].targets <= o.targets[100 * i..] && attempts[i].amounts <= o.amounts[100 * i..]
                && attempts[i].nonce == if o.nonce.None? then None else Some(o.nonce.value + i)
  {
    var error := CheckInput(c, o);
    if error.Some? {
      OneFault(c, o, error.value);
      return [], Some([TransactionResult("", Failed, Some(message(error.value)))]), [];
    }
    attempts, results, progress := FundChunks(rpc, o.targets, o.amounts, o.nonce);
  }

  /** Input is rejected for one reason only. */
  lemma OneFault(c: Checks, o: Options, e: InputError)
    requires Rejects(c, o, e)
    ensures forall other :: Rejects(c, o, other) ==> other == e
  {}

  /** What becomes of valid input. */
  ghost predicate Funded(rpc: Rpc, targets: seq<Address>, amounts: seq<int>, nonce: Option<int>,
                         attempts: seq<Attempt>, results: Option<seq<TransactionResult>>, progress: seq<Progress>)
  {
    var count := ChunkCount(|targets|);
    var wanted := AttemptCount(rpc, count, nonce.Some?, 0);
    && HandedOver(targets, amounts, nonce, |attempts|, attempts, progress) && Announced(rpc, |attempts|, progress)
    && (nonce.Some? && |attempts| > 0 ==> SettledBefore(rpc, |attempts| - 1))
    && |attempts| == (if Fitting(nonce, count) < wanted then Fitting(nonce, count) else wanted)
    && (results.None? <==> Fitting(nonce, count) < wanted)
    && (results.Some? ==>
          && |results.value| == count
          && (|attempts| == count ==> Reports(rpc, count, results.value))
          && (|attempts| != count ==>
                && nonce.Some? && |attempts| >= 1
                && Reports(rpc, |attempts| - 1, results.value) && Aborted(rpc, |attempts|, results.value)))
  }

  lemma AbortIsReported(rpc: Rpc, k: nat, done: seq<TransactionResult>, own: TransactionResult, message: string,
                        skipped: seq<TransactionResult>)
    requires |done| == k && Reports(rpc, k, done) && !Settled(rpc, k) && own.status == Failed
    requires Breaks(rpc.send(k), rpc.confirm(k), own, message)
    requires forall i :: 0 <= i < |skipped| ==> skipped[i] == TransactionResult("", Failed, Some(message))
    ensures Reports(rpc, k, done + [own] + skipped) && Aborted(rpc, k + 1, done + [own] + skipped)
  {
    var results := done + [own] + skipped;
    assert results[k] == own;
    assert forall i :: k + 1 <= i < |results| ==> results[i] == skipped[i - k - 1];
    assert AbortedWith(rpc, k + 1, results, message);
  }

  /** The results of a batch that stops at chunk `k`. */
  method AbortBatch(rpc: Rpc, total: nat, k: nat, done: seq<TransactionResult>, own: TransactionResult, message: string)
    returns (results: seq<TransactionResult>)
    requires (k + 1) * BATCH_TX_LIMIT < total
    requires |done| == k && Reports(rpc, k, done) && !Settled(rpc, k) && own.status == Failed
    requires Breaks(rpc.send(k), rpc.confirm(k), own, message)
    ensures |results| == ChunkCount(total) && k + 1 <= |results|
    ensures Reports(rpc, k, results) && Aborted(rpc, k + 1, results)
  {
    RestCount(total, k);
    var skipped := Skipped(ChunkCount(total - k * BATCH_TX_LIMIT - BATCH_TX_LIMIT), message);
    AbortIsReported(rpc, k, done, own, message, skipped);
    results := done + [own] + skipped;
  }

  /** One chunk handed over, and reported to the progress callback. */
  method SendChunk(rpc: Rpc, targets: seq<Address>, amounts: seq<int>, nonce: Option<int>, k: nat,
                   result: TransactionResult, attempts: seq<Attempt>, progress: seq<Progress>, completed: nat)
    returns (attempts': seq<Attempt>, progress': seq<Progress>, completed': nat)
    requires |targets| == |amounts|
    requires HandedOver(targets, amounts, nonce, k, attempts, progress) && Announced(rpc, k, progress)
    requires k * BATCH_TX_LIMIT < |targets| && completed == CompletedAfter(|targets|, k) && Tells(rpc.send(k), result)
    ensures HandedOver(targets, amounts, nonce, k + 1, attempts', progress') && Announced(rpc, k + 1, progress')
    ensures completed' == CompletedAfter(|targets|, k + 1)
  {
    var chunkTargets, chunkAmounts := Chunk(targets, k), Chunk(amounts, k);
    var attempt := Attempt(chunkTargets, chunkAmounts, if nonce.Some? then Some(nonce.value + k) else None);
    completed' := completed + |chunkTargets|;
    var report := Progress(completed', |targets|, if result.hash == "" then None else Some(result.hash));
    HandOver(targets, amounts, nonce, k, attempts, progress, attempt, report);
    attempts' := attempts + [attempt];
    progress' := progress + [report];
  }

  lemma InRange(total: nat, k: nat)
    ensures k * BATCH_TX_LIMIT < total <==> k < ChunkCount(total)
  {}

  /** The state of the loop before chunk `k`. */
  ghost predicate Funding(rpc: Rpc, targets: seq<Address>, amounts: seq<int>, nonce: Option<int>, k: nat,
                          attempts: seq<Attempt>, done: seq<TransactionResult>, progress: seq<Progress>)
  {
    var count := ChunkCount(|targets|);
    && k <= Fitting(nonce, count)
    && |done| == k && Reports(rpc, k, done)
    && HandedOver(targets, amounts, nonce, k, attempts, progress) && Announced(rpc, k, progress)
    && (nonce.Some? ==> SettledBefore(rpc, if k == count && k > 0 then k - 1 else k))
    && AttemptCount(rpc, count, nonce.Some?, 0) == k + AttemptCount(rpc, count, nonce.Some?, k)
  }

  lemma FundingGoesOn(rpc: Rpc, targets: seq<Address>, amounts: seq<int>, nonce: Option<int>, k: nat,
                      done: seq<TransactionResult>,
                      attempts: seq<Attempt>, progress: seq<Progress>, attempts': seq<Attempt>,
                      progress': seq<Progress>)
    requires Funding(rpc, targets, amounts, nonce, k, attempts, done, progress) &&
             k < Fitting(nonce, ChunkCount(|targets|))
    requires HandedOver(targets, amounts, nonce, k + 1, attempts', progress') && Announced(rpc, k + 1, progress')
    requires nonce.Some? && k + 1 < ChunkCount(|targets|) ==> Settled(rpc, k)
    ensures Funding(rpc, targets, amounts, nonce, k + 1, attempts', done + [SendResult(rpc.send(k))], progress')
  {}

  lemma FundingEnds(rpc: Rpc, targets: seq<Address>, amounts: seq<int>, nonce: Option<int>, k: nat,
                    attempts: seq<Attempt>, done: seq<TransactionResult>, progress: seq<Progress>)
    requires Funding(rpc, targets, amounts, nonce, k, attempts, done, progress)
    ensures k == ChunkCount(|targets|) ==> Funded(rpc, targets, amounts, nonce, attempts, Some(done), progress)
    ensures k == Fitting(nonce, ChunkCount(|targets|)) < ChunkCount(|targets|) ==>
              Funded(rpc, targets, amounts, nonce, attempts, None, progress)
  {}

  lemma FundingAborts(rpc: Rpc, targets: seq<Address>, amounts: seq<int>, nonce: Option<int>, k: nat,
                      done: seq<TransactionResult>,
                      attempts: seq<Attempt>, progress: seq<Progress>, attempts': seq<Attempt>,
                      progress': seq<Progress>,
                      results: seq<TransactionResult>)
    requires Funding(rpc, targets, amounts, nonce, k, attempts, done, progress) &&
             k < Fitting(nonce, ChunkCount(|targets|))
    requires HandedOver(targets, amounts, nonce, k + 1, attempts', progress') && Announced(rpc, k + 1, progress')
    requires nonce.Some? && k + 1 < ChunkCount(|targets|) && !Settled(rpc, k)
    requires |results| == ChunkCount(|targets|) && Reports(rpc, k, results) && Aborted(rpc, k + 1, results)
    ensures Funded(rpc, targets, amounts, nonce, attempts', Some(results), progress')
  {}

  /** The chunk loop of `batchFundCAddresses`. */
  method FundChunks(rpc: Rpc, targets: seq<Address>, amounts: seq<int>, nonce: Option<int>)
    returns (attempts: seq<Attempt>, results: Option<seq<TransactionResult>>, progress: seq<Progress>)
    requires |targets| == |amounts| && Answers(rpc)
    ensures Funded(rpc, targets, amounts, nonce, attempts, results, progress)
  {
    var total := |targets|;
    var done: seq<TransactionResult> := [];
    attempts, progress := [], [];
    var completed := 0;
    var k: nat := 0;
    InRange(total, k);
    while k * BATCH_TX_LIMIT < total
      invariant completed == CompletedAfter(total, k) && (k * BATCH_TX_LIMIT < total <==> k < ChunkCount(total))
      invariant Funding(rpc, targets, amounts, nonce, k, attempts, done, progress)
      decreases ChunkCount(total) - k
    {
      if nonce.Some? && !FitsU64(nonce.value + k) {
        FundingEnds(rpc, targets, amounts, nonce, k, attempts, done, progress);
        return attempts, None, progress;
      }
      var result := SendResult(rpc.send(k));
      ghost var before, reported := attempts, progress;
      attempts, progress, completed :=
        SendChunk(rpc, targets, amounts, nonce, k, result, attempts, progress, completed);
      InRange(total, k + 1);
      if nonce.Some? && (k + 1) * BATCH_TX_LIMIT < total {
        assert EventuallyFound(rpc.confirm(k));
        var own, abort := ConfirmChunk(rpc.send(k), result, rpc.confirm(k));
        if abort.Some? {
          var aborted := AbortBatch(rpc, total, k, done, own, abort.value);
          FundingAborts(rpc, targets, amounts, nonce, k, done, before, reported, attempts, progress, aborted);
          return attempts, Some(aborted), progress;
        }
      }
      FundingGoesOn(rpc, targets, amounts, nonce, k, done, before, reported, attempts, progress);
      done := done + [result];
      k := k + 1;
    }
    FundingEnds(rpc, targets, amounts, nonce, k, attempts, done, progress);
    results := Some(done);
  }

  /** The guard that keeps the call from throwing: no chunk's nonce leaves the u64 range. */
  predicate NonceFits(nonce: Option<int>, count: nat) {
    nonce.None? || count == 0 || (0 <= nonce.value && nonce.value + count - 1 < TWO_TO_64)
  }

  function SunnyRpc(): (rpc: Rpc) { Rpc((i: nat) => Sent("hash", true), (i: nat) => (call: nat) => Success) }

  lemma {:induction false} SunnyAttemptsAll(count: nat, i: nat)
    requires i <= count
    ensures AttemptCount(SunnyRpc(), count, true, i) == count - i
    decreases count - i
  {
    if i < count {
      assert Decides(SunnyRpc().confirm(i), 0);
      SunnyAttemptsAll(count, i + 1);
    }
  }

  /** A batch can throw, and lose the results of chunks it sent, exactly when its last nonce leaves the u64 range. */
  lemma NeverThrowsIffNonceFits(nonce: Option<int>, count: nat)
    ensures (forall rpc :: Answers(rpc) ==> Fitting(nonce, count) >= AttemptCount(rpc, count, nonce.Some?, 0)) <==>
            NonceFits(nonce, count)
  {
    SunnyAttemptsAll(count, 0);
    forall i: nat ensures EventuallyFound(SunnyRpc().confirm(i)) {
      assert SunnyRpc().confirm(i)(0) != NotFound;
    }
    assert Answers(SunnyRpc());
    assert Fitting(nonce, count) >= count <==> NonceFits(nonce, count);
  }

  /**
   With a nonce, chunk `i + 1` is attempted only if every chunk up to `i` was confirmed first, and as far
   as that goes.
   */
  lemma {:induction false} AttemptedIffPredecessorsSettled(rpc: Rpc, count: nat, i: nat)
    requires i < count
    ensures i < AttemptCount(rpc, count, true, 0) <==> forall j :: 0 <= j < i ==> Settled(rpc, j)
  {
    AttemptsFrom(rpc, count, 0, i);
  }

  lemma {:induction false} AttemptsFrom(rpc: Rpc, count: nat, from: nat, i: nat)
    requires from <= i < count
    ensures i < from + AttemptCount(rpc, count, true, from) <==> forall j :: from <= j < i ==> Settled(rpc, j)
    decreases i - from
  {
    if from < i { AttemptsFrom(rpc, count, from + 1, i); }
  }

  /** What is attempted is the front of the list, in order; when every chunk is, it is the whole list. */
  lemma {:induction false} AttemptsCoverTheList(targets: seq<Address>, amounts: seq<int>, nonce: Option<int>, k: nat,
                                                attempts: seq<Attempt>, progress: seq<Progress>)
    requires |targets| == |amounts| && HandedOver(targets, amounts, nonce, k, attempts, progress)
    ensures TargetsOf(attempts) == Chunks(targets, k) && AmountsOf(attempts) == Chunks(amounts, k)
    ensures k == ChunkCount(|targets|) ==> TargetsOf(attempts) == targets && AmountsOf(attempts) == amounts
  {
    if k > 0 {
      AttemptsCoverTheList(targets, amounts, nonce, k - 1, attempts[..k - 1], progress[..k - 1]);
      CarriesChunk(targets, amounts, nonce, k - 1, attempts[k - 1]);
    }
    ChunksAreWhole(targets);
    ChunksAreWhole(amounts);
  }

  lemma CarriesChunk(targets: seq<Address>, amounts: seq<int>, nonce: Option<int>, i: nat, a: Attempt)
    requires Carries(targets, amounts, nonce, i, a)
    ensures a.targets == Chunk(targets, i) && a.amounts == Chunk(amounts, i)
  {}

  function TargetsOf(attempts: seq<Attempt>): (r: seq<Address>) {
    if attempts == [] then [] else TargetsOf(attempts[..|attempts| - 1]) + attempts[|attempts| - 1].targets
  }

  function AmountsOf(attempts: seq<Attempt>): (r: seq<int>) {
    if attempts == [] then [] else AmountsOf(attempts[..|attempts| - 1]) + attempts[|attempts| - 1].amounts
  }
}
