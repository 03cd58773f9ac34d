/** What the single steps of the relayer do, said in the terms of what arrives and of what is stored. */
module ProtocolOutcomes {
  import opened Prelude
  import opened Signatures
  import opened Stores
  import opened Protocol
  import opened ProtocolSafety

  // ---- What a failure message says --------------------------------------------------------

  /** `part` stands in `message` from position `i` on. */
  predicate StandsAt(part: string, message: string, i: nat) {
    i + |part| <= |message| && message[i..i + |part|] == part
  }

  ghost predicate Occurs(part: string, message: string) { exists i :: StandsAt(part, message, i) }

  lemma StandsFurther(part: string, message: string, i: nat)
    requires message != []
    ensures StandsAt(part, message, i + 1) <==> StandsAt(part, message[1..], i)
  {
    if i + 1 + |part| <= |message| { assert message[1..][i..i + |part|] == message[i + 1..i + 1 + |part|]; }
  }

  lemma OccursFurther(part: string, message: string)
    requires message != []
    ensures Occurs(part, message) <==> StandsAt(part, message, 0) || Occurs(part, message[1..])
  {
    if Occurs(part, message) {
      var i: nat :| StandsAt(part, message, i);
      if i > 0 { StandsFurther(part, message, i - 1); }
    }
    if Occurs(part, message[1..]) {
      var i: nat :| StandsAt(part, message[1..], i);
      StandsFurther(part, message, i);
    }
  }

  lemma {:induction false} ContainsIsOccurs(message: string, part: string)
    ensures Contains(message, part) <==> Occurs(part, message)
  {
    assert part <= message <==> StandsAt(part, message, 0);
    if message != [] {
      OccursFurther(part, message);
      ContainsIsOccurs(message[1..], part);
    }
  }

  /** The contract had seen the key before: the deposit is already paid out. */
  ghost predicate SaysReplayed(message: string) { Occurs("ReplayedNonce", message) }

  /** Trying again can never help. */
  ghost predicate SaysHopeless(message: string) {
    Occurs("InvalidAmount", message) || Occurs("AssetNotWhitelisted", message) || Occurs("AddressBlocked", message)
  }

  // ---- The row of a dead-lettered event ---------------------------------------------------

  /** One minute, doubled with each attempt, and an hour from the seventh on. */
  function Delay(attempts: nat): (ms: int)
    requires attempts >= 1
  {
    if attempts <= 6 then 60_000 * [1, 2, 4, 8, 16, 32][attempts - 1] else 3_600_000
  }

  lemma {:induction false} ManyDoublings(n: nat)
    ensures Numerals.Pow(2, n + 6) >= 64
  {
    if n == 0 {
      assert Numerals.Pow(2, 3) == 8 && Numerals.Pow(2, 6) == 64;
    } else {
      ManyDoublings(n - 1);
      assert Numerals.Pow(2, n + 6) == 2 * Numerals.Pow(2, n - 1 + 6);
    }
  }

  lemma BackoffIsDelay(attempts: nat)
    requires attempts >= 1
    ensures Backoff(attempts) == Delay(attempts)
  {
    if attempts >= 7 { ManyDoublings(attempts - 7); }
  }

  /** The queue lost any rows of `e`'s key and gained one at its end, for `e` itself. */
  ghost predicate RowAdded(dlq: seq<DeadLetterEntry>, dlq': seq<DeadLetterEntry>, e: BridgeEvent,
                           available: nat, required: nat, reason: Reason, terminal: bool, now: int)
  {
    && dlq' != []
    && var kept, row := dlq'[..|dlq'| - 1], dlq'[|dlq'| - 1];
    && (forall r :: r in kept <==> r in dlq && (r.event.chainId != e.chainId || r.event.txHash != e.txHash))
    && row.event == e && row.availableSigners == available && row.requiredSigners == required
    && row.reason == reason && row.terminal == terminal && row.enqueuedAt == now
    && row.attempts == Attempts(dlq, Key(e.chainId, e.txHash)) + 1
    && row.nextRetryAt == now + Delay(row.attempts)
  }

  lemma EnqueuedAddsRow(dlq: seq<DeadLetterEntry>, e: BridgeEvent, available: nat, required: nat, reason: Reason,
                        terminal: bool, now: int)
    ensures RowAdded(dlq, Enqueued(dlq, e, available, required, reason, terminal, now), e,
                     available, required, reason, terminal, now)
  {
    var dlq' := Enqueued(dlq, e, available, required, reason, terminal, now);
    assert dlq'[..|dlq'| - 1] == Without(dlq, KeyOf(e));
    WithoutFacts(dlq, KeyOf(e));
    BackoffIsDelay(Attempts(dlq, KeyOf(e)) + 1);
  }

  // ---- Settling a submission --------------------------------------------------------------

  /** The submission counts: it was accepted, or the contract refused it because an earlier one had been. */
  ghost predicate Counts(outcome: Outcome) {
    outcome.Accepted? || (outcome.Failed? && SaysReplayed(outcome.message))
  }

  ghost predicate Hopeless(outcome: Outcome) { outcome.Failed? && SaysHopeless(outcome.message) }

  function ReasonOf(outcome: Outcome): (r: Reason) {
    if outcome.Failed? then SubmissionFailed(outcome.message) else ProcessingFailed
  }

  /**
   A submission returns: the key becomes a submitted one exactly if the submission was accepted or failed
   with a message that says it was replayed, and then its row goes; any other outcome leaves the nonces
   alone and queues the call's own event, for good exactly if the message says that no retry can help.
   */
  lemma SubmissionSettles(c: Config, s: State, p: ProcId, outcome: Outcome, now: int)
    requires Safe(c, s) && Enabled(c, s, SubmissionReturns(p, outcome, now))
    ensures var s', e := Apply(c, s, SubmissionReturns(p, outcome, now)), s.procs[p].event;
            && (Key(e.chainId, e.txHash) in s'.nonces <==> Counts(outcome))
            && (Counts(outcome) ==>
                  && s'.nonces == s.nonces + {Key(e.chainId, e.txHash)}
                  && forall r :: r in s'.dlq <==>
                       r in s.dlq && (r.event.chainId != e.chainId || r.event.txHash != e.txHash))
            && (!Counts(outcome) ==>
                  && s'.nonces == s.nonces
                  && RowAdded(s.dlq, s'.dlq, e, |s.procs[p].phase.sigs|, c.threshold,
                              ReasonOf(outcome), Hopeless(outcome), now))
            && s'.procs == s.procs[p := s.procs[p].(phase := Settled)]
  {
    var e, n := s.procs[p].event, |s.procs[p].phase.sigs|;
    WithoutFacts(s.dlq, KeyOf(e));
    if outcome.Failed? {
      ContainsIsOccurs(outcome.message, "ReplayedNonce");
      ContainsIsOccurs(outcome.message, "InvalidAmount");
      ContainsIsOccurs(outcome.message, "AssetNotWhitelisted");
      ContainsIsOccurs(outcome.message, "AddressBlocked");
    }
    EnqueuedAddsRow(s.dlq, e, n, c.threshold, ReasonOf(outcome), Hopeless(outcome), now);
  }

  // ---- Answering signers ------------------------------------------------------------------

  /**
   The signers answer: with enough distinct keys, the first `threshold` verified signatures of new keys, in
   node order, go out with the event; otherwise the event is queued with the number of keys that did sign.
   */
  lemma SignersSettle(c: Config, s: State, p: ProcId, responses: seq<SignerResponse>, now: int) returns (at: seq<nat>)
    requires Enabled(c, s, SignersAnswer(p, responses, now))
    ensures var s', e := Apply(c, s, SignersAnswer(p, responses, now)), s.procs[p].event;
            var distinct := |KeySet(VerifiedSigs(c.verify, c.payloadHash(e), responses))|;
            && s'.nonces == s.nonces
            && (distinct < c.threshold ==>
                  && s'.sent == s.sent
                  && RowAdded(s.dlq, s'.dlq, e, distinct, c.threshold, InsufficientSigners, false, now))
            && (distinct >= c.threshold ==>
                  && s'.dlq == s.dlq && |s'.sent| == |s.sent| + 1 && s'.sent[..|s.sent|] == s.sent
                  && s'.sent[|s.sent|].event == e && |s'.sent[|s.sent|].sigs| == c.threshold
                  && Picks(c.verify, c.payloadHash(e), responses, s'.sent[|s.sent|].sigs, at))
  {
    var e := s.procs[p].event;
    var digest := c.payloadHash(e);
    var verified := VerifiedSigs(c.verify, digest, responses);
    var sigs := Collected(c.verify, digest, responses);
    FirstPerKeyFacts(verified);
    at := CollectedPicks(c.verify, digest, responses);
    EnqueuedAddsRow(s.dlq, e, |sigs|, c.threshold, InsufficientSigners, false, now);
    if |sigs| >= c.threshold {
      PicksPrefix(c.verify, digest, responses, sigs, at, c.threshold);
      at := at[..c.threshold];
    }
  }

  // ---- The turns of a poll ----------------------------------------------------------------

  /**
   The chain head arrives: with something confirmed at or behind the cursor, the poll asks from the cursor up
   to the last confirmed block, or as far as one range goes; otherwise it ends.
   */
  lemma HeadAsksForConfirmed(c: Config, s: State, q: PollId, latest: nat)
    requires Enabled(c, s, HeadArrives(q, HeadAt(latest)))
    ensures var s' := Apply(c, s, HeadArrives(q, HeadAt(latest)));
            var safe := if latest >= c.confirmations then latest - c.confirmations else 0;
            && s'.cursor == s.cursor
            && (s.cursor <= safe && c.maxBlockRange >= 1 ==>
                  && q in s'.polls && s'.polls[q].AwaitingLogs? && s'.polls[q].from == s.cursor
                  && s'.polls[q].to <= safe && s'.polls[q].to < s.cursor + c.maxBlockRange
                  && (s'.polls[q].to == safe || s'.polls[q].to == s.cursor + c.maxBlockRange - 1))
            && (s.cursor > safe || c.maxBlockRange < 1 ==> q !in s'.polls && s'.queries == s.queries)
  {}

  /**
   The logs arrive: an error ends the poll, an array is delivered from its first log on, and anything else as
   no logs.
   */
  lemma ReplyIsDelivered(c: Config, s: State, q: PollId, reply: LogsReply)
    requires Enabled(c, s, LogsArrive(q, reply))
    ensures var s' := Apply(c, s, LogsArrive(q, reply));
            && s'.cursor == s.cursor && s'.procs == s.procs && s'.nonces == s.nonces && s'.dlq == s.dlq
            && (reply.LogsError? ==> q !in s'.polls)
            && (!reply.LogsError? ==>
                  && q in s'.polls && s'.polls[q].Delivering?
                  && s'.polls[q].from == s.polls[q].from && s'.polls[q].to == s.polls[q].to
                  && s'.polls[q].next == 0 && s'.polls[q].wait == None
                  && s'.polls[q].logs == match reply case LogsAre(logs) => logs case _ => [])
  {}

  /** A poll past its last log moves the cursor behind its range, and is over. */
  lemma PollEndsBehindItsRange(c: Config, s: State, q: PollId)
    requires Enabled(c, s, PollEnds(q))
    ensures Apply(c, s, PollEnds(q)) == s.(cursor := s.polls[q].to + 1, polls := s.polls - {q})
    ensures s.polls[q].next == |s.polls[q].logs| && s.polls[q].wait == None
  {}

  /** A reorged log and one that does not decode change nothing but the poll that passes them. */
  lemma RemovedLogIsPassed(c: Config, s: State, q: PollId)
    requires Enabled(c, s, DeliverLog(q))
    requires var log := s.polls[q].logs[s.polls[q].next]; log.removed || c.decode(log).None?
    ensures Apply(c, s, DeliverLog(q)) ==
            s.(polls := s.polls[q := s.polls[q].(next := s.polls[q].next + 1)])
  {}

  /**
   Any other log is handed over: ignored if invalid or submitted, joined to a running call, or given a call of
   its own.
   */
  lemma LogIsHandedOver(c: Config, s: State, q: PollId)
    requires Enabled(c, s, DeliverLog(q))
    requires var log := s.polls[q].logs[s.polls[q].next]; !log.removed && c.decode(log).Some?
    ensures var s', e := Apply(c, s, DeliverLog(q)), c.decode(s.polls[q].logs[s.polls[q].next]).value;
            var k := Key(e.chainId, e.txHash);
            && s'.nonces == s.nonces && s'.dlq == s.dlq && s'.sent == s.sent && s'.cursor == s.cursor
            && (!c.valid(e) || k in s.nonces ==> s'.procs == s.procs && s'.inFlight == s.inFlight)
            && (c.valid(e) && k !in s.nonces && k in s.inFlight ==>
                  s'.procs == s.procs && s'.inFlight == s.inFlight && s'.polls[q].wait == Some(s.inFlight[k]))
            && (c.valid(e) && k !in s.nonces && k !in s.inFlight ==>
                  && s'.procs == s.procs[s.nextId := Proc(e, false, Signing)]
                  && s'.inFlight == s.inFlight[k := s.nextId] && s'.polls[q].wait == Some(s.nextId))
  {}

  /** An event of another listener is handed over in the same way, and no poll or sweep is disturbed. */
  lemma OtherListenersAreServed(c: Config, s: State, e: BridgeEvent)
    ensures var s', k := Apply(c, s, OtherListener(e)), Key(e.chainId, e.txHash);
            if c.valid(e) && k !in s.nonces && k !in s.inFlight then
              s' == s.(procs := s.procs[s.nextId := Proc(e, false, Signing)],
                       inFlight := s.inFlight[k := s.nextId], nextId := s.nextId + 1)
            else s' == s
  {}

  // ---- The snapshot of a sweep ------------------------------------------------------------

  /** A sweep works on the rows that are not terminal, have fewer than five attempts and are due, or does not start. */
  lemma SweepTakesDueRows(c: Config, s: State, now: int)
    requires Enabled(c, s, SweepStarts(now))
    ensures var s' := Apply(c, s, SweepStarts(now));
            && (s'.sweep.Idle? <==> forall e :: e in s.dlq ==> e.terminal || e.attempts >= 5 || e.nextRetryAt > now)
            && (s'.sweep.Sweeping? ==>
                  && s'.sweep.next == 0 && s'.sweep.wait == None
                  && forall e :: e in s'.sweep.pending <==>
                       e in s.dlq && !e.terminal && e.attempts < 5 && e.nextRetryAt <= now)
            && s' == s.(sweep := s'.sweep)
  {
    DueRowsFacts(s.dlq, now);
    var pending := DueRows(s.dlq, now);
    if pending != [] { assert pending[0] in pending; }
  }

  /** A retry hands over the event of the next row of the snapshot, as the sweep's own. */
  lemma SweepHandsOverNextRow(c: Config, s: State)
    requires Enabled(c, s, SweepRetries)
    ensures var s', e := Apply(c, s, SweepRetries), s.sweep.pending[s.sweep.next].event;
            var k := Key(e.chainId, e.txHash);
            && s'.nonces == s.nonces && s'.dlq == s.dlq && s'.sweep.next == s.sweep.next + 1
            && (c.valid(e) && k !in s.nonces && k !in s.inFlight ==>
                  s'.procs == s.procs[s.nextId := Proc(e, true, Signing)] && s'.sweep.wait == Some(s.nextId))
  {}
}
