/** What every run of the relayer process keeps: at-most-once submission, disjoint stores, threshold safety. */
module ProtocolSafety {
  import opened Signatures
  import opened Stores
  import opened Protocol

  // ---- The invariant ----------------------------------------------------------------------

  /** The in-flight map and the running `processEvent` calls mirror each other. */
  ghost predicate CallsMatchInFlight(s: State) {
    && (forall p :: p in s.procs ==>
          p < s.nextId && KeyOf(s.procs[p].event) in s.inFlight && s.inFlight[KeyOf(s.procs[p].event)] == p)
    && (forall k :: k in s.inFlight ==> s.inFlight[k] in s.procs && KeyOf(s.procs[s.inFlight[k]].event) == k)
  }

  /** A running call works on a key not yet submitted; a settled call has left its key in a store. */
  ghost predicate CallsMatchStores(c: Config, s: State) {
    forall p :: p in s.procs ==>
      var k := KeyOf(s.procs[p].event);
      && c.valid(s.procs[p].event)
      && (if s.procs[p].phase.Settled? then Stored(s, k) else k !in s.nonces)
  }

  /** The dead-letter queue has one row per key, with an attempt count, and no submitted key. */
  ghost predicate StoresOk(s: State) {
    && OneRowPerKey(s.dlq)
    && s.nonces !! Queued(s.dlq)
    && (forall k :: k in Queued(s.dlq) ==> Attempts(s.dlq, k) >= 1)
  }

  /** No key is accepted twice, and an accepted key is in the nonce store. */
  ghost predicate AcceptedOk(s: State) {
    forall k :: s.accepted[k] <= (if k in s.nonces then 1 else 0)
  }

  ghost predicate SubmissionsOk(c: Config, s: State) {
    forall i :: 0 <= i < |s.sent| ==>
      ThresholdSigned(c.verify, c.payloadHash(s.sent[i].event), c.threshold, s.sent[i].sigs) && c.valid(s.sent[i].event)
  }

  /** Every log query spans at most `maxBlockRange` blocks, all of them confirmed (or block 0). */
  ghost predicate QueriesOk(c: Config, s: State) {
    forall i :: 0 <= i < |s.queries| ==>
      var q := s.queries[i];
      q.from <= q.to < q.from + c.maxBlockRange && (q.to + c.confirmations <= q.latest || q.to == 0)
  }

  /** What the code itself relies on; the rest of `Safe` is about what is observed. */
  ghost predicate CallsOk(c: Config, s: State) {
    && CallsMatchInFlight(s)
    && CallsMatchStores(c, s)
    && StoresOk(s)
  }

  ghost predicate Safe(c: Config, s: State) {
    && CallsOk(c, s)
    && AcceptedOk(s)
    && SubmissionsOk(c, s)
    && QueriesOk(c, s)
  }

  // ---- How a step changes the stores ------------------------------------------------------

  /** `k` gains an attempt in the queue, or moves from the queue to the nonce store. */
  ghost predicate Settles(s: State, s': State, k: Key) {
    || (s'.nonces == s.nonces && OneMoreAttempt(s.dlq, s'.dlq, k))
    || (s'.nonces == s.nonces + {k} && RowDropped(s.dlq, s'.dlq, k))
  }

  lemma SubmissionChangesStores(c: Config, s: State, p: ProcId, outcome: Outcome, now: int)
    requires p in s.procs && s.procs[p].phase.Submitting?
    ensures Settles(s, AfterSubmission(c, s, p, outcome, now), KeyOf(s.procs[p].event))
  {
    var event := s.procs[p].event;
    var available := |s.procs[p].phase.sigs|;
    WithoutIsRowDropped(s.dlq, KeyOf(event));
    match outcome
    case Accepted =>
    case Failed(message) =>
      EnqueuedIsOneMoreAttempt(s.dlq, event, available, c.threshold, SubmissionFailed(message), IsTerminal(message),
                               now);
    case Threw =>
      EnqueuedIsOneMoreAttempt(s.dlq, event, available, c.threshold, ProcessingFailed, false, now);
  }

  lemma SigningChangesStores(c: Config, s: State, p: ProcId, responses: seq<SignerResponse>, now: int)
    requires p in s.procs && s.procs[p].phase.Signing?
    ensures var s' := AfterSigning(c, s, p, responses, now);
            && p in s'.procs
            && if s'.procs[p].phase.Settled? then Settles(s, s', KeyOf(s.procs[p].event))
               else s'.dlq == s.dlq && s'.nonces == s.nonces
  {
    var event := s.procs[p].event;
    var sigs := Collected(c.verify, c.payloadHash(event), responses);
    EnqueuedIsOneMoreAttempt(s.dlq, event, |sigs|, c.threshold, InsufficientSigners, false, now);
  }

  /** Only a settling call changes the stores, and only for its own key. */
  lemma StoreChange(c: Config, s: State, step: Step)
    requires Enabled(c, s, step)
    ensures var s' := Apply(c, s, step);
            || (s'.dlq == s.dlq && s'.nonces == s.nonces)
            || ((step.SignersAnswer? || step.SubmissionReturns?) && Settles(s, s', KeyOf(s.procs[step.proc].event)))
  {
    match step
    case SignersAnswer(p, responses, now) => SigningChangesStores(c, s, p, responses, now);
    case SubmissionReturns(p, outcome, now) => SubmissionChangesStores(c, s, p, outcome, now);
    case _ =>
  }

  // ---- The three kinds of change to the calls ---------------------------------------------

  lemma HandleKeepsCalls(c: Config, s: State, event: BridgeEvent, bySweep: bool)
    requires CallsOk(c, s)
    ensures CallsOk(c, Handle(c, s, event, bySweep).0)
  {}

  lemma HandleKeepsSafe(c: Config, s: State, event: BridgeEvent, bySweep: bool)
    requires Safe(c, s)
    ensures Safe(c, Handle(c, s, event, bySweep).0)
  {
    HandleKeepsCalls(c, s, event, bySweep);
  }

  /** Settling the one call for a key, with the key left in a store, keeps calls and stores in step. */
  lemma SettleKeepsCalls(c: Config, s: State, s': State, p: ProcId)
    requires CallsOk(c, s) && Active(s, p) && Settles(s, s', KeyOf(s.procs[p].event))
    requires s'.procs == Settle(s, p).procs && s'.inFlight == s.inFlight && s'.nextId == s.nextId
    ensures CallsOk(c, s')
  {
    var k := KeyOf(s.procs[p].event);
    assert StoresOk(s');
    assert forall other :: Stored(s, other) ==> Stored(s', other);
    assert forall q :: q in s.procs && q != p ==> KeyOf(s.procs[q].event) != k;
  }

  lemma SettleKeepsSafe(c: Config, s: State, s': State, p: ProcId)
    requires Safe(c, s) && Active(s, p) && Settles(s, s', KeyOf(s.procs[p].event))
    requires s'.procs == Settle(s, p).procs && s'.inFlight == s.inFlight && s'.nextId == s.nextId
    requires s'.sent == s.sent && s'.queries == s.queries
    requires || s'.accepted == s.accepted
             || (s'.accepted == s.accepted + multiset{KeyOf(s.procs[p].event)} && KeyOf(s.procs[p].event) in s'.nonces)
    ensures Safe(c, s')
  {
    SettleKeepsCalls(c, s, s', p);
  }

  lemma AfterSubmissionKeepsSafe(c: Config, s: State, p: ProcId, outcome: Outcome, now: int)
    requires Safe(c, s) && p in s.procs && s.procs[p].phase.Submitting?
    ensures Safe(c, AfterSubmission(c, s, p, outcome, now))
  {
    SubmissionChangesStores(c, s, p, outcome, now);
    SettleKeepsSafe(c, s, AfterSubmission(c, s, p, outcome, now), p);
  }

  lemma SubmittingKeepsSafe(c: Config, s: State, p: ProcId, sigs: seq<RelayerSig>, submission: Submission)
    requires Safe(c, s) && Active(s, p) && submission.event == s.procs[p].event
    requires ThresholdSigned(c.verify, c.payloadHash(submission.event), c.threshold, submission.sigs)
    ensures Safe(c, s.(procs := s.procs[p := s.procs[p].(phase := Submitting(sigs))], sent := s.sent + [submission]))
  {}

  lemma AfterSigningKeepsSafe(c: Config, s: State, p: ProcId, responses: seq<SignerResponse>, now: int)
    requires Safe(c, s) && p in s.procs && s.procs[p].phase.Signing?
    ensures Safe(c, AfterSigning(c, s, p, responses, now))
  {
    var digest := c.payloadHash(s.procs[p].event);
    var sigs := Collected(c.verify, digest, responses);
    if |sigs| < c.threshold {
      SigningChangesStores(c, s, p, responses, now);
      SettleKeepsSafe(c, s, AfterSigning(c, s, p, responses, now), p);
    } else {
      CollectedPrefixIsThresholdSigned(c.verify, digest, responses, c.threshold);
      SubmittingKeepsSafe(c, s, p, sigs, Submission(s.procs[p].event, sigs[..c.threshold]));
    }
  }

  /** Two states that differ at most in polls, sweep, cursor and queries. */
  ghost predicate SameCalls(s: State, s': State) {
    && s'.nonces == s.nonces && s'.dlq == s.dlq && s'.inFlight == s.inFlight && s'.procs == s.procs
    && s'.sent == s.sent && s'.accepted == s.accepted && s.nextId <= s'.nextId
  }

  lemma ListenersKeepSafe(c: Config, s: State, s': State)
    requires Safe(c, s) && QueriesOk(c, s') && SameCalls(s, s')
    ensures Safe(c, s')
  {}

  /** A step of a poll or a sweep that hands no event over. */
  predicate Bookkeeping(step: Step) {
    match step
    case StartPoll => true
    case HeadArrives(_, _) => true
    case LogsArrive(_, _) => true
    case PollResumes(_) => true
    case PollEnds(_) => true
    case SweepStarts(_) => true
    case SweepResumes => true
    case SweepEnds => true
    case _ => false
  }

  lemma HeadKeepsSafe(c: Config, s: State, q: PollId, head: Head)
    requires Safe(c, s) && q in s.polls && s.polls[q].AwaitingHead?
    ensures Safe(c, AfterHead(c, s, q, head))
  {
    ListenersKeepSafe(c, s, AfterHead(c, s, q, head));
  }

  lemma BookkeepingKeepsSafe(c: Config, s: State, step: Step)
    requires Safe(c, s) && Enabled(c, s, step) && Bookkeeping(step)
    ensures Safe(c, Apply(c, s, step))
  {
    if step.HeadArrives? {
      HeadKeepsSafe(c, s, step.poll, step.head);
    } else {
      assert Apply(c, s, step).queries == s.queries && SameCalls(s, Apply(c, s, step));
      ListenersKeepSafe(c, s, Apply(c, s, step));
    }
  }

  lemma DeliveryKeepsSafe(c: Config, s: State, q: PollId)
    requires Safe(c, s) && Enabled(c, s, DeliverLog(q))
    ensures Safe(c, Apply(c, s, DeliverLog(q)))
  {
    var event := EventOf(c, s.polls[q].logs[s.polls[q].next]);
    if event.Some? {
      HandleKeepsSafe(c, s, event.value, false);
      ListenersKeepSafe(c, Handle(c, s, event.value, false).0, Apply(c, s, DeliverLog(q)));
    } else {
      ListenersKeepSafe(c, s, Apply(c, s, DeliverLog(q)));
    }
  }

  lemma SweepRetryKeepsSafe(c: Config, s: State)
    requires Safe(c, s) && Enabled(c, s, SweepRetries)
    ensures Safe(c, Apply(c, s, SweepRetries))
  {
    var event := s.sweep.pending[s.sweep.next].event;
    HandleKeepsSafe(c, s, event, true);
    ListenersKeepSafe(c, Handle(c, s, event, true).0, Apply(c, s, SweepRetries));
  }

  lemma MemoryLossKeepsSafe(c: Config, s: State, step: Step)
    requires Safe(c, s) && Enabled(c, s, step) && (step.ClearInFlight? || step.Restart?)
    ensures Safe(c, Apply(c, s, step))
  {}

  // ---- Preservation -----------------------------------------------------------------------

  lemma StepKeepsSafe(c: Config, s: State, step: Step)
    requires Safe(c, s) && Enabled(c, s, step)
    ensures Safe(c, Apply(c, s, step))
  {
    match step
    case DeliverLog(q) => DeliveryKeepsSafe(c, s, q);
    case OtherListener(event) => HandleKeepsSafe(c, s, event, false);
    case SweepRetries => SweepRetryKeepsSafe(c, s);
    case SignersAnswer(p, responses, now) => AfterSigningKeepsSafe(c, s, p, responses, now);
    case SubmissionReturns(p, outcome, now) => AfterSubmissionKeepsSafe(c, s, p, outcome, now);
    case ClearInFlight(p) => MemoryLossKeepsSafe(c, s, step);
    case Restart => MemoryLossKeepsSafe(c, s, step);
    case _ => BookkeepingKeepsSafe(c, s, step);
  }

  lemma InitIsSafe(c: Config, s: State, start: nat)
    requires Init(s, start)
    ensures Safe(c, s)
  {
    forall k | k in Queued(s.dlq) ensures Attempts(s.dlq, k) >= 1 {
      var e :| e in s.dlq && KeyOf(e.event) == k;
      AttemptsOfRow(s.dlq, e);
    }
  }

  lemma {:induction false} RunIsSafe(c: Config, states: seq<State>, steps: seq<Step>, start: nat, i: nat)
    requires Run(c, states, steps) && Init(states[0], start) && i < |states|
    ensures Safe(c, states[i])
  {
    if i == 0 {
      InitIsSafe(c, states[0], start);
    } else {
      RunIsSafe(c, states, steps, start, i - 1);
      StepKeepsSafe(c, states[i - 1], steps[i - 1]);
    }
  }

  // ---- The theorems -----------------------------------------------------------------------

  /**
   At most once: at any moment of any run at most one `processEvent` call works on a key, over the
   whole run, restarts included, at most one submission of a key comes back accepted, and an accepted
   key is never dead-lettered.
   */
  lemma AtMostOnce(c: Config, states: seq<State>, steps: seq<Step>, start: nat, i: nat)
    requires Run(c, states, steps) && Init(states[0], start) && i < |states|
    ensures forall p, q ::
              (&& Active(states[i], p) && Active(states[i], q)
               && KeyOf(states[i].procs[p].event) == KeyOf(states[i].procs[q].event)) ==> p == q
    ensures forall k :: states[i].accepted[k] <= 1
    ensures forall k :: k in states[i].accepted ==> k in states[i].nonces && k !in Queued(states[i].dlq)
    ensures states[i].nonces !! Queued(states[i].dlq)
  {
    RunIsSafe(c, states, steps, start, i);
  }

  /** Threshold safety: every submission of every run carries exactly `threshold` verified, distinct keys. */
  lemma SubmissionsAreThresholdSigned(c: Config, states: seq<State>, steps: seq<Step>, start: nat, i: nat, j: nat)
    requires Run(c, states, steps) && Init(states[0], start) && i < |states| && j < |states[i].sent|
    ensures var sub := states[i].sent[j];
            && |sub.sigs| == c.threshold
            && DistinctKeys(sub.sigs)
            && forall n :: 0 <= n < |sub.sigs| ==> c.verify(sub.sigs[n], c.payloadHash(sub.event))
  {
    RunIsSafe(c, states, steps, start, i);
  }

  /** An event is submitted exactly when enough distinct keys signed it; otherwise it is dead-lettered. */
  lemma SubmittedIffThresholdMet(c: Config, s: State, p: ProcId, responses: seq<SignerResponse>, now: int)
    requires Enabled(c, s, SignersAnswer(p, responses, now))
    ensures var s' := Apply(c, s, SignersAnswer(p, responses, now));
            var event := s.procs[p].event;
            var distinct := |KeySet(VerifiedSigs(c.verify, c.payloadHash(event), responses))|;
            && (distinct >= c.threshold <==> |s'.sent| == |s.sent| + 1)
            && (distinct >= c.threshold ==> s'.sent[|s.sent|].event == event && s'.dlq == s.dlq)
            && (distinct < c.threshold ==>
                  s'.sent == s.sent && KeyOf(event) in Queued(s'.dlq) && s'.procs[p].phase.Settled?)
  {
    var event := s.procs[p].event;
    var verified := VerifiedSigs(c.verify, c.payloadHash(event), responses);
    FirstPerKeyFacts(verified);
    EnqueuedFacts(s.dlq, event, |FirstPerKey(verified)|, c.threshold, InsufficientSigners, false, now);
  }

  /** Only confirmed blocks are ever queried, in ranges of bounded width, however polls overlap. */
  lemma QueriesStayConfirmed(c: Config, states: seq<State>, steps: seq<Step>, start: nat, i: nat, j: nat, b: nat)
    requires Run(c, states, steps) && Init(states[0], start) && i < |states| && j < |states[i].queries|
    requires states[i].queries[j].from <= b <= states[i].queries[j].to
    ensures b + c.confirmations <= states[i].queries[j].latest || b == 0
    ensures states[i].queries[j].to - states[i].queries[j].from < c.maxBlockRange
  {
    RunIsSafe(c, states, steps, start, i);
  }
}
