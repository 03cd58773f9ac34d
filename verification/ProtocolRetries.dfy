/**
 Retries are bounded: sweeps start at most four `processEvent` calls per key, plus one for each that a
 restart killed.
 */
module ProtocolRetries {
  import opened Prelude
  import opened Signatures
  import opened Stores
  import opened Protocol
  import opened ProtocolSafety

  /** The number of calls a sweep may have started for `k` while its row says `attempts`. */
  ghost function Allowed(s: State, k: Key, attempts: int): (n: int) { attempts - 1 + s.killed[k] }

  ghost predicate RowsPayForStarts(s: State) {
    forall k :: s.sweepStarts[k] <=
                if k in Queued(s.dlq) then Allowed(s, k, Attempts(s.dlq, k)) + (if Retrying(s, k) then 1 else 0)
                else if k in s.nonces then 4 + s.killed[k]
                else 0
  }

  ghost predicate StartsBounded(s: State) {
    forall k :: s.sweepStarts[k] <= 4 + s.killed[k]
  }

  /** The rows still ahead in the snapshot: retriable when taken, one per key, each not yet retried. */
  ghost predicate SnapshotOk(s: State) {
    s.sweep.Sweeping? ==>
      && s.sweep.next <= |s.sweep.pending|
      && OneRowPerKey(s.sweep.pending)
      && forall j :: s.sweep.next <= j < |s.sweep.pending| ==>
           var row := s.sweep.pending[j];
           && row.attempts <= 4 && Stored(s, KeyOf(row.event))
           && s.sweepStarts[KeyOf(row.event)] <= Allowed(s, KeyOf(row.event), row.attempts)
  }

  /** A call started by a sweep is awaited by that sweep. */
  ghost predicate SweepOwnsItsCalls(s: State) {
    forall p :: Active(s, p) && s.procs[p].bySweep ==> s.sweep.Sweeping? && s.sweep.wait == Some(p)
  }

  ghost predicate Bounded(s: State) {
    RowsPayForStarts(s) && StartsBounded(s) && SnapshotOk(s) && SweepOwnsItsCalls(s)
  }

  // ---- Preservation -----------------------------------------------------------------------

  lemma ListenerEventKeepsBounded(c: Config, s: State, event: BridgeEvent)
    requires CallsOk(c, s) && Bounded(s)
    ensures Bounded(Handle(c, s, event, false).0)
  {}

  /** A settling call pays for its start with the attempt it adds to the row. */
  lemma SettleQueuedPays(c: Config, s: State, p: ProcId, dlq': seq<DeadLetterEntry>)
    requires CallsOk(c, s) && RowsPayForStarts(s) && Active(s, p)
    requires OneMoreAttempt(s.dlq, dlq', KeyOf(s.procs[p].event))
    ensures RowsPayForStarts(Settle(s, p).(dlq := dlq'))
  {
    var s' := Settle(s, p).(dlq := dlq');
    var key := KeyOf(s.procs[p].event);
    forall k ensures s.sweepStarts[k] <=
      if k in Queued(dlq') then Allowed(s', k, Attempts(dlq', k)) + (if Retrying(s', k) then 1 else 0)
      else if k in s.nonces then 4 + s.killed[k] else 0
    {
      assert Retrying(s, k) ==> Retrying(s', k) || k == key;
      if key !in Queued(s.dlq) { AttemptsUnqueued(s.dlq, key); }
    }
  }

  lemma SettleQueuedKeepsBounded(c: Config, s: State, p: ProcId, dlq': seq<DeadLetterEntry>)
    requires CallsOk(c, s) && Bounded(s) && Active(s, p)
    requires OneMoreAttempt(s.dlq, dlq', KeyOf(s.procs[p].event))
    ensures Bounded(Settle(s, p).(dlq := dlq'))
  {
    SettleQueuedPays(c, s, p, dlq');
    assert SnapshotOk(Settle(s, p).(dlq := dlq'));
  }

  lemma SettleSubmittedKeepsBounded(c: Config, s: State, p: ProcId, dlq': seq<DeadLetterEntry>)
    requires CallsOk(c, s) && Bounded(s) && Active(s, p)
    requires RowDropped(s.dlq, dlq', KeyOf(s.procs[p].event))
    ensures Bounded(Settle(s, p).(nonces := s.nonces + {KeyOf(s.procs[p].event)}, dlq := dlq'))
  {
    var key := KeyOf(s.procs[p].event);
    var s' := Settle(s, p).(nonces := s.nonces + {key}, dlq := dlq');
    forall k ensures s.sweepStarts[k] <=
      if k in Queued(dlq') then Allowed(s', k, Attempts(dlq', k)) + (if Retrying(s', k) then 1 else 0)
      else if k in s'.nonces then 4 + s.killed[k] else 0
    {
      assert Retrying(s, k) ==> Retrying(s', k) || k == key;
    }
  }

  lemma DeadLetterKeepsBounded(c: Config, s: State, p: ProcId, available: nat, reason: Reason, terminal: bool, now: int)
    requires CallsOk(c, s) && Bounded(s) && Active(s, p)
    ensures Bounded(DeadLetter(c, s, p, available, reason, terminal, now))
  {
    var event := s.procs[p].event;
    EnqueuedIsOneMoreAttempt(s.dlq, event, available, c.threshold, reason, terminal, now);
    SettleQueuedKeepsBounded(c, s, p, Enqueued(s.dlq, event, available, c.threshold, reason, terminal, now));
  }

  lemma MarkSubmittedKeepsBounded(c: Config, s: State, p: ProcId)
    requires CallsOk(c, s) && Bounded(s) && Active(s, p)
    ensures Bounded(MarkSubmitted(s, p))
  {
    var k := KeyOf(s.procs[p].event);
    WithoutIsRowDropped(s.dlq, k);
    SettleSubmittedKeepsBounded(c, s, p, Without(s.dlq, k));
  }

  lemma SubmittingKeepsBounded(s: State, p: ProcId, sigs: seq<RelayerSig>, sent: seq<Submission>)
    requires Bounded(s) && Active(s, p)
    ensures Bounded(s.(procs := s.procs[p := s.procs[p].(phase := Submitting(sigs))], sent := sent))
  {}

  lemma SigningKeepsBounded(c: Config, s: State, p: ProcId, responses: seq<SignerResponse>, now: int)
    requires CallsOk(c, s) && Bounded(s) && p in s.procs && s.procs[p].phase.Signing?
    ensures Bounded(AfterSigning(c, s, p, responses, now))
  {
    var sigs := Collected(c.verify, c.payloadHash(s.procs[p].event), responses);
    if |sigs| < c.threshold {
      DeadLetterKeepsBounded(c, s, p, |sigs|, InsufficientSigners, false, now);
    } else {
      SubmittingKeepsBounded(s, p, sigs, s.sent + [Submission(s.procs[p].event, sigs[..c.threshold])]);
    }
  }

  lemma AcceptedKeepsBounded(s: State, accepted: multiset<Key>)
    requires Bounded(s)
    ensures Bounded(s.(accepted := accepted))
  {}

  lemma SubmissionKeepsBounded(c: Config, s: State, p: ProcId, outcome: Outcome, now: int)
    requires CallsOk(c, s) && Bounded(s) && p in s.procs && s.procs[p].phase.Submitting?
    ensures Bounded(AfterSubmission(c, s, p, outcome, now))
  {
    var available := |s.procs[p].phase.sigs|;
    match outcome
    case Accepted =>
      MarkSubmittedKeepsBounded(c, s, p);
      AcceptedKeepsBounded(MarkSubmitted(s, p), s.accepted + multiset{KeyOf(s.procs[p].event)});
    case Failed(message) =>
      if IsReplay(message) {
        MarkSubmittedKeepsBounded(c, s, p);
      } else {
        DeadLetterKeepsBounded(c, s, p, available, SubmissionFailed(message), IsTerminal(message), now);
      }
    case Threw => DeadLetterKeepsBounded(c, s, p, available, ProcessingFailed, false, now);
  }

  /** The snapshot is stale, but a row it still holds has not been retried since it was taken. */
  lemma SweepRetryKeepsBounded(c: Config, s: State)
    requires CallsOk(c, s) && Bounded(s) && Enabled(c, s, SweepRetries)
    ensures Bounded(Apply(c, s, SweepRetries))
  {
    SweepRetryStarts(c, s);
    RetryKeepsBounded(c, s, Apply(c, s, SweepRetries), s.sweep.pending[s.sweep.next]);
  }

  lemma RetryKeepsBounded(c: Config, s: State, s': State, row: DeadLetterEntry)
    requires CallsOk(c, s) && Bounded(s) && s.sweep.Sweeping? && s.sweep.wait.None?
    requires s.sweep.next < |s.sweep.pending| && row == s.sweep.pending[s.sweep.next]
    requires Retried(s, s', row)
    ensures Bounded(s')
  {
    var key := KeyOf(row.event);
    forall k ensures !Retrying(s, k) && (Retrying(s', k) || s'.sweepStarts[k] == s.sweepStarts[k]) {}
    assert RowsPayForStarts(s');
    assert forall p :: Active(s', p) && s'.procs[p].bySweep ==> !Active(s, p);
  }

  /** A retry starts one call, awaited by the sweep, or none. */
  ghost predicate Retried(s: State, s': State, row: DeadLetterEntry)
    requires s.sweep.Sweeping?
  {
    && s'.dlq == s.dlq && s'.nonces == s.nonces && s'.killed == s.killed
    && s'.sweep.Sweeping? && s'.sweep.pending == s.sweep.pending && s'.sweep.next == s.sweep.next + 1
    && ((s'.procs == s.procs && s'.sweepStarts == s.sweepStarts)
        || (&& KeyOf(row.event) !in s.nonces
            && s'.sweepStarts == s.sweepStarts + multiset{KeyOf(row.event)}
            && s'.sweep.wait == Some(s.nextId)
            && s'.procs == s.procs[s.nextId := Proc(row.event, true, Signing)]))
  }

  lemma SweepRetryStarts(c: Config, s: State)
    requires Enabled(c, s, SweepRetries)
    ensures Retried(s, Apply(c, s, SweepRetries), s.sweep.pending[s.sweep.next])
  {}

  lemma SweepStartKeepsBounded(c: Config, s: State, now: int)
    requires CallsOk(c, s) && Bounded(s) && Enabled(c, s, SweepStarts(now))
    ensures Bounded(Apply(c, s, SweepStarts(now)))
  {
    DueRowsFacts(s.dlq, now);
    var pending, s' := DueRows(s.dlq, now), Apply(c, s, SweepStarts(now));
    forall j | 0 <= j < |pending|
      ensures pending[j].attempts <= 4 && Stored(s', KeyOf(pending[j].event))
      ensures s'.sweepStarts[KeyOf(pending[j].event)] <= Allowed(s', KeyOf(pending[j].event), pending[j].attempts)
    {
      assert pending[j] in pending;
      AttemptsOfRow(s.dlq, pending[j]);
      assert !Retrying(s, KeyOf(pending[j].event));
    }
    assert forall k :: !Retrying(s, k) && !Retrying(s', k);
    assert SweepOwnsItsCalls(s') by {
      assert forall p :: Active(s', p) ==> Active(s, p) && s'.procs[p] == s.procs[p];
    }
  }

  /** The cursor, the polls and the log of queries are not part of the invariant. */
  lemma PollsKeepBounded(s: State, s': State)
    requires Bounded(s) && SameCalls(s, s')
    requires s'.sweep == s.sweep && s'.sweepStarts == s.sweepStarts && s'.killed == s.killed
    ensures Bounded(s')
  {}

  /** A sweep whose awaited call has returned goes on, or ends. */
  lemma SweepGoesOn(s: State, sweep: Sweep)
    requires Bounded(s) && s.sweep.Sweeping? && Returned(s, s.sweep.wait)
    requires sweep == Idle || sweep == s.sweep.(wait := None)
    ensures Bounded(s.(sweep := sweep))
  {
    assert forall k :: !Retrying(s, k);
  }

  lemma BookkeepingKeepsBounded(c: Config, s: State, step: Step)
    requires Bounded(s) && Enabled(c, s, step)
    requires Bookkeeping(step) && !step.SweepStarts? && !step.SweepResumes? && !step.SweepEnds?
    ensures Bounded(Apply(c, s, step))
  {
    if step.HeadArrives? {
      PollsKeepBounded(s, AfterHead(c, s, step.poll, step.head));
    } else {
      PollsKeepBounded(s, Apply(c, s, step));
    }
  }

  lemma DeliveryKeepsBounded(c: Config, s: State, q: PollId)
    requires CallsOk(c, s) && Bounded(s) && Enabled(c, s, DeliverLog(q))
    ensures Bounded(Apply(c, s, DeliverLog(q)))
  {
    var event := EventOf(c, s.polls[q].logs[s.polls[q].next]);
    if event.Some? {
      ListenerEventKeepsBounded(c, s, event.value);
      PollsKeepBounded(Handle(c, s, event.value, false).0, Apply(c, s, DeliverLog(q)));
    } else {
      PollsKeepBounded(s, Apply(c, s, DeliverLog(q)));
    }
  }

  lemma ClearKeepsBounded(c: Config, s: State, p: ProcId)
    requires CallsOk(c, s) && Bounded(s) && Enabled(c, s, ClearInFlight(p))
    ensures Bounded(Apply(c, s, ClearInFlight(p)))
  {
    var s' := Apply(c, s, ClearInFlight(p));
    assert forall k :: Retrying(s, k) <==> Retrying(s', k);
  }

  /** A restart ends the retry under way, and counts it as killed. */
  lemma RestartKeepsBounded(c: Config, s: State)
    requires CallsOk(c, s) && Bounded(s)
    ensures Bounded(Apply(c, s, Restart))
  {
    var s' := Apply(c, s, Restart);
    assert forall k :: s'.killed[k] == s.killed[k] + (if Retrying(s, k) then 1 else 0) && !Retrying(s', k);
  }

  lemma StepKeepsBounded(c: Config, s: State, step: Step)
    requires CallsOk(c, s) && Bounded(s) && Enabled(c, s, step)
    ensures Bounded(Apply(c, s, step))
  {
    match step
    case DeliverLog(q) => DeliveryKeepsBounded(c, s, q);
    case OtherListener(event) => ListenerEventKeepsBounded(c, s, event);
    case SignersAnswer(p, responses, now) => SigningKeepsBounded(c, s, p, responses, now);
    case SubmissionReturns(p, outcome, now) => SubmissionKeepsBounded(c, s, p, outcome, now);
    case ClearInFlight(p) => ClearKeepsBounded(c, s, p);
    case SweepStarts(now) => SweepStartKeepsBounded(c, s, now);
    case SweepRetries => SweepRetryKeepsBounded(c, s);
    case SweepResumes => SweepGoesOn(s, s.sweep.(wait := None));
    case SweepEnds => SweepGoesOn(s, Idle);
    case Restart => RestartKeepsBounded(c, s);
    case _ => BookkeepingKeepsBounded(c, s, step);
  }

  lemma {:induction false} RunIsBounded(c: Config, states: seq<State>, steps: seq<Step>, start: nat, i: nat)
    requires Run(c, states, steps) && Init(states[0], start) && i < |states|
    ensures Bounded(states[i])
  {
    RunIsSafe(c, states, steps, start, i);
    if i > 0 {
      RunIsSafe(c, states, steps, start, i - 1);
      RunIsBounded(c, states, steps, start, i - 1);
      StepKeepsBounded(c, states[i - 1], steps[i - 1]);
    }
  }

  /**
   Bounded retries: in any run, sweeps start at most four `processEvent` calls for a key, and one more for
   each of them that a restart killed, and the queue never holds two rows for one key.
   */
  lemma SweepsRetryAtMostFourTimes(c: Config, states: seq<State>, steps: seq<Step>, start: nat, i: nat, k: Key)
    requires Run(c, states, steps) && Init(states[0], start) && i < |states|
    ensures states[i].sweepStarts[k] <= 4 + states[i].killed[k]
    ensures OneRowPerKey(states[i].dlq)
  {
    RunIsSafe(c, states, steps, start, i);
    RunIsBounded(c, states, steps, start, i);
  }

  /** While a key stays queued its attempt count never falls. */
  lemma AttemptsNeverFall(c: Config, s: State, step: Step, k: Key)
    requires Enabled(c, s, step)
    ensures var s' := Apply(c, s, step); k in Queued(s'.dlq) ==> Attempts(s'.dlq, k) >= Attempts(s.dlq, k)
  {
    StoreChange(c, s, step);
  }

  // ---- The bound is met -------------------------------------------------------------------

  /** Nothing is going on, and one row waits: `e`, with `n` attempts. */
  ghost predicate Waiting(s: State, e: BridgeEvent, n: nat) {
    && s.nonces == {} && s.inFlight == map[] && s.procs == map[] && s.polls == map[] && s.sweep == Idle
    && |s.dlq| == 1 && s.dlq[0].event == e && s.dlq[0].attempts == n && !s.dlq[0].terminal
  }

  /** A sweep awaits the call `p` that it started for that row; nothing else is going on. */
  ghost predicate UnderWay(s: State, e: BridgeEvent, n: nat, p: ProcId, phase: Phase) {
    && s.nonces == {} && s.polls == map[]
    && s.procs == map[p := Proc(e, true, phase)] && s.inFlight == map[KeyOf(e) := p]
    && s.sweep.Sweeping? && s.sweep.next == |s.sweep.pending| && s.sweep.wait == Some(p)
    && |s.dlq| == 1 && s.dlq[0].event == e && s.dlq[0].attempts == n && !s.dlq[0].terminal
  }

  ghost predicate SameCounts(s: State, s': State) { s'.sweepStarts == s.sweepStarts && s'.killed == s.killed }

  lemma RetryStarts(c: Config, start: nat, s: State, e: BridgeEvent, n: nat) returns (s': State)
    requires Reachable(c, start, s) && Waiting(s, e, n) && n <= 4 && c.valid(e)
    ensures Reachable(c, start, s') && UnderWay(s', e, n, s.nextId, Signing)
    ensures s'.sweepStarts == s.sweepStarts + multiset{KeyOf(e)} && s'.killed == s.killed
  {
    var row := s.dlq[0];
    assert s.dlq == [row];
    FilterOne(row, (x: DeadLetterEntry) => Retriable(x, row.nextRetryAt));
    assert DueRows(s.dlq, row.nextRetryAt) == [row];
    var s1 := s.(sweep := Sweeping([row], 0, None));
    ReachableStep(c, start, s, SweepStarts(row.nextRetryAt), s1);
    s' := Apply(c, s1, SweepRetries);
    ReachableStep(c, start, s1, SweepRetries, s');
  }

  lemma RetryIsKilled(c: Config, start: nat, s: State, e: BridgeEvent, n: nat, p: ProcId) returns (s': State)
    requires Reachable(c, start, s) && UnderWay(s, e, n, p, Signing)
    ensures Reachable(c, start, s') && Waiting(s', e, n)
    ensures s'.sweepStarts == s.sweepStarts && s'.killed == s.killed + multiset{KeyOf(e)}
  {
    s' := Apply(c, s, Restart);
    ReachableStep(c, start, s, Restart, s');
  }

  function Silence(n: nat): (r: seq<SignerResponse>)
    ensures |r| == n && forall i :: 0 <= i < n ==> r[i] == NoSignature
  {
    seq(n, _ => NoSignature)
  }

  lemma {:induction false} SilenceCollectsNothing(verify: Verifier, digest: Digest, responses: seq<SignerResponse>)
    requires forall i :: 0 <= i < |responses| ==> responses[i] == NoSignature
    ensures VerifiedSigs(verify, digest, responses) == [] && Collected(verify, digest, responses) == []
  {
    if responses != [] { SilenceCollectsNothing(verify, digest, responses[1..]); }
  }

  /** A row enqueued in place of the only one. */
  lemma OnlyRowReplaced(s: State, e: BridgeEvent, n: nat, available: nat, required: nat, reason: Reason, now: int)
    requires |s.dlq| == 1 && s.dlq[0].event == e && s.dlq[0].attempts == n
    ensures var dlq := Enqueued(s.dlq, e, available, required, reason, false, now);
            |dlq| == 1 && dlq[0].event == e && dlq[0].attempts == n + 1 && !dlq[0].terminal
  {
    assert s.dlq == [s.dlq[0]];
    FilterOne(s.dlq[0], (x: DeadLetterEntry) => KeyOf(x.event) != KeyOf(e));
    assert Without(s.dlq, KeyOf(e)) == [];
  }

  /** No signer answers: too few signatures, or, where none are asked for, a submission that throws. */
  lemma RetryFails(c: Config, start: nat, s: State, e: BridgeEvent, n: nat, p: ProcId) returns (s': State)
    requires Reachable(c, start, s) && UnderWay(s, e, n, p, Signing)
    ensures Reachable(c, start, s') && UnderWay(s', e, n + 1, p, Settled) && SameCounts(s, s')
  {
    var answer := SignersAnswer(p, Silence(c.nodeCount), 0);
    SilenceCollectsNothing(c.verify, c.payloadHash(e), Silence(c.nodeCount));
    s' := Apply(c, s, answer);
    ReachableStep(c, start, s, answer, s');
    OnlyRowReplaced(s, e, n, 0, c.threshold, InsufficientSigners, 0);
    if c.threshold == 0 {
      assert UnderWay(s', e, n, p, Submitting([]));
      s' := SubmissionFails(c, start, s', e, n, p);
    }
  }

  lemma SubmissionFails(c: Config, start: nat, s: State, e: BridgeEvent, n: nat, p: ProcId) returns (s': State)
    requires Reachable(c, start, s) && UnderWay(s, e, n, p, Submitting([]))
    ensures Reachable(c, start, s') && UnderWay(s', e, n + 1, p, Settled) && SameCounts(s, s')
  {
    OnlyRowReplaced(s, e, n, 0, c.threshold, ProcessingFailed, 0);
    s' := Apply(c, s, SubmissionReturns(p, Threw, 0));
    ReachableStep(c, start, s, SubmissionReturns(p, Threw, 0), s');
  }

  lemma SweepFinishes(c: Config, start: nat, s: State, e: BridgeEvent, n: nat, p: ProcId) returns (s': State)
    requires Reachable(c, start, s) && UnderWay(s, e, n, p, Settled)
    ensures Reachable(c, start, s') && Waiting(s', e, n) && SameCounts(s, s')
  {
    var s1 := s.(procs := map[], inFlight := map[]);
    var s2 := s1.(sweep := s.sweep.(wait := None));
    s' := s2.(sweep := Idle);
    ReachableStep(c, start, s, ClearInFlight(p), s1);
    ReachableStep(c, start, s1, SweepResumes, s2);
    ReachableStep(c, start, s2, SweepEnds, s');
  }

  /** `m` retries killed, then `n - 1` failed ones. */
  lemma RetriesReach(c: Config, start: nat, e: BridgeEvent, n: nat, m: nat) returns (s: State)
    requires c.valid(e) && 1 <= n <= 5
    ensures Reachable(c, start, s) && Waiting(s, e, n)
    ensures s.sweepStarts[KeyOf(e)] == n - 1 + m && s.killed[KeyOf(e)] == m
    decreases n, m
  {
    if n > 1 {
      var s0 := RetriesReach(c, start, e, n - 1, m);
      var s1 := RetryStarts(c, start, s0, e, n - 1);
      var s2 := RetryFails(c, start, s1, e, n - 1, s0.nextId);
      s := SweepFinishes(c, start, s2, e, n, s0.nextId);
    } else if m > 0 {
      var s0 := RetriesReach(c, start, e, n, m - 1);
      var s1 := RetryStarts(c, start, s0, e, n);
      s := RetryIsKilled(c, start, s1, e, n, s0.nextId);
    } else {
      s := State({}, [DeadLetterEntry(e, 0, 0, c.threshold, InsufficientSigners, 1, 0, false)], start,
                 map[], map[], map[], Idle, 0, [], multiset{}, multiset{}, [], multiset{});
      InitialIsReachable(c, start, s);
    }
  }

  /** The bound is exact: whatever number of retries of a key are killed, four more can be started. */
  lemma RetryBoundIsMet(c: Config, start: nat, e: BridgeEvent, m: nat)
    requires c.valid(e)
    ensures exists s: State :: Reachable(c, start, s) && s.killed[KeyOf(e)] == m && s.sweepStarts[KeyOf(e)] == 4 + m
  {
    var s := RetriesReach(c, start, e, 5, m);
  }

  /** Sweeps can start more than four calls for a key exactly when a restart has killed one of them. */
  lemma MoreThanFourRetriesIffOneWasKilled(c: Config, start: nat, e: BridgeEvent, m: nat)
    requires c.valid(e)
    ensures m > 0 <==>
            exists s: State :: Reachable(c, start, s) && s.killed[KeyOf(e)] == m && s.sweepStarts[KeyOf(e)] > 4
  {
    RetryBoundIsMet(c, start, e, m);
    forall s: State | Reachable(c, start, s) ensures s.sweepStarts[KeyOf(e)] <= 4 + s.killed[KeyOf(e)] {
      var states: seq<State>, steps: seq<Step> :|
        Run(c, states, steps) && Init(states[0], start) && states[|steps|] == s;
      SweepsRetryAtMostFourTimes(c, states, steps, start, |steps|, KeyOf(e));
    }
  }
}
