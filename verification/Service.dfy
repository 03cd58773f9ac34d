/** The relayer service and the Ethereum listener as objects: each method is one step of the protocol. */
module Service {
  import opened Prelude
  import opened Signatures
  import opened Stores
  import opened Protocol
  import opened ProtocolCoverage

  /** The in-flight map of the service, filed under key strings, holds `m`. */
  ghost predicate Files(files: map<string, ProcId>, m: map<Key, ProcId>) {
    && (forall k :: k in m <==> KeyString(k) in files)
    && (forall k :: k in m ==> files[KeyString(k)] == m[k])
  }

  lemma FilesUpdate(files: map<string, ProcId>, m: map<Key, ProcId>, k: Key, p: ProcId)
    requires Files(files, m)
    ensures Files(files[KeyString(k) := p], m[k := p])
    ensures Files(files - {KeyString(k)}, m - {k})
  {
    forall other ensures KeyString(other) == KeyString(k) <==> other == k {
      KeyStringInjective(other, k);
    }
  }

  /** `RelayerService`: `state` is the protocol state that the fields are kept equal to. */
  class RelayerService {
    const config: Config
    const nonces: NonceStore
    const dlq: DeadLetterQueue
    var inFlight: map<string, ProcId>
    var calls: map<ProcId, Proc>
    var nextId: nat
    var sweep: Sweep
    ghost var state: State

    ghost predicate Valid()
      reads this, nonces, dlq
    {
      && nonces.Holds(state.nonces)
      && dlq.entries == state.dlq
      && Files(inFlight, state.inFlight)
      && calls == state.procs
      && nextId == state.nextId
      && sweep == state.sweep
    }

    constructor (config: Config, seen: set<Key>, keys: seq<string>, rows: seq<DeadLetterEntry>, start: nat)
      requires forall k :: k in seen <==> KeyString(k) in keys
      ensures Valid() && this.config == config && fresh(nonces) && fresh(dlq)
      ensures OneRowPerKey(rows) && seen !! Queued(rows) && (forall e :: e in rows ==> e.attempts >= 1) ==>
              Init(state, start)
      ensures state.nonces == seen && state.dlq == rows
    {
      this.config := config;
      nonces := new NonceStore(keys);
      dlq := new DeadLetterQueue(rows);
      inFlight, calls, nextId, sweep := map[], map[], 0, Idle;
      state := State(seen, rows, start, map[], map[], map[], Idle, 0, [], multiset{}, multiset{}, [], multiset{});
    }

    /** `handleEvent` up to its first `await`. */
    method HandleEvent(event: BridgeEvent, bySweep: bool) returns (wait: Option<ProcId>)
      requires Valid()
      modifies this
      ensures Valid()
      ensures (state, wait) == Handle(config, old(state), event, bySweep)
    {
      var key := KeyString(KeyOf(event));
      var known := nonces.Has(KeyOf(event));
      assert known <==> KeyOf(event) in state.nonces;
      if known { return None; }
      if !config.valid(event) { return None; }
      if key in inFlight { return Some(inFlight[key]); }
      FilesUpdate(inFlight, state.inFlight, KeyOf(event), nextId);
      state := Handle(config, state, event, bySweep).0;
      wait := Some(nextId);
      calls := calls[nextId := Proc(event, bySweep, Signing)];
      inFlight := inFlight[key := nextId];
      nextId := nextId + 1;
    }

    /** `processEvent` from the signers' answers to the submission. */
    method SignersAnswered(p: ProcId, responses: seq<SignerResponse>, now: int)
      requires Valid() && Enabled(config, state, SignersAnswer(p, responses, now))
      modifies this, dlq
      ensures Valid()
      ensures state == Apply(config, old(state), SignersAnswer(p, responses, now))
    {
      var event := calls[p].event;
      var sigs := CollectSignatures(config.verify, config.payloadHash(event), responses);
      state := AfterSigning(config, state, p, responses, now);
      if |sigs| < config.threshold {
        Postpone(event, |sigs|, InsufficientSigners, false, now);
        calls := calls[p := calls[p].(phase := Settled)];
      } else {
        calls := calls[p := calls[p].(phase := Submitting(sigs))];
      }
    }

    /** `processEvent` after the submission. */
    method SubmissionReturned(p: ProcId, outcome: Outcome, now: int)
      requires Valid() && Enabled(config, state, SubmissionReturns(p, outcome, now))
      modifies this, nonces, dlq
      ensures Valid()
      ensures state == Apply(config, old(state), SubmissionReturns(p, outcome, now))
    {
      var event := calls[p].event;
      var available := |calls[p].phase.sigs|;
      match outcome {
        case Accepted => RecordSubmission(event);
        case Failed(message) =>
          if IsReplay(message) {
            RecordSubmission(event);
          } else {
            Postpone(event, available, SubmissionFailed(message), IsTerminal(message), now);
          }
        case Threw => Postpone(event, available, ProcessingFailed, false, now);
      }
      calls := calls[p := calls[p].(phase := Settled)];
      state := AfterSubmission(config, state, p, outcome, now);
    }

    /** A failed event waits in the queue, against the configured threshold. */
    method Postpone(event: BridgeEvent, available: nat, reason: Reason, terminal: bool, now: int)
      modifies dlq
      ensures dlq.entries == Enqueued(old(dlq.entries), event, available, config.threshold, reason, terminal, now)
    {
      dlq.Enqueue(event, available, config.threshold, reason, terminal, now);
    }

    /** A submitted key moves from the queue to the nonce store. */
    method RecordSubmission(event: BridgeEvent)
      modifies nonces, dlq
      ensures forall keys :: old(nonces.Holds(keys)) ==> nonces.Holds(keys + {KeyOf(event)})
      ensures dlq.entries == Without(old(dlq.entries), KeyOf(event))
    {
      nonces.Mark(KeyOf(event));
      dlq.Remove(event.chainId, event.txHash);
    }

    /** The `finally` of `handleEvent`: the map entry goes only if it is still this call's. */
    method Clear(p: ProcId)
      requires Valid() && Enabled(config, state, ClearInFlight(p))
      modifies this
      ensures Valid()
      ensures state == Apply(config, old(state), ClearInFlight(p))
    {
      var k := KeyOf(calls[p].event);
      var key := KeyString(k);
      assert k in state.inFlight <==> key in inFlight;
      FilesUpdate(inFlight, state.inFlight, k, p);
      state := Apply(config, state, ClearInFlight(p));
      calls := calls - {p};
      if key in inFlight && inFlight[key] == p {
        inFlight := inFlight - {key};
      }
    }

    /** `retryDeadLetters` up to its loop: nothing when a sweep is running or no row is due. */
    method StartSweep(now: int)
      requires Valid()
      modifies this
      ensures Valid()
      ensures state == if old(state).sweep.Idle? then Apply(config, old(state), SweepStarts(now)) else old(state)
    {
      if sweep.Sweeping? { return; }
      var pending: seq<DeadLetterEntry> := [];
      ghost var due := (e: DeadLetterEntry) => Retriable(e, now);
      var rows := dlq.entries;
      for i := 0 to |rows|
        invariant Valid() && state == old(state) && sweep.Idle?
        invariant pending == DueRows(rows[..i], now)
      {
        assert rows[..i + 1] == rows[..i] + [rows[i]];
        FilterAppend(rows[..i], [rows[i]], due);
        if !rows[i].terminal && rows[i].attempts < 5 && rows[i].nextRetryAt <= now {
          pending := pending + [rows[i]];
        }
      }
      assert rows[..|rows|] == rows;
      state := Apply(config, state, SweepStarts(now));
      if |pending| != 0 { sweep := Sweeping(pending, 0, None); }
    }

    /** One turn of the sweep loop, up to its `await`. */
    method RetryNext()
      requires Valid() && Enabled(config, state, SweepRetries)
      modifies this
      ensures Valid()
      ensures state == Apply(config, old(state), SweepRetries)
    {
      ghost var before := state;
      var at := sweep;
      var wait := HandleEvent(at.pending[at.next].event, true);
      sweep := at.(next := at.next + 1, wait := wait);
      state := Apply(config, before, SweepRetries);
    }
  }

  /** The events of a list of logs, in order: reorged and undecodable logs drop out. */
  function EventsOf(c: Config, logs: seq<EthLog>): (r: seq<BridgeEvent>) {
    if logs == [] then []
    else
      EventsOf(c, logs[..|logs| - 1]) +
      (match EventOf(c, logs[|logs| - 1]) case None => [] case Some(event) => [event])
  }

  /** A log that is handed over: it was not reorged away, and it decodes. */
  predicate Deliverable(c: Config, log: EthLog) { !log.removed && c.decode(log).Some? }

  /**
   `delivered` are the decoded events of the logs at the positions `at`, in order: of every log that was not
   removed and decodes, and of no other.
   */
  ghost predicate Delivers(c: Config, logs: seq<EthLog>, delivered: seq<BridgeEvent>, at: seq<nat>) {
    && |at| == |delivered|
    && (forall i, j :: 0 <= i < j < |at| ==> at[i] < at[j])
    && (forall j :: 0 <= j < |logs| ==> (j in at <==> Deliverable(c, logs[j])))
    && (forall i :: 0 <= i < |at| ==> at[i] < |logs| && c.decode(logs[at[i]]) == Some(delivered[i]))
  }

  lemma {:induction false} EventsOfDelivers(c: Config, logs: seq<EthLog>) returns (at: seq<nat>)
    ensures Delivers(c, logs, EventsOf(c, logs), at)
  {
    if logs == [] {
      at := [];
    } else {
      var n := |logs| - 1;
      at := EventsOfDelivers(c, logs[..n]);
      if Deliverable(c, logs[n]) {
        DeliversOneMore(c, logs, EventsOf(c, logs[..n]), at);
        at := at + [n];
      }
    }
  }

  lemma DeliversOneMore(c: Config, logs: seq<EthLog>, delivered: seq<BridgeEvent>, at: seq<nat>)
    requires logs != [] && Delivers(c, logs[..|logs| - 1], delivered, at) && Deliverable(c, logs[|logs| - 1])
    ensures Delivers(c, logs, delivered + [c.decode(logs[|logs| - 1]).value], at + [|logs| - 1])
  {
    var n := |logs| - 1;
    forall j | 0 <= j < |logs| ensures j in at + [n] <==> Deliverable(c, logs[j]) {
      if j < n { assert logs[..n][j] == logs[j]; }
    }
  }

  /** Where a poll that nothing interrupts leaves the cursor. */
  function CursorAfter(c: Config, cursor: nat, head: Head, reply: LogsReply): (r: nat) {
    if !head.HeadAt? || reply.LogsError? || c.maxBlockRange < 1 || SafeBlock(head.latest, c.confirmations) < cursor
    then cursor
    else QueryEnd(cursor, SafeBlock(head.latest, c.confirmations), c.maxBlockRange) + 1
  }

  /** What a poll past its head can still be at: nothing, its range, or the logs of its range. */
  datatype Work = Gone | OnRange(from: nat, to: nat) | OnLogs(from: nat, to: nat, logs: seq<EthLog>)

  ghost predicate Works(poll: Poll, work: Work) {
    match work
    case Gone => false
    case OnRange(from, to) => !poll.AwaitingHead? && poll.from == from && poll.to == to
    case OnLogs(from, to, logs) => poll.Delivering? && poll.from == from && poll.to == to && poll.logs == logs
  }

  /** Poll `q` is at `work`, or has ended; its number is not given out again. */
  ghost predicate AtMost(s: State, q: PollId, work: Work) {
    q < s.nextId && (q in s.polls ==> Works(s.polls[q], work))
  }

  lemma NumbersGrow(c: Config, s: State, step: Step)
    requires Enabled(c, s, step)
    ensures s.nextId <= Apply(c, s, step).nextId
  {
    match step
    case SignersAnswer(_, _, _) =>
    case SubmissionReturns(_, _, _) =>
    case _ =>
  }

  lemma OwnTurnKeepsWork(c: Config, s: State, step: Step, q: PollId, work: Work)
    requires Enabled(c, s, step) && Turn(step) == Some(q) && AtMost(s, q, work)
    ensures q in Apply(c, s, step).polls ==> Works(Apply(c, s, step).polls[q], work)
  {}

  /** No step gives a running poll other work, and none revives a poll that has ended. */
  lemma StepKeepsWork(c: Config, s: State, step: Step, q: PollId, work: Work)
    requires Enabled(c, s, step) && AtMost(s, q, work)
    ensures AtMost(Apply(c, s, step), q, work)
  {
    NumbersGrow(c, s, step);
    if Turn(step) == Some(q) {
      OwnTurnKeepsWork(c, s, step, q, work);
    } else if !step.Restart? && q in Apply(c, s, step).polls {
      OtherPollsUntouched(c, s, step, q);
    }
  }

  lemma NextKeepsWork(c: Config, states: seq<State>, steps: seq<Step>, i: nat, q: PollId, work: Work)
    requires Run(c, states, steps) && i < |steps| && AtMost(states[i], q, work)
    ensures AtMost(states[i + 1], q, work)
  {
    StepKeepsWork(c, states[i], steps[i], q, work);
  }

  lemma {:induction false} RunKeepsWork(c: Config, states: seq<State>, steps: seq<Step>, i: nat, j: nat, q: PollId,
                                        work: Work)
    requires Run(c, states, steps) && i <= j < |states| && AtMost(states[i], q, work)
    ensures AtMost(states[j], q, work)
    decreases j - i
  {
    if i < j {
      NextKeepsWork(c, states, steps, i, q, work);
      RunKeepsWork(c, states, steps, i + 1, j, q, work);
    }
  }

  ghost predicate PollsNumbered(s: State) { forall q :: q in s.polls ==> q < s.nextId }

  lemma StepKeepsPollsNumbered(c: Config, s: State, step: Step)
    requires Enabled(c, s, step) && PollsNumbered(s)
    ensures PollsNumbered(Apply(c, s, step))
  {
    NumbersGrow(c, s, step);
    forall q | q in Apply(c, s, step).polls ensures q < Apply(c, s, step).nextId {
      if !step.Restart? && Turn(step) != Some(q) { OtherPollsUntouched(c, s, step, q); }
    }
  }

  lemma {:induction false} RunNumbersPolls(c: Config, states: seq<State>, steps: seq<Step>, start: nat, i: nat)
    requires Run(c, states, steps) && Init(states[0], start) && i < |states|
    ensures PollsNumbered(states[i])
  {
    if i > 0 {
      RunNumbersPolls(c, states, steps, start, i - 1);
      StepKeepsPollsNumbered(c, states[i - 1], steps[i - 1]);
    }
  }

  /** What a poll is at once its head has arrived. */
  function WorkAfterHead(c: Config, cursor: nat, head: Head): (w: Work) {
    if !head.HeadAt? || c.maxBlockRange < 1 || SafeBlock(head.latest, c.confirmations) < cursor then Gone
    else OnRange(cursor, QueryEnd(cursor, SafeBlock(head.latest, c.confirmations), c.maxBlockRange))
  }

  lemma HeadGivesWork(c: Config, s: State, q: PollId, head: Head)
    requires Enabled(c, s, HeadArrives(q, head)) && PollsNumbered(s)
    ensures AtMost(Apply(c, s, HeadArrives(q, head)), q, WorkAfterHead(c, s.cursor, head))
  {}

  function WorkAfterLogs(from: nat, to: nat, reply: LogsReply): (w: Work) {
    if reply.LogsError? then Gone else OnLogs(from, to, LogsOf(reply))
  }

  lemma ReplyGivesWork(c: Config, s: State, q: PollId, reply: LogsReply, from: nat, to: nat)
    requires Enabled(c, s, LogsArrive(q, reply)) && AtMost(s, q, OnRange(from, to))
    ensures AtMost(Apply(c, s, LogsArrive(q, reply)), q, WorkAfterLogs(from, to, reply))
  {}

  /**
   A poll that ends, whatever polls, deliveries, sweeps and calls ran between its turns, leaves the cursor
   where an uninterrupted `pollOnce` would have left it, from the cursor its head arrived at, and is past
   all the logs of its own reply.
   */
  lemma PollEndsWherePollOnceDoes(c: Config, states: seq<State>, steps: seq<Step>, start: nat, i: nat, m: nat, j: nat,
                                  q: PollId, head: Head, reply: LogsReply)
    requires Run(c, states, steps) && Init(states[0], start) && i < m < j < |steps|
    requires steps[i] == HeadArrives(q, head) && steps[m] == LogsArrive(q, reply) && steps[j] == PollEnds(q)
    ensures states[j + 1].cursor == CursorAfter(c, states[i].cursor, head, reply)
    ensures states[j].polls[q].logs == LogsOf(reply) && states[j].polls[q].next == |LogsOf(reply)|
  {
    var work := WorkAfterHead(c, states[i].cursor, head);
    RunNumbersPolls(c, states, steps, start, i);
    HeadGivesWork(c, states[i], q, head);
    RunKeepsWork(c, states, steps, i + 1, m, q, work);
    ReplyGivesWork(c, states[m], q, reply, work.from, work.to);
    RunKeepsWork(c, states, steps, m + 1, j, q, WorkAfterLogs(work.from, work.to, reply));
  }

  /** A delivery turn of a poll hands over what `pollOnce` hands over next. */
  lemma DeliveryTurnFollowsPollOnce(c: Config, s: State, q: PollId)
    requires Enabled(c, s, DeliverLog(q))
    ensures var poll := s.polls[q];
            var before, after := EventsOf(c, poll.logs[..poll.next]), EventsOf(c, poll.logs[..poll.next + 1]);
            var s' := Apply(c, s, DeliverLog(q));
            && s'.polls[q].next == poll.next + 1 && s'.polls[q].logs == poll.logs
            && if after == before then s' == s.(polls := s'.polls)
               else
                 exists event :: after == before + [event] && s' == Handle(c, s, event, false).0.(polls := s'.polls)
  {
    var poll := s.polls[q];
    assert poll.logs[..poll.next + 1][..poll.next] == poll.logs[..poll.next];
    var next := EventOf(c, poll.logs[poll.next]);
    if next.Some? {
      var after := EventsOf(c, poll.logs[..poll.next + 1]);
      assert after == EventsOf(c, poll.logs[..poll.next]) + [next.value];
    }
  }

  /** `EthChainListener`, its cursor read as a number. */
  class EthChainListener {
    const config: Config
    var fromBlock: nat

    constructor (config: Config, fromBlock: nat)
      ensures this.config == config && this.fromBlock == fromBlock
    {
      this.config, this.fromBlock := config, fromBlock;
    }

    /**
     `pollOnce`, uninterrupted: `delivered` is what is handed to the service, one event at a time, and `at`
     the positions of its logs in the reply.
     */
    method PollOnce(head: Head, reply: LogsReply) returns (delivered: seq<BridgeEvent>, ghost at: seq<nat>)
      modifies this
      ensures fromBlock != old(fromBlock) && reply.LogsAre? ==> Delivers(config, reply.logs, delivered, at)
      ensures fromBlock == old(fromBlock) || !reply.LogsAre? ==> delivered == []
      ensures fromBlock == CursorAfter(config, old(fromBlock), head, reply)
      ensures delivered ==
              if fromBlock == old(fromBlock) || !reply.LogsAre? then [] else EventsOf(config, reply.logs)
    {
      delivered, at := [], [];
      if !head.HeadAt? { return; }
      var safe := SafeBlock(head.latest, config.confirmations);
      if safe < fromBlock || config.maxBlockRange < 1 { return; }
      var to := QueryEnd(fromBlock, safe, config.maxBlockRange);
      if reply.LogsError? { return; }
      var logs := if reply.LogsAre? then reply.logs else [];
      for i := 0 to |logs|
        invariant delivered == EventsOf(config, logs[..i])
      {
        assert logs[..i + 1][..i] == logs[..i];
        if logs[i].removed { continue; }
        var event := config.decode(logs[i]);
        if event.Some? { delivered := delivered + [event.value]; }
      }
      assert logs[..|logs|] == logs;
      at := EventsOfDelivers(config, logs);
      fromBlock := to + 1;
    }
  }
}
