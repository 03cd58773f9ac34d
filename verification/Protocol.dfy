/**
 The relayer process as a state machine. One step is the code between two `await`s: the
 synchronous part of `handleEvent`, the continuation after the signers answered, the continuation
 after the submission returned, one turn of a poll or of a retry sweep. Polls may overlap, any
 listener may deliver any event at any time, and the process may be killed and restarted from its
 persisted stores between any two steps.
 */
module Protocol {
  import opened Prelude
  import opened Signatures
  import opened Stores

  type ProcId = nat
  type PollId = nat

  /** An `eth_getLogs` row; `decode` in the configuration reads it. */
  datatype EthLog = EthLog(removed: bool, transactionHash: string, logIndex: int, data: string)

  /** What the process is configured with, and the parts of its environment that never change. */
  datatype Config = Config(
    threshold: nat,
    nodeCount: nat,
    confirmations: nat,
    maxBlockRange: int,
    decode: EthLog -> Option<BridgeEvent>,
    valid: BridgeEvent -> bool,
    payloadHash: BridgeEvent -> Digest,
    verify: Verifier,
    history: nat -> seq<EthLog>)   // the logs of every block

  datatype Phase = Signing | Submitting(sigs: seq<RelayerSig>) | Settled

  /** One call of `processEvent`. `Settled` lasts until the awaiting handler clears the in-flight map. */
  datatype Proc = Proc(event: BridgeEvent, bySweep: bool, phase: Phase)

  /** One call of `pollOnce`; `wait` is the `processEvent` call that the current log is awaiting. */
  datatype Poll =
    | AwaitingHead
    | AwaitingLogs(from: nat, to: nat)
    | Delivering(from: nat, to: nat, logs: seq<EthLog>, next: nat, wait: Option<ProcId>)

  /** The running retry sweep and the snapshot it works on. */
  datatype Sweep = Idle | Sweeping(pending: seq<DeadLetterEntry>, next: nat, wait: Option<ProcId>)

  datatype Submission = Submission(event: BridgeEvent, sigs: seq<RelayerSig>)
  datatype Query = Query(from: nat, to: nat, latest: nat)

  datatype State = State(
    // persisted
    nonces: set<Key>,
    dlq: seq<DeadLetterEntry>,
    cursor: nat,
    // in memory
    inFlight: map<Key, ProcId>,
    procs: map<ProcId, Proc>,
    polls: map<PollId, Poll>,
    sweep: Sweep,
    nextId: nat,
    // observations, never read by a step
    sent: seq<Submission>,
    accepted: multiset<Key>,
    sweepStarts: multiset<Key>,
    queries: seq<Query>,
    killed: multiset<Key>)     // retries that a restart ended before their attempt was counted

  datatype Head = HeadError | HeadNotANumber | HeadAt(latest: nat)
  datatype LogsReply = LogsError | NotAnArray | LogsAre(logs: seq<EthLog>)
  datatype Outcome = Accepted | Failed(message: string) | Threw

  datatype Step =
    | StartPoll
    | HeadArrives(poll: PollId, head: Head)
    | LogsArrive(poll: PollId, reply: LogsReply)
    | DeliverLog(poll: PollId)
    | PollResumes(poll: PollId)
    | PollEnds(poll: PollId)
    | OtherListener(event: BridgeEvent)
    | SignersAnswer(proc: ProcId, responses: seq<SignerResponse>, now: int)
    | SubmissionReturns(proc: ProcId, outcome: Outcome, now: int)
    | ClearInFlight(proc: ProcId)
    | SweepStarts(now: int)
    | SweepRetries
    | SweepResumes
    | SweepEnds
    | Restart

  // ---- Small reads ------------------------------------------------------------------------

  /** A key that is not lost: submitted, or waiting in the dead-letter queue. */
  predicate Stored(s: State, k: Key) { k in s.nonces || k in Queued(s.dlq) }

  predicate Active(s: State, p: ProcId) { p in s.procs && !s.procs[p].phase.Settled? }

  /** An awaited call has returned. */
  predicate Returned(s: State, wait: Option<ProcId>) { wait.None? || !Active(s, wait.value) }

  /** The sweep awaits a call of its own that works on `k`. */
  predicate Retrying(s: State, k: Key) {
    && s.sweep.Sweeping? && s.sweep.wait.Some? && Active(s, s.sweep.wait.value)
    && s.procs[s.sweep.wait.value].bySweep && KeyOf(s.procs[s.sweep.wait.value].event) == k
  }

  /** The key of that call, if there is one. */
  function RetriesUnderWay(s: State): (r: multiset<Key>)
    ensures forall k :: r[k] == if Retrying(s, k) then 1 else 0
  {
    if s.sweep.Sweeping? && s.sweep.wait.Some? && Active(s, s.sweep.wait.value) && s.procs[s.sweep.wait.value].bySweep
    then multiset{KeyOf(s.procs[s.sweep.wait.value].event)}
    else multiset{}
  }

  function SafeBlock(latest: nat, confirmations: nat): (r: nat) {
    if latest < confirmations then 0 else latest - confirmations
  }

  function QueryEnd(from: nat, safe: nat, maxBlockRange: int): (r: int) {
    if from + maxBlockRange - 1 < safe then from + maxBlockRange - 1 else safe
  }

  predicate Contains(s: string, part: string) {
    part <= s || (s != [] && Contains(s[1..], part))
  }

  predicate IsReplay(message: string) { Contains(message, "ReplayedNonce") }

  predicate IsTerminal(message: string) {
    Contains(message, "InvalidAmount") || Contains(message, "AssetNotWhitelisted") ||
      Contains(message, "AddressBlocked")
  }

  /** The logs a reply is taken for; one that is not an array is taken for none. */
  function LogsOf(reply: LogsReply): (r: seq<EthLog>) {
    if reply.LogsAre? then reply.logs else []
  }

  // ---- Transitions ------------------------------------------------------------------------

  /** The synchronous part of `handleEvent`: the new state, and the call the caller then awaits. */
  function Handle(c: Config, s: State, event: BridgeEvent, bySweep: bool): (r: (State, Option<ProcId>))
    ensures r.0.polls == s.polls && r.0.sweep == s.sweep && r.0.cursor == s.cursor
  {
    var k := KeyOf(event);
    if k in s.nonces || !c.valid(event) then (s, None)
    else if k in s.inFlight then (s, Some(s.inFlight[k]))
    else
      (s.(procs := s.procs[s.nextId := Proc(event, bySweep, Signing)],
          inFlight := s.inFlight[k := s.nextId],
          nextId := s.nextId + 1,
          sweepStarts := if bySweep then s.sweepStarts + multiset{k} else s.sweepStarts),
       Some(s.nextId))
  }

  function Settle(s: State, p: ProcId): (r: State)
    requires p in s.procs
  {
    s.(procs := s.procs[p := s.procs[p].(phase := Settled)])
  }

  function DeadLetter(c: Config, s: State, p: ProcId, available: nat, reason: Reason, terminal: bool,
                      now: int): (r: State)
    requires p in s.procs
  {
    Settle(s, p).(dlq := Enqueued(s.dlq, s.procs[p].event, available, c.threshold, reason, terminal, now))
  }

  function MarkSubmitted(s: State, p: ProcId): (r: State)
    requires p in s.procs
  {
    var k := KeyOf(s.procs[p].event);
    Settle(s, p).(nonces := s.nonces + {k}, dlq := Without(s.dlq, k))
  }

  function AfterSigning(c: Config, s: State, p: ProcId, responses: seq<SignerResponse>, now: int): (r: State)
    requires p in s.procs
    ensures r.polls == s.polls && r.sweep == s.sweep && r.cursor == s.cursor
  {
    var proc := s.procs[p];
    var sigs := Collected(c.verify, c.payloadHash(proc.event), responses);
    if |sigs| < c.threshold then DeadLetter(c, s, p, |sigs|, InsufficientSigners, false, now)
    else
      s.(procs := s.procs[p := proc.(phase := Submitting(sigs))],
         sent := s.sent + [Submission(proc.event, sigs[..c.threshold])])
  }

  function AfterSubmission(c: Config, s: State, p: ProcId, outcome: Outcome, now: int): (r: State)
    requires p in s.procs && s.procs[p].phase.Submitting?
    ensures r.polls == s.polls && r.sweep == s.sweep && r.cursor == s.cursor
  {
    var proc := s.procs[p];
    var k := KeyOf(proc.event);
    match outcome
    case Accepted => MarkSubmitted(s, p).(accepted := s.accepted + multiset{k})
    case Failed(message) =>
      if IsReplay(message) then MarkSubmitted(s, p)
      else DeadLetter(c, s, p, |proc.phase.sigs|, SubmissionFailed(message), IsTerminal(message), now)
    case Threw => DeadLetter(c, s, p, |proc.phase.sigs|, ProcessingFailed, false, now)
  }

  function AbandonPoll(s: State, poll: PollId): (r: State) { s.(polls := s.polls - {poll}) }

  function AfterHead(c: Config, s: State, poll: PollId, head: Head): (r: State) {
    match head
    case HeadError => AbandonPoll(s, poll)
    case HeadNotANumber => AbandonPoll(s, poll)
    case HeadAt(latest) =>
      var safe := SafeBlock(latest, c.confirmations);
      if safe < s.cursor || c.maxBlockRange < 1 then AbandonPoll(s, poll)
      else
        var to := QueryEnd(s.cursor, safe, c.maxBlockRange);
        s.(polls := s.polls[poll := AwaitingLogs(s.cursor, to)],
           queries := s.queries + [Query(s.cursor, to, latest)])
  }

  function AfterLogs(s: State, poll: PollId, reply: LogsReply): (r: State)
    requires poll in s.polls && s.polls[poll].AwaitingLogs?
  {
    var q := s.polls[poll];
    if reply.LogsError? then AbandonPoll(s, poll)
    else s.(polls := s.polls[poll := Delivering(q.from, q.to, LogsOf(reply), 0, None)])
  }

  /** The event a log is handed over as, if any. */
  function EventOf(c: Config, log: EthLog): (r: Option<BridgeEvent>) {
    if log.removed then None else c.decode(log)
  }

  function AfterDelivery(c: Config, s: State, poll: PollId): (r: State)
    requires poll in s.polls && s.polls[poll].Delivering? && s.polls[poll].next < |s.polls[poll].logs|
  {
    var q := s.polls[poll];
    match EventOf(c, q.logs[q.next])
    case None => s.(polls := s.polls[poll := q.(next := q.next + 1)])
    case Some(event) =>
      var (s', wait) := Handle(c, s, event, false);
      s'.(polls := s'.polls[poll := q.(next := q.next + 1, wait := wait)])
  }

  function AfterSweepRetry(c: Config, s: State): (r: State)
    requires s.sweep.Sweeping? && s.sweep.next < |s.sweep.pending|
  {
    var (s', wait) := Handle(c, s, s.sweep.pending[s.sweep.next].event, true);
    s'.(sweep := s.sweep.(next := s.sweep.next + 1, wait := wait))
  }

  predicate Enabled(c: Config, s: State, step: Step) {
    match step
    case StartPoll => true
    case HeadArrives(q, _) => q in s.polls && s.polls[q].AwaitingHead?
    case LogsArrive(q, _) => q in s.polls && s.polls[q].AwaitingLogs?
    case DeliverLog(q) =>
      q in s.polls && s.polls[q].Delivering? && s.polls[q].wait.None? && s.polls[q].next < |s.polls[q].logs|
    case PollResumes(q) =>
      q in s.polls && s.polls[q].Delivering? && Returned(s, s.polls[q].wait)
    case PollEnds(q) =>
      q in s.polls && s.polls[q].Delivering? && s.polls[q].wait.None? && s.polls[q].next == |s.polls[q].logs|
    case OtherListener(_) => true
    case SignersAnswer(p, responses, _) =>
      p in s.procs && s.procs[p].phase.Signing? && |responses| == c.nodeCount
    case SubmissionReturns(p, _, _) => p in s.procs && s.procs[p].phase.Submitting?
    case ClearInFlight(p) => p in s.procs && s.procs[p].phase.Settled?
    case SweepStarts(_) => s.sweep.Idle?
    case SweepRetries => s.sweep.Sweeping? && s.sweep.wait.None? && s.sweep.next < |s.sweep.pending|
    case SweepResumes => s.sweep.Sweeping? && Returned(s, s.sweep.wait)
    case SweepEnds => s.sweep.Sweeping? && s.sweep.wait.None? && s.sweep.next == |s.sweep.pending|
    case Restart => true
  }

  function Apply(c: Config, s: State, step: Step): (r: State)
    requires Enabled(c, s, step)
  {
    match step
    case StartPoll => s.(polls := s.polls[s.nextId := AwaitingHead], nextId := s.nextId + 1)
    case HeadArrives(q, head) => AfterHead(c, s, q, head)
    case LogsArrive(q, reply) => AfterLogs(s, q, reply)
    case DeliverLog(q) => AfterDelivery(c, s, q)
    case PollResumes(q) => s.(polls := s.polls[q := s.polls[q].(wait := None)])
    case PollEnds(q) => AbandonPoll(s, q).(cursor := s.polls[q].to + 1)
    case OtherListener(event) => Handle(c, s, event, false).0
    case SignersAnswer(p, responses, now) => AfterSigning(c, s, p, responses, now)
    case SubmissionReturns(p, outcome, now) => AfterSubmission(c, s, p, outcome, now)
    case ClearInFlight(p) =>
      var k := KeyOf(s.procs[p].event);
      s.(procs := s.procs - {p},
         inFlight := if k in s.inFlight && s.inFlight[k] == p then s.inFlight - {k} else s.inFlight)
    case SweepStarts(now) =>
      var pending := DueRows(s.dlq, now);
      s.(sweep := if pending == [] then Idle else Sweeping(pending, 0, None))
    case SweepRetries => AfterSweepRetry(c, s)
    case SweepResumes => s.(sweep := s.sweep.(wait := None))
    case SweepEnds => s.(sweep := Idle)
    case Restart =>
      s.(inFlight := map[], procs := map[], polls := map[], sweep := Idle,
         killed := s.killed + RetriesUnderWay(s))
  }

  // ---- Runs -------------------------------------------------------------------------------

  /** A process just started: nothing in memory, nothing observed, and well-formed stores. */
  predicate Init(s: State, start: nat) {
    && s.inFlight == map[] && s.procs == map[] && s.polls == map[] && s.sweep == Idle
    && s.sent == [] && s.accepted == multiset{} && s.sweepStarts == multiset{} && s.queries == []
    && s.killed == multiset{}
    && s.cursor == start
    && OneRowPerKey(s.dlq)
    && s.nonces !! Queued(s.dlq)
    && (forall e :: e in s.dlq ==> e.attempts >= 1)
  }

  /** A log that must not be lost: it decodes to a valid event and was not reorged away. */
  predicate Matters(c: Config, log: EthLog) {
    EventOf(c, log).Some? && c.valid(EventOf(c, log).value)
  }

  /** Every log of blocks `from .. to` that must not be lost is in the reply. */
  ghost predicate Complete(c: Config, from: nat, to: nat, logs: seq<EthLog>) {
    forall b, log :: from <= b <= to && log in c.history(b) && Matters(c, log) ==> log in logs
  }

  /** A truthful node answers a log query with an error, or with nothing that matters left out. */
  ghost predicate Truthful(c: Config, s: State, step: Step)
    requires Enabled(c, s, step)
  {
    step.LogsArrive? && !step.reply.LogsError? ==>
      Complete(c, s.polls[step.poll].from, s.polls[step.poll].to, LogsOf(step.reply))
  }

  /** `states` is what the process goes through when it takes `steps`, in that order, from `states[0]`. */
  ghost predicate Run(c: Config, states: seq<State>, steps: seq<Step>) {
    && |states| == |steps| + 1
    && forall i :: 0 <= i < |steps| ==>
         Enabled(c, states[i], steps[i]) && states[i + 1] == Apply(c, states[i], steps[i])
  }

  /** A run whose node answers truthfully. */
  ghost predicate TruthfulRun(c: Config, states: seq<State>, steps: seq<Step>) {
    && Run(c, states, steps)
    && forall i :: 0 <= i < |steps| ==> Enabled(c, states[i], steps[i]) && Truthful(c, states[i], steps[i])
  }

  /** Some run from some initial state ends in `s`. */
  ghost predicate Reachable(c: Config, start: nat, s: State) {
    exists states: seq<State>, steps: seq<Step> ::
      Run(c, states, steps) && Init(states[0], start) && states[|steps|] == s
  }

  lemma InitialIsReachable(c: Config, start: nat, s: State)
    requires Init(s, start)
    ensures Reachable(c, start, s)
  {
    var steps: seq<Step> := [];
    assert Run(c, [s], steps) && [s][|steps|] == s;
  }

  lemma RunExtends(c: Config, states: seq<State>, steps: seq<Step>, step: Step, s': State)
    requires Run(c, states, steps) && Enabled(c, states[|steps|], step) && s' == Apply(c, states[|steps|], step)
    ensures Run(c, states + [s'], steps + [step])
  {}

  lemma ReachableStep(c: Config, start: nat, s: State, step: Step, s': State)
    requires Reachable(c, start, s) && Enabled(c, s, step) && s' == Apply(c, s, step)
    ensures Reachable(c, start, s')
  {
    var states: seq<State>, steps: seq<Step> :|
      Run(c, states, steps) && Init(states[0], start) && states[|steps|] == s;
    RunExtends(c, states, steps, step, s');
    assert (states + [s'])[|steps + [step]|] == s' && (states + [s'])[0] == states[0];
  }
}
