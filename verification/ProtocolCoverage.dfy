/** No confirmed event is lost: every log behind the cursor is accounted for, in every run. */
module ProtocolCoverage {
  import opened Prelude
  import opened Stores
  import opened Protocol
  import opened ProtocolSafety

  /** A log that needs no further work: reorged away, undecodable, invalid, submitted or dead-lettered. */
  ghost predicate Accounted(c: Config, s: State, log: EthLog) {
    match EventOf(c, log)
    case None => true
    case Some(event) => !c.valid(event) || Stored(s, KeyOf(event))
  }

  ghost predicate BlocksAccounted(c: Config, s: State, from: nat, to: nat) {
    forall b, log :: from <= b < to && log in c.history(b) ==> Accounted(c, s, log)
  }

  /** A running `processEvent` call that the poll awaits is about to account for `log`. */
  ghost predicate Awaited(c: Config, s: State, wait: Option<ProcId>, log: EthLog) {
    && wait.Some? && Active(s, wait.value)
    && EventOf(c, log).Some? && KeyOf(EventOf(c, log).value) == KeyOf(s.procs[wait.value].event)
  }

  /** A poll started from a covered cursor, and has accounted for the logs it is past. */
  ghost predicate PollOk(c: Config, s: State, start: nat, poll: Poll) {
    match poll
    case AwaitingHead => true
    case AwaitingLogs(from, to) => start <= from <= to && BlocksAccounted(c, s, start, from)
    case Delivering(from, to, logs, next, wait) =>
      && start <= from <= to && BlocksAccounted(c, s, start, from)
      && Complete(c, from, to, logs)
      && next <= |logs|
      && forall j :: 0 <= j < next ==> Accounted(c, s, logs[j]) || Awaited(c, s, wait, logs[j])
  }

  ghost predicate Covered(c: Config, s: State, start: nat) {
    && start <= s.cursor
    && BlocksAccounted(c, s, start, s.cursor)
    && forall q :: q in s.polls ==> PollOk(c, s, start, s.polls[q])
  }

  // ---- What later steps cannot undo -------------------------------------------------------

  lemma StoredForGood(c: Config, s: State, step: Step)
    requires Enabled(c, s, step)
    ensures forall k :: Stored(s, k) ==> Stored(Apply(c, s, step), k)
  {
    StoreChange(c, s, step);
  }

  /** A call ends by leaving its key in a store. */
  lemma SettlingStores(c: Config, s: State, step: Step, p: ProcId)
    requires Enabled(c, s, step) && (step.SignersAnswer? || step.SubmissionReturns?) && step.proc == p
    ensures var s' := Apply(c, s, step);
            && p in s'.procs && s'.procs[p].event == s.procs[p].event
            && (s'.procs[p].phase.Settled? ==> Stored(s', KeyOf(s.procs[p].event)))
  {
    match step
    case SignersAnswer(_, responses, now) => SigningChangesStores(c, s, p, responses, now);
    case SubmissionReturns(_, outcome, now) => SubmissionChangesStores(c, s, p, outcome, now);
  }

  /** A running call goes on with its event, or leaves the key in a store. */
  lemma CallsEndInAStore(c: Config, s: State, step: Step, p: ProcId)
    requires CallsOk(c, s) && Enabled(c, s, step) && !step.Restart? && Active(s, p)
    ensures var s' := Apply(c, s, step);
            || (Active(s', p) && s'.procs[p].event == s.procs[p].event)
            || Stored(s', KeyOf(s.procs[p].event))
  {
    if (step.SignersAnswer? || step.SubmissionReturns?) && step.proc == p {
      SettlingStores(c, s, step, p);
    } else {
      OthersLeaveCallsAlone(c, s, step, p);
    }
  }

  /** A step that hands an event over starts at most one call, under a new number. */
  lemma HandingOverLeavesCallsAlone(c: Config, s: State, step: Step, p: ProcId)
    requires Enabled(c, s, step) && (step.DeliverLog? || step.OtherListener? || step.SweepRetries?)
    requires p in s.procs && p < s.nextId
    ensures p in Apply(c, s, step).procs && Apply(c, s, step).procs[p] == s.procs[p]
  {}

  lemma SettlingLeavesOthersAlone(c: Config, s: State, step: Step, p: ProcId)
    requires Enabled(c, s, step) && (step.SignersAnswer? || step.SubmissionReturns?)
    requires p in s.procs && step.proc != p
    ensures p in Apply(c, s, step).procs && Apply(c, s, step).procs[p] == s.procs[p]
  {
    match step
    case SignersAnswer(q, responses, now) =>
    case SubmissionReturns(q, outcome, now) =>
  }

  lemma OthersLeaveCallsAlone(c: Config, s: State, step: Step, p: ProcId)
    requires Enabled(c, s, step) && !step.Restart? && Active(s, p) && p < s.nextId
    requires !((step.SignersAnswer? || step.SubmissionReturns?) && step.proc == p)
    ensures p in Apply(c, s, step).procs && Apply(c, s, step).procs[p] == s.procs[p]
  {
    if step.SignersAnswer? || step.SubmissionReturns? {
      SettlingLeavesOthersAlone(c, s, step, p);
    } else if step.DeliverLog? || step.OtherListener? || step.SweepRetries? {
      HandingOverLeavesCallsAlone(c, s, step, p);
    }
  }

  lemma AccountedForGood(c: Config, s: State, step: Step, from: nat, to: nat)
    requires Enabled(c, s, step) && BlocksAccounted(c, s, from, to)
    ensures BlocksAccounted(c, Apply(c, s, step), from, to)
  {
    var s' := Apply(c, s, step);
    StoredForGood(c, s, step);
    forall b, log | from <= b < to && log in c.history(b) ensures Accounted(c, s', log) {
      assert Accounted(c, s, log);
    }
  }

  /** A poll that a step does not touch stays in order. */
  lemma PollStaysOk(c: Config, s: State, step: Step, start: nat, poll: Poll)
    requires CallsOk(c, s) && Enabled(c, s, step) && !step.Restart? && PollOk(c, s, start, poll)
    ensures PollOk(c, Apply(c, s, step), start, poll)
  {
    var s' := Apply(c, s, step);
    StoredForGood(c, s, step);
    if !poll.AwaitingHead? {
      AccountedForGood(c, s, step, start, poll.from);
    }
    if poll.Delivering? {
      forall j | 0 <= j < poll.next ensures Accounted(c, s', poll.logs[j]) || Awaited(c, s', poll.wait, poll.logs[j]) {
        if Awaited(c, s, poll.wait, poll.logs[j]) {
          CallsEndInAStore(c, s, step, poll.wait.value);
        }
      }
    }
  }

  // ---- The turns of a poll ----------------------------------------------------------------

  /** Handing an event over leaves it accounted for, or awaited by the caller. */
  lemma HandleAccounts(c: Config, s: State, event: BridgeEvent, bySweep: bool)
    requires CallsOk(c, s)
    ensures var (s', wait) := Handle(c, s, event, bySweep);
            || !c.valid(event) || Stored(s', KeyOf(event))
            || (wait.Some? && Active(s', wait.value) && KeyOf(s'.procs[wait.value].event) == KeyOf(event))
  {}

  lemma DeliveryIsOk(c: Config, s: State, start: nat, q: PollId)
    requires CallsOk(c, s) && Enabled(c, s, DeliverLog(q)) && PollOk(c, s, start, s.polls[q])
    ensures var s' := Apply(c, s, DeliverLog(q)); PollOk(c, s', start, s'.polls[q])
  {
    var s' := Apply(c, s, DeliverLog(q));
    var poll := s.polls[q];
    var log := poll.logs[poll.next];
    PollStaysOk(c, s, DeliverLog(q), start, poll);
    if EventOf(c, log).Some? {
      HandleAccounts(c, s, EventOf(c, log).value, false);
    }
    assert Accounted(c, s', log) || Awaited(c, s', s'.polls[q].wait, log);
  }

  /** A finished poll has accounted for its whole range, so the cursor may move past it, even backwards. */
  lemma FinishedRangeIsAccounted(c: Config, s: State, start: nat, poll: Poll)
    requires PollOk(c, s, start, poll) && poll.Delivering? && poll.wait.None? && poll.next == |poll.logs|
    ensures BlocksAccounted(c, s, start, poll.to + 1)
  {
    forall b, log | start <= b < poll.to + 1 && log in c.history(b) ensures Accounted(c, s, log) {
      if poll.from <= b && Matters(c, log) {
        assert log in poll.logs;
        var j :| 0 <= j < |poll.logs| && poll.logs[j] == log;
        assert Accounted(c, s, poll.logs[j]) || Awaited(c, s, poll.wait, poll.logs[j]);
      }
    }
  }

  lemma QueryIsOk(c: Config, s: State, start: nat, q: PollId, head: Head)
    requires Covered(c, s, start) && Enabled(c, s, HeadArrives(q, head))
    ensures var s' := Apply(c, s, HeadArrives(q, head));
            q in s'.polls ==> PollOk(c, s', start, s'.polls[q])
  {
    AccountedForGood(c, s, HeadArrives(q, head), start, s.cursor);
  }

  lemma ReplyIsOk(c: Config, s: State, start: nat, q: PollId, reply: LogsReply)
    requires Enabled(c, s, LogsArrive(q, reply)) && Truthful(c, s, LogsArrive(q, reply))
    requires PollOk(c, s, start, s.polls[q])
    ensures var s' := Apply(c, s, LogsArrive(q, reply));
            q in s'.polls ==> PollOk(c, s', start, s'.polls[q])
  {
    AccountedForGood(c, s, LogsArrive(q, reply), start, s.polls[q].from);
  }

  lemma ResumedPollIsOk(c: Config, s: State, start: nat, q: PollId)
    requires CallsOk(c, s) && Enabled(c, s, PollResumes(q)) && PollOk(c, s, start, s.polls[q])
    ensures var s' := Apply(c, s, PollResumes(q)); PollOk(c, s', start, s'.polls[q])
  {
    PollStaysOk(c, s, PollResumes(q), start, s.polls[q]);
  }

  /** The poll, if any, whose turn it is. */
  function Turn(step: Step): (q: Option<PollId>) {
    match step
    case HeadArrives(q, _) => Some(q)
    case LogsArrive(q, _) => Some(q)
    case DeliverLog(q) => Some(q)
    case PollResumes(q) => Some(q)
    case PollEnds(q) => Some(q)
    case _ => None
  }

  lemma OtherPollsUntouched(c: Config, s: State, step: Step, q: PollId)
    requires Enabled(c, s, step) && !step.Restart? && Turn(step) != Some(q) && q in Apply(c, s, step).polls
    ensures var poll := Apply(c, s, step).polls[q];
            if step.StartPoll? && q == s.nextId then poll == AwaitingHead else q in s.polls && poll == s.polls[q]
  {
    match step
    case SignersAnswer(_, _, _) =>
    case SubmissionReturns(_, _, _) =>
    case _ =>
  }

  lemma PollStepIsOk(c: Config, s: State, step: Step, start: nat, q: PollId)
    requires CallsOk(c, s) && Covered(c, s, start) && Enabled(c, s, step) && Truthful(c, s, step)
    requires q in Apply(c, s, step).polls
    ensures PollOk(c, Apply(c, s, step), start, Apply(c, s, step).polls[q])
  {
    if Turn(step) == Some(q) {
      match step
      case HeadArrives(_, head) => QueryIsOk(c, s, start, q, head);
      case LogsArrive(_, reply) => ReplyIsOk(c, s, start, q, reply);
      case DeliverLog(_) => DeliveryIsOk(c, s, start, q);
      case PollResumes(_) => ResumedPollIsOk(c, s, start, q);
      case _ =>
    } else {
      OtherPollsUntouched(c, s, step, q);
      if q in s.polls && Apply(c, s, step).polls[q] == s.polls[q] {
        PollStaysOk(c, s, step, start, s.polls[q]);
      }
    }
  }

  lemma StepKeepsCovered(c: Config, s: State, step: Step, start: nat)
    requires CallsOk(c, s) && Covered(c, s, start) && Enabled(c, s, step) && Truthful(c, s, step)
    ensures Covered(c, Apply(c, s, step), start)
  {
    var s' := Apply(c, s, step);
    if step.PollEnds? {
      FinishedRangeIsAccounted(c, s, start, s.polls[step.poll]);
      AccountedForGood(c, s, step, start, s.polls[step.poll].to + 1);
    } else {
      AccountedForGood(c, s, step, start, s.cursor);
    }
    forall q | q in s'.polls ensures PollOk(c, s', start, s'.polls[q]) {
      PollStepIsOk(c, s, step, start, q);
    }
  }

  lemma {:induction false} RunIsCovered(c: Config, states: seq<State>, steps: seq<Step>, start: nat, i: nat)
    requires TruthfulRun(c, states, steps) && Init(states[0], start) && i < |states|
    ensures Covered(c, states[i], start)
  {
    if i > 0 {
      RunIsCovered(c, states, steps, start, i - 1);
      RunIsSafe(c, states, steps, start, i - 1);
      StepKeepsCovered(c, states[i - 1], steps[i - 1], start);
    }
  }

  /**
   No loss: with a truthful node, every log of every block the cursor has ever passed is, at that
   moment and at every later one, reorged away, undecodable, invalid, submitted or dead-lettered. The
   cursor may meanwhile move backwards, polls may overlap and the process may restart.
   */
  lemma {:induction false} NoEventIsLost(c: Config, states: seq<State>, steps: seq<Step>, start: nat, i: nat, j: nat)
    requires TruthfulRun(c, states, steps) && Init(states[0], start) && i <= j < |states|
    ensures forall b, log ::
              (start <= b < states[i].cursor && log in c.history(b)) ==>
                || log.removed
                || c.decode(log).None?
                || !c.valid(c.decode(log).value)
                || KeyOf(c.decode(log).value) in states[j].nonces
                || KeyOf(c.decode(log).value) in Queued(states[j].dlq)
    decreases j
  {
    CoveredStays(c, states, steps, start, i, j);
    forall b, log | start <= b < states[i].cursor && log in c.history(b)
      ensures || log.removed
              || c.decode(log).None?
              || !c.valid(c.decode(log).value)
              || KeyOf(c.decode(log).value) in states[j].nonces
              || KeyOf(c.decode(log).value) in Queued(states[j].dlq)
    {
      assert Accounted(c, states[j], log);
    }
  }

  lemma {:induction false} CoveredStays(c: Config, states: seq<State>, steps: seq<Step>, start: nat, i: nat, j: nat)
    requires TruthfulRun(c, states, steps) && Init(states[0], start) && i <= j < |states|
    ensures BlocksAccounted(c, states[j], start, states[i].cursor)
  {
    if i == j {
      RunIsCovered(c, states, steps, start, i);
    } else {
      CoveredStays(c, states, steps, start, i, j - 1);
      AccountedForGood(c, states[j - 1], steps[j - 1], start, states[i].cursor);
    }
  }
}
