/** Draining a backlog in bounded ranges, and what happens when a node answers a log query with a non-array. */
module ProtocolDraining {
  import opened Prelude
  import opened Protocol
  import opened ProtocolSafety
  import opened ProtocolCoverage
  import Numerals

  /** No overlapping polls, a fixed chain head, no failing call and no restart. */
  predicate Orderly(s: State, step: Step, latest: nat) {
    match step
    case StartPoll => s.polls == map[]
    case HeadArrives(_, head) => head == HeadAt(latest)
    case LogsArrive(_, reply) => reply.LogsAre?
    case Restart => false
    case _ => true
  }

  ghost predicate OrderlyRun(c: Config, states: seq<State>, steps: seq<Step>, latest: nat) {
    && Run(c, states, steps)
    && forall i :: 0 <= i < |steps| ==> Orderly(states[i], steps[i], latest)
  }

  /** Where the cursor stands after `n` polls over a backlog from `start` to `safe`. */
  function Reached(start: nat, safe: nat, maxBlockRange: nat, n: nat): (r: nat) {
    if safe < start then start
    else if start + n * maxBlockRange <= safe then start + n * maxBlockRange
    else safe + 1
  }

  /** The `n`-th range of the backlog. */
  predicate NthRange(start: nat, safe: nat, maxBlockRange: nat, n: nat, q: Query) {
    && q.from <= safe && q.from == Reached(start, safe, maxBlockRange, n)
    && q.to + 1 == Reached(start, safe, maxBlockRange, n + 1)
  }

  /** The ranges asked for so far; a poll past its head query is working on the last of them. */
  ghost predicate Draining(c: Config, s: State, start: nat, latest: nat) {
    var safe := SafeBlock(latest, c.confirmations);
    var n := |s.queries|;
    && c.maxBlockRange >= 1
    && (forall i :: 0 <= i < n ==> NthRange(start, safe, c.maxBlockRange, i, s.queries[i]))
    && (forall p, q :: p in s.polls && q in s.polls ==> p == q)
    && (forall q :: q in s.polls && !s.polls[q].AwaitingHead? ==>
          && n > 0 && s.polls[q].to == s.queries[n - 1].to
          && s.cursor == s.queries[n - 1].from)
    && ((forall q :: q in s.polls ==> s.polls[q].AwaitingHead?) ==>
          s.cursor == Reached(start, safe, c.maxBlockRange, n))
  }

  lemma NextRange(start: nat, safe: nat, maxBlockRange: nat, n: nat, latest: nat)
    requires maxBlockRange >= 1 && Reached(start, safe, maxBlockRange, n) <= safe
    ensures var from := Reached(start, safe, maxBlockRange, n);
            var to := QueryEnd(from, safe, maxBlockRange);
            to >= 0 && NthRange(start, safe, maxBlockRange, n, Query(from, to, latest))
  {
    assert (n + 1) * maxBlockRange == n * maxBlockRange + maxBlockRange;
  }

  lemma HeadKeepsDraining(c: Config, s: State, q: PollId, start: nat, latest: nat)
    requires Draining(c, s, start, latest) && Enabled(c, s, HeadArrives(q, HeadAt(latest)))
    ensures Draining(c, Apply(c, s, HeadArrives(q, HeadAt(latest))), start, latest)
  {
    var s' := Apply(c, s, HeadArrives(q, HeadAt(latest)));
    var safe := SafeBlock(latest, c.confirmations);
    assert forall p :: p in s.polls ==> p == q;
    if s.cursor <= safe {
      NextRange(start, safe, c.maxBlockRange, |s.queries|, latest);
      assert q in s'.polls && !s'.polls[q].AwaitingHead?;
    }
  }

  /** A poll at work on its range moves neither the cursor nor the range. */
  lemma WorkKeepsDraining(c: Config, s: State, s': State, q: PollId, start: nat, latest: nat)
    requires Draining(c, s, start, latest)
    requires q in s.polls && !s.polls[q].AwaitingHead? && q in s'.polls && !s'.polls[q].AwaitingHead?
    requires s'.polls == s.polls[q := s'.polls[q]] && s'.polls[q].to == s.polls[q].to
    requires s'.queries == s.queries && s'.cursor == s.cursor
    ensures Draining(c, s', start, latest)
  {}

  lemma EndKeepsDraining(c: Config, s: State, q: PollId, start: nat, latest: nat)
    requires Draining(c, s, start, latest) && Enabled(c, s, PollEnds(q))
    ensures Draining(c, Apply(c, s, PollEnds(q)), start, latest)
  {
    assert forall p :: p in s.polls ==> p == q;
  }

  lemma OthersLeavePollsAlone(c: Config, s: State, step: Step)
    requires Enabled(c, s, step) && Turn(step) == None && !step.StartPoll? && !step.Restart?
    ensures Apply(c, s, step).queries == s.queries && Apply(c, s, step).polls == s.polls
    ensures Apply(c, s, step).cursor == s.cursor
  {
    match step
    case SignersAnswer(p, responses, now) =>
    case SubmissionReturns(p, outcome, now) =>
    case _ =>
  }

  lemma StepKeepsDraining(c: Config, s: State, step: Step, start: nat, latest: nat)
    requires Draining(c, s, start, latest) && Enabled(c, s, step) && Orderly(s, step, latest)
    ensures Draining(c, Apply(c, s, step), start, latest)
  {
    match step
    case StartPoll =>
    case HeadArrives(q, _) => HeadKeepsDraining(c, s, q, start, latest);
    case LogsArrive(q, _) => WorkKeepsDraining(c, s, Apply(c, s, step), q, start, latest);
    case DeliverLog(q) => WorkKeepsDraining(c, s, Apply(c, s, step), q, start, latest);
    case PollResumes(q) => WorkKeepsDraining(c, s, Apply(c, s, step), q, start, latest);
    case PollEnds(q) => EndKeepsDraining(c, s, q, start, latest);
    case _ => OthersLeavePollsAlone(c, s, step);
  }

  lemma {:induction false} RunDrains(c: Config, states: seq<State>, steps: seq<Step>, start: nat, latest: nat, i: nat)
    requires OrderlyRun(c, states, steps, latest) && Init(states[0], start) && i < |states| && c.maxBlockRange >= 1
    ensures Draining(c, states[i], start, latest)
  {
    if i > 0 {
      RunDrains(c, states, steps, start, latest, i - 1);
      StepKeepsDraining(c, states[i - 1], steps[i - 1], start, latest);
    }
  }

  /** The number of ranges a backlog is cut into. */
  function RangeCount(start: nat, safe: nat, maxBlockRange: nat): (n: nat)
    requires maxBlockRange >= 1
  {
    if safe < start then 0 else (safe - start + maxBlockRange) / maxBlockRange
  }

  lemma QuotientBounds(d: nat, m: nat)
    requires m >= 1
    ensures (d / m) * m <= d < (d / m) * m + m
  {}

  lemma RangeCountIsExact(start: nat, safe: nat, maxBlockRange: nat, n: nat)
    requires maxBlockRange >= 1
    ensures Reached(start, safe, maxBlockRange, n) <= safe <==> n < RangeCount(start, safe, maxBlockRange)
  {
    if start <= safe {
      var count := RangeCount(start, safe, maxBlockRange);
      QuotientBounds(safe - start + maxBlockRange, maxBlockRange);
      if n < count {
        Numerals.Scale(n + 1, count, maxBlockRange);
        assert (n + 1) * maxBlockRange == n * maxBlockRange + maxBlockRange;
      } else {
        Numerals.Scale(count, n, maxBlockRange);
      }
    }
  }

  // ---- Counting polls ---------------------------------------------------------------------

  function HeadsArrived(steps: seq<Step>): (n: nat) {
    if steps == [] then 0
    else HeadsArrived(steps[..|steps| - 1]) + if steps[|steps| - 1].HeadArrives? then 1 else 0
  }

  function PollsStarted(steps: seq<Step>): (n: nat) {
    if steps == [] then 0
    else PollsStarted(steps[..|steps| - 1]) + if steps[|steps| - 1].StartPoll? then 1 else 0
  }

  function Min(a: nat, b: nat): (m: nat) { if a < b then a else b }

  ghost predicate SomePollWaits(s: State) { exists q :: q in s.polls && s.polls[q].AwaitingHead? }

  /** A head that arrives inside the backlog asks for the next range; one that arrives behind it asks for nothing. */
  lemma HeadAsks(c: Config, s: State, q: PollId, start: nat, latest: nat)
    requires Draining(c, s, start, latest) && Enabled(c, s, HeadArrives(q, HeadAt(latest)))
    ensures var n, s' := |s.queries|, Apply(c, s, HeadArrives(q, HeadAt(latest)));
            && |s'.queries| ==
               (if n < RangeCount(start, SafeBlock(latest, c.confirmations), c.maxBlockRange) then n + 1 else n)
            && SomePollWaits(s) && !SomePollWaits(s')
  {
    assert forall p :: p in s.polls ==> p == q;
    RangeCountIsExact(start, SafeBlock(latest, c.confirmations), c.maxBlockRange, |s.queries|);
  }

  lemma StartWaits(c: Config, s: State)
    ensures SomePollWaits(Apply(c, s, StartPoll)) && Apply(c, s, StartPoll).queries == s.queries
  {
    assert Apply(c, s, StartPoll).polls[s.nextId].AwaitingHead?;
  }

  lemma OthersAskNothing(c: Config, s: State, step: Step, start: nat, latest: nat)
    requires Draining(c, s, start, latest) && Enabled(c, s, step) && Orderly(s, step, latest)
    requires !step.HeadArrives? && !step.StartPoll?
    ensures Apply(c, s, step).queries == s.queries && (SomePollWaits(Apply(c, s, step)) <==> SomePollWaits(s))
  {
    match step
    case LogsArrive(q, _) => WorkAsksNothing(s, Apply(c, s, step), q);
    case DeliverLog(q) => WorkAsksNothing(s, Apply(c, s, step), q);
    case PollResumes(q) => WorkAsksNothing(s, Apply(c, s, step), q);
    case PollEnds(q) => assert forall p :: p in s.polls ==> p == q;
    case _ => OthersLeavePollsAlone(c, s, step);
  }

  lemma WorkAsksNothing(s: State, s': State, q: PollId)
    requires q in s.polls && !s.polls[q].AwaitingHead? && q in s'.polls && !s'.polls[q].AwaitingHead?
    requires s'.polls == s.polls[q := s'.polls[q]]
    ensures SomePollWaits(s') <==> SomePollWaits(s)
  {
    if SomePollWaits(s) {
      var p :| p in s.polls && s.polls[p].AwaitingHead?;
      assert s'.polls[p].AwaitingHead?;
    }
  }

  /**
   Every head that arrived asked for one range until none was left, and every poll started got its head or
   waits for it.
   */
  ghost predicate Counted(c: Config, s: State, start: nat, latest: nat, heads: nat, polls: nat) {
    && c.maxBlockRange >= 1
    && |s.queries| == Min(heads, RangeCount(start, SafeBlock(latest, c.confirmations), c.maxBlockRange))
    && polls == heads + (if SomePollWaits(s) then 1 else 0)
  }

  lemma StepCounts(c: Config, s: State, step: Step, start: nat, latest: nat, heads: nat, polls: nat)
    requires Draining(c, s, start, latest) && Enabled(c, s, step) && Orderly(s, step, latest)
    requires Counted(c, s, start, latest, heads, polls)
    ensures Counted(c, Apply(c, s, step), start, latest,
                    heads + (if step.HeadArrives? then 1 else 0), polls + (if step.StartPoll? then 1 else 0))
  {
    if step.HeadArrives? {
      HeadAsks(c, s, step.poll, start, latest);
    } else if step.StartPoll? {
      StartWaits(c, s);
    } else {
      OthersAskNothing(c, s, step, start, latest);
    }
  }

  lemma {:induction false} RunCountsPolls(c: Config, states: seq<State>, steps: seq<Step>, start: nat, latest: nat,
                                          i: nat)
    requires OrderlyRun(c, states, steps, latest) && Init(states[0], start) && i < |states| && c.maxBlockRange >= 1
    ensures Counted(c, states[i], start, latest, HeadsArrived(steps[..i]), PollsStarted(steps[..i]))
  {
    if i > 0 {
      RunCountsPolls(c, states, steps, start, latest, i - 1);
      RunDrains(c, states, steps, start, latest, i - 1);
      assert steps[..i][..i - 1] == steps[..i - 1];
      StepCounts(c, states[i - 1], steps[i - 1], start, latest, HeadsArrived(steps[..i - 1]),
                 PollsStarted(steps[..i - 1]));
    }
  }

  /**
   Draining: with a fixed head and polls that do not overlap, the queried ranges are contiguous and
   disjoint, start at the cursor and are at most `maxBlockRange` wide; every head that arrives asks for one
   of them until ceil((safe - start + 1) / maxBlockRange) have been asked for; and between two polls the
   cursor stands at `safe + 1` exactly when at least that many polls have been started.
   */
  lemma BacklogDrains(c: Config, states: seq<State>, steps: seq<Step>, start: nat, latest: nat, i: nat)
    requires OrderlyRun(c, states, steps, latest) && Init(states[0], start) && i < |states| && c.maxBlockRange >= 1
    ensures var s, safe := states[i], SafeBlock(latest, c.confirmations);
            var count := RangeCount(start, safe, c.maxBlockRange);
            && (s.queries != [] ==> s.queries[0].from == start)
            && (forall j :: 0 <= j < |s.queries| - 1 ==> s.queries[j + 1].from == s.queries[j].to + 1)
            && (forall j :: 0 <= j < |s.queries| ==>
                  s.queries[j].from <= s.queries[j].to < s.queries[j].from + c.maxBlockRange)
            && |s.queries| == Min(HeadsArrived(steps[..i]), count)
            && (s.polls == map[] && start <= safe ==> (s.cursor == safe + 1 <==> PollsStarted(steps[..i]) >= count))
  {
    var s, safe := states[i], SafeBlock(latest, c.confirmations);
    RunDrains(c, states, steps, start, latest, i);
    RunIsSafe(c, states, steps, start, i);
    RunCountsPolls(c, states, steps, start, latest, i);
    var n := |s.queries|;
    RangeCountIsExact(start, safe, c.maxBlockRange, n);
    if n > 0 {
      assert NthRange(start, safe, c.maxBlockRange, 0, s.queries[0]);
    }
    forall j | 0 <= j < n - 1 ensures s.queries[j + 1].from == s.queries[j].to + 1 {
      assert NthRange(start, safe, c.maxBlockRange, j, s.queries[j]) &&
        NthRange(start, safe, c.maxBlockRange, j + 1, s.queries[j + 1]);
    }
  }

  // ---- A node that answers with something other than an array -----------------------------

  function Fresh(start: nat): (s: State)
    ensures Init(s, start)
  {
    State({}, [], start, map[], map[], map[], Idle, 0, [], multiset{}, multiset{}, [], multiset{})
  }

  /** The first poll: its head arrives, its log query is answered by something that is not an array, and it ends. */
  function NonArrayPoll(latest: nat): (steps: seq<Step>) {
    [StartPoll, HeadArrives(0, HeadAt(latest)), LogsArrive(0, NotAnArray), PollEnds(0)]
  }

  lemma NonArrayPollRuns(c: Config, start: nat, latest: nat) returns (states: seq<State>)
    requires c.maxBlockRange >= 1 && start <= SafeBlock(latest, c.confirmations)
    ensures Run(c, states, NonArrayPoll(latest)) && states[0] == Fresh(start)
    ensures var last := states[4];
            && last.cursor == QueryEnd(start, SafeBlock(latest, c.confirmations), c.maxBlockRange) + 1
            && last.nonces == {} && last.dlq == []
  {
    var to := QueryEnd(start, SafeBlock(latest, c.confirmations), c.maxBlockRange);
    var s0 := Fresh(start);
    var s1 := s0.(polls := map[0 := AwaitingHead], nextId := 1);
    var s2 := s1.(polls := map[0 := AwaitingLogs(start, to)], queries := [Query(start, to, latest)]);
    var s3 := s2.(polls := map[0 := Delivering(start, to, [], 0, None)]);
    var s4 := s3.(polls := map[], cursor := to + 1);
    states := [s0];
    RunExtends(c, states, [], StartPoll, s1);
    RunExtends(c, [s0, s1], [StartPoll], HeadArrives(0, HeadAt(latest)), s2);
    RunExtends(c, [s0, s1, s2], [StartPoll, HeadArrives(0, HeadAt(latest))], LogsArrive(0, NotAnArray), s3);
    RunExtends(c, [s0, s1, s2, s3], [StartPoll, HeadArrives(0, HeadAt(latest)), LogsArrive(0, NotAnArray)], PollEnds(0),
               s4);
    states := [s0, s1, s2, s3, s4];
    assert [s0, s1, s2, s3] + [s4] == states;
    assert [StartPoll, HeadArrives(0, HeadAt(latest)), LogsArrive(0, NotAnArray)] + [PollEnds(0)] ==
      NonArrayPoll(latest);
  }

  /**
   A reply that is not an array is read as "no logs". Whatever the configuration, the start block and the
   head, there is a run in which the first range is answered so and the cursor moves past it, and that run
   leaves everything behind the cursor accounted for exactly when no log of the range matters.
   */
  lemma NonArrayReplyLosesADeposit(c: Config, start: nat, latest: nat)
    requires c.maxBlockRange >= 1 && start <= SafeBlock(latest, c.confirmations)
    ensures exists states: seq<State> ::
              && Run(c, states, NonArrayPoll(latest)) && Init(states[0], start)
              && var to := QueryEnd(start, SafeBlock(latest, c.confirmations), c.maxBlockRange);
              && states[4].cursor == to + 1
              && (BlocksAccounted(c, states[4], start, to + 1) <==> Complete(c, start, to, []))
  {
    var states := NonArrayPollRuns(c, start, latest);
    var to := QueryEnd(start, SafeBlock(latest, c.confirmations), c.maxBlockRange);
    EmptyStoresAccountForNothing(c, states[4], start, to);
  }

  lemma EmptyStoresAccountForNothing(c: Config, s: State, from: nat, to: nat)
    requires s.nonces == {} && s.dlq == []
    ensures BlocksAccounted(c, s, from, to + 1) <==> Complete(c, from, to, [])
  {
    forall log ensures Accounted(c, s, log) <==> !Matters(c, log) {}
  }
}
