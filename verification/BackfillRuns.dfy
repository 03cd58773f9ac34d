/**
 Backfills that can be killed, fail or overlap at any moment, beside live notifications. A signature is known
 by its position in the chronological chain, a deposit by its signature and its number within it. Reconnecting
 starts a new backfill without stopping one that still runs; killing the process stops everything and keeps the
 cursor.
 */
module BackfillRuns {
  datatype Item = Item(at: nat, k: nat)

  /** The number of deposits of every signature, none from some signature on. */
  datatype Chain = Chain(deposits: seq<nat>)

  function CountAt(count: Chain, at: nat): (n: nat) { if at < |count.deposits| then count.deposits[at] else 0 }

  datatype Status = Live | Failed | Killed

  /**
   A backfill over the signatures `from .. end`, or the notification of the one signature `from`: it is at
   signature `at` and has handed over `part` of its deposits.
   */
  datatype Job = Job(from: nat, at: nat, part: nat, end: nat, status: Status, notified: bool)

  /** `cursor` signatures lie at or before the recorded one; `top` is the most that ever did. */
  datatype State = State(cursor: nat, top: nat, jobs: seq<Job>, handed: seq<Item>)

  datatype Step =
    | Start(from: nat, end: nat)   // the list is complete: everything after some cursor there has been
    | Notify(n: nat)               // signature `n` arrives live, whatever has been handed over before it
    | Hand(j: nat)                 // the next deposit is handed over and awaited
    | Record(j: nat)               // all deposits of the signature are: it is recorded
    | Fail(j: nat)                 // the transaction cannot be fetched
    | Kill

  predicate Running(job: Job) { job.status == Live && job.at < job.end }

  predicate Enabled(count: Chain, start: nat, s: State, step: Step) {
    match step
    case Start(from, end) => start <= from <= s.top && from <= end
    case Notify(_) => true
    case Hand(j) => j < |s.jobs| && Running(s.jobs[j]) && s.jobs[j].part < CountAt(count, s.jobs[j].at)
    case Record(j) => j < |s.jobs| && Running(s.jobs[j]) && s.jobs[j].part == CountAt(count, s.jobs[j].at)
    case Fail(j) => j < |s.jobs| && Running(s.jobs[j]) && s.jobs[j].part == 0 && !s.jobs[j].notified
    case Kill => true
  }

  /** The backfills after the process has died. */
  function AllKilled(jobs: seq<Job>): (r: seq<Job>)
    ensures |r| == |jobs|
    ensures forall i :: 0 <= i < |jobs| ==>
              r[i] == if jobs[i].status == Live then jobs[i].(status := Killed) else jobs[i]
  {
    seq(|jobs|, i requires 0 <= i < |jobs| => if jobs[i].status == Live then jobs[i].(status := Killed) else jobs[i])
  }

  function Max(a: nat, b: nat): (m: nat) { if a < b then b else a }

  function Apply(count: Chain, start: nat, s: State, step: Step): (r: State)
    requires Enabled(count, start, s, step)
  {
    match step
    case Start(from, end) => s.(jobs := s.jobs + [Job(from, from, 0, end, Live, false)])
    case Notify(n) => s.(jobs := s.jobs + [Job(n, n, 0, n + 1, Live, true)])
    case Hand(j) =>
      s.(jobs := s.jobs[j := s.jobs[j].(part := s.jobs[j].part + 1)],
         handed := s.handed + [Item(s.jobs[j].at, s.jobs[j].part)])
    case Record(j) =>
      var at := s.jobs[j].at + 1;
      s.(jobs := s.jobs[j := s.jobs[j].(at := at, part := 0)], cursor := at, top := Max(s.top, at))
    case Fail(j) => s.(jobs := s.jobs[j := s.jobs[j].(status := Failed)])
    case Kill => s.(jobs := AllKilled(s.jobs))
  }

  predicate Init(s: State, start: nat) { s == State(start, start, [], []) }

  ghost predicate Run(count: Chain, start: nat, states: seq<State>, steps: seq<Step>) {
    && |states| == |steps| + 1 && Init(states[0], start)
    && forall i :: 0 <= i < |steps| ==>
         Enabled(count, start, states[i], steps[i]) && states[i + 1] == Apply(count, start, states[i], steps[i])
  }

  // ---- Backfills alone: order is kept ------------------------------------------------------

  predicate Real(count: Chain, x: Item) { x.k < CountAt(count, x.at) }

  /** `x` comes before the deposit number `k` of signature `at`. */
  predicate Before(x: Item, at: nat, k: nat) { x.at < at || (x.at == at && x.k < k) }

  /** Every deposit from `start` up to, not including, deposit `k` of signature `at` is in `handed`. */
  ghost predicate AllHanded(count: Chain, start: nat, handed: seq<Item>, at: nat, k: nat) {
    forall x :: Real(count, x) && start <= x.at && Before(x, at, k) ==> x in handed
  }

  ghost predicate InOrder(count: Chain, start: nat, handed: seq<Item>) {
    forall i :: 0 <= i < |handed| ==> AllHanded(count, start, handed[..i], handed[i].at, handed[i].k)
  }

  predicate Unnotified(steps: seq<Step>) { forall i :: 0 <= i < |steps| ==> !steps[i].Notify? }

  ghost predicate JobOk(count: Chain, start: nat, s: State, job: Job) {
    && !job.notified && start <= job.from <= job.at <= job.end && job.part <= CountAt(count, job.at)
    && (job.at == job.end || job.status == Failed ==> job.part == 0)
    && AllHanded(count, start, s.handed, job.at, job.part)
  }

  ghost predicate Ok(count: Chain, start: nat, s: State) {
    && start <= s.cursor <= s.top
    && AllHanded(count, start, s.handed, s.top, 0)
    && (forall j :: 0 <= j < |s.jobs| ==> JobOk(count, start, s, s.jobs[j]))
    && InOrder(count, start, s.handed)
    && (forall i :: 0 <= i < |s.handed| ==> Real(count, s.handed[i]) && start <= s.handed[i].at)
  }

  lemma MoreHanded(count: Chain, start: nat, handed: seq<Item>, x: Item, at: nat, k: nat)
    requires AllHanded(count, start, handed, at, k)
    ensures AllHanded(count, start, handed + [x], at, k)
  {}

  lemma HandKeepsOk(count: Chain, start: nat, s: State, j: nat)
    requires Ok(count, start, s) && Enabled(count, start, s, Hand(j))
    ensures Ok(count, start, Apply(count, start, s, Hand(j)))
  {
    var s', job := Apply(count, start, s, Hand(j)), s.jobs[j];
    var x := Item(job.at, job.part);
    MoreHanded(count, start, s.handed, x, s.top, 0);
    forall i | 0 <= i < |s'.jobs| ensures JobOk(count, start, s', s'.jobs[i]) {
      assert JobOk(count, start, s, s.jobs[i]);
      MoreHanded(count, start, s.handed, x, s.jobs[i].at, s.jobs[i].part);
    }
    forall i | 0 <= i < |s'.handed| ensures AllHanded(count, start, s'.handed[..i], s'.handed[i].at, s'.handed[i].k) {
      assert s'.handed[..i] == s.handed[..i];
      assert s.handed[..|s.handed|] == s.handed;
    }
  }

  lemma RecordKeepsOk(count: Chain, start: nat, s: State, j: nat)
    requires Ok(count, start, s) && Enabled(count, start, s, Record(j))
    ensures Ok(count, start, Apply(count, start, s, Record(j)))
  {
    var s', job := Apply(count, start, s, Record(j)), s.jobs[j];
    assert AllHanded(count, start, s.handed, job.at + 1, 0);
    forall i | 0 <= i < |s'.jobs| ensures JobOk(count, start, s', s'.jobs[i]) {
      assert JobOk(count, start, s, s.jobs[i]);
    }
  }

  lemma StartKeepsOk(count: Chain, start: nat, s: State, from: nat, end: nat)
    requires Ok(count, start, s) && Enabled(count, start, s, Start(from, end))
    ensures Ok(count, start, Apply(count, start, s, Start(from, end)))
  {
    var s' := Apply(count, start, s, Start(from, end));
    forall i | 0 <= i < |s'.jobs| ensures JobOk(count, start, s', s'.jobs[i]) {
      if i < |s.jobs| { assert JobOk(count, start, s, s.jobs[i]); }
    }
  }

  lemma StopKeepsOk(count: Chain, start: nat, s: State, step: Step)
    requires Ok(count, start, s) && Enabled(count, start, s, step) && (step.Fail? || step.Kill?)
    ensures Ok(count, start, Apply(count, start, s, step))
  {
    var s' := Apply(count, start, s, step);
    forall i | 0 <= i < |s.jobs| ensures JobOk(count, start, s', s'.jobs[i]) {
      assert JobOk(count, start, s, s.jobs[i]);
    }
  }

  lemma StepKeepsOk(count: Chain, start: nat, s: State, step: Step)
    requires Ok(count, start, s) && Enabled(count, start, s, step) && !step.Notify?
    ensures Ok(count, start, Apply(count, start, s, step))
  {
    match step
    case Start(from, end) => StartKeepsOk(count, start, s, from, end);
    case Hand(j) => HandKeepsOk(count, start, s, j);
    case Record(j) => RecordKeepsOk(count, start, s, j);
    case Notify(_) =>
    case Fail(_) => StopKeepsOk(count, start, s, step);
    case Kill => StopKeepsOk(count, start, s, step);
  }

  lemma {:induction false} RunIsOk(count: Chain, start: nat, states: seq<State>, steps: seq<Step>, i: nat)
    requires Run(count, start, states, steps) && Unnotified(steps) && i < |states|
    ensures Ok(count, start, states[i])
  {
    if i > 0 {
      RunIsOk(count, start, states, steps, i - 1);
      StepKeepsOk(count, start, states[i - 1], steps[i - 1]);
    }
  }

  /** Order is kept: as long as nothing is notified, before any deposit is handed over, every earlier one has been. */
  lemma FirstHandedInOrder(count: Chain, start: nat, states: seq<State>, steps: seq<Step>, i: nat, n: nat, x: Item)
    requires Run(count, start, states, steps) && Unnotified(steps) && i < |states| && n < |states[i].handed|
    requires Real(count, x) && start <= x.at && Before(x, states[i].handed[n].at, states[i].handed[n].k)
    ensures x in states[i].handed[..n]
  {
    RunIsOk(count, start, states, steps, i);
    assert AllHanded(count, start, states[i].handed[..n], states[i].handed[n].at, states[i].handed[n].k);
  }

  // ---- How often a deposit is handed over -------------------------------------------------

  /** The backfill has come past `x`. */
  predicate Passed(job: Job, x: Item) { job.from <= x.at && Before(x, job.at, job.part) }

  /** The number of backfills that have come past `x`. */
  function Passes(jobs: seq<Job>, x: Item): (n: nat) {
    if jobs == [] then 0 else Passes(jobs[..|jobs| - 1], x) + if Passed(jobs[|jobs| - 1], x) then 1 else 0
  }

  lemma {:induction false} PassesUpdate(jobs: seq<Job>, j: nat, job: Job, x: Item)
    requires j < |jobs|
    ensures Passes(jobs[j := job], x) ==
            Passes(jobs, x) + (if Passed(job, x) then 1 else 0) - (if Passed(jobs[j], x) then 1 else 0)
  {
    var n := |jobs| - 1;
    if j == n {
      assert jobs[j := job][..n] == jobs[..n];
    } else {
      assert jobs[j := job][..n] == jobs[..n][j := job];
      PassesUpdate(jobs[..n], j, job, x);
    }
  }

  lemma {:induction false} PassesKilled(jobs: seq<Job>, x: Item)
    ensures Passes(AllKilled(jobs), x) == Passes(jobs, x)
  {
    if jobs != [] {
      var n := |jobs| - 1;
      assert AllKilled(jobs)[..n] == AllKilled(jobs[..n]);
      PassesKilled(jobs[..n], x);
    }
  }

  /** Jobs go forward from where they start, and a notification is about one signature. */
  ghost predicate Forward(s: State) {
    && s.cursor <= s.top
    && forall j :: 0 <= j < |s.jobs| ==>
         s.jobs[j].from <= s.jobs[j].at <= s.jobs[j].end && (s.jobs[j].notified ==> s.jobs[j].end == s.jobs[j].from + 1)
  }

  lemma {:induction false} RunGoesForward(count: Chain, start: nat, states: seq<State>, steps: seq<Step>, i: nat)
    requires Run(count, start, states, steps) && i < |states|
    ensures Forward(states[i])
  {
    if i > 0 { RunGoesForward(count, start, states, steps, i - 1); }
  }

  /** Every hand-over of `x` is the passing of one backfill. */
  ghost predicate CountsPasses(count: Chain, s: State) {
    forall x :: Real(count, x) ==> multiset(s.handed)[x] == Passes(s.jobs, x)
  }

  lemma StepCountsOne(count: Chain, start: nat, s: State, step: Step, x: Item)
    requires Enabled(count, start, s, step) && Forward(s)
    requires Real(count, x) && multiset(s.handed)[x] == Passes(s.jobs, x)
    ensures multiset(Apply(count, start, s, step).handed)[x] == Passes(Apply(count, start, s, step).jobs, x)
  {
    var s' := Apply(count, start, s, step);
    match step
    case Start(_, _) => assert s'.jobs[..|s.jobs|] == s.jobs;
    case Notify(_) => assert s'.jobs[..|s.jobs|] == s.jobs;
    case Hand(j) => PassesUpdate(s.jobs, j, s'.jobs[j], x);
    case Record(j) => PassesUpdate(s.jobs, j, s'.jobs[j], x);
    case Fail(j) => PassesUpdate(s.jobs, j, s'.jobs[j], x);
    case Kill => PassesKilled(s.jobs, x);
  }

  lemma StepKeepsCounts(count: Chain, start: nat, s: State, step: Step)
    requires Forward(s) && Enabled(count, start, s, step) && CountsPasses(count, s)
    ensures CountsPasses(count, Apply(count, start, s, step))
  {
    forall x | Real(count, x)
      ensures multiset(Apply(count, start, s, step).handed)[x] == Passes(Apply(count, start, s, step).jobs, x)
    {
      StepCountsOne(count, start, s, step, x);
    }
  }

  /** In every run a deposit is handed over exactly once for each backfill and each notification that came past it. */
  lemma {:induction false} HandedOncePerBackfill(count: Chain, start: nat, states: seq<State>, steps: seq<Step>, i: nat)
    requires Run(count, start, states, steps) && i < |states|
    ensures CountsPasses(count, states[i])
  {
    if i > 0 {
      HandedOncePerBackfill(count, start, states, steps, i - 1);
      RunGoesForward(count, start, states, steps, i - 1);
      StepKeepsCounts(count, start, states[i - 1], steps[i - 1]);
    }
  }

  /** In every run, overlaps included, a deposit is handed over more than once exactly when two jobs came past it. */
  lemma HandedAgainIffPassedTwice(count: Chain, start: nat, states: seq<State>, steps: seq<Step>, i: nat, x: Item)
    requires Run(count, start, states, steps) && i < |states| && Real(count, x)
    ensures var jobs := states[i].jobs;
            multiset(states[i].handed)[x] >= 2 <==>
            exists j, l :: 0 <= j < l < |jobs| && Passed(jobs[j], x) && Passed(jobs[l], x)
  {
    HandedOncePerBackfill(count, start, states, steps, i);
    PassedTwice(states[i].jobs, x);
  }

  // ---- What a notification can skip -------------------------------------------------------

  /**
   A notified signature is recorded while `x`, before it, lies behind no cursor there has been and has not
   been handed over: the cursor moves past `x`.
   */
  ghost predicate SkipsOver(s: State, step: Step, x: Item) {
    && step.Record? && step.j < |s.jobs| && s.jobs[step.j].notified
    && s.top <= x.at < s.jobs[step.j].at && x !in s.handed
  }

  ghost predicate Skipped(states: seq<State>, steps: seq<Step>, i: nat, x: Item)
    requires i < |states| == |steps| + 1
  {
    exists m :: 0 <= m < i && SkipsOver(states[m], steps[m], x)
  }

  /** The job is past `x`; a backfill also when it started past it. */
  predicate CameBehind(job: Job, x: Item) {
    Before(x, job.at, job.part) && (job.notified ==> job.from <= x.at)
  }

  /** `x` is handed over if any cursor there has been lies behind it, or a job is past it. */
  ghost predicate Kept(s: State, x: Item) {
    && (x.at < s.top ==> x in s.handed)
    && forall j :: 0 <= j < |s.jobs| && CameBehind(s.jobs[j], x) ==> x in s.handed
  }

  lemma StepKeeps(count: Chain, start: nat, s: State, step: Step, x: Item)
    requires Forward(s) && Enabled(count, start, s, step) && Real(count, x) && start <= x.at
    requires Kept(s, x) && !SkipsOver(s, step, x)
    ensures Kept(Apply(count, start, s, step), x)
  {}

  lemma {:induction false} KeptUnlessSkipped(count: Chain, start: nat, states: seq<State>, steps: seq<Step>, i: nat,
                                             x: Item)
    requires Run(count, start, states, steps) && i < |states| && Real(count, x) && start <= x.at
    ensures Kept(states[i], x) || Skipped(states, steps, i, x)
  {
    if i > 0 {
      KeptUnlessSkipped(count, start, states, steps, i - 1, x);
      RunGoesForward(count, start, states, steps, i - 1);
      if Kept(states[i - 1], x) && !SkipsOver(states[i - 1], steps[i - 1], x) {
        StepKeeps(count, start, states[i - 1], steps[i - 1], x);
      }
    }
  }

  lemma {:induction false} TopGrows(count: Chain, start: nat, states: seq<State>, steps: seq<Step>, i: nat, j: nat)
    requires Run(count, start, states, steps) && i <= j < |states|
    ensures states[i].top <= states[j].top && states[i].handed <= states[j].handed
    decreases j
  {
    if i < j { TopGrows(count, start, states, steps, i, j - 1); }
  }

  /**
   No deposit is lost: whatever is killed, fails or overlaps, every deposit behind any cursor there has
   been is handed over by then and stays so, unless a notification skipped over it.
   */
  lemma NoDepositIsLost(count: Chain, start: nat, states: seq<State>, steps: seq<Step>, i: nat, j: nat, x: Item)
    requires Run(count, start, states, steps) && i <= j < |states|
    requires Real(count, x) && start <= x.at < states[i].cursor
    ensures x in states[j].handed || Skipped(states, steps, i, x)
    ensures Unnotified(steps) ==> x in states[j].handed
  {
    KeptUnlessSkipped(count, start, states, steps, i, x);
    RunGoesForward(count, start, states, steps, i);
    TopGrows(count, start, states, steps, i, j);
    if Unnotified(steps) { RunIsOk(count, start, states, steps, i); }
  }

  lemma SkippedIsBehind(count: Chain, start: nat, states: seq<State>, steps: seq<Step>, i: nat, x: Item)
    requires Run(count, start, states, steps) && i < |states| && Skipped(states, steps, i, x)
    ensures x.at < states[i].top
  {
    var m :| 0 <= m < i && SkipsOver(states[m], steps[m], x);
    assert states[m + 1] == Apply(count, start, states[m], steps[m]);
    TopGrows(count, start, states, steps, m + 1, i);
  }

  /**
   Exactly what is lost: a deposit lies behind a cursor there has been and was never handed over if and only
   if a notified signature was recorded over it and no backfill or notification has come past it.
   */
  lemma NotHandedIffSkipped(count: Chain, start: nat, states: seq<State>, steps: seq<Step>, i: nat, x: Item)
    requires Run(count, start, states, steps) && i < |states| && Real(count, x) && start <= x.at
    ensures x.at < states[i].top && x !in states[i].handed <==>
            Skipped(states, steps, i, x) && Passes(states[i].jobs, x) == 0
  {
    KeptUnlessSkipped(count, start, states, steps, i, x);
    HandedOncePerBackfill(count, start, states, steps, i);
    assert x in states[i].handed <==> multiset(states[i].handed)[x] > 0;
    if Skipped(states, steps, i, x) { SkippedIsBehind(count, start, states, steps, i, x); }
  }

  // ---- Backfills that do not overlap ------------------------------------------------------

  /** A new backfill starts from the cursor, when no other runs, and nothing is notified. */
  ghost predicate Alone(s: State, step: Step) {
    && !step.Notify?
    && (step.Start? ==> step.from == s.cursor && forall j :: 0 <= j < |s.jobs| ==> !Running(s.jobs[j]))
  }

  ghost predicate AloneRun(count: Chain, start: nat, states: seq<State>, steps: seq<Step>) {
    && Run(count, start, states, steps)
    && forall i :: 0 <= i < |steps| ==> Alone(states[i], steps[i])
  }

  /** Each backfill starts at the signature the one before it stopped at; only the last may be running. */
  ghost predicate Chained(s: State, start: nat) {
    && s.cursor == s.top
    && s.cursor == (if s.jobs == [] then start else s.jobs[|s.jobs| - 1].at)
    && (forall j :: 0 <= j < |s.jobs| - 1 ==> !Running(s.jobs[j]) && s.jobs[j].at == s.jobs[j + 1].from)
  }

  lemma StepKeepsChained(count: Chain, start: nat, s: State, step: Step)
    requires Ok(count, start, s) && Chained(s, start) && Enabled(count, start, s, step) && Alone(s, step)
    ensures Chained(Apply(count, start, s, step), start)
  {}

  lemma {:induction false} AloneRunIsChained(count: Chain, start: nat, states: seq<State>, steps: seq<Step>, i: nat)
    requires AloneRun(count, start, states, steps) && i < |states|
    ensures Chained(states[i], start)
  {
    if i > 0 {
      AloneRunIsChained(count, start, states, steps, i - 1);
      RunIsOk(count, start, states, steps, i - 1);
      StepKeepsChained(count, start, states[i - 1], steps[i - 1]);
    }
  }

  /** The process was killed after the backfill had handed over `x`, but before it had recorded the signature. */
  predicate KilledAfter(job: Job, x: Item) { job.status == Killed && job.at == x.at && x.k < job.part }

  lemma {:induction false} ChainGrows(count: Chain, start: nat, s: State, j: nat, l: nat)
    requires Ok(count, start, s) && Chained(s, start) && j < l < |s.jobs|
    ensures s.jobs[j].at <= s.jobs[l].from
    decreases l
  {
    if j + 1 < l {
      ChainGrows(count, start, s, j, l - 1);
      assert JobOk(count, start, s, s.jobs[l - 1]);
    }
  }

  lemma {:induction false} PassedOnce(jobs: seq<Job>, x: Item)
    ensures (exists j :: 0 <= j < |jobs| && Passed(jobs[j], x)) <==> Passes(jobs, x) >= 1
  {
    if jobs != [] {
      var n := |jobs| - 1;
      PassedOnce(jobs[..n], x);
      if j :| 0 <= j < n && Passed(jobs[j], x) { assert Passed(jobs[..n][j], x); }
    }
  }

  lemma {:induction false} PassedTwice(jobs: seq<Job>, x: Item)
    ensures (exists j, l :: 0 <= j < l < |jobs| && Passed(jobs[j], x) && Passed(jobs[l], x)) <==> Passes(jobs, x) >= 2
  {
    if jobs != [] {
      var n := |jobs| - 1;
      var init := jobs[..n];
      PassedOnce(init, x);
      PassedTwice(init, x);
      if j, l :| 0 <= j < l < |jobs| && Passed(jobs[j], x) && Passed(jobs[l], x) {
        assert Passed(init[j], x);
        if l < n { assert Passed(init[l], x); }
      }
      if Passes(init, x) >= 2 {
        var j, l :| 0 <= j < l < n && Passed(init[j], x) && Passed(init[l], x);
        assert Passed(jobs[j], x) && Passed(jobs[l], x);
      } else if Passes(init, x) >= 1 {
        var j :| 0 <= j < n && Passed(init[j], x);
        assert Passed(jobs[j], x);
      }
    }
  }

  /** Two backfills come past a deposit only if the first was killed in the middle of its signature. */
  lemma PassedAgainAfterKill(count: Chain, start: nat, s: State, j: nat, l: nat, x: Item)
    requires Ok(count, start, s) && Chained(s, start) && j < l < |s.jobs| && Passed(s.jobs[l], x)
    ensures Passed(s.jobs[j], x) <==> KilledAfter(s.jobs[j], x)
  {
    ChainGrows(count, start, s, j, l);
    assert JobOk(count, start, s, s.jobs[j]);
  }

  /**
   Handed over again: when backfills do not overlap and nothing is notified, a deposit is handed over more
   than once exactly when the process was killed with its signature in progress and the deposit already
   handed over, and a later backfill came past it.
   */
  lemma HandedAgainIffKilledAfter(count: Chain, start: nat, states: seq<State>, steps: seq<Step>, i: nat, x: Item)
    requires AloneRun(count, start, states, steps) && i < |states| && Real(count, x)
    ensures var jobs := states[i].jobs;
            multiset(states[i].handed)[x] >= 2 <==>
            exists j, l :: 0 <= j < l < |jobs| && KilledAfter(jobs[j], x) && Passed(jobs[l], x)
  {
    var s := states[i];
    RunIsOk(count, start, states, steps, i);
    AloneRunIsChained(count, start, states, steps, i);
    HandedAgainIffPassedTwice(count, start, states, steps, i, x);
    forall j, l | 0 <= j < l < |s.jobs| && Passed(s.jobs[l], x)
      ensures Passed(s.jobs[j], x) <==> KilledAfter(s.jobs[j], x)
    {
      PassedAgainAfterKill(count, start, s, j, l, x);
    }
  }

  /** Some backfill from number `j` on recorded signature `at`, if the cursor is past it. */
  lemma {:induction false} RecorderOf(count: Chain, start: nat, s: State, j: nat, at: nat) returns (l: nat)
    requires Ok(count, start, s) && Chained(s, start) && j < |s.jobs| && s.jobs[j].at <= at < s.cursor
    ensures j < l < |s.jobs| && s.jobs[l].from <= at < s.jobs[l].at
    decreases |s.jobs| - j
  {
    assert j < |s.jobs| - 1;
    if at < s.jobs[j + 1].at {
      l := j + 1;
    } else {
      l := RecorderOf(count, start, s, j + 1, at);
    }
  }

  /** For a signature that is recorded by now, being killed in the middle of it was enough. */
  lemma RecordedAgainIffKilledAfter(count: Chain, start: nat, states: seq<State>, steps: seq<Step>, i: nat, x: Item)
    requires AloneRun(count, start, states, steps) && i < |states| && Real(count, x) && x.at < states[i].cursor
    ensures multiset(states[i].handed)[x] >= 2 <==>
            exists j :: 0 <= j < |states[i].jobs| && KilledAfter(states[i].jobs[j], x)
  {
    var s := states[i];
    HandedAgainIffKilledAfter(count, start, states, steps, i, x);
    if j :| 0 <= j < |s.jobs| && KilledAfter(s.jobs[j], x) {
      RunIsOk(count, start, states, steps, i);
      AloneRunIsChained(count, start, states, steps, i);
      var l := RecorderOf(count, start, s, j, x.at);
      assert Passed(s.jobs[l], x);
    }
  }

  // ---- Longer runs ------------------------------------------------------------------------

  lemma RunExtends(count: Chain, start: nat, states: seq<State>, steps: seq<Step>, step: Step, s': State)
    requires Run(count, start, states, steps) && Enabled(count, start, states[|steps|], step)
    requires s' == Apply(count, start, states[|steps|], step)
    ensures Run(count, start, states + [s'], steps + [step])
    ensures AloneRun(count, start, states, steps) && Alone(states[|steps|], step) ==>
              AloneRun(count, start, states + [s'], steps + [step])
  {}

  // ---- A backfill that nothing interrupts -------------------------------------------------

  /** Deposits `k` up to, not including, `n` of signature `at`. */
  function ItemsOf(at: nat, k: nat, n: nat): (r: seq<Item>)
    requires k <= n
  {
    seq(n - k, i requires 0 <= i < n - k => Item(at, k + i))
  }

  /** All deposits of the signatures `from .. end`, in order. */
  function ItemsBetween(count: Chain, from: nat, end: nat): (r: seq<Item>)
    requires from <= end
    decreases end
  {
    if from == end then [] else ItemsBetween(count, from, end - 1) + ItemsOf(end - 1, 0, CountAt(count, end - 1))
  }

  ghost predicate Reachable(count: Chain, start: nat, s: State) {
    exists states: seq<State>, steps: seq<Step> :: Run(count, start, states, steps) && states[|steps|] == s
  }

  lemma ReachableStep(count: Chain, start: nat, s: State, step: Step, s': State)
    requires Reachable(count, start, s) && Enabled(count, start, s, step) && s' == Apply(count, start, s, step)
    ensures Reachable(count, start, s')
  {
    var states: seq<State>, steps: seq<Step> :| Run(count, start, states, steps) && states[|steps|] == s;
    RunExtends(count, start, states, steps, step, s');
    assert (states + [s'])[|steps + [step]|] == s';
  }

  lemma {:induction false} SignatureRuns(count: Chain, start: nat, s: State, j: nat) returns (s': State)
    requires Reachable(count, start, s) && j < |s.jobs| && Running(s.jobs[j])
    requires s.jobs[j].part <= CountAt(count, s.jobs[j].at)
    ensures var job := s.jobs[j];
            && Reachable(count, start, s')
            && s'.jobs == s.jobs[j := job.(at := job.at + 1, part := 0)] && s'.cursor == job.at + 1
            && s'.handed == s.handed + ItemsOf(job.at, job.part, CountAt(count, job.at))
    decreases CountAt(count, s.jobs[j].at) - s.jobs[j].part
  {
    var job := s.jobs[j];
    if job.part == CountAt(count, job.at) {
      s' := Apply(count, start, s, Record(j));
      ReachableStep(count, start, s, Record(j), s');
    } else {
      var s1 := Apply(count, start, s, Hand(j));
      ReachableStep(count, start, s, Hand(j), s1);
      s' := SignatureRuns(count, start, s1, j);
      assert [Item(job.at, job.part)] + ItemsOf(job.at, job.part + 1, CountAt(count, job.at)) ==
        ItemsOf(job.at, job.part, CountAt(count, job.at));
    }
  }

  /**
   Left alone, a backfill hands over all deposits of its signatures, in order, and ends with the cursor
   behind them.
   */
  lemma UndisturbedBackfill(count: Chain, start: nat, s: State, from: nat, end: nat) returns (s': State)
    requires Reachable(count, start, s) && start <= from <= s.top && from <= end
    ensures Reachable(count, start, s') && s'.handed == s.handed + ItemsBetween(count, from, end)
    ensures s'.cursor == if from == end then s.cursor else end
  {
    var j := |s.jobs|;
    var s1 := Apply(count, start, s, Start(from, end));
    ReachableStep(count, start, s, Start(from, end), s1);
    s' := JobRuns(count, start, s1, j, from, end);
  }

  /** From its beginning to `at`. */
  lemma {:induction false} JobRuns(count: Chain, start: nat, s: State, j: nat, from: nat, at: nat) returns (s': State)
    requires Reachable(count, start, s) && j < |s.jobs| && from <= at <= s.jobs[j].end
    requires s.jobs[j] == Job(from, from, 0, s.jobs[j].end, Live, s.jobs[j].notified)
    ensures Reachable(count, start, s') && |s'.jobs| == |s.jobs| && s'.jobs[j] == s.jobs[j].(at := at)
    ensures s'.handed == s.handed + ItemsBetween(count, from, at)
    ensures s'.cursor == if from == at then s.cursor else at
    decreases at
  {
    if from == at {
      s' := s;
    } else {
      var s1 := JobRuns(count, start, s, j, from, at - 1);
      s' := SignatureRuns(count, start, s1, j);
      assert s.handed + ItemsBetween(count, from, at - 1) + ItemsOf(at - 1, 0, CountAt(count, at - 1)) ==
             s.handed + (ItemsBetween(count, from, at - 1) + ItemsOf(at - 1, 0, CountAt(count, at - 1)));
    }
  }

  // ---- Both ways of handing over twice happen ---------------------------------------------

  /** One backfill that has handed over the first deposit. */
  lemma FirstHanded(count: Chain, start: nat) returns (states: seq<State>, steps: seq<Step>)
    requires CountAt(count, start) > 0
    ensures AloneRun(count, start, states, steps) && |steps| == 2
    ensures states[2] == State(start, start, [Job(start, start, 1, start + 1, Live, false)], [Item(start, 0)])
    ensures Kill !in steps
  {
    var s0 := State(start, start, [], []);
    var s1 := s0.(jobs := [Job(start, start, 0, start + 1, Live, false)]);
    states, steps := [s0], [];
    RunExtends(count, start, states, steps, Start(start, start + 1), s1);
    states, steps := states + [s1], steps + [Start(start, start + 1)];
    var s2 := State(start, start, [Job(start, start, 1, start + 1, Live, false)], [Item(start, 0)]);
    RunExtends(count, start, states, steps, Hand(0), s2);
    states, steps := states + [s2], steps + [Hand(0)];
  }

  /** A second backfill from the same cursor hands over the first deposit once more. */
  lemma SecondHanded(count: Chain, start: nat, states: seq<State>, steps: seq<Step>, first: Job)
    returns (states': seq<State>, steps': seq<Step>)
    requires CountAt(count, start) > 0 && Run(count, start, states, steps)
    requires states[|steps|] == State(start, start, [first], [Item(start, 0)])
    ensures Run(count, start, states', steps') && states'[|steps'|].handed == [Item(start, 0), Item(start, 0)]
    ensures AloneRun(count, start, states, steps) && !Running(first) ==> AloneRun(count, start, states', steps')
    ensures steps' == steps + [Start(start, start + 1), Hand(1)]
  {
    var step := Start(start, start + 1);
    var s1 := State(start, start, [first, Job(start, start, 0, start + 1, Live, false)], [Item(start, 0)]);
    RunExtends(count, start, states, steps, step, s1);
    var s2 := State(start, start, [first, Job(start, start, 1, start + 1, Live, false)],
                    [Item(start, 0), Item(start, 0)]);
    assert (states + [s1])[|steps + [step]|] == s1;
    RunExtends(count, start, states + [s1], steps + [step], Hand(1), s2);
    states', steps' := states + [s1] + [s2], steps + [step] + [Hand(1)];
  }

  /** On any chain with a deposit behind the cursor, a kill right after it was handed over has it handed over again. */
  lemma KillHandsOverTwice(count: Chain, start: nat)
    requires CountAt(count, start) > 0
    ensures exists states: seq<State>, steps: seq<Step> ::
              AloneRun(count, start, states, steps) && states[|steps|].handed == [Item(start, 0), Item(start, 0)]
  {
    var states, steps := FirstHanded(count, start);
    var s := State(start, start, [Job(start, start, 1, start + 1, Killed, false)], [Item(start, 0)]);
    assert Apply(count, start, states[2], Kill) == s;
    RunExtends(count, start, states, steps, Kill, s);
    var states', steps' := SecondHanded(count, start, states + [s], steps + [Kill], s.jobs[0]);
  }

  /** So does a reconnect while the first backfill still runs, without any kill. */
  lemma ReconnectHandsOverTwice(count: Chain, start: nat)
    requires CountAt(count, start) > 0
    ensures exists states: seq<State>, steps: seq<Step> ::
              && Run(count, start, states, steps) && Kill !in steps
              && states[|steps|].handed == [Item(start, 0), Item(start, 0)]
  {
    var states, steps := FirstHanded(count, start);
    var states', steps' := SecondHanded(count, start, states, steps, states[2].jobs[0]);
    assert Kill !in steps';
  }

  /**
   And on every chain with a deposit behind the cursor, a notification of the next signature leaves it behind
   for good: it is recorded, a kill follows, and the cursor is past a deposit that nobody was given.
   */
  lemma NotificationSkips(count: Chain, start: nat) returns (s: State)
    requires CountAt(count, start) > 0
    ensures Reachable(count, start, s) && Item(start, 0) !in s.handed && start < s.cursor
    ensures forall j :: 0 <= j < |s.jobs| ==> !Running(s.jobs[j])
  {
    var s0 := State(start, start, [], []);
    var steps: seq<Step> := [];
    assert Run(count, start, [s0], steps) && [s0][|steps|] == s0;
    var s1 := s0.(jobs := [Job(start + 1, start + 1, 0, start + 2, Live, true)]);
    ReachableStep(count, start, s0, Notify(start + 1), s1);
    var s2 := SignatureRuns(count, start, s1, 0);
    s := Apply(count, start, s2, Kill);
    ReachableStep(count, start, s2, Kill, s);
  }
}
