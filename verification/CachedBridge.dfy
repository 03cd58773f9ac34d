/**
 The cached contract client: reads that simulate and then store, mutations that delete the cached keys
 when sent and again once confirmed. A value is identified by the number of commits its simulation saw.
 */
module CachedBridge {
  datatype CacheKey = GetFee | GetFeeCollector | GetAdmin | IsInitialized

  type ReadId = nat

  /** A read that missed the cache: its simulation is under way, or has answered but is not yet stored. */
  datatype Read = Simulating(key: CacheKey) | Simulated(key: CacheKey, version: nat)

  /** A cached value: the commits its simulation saw, and the read that stored it. */
  datatype Cached = Cached(version: nat, reader: ReadId)

  /**
   A post-confirmation deletion: the commit it follows, and the reads in flight that had simulated before
   that commit.
   */
  datatype Barrier = Barrier(commit: nat, behind: set<ReadId>)

  datatype State = State(
    commits: nat,                      // mutations committed on the ledger so far
    cache: map<CacheKey, Cached>,
    inFlight: map<ReadId, Read>,
    nextRead: nat,
    sent: nat,                         // mutations sent, neither committed nor failed yet
    unanswered: nat,                   // of all sent, those whose PENDING answer the client has not handled
    unconfirmed: seq<nat>,             // commits whose client has not yet seen the confirmation
    // observations
    barriers: seq<Barrier>,
    hits: seq<Cached>)                 // every value served from the cache, oldest first

  datatype Step =
    | ReadStarts(key: CacheKey)        // a hit is served at once; a miss starts a simulation
    | SimulationAnswers(id: ReadId)
    | ReadFails(id: ReadId)
    | ReadStores(id: ReadId)
    | EntryExpires(key: CacheKey)
    | MutationSent
    | PendingSeen                      // the client learns the mutation is pending: all keys are deleted
    | MutationCommits
    | MutationFails
    | ConfirmationSeen(i: nat)         // all keys are deleted again
    | ConfirmationGivenUp(i: nat)      // never seen in time: no second deletion

  predicate Enabled(s: State, step: Step) {
    match step
    case ReadStarts(_) => true
    case SimulationAnswers(id) => id in s.inFlight && s.inFlight[id].Simulating?
    case ReadFails(id) => id in s.inFlight
    case ReadStores(id) => id in s.inFlight && s.inFlight[id].Simulated?
    case EntryExpires(_) => true
    case MutationSent => true
    case PendingSeen => s.unanswered > 0
    case MutationCommits => s.sent > 0
    case MutationFails => s.sent > 0
    case ConfirmationSeen(i) => i < |s.unconfirmed|
    case ConfirmationGivenUp(i) => i < |s.unconfirmed|
  }

  /** The reads in flight that have simulated, but not yet stored, a value older than `commit`. */
  function OldReads(s: State, commit: nat): (r: set<ReadId>) {
    set id | id in s.inFlight && s.inFlight[id].Simulated? && s.inFlight[id].version < commit
  }

  function Without(s: seq<nat>, i: nat): (r: seq<nat>)
    requires i < |s|
  {
    s[..i] + s[i + 1..]
  }

  function Apply(s: State, step: Step): (r: State)
    requires Enabled(s, step)
  {
    match step
    case ReadStarts(key) =>
      if key in s.cache then s.(hits := s.hits + [s.cache[key]])
      else s.(inFlight := s.inFlight[s.nextRead := Simulating(key)], nextRead := s.nextRead + 1)
    case SimulationAnswers(id) => s.(inFlight := s.inFlight[id := Simulated(s.inFlight[id].key, s.commits)])
    case ReadFails(id) => s.(inFlight := s.inFlight - {id})
    case ReadStores(id) =>
      s.(cache := s.cache[s.inFlight[id].key := Cached(s.inFlight[id].version, id)], inFlight := s.inFlight - {id})
    case EntryExpires(key) => s.(cache := s.cache - {key})
    case MutationSent => s.(sent := s.sent + 1, unanswered := s.unanswered + 1)
    case PendingSeen => s.(cache := map[], unanswered := s.unanswered - 1)
    case MutationFails => s.(sent := s.sent - 1)
    case MutationCommits =>
      s.(commits := s.commits + 1, sent := s.sent - 1, unconfirmed := s.unconfirmed + [s.commits + 1])
    case ConfirmationSeen(i) =>
      s.(cache := map[], unconfirmed := Without(s.unconfirmed, i),
         barriers := s.barriers + [Barrier(s.unconfirmed[i], OldReads(s, s.unconfirmed[i]))])
    case ConfirmationGivenUp(i) => s.(unconfirmed := Without(s.unconfirmed, i))
  }

  predicate Init(s: State) {
    s.cache == map[] && s.inFlight == map[] && s.unconfirmed == [] && s.barriers == [] && s.hits == []
  }

  /** `states` is what the client goes through when `steps` are taken from `states[0]`. */
  ghost predicate Path(states: seq<State>, steps: seq<Step>) {
    && |states| == |steps| + 1
    && forall i :: 0 <= i < |steps| ==> Enabled(states[i], steps[i]) && states[i + 1] == Apply(states[i], steps[i])
  }

  ghost predicate Run(states: seq<State>, steps: seq<Step>) { Path(states, steps) && Init(states[0]) }

  // ---- The invariant ----------------------------------------------------------------------

  /** A value is no older than the commit behind the barrier, or comes from a read that was old at the barrier. */
  predicate FreshFor(b: Barrier, version: nat, reader: ReadId) {
    version >= b.commit || reader in b.behind
  }

  ghost predicate BarrierHolds(s: State, b: Barrier) {
    && b.commit <= s.commits
    && (forall id :: id in b.behind ==> id < s.nextRead)
    && (forall key :: key in s.cache ==> FreshFor(b, s.cache[key].version, s.cache[key].reader))
    && (forall id :: id in s.inFlight && s.inFlight[id].Simulated? ==> FreshFor(b, s.inFlight[id].version, id))
  }

  ghost predicate Coherent(s: State) {
    && (forall id :: id in s.inFlight ==> id < s.nextRead)
    && (forall i :: 0 <= i < |s.unconfirmed| ==> s.unconfirmed[i] <= s.commits)
    && (forall i :: 0 <= i < |s.barriers| ==> BarrierHolds(s, s.barriers[i]))
  }

  lemma BarrierKept(s: State, step: Step, b: Barrier)
    requires Coherent(s) && Enabled(s, step) && BarrierHolds(s, b)
    ensures BarrierHolds(Apply(s, step), b)
  {}

  lemma StepKeepsCoherent(s: State, step: Step)
    requires Coherent(s) && Enabled(s, step)
    ensures Coherent(Apply(s, step))
  {
    var s' := Apply(s, step);
    forall i | 0 <= i < |s'.barriers| ensures BarrierHolds(s', s'.barriers[i]) {
      if i < |s.barriers| {
        assert s'.barriers[i] == s.barriers[i];
        BarrierKept(s, step, s.barriers[i]);
      }
    }
  }

  lemma {:induction false} RunIsCoherent(states: seq<State>, steps: seq<Step>, i: nat)
    requires Run(states, steps) && i < |states|
    ensures Coherent(states[i])
  {
    if i > 0 {
      RunIsCoherent(states, steps, i - 1);
      StepKeepsCoherent(states[i - 1], steps[i - 1]);
    }
  }

  /** Whatever happens after a deletion, its barrier holds. */
  lemma {:induction false} PathKeepsBarrier(states: seq<State>, steps: seq<Step>, b: Barrier, i: nat)
    requires Path(states, steps) && i < |states| && Coherent(states[0]) && BarrierHolds(states[0], b)
    ensures Coherent(states[i]) && BarrierHolds(states[i], b)
  {
    if i > 0 {
      PathKeepsBarrier(states, steps, b, i - 1);
      StepKeepsCoherent(states[i - 1], steps[i - 1]);
      BarrierKept(states[i - 1], steps[i - 1], b);
    }
  }

  lemma DeletionRaisesBarrier(s: State, i: nat)
    requires Coherent(s) && i < |s.unconfirmed|
    ensures BarrierHolds(Apply(s, ConfirmationSeen(i)), Barrier(s.unconfirmed[i], OldReads(s, s.unconfirmed[i])))
  {}

  /**
   After a mutation's confirmation has deleted the keys, a value older than the mutation is served only if
   the read that stored it had simulated before the mutation's commit and was still in flight at that
   deletion; if there was no such read, every later hit is at least as new as the mutation.
   */
  lemma StaleHitsComeFromReadsInFlight(states: seq<State>, steps: seq<Step>, i: nat, j: nat, key: CacheKey)
    requires Run(states, steps) && i < j < |steps|
    requires steps[i].ConfirmationSeen? && steps[j] == ReadStarts(key) && key in states[j].cache
    ensures var commit := states[i].unconfirmed[steps[i].i];
            var hit := states[j].cache[key];
            && states[j + 1].hits == states[j].hits + [hit]
            && (hit.version >= commit || hit.reader in OldReads(states[i], commit))
            && (OldReads(states[i], commit) == {} ==> hit.version >= commit)
  {
    var commit := states[i].unconfirmed[steps[i].i];
    RunIsCoherent(states, steps, i);
    RunIsCoherent(states, steps, i + 1);
    DeletionRaisesBarrier(states[i], steps[i].i);
    PathKeepsBarrier(states[i + 1..], steps[i + 1..], Barrier(commit, OldReads(states[i], commit)), j - i - 1);
  }

  /** The next read of some key is served a value older than `commit` that read `id` stored. */
  ghost predicate ServesOlder(s: State, id: ReadId, commit: nat) {
    exists key :: key in s.cache && s.cache[key].reader == id && s.cache[key].version < commit
                  && Apply(s, ReadStarts(key)).hits == s.hits + [s.cache[key]]
  }

  /** An old read has only to store its value, and the next read of its key is served it. */
  lemma OldReadIsServed(s: State, i: nat, id: ReadId)
    requires i < |s.unconfirmed| && id in OldReads(s, s.unconfirmed[i])
    ensures var s1 := Apply(s, ConfirmationSeen(i));
            Enabled(s1, ReadStores(id)) && ServesOlder(Apply(s1, ReadStores(id)), id, s.unconfirmed[i])
  {
    var s2 := Apply(Apply(s, ConfirmationSeen(i)), ReadStores(id));
    assert s2.cache[s.inFlight[id].key] == Cached(s.inFlight[id].version, id);
  }

  /**
   Exactly the old reads are dangerous: after a mutation's confirmation has deleted the keys, things can go
   on so that a value older than the mutation, stored by a given read, is served if and only if that read
   had simulated before the commit and was in flight at the deletion.
   */
  lemma OlderHitIffOldRead(states: seq<State>, steps: seq<Step>, i: nat, id: ReadId)
    requires Run(states, steps) && i < |steps| && steps[i].ConfirmationSeen?
    ensures var commit := states[i].unconfirmed[steps[i].i];
            id in OldReads(states[i], commit) <==>
            exists more: seq<State>, moreSteps: seq<Step> ::
              Path(more, moreSteps) && more[0] == states[i + 1] && ServesOlder(more[|moreSteps|], id, commit)
  {
    var s, s1 := states[i], states[i + 1];
    var commit := s.unconfirmed[steps[i].i];
    RunIsCoherent(states, steps, i);
    RunIsCoherent(states, steps, i + 1);
    DeletionRaisesBarrier(s, steps[i].i);
    if id in OldReads(s, commit) {
      OldReadIsServed(s, steps[i].i, id);
      var more, moreSteps := [s1, Apply(s1, ReadStores(id))], [ReadStores(id)];
      assert Path(more, moreSteps) && more[0] == s1 && ServesOlder(more[|moreSteps|], id, commit);
    }
    forall more: seq<State>, moreSteps: seq<Step> |
      Path(more, moreSteps) && more[0] == s1 && ServesOlder(more[|moreSteps|], id, commit)
      ensures id in OldReads(s, commit)
    {
      PathKeepsBarrier(more, moreSteps, Barrier(commit, OldReads(s, commit)), |moreSteps|);
    }
  }

  ghost predicate Reachable(s: State) {
    exists states: seq<State>, steps: seq<Step> :: Run(states, steps) && states[|steps|] == s
  }

  lemma ReachableStep(s: State, step: Step)
    requires Reachable(s) && Enabled(s, step)
    ensures Reachable(Apply(s, step))
  {
    var states: seq<State>, steps: seq<Step> :| Run(states, steps) && states[|steps|] == s;
    var states' := states + [Apply(s, step)];
    var steps' := steps + [step];
    assert Run(states', steps') && states'[|steps'|] == Apply(s, step);
  }

  lemma InitialIsReachable(s: State)
    requires Init(s)
    ensures Reachable(s)
  {
    var steps: seq<Step> := [];
    assert Run([s], steps) && [s][|steps|] == s;
  }

  /** A simulation can have answered before the first mutation is sent. */
  lemma OldReadAnswered()
    ensures Reachable(State(0, map[], map[0 := Simulated(GetFee, 0)], 1, 0, 0, [], [], []))
  {
    var s0 := State(0, map[], map[], 0, 0, 0, [], [], []);
    InitialIsReachable(s0);
    ReachableStep(s0, ReadStarts(GetFee));
    ReachableStep(s0.(inFlight := map[0 := Simulating(GetFee)], nextRead := 1), SimulationAnswers(0));
  }

  /** It can still be in flight when that mutation has committed and its confirmation is due. */
  lemma OldReadIsInFlight()
    ensures Reachable(State(1, map[], map[0 := Simulated(GetFee, 0)], 1, 0, 0, [1], [], []))
  {
    var s2 := State(0, map[], map[0 := Simulated(GetFee, 0)], 1, 0, 0, [], [], []);
    OldReadAnswered();
    ReachableStep(s2, MutationSent);
    ReachableStep(s2.(sent := 1, unanswered := 1), PendingSeen);
    ReachableStep(s2.(sent := 1), MutationCommits);
  }

  /**
   The exception is real: a read in flight across a mutation's commit and its post-confirmation deletion
   leaves an older value in the cache, which the next read of that key serves.
   */
  lemma ReadInFlightCanServeStaleValue()
    ensures exists s: State ::
              && Reachable(s) && GetFee in s.cache && s.cache[GetFee].version < s.commits
              && s.unconfirmed == [] && s.sent == 0 && s.barriers == [Barrier(s.commits, {0})]
              && Apply(s, ReadStarts(GetFee)).hits == [s.cache[GetFee]]
  {
    var s5 := State(1, map[], map[0 := Simulated(GetFee, 0)], 1, 0, 0, [1], [], []);
    OldReadIsInFlight();
    assert OldReads(s5, 1) == {0};
    ReachableStep(s5, ConfirmationSeen(0));
    var s6 := Apply(s5, ConfirmationSeen(0));
    ReachableStep(s6, ReadStores(0));
    assert Reachable(Apply(s6, ReadStores(0)));
  }

  // ---- What a deletion leaves -------------------------------------------------------------

  /** Learning that a mutation is pending, and learning that it is confirmed, both leave the cache empty. */
  lemma DeletionsEmptyTheCache(s: State, step: Step)
    requires Enabled(s, step) && (step.PendingSeen? || step.ConfirmationSeen?)
    ensures Apply(s, step).cache == map[]
  {}

  /** What an empty cache serves later was stored in between, by a read that simulated a state of the ledger. */
  lemma {:induction false} HitsAreStoredSince(states: seq<State>, steps: seq<Step>, i: nat, j: nat, key: CacheKey)
    returns (k: nat)
    requires Path(states, steps) && i <= j < |states| && states[i].cache == map[] && key in states[j].cache
    ensures i <= k < j && steps[k] == ReadStores(states[j].cache[key].reader)
    ensures var read := states[k].inFlight[states[j].cache[key].reader];
            read.Simulated? && read.key == key && read.version == states[j].cache[key].version
    decreases j
  {
    if key in states[j - 1].cache && states[j].cache[key] == states[j - 1].cache[key] {
      k := HitsAreStoredSince(states, steps, i, j - 1, key);
    } else {
      k := j - 1;
      OnlyStoresFill(states[j - 1], steps[j - 1], key);
    }
  }

  lemma OnlyStoresFill(s: State, step: Step, key: CacheKey)
    requires Enabled(s, step) && key in Apply(s, step).cache
    requires key !in s.cache || Apply(s, step).cache[key] != s.cache[key]
    ensures var cached := Apply(s, step).cache[key];
            && step == ReadStores(cached.reader) && cached.reader in s.inFlight
            && s.inFlight[cached.reader] == Simulated(key, cached.version)
  {}

  /** After either deletion of a mutation, every hit was stored after it. */
  lemma HitsAfterADeletionAreNew(states: seq<State>, steps: seq<Step>, i: nat, j: nat, key: CacheKey) returns (k: nat)
    requires Path(states, steps) && i < j < |steps| && (steps[i].PendingSeen? || steps[i].ConfirmationSeen?)
    requires steps[j] == ReadStarts(key) && key in states[j].cache
    ensures i < k < j && steps[k] == ReadStores(states[j].cache[key].reader)
    ensures states[j + 1].hits == states[j].hits + [states[j].cache[key]]
  {
    DeletionsEmptyTheCache(states[i], steps[i]);
    k := HitsAreStoredSince(states, steps, i + 1, j, key);
  }

  /** A simulation sees the mutations committed so far, and a read that misses serves nothing from the cache. */
  lemma ReadsSeeTheLedger(s: State, id: ReadId, key: CacheKey)
    ensures Enabled(s, SimulationAnswers(id)) ==>
              Apply(s, SimulationAnswers(id)).inFlight[id] == Simulated(s.inFlight[id].key, s.commits)
    ensures key !in s.cache ==>
              && Apply(s, ReadStarts(key)).hits == s.hits
              && Apply(s, ReadStarts(key)).inFlight == s.inFlight[s.nextRead := Simulating(key)]
  {}

  // ---- Waiting for the confirmation -------------------------------------------------------

  datatype Answer = NotFound | Found | Threw

  function MaxAttempts(timeout: nat): (n: nat)
    ensures n >= 1
  {
    if 2 * timeout < 1 then 1 else 2 * timeout
  }

  /** The first answer, among the first `limit`, that is not NOT_FOUND. */
  ghost predicate Decides(answers: nat -> Answer, limit: nat, i: nat) {
    i < limit && answers(i) != NotFound && forall j :: 0 <= j < i ==> answers(j) == NotFound
  }

  /**
   `invalidateAfterConfirmation`: at most `maxAttempts + 1` calls; the keys are deleted iff one of them
   finds the transaction.
   */
  method InvalidateAfterConfirmation(timeout: nat, answers: nat -> Answer) returns (deleted: bool, calls: nat)
    ensures 1 <= calls <= if timeout == 0 then 2 else 2 * timeout + 1
    ensures (forall i: nat :: i <= 2 * timeout + 1 ==> answers(i) == NotFound) ==>
              !deleted && calls == if timeout == 0 then 2 else 2 * timeout + 1
    ensures deleted <==> exists i :: Decides(answers, MaxAttempts(timeout) + 1, i) && answers(i) == Found
    ensures deleted ==> Decides(answers, MaxAttempts(timeout) + 1, calls - 1)
  {
    var result := answers(0);
    calls := 1;
    var attempts := 0;
    while result == NotFound && attempts < MaxAttempts(timeout)
      invariant calls == attempts + 1 <= MaxAttempts(timeout) + 1 && result == answers(attempts)
      invariant forall j :: 0 <= j < attempts ==> answers(j) == NotFound
    {
      attempts := attempts + 1;
      result := answers(attempts);
      calls := calls + 1;
    }
    deleted := result == Found;
    if result != NotFound { assert Decides(answers, MaxAttempts(timeout) + 1, attempts); }
  }
}
