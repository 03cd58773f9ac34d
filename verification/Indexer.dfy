/** The indexer's tables: events, subscriptions and webhook deliveries, and the steps that change them. */
module Indexer {
  import opened Prelude
  import Numerals

  /** Ids are positions: rows are never deleted. */
  type SubscriptionId = nat
  type DeliveryId = nat

  datatype EventId = EventId(text: string)
  datatype Text = Text(value: string)

  datatype IndexedEvent = IndexedEvent(
    id: EventId, eventType: Text, asset: Option<Text>, source: Option<Text>, target: Option<Text>)

  datatype Subscription = Subscription(
    eventType: Option<Text>, assetFilter: Option<Text>,
    sourceFilter: Option<Text>, targetFilter: Option<Text>, active: bool)

  datatype Status = Pending | Delivered | Dead

  datatype Delivery = Delivery(subscription: SubscriptionId, event: EventId, status: Status, attempts: nat,
                               nextRetryAt: int)

  const MAX_RETRIES: nat := 5

  /** A filter accepts a field that is there and equal; an absent filter accepts anything. */
  predicate FieldMatches(filter: Option<Text>, field: Option<Text>) { filter.None? || filter == field }

  predicate Matches(s: Subscription, e: IndexedEvent) {
    && FieldMatches(s.eventType, Some(e.eventType))
    && FieldMatches(s.assetFilter, e.asset)
    && FieldMatches(s.sourceFilter, e.source)
    && FieldMatches(s.targetFilter, e.target)
  }

  /** The subscriptions an event fans out to. */
  function Audience(subs: seq<Subscription>, e: IndexedEvent): (r: set<SubscriptionId>) {
    set i | 0 <= i < |subs| && subs[i].active && Matches(subs[i], e)
  }

  /** The rows queued for an event, subscription by subscription. */
  function FanOut(subs: seq<Subscription>, e: IndexedEvent, now: int): (r: seq<Delivery>) {
    if subs == [] then []
    else
      var i := |subs| - 1;
      FanOut(subs[..i], e, now) +
      (if subs[i].active && Matches(subs[i], e) then [Delivery(i, e.id, Pending, 0, now)] else [])
  }

  /** The table after an UPDATE of one row by id. */
  function Updated(rows: seq<Delivery>, id: DeliveryId, change: Delivery -> Delivery): (r: seq<Delivery>) {
    if id < |rows| then rows[id := change(rows[id])] else rows
  }

  function AfterSuccess(row: Delivery): (r: Delivery) { row.(status := Delivered, attempts := row.attempts + 1) }

  function AfterGivingUp(row: Delivery): (r: Delivery) { row.(status := Dead, attempts := row.attempts + 1) }

  function AfterFailure(row: Delivery, fetchedAttempts: nat, now: int): (r: Delivery) {
    if fetchedAttempts + 1 >= MAX_RETRIES then AfterGivingUp(row)
    else row.(attempts := row.attempts + 1, nextRetryAt := now + Numerals.Pow(2, fetchedAttempts + 1))
  }

  function AfterReset(row: Delivery, now: int): (r: Delivery) {
    row.(status := Pending, nextRetryAt := now, attempts := 0)
  }

  // ---- The indexer as a state machine -----------------------------------------------------

  /** A fetched delivery: not yet posted, or with its POST under way. `attempts` is what the fetch read. */
  datatype Work = Waiting(attempts: nat) | Posting(attempts: nat)

  /** Whom a delivery is for, and about which event. */
  datatype Pair = Pair(event: EventId, subscription: SubscriptionId)

  /** A replay of one event: the rows it has still to queue, one statement each. */
  datatype Replay = Replay(rows: seq<Delivery>)

  datatype State = State(
    events: map<EventId, IndexedEvent>,
    subs: seq<Subscription>,
    rows: seq<Delivery>,
    cycle: map<DeliveryId, Work>,
    replays: seq<Replay>,
    // observations, never read by a step
    audience: map<EventId, set<SubscriptionId>>,   // who an event was for when it was first committed
    posts: multiset<DeliveryId>,                   // POSTs since the last manual reset
    lost: multiset<DeliveryId>)                    // of these, the ones whose outcome never reached the table

  datatype Step =
    | Insert(event: IndexedEvent, now: int)
    | InsertDies(event: IndexedEvent, now: int)
    | CreateSubscription(sub: Subscription)
    | DeleteSubscription(id: SubscriptionId)
    | ReplayReads(stored: EventId, now: int)           // the subscriptions of the moment are read
    | ReplayQueues(r: nat)                         // the next row is inserted
    | ReplayDies(r: nat)
    | Fetch(picked: set<DeliveryId>, now: int)
    | Skip(id: DeliveryId)                         // an earlier error ends the delivery's queue
    | GiveUp(id: DeliveryId)                       // the subscription is gone
    | Post(id: DeliveryId)
    | Answered(id: DeliveryId, success: bool, now: int)
    | OutcomeLost(id: DeliveryId)                  // the table could not be updated after the POST
    | ManualRetry(id: DeliveryId, now: int)
    | Crash

  predicate Due(row: Delivery, now: int) { row.status == Pending && row.nextRetryAt <= now }

  predicate Enabled(s: State, step: Step) {
    match step
    case Insert(_, _) => true
    case InsertDies(_, _) => true
    case CreateSubscription(sub) => sub.active
    case DeleteSubscription(_) => true
    case ReplayReads(id, _) => id in s.events
    case ReplayQueues(r) => r < |s.replays| && s.replays[r].rows != []
    case ReplayDies(r) => r < |s.replays|
    case Fetch(picked, now) => s.cycle == map[] && forall id :: id in picked ==> id < |s.rows| && Due(s.rows[id], now)
    case Skip(id) => id in s.cycle && s.cycle[id].Waiting?
    case GiveUp(id) =>
      id in s.cycle && s.cycle[id].Waiting? && id < |s.rows|
      && s.rows[id].subscription < |s.subs| && !s.subs[s.rows[id].subscription].active
    case Post(id) =>
      id in s.cycle && s.cycle[id].Waiting? && id < |s.rows|
      && s.rows[id].subscription < |s.subs| && s.subs[s.rows[id].subscription].active
    case Answered(id, _, _) => id in s.cycle && s.cycle[id].Posting?
    case OutcomeLost(id) => id in s.cycle && s.cycle[id].Posting?
    case ManualRetry(_, _) => true
    case Crash => true
  }

  /** The deliveries whose POST is under way. */
  function UnderWay(cycle: map<DeliveryId, Work>): (r: set<DeliveryId>) {
    set id | id in cycle && cycle[id].Posting?
  }

  function Apply(s: State, step: Step): (r: State)
    requires Enabled(s, step)
  {
    match step
    case Insert(e, now) =>
      if e.id in s.events then s
      else
        s.(events := s.events[e.id := e],
           rows := s.rows + FanOut(s.subs, e, now),
           audience := s.audience[e.id := Audience(s.subs, e)])
    case InsertDies(_, _) => s
    case CreateSubscription(sub) => s.(subs := s.subs + [sub])
    case DeleteSubscription(id) => if id < |s.subs| then s.(subs := s.subs[id := s.subs[id].(active := false)]) else s
    case ReplayReads(id, now) =>
      s.(replays := s.replays + [Replay(FanOut(s.subs, s.events[id], now))])
    case ReplayQueues(r) =>
      var rows := s.replays[r].rows;
      s.(rows := s.rows + [rows[0]], replays := s.replays[r := Replay(rows[1..])])
    case ReplayDies(r) => s.(replays := s.replays[r := Replay([])])
    case Fetch(picked, _) => s.(cycle := map id | id in picked :: Waiting(s.rows[id].attempts))
    case Skip(id) => s.(cycle := s.cycle - {id})
    case GiveUp(id) => s.(cycle := s.cycle - {id}, rows := Updated(s.rows, id, AfterGivingUp))
    case Post(id) => s.(cycle := s.cycle[id := Posting(s.cycle[id].attempts)], posts := s.posts + multiset{id})
    case Answered(id, success, now) =>
      var fetched := s.cycle[id].attempts;
      s.(cycle := s.cycle - {id},
         rows := Updated(s.rows, id, row => if success then AfterSuccess(row) else AfterFailure(row, fetched, now)))
    case OutcomeLost(id) => s.(cycle := s.cycle - {id}, lost := s.lost + multiset{id})
    case ManualRetry(id, now) =>
      s.(rows := Updated(s.rows, id, row => AfterReset(row, now)), posts := s.posts[id := 0], lost := s.lost[id := 0])
    case Crash =>
      s.(cycle := map[], lost := s.lost + multiset(UnderWay(s.cycle)), replays := [])
  }

  predicate Init(s: State) {
    s.events == map[] && s.subs == [] && s.rows == [] && s.cycle == map[] && s.replays == [] && s.audience == map[]
    && s.posts == multiset{} && s.lost == multiset{}
  }

  ghost predicate Run(states: seq<State>, steps: seq<Step>) {
    && |states| == |steps| + 1 && Init(states[0])
    && forall i :: 0 <= i < |steps| ==> Enabled(states[i], steps[i]) && states[i + 1] == Apply(states[i], steps[i])
  }

  // ---- Fan-out ----------------------------------------------------------------------------

  /** A row is new, for the event, and for one of its audience. */
  predicate RowFor(row: Delivery, e: IndexedEvent, audience: set<SubscriptionId>) {
    row.event == e.id && row.subscription in audience && row.status == Pending && row.attempts == 0
  }

  ghost predicate Covers(rows: seq<Delivery>, sub: SubscriptionId) {
    exists i :: 0 <= i < |rows| && rows[i].subscription == sub
  }

  predicate IncreasingSubscriptions(rows: seq<Delivery>) {
    forall i, j :: 0 <= i < j < |rows| ==> rows[i].subscription < rows[j].subscription
  }

  lemma AudienceStep(subs: seq<Subscription>, e: IndexedEvent)
    requires subs != []
    ensures var n := |subs| - 1;
            Audience(subs, e) == Audience(subs[..n], e) + if subs[n].active && Matches(subs[n], e) then {n} else {}
  {}

  lemma CoversStep(rows: seq<Delivery>, row: Delivery, sub: SubscriptionId)
    ensures Covers(rows + [row], sub) <==> Covers(rows, sub) || row.subscription == sub
  {
    var all := rows + [row];
    assert all[|rows|] == row;
    if Covers(rows, sub) {
      var i :| 0 <= i < |rows| && rows[i].subscription == sub;
      assert all[i].subscription == sub;
    }
  }

  lemma {:induction false} FanOutFacts(subs: seq<Subscription>, e: IndexedEvent, now: int)
    ensures forall i :: 0 <= i < |FanOut(subs, e, now)| ==> RowFor(FanOut(subs, e, now)[i], e, Audience(subs, e))
    ensures forall i :: 0 <= i < |FanOut(subs, e, now)| ==> FanOut(subs, e, now)[i].nextRetryAt == now
    ensures IncreasingSubscriptions(FanOut(subs, e, now))
    ensures forall sub :: Covers(FanOut(subs, e, now), sub) <==> sub in Audience(subs, e)
  {
    if subs != [] {
      var n := |subs| - 1;
      FanOutFacts(subs[..n], e, now);
      AudienceStep(subs, e);
      var before := FanOut(subs[..n], e, now);
      if subs[n].active && Matches(subs[n], e) {
        var row := Delivery(n, e.id, Pending, 0, now);
        forall sub ensures Covers(before + [row], sub) <==> Covers(before, sub) || sub == n {
          CoversStep(before, row, sub);
        }
      } else {
        assert FanOut(subs, e, now) == before;
      }
    }
  }

  // ---- Counting rows ----------------------------------------------------------------------

  predicate IsFor(row: Delivery, p: Pair) { row.event == p.event && row.subscription == p.subscription }

  /** The number of rows for `p`. */
  function Rows(rows: seq<Delivery>, p: Pair): (n: nat) {
    if rows == [] then 0 else Rows(rows[..|rows| - 1], p) + if IsFor(rows[|rows| - 1], p) then 1 else 0
  }

  /** The number of rows for `p` that replays have still to queue. */
  function Coming(replays: seq<Replay>, p: Pair): (n: nat) {
    if replays == [] then 0 else Coming(replays[..|replays| - 1], p) + Rows(replays[|replays| - 1].rows, p)
  }

  lemma {:induction false} RowsAppend(a: seq<Delivery>, b: seq<Delivery>, p: Pair)
    ensures Rows(a + b, p) == Rows(a, p) + Rows(b, p)
  {
    if b == [] {
      assert a + b == a;
    } else {
      assert (a + b)[..|a + b| - 1] == a + b[..|b| - 1];
      RowsAppend(a, b[..|b| - 1], p);
    }
  }

  lemma RowsOfOne(row: Delivery, p: Pair)
    ensures Rows([row], p) == if IsFor(row, p) then 1 else 0
  {
    assert [row][..0] == [];
  }

  lemma RowsFirst(rows: seq<Delivery>, p: Pair)
    requires rows != []
    ensures Rows(rows, p) == Rows([rows[0]], p) + Rows(rows[1..], p)
  {
    assert rows == [rows[0]] + rows[1..];
    RowsAppend([rows[0]], rows[1..], p);
  }

  /** An update changes neither whom a row is for nor what it is about. */
  lemma {:induction false} RowsUpdate(rows: seq<Delivery>, rows': seq<Delivery>, p: Pair)
    requires |rows'| == |rows| && forall i :: 0 <= i < |rows| ==> (IsFor(rows'[i], p) <==> IsFor(rows[i], p))
    ensures Rows(rows', p) == Rows(rows, p)
  {
    if rows != [] { RowsUpdate(rows[..|rows| - 1], rows'[..|rows'| - 1], p); }
  }

  lemma {:induction false} ComingUpdate(replays: seq<Replay>, r: nat, replay: Replay, p: Pair)
    requires r < |replays|
    ensures Coming(replays[r := replay], p) + Rows(replays[r].rows, p) == Coming(replays, p) + Rows(replay.rows, p)
  {
    var n := |replays| - 1;
    if r == n {
      assert replays[r := replay][..n] == replays[..n];
    } else {
      assert replays[r := replay][..n] == replays[..n][r := replay];
      ComingUpdate(replays[..n], r, replay, p);
    }
  }

  /**
   Who hears of an event: the active subscriptions each of whose four filters is absent or equal to that field
   of the event; a filter on a field the event does not have shuts it out.
   */
  lemma AudienceMeans(subs: seq<Subscription>, e: IndexedEvent, sub: SubscriptionId)
    ensures sub in Audience(subs, e) <==>
              && sub < |subs| && subs[sub].active
              && (subs[sub].eventType.Some? ==> subs[sub].eventType.value == e.eventType)
              && (subs[sub].assetFilter.Some? ==> e.asset.Some? && subs[sub].assetFilter.value == e.asset.value)
              && (subs[sub].sourceFilter.Some? ==> e.source.Some? && subs[sub].sourceFilter.value == e.source.value)
              && (subs[sub].targetFilter.Some? ==> e.target.Some? && subs[sub].targetFilter.value == e.target.value)
  {}

  /** A new subscription hears what it asks for; one that is deleted hears nothing more; the others hear as before. */
  lemma SubscriptionsComeAndGo(s: State, sub: Subscription, gone: SubscriptionId, other: SubscriptionId,
                               e: IndexedEvent)
    requires sub.active
    ensures var s' := Apply(s, CreateSubscription(sub));
            && |s'.subs| == |s.subs| + 1 && s'.subs[|s.subs|] == sub && s'.rows == s.rows
            && (other < |s.subs| ==> (other in Audience(s'.subs, e) <==> other in Audience(s.subs, e)))
    ensures var s' := Apply(s, DeleteSubscription(gone));
            && gone !in Audience(s'.subs, e) && s'.rows == s.rows
            && (other != gone ==> (other in Audience(s'.subs, e) <==> other in Audience(s.subs, e)))
  {}

  /** A cycle takes up pending deliveries that are due, and remembers the attempts they had. */
  lemma FetchTakesDueDeliveries(s: State, picked: set<DeliveryId>, now: int, id: DeliveryId)
    requires Enabled(s, Fetch(picked, now))
    ensures id in Apply(s, Fetch(picked, now)).cycle <==> id in picked
    ensures id in picked ==>
              && id < |s.rows| && s.rows[id].status == Pending && s.rows[id].nextRetryAt <= now
              && Apply(s, Fetch(picked, now)).cycle[id] == Waiting(s.rows[id].attempts)
  {}

  /**
   A delivery taken up is posted if its subscription is active, given up if it is not; both leave every other
   row alone.
   */
  lemma PostsGoToActiveSubscriptions(s: State, id: DeliveryId)
    requires id in s.cycle && s.cycle[id].Waiting? && id < |s.rows| && s.rows[id].subscription < |s.subs|
    ensures Enabled(s, Post(id)) <==> s.subs[s.rows[id].subscription].active
    ensures Enabled(s, GiveUp(id)) <==> !s.subs[s.rows[id].subscription].active
    ensures Enabled(s, Post(id)) ==>
              Apply(s, Post(id)).rows == s.rows && Apply(s, Post(id)).posts == s.posts + multiset{id}
    ensures Enabled(s, GiveUp(id)) ==>
              var row := s.rows[id];
              Apply(s, GiveUp(id)).rows == s.rows[id := row.(status := Dead, attempts := row.attempts + 1)]
  {}

  /** A crash ends the cycle and the replays and leaves the tables as they are. */
  lemma CrashKeepsTables(s: State)
    ensures var s' := Apply(s, Crash);
            && s'.events == s.events && s'.subs == s.subs && s'.rows == s.rows
            && s'.cycle == map[] && s'.replays == []
  {}

  lemma AudienceMember(subs: seq<Subscription>, e: IndexedEvent, sub: SubscriptionId)
    ensures sub in Audience(subs, e) <==> sub < |subs| && subs[sub].active && Matches(subs[sub], e)
  {}

  lemma FanOutStep(subs: seq<Subscription>, e: IndexedEvent, now: int, p: Pair)
    requires subs != []
    ensures var n := |subs| - 1;
            Rows(FanOut(subs, e, now), p) == Rows(FanOut(subs[..n], e, now), p) +
              if subs[n].active && Matches(subs[n], e) && p == Pair(e.id, n) then 1 else 0
  {
    var n := |subs| - 1;
    var before, row := FanOut(subs[..n], e, now), Delivery(n, e.id, Pending, 0, now);
    if subs[n].active && Matches(subs[n], e) {
      RowsAppend(before, [row], p);
      RowsOfOne(row, p);
    } else {
      assert FanOut(subs, e, now) == before;
    }
  }

  /** An event fans out once to each subscription of its audience, and to no other. */
  lemma {:induction false} FanOutOnce(subs: seq<Subscription>, e: IndexedEvent, now: int, p: Pair)
    ensures Rows(FanOut(subs, e, now), p) == if p.event == e.id && p.subscription in Audience(subs, e) then 1 else 0
  {
    AudienceMember(subs, e, p.subscription);
    if subs != [] {
      var n := |subs| - 1;
      FanOutOnce(subs[..n], e, now, p);
      AudienceMember(subs[..n], e, p.subscription);
      FanOutStep(subs, e, now, p);
    }
  }

  /** `p` is an event's pair with one of the audience of its first commit. */
  ghost predicate First(s: State, p: Pair) { p.event in s.audience && p.subscription in s.audience[p.event] }

  /** Audiences are recorded for stored events, and events are filed under their ids. */
  ghost predicate EventsOk(s: State) {
    s.audience.Keys == s.events.Keys && forall id :: id in s.events ==> s.events[id].id == id
  }

  lemma OthersKeepEvents(s: State, step: Step)
    requires Enabled(s, step) && !step.Insert?
    ensures Apply(s, step).events == s.events && Apply(s, step).audience == s.audience
  {}

  lemma StepKeepsEvents(s: State, step: Step)
    requires EventsOk(s) && Enabled(s, step)
    ensures EventsOk(Apply(s, step))
  {
    if !step.Insert? { OthersKeepEvents(s, step); }
  }

  lemma {:induction false} RunKeepsEvents(states: seq<State>, steps: seq<Step>, i: nat)
    requires Run(states, steps) && i < |states|
    ensures EventsOk(states[i])
  {
    if i > 0 {
      RunKeepsEvents(states, steps, i - 1);
      StepKeepsEvents(states[i - 1], steps[i - 1]);
    }
  }

  /** A replay asks for `p` by reading the subscriptions while `p`'s is active and matches its event. */
  ghost predicate Asks(s: State, step: Step, p: Pair) {
    && step.ReplayReads? && step.stored == p.event && p.event in s.events
    && p.subscription in Audience(s.subs, s.events[p.event])
  }

  /** The rows for `p` that a replay does not live to queue. */
  ghost function Drops(s: State, step: Step, p: Pair): (n: nat) {
    match step
    case ReplayDies(r) => if r < |s.replays| then Rows(s.replays[r].rows, p) else 0
    case Crash => Coming(s.replays, p)
    case _ => 0
  }

  ghost function Total(s: State, p: Pair): (n: nat) { Rows(s.rows, p) + Coming(s.replays, p) }

  lemma ReplayReadBalances(s: State, id: EventId, now: int, p: Pair)
    requires EventsOk(s) && id in s.events
    ensures Total(Apply(s, ReplayReads(id, now)), p) == Total(s, p) + if Asks(s, ReplayReads(id, now), p) then 1 else 0
  {
    FanOutOnce(s.subs, s.events[id], now, p);
    assert Apply(s, ReplayReads(id, now)).replays[..|s.replays|] == s.replays;
  }

  lemma ReplayQueueBalances(s: State, r: nat, p: Pair)
    requires Enabled(s, ReplayQueues(r))
    ensures Total(Apply(s, ReplayQueues(r)), p) == Total(s, p)
  {
    var rows := s.replays[r].rows;
    RowsAppend(s.rows, [rows[0]], p);
    RowsFirst(rows, p);
    ComingUpdate(s.replays, r, Replay(rows[1..]), p);
  }

  lemma ReplayDeathBalances(s: State, r: nat, p: Pair)
    requires Enabled(s, ReplayDies(r))
    ensures Total(Apply(s, ReplayDies(r)), p) + Drops(s, ReplayDies(r), p) == Total(s, p)
  {
    ComingUpdate(s.replays, r, Replay([]), p);
  }

  lemma InsertBalances(s: State, e: IndexedEvent, now: int, p: Pair)
    requires EventsOk(s) && e.id !in s.events
    ensures var s' := Apply(s, Insert(e, now));
            Total(s', p) + (if First(s, p) then 1 else 0) == Total(s, p) + if First(s', p) then 1 else 0
  {
    RowsAppend(s.rows, FanOut(s.subs, e, now), p);
    FanOutOnce(s.subs, e, now, p);
  }

  /** What one step does to the rows for `p`, queued and to come. */
  ghost predicate Balances(s: State, step: Step, s': State, p: Pair) {
    Total(s', p) + Drops(s, step, p) + (if First(s, p) then 1 else 0) ==
    Total(s, p) + (if Asks(s, step, p) then 1 else 0) + (if First(s', p) then 1 else 0)
  }

  lemma UpdateBalances(s: State, step: Step, p: Pair)
    requires Enabled(s, step) && (step.GiveUp? || step.Answered? || step.ManualRetry?)
    ensures Balances(s, step, Apply(s, step), p)
  {
    RowsUpdate(s.rows, Apply(s, step).rows, p);
  }

  lemma StepBalances(s: State, step: Step, p: Pair)
    requires EventsOk(s) && Enabled(s, step)
    ensures Balances(s, step, Apply(s, step), p)
  {
    match step
    case Insert(e, now) => if e.id !in s.events { InsertBalances(s, e, now, p); }
    case ReplayReads(id, now) => ReplayReadBalances(s, id, now, p);
    case ReplayQueues(r) => ReplayQueueBalances(s, r, p);
    case ReplayDies(r) => ReplayDeathBalances(s, r, p);
    case GiveUp(_) => UpdateBalances(s, step, p);
    case Answered(_, _, _) => UpdateBalances(s, step, p);
    case ManualRetry(_, _) => UpdateBalances(s, step, p);
    case _ =>
  }

  /** The times replays asked for `p` in the first `i` steps. */
  ghost function TimesAsked(states: seq<State>, steps: seq<Step>, i: nat, p: Pair): (n: nat)
    requires i <= |steps| < |states|
  {
    if i == 0 then 0 else TimesAsked(states, steps, i - 1, p) + if Asks(states[i - 1], steps[i - 1], p) then 1 else 0
  }

  /** The rows for `p` that replays did not live to queue in the first `i` steps. */
  ghost function TimesDropped(states: seq<State>, steps: seq<Step>, i: nat, p: Pair): (n: nat)
    requires i <= |steps| < |states|
  {
    if i == 0 then 0 else TimesDropped(states, steps, i - 1, p) + Drops(states[i - 1], steps[i - 1], p)
  }

  lemma {:induction false} RunBalances(states: seq<State>, steps: seq<Step>, i: nat, p: Pair)
    requires Run(states, steps) && i < |states|
    ensures Total(states[i], p) + TimesDropped(states, steps, i, p) ==
            (if First(states[i], p) then 1 else 0) + TimesAsked(states, steps, i, p)
  {
    if i > 0 {
      RunBalances(states, steps, i - 1, p);
      RunKeepsEvents(states, steps, i - 1);
      StepBalances(states[i - 1], steps[i - 1], p);
    }
  }

  /** Rows to come and rows dropped are all from replays. */
  lemma StepKeepsReplaysPaid(s: State, step: Step, p: Pair)
    requires EventsOk(s) && Enabled(s, step)
    ensures Coming(Apply(s, step).replays, p) + Drops(s, step, p) <=
            Coming(s.replays, p) + if Asks(s, step, p) then 1 else 0
  {
    match step
    case ReplayReads(id, now) => ReplayReadBalances(s, id, now, p);
    case ReplayQueues(r) =>
      RowsFirst(s.replays[r].rows, p);
      ComingUpdate(s.replays, r, Replay(s.replays[r].rows[1..]), p);
    case ReplayDies(r) => ReplayDeathBalances(s, r, p);
    case _ =>
  }

  lemma {:induction false} RunKeepsReplaysPaid(states: seq<State>, steps: seq<Step>, i: nat, p: Pair)
    requires Run(states, steps) && i < |states|
    ensures Coming(states[i].replays, p) + TimesDropped(states, steps, i, p) <= TimesAsked(states, steps, i, p)
  {
    if i > 0 {
      RunKeepsReplaysPaid(states, steps, i - 1, p);
      RunKeepsEvents(states, steps, i - 1);
      StepKeepsReplaysPaid(states[i - 1], steps[i - 1], p);
    }
  }

  lemma {:induction false} UnstoredIsNotAsked(states: seq<State>, steps: seq<Step>, i: nat, p: Pair)
    requires Run(states, steps) && i < |states| && p.event !in states[i].events
    ensures TimesAsked(states, steps, i, p) == 0
  {
    if i > 0 { UnstoredIsNotAsked(states, steps, i - 1, p); }
  }

  /** An audience, once recorded, never changes: it is the active, matching subscriptions at the first commit. */
  lemma {:induction false} AudienceIsFixedAtCommit(states: seq<State>, steps: seq<Step>, i: nat, j: nat, id: EventId)
    requires Run(states, steps) && i < j < |states|
    requires id !in states[i].events && id in states[i + 1].events
    ensures steps[i].Insert? && steps[i].event.id == id
    ensures id in states[j].audience && states[j].audience[id] == Audience(states[i].subs, steps[i].event)
    decreases j
  {
    if j > i + 1 {
      AudienceIsFixedAtCommit(states, steps, i, j - 1, id);
      RunKeepsEvents(states, steps, j - 1);
      AudienceStays(states[j - 1], steps[j - 1], id);
    } else {
      CommitRecordsAudience(states[i], steps[i], id);
    }
  }

  lemma AudienceStays(s: State, step: Step, id: EventId)
    requires EventsOk(s) && Enabled(s, step) && id in s.audience
    ensures id in Apply(s, step).audience && Apply(s, step).audience[id] == s.audience[id]
  {
    if !step.Insert? { OthersKeepEvents(s, step); }
  }

  lemma CommitRecordsAudience(s: State, step: Step, id: EventId)
    requires Enabled(s, step) && id !in s.events && id in Apply(s, step).events
    ensures step.Insert? && step.event.id == id
    ensures id in Apply(s, step).audience && Apply(s, step).audience[id] == Audience(s.subs, step.event)
  {}

  /**
   Transactional fan-out: in every run there is, for an event and a subscription, exactly one delivery if
   the event is stored and the subscription was active and matching when it was first committed, and one
   more for each replay of the event that read the subscriptions while it was, less those that a replay has
   still to queue or did not live to queue. Without such a replay that is one for each of the audience and
   none for others; an event that is not stored has none.
   */
  lemma ExactlyOneDeliveryEach(states: seq<State>, steps: seq<Step>, i: nat, id: EventId, sub: SubscriptionId)
    requires Run(states, steps) && i < |states|
    ensures id in states[i].events <==> id in states[i].audience
    ensures var s, p := states[i], Pair(id, sub);
            var first := if id in s.audience && sub in s.audience[id] then 1 else 0;
            var asked := TimesAsked(states, steps, i, p);
            && Rows(s.rows, p) + Coming(s.replays, p) + TimesDropped(states, steps, i, p) == first + asked
            && first <= Rows(s.rows, p) <= first + asked
            && (id !in s.events ==> Rows(s.rows, p) == 0)
  {
    RunKeepsEvents(states, steps, i);
    RunBalances(states, steps, i, Pair(id, sub));
    RunKeepsReplaysPaid(states, steps, i, Pair(id, sub));
    if id !in states[i].events { UnstoredIsNotAsked(states, steps, i, Pair(id, sub)); }
  }

  // ---- Webhook attempts -------------------------------------------------------------------

  ghost predicate RowAttemptsOk(s: State) {
    forall id :: 0 <= id < |s.rows| ==>
      s.rows[id].attempts <= MAX_RETRIES && (s.rows[id].status == Pending ==> s.rows[id].attempts < MAX_RETRIES)
  }

  /** A fetched delivery is still pending, with no more attempts than the fetch read: only a reset changes it. */
  ghost predicate CycleOk(s: State) {
    forall id :: id in s.cycle ==>
      && id < |s.rows| && s.rows[id].status == Pending
      && s.rows[id].attempts <= s.cycle[id].attempts < MAX_RETRIES
  }

  /** Every POST is paid for by an attempt in the table, a lost outcome, or being under way. */
  ghost predicate PostsOk(s: State) {
    forall id: DeliveryId :: s.posts[id] <=
      (if id < |s.rows| then s.rows[id].attempts else 0) + s.lost[id] +
        (if id in s.cycle && s.cycle[id].Posting? then 1 else 0)
  }

  /** The rows that replays have still to queue are fresh. */
  ghost predicate ReplaysOk(s: State) {
    forall r :: 0 <= r < |s.replays| ==> FreshRows(s.replays[r].rows)
  }

  ghost predicate FreshRows(rows: seq<Delivery>) { forall i :: 0 <= i < |rows| ==> rows[i].attempts == 0 }

  ghost predicate AttemptsOk(s: State) { RowAttemptsOk(s) && CycleOk(s) && PostsOk(s) && ReplaysOk(s) }

  lemma FreshRowsKeepAttempts(s: State, s': State, added: seq<Delivery>)
    requires AttemptsOk(s) && s'.rows == s.rows + added && FreshRows(added) && ReplaysOk(s')
    requires s'.cycle == s.cycle && s'.posts == s.posts && s'.lost == s.lost
    ensures AttemptsOk(s')
  {
    assert forall i :: 0 <= i < |s.rows| ==> s'.rows[i] == s.rows[i];
    assert forall i :: |s.rows| <= i < |s'.rows| ==> s'.rows[i] == added[i - |s.rows|];
  }

  lemma InsertKeepsAttempts(s: State, e: IndexedEvent, now: int)
    requires AttemptsOk(s)
    ensures AttemptsOk(Apply(s, Insert(e, now)))
  {
    if e.id !in s.events {
      var added := FanOut(s.subs, e, now);
      FanOutFacts(s.subs, e, now);
      assert forall i :: 0 <= i < |added| ==> RowFor(added[i], e, Audience(s.subs, e));
      FreshRowsKeepAttempts(s, Apply(s, Insert(e, now)), added);
    }
  }

  lemma ReplayReadKeepsAttempts(s: State, id: EventId, now: int)
    requires AttemptsOk(s) && id in s.events
    ensures AttemptsOk(Apply(s, ReplayReads(id, now)))
  {
    var e := s.events[id];
    var added := FanOut(s.subs, e, now);
    FanOutFacts(s.subs, e, now);
    assert forall i :: 0 <= i < |added| ==> RowFor(added[i], e, Audience(s.subs, e));
    assert FreshRows(added);
  }

  lemma ReplayQueueKeepsAttempts(s: State, r: nat)
    requires AttemptsOk(s) && Enabled(s, ReplayQueues(r))
    ensures AttemptsOk(Apply(s, ReplayQueues(r)))
  {
    var rows := s.replays[r].rows;
    assert FreshRows(rows) && FreshRows([rows[0]]) && FreshRows(rows[1..]);
    FreshRowsKeepAttempts(s, Apply(s, ReplayQueues(r)), [rows[0]]);
  }

  lemma ResetKeepsAttempts(s: State, id: DeliveryId, now: int)
    requires AttemptsOk(s)
    ensures AttemptsOk(Apply(s, ManualRetry(id, now)))
  {}

  lemma AnswerKeepsAttempts(s: State, id: DeliveryId, success: bool, now: int)
    requires AttemptsOk(s) && Enabled(s, Answered(id, success, now))
    ensures AttemptsOk(Apply(s, Answered(id, success, now)))
  {}

  /** A step that takes deliveries out of the cycle, or puts a POST under way, without touching the table. */
  lemma WorkKeepsAttempts(s: State, step: Step)
    requires AttemptsOk(s) && Enabled(s, step) && (step.Skip? || step.Post? || step.OutcomeLost? || step.Crash?)
    ensures AttemptsOk(Apply(s, step))
  {}

  lemma FetchKeepsAttempts(s: State, picked: set<DeliveryId>, now: int)
    requires AttemptsOk(s) && Enabled(s, Fetch(picked, now))
    ensures AttemptsOk(Apply(s, Fetch(picked, now)))
  {}

  lemma GiveUpKeepsAttempts(s: State, id: DeliveryId)
    requires AttemptsOk(s) && Enabled(s, GiveUp(id))
    ensures AttemptsOk(Apply(s, GiveUp(id)))
  {}

  lemma StepKeepsAttempts(s: State, step: Step)
    requires AttemptsOk(s) && Enabled(s, step)
    ensures AttemptsOk(Apply(s, step))
  {
    match step
    case Insert(e, now) => InsertKeepsAttempts(s, e, now);
    case Fetch(picked, now) => FetchKeepsAttempts(s, picked, now);
    case GiveUp(id) => GiveUpKeepsAttempts(s, id);
    case Answered(id, success, now) => AnswerKeepsAttempts(s, id, success, now);
    case ManualRetry(id, now) => ResetKeepsAttempts(s, id, now);
    case InsertDies(_, _) =>
    case CreateSubscription(_) =>
    case DeleteSubscription(_) =>
    case ReplayReads(id, now) => ReplayReadKeepsAttempts(s, id, now);
    case ReplayQueues(r) => ReplayQueueKeepsAttempts(s, r);
    case ReplayDies(_) =>
    case _ => WorkKeepsAttempts(s, step);
  }

  lemma {:induction false} RunKeepsAttempts(states: seq<State>, steps: seq<Step>, i: nat)
    requires Run(states, steps) && i < |states|
    ensures AttemptsOk(states[i])
  {
    if i > 0 {
      RunKeepsAttempts(states, steps, i - 1);
      StepKeepsAttempts(states[i - 1], steps[i - 1]);
    }
  }

  /**
   Webhook attempts: in every run, manual retries at any moment included, a pending delivery has fewer
   than five attempts, and since its last manual reset it has had at most five POSTs, not counting those
   whose outcome a crash or a database error kept from the table.
   */
  lemma AtMostFivePosts(states: seq<State>, steps: seq<Step>, i: nat, id: DeliveryId)
    requires Run(states, steps) && i < |states| && id < |states[i].rows|
    ensures states[i].rows[id].status == Pending ==> states[i].rows[id].attempts < MAX_RETRIES
    ensures states[i].posts[id] <= MAX_RETRIES + states[i].lost[id]
  {
    RunKeepsAttempts(states, steps, i);
  }

  // ---- The bound is met -------------------------------------------------------------------

  ghost predicate Reachable(s: State) {
    exists states: seq<State>, steps: seq<Step> :: Run(states, steps) && states[|steps|] == s
  }

  lemma ReachableStep(s: State, step: Step, s': State)
    requires Reachable(s) && Enabled(s, step) && s' == Apply(s, step)
    ensures Reachable(s')
  {
    var states: seq<State>, steps: seq<Step> :| Run(states, steps) && states[|steps|] == s;
    var states' := states + [s'];
    var steps' := steps + [step];
    assert Run(states', steps') && states'[|steps'|] == s';
  }

  /** One delivery to one active subscription, `n` attempts so far, and no cycle running. */
  ghost predicate Resting(s: State, n: nat) {
    && s.cycle == map[] && |s.subs| == 1 && s.subs[0].active
    && |s.rows| == 1 && s.rows[0].subscription == 0 && s.rows[0].attempts == n
    && (n < MAX_RETRIES ==> s.rows[0].status == Pending)
  }

  ghost predicate UnderPost(s: State, n: nat) {
    && s.cycle == map[0 := Posting(n)] && |s.subs| == 1 && s.subs[0].active
    && |s.rows| == 1 && s.rows[0].subscription == 0 && s.rows[0].attempts == n && s.rows[0].status == Pending
  }

  lemma FirstDelivery(sub: Subscription, e: IndexedEvent) returns (s: State)
    requires sub.active && Matches(sub, e)
    ensures Reachable(s) && Resting(s, 0) && s.posts == multiset{} && s.lost == multiset{}
  {
    var s0 := State(map[], [], [], map[], [], map[], multiset{}, multiset{});
    var steps: seq<Step> := [];
    assert Run([s0], steps) && [s0][|steps|] == s0;
    var s1 := s0.(subs := [sub]);
    ReachableStep(s0, CreateSubscription(sub), s1);
    s := Apply(s1, Insert(e, 0));
    ReachableStep(s1, Insert(e, 0), s);
    assert FanOut([sub][..0], e, 0) == [];
  }

  lemma PostGoesOut(s: State, n: nat) returns (s': State)
    requires Reachable(s) && Resting(s, n) && n < MAX_RETRIES
    ensures Reachable(s') && UnderPost(s', n) && s'.posts == s.posts + multiset{0} && s'.lost == s.lost
  {
    var now := s.rows[0].nextRetryAt;
    var s1 := s.(cycle := map[0 := Waiting(n)]);
    s' := s1.(cycle := map[0 := Posting(n)], posts := s.posts + multiset{0});
    assert (map id: DeliveryId | id in {0} :: Waiting(s.rows[id].attempts)) == map[0 := Waiting(n)];
    ReachableStep(s, Fetch({0}, now), s1);
    ReachableStep(s1, Post(0), s');
  }

  lemma PostFails(s: State, n: nat) returns (s': State)
    requires Reachable(s) && UnderPost(s, n)
    ensures Reachable(s') && Resting(s', n + 1) && s'.posts == s.posts && s'.lost == s.lost
  {
    s' := Apply(s, Answered(0, false, 0));
    ReachableStep(s, Answered(0, false, 0), s');
  }

  lemma PostIsLost(s: State, n: nat) returns (s': State)
    requires Reachable(s) && UnderPost(s, n)
    ensures Reachable(s') && Resting(s', n) && s'.posts == s.posts && s'.lost == s.lost + multiset{0}
  {
    s' := Apply(s, OutcomeLost(0));
    ReachableStep(s, OutcomeLost(0), s');
  }

  /** `m` POSTs whose outcome is lost, then `n` that fail. */
  lemma PostsReach(sub: Subscription, e: IndexedEvent, n: nat, m: nat) returns (s: State)
    requires sub.active && Matches(sub, e) && n <= MAX_RETRIES
    ensures Reachable(s) && Resting(s, n) && s.posts[0] == n + m && s.lost[0] == m
    decreases n, m
  {
    if n > 0 {
      var s0 := PostsReach(sub, e, n - 1, m);
      var s1 := PostGoesOut(s0, n - 1);
      s := PostFails(s1, n - 1);
    } else if m > 0 {
      var s0 := PostsReach(sub, e, 0, m - 1);
      var s1 := PostGoesOut(s0, 0);
      s := PostIsLost(s1, 0);
    } else {
      s := FirstDelivery(sub, e);
    }
  }

  /** The bound is exact: whatever number of outcomes are lost, five more POSTs can go out. */
  lemma PostBoundIsMet(sub: Subscription, e: IndexedEvent, m: nat)
    requires sub.active && Matches(sub, e)
    ensures exists s: State :: Reachable(s) && |s.rows| == 1 && s.lost[0] == m && s.posts[0] == MAX_RETRIES + m
  {
    var s := PostsReach(sub, e, MAX_RETRIES, m);
  }

  /** A delivery can receive more than five POSTs between resets exactly when the outcome of one was lost. */
  lemma MoreThanFivePostsIffOneWasLost(m: nat)
    ensures m > 0 <==>
            exists s: State, id: DeliveryId ::
              Reachable(s) && id < |s.rows| && s.lost[id] == m && s.posts[id] > MAX_RETRIES
  {
    var e := IndexedEvent(EventId("e"), Text("fund"), None, None, None);
    var s := PostsReach(Subscription(None, None, None, None, true), e, MAX_RETRIES, m);
    assert m > 0 ==> s.lost[0] == m && s.posts[0] > MAX_RETRIES;
    forall s: State, id: DeliveryId | Reachable(s) && id < |s.rows| ensures s.posts[id] <= MAX_RETRIES + s.lost[id] {
      var states: seq<State>, steps: seq<Step> :| Run(states, steps) && states[|steps|] == s;
      AtMostFivePosts(states, steps, |steps|, id);
    }
  }

  // ---- The life of one delivery -----------------------------------------------------------

  /** A row after failed attempts at the given times, each handled with the attempt count then stored. */
  function Failing(row: Delivery, times: seq<int>): (r: Delivery) {
    if times == [] then row
    else
      var before := Failing(row, times[..|times| - 1]);
      AfterFailure(before, before.attempts, times[|times| - 1])
  }

  /**
   A fresh delivery waits 2, 4, 8 and 16 seconds after its first four failures, and is dead exactly from
   the fifth on.
   */
  lemma {:induction false} FifthFailureIsFinal(row: Delivery, times: seq<int>)
    requires row.status == Pending && row.attempts == 0
    ensures var r := Failing(row, times);
            && r.attempts == |times| && r.event == row.event && r.subscription == row.subscription
            && r.status == (if |times| >= 5 then Dead else Pending)
            && (1 <= |times| <= 4 ==> r.nextRetryAt == times[|times| - 1] + [2, 4, 8, 16][|times| - 1])
  {
    if times != [] { FifthFailureIsFinal(row, times[..|times| - 1]); }
  }

  // ---- The tables as an object ------------------------------------------------------------

  /** How far a transaction gets: to its commit, or to a crash or error after so many statements. */
  datatype Fate = Commits | DiesAfter(statements: nat)

  /** `state` is the state of the machine that the tables are kept equal to. */
  class Database {
    var events: map<EventId, IndexedEvent>
    var subscriptions: seq<Subscription>
    var deliveries: seq<Delivery>
    ghost var state: State

    ghost predicate Valid()
      reads this
    {
      state.events == events && state.subs == subscriptions && state.rows == deliveries
    }

    constructor ()
      ensures Valid() && Init(state)
    {
      events, subscriptions, deliveries := map[], [], [];
      state := State(map[], [], [], map[], [], map[], multiset{}, multiset{});
    }

    /**
     `insert_event_and_queue_deliveries`: the event and its deliveries are written to the transaction
     and become visible together at the commit; a transaction that dies leaves no trace.
     */
    method InsertEventAndQueueDeliveries(e: IndexedEvent, now: int, fate: Fate) returns (inserted: Option<bool>)
      requires Valid()
      modifies this
      ensures Valid()
      ensures state == Apply(old(state), if inserted.Some? then Insert(e, now) else InsertDies(e, now))
      ensures inserted.Some? ==> (inserted.value <==> e.id !in old(events))
      ensures inserted != Some(true) ==> events == old(events) && deliveries == old(deliveries)
      ensures inserted == Some(true) ==>
                events == old(events)[e.id := e] && deliveries == old(deliveries) + FanOut(subscriptions, e, now)
      ensures fate == Commits ==> inserted.Some?
    {
      if fate == DiesAfter(0) { return None; }
      if e.id in events { return Some(false); }
      var txEvents := events[e.id := e];
      var txDeliveries := deliveries;
      var statements := 1;
      for i := 0 to |subscriptions|
        invariant Valid() && state == old(state)
        invariant events == old(events) && deliveries == old(deliveries) && subscriptions == old(subscriptions)
        invariant txDeliveries == old(deliveries) + FanOut(subscriptions[..i], e, now)
      {
        assert subscriptions[..i + 1][..i] == subscriptions[..i];
        if fate == DiesAfter(statements) { return None; }
        statements := statements + 1;
        var s := subscriptions[i];
        if !s.active { continue; }
        if s.eventType.Some? && s.eventType.value != e.eventType { continue; }
        if s.assetFilter.Some? && !(e.asset.Some? && e.asset.value == s.assetFilter.value) { continue; }
        if s.sourceFilter.Some? && !(e.source.Some? && e.source.value == s.sourceFilter.value) { continue; }
        if s.targetFilter.Some? && !(e.target.Some? && e.target.value == s.targetFilter.value) { continue; }
        txDeliveries := txDeliveries + [Delivery(i, e.id, Pending, 0, now)];
      }
      assert subscriptions[..|subscriptions|] == subscriptions;
      if fate == DiesAfter(statements) { return None; }
      events, deliveries := txEvents, txDeliveries;
      state := Apply(state, Insert(e, now));
      inserted := Some(true);
    }

    /** `mark_delivery_success`: delivered, with one more attempt; the rest of the table stays. */
    method MarkDeliverySuccess(id: DeliveryId, ghost now: int)
      requires Valid() && Enabled(state, Answered(id, true, now))
      modifies this`deliveries, this`state
      ensures Valid() && state == Apply(old(state), Answered(id, true, now))
      ensures |deliveries| == old(|deliveries|)
      ensures forall other :: 0 <= other < |deliveries| && other != id ==> deliveries[other] == old(deliveries)[other]
      ensures id < |deliveries| ==>
                var row, was := deliveries[id], old(deliveries)[id];
                && row.status == Delivered && row.attempts == was.attempts + 1 && row.nextRetryAt == was.nextRetryAt
                && row.event == was.event && row.subscription == was.subscription
    {
      if id < |deliveries| {
        deliveries := deliveries[id := deliveries[id].(status := Delivered, attempts := deliveries[id].attempts + 1)];
      }
      state := Apply(state, Answered(id, true, now));
    }

    /**
     `handle_retry`, deciding by the attempt count read when the delivery was fetched: one more attempt is
     counted; the row is dead if it was the fifth, and otherwise due again after a power of two of seconds.
     */
    method HandleRetry(id: DeliveryId, attempts: nat, now: int)
      requires Valid() && Enabled(state, Answered(id, false, now)) && state.cycle[id].attempts == attempts
      modifies this`deliveries, this`state
      ensures Valid() && state == Apply(old(state), Answered(id, false, now))
      ensures |deliveries| == old(|deliveries|)
      ensures forall other :: 0 <= other < |deliveries| && other != id ==> deliveries[other] == old(deliveries)[other]
      ensures id < |deliveries| ==>
                var row, was := deliveries[id], old(deliveries)[id];
                && row.event == was.event && row.subscription == was.subscription && row.attempts == was.attempts + 1
                && (attempts + 1 >= 5 ==> row.status == Dead && row.nextRetryAt == was.nextRetryAt)
                && (attempts + 1 < 5 ==>
                      row.status == was.status && row.nextRetryAt == now + Numerals.Pow(2, attempts + 1))
    {
      var attempt := attempts + 1;
      if id < |deliveries| {
        var row := deliveries[id];
        if attempt >= MAX_RETRIES {
          deliveries := deliveries[id := row.(status := Dead, attempts := row.attempts + 1)];
        } else {
          var due := now + Numerals.Pow(2, attempt);
          deliveries := deliveries[id := row.(attempts := row.attempts + 1, nextRetryAt := due)];
        }
      }
      state := Apply(state, Answered(id, false, now));
    }

    /** `mark_delivery_dead` when the subscription is gone. */
    method MarkDeliveryDead(id: DeliveryId)
      requires Valid() && Enabled(state, GiveUp(id))
      modifies this`deliveries, this`state
      ensures Valid() && state == Apply(old(state), GiveUp(id))
      ensures |deliveries| == old(|deliveries|) && id < |deliveries|
      ensures forall other :: 0 <= other < |deliveries| && other != id ==> deliveries[other] == old(deliveries)[other]
      ensures var row, was := deliveries[id], old(deliveries)[id];
              && row.status == Dead && row.attempts == was.attempts + 1 && row.nextRetryAt == was.nextRetryAt
              && row.event == was.event && row.subscription == was.subscription
    {
      deliveries := deliveries[id := deliveries[id].(status := Dead, attempts := deliveries[id].attempts + 1)];
      state := Apply(state, GiveUp(id));
    }

    method RetryDelivery(id: DeliveryId, now: int) returns (found: bool)
      requires Valid()
      modifies this`deliveries, this`state
      ensures Valid() && state == Apply(old(state), ManualRetry(id, now))
      ensures found <==> id < |deliveries|
      ensures |deliveries| == old(|deliveries|)
      ensures forall other :: 0 <= other < |deliveries| && other != id ==> deliveries[other] == old(deliveries)[other]
      ensures found ==>
                var row, was := deliveries[id], old(deliveries)[id];
                && row.status == Pending && row.attempts == 0 && row.nextRetryAt == now
                && row.event == was.event && row.subscription == was.subscription
    {
      found := id < |deliveries|;
      if found {
        deliveries := deliveries[id := deliveries[id].(status := Pending, nextRetryAt := now, attempts := 0)];
      }
      state := Apply(state, ManualRetry(id, now));
    }
  }
}
