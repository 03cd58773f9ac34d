/** Sorting a cycle's pending deliveries into one first-in-first-out queue per subscription. */
module Webhook {
  import opened Prelude

  datatype Subscriber = Subscriber(id: string)

  /** A fetched delivery; `row` is its position in the fetch, oldest first. */
  datatype Fetched = Fetched(row: nat, subscription: Subscriber)

  /** The deliveries for one subscriber, in the order they were fetched. */
  function QueueOf(deliveries: seq<Fetched>, s: Subscriber): (r: seq<Fetched>) {
    Filter(deliveries, (d: Fetched) => d.subscription == s)
  }

  /** The subscribers in the order of their first delivery. */
  function FirstSeen(deliveries: seq<Fetched>): (r: seq<Subscriber>) {
    if deliveries == [] then []
    else
      var init, last := FirstSeen(deliveries[..|deliveries| - 1]), deliveries[|deliveries| - 1].subscription;
      if last in init then init else init + [last]
  }

  predicate NoRepeats(s: seq<Subscriber>) {
    forall i, j :: 0 <= i < j < |s| ==> s[i] != s[j]
  }

  lemma {:induction false} FirstSeenFacts(deliveries: seq<Fetched>)
    ensures NoRepeats(FirstSeen(deliveries))
    ensures forall s :: s in FirstSeen(deliveries) <==>
              exists i :: 0 <= i < |deliveries| && deliveries[i].subscription == s
  {
    if deliveries != [] {
      var n := |deliveries| - 1;
      FirstSeenFacts(deliveries[..n]);
      var init, last := FirstSeen(deliveries[..n]), deliveries[n].subscription;
      forall s
        ensures s in FirstSeen(deliveries) <==> exists i :: 0 <= i < |deliveries| && deliveries[i].subscription == s
      {
        if s in init {
          var i :| 0 <= i < n && deliveries[..n][i].subscription == s;
          assert deliveries[i].subscription == s;
        }
        if exists i :: 0 <= i < |deliveries| && deliveries[i].subscription == s {
          var i :| 0 <= i < |deliveries| && deliveries[i].subscription == s;
          if i < n { assert deliveries[..n][i].subscription == s; }
        }
      }
    }
  }

  /** Subscribers stand in the order of their first deliveries. */
  lemma {:induction false} FirstSeenOrder(deliveries: seq<Fetched>, i: nat, j: nat) returns (a: nat)
    requires i < j < |FirstSeen(deliveries)|
    ensures a < |deliveries| && deliveries[a].subscription == FirstSeen(deliveries)[i]
    ensures forall b :: 0 <= b <= a ==> deliveries[b].subscription != FirstSeen(deliveries)[j]
  {
    var n := |deliveries| - 1;
    var init := FirstSeen(deliveries[..n]);
    FirstSeenFacts(deliveries[..n]);
    if j < |init| {
      a := FirstSeenOrder(deliveries[..n], i, j);
      forall b | 0 <= b <= a ensures deliveries[b].subscription != init[j] {
        assert deliveries[..n][b] == deliveries[b];
      }
    } else {
      assert init[i] in init;
      a :| 0 <= a < n && deliveries[..n][a].subscription == init[i];
      forall b | 0 <= b <= a ensures deliveries[b].subscription != deliveries[n].subscription {
        assert deliveries[..n][b].subscription in init;
      }
    }
  }

  lemma QueueAppend(deliveries: seq<Fetched>, d: Fetched, s: Subscriber)
    ensures QueueOf(deliveries + [d], s) ==
            if d.subscription == s then QueueOf(deliveries, s) + [d] else QueueOf(deliveries, s)
  {
    var mine := (x: Fetched) => x.subscription == s;
    FilterAppend(deliveries, [d], mine);
    FilterOne(d, mine);
  }

  /** The queues collected so far, keyed by subscriber. */
  ghost predicate Sorted(deliveries: seq<Fetched>, order: seq<Subscriber>, queues: map<Subscriber, seq<Fetched>>) {
    order == FirstSeen(deliveries) && Queues(order, queues) && QueuesHold(deliveries, queues)
  }

  ghost predicate Queues(order: seq<Subscriber>, queues: map<Subscriber, seq<Fetched>>) {
    forall s :: s in queues <==> s in order
  }

  ghost predicate QueuesHold(deliveries: seq<Fetched>, queues: map<Subscriber, seq<Fetched>>) {
    forall s :: s in queues ==> queues[s] == QueueOf(deliveries, s)
  }

  lemma FirstSeenStep(deliveries: seq<Fetched>, d: Fetched)
    ensures FirstSeen(deliveries + [d]) ==
            FirstSeen(deliveries) + if d.subscription in FirstSeen(deliveries) then [] else [d.subscription]
  {
    assert (deliveries + [d])[..|deliveries|] == deliveries;
  }

  /** The queues with one more delivery filed. */
  function Filed(queues: map<Subscriber, seq<Fetched>>, d: Fetched): (r: map<Subscriber, seq<Fetched>>)
    ensures r.Keys == queues.Keys + {d.subscription}
  {
    queues[d.subscription := (if d.subscription in queues then queues[d.subscription] else []) + [d]]
  }

  lemma FiledQueue(deliveries: seq<Fetched>, d: Fetched, queues: map<Subscriber, seq<Fetched>>, s: Subscriber)
    requires s in queues ==> queues[s] == QueueOf(deliveries, s)
    requires s !in queues ==> QueueOf(deliveries, s) == []
    requires s in Filed(queues, d)
    ensures Filed(queues, d)[s] == QueueOf(deliveries + [d], s)
  {
    QueueAppend(deliveries, d, s);
  }

  function Ordered(order: seq<Subscriber>, queues: map<Subscriber, seq<Fetched>>, d: Fetched): (r: seq<Subscriber>) {
    if d.subscription in queues then order else order + [d.subscription]
  }

  lemma FiledOrder(order: seq<Subscriber>, queues: map<Subscriber, seq<Fetched>>, d: Fetched)
    requires Queues(order, queues)
    ensures Queues(Ordered(order, queues, d), Filed(queues, d))
  {}

  lemma FiledQueues(deliveries: seq<Fetched>, d: Fetched, order: seq<Subscriber>, queues: map<Subscriber, seq<Fetched>>)
    requires Queues(order, queues) && QueuesHold(deliveries, queues) && order == FirstSeen(deliveries)
    ensures QueuesHold(deliveries + [d], Filed(queues, d))
  {
    forall s | s in Filed(queues, d) ensures Filed(queues, d)[s] == QueueOf(deliveries + [d], s) {
      if s !in queues { NotSeenYet(deliveries, s); }
      FiledQueue(deliveries, d, queues, s);
    }
  }

  /** One turn of the partition loop. */
  lemma SortOne(deliveries: seq<Fetched>, d: Fetched, order: seq<Subscriber>, queues: map<Subscriber, seq<Fetched>>)
    requires Sorted(deliveries, order, queues)
    ensures Sorted(deliveries + [d], Ordered(order, queues, d), Filed(queues, d))
  {
    FirstSeenStep(deliveries, d);
    FiledOrder(order, queues, d);
    FiledQueues(deliveries, d, order, queues);
  }

  lemma NotSeenYet(deliveries: seq<Fetched>, s: Subscriber)
    requires s !in FirstSeen(deliveries)
    ensures QueueOf(deliveries, s) == []
  {
    FirstSeenFacts(deliveries);
    NobodysQueue(deliveries, s);
  }

  lemma {:induction false} NobodysQueue(deliveries: seq<Fetched>, s: Subscriber)
    requires forall i :: 0 <= i < |deliveries| ==> deliveries[i].subscription != s
    ensures QueueOf(deliveries, s) == []
  {
    if deliveries != [] { NobodysQueue(deliveries[1..], s); }
  }

  /**
   The partition step of `deliver_pending`: `sub_order` and `sub_queues`, filled in one pass, then emptied
   in order.
   */
  method Partition(deliveries: seq<Fetched>) returns (queues: seq<seq<Fetched>>)
    ensures |queues| == |FirstSeen(deliveries)|
    ensures forall i :: 0 <= i < |queues| ==> queues[i] == QueueOf(deliveries, FirstSeen(deliveries)[i])
  {
    var subOrder: seq<Subscriber> := [];
    var subQueues: map<Subscriber, seq<Fetched>> := map[];
    for i := 0 to |deliveries|
      invariant Sorted(deliveries[..i], subOrder, subQueues)
    {
      var d := deliveries[i];
      assert deliveries[..i + 1] == deliveries[..i] + [d];
      SortOne(deliveries[..i], d, subOrder, subQueues);
      if d.subscription !in subQueues {
        subOrder := subOrder + [d.subscription];
        subQueues := subQueues[d.subscription := []];
      }
      subQueues := subQueues[d.subscription := subQueues[d.subscription] + [d]];
    }
    assert deliveries[..|deliveries|] == deliveries;
    queues := [];
    for i := 0 to |subOrder|
      invariant |queues| == i
      invariant forall j :: 0 <= j < i ==> queues[j] == QueueOf(deliveries, subOrder[j])
    {
      assert subOrder[i] in subQueues;
      queues := queues + [subQueues[subOrder[i]]];
    }
  }

  /** Every fetched delivery is in exactly one queue, and each queue keeps the order of the fetch. */
  lemma EachInExactlyOneQueue(deliveries: seq<Fetched>, d: Fetched)
    requires d in deliveries
    ensures exists i :: 0 <= i < |FirstSeen(deliveries)| && d in QueueOf(deliveries, FirstSeen(deliveries)[i])
    ensures forall i, j :: 0 <= i < j < |FirstSeen(deliveries)| ==>
              !(d in QueueOf(deliveries, FirstSeen(deliveries)[i]) &&
                d in QueueOf(deliveries, FirstSeen(deliveries)[j]))
  {
    var order := FirstSeen(deliveries);
    FirstSeenFacts(deliveries);
    forall s ensures d in QueueOf(deliveries, s) <==> d.subscription == s {
      FilterMembers(deliveries, (x: Fetched) => x.subscription == s, d);
    }
    var k :| 0 <= k < |deliveries| && deliveries[k] == d;
    assert deliveries[k].subscription == d.subscription;
    assert d.subscription in order;
    var i :| 0 <= i < |order| && order[i] == d.subscription;
    assert d in QueueOf(deliveries, order[i]);
  }

  predicate InOrder(s: seq<Fetched>) {
    forall i, j :: 0 <= i < j < |s| ==> s[i].row < s[j].row
  }

  lemma {:induction false} QueuesKeepOrder(deliveries: seq<Fetched>, s: Subscriber)
    requires InOrder(deliveries)
    ensures InOrder(QueueOf(deliveries, s))
  {
    if deliveries != [] {
      QueuesKeepOrder(deliveries[1..], s);
      var rest := QueueOf(deliveries[1..], s);
      forall i | 0 <= i < |rest| ensures deliveries[0].row < rest[i].row {
        FilterMembers(deliveries[1..], (x: Fetched) => x.subscription == s, rest[i]);
      }
    }
  }
}
