/** Replaying the Solana signatures that were missed while the WebSocket was down. */
module Backfill {
  import opened Prelude

  datatype Signature = Signature(text: string)

  const PAGE_LIMIT := 1_000

  predicate Distinct(h: seq<Signature>) {
    forall i, j :: 0 <= i < j < |h| ==> h[i] != h[j]
  }

  function Reverse<T>(s: seq<T>): (r: seq<T>)
    ensures |r| == |s| && forall i :: 0 <= i < |s| ==> r[i] == s[|s| - 1 - i]
  {
    seq(|s|, i requires 0 <= i < |s| => s[|s| - 1 - i])
  }

  /** A position of `x`, or -1. In a history without repeats there is at most one. */
  ghost function IndexOf(s: seq<Signature>, x: Signature): (i: int)
    ensures -1 <= i < |s|
    ensures i >= 0 ==> s[i] == x
    ensures i < 0 <==> x !in s
  {
    if x in s then
      var i :| 0 <= i < |s| && s[i] == x;
      i
    else -1
  }

  method FindIndex(s: seq<Signature>, x: Signature) returns (i: int)
    ensures -1 <= i < |s|
    ensures i >= 0 ==> s[i] == x && x !in s[..i]
    ensures i < 0 <==> x !in s
  {
    i := 0;
    while i < |s|
      invariant 0 <= i <= |s| && x !in s[..i]
    {
      if s[i] == x { return i; }
      i := i + 1;
    }
    i := -1;
  }

  /** The history after a checkpoint, oldest first; all of it when the checkpoint is unknown. */
  ghost function After(h: seq<Signature>, checkpoint: Signature): (r: seq<Signature>) {
    h[IndexOf(h, checkpoint) + 1..]
  }

  /** The RPC as the backfill sees it: the page for a call number and a `before` bound. */
  type PageSource = (nat, Option<Signature>) -> seq<Signature>

  /**
   A page is newest first, ends just below `before`, holds at most 1,000 entries, and stops early only
   at the start of the history or at the checkpoint: just above it, as `until` asks, or reaching past it.
   */
  ghost predicate HonestPage(h: seq<Signature>, checkpoint: Signature, before: Option<Signature>,
                             page: seq<Signature>) {
    var hi := if before.None? then |h| else if before.value in h then IndexOf(h, before.value) else 0;
    var full := if hi < PAGE_LIMIT then 0 else hi - PAGE_LIMIT;
    var stop := IndexOf(h, checkpoint) + 1;
    || page == Reverse(h[full..hi])
    || (full <= stop <= hi && page == Reverse(h[stop..hi]))
    || (hi < stop && page == [])
  }

  ghost predicate HonestSource(h: seq<Signature>, checkpoint: Signature, pages: PageSource) {
    forall n, before :: HonestPage(h, checkpoint, before, pages(n, before))
  }

  lemma IndexOfUnique(h: seq<Signature>, i: nat)
    requires Distinct(h) && i < |h|
    ensures IndexOf(h, h[i]) == i
  {}

  lemma ReverseAppend<T>(a: seq<T>, b: seq<T>)
    ensures Reverse(a + b) == Reverse(b) + Reverse(a)
  {}

  /** Where the checkpoint shows up in a page. */
  lemma CheckpointInPage(h: seq<Signature>, checkpoint: Signature, lo: nat, hi: nat)
    requires Distinct(h) && lo <= hi <= |h|
    ensures var at := IndexOf(h, checkpoint);
            IndexOf(Reverse(h[lo..hi]), checkpoint) == if lo <= at < hi then hi - 1 - at else -1
  {
    var page := Reverse(h[lo..hi]);
    var i, at := IndexOf(page, checkpoint), IndexOf(h, checkpoint);
    if i >= 0 {
      assert page[i] == h[hi - 1 - i];
      IndexOfUnique(h, hi - 1 - i);
    }
    assert lo <= at < hi ==> page[hi - 1 - at] == checkpoint;
  }

  lemma SliceIsDistinct(h: seq<Signature>, lo: nat, hi: nat)
    requires Distinct(h) && lo <= hi <= |h|
    ensures Distinct(Reverse(h[lo..hi]))
  {
    var page := Reverse(h[lo..hi]);
    assert forall i :: 0 <= i < |page| ==> page[i] == h[hi - 1 - i];
  }

  /** A page is a slice of what is still to be paged; a short one stops at the checkpoint or at the start. */
  lemma PageRange(h: seq<Signature>, checkpoint: Signature, hi: nat, before: Option<Signature>, page: seq<Signature>)
    requires Distinct(h) && HonestPage(h, checkpoint, before, page)
    requires IndexOf(h, checkpoint) + 1 <= hi <= |h|
    requires before == if hi == |h| then None else Some(h[hi])
    ensures |page| <= hi && page == Reverse(h[hi - |page|..hi])
    ensures |page| < PAGE_LIMIT ==> hi - |page| == 0 || hi - |page| == IndexOf(h, checkpoint) + 1
  {
    if before.Some? { IndexOfUnique(h, hi); }
  }

  /** What one page says about the part of the history still to be paged, `h[..hi]`. */
  lemma PageFacts(h: seq<Signature>, checkpoint: Signature, hi: nat, before: Option<Signature>, page: seq<Signature>)
    requires Distinct(h) && HonestPage(h, checkpoint, before, page)
    requires IndexOf(h, checkpoint) + 1 <= hi <= |h|
    requires before == if hi == |h| then None else Some(h[hi])
    ensures |page| <= hi && page == Reverse(h[hi - |page|..hi]) && Distinct(page)
    ensures var stop, at := IndexOf(h, checkpoint) + 1, IndexOf(page, checkpoint);
            && (at >= 0 ==> stop == hi - at)
            && (at < 0 ==> stop <= hi - |page|)
            && (at < 0 && |page| < PAGE_LIMIT ==> stop == hi - |page|)
  {
    PageRange(h, checkpoint, hi, before, page);
    SliceIsDistinct(h, hi - |page|, hi);
    CheckpointInPage(h, checkpoint, hi - |page|, hi);
  }

  lemma TakePage(h: seq<Signature>, lo: nat, mid: nat, hi: nat, page: seq<Signature>)
    requires lo <= mid <= hi <= |h| && page == Reverse(h[lo..hi])
    ensures Reverse(h[hi..]) + page[..hi - mid] == Reverse(h[mid..])
  {
    assert h[mid..hi] + h[hi..] == h[mid..];
    ReverseAppend(h[mid..hi], h[hi..]);
    assert page[..hi - mid] == Reverse(h[mid..hi]);
  }

  /** How many entries of a page lie above the checkpoint, as the loop counts them. */
  ghost function Taken(page: seq<Signature>, checkpoint: Signature): (n: nat)
    ensures n <= |page|
  {
    var at := IndexOf(page, checkpoint);
    if at == -1 then |page| else at
  }

  /** What the loop may conclude from a page fetched with `h[..hi]` still to be paged. */
  ghost predicate PageAdvances(h: seq<Signature>, checkpoint: Signature, hi: nat, page: seq<Signature>) {
    var stop, n := IndexOf(h, checkpoint) + 1, Taken(page, checkpoint);
    && stop <= hi - n
    && hi <= |h|
    && Reverse(h[hi..]) + page[..n] == Reverse(h[hi - n..])
    && (page == [] || checkpoint in page || |page| < PAGE_LIMIT ==> hi - n == stop)
    && (checkpoint !in page && page != [] ==> hi - n < hi && page[|page| - 1] == h[hi - n])
  }

  lemma HonestPageAdvances(h: seq<Signature>, checkpoint: Signature, hi: nat, before: Option<Signature>,
                           page: seq<Signature>)
    requires Distinct(h) && HonestPage(h, checkpoint, before, page)
    requires IndexOf(h, checkpoint) + 1 <= hi <= |h|
    requires before == if hi == |h| then None else Some(h[hi])
    ensures Distinct(page) && PageAdvances(h, checkpoint, hi, page)
  {
    PageFacts(h, checkpoint, hi, before, page);
    SlicePageAdvances(h, checkpoint, hi, page);
  }

  lemma SlicePageAdvances(h: seq<Signature>, checkpoint: Signature, hi: nat, page: seq<Signature>)
    requires |page| <= hi <= |h| && page == Reverse(h[hi - |page|..hi])
    requires var stop, at := IndexOf(h, checkpoint) + 1, IndexOf(page, checkpoint);
             && (at >= 0 ==> stop == hi - at)
             && (at < 0 ==> stop <= hi - |page|)
             && (at < 0 && |page| < PAGE_LIMIT ==> stop == hi - |page|)
    ensures PageAdvances(h, checkpoint, hi, page)
  {
    TakePage(h, hi - |page|, hi - Taken(page, checkpoint), hi, page);
  }

  /** One call of the RPC, with `h[..hi]` still to be paged before it. */
  method FetchPage(ghost h: seq<Signature>, ghost checkpoint: Signature, ghost hi: nat,
                   pages: PageSource, call: nat, before: Option<Signature>) returns (page: seq<Signature>)
    requires Distinct(h) && HonestSource(h, checkpoint, pages)
    requires IndexOf(h, checkpoint) + 1 <= hi <= |h|
    requires before == if hi == |h| then None else Some(h[hi])
    ensures Distinct(page) && PageAdvances(h, checkpoint, hi, page)
  {
    page := pages(call, before);
    HonestPageAdvances(h, checkpoint, hi, before, page);
  }

  lemma ReverseTwice<T>(s: seq<T>)
    ensures Reverse(Reverse(s)) == s
  {}

  /** The paging loop of `backfill`: newest first, until the checkpoint or the start of the history. */
  method CollectPending(ghost h: seq<Signature>, checkpoint: Signature, pages: PageSource)
    returns (pending: seq<Signature>)
    requires Distinct(h) && HonestSource(h, checkpoint, pages)
    ensures Reverse(pending) == After(h, checkpoint)
  {
    pending := [];
    ghost var stop := IndexOf(h, checkpoint) + 1;
    ghost var hi: nat := |h|;
    var calls := 0;
    var before: Option<Signature> := None;
    var reachedCheckpoint := false;
    while !reachedCheckpoint
      invariant stop <= hi <= |h|
      invariant pending == Reverse(h[hi..])
      invariant !reachedCheckpoint ==> before == if hi == |h| then None else Some(h[hi])
      invariant reachedCheckpoint ==> hi == stop
      decreases hi, !reachedCheckpoint
    {
      var page := FetchPage(h, checkpoint, hi, pages, calls, before);
      calls := calls + 1;
      if |page| == 0 { break; }
      var checkpointIndex := FindIndex(page, checkpoint);
      pending := pending + page[..if checkpointIndex == -1 then |page| else checkpointIndex];
      hi := hi - Taken(page, checkpoint);
      if checkpointIndex != -1 || |page| < PAGE_LIMIT {
        reachedCheckpoint := true;
      } else {
        before := Some(page[|page| - 1]);
      }
    }
    ReverseTwice(h[hi..]);
  }

  // ---- The listener's cursor --------------------------------------------------------------

  /** What processing one signature comes to: its deposits (none for a failed transaction), or an error. */
  type Fetch<!E> = Signature -> Option<seq<E>>

  /** The number of leading entries that are processed before the first error. */
  function Reachable<E>(list: seq<Signature>, fetch: Fetch<E>): (n: nat)
    ensures n <= |list|
    ensures forall i :: 0 <= i < n ==> fetch(list[i]).Some?
    ensures n < |list| ==> fetch(list[n]).None?
  {
    if list == [] || fetch(list[0]).None? then 0 else 1 + Reachable(list[1..], fetch)
  }

  /** The deposits of a list of signatures, signature by signature. */
  function DepositsOf<E>(list: seq<Signature>, fetch: Fetch<E>): (r: seq<E>) {
    if list == [] then []
    else
      DepositsOf(list[..|list| - 1], fetch) +
      (match fetch(list[|list| - 1]) case None => [] case Some(events) => events)
  }

  lemma DepositsAppend<E>(list: seq<Signature>, next: Signature, fetch: Fetch<E>)
    requires fetch(next).Some?
    ensures DepositsOf(list + [next], fetch) == DepositsOf(list, fetch) + fetch(next).value
  {
    assert (list + [next])[..|list|] == list;
  }

  function CursorAfter(checkpoint: Signature, done: seq<Signature>): (c: Signature) {
    if done == [] then checkpoint else done[|done| - 1]
  }

  /**
   `SolanaChainListener`; `recorded` is every signature it has ever recorded, in order, and `delivered`
   every deposit it has handed to the service.
   */
  class SolanaChainListener<E> {
    const hasHttpUrl: bool
    var lastSignature: Option<Signature>
    var recorded: seq<Signature>
    var delivered: seq<E>

    constructor (hasHttpUrl: bool, loaded: Option<Signature>)
      ensures this.hasHttpUrl == hasHttpUrl && lastSignature == loaded && recorded == [] && delivered == []
    {
      this.hasHttpUrl, lastSignature, recorded, delivered := hasHttpUrl, loaded, [], [];
    }

    method RecordSignature(signature: Signature)
      modifies this`lastSignature, this`recorded
      ensures lastSignature == Some(signature) && recorded == old(recorded) + [signature]
    {
      lastSignature := Some(signature);
      recorded := recorded + [signature];
    }

    /** Hands the deposits of one transaction to the service, one at a time. */
    method HandOver(events: seq<E>)
      modifies this`delivered
      ensures delivered == old(delivered) + events
    {
      for j := 0 to |events|
        invariant delivered == old(delivered) + events[..j]
      {
        delivered := delivered + [events[j]];
      }
      assert events[..|events|] == events;
    }

    /**
     `backfill`: pages back to the checkpoint, then works forward, handing over the deposits of each
     signature before recording it. The first signature that cannot be processed ends it with an error.
     */
    method Backfill(ghost h: seq<Signature>, pages: PageSource, fetch: Fetch<E>) returns (ok: bool)
      requires Distinct(h)
      requires lastSignature.Some? ==> HonestSource(h, lastSignature.value, pages)
      modifies this
      ensures old(lastSignature).None? || !hasHttpUrl ==>
                ok && lastSignature == old(lastSignature) && recorded == old(recorded) && delivered == old(delivered)
      ensures old(lastSignature).Some? && hasHttpUrl ==>
                var list := After(h, old(lastSignature).value);
                var done := list[..Reachable(list, fetch)];
                && recorded == old(recorded) + done
                && delivered == old(delivered) + DepositsOf(done, fetch)
                && lastSignature == Some(CursorAfter(old(lastSignature).value, done))
                && (ok <==> done == list)
    {
      if lastSignature.None? { return true; }
      if !hasHttpUrl { return true; }
      var pending := CollectPending(h, lastSignature.value, pages);
      ok := Replay(Reverse(pending), fetch);
    }

    /** The second loop of `backfill`, oldest signature first. */
    method Replay(list: seq<Signature>, fetch: Fetch<E>) returns (ok: bool)
      requires lastSignature.Some?
      modifies this
      ensures var done := list[..Reachable(list, fetch)];
              && recorded == old(recorded) + done
              && delivered == old(delivered) + DepositsOf(done, fetch)
              && lastSignature == Some(CursorAfter(old(lastSignature).value, done))
              && (ok <==> done == list)
    {
      for i := 0 to |list|
        invariant recorded == old(recorded) + list[..i]
        invariant delivered == old(delivered) + DepositsOf(list[..i], fetch)
        invariant lastSignature == Some(CursorAfter(old(lastSignature).value, list[..i]))
        invariant forall j :: 0 <= j < i ==> fetch(list[j]).Some?
      {
        var events := fetch(list[i]);
        if events.None? {
          ReachableIs(list, fetch, i);
          return false;
        }
        assert list[..i + 1] == list[..i] + [list[i]];
        DepositsAppend(list[..i], list[i], fetch);
        HandOver(events.value);
        RecordSignature(list[i]);
      }
      ReachableIs(list, fetch, |list|);
      assert list[..|list|] == list;
      ok := true;
    }
  }

  lemma {:induction false} ReachableIs<E>(list: seq<Signature>, fetch: Fetch<E>, n: nat)
    requires n <= |list| && (forall i :: 0 <= i < n ==> fetch(list[i]).Some?) && (n < |list| ==> fetch(list[n]).None?)
    ensures Reachable(list, fetch) == n
  {
    if n > 0 { ReachableIs(list[1..], fetch, n - 1); }
  }

  // ---- Interrupted backfills --------------------------------------------------------------

  lemma SliceOfPrefix(h: seq<Signature>, longer: seq<Signature>, k: nat, n: nat)
    requires h <= longer && k + n <= |h|
    ensures h[k..][..n] == longer[k..k + n]
    ensures longer[k..k + n] + longer[k + n..] == longer[k..]
    ensures h[k..] <= longer[k..]
  {}

  /** A longer history has every signature where the shorter one has it. */
  lemma IndexInLonger(h: seq<Signature>, longer: seq<Signature>, x: Signature)
    requires Distinct(longer) && h <= longer && (x in longer ==> x in h)
    ensures IndexOf(longer, x) == IndexOf(h, x)
  {
    var at := IndexOf(h, x);
    if at >= 0 {
      assert longer[at] == x;
      IndexOfUnique(longer, at);
    }
  }

  /**
   Nothing is left out or done twice when a backfill stops anywhere and a later one, over a longer history,
   resumes.
   */
  lemma ResumeCompletes(h: seq<Signature>, longer: seq<Signature>, checkpoint: Signature, n: nat)
    requires Distinct(longer) && h <= longer && (checkpoint in longer ==> checkpoint in h)
    requires n <= |After(h, checkpoint)|
    ensures var done := After(h, checkpoint)[..n];
            done + After(longer, CursorAfter(checkpoint, done)) == After(longer, checkpoint)
    ensures After(h, checkpoint) <= After(longer, checkpoint)
  {
    var k := IndexOf(h, checkpoint) + 1;
    IndexInLonger(h, longer, checkpoint);
    SliceOfPrefix(h, longer, k, n);
    if n > 0 {
      var done := h[k..][..n];
      assert done[n - 1] == longer[k + n - 1];
      IndexOfUnique(longer, k + n - 1);
    }
  }

  /** Each history extends the one before it, and none later forgets what an earlier one knew. */
  ghost predicate Growing(hs: seq<seq<Signature>>) {
    && (forall i :: 0 <= i < |hs| ==> Distinct(hs[i]))
    && (forall i, j :: 0 <= i <= j < |hs| ==> hs[i] <= hs[j])
  }

  /** What a series of backfills records, the i-th over `hs[i]` and stopped after at most `stops[i]` entries. */
  ghost function Recorded(hs: seq<seq<Signature>>, stops: seq<nat>, checkpoint: Signature): (r: seq<Signature>)
    requires |hs| == |stops|
    decreases |hs|
  {
    if hs == [] then []
    else
      var done := FirstRun(hs, stops, checkpoint);
      done + Recorded(hs[1..], stops[1..], CursorAfter(checkpoint, done))
  }

  ghost function FirstRun(hs: seq<seq<Signature>>, stops: seq<nat>, checkpoint: Signature): (r: seq<Signature>)
    requires |hs| == |stops| && hs != []
  {
    var list := After(hs[0], checkpoint);
    list[..if stops[0] < |list| then stops[0] else |list|]
  }

  /**
   However often backfills are cut short while the chain grows, what they record is a prefix of the
   signatures after the first checkpoint, in order, and all of them once the last one runs through.
   */
  lemma {:induction false} BackfillsLeaveNoGap(hs: seq<seq<Signature>>, stops: seq<nat>, checkpoint: Signature)
    requires |hs| == |stops| && hs != [] && Growing(hs) && checkpoint in hs[0]
    ensures var last := hs[|hs| - 1];
            && Recorded(hs, stops, checkpoint) <= After(last, checkpoint)
            && (stops[|stops| - 1] >= |last| ==> Recorded(hs, stops, checkpoint) == After(last, checkpoint))
    decreases |hs|
  {
    FirstRunResumes(hs, stops, checkpoint);
    if |hs| > 1 {
      RestGrows(hs);
      BackfillsLeaveNoGap(hs[1..], stops[1..], CursorAfter(checkpoint, FirstRun(hs, stops, checkpoint)));
    }
    RestGoesOn(hs, stops, checkpoint);
  }

  /** What holds of the backfills after the first holds of them all. */
  lemma RestGoesOn(hs: seq<seq<Signature>>, stops: seq<nat>, checkpoint: Signature)
    requires |hs| == |stops| && hs != []
    requires var last, done := hs[|hs| - 1], FirstRun(hs, stops, checkpoint);
             && done + After(last, CursorAfter(checkpoint, done)) == After(last, checkpoint)
             && (|hs| == 1 && stops[0] >= |last| ==> done == After(last, checkpoint))
    requires |hs| > 1 ==>
               var rest, tail := Recorded(hs[1..], stops[1..],
                                          CursorAfter(checkpoint, FirstRun(hs, stops, checkpoint))),
                                 After(hs[|hs| - 1], CursorAfter(checkpoint, FirstRun(hs, stops, checkpoint)));
               rest <= tail && (stops[|stops| - 1] >= |hs[|hs| - 1]| ==> rest == tail)
    ensures var last := hs[|hs| - 1];
            && Recorded(hs, stops, checkpoint) <= After(last, checkpoint)
            && (stops[|stops| - 1] >= |last| ==> Recorded(hs, stops, checkpoint) == After(last, checkpoint))
  {
    var last, done := hs[|hs| - 1], FirstRun(hs, stops, checkpoint);
    var next := CursorAfter(checkpoint, done);
    PrefixGoesOn(done, Recorded(hs[1..], stops[1..], next), After(last, next), After(last, checkpoint));
  }

  lemma PrefixGoesOn(done: seq<Signature>, rest: seq<Signature>, tail: seq<Signature>, whole: seq<Signature>)
    requires done + tail == whole
    ensures rest <= tail ==> done + rest <= whole
    ensures rest == tail ==> done + rest == whole
    ensures rest == [] ==> done + rest == done <= whole
  {}

  /** The first backfill of a series stops at a cursor from which the last history goes on where it left off. */
  lemma FirstRunResumes(hs: seq<seq<Signature>>, stops: seq<nat>, checkpoint: Signature)
    requires |hs| == |stops| && hs != [] && Growing(hs) && checkpoint in hs[0]
    ensures var last, done := hs[|hs| - 1], FirstRun(hs, stops, checkpoint);
            && done + After(last, CursorAfter(checkpoint, done)) == After(last, checkpoint)
            && (|hs| == 1 && stops[0] >= |last| ==> done == After(last, checkpoint))
            && (|hs| > 1 ==> CursorAfter(checkpoint, done) in hs[1])
  {
    var last, done := hs[|hs| - 1], FirstRun(hs, stops, checkpoint);
    PrefixMembers(hs[0], last, checkpoint);
    assert done == After(hs[0], checkpoint)[..|done|];
    ResumeCompletes(hs[0], last, checkpoint, |done|);
    if |hs| > 1 {
      CursorIsKnown(hs[0], checkpoint, |done|);
      PrefixMembers(hs[0], hs[1], CursorAfter(checkpoint, done));
    }
  }

  lemma RestGrows(hs: seq<seq<Signature>>)
    requires Growing(hs) && |hs| > 1
    ensures Growing(hs[1..]) && hs[1..][0] == hs[1] && hs[0] <= hs[1] && hs[1..][|hs| - 2] == hs[|hs| - 1]
  {
    forall i, j | 0 <= i <= j < |hs[1..]| ensures hs[1..][i] <= hs[1..][j] {
      assert hs[i + 1] <= hs[j + 1];
    }
  }

  lemma CursorIsKnown(h: seq<Signature>, checkpoint: Signature, n: nat)
    requires checkpoint in h && n <= |After(h, checkpoint)|
    ensures CursorAfter(checkpoint, After(h, checkpoint)[..n]) in h
  {}

  lemma PrefixMembers(h: seq<Signature>, longer: seq<Signature>, x: Signature)
    requires h <= longer && x in h
    ensures x in longer
  {
    var i :| 0 <= i < |h| && h[i] == x;
    assert longer[i] == x;
  }

  /** What is recorded after a checkpoint holds no signature twice. */
  lemma AfterIsDistinct(h: seq<Signature>, checkpoint: Signature)
    requires Distinct(h)
    ensures Distinct(After(h, checkpoint)) && checkpoint !in After(h, checkpoint)
  {
    var list := After(h, checkpoint);
    var at := IndexOf(h, checkpoint);
    forall i | 0 <= i < |list| ensures list[i] != checkpoint {
      IndexOfUnique(h, at + 1 + i);
    }
  }
}
