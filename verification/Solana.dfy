/** The Solana path put together: from log lines to deposits, and from backfills to distinct replay keys. */
module Solana {
  import opened Prelude
  import opened Stores
  import opened Preimages
  import opened Scanner
  import Base58
  import Numerals
  import Hex
  import Backfill
  import BackfillRuns

  // ---- One line ---------------------------------------------------------------------------

  /** `split(':')`. */
  function Fields(s: string): (parts: seq<string>)
    ensures |parts| >= 1
  {
    if s == "" then [""]
    else
      var rest := Fields(s[1..]);
      if s[0] == ':' then [""] + rest else [[s[0]] + rest[0]] + rest[1..]
  }

  function Join(parts: seq<string>): (s: string)
    requires |parts| >= 1
  {
    if |parts| == 1 then parts[0] else parts[0] + ":" + Join(parts[1..])
  }

  ghost predicate NoColons(parts: seq<string>) { forall i :: 0 <= i < |parts| ==> ':' !in parts[i] }

  /** A decoded line: the deposit, the preimage of its replay key, and its number among the lines. */
  datatype Emitted = Emitted(index: nat, preimage: seq<byte>, event: BridgeEvent)

  /** `decodeLine`, past the fixed front of the line. */
  function DecodeLine(h: Hashing, chainId: int, signature: string, payload: string, index: nat): (r: Option<Emitted>) {
    var parts := Fields(payload);
    if |parts| != 3 || parts[0] == "" || parts[1] == "" || parts[2] == "" || !AllDecimal(parts[2]) then None
    else
      match Base58.ReplayPreimage(signature, index)
      case None => None
      case Some(preimage) =>
        Some(Emitted(index, preimage, BridgeEvent(chainId, Hex.ToHex(h.sha256(preimage)), parts[0], parts[1],
                                                  parts[2])))
  }

  /** Splitting undoes joining. */
  lemma {:induction false} FieldsOfJoin(parts: seq<string>)
    requires |parts| >= 1 && NoColons(parts)
    ensures Fields(Join(parts)) == parts
    decreases |parts|, if |parts| == 0 then 0 else |parts[0]|
  {
    var s, head := Join(parts), parts[0];
    if head != "" {
      var shorter := [head[1..]] + parts[1..];
      assert shorter[1..] == parts[1..];
      assert head[0] in head;
      assert s[0] == head[0] && s[1..] == Join(shorter);
      FieldsOfJoin(shorter);
      assert [s[0]] + shorter[0] == head;
      assert parts == [head] + parts[1..];
    } else if |parts| > 1 {
      assert s == ":" + Join(parts[1..]);
      assert s[1..] == Join(parts[1..]);
      FieldsOfJoin(parts[1..]);
      assert parts == [""] + parts[1..];
    }
  }

  /** Joining undoes splitting. */
  lemma {:induction false} JoinOfFields(s: string)
    ensures Join(Fields(s)) == s && NoColons(Fields(s))
  {
    if s != "" {
      JoinOfFields(s[1..]);
      var parts, rest := Fields(s), Fields(s[1..]);
      if s[0] == ':' {
        assert parts[1..] == rest;
      } else {
        assert parts[1..] == rest[1..];
      }
      assert s == [s[0]] + s[1..];
    }
  }

  /**
   The event is filed under this chain and the digest, in lower-case hex, of 68 bytes: the 64 that the
   transaction's signature is base58 for, and the number of the line as a big-endian u32.
   */
  ghost predicate CarriesKey(h: Hashing, chainId: int, signature: string, number: nat, e: BridgeEvent) {
    && e.chainId == chainId
    && exists p: seq<byte> ::
         && |p| == 68 && Base58.Encoded(p[..64]) == signature && Numerals.Val(256, p[64..]) == number
         && e.txHash == Hex.ToHex(h.sha256(p))
  }

  /**
   A payload decodes to these three fields exactly when it is the three, none of them empty or with a
   colon inside, the last one digits, and the signature is base58 for 64 bytes.
   */
  lemma LineDecodesIff(h: Hashing, chainId: int, signature: string, payload: string, index: nat,
                       target: string, asset: string, amount: string)
    ensures var r := DecodeLine(h, chainId, signature, payload, index);
            (&& r.Some? && r.value.event.target == target
             && r.value.event.asset == asset && r.value.event.amount == amount)
            <==>
            && payload == target + ":" + asset + ":" + amount && NoColons([target, asset, amount])
            && target != "" && asset != "" && amount != "" && AllDecimal(amount)
            && Base58.ReplayPreimage(signature, index).Some?
    ensures var r := DecodeLine(h, chainId, signature, payload, index);
            r.Some? ==> r.value.index == index && CarriesKey(h, chainId, signature, index, r.value.event)
  {
    JoinOfFields(payload);
    ThreeFields(payload, target, asset, amount);
    Base58.ReplayPreimageLayout(signature, index);
  }

  lemma ThreeFields(payload: string, x: string, y: string, z: string)
    requires Join(Fields(payload)) == payload && NoColons(Fields(payload))
    ensures Fields(payload) == [x, y, z] <==> payload == x + ":" + y + ":" + z && NoColons([x, y, z])
    ensures |Fields(payload)| == 3 ==> Fields(payload) == [Fields(payload)[0], Fields(payload)[1], Fields(payload)[2]]
  {
    JoinOfThree(x, y, z);
    if NoColons([x, y, z]) { FieldsOfJoin([x, y, z]); }
  }

  lemma JoinOfThree(x: string, y: string, z: string)
    ensures Join([x, y, z]) == x + ":" + y + ":" + z
  {
    assert [x, y, z][1..] == [y, z] && [y, z][1..] == [z];
    assert Join([y, z]) == y + ":" + z;
    assert x + ":" + (y + ":" + z) == x + ":" + y + ":" + z;
  }

  // ---- One transaction --------------------------------------------------------------------

  function LineDecoder(h: Hashing, chainId: int, signature: string): (d: Decoder<Emitted>) {
    (payload: string, index: nat) => DecodeLine(h, chainId, signature, payload, index)
  }

  /** The deposits of a transaction. */
  function EventsIn(h: Hashing, chainId: int, bridge: Program, signature: string, lines: seq<Line>): (r: seq<Emitted>) {
    ScanFrom(bridge, LineDecoder(h, chainId, signature), Scan([], 0, []), lines).events
  }

  /** Deposits carry the preimages of this signature, for numbers that only grow. */
  ghost predicate Numbered(h: Hashing, signature: string, s: Scan<Emitted>) {
    && (forall i :: 0 <= i < |s.events| ==>
          && s.events[i].index < s.index
          && Base58.ReplayPreimage(signature, s.events[i].index) == Some(s.events[i].preimage)
          && s.events[i].event.txHash == Hex.ToHex(h.sha256(s.events[i].preimage)))
    && (forall i, j :: 0 <= i < j < |s.events| ==> s.events[i].index < s.events[j].index)
  }

  lemma StepNumbers(h: Hashing, chainId: int, bridge: Program, signature: string, s: Scan<Emitted>, line: Line)
    requires Numbered(h, signature, s)
    ensures Numbered(h, signature, Step(bridge, LineDecoder(h, chainId, signature), s, line))
  {}

  lemma {:induction false} ScanNumbers(h: Hashing, chainId: int, bridge: Program, signature: string, s: Scan<Emitted>,
                                       lines: seq<Line>)
    requires Numbered(h, signature, s)
    ensures Numbered(h, signature, ScanFrom(bridge, LineDecoder(h, chainId, signature), s, lines))
    decreases lines
  {
    if lines != [] {
      StepNumbers(h, chainId, bridge, signature, s, lines[0]);
      ScanNumbers(h, chainId, bridge, signature, Step(bridge, LineDecoder(h, chainId, signature), s, lines[0]),
                  lines[1..]);
    }
  }

  /** No two deposits share a preimage: not two of one transaction, and not two of different transactions. */
  lemma PreimagesDiffer(h: Hashing, chainId: int, bridge: Program,
                        a: string, aLines: seq<Line>, i: nat, b: string, bLines: seq<Line>, j: nat)
    requires i < |EventsIn(h, chainId, bridge, a, aLines)| && j < |EventsIn(h, chainId, bridge, b, bLines)|
    ensures EventsIn(h, chainId, bridge, a, aLines)[i].preimage == EventsIn(h, chainId, bridge, b, bLines)[j].preimage
            ==> a == b && (aLines == bLines ==> i == j)
  {
    ScanNumbers(h, chainId, bridge, a, Scan([], 0, []), aLines);
    ScanNumbers(h, chainId, bridge, b, Scan([], 0, []), bLines);
    Base58.ReplayPreimageInjective(a, EventsIn(h, chainId, bridge, a, aLines)[i].index,
                                   b, EventsIn(h, chainId, bridge, b, bLines)[j].index);
  }

  /**
   Two different deposits, of one transaction or of two, are filed under one key only if the digest takes their
   two different preimages for one.
   */
  lemma KeysDifferAsDigestsDo(h: Hashing, chainId: int, bridge: Program,
                              a: string, aLines: seq<Line>, i: nat, b: string, bLines: seq<Line>, j: nat)
    requires i < |EventsIn(h, chainId, bridge, a, aLines)| && j < |EventsIn(h, chainId, bridge, b, bLines)|
    requires a != b || (aLines == bLines && i != j)
    ensures var x, y := EventsIn(h, chainId, bridge, a, aLines)[i], EventsIn(h, chainId, bridge, b, bLines)[j];
            && x.preimage != y.preimage && |x.preimage| == |y.preimage| == 68
            && (KeyOf(x.event) == KeyOf(y.event) ==> h.sha256(x.preimage) == h.sha256(y.preimage))
  {
    var x, y := EventsIn(h, chainId, bridge, a, aLines)[i], EventsIn(h, chainId, bridge, b, bLines)[j];
    ScanNumbers(h, chainId, bridge, a, Scan([], 0, []), aLines);
    ScanNumbers(h, chainId, bridge, b, Scan([], 0, []), bLines);
    PreimagesDiffer(h, chainId, bridge, a, aLines, i, b, bLines, j);
    Base58.ReplayPreimageLayout(a, x.index);
    Base58.ReplayPreimageLayout(b, y.index);
    Hex.ToHexInjective(h.sha256(x.preimage), h.sha256(y.preimage));
  }

  /** The event says what the payload says. */
  predicate Says(e: BridgeEvent, payload: string) { payload == e.target + ":" + e.asset + ":" + e.amount }

  /**
   Every event found in a transaction comes from a bridge_fund line that says it, printed while the bridge
   program had an open invocation, and is filed under the signature and the number of bridge_fund lines before.
   */
  lemma {:induction false} EventsCarryTheirKeys(h: Hashing, chainId: int, bridge: Program, signature: string,
                                                lines: seq<Line>, i: nat) returns (at: nat)
    requires i < |EventsIn(h, chainId, bridge, signature, lines)|
    ensures at < |lines| && lines[at].Fund? && Open(lines[..at], bridge) > 0
    ensures var e := EventsIn(h, chainId, bridge, signature, lines)[i].event;
            Says(e, lines[at].payload) && CarriesKey(h, chainId, signature, FundsIn(lines[..at]), e)
  {
    var n := |lines| - 1;
    assert lines != [];
    var init, line := lines[..n], lines[n];
    assert lines == init + [line];
    AcceptedOnlyWhileBridgeOpen(bridge, LineDecoder(h, chainId, signature), init, line);
    EventsOnlyGrow(h, chainId, bridge, signature, init, line);
    if i < |EventsIn(h, chainId, bridge, signature, init)| {
      at := EventsCarryTheirKeys(h, chainId, bridge, signature, init, i);
      assert lines[..at] == init[..at];
    } else {
      at := n;
      var e := EventsIn(h, chainId, bridge, signature, lines)[i].event;
      LineDecodesIff(h, chainId, signature, line.payload, FundsIn(init), e.target, e.asset, e.amount);
    }
  }

  lemma EventsOnlyGrow(h: Hashing, chainId: int, bridge: Program, signature: string, lines: seq<Line>, line: Line)
    ensures var before := EventsIn(h, chainId, bridge, signature, lines);
            var after := EventsIn(h, chainId, bridge, signature, lines + [line]);
            before <= after && |after| <= |before| + 1
  {
    var decode := LineDecoder(h, chainId, signature);
    ScanAppend(bridge, decode, Scan([], 0, []), lines, [line]);
    ScanOne(bridge, decode, ScanFrom(bridge, decode, Scan([], 0, []), lines), line);
  }

  // ---- Many transactions ------------------------------------------------------------------

  /** Processing a signature: its log lines, if the RPC gives them, scanned for deposits. */
  function Fetcher(h: Hashing, chainId: int, bridge: Program, logs: Backfill.Signature -> Option<seq<Line>>):
    (f: Backfill.Fetch<Emitted>)
  {
    (signature: Backfill.Signature) =>
      match logs(signature)
      case None => None
      case Some(lines) => Some(EventsIn(h, chainId, bridge, signature.text, lines))
  }

  ghost predicate DistinctPreimages(events: seq<Emitted>) {
    forall i, j :: 0 <= i < j < |events| ==> events[i].preimage != events[j].preimage
  }

  /** The deposit is one of the listed transactions'. */
  ghost predicate ComesFrom(list: seq<Backfill.Signature>, e: Emitted) {
    exists n :: 0 <= n < |list| && Base58.ReplayPreimage(list[n].text, e.index) == Some(e.preimage)
  }

  lemma ComesFromEarlier(list: seq<Backfill.Signature>, e: Emitted)
    requires list != [] && ComesFrom(list[..|list| - 1], e)
    ensures ComesFrom(list, e)
  {
    var n :| 0 <= n < |list| - 1 && Base58.ReplayPreimage(list[..|list| - 1][n].text, e.index) == Some(e.preimage);
    assert Base58.ReplayPreimage(list[n].text, e.index) == Some(e.preimage);
  }

  /** Deposits from before and from one more transaction stay distinct. */
  lemma AppendDistinctPreimages(h: Hashing, list: seq<Backfill.Signature>, before: seq<Emitted>, next: seq<Emitted>,
                                index: nat)
    requires Backfill.Distinct(list) && list != []
    requires DistinctPreimages(before) && forall e :: e in before ==> ComesFrom(list[..|list| - 1], e)
    requires Numbered(h, list[|list| - 1].text, Scan([], index, next))
    ensures DistinctPreimages(before + next)
    ensures forall e :: e in before + next ==> ComesFrom(list, e)
  {
    var all, last := before + next, list[|list| - 1].text;
    forall i, j | 0 <= i < j < |all| ensures all[i].preimage != all[j].preimage {
      if i < |before| <= j {
        assert before[i] in before;
        var n :|
          && 0 <= n < |list| - 1
          && Base58.ReplayPreimage(list[..|list| - 1][n].text, before[i].index) == Some(before[i].preimage);
        assert list[n] != list[|list| - 1];
        Base58.ReplayPreimageInjective(list[n].text, before[i].index, last, next[j - |before|].index);
      } else if |before| <= i {
        Base58.ReplayPreimageInjective(last, next[i - |before|].index, last, next[j - |before|].index);
      }
    }
    forall e | e in all ensures ComesFrom(list, e) {
      if e in before {
        ComesFromEarlier(list, e);
      } else {
        assert Base58.ReplayPreimage(list[|list| - 1].text, e.index) == Some(e.preimage);
      }
    }
  }

  /** The deposits of distinct transactions have distinct preimages. */
  lemma {:induction false} DepositsHaveDistinctPreimages(h: Hashing, chainId: int, bridge: Program,
                                                         logs: Backfill.Signature -> Option<seq<Line>>,
                                                         list: seq<Backfill.Signature>)
    requires Backfill.Distinct(list)
    ensures DistinctPreimages(Backfill.DepositsOf(list, Fetcher(h, chainId, bridge, logs)))
    ensures forall e :: e in Backfill.DepositsOf(list, Fetcher(h, chainId, bridge, logs)) ==> ComesFrom(list, e)
  {
    if list != [] {
      var init, last := list[..|list| - 1], list[|list| - 1];
      var fetch := Fetcher(h, chainId, bridge, logs);
      DepositsHaveDistinctPreimages(h, chainId, bridge, logs, init);
      var next := if fetch(last).Some? then fetch(last).value else [];
      var index := 0;
      if logs(last).Some? {
        ScanNumbers(h, chainId, bridge, last.text, Scan([], 0, []), logs(last).value);
        index := ScanFrom(bridge, LineDecoder(h, chainId, last.text), Scan([], 0, []), logs(last).value).index;
      }
      AppendDistinctPreimages(h, list, Backfill.DepositsOf(init, fetch), next, index);
    }
  }

  /**
   However often backfills stop between two transactions, as errors make them do, and are resumed while the
   chain grows, they hand over no replay key preimage twice; once the last one runs through, they have
   handed over exactly the deposits after the first checkpoint, in chronological order.
   */
  lemma BackfillsDeliverOnce(h: Hashing, chainId: int, bridge: Program, logs: Backfill.Signature -> Option<seq<Line>>,
                             hs: seq<seq<Backfill.Signature>>, stops: seq<nat>, checkpoint: Backfill.Signature)
    requires |hs| == |stops| && hs != [] && Backfill.Growing(hs) && checkpoint in hs[0]
    ensures var fetch, last := Fetcher(h, chainId, bridge, logs), hs[|hs| - 1];
            var delivered := Backfill.DepositsOf(Backfill.Recorded(hs, stops, checkpoint), fetch);
            && DistinctPreimages(delivered)
            && (stops[|stops| - 1] >= |last| ==>
                  delivered == Backfill.DepositsOf(Backfill.After(last, checkpoint), fetch))
  {
    var last := hs[|hs| - 1];
    Backfill.BackfillsLeaveNoGap(hs, stops, checkpoint);
    Backfill.AfterIsDistinct(last, checkpoint);
    DepositsHaveDistinctPreimages(h, chainId, bridge, logs, Backfill.Recorded(hs, stops, checkpoint));
  }

  // ---- Backfills that are killed in the middle of a transaction ---------------------------

  /** A chain of transactions: its signatures, oldest first, and their log lines. */
  datatype Ledger = Ledger(signatures: seq<Backfill.Signature>, logs: Backfill.Signature -> seq<Line>)

  function EventsAt(h: Hashing, chainId: int, bridge: Program, ledger: Ledger, at: nat): (r: seq<Emitted>) {
    if at < |ledger.signatures| then
      EventsIn(h, chainId, bridge, ledger.signatures[at].text, ledger.logs(ledger.signatures[at]))
    else []
  }

  /** How many deposits each transaction of the chain has. */
  function Counts(h: Hashing, chainId: int, bridge: Program, ledger: Ledger): (c: BackfillRuns.Chain) {
    BackfillRuns.Chain(
      seq(|ledger.signatures|, at requires 0 <= at < |ledger.signatures| => |EventsAt(h, chainId, bridge, ledger, at)|))
  }

  function DepositAt(h: Hashing, chainId: int, bridge: Program, ledger: Ledger, x: BackfillRuns.Item): (e: Emitted)
    requires BackfillRuns.Real(Counts(h, chainId, bridge, ledger), x)
  {
    EventsAt(h, chainId, bridge, ledger, x.at)[x.k]
  }

  /** The deposits of a chain are told apart by their preimages. */
  lemma PreimagesNameDeposits(h: Hashing, chainId: int, bridge: Program, ledger: Ledger, x: BackfillRuns.Item,
                              y: BackfillRuns.Item)
    requires Backfill.Distinct(ledger.signatures)
    requires BackfillRuns.Real(Counts(h, chainId, bridge, ledger), x) &&
             BackfillRuns.Real(Counts(h, chainId, bridge, ledger), y)
    ensures x == y <==>
            DepositAt(h, chainId, bridge, ledger, x).preimage == DepositAt(h, chainId, bridge, ledger, y).preimage
  {
    var a, b := ledger.signatures[x.at], ledger.signatures[y.at];
    PreimagesDiffer(h, chainId, bridge, a.text, ledger.logs(a), x.k, b.text, ledger.logs(b), y.k);
  }

  /** Some preimage is handed over at two different moments. */
  ghost predicate HandedTwice(h: Hashing, chainId: int, bridge: Program, ledger: Ledger, handed: seq<BackfillRuns.Item>,
                              preimage: seq<byte>)
    requires forall i :: 0 <= i < |handed| ==> BackfillRuns.Real(Counts(h, chainId, bridge, ledger), handed[i])
  {
    exists m, n :: 0 <= m < n < |handed|
      && DepositAt(h, chainId, bridge, ledger, handed[m]).preimage == preimage
      && DepositAt(h, chainId, bridge, ledger, handed[n]).preimage == preimage
  }

  lemma {:induction false} CountOfPositions(s: seq<BackfillRuns.Item>, x: BackfillRuns.Item)
    ensures multiset(s)[x] >= 1 <==> x in s
    ensures multiset(s)[x] >= 2 <==> exists m, n :: 0 <= m < n < |s| && s[m] == x && s[n] == x
  {
    if s != [] {
      var init, last := s[..|s| - 1], s[|s| - 1];
      assert s == init + [last];
      CountOfPositions(init, x);
      if last == x && x in init {
        var m :| 0 <= m < |init| && init[m] == x;
        assert s[m] == x && s[|s| - 1] == x;
      }
      if multiset(init)[x] >= 2 {
        var m, n :| 0 <= m < n < |init| && init[m] == x && init[n] == x;
        assert s[m] == x && s[n] == x;
      }
      if m, n :| 0 <= m < n < |s| && s[m] == x && s[n] == x {
        assert init[m] == x;
        if n < |init| { assert init[n] == x; }
      }
    }
  }

  lemma HandedTwiceIsCounted(h: Hashing, chainId: int, bridge: Program, ledger: Ledger, handed: seq<BackfillRuns.Item>,
                             x: BackfillRuns.Item)
    requires Backfill.Distinct(ledger.signatures) && BackfillRuns.Real(Counts(h, chainId, bridge, ledger), x)
    requires forall i :: 0 <= i < |handed| ==> BackfillRuns.Real(Counts(h, chainId, bridge, ledger), handed[i])
    ensures multiset(handed)[x] >= 2 <==>
            HandedTwice(h, chainId, bridge, ledger, handed, DepositAt(h, chainId, bridge, ledger, x).preimage)
  {
    CountOfPositions(handed, x);
    forall i | 0 <= i < |handed|
      ensures handed[i] == x <==>
              DepositAt(h, chainId, bridge, ledger, handed[i]).preimage ==
              DepositAt(h, chainId, bridge, ledger, x).preimage
    {
      PreimagesNameDeposits(h, chainId, bridge, ledger, handed[i], x);
    }
  }

  /**
   In every run of backfills without overlaps or notifications, kills and failures at any moment, a replay key
   preimage is handed over twice if and only if the process was killed with its signature in progress and
   that deposit already handed over, and a later backfill came past it.
   */
  lemma PreimageAgainIffKilledAfter(h: Hashing, chainId: int, bridge: Program, ledger: Ledger, start: nat,
                                    states: seq<BackfillRuns.State>, steps: seq<BackfillRuns.Step>, i: nat,
                                    x: BackfillRuns.Item)
    requires Backfill.Distinct(ledger.signatures) && BackfillRuns.Real(Counts(h, chainId, bridge, ledger), x)
    requires BackfillRuns.AloneRun(Counts(h, chainId, bridge, ledger), start, states, steps) && i < |states|
    ensures forall n :: 0 <= n < |states[i].handed| ==>
              BackfillRuns.Real(Counts(h, chainId, bridge, ledger), states[i].handed[n])
    ensures var jobs := states[i].jobs;
            var preimage := DepositAt(h, chainId, bridge, ledger, x).preimage;
            HandedTwice(h, chainId, bridge, ledger, states[i].handed, preimage) <==>
            exists j, l ::
              0 <= j < l < |jobs| && BackfillRuns.KilledAfter(jobs[j], x) && BackfillRuns.Passed(jobs[l], x)
  {
    var count := Counts(h, chainId, bridge, ledger);
    BackfillRuns.RunIsOk(count, start, states, steps, i);
    HandedTwiceIsCounted(h, chainId, bridge, ledger, states[i].handed, x);
    BackfillRuns.HandedAgainIffKilledAfter(count, start, states, steps, i, x);
  }

  // ---- The listener's replay is a backfill that nothing interrupts ------------------------

  /** The deposits that items stand for. */
  function DepositsAt(h: Hashing, chainId: int, bridge: Program, ledger: Ledger,
                      items: seq<BackfillRuns.Item>): (r: seq<Emitted>)
    requires forall i :: 0 <= i < |items| ==> BackfillRuns.Real(Counts(h, chainId, bridge, ledger), items[i])
    ensures |r| == |items|
  {
    seq(|items|, i requires 0 <= i < |items| => DepositAt(h, chainId, bridge, ledger, items[i]))
  }

  lemma DepositsAtAppend(h: Hashing, chainId: int, bridge: Program, ledger: Ledger, a: seq<BackfillRuns.Item>,
                         b: seq<BackfillRuns.Item>)
    requires forall i :: 0 <= i < |a| ==> BackfillRuns.Real(Counts(h, chainId, bridge, ledger), a[i])
    requires forall i :: 0 <= i < |b| ==> BackfillRuns.Real(Counts(h, chainId, bridge, ledger), b[i])
    ensures forall i :: 0 <= i < |a + b| ==> BackfillRuns.Real(Counts(h, chainId, bridge, ledger), (a + b)[i])
    ensures DepositsAt(h, chainId, bridge, ledger, a + b) ==
            DepositsAt(h, chainId, bridge, ledger, a) + DepositsAt(h, chainId, bridge, ledger, b)
  {}

  lemma DepositsOfOne(h: Hashing, chainId: int, bridge: Program, ledger: Ledger, at: nat)
    ensures var items := BackfillRuns.ItemsOf(at, 0, BackfillRuns.CountAt(Counts(h, chainId, bridge, ledger), at));
            && (forall i :: 0 <= i < |items| ==> BackfillRuns.Real(Counts(h, chainId, bridge, ledger), items[i]))
            && DepositsAt(h, chainId, bridge, ledger, items) == EventsAt(h, chainId, bridge, ledger, at)
  {}

  function LedgerFetcher(h: Hashing, chainId: int, bridge: Program, ledger: Ledger): (f: Backfill.Fetch<Emitted>) {
    Fetcher(h, chainId, bridge, s => Some(ledger.logs(s)))
  }

  /** `items` are real, and stand for `deposits`. */
  ghost predicate StandFor(h: Hashing, chainId: int, bridge: Program, ledger: Ledger, items: seq<BackfillRuns.Item>,
                           deposits: seq<Emitted>) {
    && (forall i :: 0 <= i < |items| ==> BackfillRuns.Real(Counts(h, chainId, bridge, ledger), items[i]))
    && DepositsAt(h, chainId, bridge, ledger, items) == deposits
  }

  lemma StandForMore(h: Hashing, chainId: int, bridge: Program, ledger: Ledger, items: seq<BackfillRuns.Item>,
                     deposits: seq<Emitted>, at: nat)
    requires StandFor(h, chainId, bridge, ledger, items, deposits)
    ensures var count := Counts(h, chainId, bridge, ledger);
            StandFor(h, chainId, bridge, ledger, items + BackfillRuns.ItemsOf(at, 0, BackfillRuns.CountAt(count, at)),
                     deposits + EventsAt(h, chainId, bridge, ledger, at))
  {
    DepositsOfOne(h, chainId, bridge, ledger, at);
    var count := Counts(h, chainId, bridge, ledger);
    DepositsAtAppend(h, chainId, bridge, ledger, items, BackfillRuns.ItemsOf(at, 0, BackfillRuns.CountAt(count, at)));
  }

  /** The deposits of the transactions `from .. end`. */
  function DepositsBetween(h: Hashing, chainId: int, bridge: Program, ledger: Ledger, from: nat,
                           end: nat): (r: seq<Emitted>)
    requires from <= end
    decreases end
  {
    if from == end then []
    else
      DepositsBetween(h, chainId, bridge, ledger, from, end - 1) + EventsAt(h, chainId, bridge, ledger, end - 1)
  }

  /** They are what `Replay` hands over for a list of these signatures. */
  lemma {:induction false} FetchedBetween(h: Hashing, chainId: int, bridge: Program, ledger: Ledger, from: nat,
                                          list: seq<Backfill.Signature>)
    requires from + |list| <= |ledger.signatures|
    requires forall i :: 0 <= i < |list| ==> list[i] == ledger.signatures[from + i]
    ensures Backfill.DepositsOf(list, LedgerFetcher(h, chainId, bridge, ledger)) ==
            DepositsBetween(h, chainId, bridge, ledger, from, from + |list|)
  {
    if list != [] { FetchedBetween(h, chainId, bridge, ledger, from, list[..|list| - 1]); }
  }

  /** And they are what the items of an undisturbed backfill over these signatures stand for. */
  lemma {:induction false} ItemsAreDeposits(h: Hashing, chainId: int, bridge: Program, ledger: Ledger, from: nat,
                                            end: nat)
    requires from <= end
    ensures StandFor(h, chainId, bridge, ledger,
                     BackfillRuns.ItemsBetween(Counts(h, chainId, bridge, ledger), from, end),
                     DepositsBetween(h, chainId, bridge, ledger, from, end))
    decreases end
  {
    var count := Counts(h, chainId, bridge, ledger);
    if from == end {
      assert BackfillRuns.ItemsBetween(count, from, end) == [];
    } else {
      var at := end - 1;
      var items := BackfillRuns.ItemsBetween(count, from, at);
      var deposits := DepositsBetween(h, chainId, bridge, ledger, from, at);
      ItemsAreDeposits(h, chainId, bridge, ledger, from, at);
      StandForMore(h, chainId, bridge, ledger, items, deposits, at);
      assert BackfillRuns.ItemsBetween(count, from, end) ==
             items + BackfillRuns.ItemsOf(at, 0, BackfillRuns.CountAt(count, at));
    }
  }
}
