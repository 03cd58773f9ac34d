/** The relayer's two persistent stores: the nonce store and the dead-letter queue. */
module Stores {
  import opened Prelude
  import Numerals

  /** A source-chain event as a listener emits it. */
  datatype BridgeEvent = BridgeEvent(chainId: int, txHash: string, target: string, asset: string, amount: string)

  /** The replay key of an event. */
  datatype Key = Key(chainId: int, txHash: string)

  function KeyOf(event: BridgeEvent): (k: Key) { Key(event.chainId, event.txHash) }

  datatype Reason = InsufficientSigners | SubmissionFailed(message: string) | ProcessingFailed

  /** `attempts` is 0 for a persisted row that carries no attempt count. */
  datatype DeadLetterEntry = DeadLetterEntry(
    event: BridgeEvent,
    enqueuedAt: int,
    availableSigners: nat,
    requiredSigners: nat,
    reason: Reason,
    attempts: nat,
    nextRetryAt: int,
    terminal: bool)

  // ---- Replay keys as strings -------------------------------------------------------------

  predicate AllDecimal(s: string) { forall i :: 0 <= i < |s| ==> '0' <= s[i] <= '9' }

  function DigitText(digits: seq<nat>): (s: string)
    requires Numerals.InBase(10, digits)
    ensures |s| == |digits| && AllDecimal(s)
  {
    seq(|digits|, i requires 0 <= i < |digits| => (digits[i] + '0' as nat) as char)
  }

  /** The numeric value of a decimal text; leading zeros do not matter. */
  function Amount(s: string): (n: nat)
    requires AllDecimal(s)
  {
    Numerals.Val(10, seq(|s|, i requires 0 <= i < |s| => s[i] as nat - '0' as nat))
  }

  function NatText(n: nat): (s: string)
    ensures AllDecimal(s) && s != ""
  {
    if n == 0 then "0" else DigitText(Numerals.Digits(10, n))
  }

  /** The decimal text of an integer. */
  function Decimal(n: int): (s: string)
    ensures ':' !in s && s != ""
    ensures n >= 0 ==> AllDecimal(s)
  {
    if n < 0 then "-" + NatText(-n) else NatText(n)
  }

  /** The string under which the nonce store and the in-flight map file an event. */
  function KeyString(k: Key): (s: string) { Decimal(k.chainId) + ":" + k.txHash }

  lemma AmountOfText(digits: seq<nat>)
    requires Numerals.InBase(10, digits)
    ensures Amount(DigitText(digits)) == Numerals.Val(10, digits)
  {
    var s := DigitText(digits);
    assert seq(|s|, i requires 0 <= i < |s| => s[i] as nat - '0' as nat) == digits;
  }

  /** A number is the value of its text. */
  lemma DecimalAmount(n: nat)
    ensures Amount(NatText(n)) == n
  {
    if n == 0 {
      assert "0" == DigitText([0]);
      AmountOfText([0]);
      assert Numerals.Val(10, [0]) == Numerals.Val(10, [0][..0]) * 10;
    } else {
      AmountOfText(Numerals.Digits(10, n));
      Numerals.ValOfDigits(10, n);
    }
  }

  lemma NatTextInjective(m: nat, n: nat)
    requires NatText(m) == NatText(n)
    ensures m == n
  {
    DecimalAmount(m);
    DecimalAmount(n);
  }

  /** A sign is no digit, so texts with and without one differ. */
  lemma SignedTexts(a: string, b: string)
    requires a != "" && AllDecimal(a) && AllDecimal(b)
    ensures a != "-" + b && ("-" + b)[1..] == b
  {
    assert a[0] != ("-" + b)[0];
  }

  lemma DecimalInjective(m: int, n: int)
    requires Decimal(m) == Decimal(n)
    ensures m == n
  {
    var a: nat, b: nat := if m < 0 then -m else m, if n < 0 then -n else n;
    SignedTexts(NatText(a), NatText(b));
    SignedTexts(NatText(b), NatText(a));
    assert NatText(a) == NatText(b);
    NatTextInjective(a, b);
  }

  /** What stands before the first colon, and what stands behind it, can be told apart. */
  lemma SplitAtColon(x: string, s: string, y: string, t: string)
    requires x + ":" + s == y + ":" + t && ':' !in x && ':' !in y
    ensures x == y && s == t
  {
    var u, v := x + ":" + s, y + ":" + t;
    assert u[|x|] == ':' && v[|y|] == ':';
    assert u[..|x|] == x && v[..|y|] == y;
    assert u[|x| + 1..] == s && v[|y| + 1..] == t;
  }

  /** Two events share a key string exactly when they share chain id and transaction hash. */
  lemma KeyStringInjective(a: Key, b: Key)
    ensures KeyString(a) == KeyString(b) <==> a == b
  {
    if KeyString(a) == KeyString(b) {
      SplitAtColon(Decimal(a.chainId), a.txHash, Decimal(b.chainId), b.txHash);
      DecimalInjective(a.chainId, b.chainId);
    }
  }

  /** The text of a number has no leading zero. */
  lemma NoLeadingZero(n: nat)
    ensures NatText(n) == "0" || NatText(n)[0] != '0'
  {}

  /** A key string is the chain id in decimal, a colon, and the hash. */
  lemma KeyStringReads(k: Key) returns (text: string)
    requires k.chainId >= 0
    ensures KeyString(k) == text + ":" + k.txHash
    ensures AllDecimal(text) && Amount(text) == k.chainId && (text == "0" || text[0] != '0')
  {
    text := NatText(k.chainId);
    DecimalAmount(k.chainId);
    NoLeadingZero(k.chainId);
  }

  // ---- Dead-letter rows ------------------------------------------------------------------

  /** The delay before attempt number `attempts + 1`: one minute doubled per attempt, at most one hour. */
  function Backoff(attempts: nat): (ms: int)
    requires attempts >= 1
    ensures 60_000 <= ms <= 3_600_000
  {
    Numerals.PowPositive(2, attempts - 1);
    var delay := 60_000 * Numerals.Pow(2, attempts - 1);
    if delay < 3_600_000 then delay else 3_600_000
  }

  function Without(entries: seq<DeadLetterEntry>, k: Key): (r: seq<DeadLetterEntry>) {
    Filter(entries, (e: DeadLetterEntry) => KeyOf(e.event) != k)
  }

  /** The attempt count of the first row for `k`, 0 when there is none. */
  function Attempts(entries: seq<DeadLetterEntry>, k: Key): (n: nat) {
    if entries == [] then 0
    else if KeyOf(entries[0].event) == k then entries[0].attempts
    else Attempts(entries[1..], k)
  }

  function Enqueued(entries: seq<DeadLetterEntry>, event: BridgeEvent, available: nat, required: nat,
                    reason: Reason, terminal: bool, now: int): (r: seq<DeadLetterEntry>)
  {
    var attempts := Attempts(entries, KeyOf(event)) + 1;
    Without(entries, KeyOf(event)) +
    [DeadLetterEntry(event, now, available, required, reason, attempts, now + Backoff(attempts), terminal)]
  }

  function Queued(entries: seq<DeadLetterEntry>): (r: set<Key>) {
    set e | e in entries :: KeyOf(e.event)
  }

  /** No two rows for one key. */
  predicate OneRowPerKey(entries: seq<DeadLetterEntry>) {
    forall i, j :: 0 <= i < j < |entries| ==> KeyOf(entries[i].event) != KeyOf(entries[j].event)
  }

  lemma WithoutFacts(entries: seq<DeadLetterEntry>, k: Key)
    ensures Queued(Without(entries, k)) == Queued(entries) - {k}
    ensures forall e :: e in Without(entries, k) <==> e in entries && KeyOf(e.event) != k
  {
    var keep := (e: DeadLetterEntry) => KeyOf(e.event) != k;
    forall e ensures e in Without(entries, k) <==> e in entries && KeyOf(e.event) != k {
      FilterMembers(entries, keep, e);
    }
  }

  lemma {:induction false} WithoutKeepsOneRow(entries: seq<DeadLetterEntry>, k: Key)
    requires OneRowPerKey(entries)
    ensures OneRowPerKey(Without(entries, k))
  {
    if entries != [] {
      var rest := entries[1..];
      WithoutKeepsOneRow(rest, k);
      WithoutFacts(rest, k);
      var kept := Without(rest, k);
      forall i | 0 <= i < |kept| ensures KeyOf(kept[i].event) != KeyOf(entries[0].event) {
        assert kept[i] in rest;
      }
    }
  }

  lemma {:induction false} AttemptsOfRow(entries: seq<DeadLetterEntry>, e: DeadLetterEntry)
    requires OneRowPerKey(entries) && e in entries
    ensures Attempts(entries, KeyOf(e.event)) == e.attempts
  {
    if entries[0] != e {
      assert e in entries[1..];
      AttemptsOfRow(entries[1..], e);
    }
  }

  lemma {:induction false} AttemptsElsewhere(entries: seq<DeadLetterEntry>, k: Key, other: Key)
    ensures Attempts(Without(entries, k), other) == if other == k then 0 else Attempts(entries, other)
  {
    if entries != [] {
      AttemptsElsewhere(entries[1..], k, other);
      var rest := Without(entries[1..], k);
      if KeyOf(entries[0].event) != k {
        assert ([entries[0]] + rest)[1..] == rest;
      } else {
        assert Without(entries, k) == rest;
      }
    }
  }

  lemma {:induction false} AttemptsAppend(a: seq<DeadLetterEntry>, b: DeadLetterEntry, k: Key)
    ensures Attempts(a + [b], k) ==
            if k in Queued(a) then Attempts(a, k) else if KeyOf(b.event) == k then b.attempts else 0
  {
    if a == [] {
      assert a + [b] == [b];
    } else {
      assert (a + [b])[1..] == a[1..] + [b];
      AttemptsAppend(a[1..], b, k);
      assert forall e :: e in a <==> e == a[0] || e in a[1..];
    }
  }

  lemma {:induction false} AttemptsUnqueued(entries: seq<DeadLetterEntry>, k: Key)
    requires k !in Queued(entries)
    ensures Attempts(entries, k) == 0
  {
    if entries != [] {
      assert entries[0] in entries;
      assert forall e :: e in entries[1..] ==> e in entries;
      AttemptsUnqueued(entries[1..], k);
    }
  }

  /** What `enqueue` does to the queue, key by key. */
  lemma EnqueuedFacts(entries: seq<DeadLetterEntry>, event: BridgeEvent, available: nat, required: nat,
                      reason: Reason, terminal: bool, now: int)
    ensures var r := Enqueued(entries, event, available, required, reason, terminal, now);
            && Queued(r) == Queued(entries) + {KeyOf(event)}
            && (OneRowPerKey(entries) ==> OneRowPerKey(r))
            && Attempts(r, KeyOf(event)) == Attempts(entries, KeyOf(event)) + 1
            && (forall k :: k != KeyOf(event) ==> Attempts(r, k) == Attempts(entries, k))
  {
    var k := KeyOf(event);
    var kept := Without(entries, k);
    var r := Enqueued(entries, event, available, required, reason, terminal, now);
    WithoutFacts(entries, k);
    assert r[|kept|] in r && forall i :: 0 <= i < |kept| ==> r[i] == kept[i];
    assert forall e :: e in r <==> e in kept || e == r[|kept|];
    if OneRowPerKey(entries) {
      WithoutKeepsOneRow(entries, k);
      assert forall i :: 0 <= i < |kept| ==> kept[i] in kept;
    }
    forall other
      ensures Attempts(r, other) == if other == k then Attempts(entries, k) + 1 else Attempts(entries, other)
    {
      AttemptsAppend(kept, r[|kept|], other);
      AttemptsElsewhere(entries, k, other);
      if other !in Queued(entries) { AttemptsUnqueued(entries, other); }
    }
  }

  /** A queue that differs from `dlq` in one more attempt for `k`, and nothing else. */
  ghost predicate OneMoreAttempt(dlq: seq<DeadLetterEntry>, dlq': seq<DeadLetterEntry>, k: Key) {
    && (OneRowPerKey(dlq) ==> OneRowPerKey(dlq'))
    && Queued(dlq') == Queued(dlq) + {k}
    && forall other :: Attempts(dlq', other) == Attempts(dlq, other) + if other == k then 1 else 0
  }

  /** A queue that differs from `dlq` in having no row for `k`. */
  ghost predicate RowDropped(dlq: seq<DeadLetterEntry>, dlq': seq<DeadLetterEntry>, k: Key) {
    && (OneRowPerKey(dlq) ==> OneRowPerKey(dlq'))
    && Queued(dlq') == Queued(dlq) - {k}
    && forall other :: other != k ==> Attempts(dlq', other) == Attempts(dlq, other)
  }

  lemma EnqueuedIsOneMoreAttempt(entries: seq<DeadLetterEntry>, event: BridgeEvent, available: nat, required: nat,
                                 reason: Reason, terminal: bool, now: int)
    ensures OneMoreAttempt(entries, Enqueued(entries, event, available, required, reason, terminal, now), KeyOf(event))
  {
    EnqueuedFacts(entries, event, available, required, reason, terminal, now);
  }

  lemma WithoutIsRowDropped(entries: seq<DeadLetterEntry>, k: Key)
    ensures RowDropped(entries, Without(entries, k), k)
  {
    WithoutFacts(entries, k);
    forall other ensures other != k ==> Attempts(Without(entries, k), other) == Attempts(entries, other) {
      AttemptsElsewhere(entries, k, other);
    }
    if OneRowPerKey(entries) { WithoutKeepsOneRow(entries, k); }
  }

  // ---- The stores as the service holds them -----------------------------------------------

  /** `NonceStore`, without the file behind it. Keys are filed under their strings. */
  class NonceStore {
    var seen: set<string>

    constructor (loaded: seq<string>)
      ensures seen == set s | s in loaded
    {
      seen := set s | s in loaded;
    }

    /** The keys the store answers for. */
    ghost predicate Holds(keys: set<Key>)
      reads this
    {
      forall k :: k in keys <==> KeyString(k) in seen
    }

    method Has(k: Key) returns (found: bool)
      ensures forall keys :: Holds(keys) ==> (found <==> k in keys)
    {
      found := KeyString(k) in seen;
    }

    /** Marks `k` and no other key. */
    method Mark(k: Key)
      modifies this
      ensures seen == old(seen) + {KeyString(k)}
      ensures forall keys :: old(Holds(keys)) ==> Holds(keys + {k})
    {
      seen := seen + {KeyString(k)};
      forall other ensures KeyString(other) == KeyString(k) <==> other == k {
        KeyStringInjective(other, k);
      }
    }
  }

  /** `DeadLetterQueue`, without the file behind it. */
  class DeadLetterQueue {
    var entries: seq<DeadLetterEntry>

    constructor (loaded: seq<DeadLetterEntry>)
      ensures entries == loaded
    {
      entries := loaded;
    }

    method Remove(chainId: int, txHash: string)
      modifies this
      ensures entries == Without(old(entries), Key(chainId, txHash))
      ensures Queued(entries) == old(Queued(entries)) - {Key(chainId, txHash)}
      ensures old(OneRowPerKey(entries)) ==> OneRowPerKey(entries)
    {
      var k := Key(chainId, txHash);
      var kept: seq<DeadLetterEntry> := [];
      ghost var keep := (e: DeadLetterEntry) => KeyOf(e.event) != k;
      for i := 0 to |entries|
        invariant entries == old(entries)
        invariant kept == Without(entries[..i], k)
      {
        assert entries[..i + 1] == entries[..i] + [entries[i]];
        FilterAppend(entries[..i], [entries[i]], keep);
        if !(entries[i].event.chainId == chainId && entries[i].event.txHash == txHash) {
          kept := kept + [entries[i]];
        }
      }
      assert entries[..|entries|] == entries;
      WithoutFacts(entries, k);
      if OneRowPerKey(entries) { WithoutKeepsOneRow(entries, k); }
      entries := kept;
    }

    /** Replaces any row for the event by one with the next attempt number. */
    method Enqueue(event: BridgeEvent, available: nat, required: nat, reason: Reason, terminal: bool, now: int)
      modifies this
      ensures entries == Enqueued(old(entries), event, available, required, reason, terminal, now)
      ensures Queued(entries) == old(Queued(entries)) + {KeyOf(event)}
      ensures old(OneRowPerKey(entries)) ==> OneRowPerKey(entries)
      ensures Attempts(entries, KeyOf(event)) == old(Attempts(entries, KeyOf(event))) + 1
      ensures forall k :: k != KeyOf(event) ==> Attempts(entries, k) == old(Attempts(entries, k))
    {
      EnqueuedFacts(entries, event, available, required, reason, terminal, now);
      var previous := Attempts(entries, KeyOf(event));
      var attempts := previous + 1;
      Remove(event.chainId, event.txHash);
      var due := now + Backoff(attempts);
      entries := entries + [DeadLetterEntry(event, now, available, required, reason, attempts, due, terminal)];
    }
  }

  predicate Retriable(e: DeadLetterEntry, now: int) {
    !e.terminal && e.attempts < 5 && e.nextRetryAt <= now
  }

  function DueRows(entries: seq<DeadLetterEntry>, now: int): (r: seq<DeadLetterEntry>) {
    Filter(entries, (e: DeadLetterEntry) => Retriable(e, now))
  }

  /** A sweep snapshot holds exactly the retriable rows, one per key. */
  lemma {:induction false} DueRowsFacts(entries: seq<DeadLetterEntry>, now: int)
    ensures forall e :: e in DueRows(entries, now) <==> e in entries && Retriable(e, now)
    ensures OneRowPerKey(entries) ==> OneRowPerKey(DueRows(entries, now))
  {
    if entries != [] {
      var rest := entries[1..];
      DueRowsFacts(rest, now);
      assert forall e :: e in entries <==> e == entries[0] || e in rest;
      if OneRowPerKey(entries) {
        var kept := DueRows(rest, now);
        forall i | 0 <= i < |kept| ensures KeyOf(kept[i].event) != KeyOf(entries[0].event) {
          assert kept[i] in rest;
        }
      }
    }
  }
}
