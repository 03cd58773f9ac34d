/** Walking the log lines of a Solana transaction with the runtime's invocation stack. */
module Scanner {
  import opened Prelude

  datatype Program = Program(id: string)

  /** A log line, classified: a frame opens, a frame ends, a `bridge_fund` line, or anything else. */
  datatype Line = Invoke(program: Program) | End(program: Program) | Fund(payload: string) | Other

  /** Reads a `bridge_fund` line given its index among all `bridge_fund` lines; `None` rejects it. */
  type Decoder<!E> = (string, nat) -> Option<E>

  // ---- The scan, as a function of the lines read ------------------------------------------

  /** The position of the last `p` in `stack`, or -1. */
  function LastIndexOf(stack: seq<Program>, p: Program): (i: int)
    ensures -1 <= i < |stack|
    ensures i >= 0 ==> stack[i] == p && p !in stack[i + 1..]
    ensures i < 0 ==> p !in stack
  {
    if stack == [] then -1
    else if stack[|stack| - 1] == p then |stack| - 1
    else
      assert forall q :: q in stack ==> q in stack[..|stack| - 1] || q == stack[|stack| - 1];
      LastIndexOf(stack[..|stack| - 1], p)
  }

  function Pop(stack: seq<Program>, p: Program): (r: seq<Program>) {
    var i := LastIndexOf(stack, p);
    if i < 0 then stack else stack[..i] + stack[i + 1..]
  }

  /** What the loop holds between two lines. */
  datatype Scan<E> = Scan(stack: seq<Program>, index: nat, events: seq<E>)

  function Executing(stack: seq<Program>): (p: Option<Program>) {
    if stack == [] then None else Some(stack[|stack| - 1])
  }

  function Step<E>(bridge: Program, decode: Decoder<E>, s: Scan<E>, line: Line): (r: Scan<E>) {
    match line
    case Invoke(p) => s.(stack := s.stack + [p])
    case End(p) => s.(stack := Pop(s.stack, p))
    case Other => s
    case Fund(payload) =>
      var event := if Executing(s.stack) == Some(bridge) then decode(payload, s.index) else None;
      Scan(s.stack, s.index + 1, if event.Some? then s.events + [event.value] else s.events)
  }

  function ScanFrom<E>(bridge: Program, decode: Decoder<E>, s: Scan<E>, lines: seq<Line>): (r: Scan<E>)
    decreases lines
  {
    if lines == [] then s else ScanFrom(bridge, decode, Step(bridge, decode, s, lines[0]), lines[1..])
  }

  lemma {:induction false} ScanAppend<E>(bridge: Program, decode: Decoder<E>, s: Scan<E>, a: seq<Line>, b: seq<Line>)
    ensures ScanFrom(bridge, decode, s, a + b) == ScanFrom(bridge, decode, ScanFrom(bridge, decode, s, a), b)
    decreases a
  {
    if a == [] {
      assert a + b == b;
    } else {
      assert (a + b)[1..] == a[1..] + b;
      ScanAppend(bridge, decode, Step(bridge, decode, s, a[0]), a[1..], b);
    }
  }

  lemma ScanOne<E>(bridge: Program, decode: Decoder<E>, s: Scan<E>, line: Line)
    ensures ScanFrom(bridge, decode, s, [line]) == Step(bridge, decode, s, line)
  {
    assert [line][1..] == [];
  }

  /** `extractBridgeFundEvents`: the loop over the lines, with its mutable stack. */
  method ExtractBridgeFundEvents<E>(bridge: Program, decode: Decoder<E>, lines: seq<Line>) returns (events: seq<E>)
    ensures events == ScanFrom(bridge, decode, Scan([], 0, []), lines).events
  {
    events := [];
    var stack: seq<Program> := [];
    var bridgeFundLineIndex := 0;
    for i := 0 to |lines|
      invariant ScanFrom(bridge, decode, Scan([], 0, []), lines[..i]) == Scan(stack, bridgeFundLineIndex, events)
    {
      assert lines[..i + 1] == lines[..i] + [lines[i]];
      ScanAppend(bridge, decode, Scan([], 0, []), lines[..i], [lines[i]]);
      ScanOne(bridge, decode, Scan(stack, bridgeFundLineIndex, events), lines[i]);
      match lines[i] {
        case Invoke(p) => stack := stack + [p];
        case End(p) =>
          var idx := LastIndexOf(stack, p);
          if idx != -1 { stack := stack[..idx] + stack[idx + 1..]; }
        case Other =>
        case Fund(payload) =>
          var lineIndex := bridgeFundLineIndex;
          bridgeFundLineIndex := bridgeFundLineIndex + 1;
          if |stack| == 0 || stack[|stack| - 1] != bridge { continue; }
          var event := decode(payload, lineIndex);
          if event.Some? { events := events + [event.value]; }
      }
    }
    assert lines[..|lines|] == lines;
  }

  // ---- Properly nested logs ---------------------------------------------------------------

  /** One thing a program does: print a line, or invoke a program that does things of its own. */
  datatype Item = Print(payload: Option<string>) | Call(program: Program, body: Items)

  datatype Items = Nil | Cons(head: Item, tail: Items)

  function PrintedLine(payload: Option<string>): (line: Line) {
    if payload.Some? then Fund(payload.value) else Other
  }

  /** The log of a forest: an invocation is bracketed by its program's invoke and end lines. */
  function LogOf(items: Items): (r: seq<Line>) {
    match items
    case Nil => []
    case Cons(Print(payload), tail) => [PrintedLine(payload)] + LogOf(tail)
    case Cons(Call(p, body), tail) => [Invoke(p)] + LogOf(body) + [End(p)] + LogOf(tail)
  }

  /** The number of `bridge_fund` lines in a forest, accepted or not. */
  function FundLines(items: Items): (n: nat) {
    match items
    case Nil => 0
    case Cons(Print(payload), tail) => (if payload.Some? then 1 else 0) + FundLines(tail)
    case Cons(Call(_, body), tail) => FundLines(body) + FundLines(tail)
  }

  /** The deposits of a forest: the decodable `bridge_fund` lines printed directly by the bridge program. */
  function Deposits<E>(bridge: Program, decode: Decoder<E>, executing: Option<Program>, index: nat,
                       items: Items): (r: seq<E>)
    decreases items
  {
    match items
    case Nil => []
    case Cons(Print(None), tail) => Deposits(bridge, decode, executing, index, tail)
    case Cons(Print(Some(payload)), tail) =>
      var event := if executing == Some(bridge) then decode(payload, index) else None;
      (if event.Some? then [event.value] else []) + Deposits(bridge, decode, executing, index + 1, tail)
    case Cons(Call(p, body), tail) =>
      Deposits(bridge, decode, Some(p), index, body) +
      Deposits(bridge, decode, executing, index + FundLines(body), tail)
  }

  /** Scanning the log of `items` from `s` restores the stack and adds the deposits of `items`. */
  ghost predicate ScansAsDeposits<E>(bridge: Program, decode: Decoder<E>, s: Scan<E>, items: Items) {
    ScanFrom(bridge, decode, s, LogOf(items)) ==
    Scan(s.stack, s.index + FundLines(items), s.events + Deposits(bridge, decode, Executing(s.stack), s.index, items))
  }

  lemma {:induction false} ScanOfForest<E>(bridge: Program, decode: Decoder<E>, s: Scan<E>, items: Items)
    ensures ScansAsDeposits(bridge, decode, s, items)
    decreases items
  {
    match items
    case Nil =>
    case Cons(Print(payload), tail) =>
      ScanOfForest(bridge, decode, Step(bridge, decode, s, PrintedLine(payload)), tail);
      ScanOfPrint(bridge, decode, s, payload, tail);
    case Cons(Call(p, body), tail) =>
      var inside := Deposits(bridge, decode, Some(p), s.index, body);
      var mid := Scan(s.stack, s.index + FundLines(body), s.events + inside);
      ScanOfForest(bridge, decode, s.(stack := s.stack + [p]), body);
      ScanOfForest(bridge, decode, mid, tail);
      ScanOfCall(bridge, decode, s, p, body, tail, LogOf(body), inside, mid);
  }

  lemma ScanOfPrint<E>(bridge: Program, decode: Decoder<E>, s: Scan<E>, payload: Option<string>, tail: Items)
    requires ScansAsDeposits(bridge, decode, Step(bridge, decode, s, PrintedLine(payload)), tail)
    ensures ScansAsDeposits(bridge, decode, s, Cons(Print(payload), tail))
  {
    var line := PrintedLine(payload);
    var next := Step(bridge, decode, s, line);
    ScanAppend(bridge, decode, s, [line], LogOf(tail));
    ScanOne(bridge, decode, s, line);
    var rest := Deposits(bridge, decode, Executing(s.stack), next.index, tail);
    if next.events != s.events { Associate(s.events, [next.events[|s.events|]], rest); }
  }

  lemma ScanOfCall<E>(bridge: Program, decode: Decoder<E>, s: Scan<E>, p: Program, body: Items, tail: Items,
                      log: seq<Line>, inside: seq<E>, mid: Scan<E>)
    requires log == LogOf(body) && inside == Deposits(bridge, decode, Some(p), s.index, body)
    requires mid == Scan(s.stack, s.index + FundLines(body), s.events + inside)
    requires ScanFrom(bridge, decode, s.(stack := s.stack + [p]), log) == mid.(stack := s.stack + [p])
    requires ScansAsDeposits(bridge, decode, mid, tail)
    ensures ScansAsDeposits(bridge, decode, s, Cons(Call(p, body), tail))
  {
    var bracket := [Invoke(p)] + log + [End(p)];
    ScanBracket(bridge, decode, s, p, log, bracket, mid.(stack := s.stack + [p]));
    ScanOfPair(bridge, decode, s, Cons(Call(p, body), tail), bracket, tail, mid, inside);
  }

  /** A log in two parts, whose deposits are those of the parts, is scanned part by part. */
  lemma ScanOfPair<E>(bridge: Program, decode: Decoder<E>, s: Scan<E>, items: Items, first: seq<Line>, tail: Items,
                      mid: Scan<E>, inside: seq<E>)
    requires LogOf(items) == first + LogOf(tail) && mid == ScanFrom(bridge, decode, s, first)
    requires mid.stack == s.stack && mid.events == s.events + inside
    requires s.index + FundLines(items) == mid.index + FundLines(tail)
    requires Deposits(bridge, decode, Executing(s.stack), s.index, items) ==
             inside + Deposits(bridge, decode, Executing(s.stack), mid.index, tail)
    requires ScansAsDeposits(bridge, decode, mid, tail)
    ensures ScansAsDeposits(bridge, decode, s, items)
  {
    ScanAppend(bridge, decode, s, first, LogOf(tail));
    Associate(s.events, inside, Deposits(bridge, decode, Executing(s.stack), mid.index, tail));
  }

  lemma PopPushed(stack: seq<Program>, p: Program)
    ensures Pop(stack + [p], p) == stack
  {
    assert LastIndexOf(stack + [p], p) == |stack|;
  }

  /** A bracketed log is scanned as the log, with its program pushed and then popped again. */
  lemma ScanBracket<E>(bridge: Program, decode: Decoder<E>, s: Scan<E>, p: Program, log: seq<Line>, bracket: seq<Line>,
                       end: Scan<E>)
    requires bracket == [Invoke(p)] + log + [End(p)]
    requires ScanFrom(bridge, decode, s.(stack := s.stack + [p]), log) == end && end.stack == s.stack + [p]
    ensures ScanFrom(bridge, decode, s, bracket) == end.(stack := s.stack)
  {
    ScanAppend(bridge, decode, s, [Invoke(p)] + log, [End(p)]);
    ScanAppend(bridge, decode, s, [Invoke(p)], log);
    ScanOne(bridge, decode, s, Invoke(p));
    ScanOne(bridge, decode, end, End(p));
    PopPushed(s.stack, p);
  }

  /**
   For every properly nested log, the scan emits exactly the decodable `bridge_fund` lines whose
   innermost open frame is the bridge program, in order, each numbered by the `bridge_fund` lines before it.
   */
  lemma ScanFindsTheDeposits<E>(bridge: Program, decode: Decoder<E>, items: Items)
    ensures ScanFrom(bridge, decode, Scan([], 0, []), LogOf(items)).events == Deposits(bridge, decode, None, 0, items)
    ensures ScanFrom(bridge, decode, Scan([], 0, []), LogOf(items)).stack == []
  {
    ScanOfForest(bridge, decode, Scan([], 0, []), items);
  }

  // ---- Arbitrary logs ---------------------------------------------------------------------

  /** The invocations of `p` still open after `lines`: its end lines never take the count below zero. */
  function Open(lines: seq<Line>, p: Program): (n: nat) {
    if lines == [] then 0
    else
      var before, last := Open(lines[..|lines| - 1], p), lines[|lines| - 1];
      if last == Invoke(p) then before + 1
      else if last == End(p) && before > 0 then before - 1
      else before
  }

  function FundsIn(lines: seq<Line>): (n: nat) {
    if lines == [] then 0 else FundsIn(lines[..|lines| - 1]) + if lines[|lines| - 1].Fund? then 1 else 0
  }

  lemma PopCounts(stack: seq<Program>, p: Program, q: Program)
    ensures multiset(Pop(stack, p))[q] ==
            if q == p && multiset(stack)[p] > 0 then multiset(stack)[p] - 1 else multiset(stack)[q]
  {
    var i := LastIndexOf(stack, p);
    if i >= 0 {
      assert stack == stack[..i] + [p] + stack[i + 1..];
    } else {
      assert p !in multiset(stack);
    }
  }

  /** On any log whatever, `p` is on the stack as often as its own invoke and end lines leave it open. */
  lemma {:induction false} StackCountsOpenFrames<E>(bridge: Program, decode: Decoder<E>, lines: seq<Line>, p: Program)
    ensures multiset(ScanFrom(bridge, decode, Scan([], 0, []), lines).stack)[p] == Open(lines, p)
    ensures ScanFrom(bridge, decode, Scan([], 0, []), lines).index == FundsIn(lines)
  {
    if lines != [] {
      var init, last := lines[..|lines| - 1], lines[|lines| - 1];
      var s := ScanFrom(bridge, decode, Scan([], 0, []), init);
      assert lines == init + [last];
      StackCountsOpenFrames(bridge, decode, init, p);
      ScanAppend(bridge, decode, Scan([], 0, []), init, [last]);
      ScanOne(bridge, decode, s, last);
      if last.End? { PopCounts(s.stack, last.program, p); }
    }
  }

  /** On any log whatever, a line is accepted only while the bridge program has an open invocation. */
  lemma AcceptedOnlyWhileBridgeOpen<E>(bridge: Program, decode: Decoder<E>, lines: seq<Line>, line: Line)
    ensures var before := ScanFrom(bridge, decode, Scan([], 0, []), lines).events;
            var after := ScanFrom(bridge, decode, Scan([], 0, []), lines + [line]).events;
            after != before ==>
              && line.Fund? && Open(lines, bridge) > 0
              && decode(line.payload, FundsIn(lines)).Some?
              && after == before + [decode(line.payload, FundsIn(lines)).value]
  {
    var s := ScanFrom(bridge, decode, Scan([], 0, []), lines);
    ScanAppend(bridge, decode, Scan([], 0, []), lines, [line]);
    ScanOne(bridge, decode, s, line);
    StackCountsOpenFrames(bridge, decode, lines, bridge);
    assert s.stack != [] ==> s.stack[|s.stack| - 1] in multiset(s.stack);
  }
}
