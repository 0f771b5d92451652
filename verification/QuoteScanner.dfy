/** Finding the string literals on a line, so as to tell whether a position is inside one. */
module QuoteScanner {

  datatype Span = Span(start: nat, end: nat)

  predicate IsQuote(c: char) {
    c == '"' || c == '\''
  }

  // ----------------------------------------------- the reference automaton

  /** Where a left-to-right reader is: outside, or in a literal that began at `start`, perhaps just after a backslash. */
  datatype Mode = Outside | Open(quote: char, start: nat) | Escaping(quote: char, start: nat)

  function Advance(mode: Mode, c: char, at: nat): Mode {
    match mode
    case Outside => if IsQuote(c) then Open(c, at) else Outside
    case Open(quote, start) => if c == '\\' then Escaping(quote, start) else if c == quote then Outside else mode
    case Escaping(quote, start) => Open(quote, start)
  }

  /** The mode on reaching position `p`. */
  function ModeAt(line: string, p: nat): Mode
    requires p <= |line|
  {
    if p == 0 then Outside else Advance(ModeAt(line, p - 1), line[p - 1], p - 1)
  }

  /** The literals that ended before position `p`. */
  function Closed(line: string, p: nat): seq<Span>
    requires p <= |line|
  {
    if p == 0 then []
    else
      var mode := ModeAt(line, p - 1);
      if mode.Open? && line[p - 1] == mode.quote then Closed(line, p - 1) + [Span(mode.start, p)] else Closed(line, p - 1)
  }

  /** The literals of the line; one that is not closed ends with the line, or one past it after a dangling backslash. */
  function Literals(line: string): seq<Span> {
    Closed(line, |line|) +
    match ModeAt(line, |line|)
    case Outside => []
    case Open(_, start) => [Span(start, |line|)]
    case Escaping(_, start) => [Span(start, |line| + 1)]
  }

  // ------------------------------------------------------------ the scanner

  method StringSpans(line: string) returns (spans: seq<Span>)
    ensures spans == Literals(line)
  {
    spans := [];
    var index := 0;
    while index < |line|
      invariant (index <= |line| && ModeAt(line, index) == Outside && spans == Closed(line, index))
        || (index >= |line| && spans == Literals(line))
      decreases |line| + 1 - index
    {
      if !IsQuote(line[index]) {
        index := index + 1;
        continue;
      }
      var quote := line[index];
      var start := index;
      index := index + 1;
      var closed := false;
      while index < |line| && !closed
        invariant start < index <= |line| + 1
        invariant closed ==> index <= |line| && ModeAt(line, index) == Outside && Closed(line, index) == spans + [Span(start, index)]
        invariant !closed && index <= |line| ==> ModeAt(line, index) == Open(quote, start) && Closed(line, index) == spans
        invariant index > |line| ==> ModeAt(line, |line|) == Escaping(quote, start) && Closed(line, |line|) == spans
        decreases |line| + 1 - index, !closed
      {
        if line[index] == '\\' {
          assert ModeAt(line, index + 1) == Escaping(quote, start);
          index := index + 2;
        } else if line[index] == quote {
          index := index + 1;
          closed := true;
        } else {
          index := index + 1;
        }
      }
      spans := spans + [Span(start, index)];
    }
  }

  predicate InsideSpans(position: int, spans: seq<Span>) {
    exists k :: 0 <= k < |spans| && spans[k].start < position < spans[k].end
  }

  // -------------------------------------------------------- what spans are

  /** The literal being read on reaching `p`, if any, came after all those that ended. */
  lemma {:induction false} OpenIsLast(line: string, p: nat)
    requires p <= |line|
    ensures var mode := ModeAt(line, p);
      && (mode != Outside ==> mode.start < p && line[mode.start] == mode.quote && IsQuote(mode.quote) && ModeAt(line, mode.start) == Outside)
      && (forall k :: 0 <= k < |Closed(line, p)| ==> Closed(line, p)[k].end <= if mode == Outside then p else mode.start)
  {
    if p > 0 {
      OpenIsLast(line, p - 1);
    }
  }

  predicate Proper(line: string, s: Span) {
    s.start < |line| && s.start < s.end && IsQuote(line[s.start]) && ModeAt(line, s.start) == Outside
  }

  predicate InOrder(spans: seq<Span>) {
    forall j, k :: 0 <= j < k < |spans| ==> spans[j].end <= spans[k].start
  }

  predicate AllProper(line: string, spans: seq<Span>) {
    forall k :: 0 <= k < |spans| ==> Proper(line, spans[k])
  }

  lemma ProperPush(line: string, spans: seq<Span>, s: Span)
    requires InOrder(spans) && AllProper(line, spans) && Proper(line, s)
    requires forall k :: 0 <= k < |spans| ==> spans[k].end <= s.start
    ensures InOrder(spans + [s]) && AllProper(line, spans + [s])
  {
    hide Proper;
  }

  lemma {:induction false} ClosedProper(line: string, p: nat)
    requires p <= |line|
    ensures InOrder(Closed(line, p)) && AllProper(line, Closed(line, p))
  {
    if p > 0 {
      ClosedProper(line, p - 1);
      OpenIsLast(line, p - 1);
      var mode := ModeAt(line, p - 1);
      if mode.Open? && line[p - 1] == mode.quote {
        ProperPush(line, Closed(line, p - 1), Span(mode.start, p));
      }
    }
  }

  /** The spans are disjoint and in order, each begins at a quote outside any other and ends at most one past the line. */
  lemma SpansAreOrdered(line: string)
    ensures InOrder(Literals(line))
    ensures forall k :: 0 <= k < |Literals(line)| ==> Proper(line, Literals(line)[k]) && Literals(line)[k].end <= |line| + 1
  {
    ClosedProper(line, |line|);
    OpenIsLast(line, |line|);
    var mode := ModeAt(line, |line|);
    if mode != Outside {
      ProperPush(line, Closed(line, |line|), Span(mode.start, if mode.Open? then |line| else |line| + 1));
    }
  }

  lemma {:induction false} ModesInClosed(line: string, p: nat, t: nat)
    requires t <= p <= |line|
    ensures var mode := ModeAt(line, p);
      ModeAt(line, t) != Outside <==> InsideSpans(t, Closed(line, p)) || (mode != Outside && mode.start < t)
    decreases p
  {
    OpenIsLast(line, p);
    if t < p {
      ModesInClosed(line, p - 1, t);
      var before, closed := Closed(line, p - 1), Closed(line, p);
      assert InsideSpans(t, before) ==> InsideSpans(t, closed) by {
        if k :| 0 <= k < |before| && before[k].start < t < before[k].end { assert closed[k] == before[k]; }
      }
      if |closed| > |before| { assert closed[|before|].end == p; }
    }
  }

  /** Before the end of the line, a position is inside the spans exactly when the automaton is in a literal there. */
  lemma InsideIffOpen(line: string, p: nat)
    requires p < |line|
    ensures InsideSpans(p, Literals(line)) <==> ModeAt(line, p) != Outside
  {
    ModesInClosed(line, |line|, p);
    InsideSplits(line, p);
  }

  lemma InsideSplits(line: string, p: int)
    ensures var mode := ModeAt(line, |line|);
      InsideSpans(p, Literals(line)) <==>
        (InsideSpans(p, Closed(line, |line|))
         || (mode.Open? && mode.start < p < |line|)
         || (mode.Escaping? && mode.start < p < |line| + 1))
  {
    var closed, all := Closed(line, |line|), Literals(line);
    if InsideSpans(p, closed) {
      var k :| 0 <= k < |closed| && closed[k].start < p < closed[k].end;
      assert all[k] == closed[k];
    }
    if ModeAt(line, |line|) != Outside { assert all[|closed|].start == ModeAt(line, |line|).start; }
  }

  /** At the end of the line an open literal counts only after a dangling backslash; elsewhere nothing is inside. */
  lemma InsideAtTheEnd(line: string, p: int)
    requires p < 0 || p >= |line|
    ensures InsideSpans(p, Literals(line)) <==> p == |line| && ModeAt(line, |line|).Escaping?
  {
    InsideSplits(line, p);
    OpenIsLast(line, |line|);
    ClosedEnds(line);
  }

  lemma ClosedEnds(line: string)
    ensures forall k :: 0 <= k < |Closed(line, |line|)| ==> Closed(line, |line|)[k].end <= |line|
  {
    OpenIsLast(line, |line|);
  }

  /** Some span begins at `p` or has it inside. */
  predicate Covers(spans: seq<Span>, p: int) {
    exists k :: 0 <= k < |spans| && spans[k].start <= p < spans[k].end
  }

  lemma CoversMore(spans: seq<Span>, more: seq<Span>, p: int)
    ensures Covers(spans, p) || Covers(more, p) ==> Covers(spans + more, p)
  {
    if k :| 0 <= k < |spans| && spans[k].start <= p < spans[k].end {
      assert (spans + more)[k] == spans[k];
    } else if k :| 0 <= k < |more| && more[k].start <= p < more[k].end {
      assert (spans + more)[|spans| + k] == more[k];
    }
  }

  /** A literal read before or at `p` is still open at `q`, or covers `p`. */
  lemma {:induction false} OpenOrCovers(line: string, p: nat, q: nat)
    requires p < q <= |line| && ModeAt(line, p + 1) != Outside
    ensures (ModeAt(line, q) != Outside && ModeAt(line, q).start <= p) || Covers(Closed(line, q), p)
    decreases q
  {
    OpenIsLast(line, p + 1);
    if q > p + 1 {
      OpenOrCovers(line, p, q - 1);
      var mode := ModeAt(line, q - 1);
      if mode.Open? && line[q - 1] == mode.quote {
        var ended := Span(mode.start, q);
        CoversMore(Closed(line, q - 1), [ended], p);
        if mode.start <= p {
          assert [ended][0].start <= p < [ended][0].end;
          assert Covers([ended], p);
        }
      }
    }
  }

  lemma CoveredByLiterals(line: string, p: nat)
    requires p < |line| && ModeAt(line, p + 1) != Outside
    ensures Covers(Literals(line), p)
  {
    OpenOrCovers(line, p, |line|);
    var mode := ModeAt(line, |line|);
    if mode != Outside {
      var last := Span(mode.start, if mode.Open? then |line| else |line| + 1);
      CoversMore(Closed(line, |line|), [last], p);
      assert Literals(line) == Closed(line, |line|) + [last];
      if mode.start <= p {
        assert [last][0].start <= p < [last][0].end;
        assert Covers([last], p);
      }
    } else {
      CoversMore(Closed(line, |line|), [], p);
    }
  }

  /** Every quote on the line belongs to a span: it begins one or is inside one. */
  lemma NoQuoteOutside(line: string, p: nat)
    requires p < |line| && IsQuote(line[p])
    ensures Covers(Literals(line), p)
  {
    if ModeAt(line, p) != Outside {
      InsideIffOpen(line, p);
      var all := Literals(line);
      var k :| 0 <= k < |all| && all[k].start < p < all[k].end;
      assert all[k].start <= p < all[k].end;
    } else {
      assert ModeAt(line, p + 1) == Open(line[p], p);
      CoveredByLiterals(line, p);
    }
  }
}
