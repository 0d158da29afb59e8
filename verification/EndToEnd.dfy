/** From the aggregator to the reader: what a client reads, page by page, from the table that a sink of
    the aggregator filled. */
module EndToEnd {
  import opened Aggregator
  import opened Bars
  import opened Cells
  import opened Intervals
  import opened Orderly
  import opened Paging
  import opened Runs
  import opened Wrappers

  /** The table after a sink applied every insert of the log, in the order of the log. */
  function Filled(hs: seq<Handed>): Table {
    if hs == [] then map[] else Inserted(Filled(hs[..|hs| - 1]), hs[|hs| - 1].bar)
  }

  /** The bars with a start in the open range, in order. */
  function Within(bars: seq<Bar>, lo: Time, hi: Time): (r: seq<Bar>)
    ensures forall b :: b in r <==> b in bars && lo < b.start < hi
  {
    if bars == [] then []
    else
      var last := bars[|bars| - 1];
      Within(bars[..|bars| - 1], lo, hi) + if lo < last.start < hi then [last] else []
  }

  function Protos(bars: seq<Bar>): (r: seq<PbBar>)
    ensures |r| == |bars| && forall i :: 0 <= i < |r| ==> r[i] == ToProto(bars[i])
  {
    seq(|bars|, i requires 0 <= i < |bars| => ToProto(bars[i]))
  }

  function Starts(bars: seq<Bar>): (r: seq<Time>)
    ensures |r| == |bars| && forall i :: 0 <= i < |r| ==> r[i] == bars[i].start
  {
    seq(|bars|, i requires 0 <= i < |bars| => bars[i].start)
  }

  ghost predicate StartsAscend(bars: seq<Bar>) {
    forall i, j :: 0 <= i < j < |bars| ==> bars[i].start < bars[j].start
  }

  /** The table holds, for the cell, exactly the rows of these bars. */
  ghost predicate Holds(t: Table, c: Cell, bars: seq<Bar>) {
    && (forall x: Time :: RowKey(c.symbol, c.interval, x) in t <==> exists b :: b in bars && b.start == x)
    && (forall b :: b in bars ==> KeyOf(b) in t && t[KeyOf(b)] == ValuesOf(b))
  }

  /** One more entry of the log: a row of this cell, or of another. */
  lemma HoldsMore(t: Table, c: Cell, bars: seq<Bar>, b: Bar)
    requires Holds(t, c, bars) && forall x :: x in bars ==> x.symbol == c.symbol && x.interval == c.interval
    requires Cell(b.interval, b.symbol) == c ==> forall x :: x in bars ==> x.start != b.start
    ensures Holds(Inserted(t, b), c, bars + if Cell(b.interval, b.symbol) == c then [b] else [])
  {
    var more := bars + if Cell(b.interval, b.symbol) == c then [b] else [];
    assert forall x :: x in more <==> x in bars || (Cell(b.interval, b.symbol) == c && x == b);
    assert Cell(b.interval, b.symbol) == c <==> b.interval == c.interval && b.symbol == c.symbol;
  }

  /** The table that the log fills holds the cell's bars of the log. */
  lemma {:induction false} FilledHolds(hs: seq<Handed>, c: Cell)
    requires StartsAscend(BarsHanded(HandedOf(hs, c)))
    ensures Holds(Filled(hs), c, BarsHanded(HandedOf(hs, c)))
    ensures forall b :: b in BarsHanded(HandedOf(hs, c)) ==> b.symbol == c.symbol && b.interval == c.interval
  {
    if hs == [] {
    } else {
      var n := |hs| - 1;
      var b, before := hs[n].bar, BarsHanded(HandedOf(hs[..n], c));
      var all := BarsHanded(HandedOf(hs, c));
      assert all == before + if Cell(b.interval, b.symbol) == c then [b] else [];
      assert forall i :: 0 <= i < |before| ==> before[i] == all[i];
      FilledHolds(hs[..n], c);
      if Cell(b.interval, b.symbol) == c {
        assert all[|before|] == b;
        assert forall i :: 0 <= i < |before| ==> before[i].start < b.start;
      }
      HoldsMore(Filled(hs[..n]), c, before, b);
    }
  }

  lemma {:induction false} WithinAscends(bars: seq<Bar>, lo: Time, hi: Time)
    requires StartsAscend(bars)
    ensures Ascends(Starts(Within(bars, lo, hi)))
  {
    if bars == [] {
    } else {
      var n := |bars| - 1;
      var rest := Within(bars[..n], lo, hi);
      WithinAscends(bars[..n], lo, hi);
      forall b | b in rest
        ensures b.start < bars[n].start
      {
        var i :| 0 <= i < n && bars[..n][i] == b;
        assert bars[i] == b;
      }
      assert forall i :: 0 <= i < |rest| ==> rest[i] in rest;
    }
  }

  /** Whatever else is in the table: a finished session for a cell returns exactly the cell's bars of the
      log inside the open range, field by field and in order. */
  lemma SessionReadsLog(hs: seq<Handed>, c: Cell, q: Query, calls: seq<Call>)
    requires Known(c.interval) && q.symbol == c.symbol && q.interval == c.interval
    requires StartsAscend(BarsHanded(HandedOf(hs, c))) && forall b :: b in BarsHanded(HandedOf(hs, c)) ==> BarOk(c, b)
    requires QuietFrom(calls, 0, Filled(hs)) && Delivering(calls) && Finished(q, Absent, calls)
    ensures Session(q, Absent, calls) == Protos(Within(BarsHanded(HandedOf(hs, c)), q.start, q.end))
  {
    hide Session, Finished, Filled, HandedOf, BarsHanded, Within, Known, Duration, CandlesAt, BarOk;
    var t, bars := Filled(hs), BarsHanded(HandedOf(hs, c));
    var sub := Within(bars, q.start, q.end);
    FilledHolds(hs, c);
    PagesJoin(q, Absent, calls, t);
    RowsAre(t, c, bars, q);
    WithinAscends(bars, q.start, q.end);
    StartsMembers(sub, Rows(q, Absent, t));
    AscendingUnique(Starts(sub), Rows(q, Absent, t));
    ReadBack(t, c, bars, q, sub);
  }

  lemma RowsAre(t: Table, c: Cell, bars: seq<Bar>, q: Query)
    requires Holds(t, c, bars) && q.symbol == c.symbol && q.interval == c.interval
    ensures forall x: Time :: x in Rows(q, Absent, t) <==>
              exists b :: b in Within(bars, q.start, q.end) && b.start == x
  {
    hide Within;
    forall x: Time
      ensures x in Rows(q, Absent, t) <==> exists b :: b in Within(bars, q.start, q.end) && b.start == x
    {
      if x in Rows(q, Absent, t) {
        var b :| b in bars && b.start == x;
        assert b in Within(bars, q.start, q.end);
      }
    }
  }

  lemma StartsMembers(bars: seq<Bar>, s: set<Time>)
    requires forall x: Time :: x in s <==> exists b :: b in bars && b.start == x
    ensures forall x :: x in Starts(bars) <==> x in s
  {
    forall x: Time
      ensures x in Starts(bars) <==> x in s
    {
      if x in Starts(bars) {
        var i :| 0 <= i < |bars| && Starts(bars)[i] == x;
        assert bars[i] in bars;
      }
      if x in s {
        var b :| b in bars && b.start == x;
        var i :| 0 <= i < |bars| && bars[i] == b;
        assert Starts(bars)[i] == x;
      }
    }
  }

  lemma ReadBack(t: Table, c: Cell, bars: seq<Bar>, q: Query, sub: seq<Bar>)
    requires Known(c.interval) && q.symbol == c.symbol && q.interval == c.interval
    requires Holds(t, c, bars) && forall b :: b in sub ==> b in bars
    requires forall b :: b in bars ==> BarOk(c, b)
    requires forall x :: x in Starts(sub) ==> RowKey(q.symbol, q.interval, x) in t
    ensures CandlesAt(q, t, Starts(sub)) == Protos(sub)
  {
    hide CandlesAt, Duration;
    forall i | 0 <= i < |sub|
      ensures CandlesAt(q, t, Starts(sub))[i] == Protos(sub)[i]
    {
      assert sub[i] in sub;
      assert BarOk(c, sub[i]);
    }
  }

  /** End to end. After any orderly run of calls without a crash, ended by FlushAll, whose table sink
      applied every insert - other sinks and the store may have answered as they like - a finished
      session over the table returns exactly the batch bars of the symbol's ticks inside the open range:
      one candle per window with ticks, ascending, each the summary of its window's ticks. */
  lemma SessionReadsBatch(ivs: seq<string>, finest: string, ops: seq<Op>, visits: seq<Visit>, clk: Time, c: Cell,
                          q: Query, calls: seq<Call>)
    requires KnownIntervals(ivs) && NoDuplicates(ivs) && finest in ivs && c.interval in ivs
    requires forall iv :: iv in ivs ==> Dur(finest) <= Dur(iv)
    requires forall op :: op in ops ==> ValidOp(ivs, op) && !op.Restart?
    requires OrderlyOps(ops, Dur(finest), clk)
    requires ValidOp(ivs, FlushEverything(visits))
    requires Covers(visits, SysRun(START, ExpandAll(ivs, ops)))
    requires q.symbol == c.symbol && q.interval == c.interval && Known(q.interval)
    requires QuietFrom(calls, 0, Filled(SysRun(SysRun(START, ExpandAll(ivs, ops)), VisitAll(None, visits)).handed))
    requires Delivering(calls) && Finished(q, Absent, calls)
    ensures exists bars ::
      IsBatch(c, SymbolTicks(ops, c.symbol), bars)
      && Session(q, Absent, calls) == Protos(Within(bars, q.start, q.end))
  {
    hide SysRun, ExpandAll, VisitAll, Covers, OrderlyOps, Session, Finished, Filled, Within, Known, Align, TicksIn,
         Summary, HandedOf, SymbolTicks;
    var hs := SysRun(SysRun(START, ExpandAll(ivs, ops)), VisitAll(None, visits)).handed;
    StreamingRefinesBatchSystem(ivs, finest, ops, visits, clk, c);
    var bars := BarsHanded(HandedOf(hs, c));
    assert IsBatch(c, SymbolTicks(ops, c.symbol), bars);
    BatchShape(c, SymbolTicks(ops, c.symbol), bars);
    hide IsBatch, BarsHanded, BarOk;
    SessionReadsLog(hs, c, q, calls);
  }

  lemma BatchShape(c: Cell, ts: seq<Tick>, bars: seq<Bar>)
    requires Known(c.interval) && IsBatch(c, ts, bars)
    ensures StartsAscend(bars) && forall b :: b in bars ==> BarOk(c, b)
  {
    hide BarOk, Summary;
  }
}
