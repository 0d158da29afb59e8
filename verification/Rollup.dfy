/** Coarse bars are merges of fine bars.

    No code computes the merge: both intervals fold the raw ticks. That the two agree is a property
    of the windows (each duration divides the next) and of the summary (merging is compatible with
    concatenating ticks). */
module Rollup {
  import opened Wrappers
  import opened Intervals
  import opened Bars
  import opened Cells
  import opened Orderly
  import opened Aggregator
  import opened Runs

  function BarVolume(bars: seq<Bar>): real {
    if bars == [] then 0.0 else BarVolume(bars[..|bars| - 1]) + bars[|bars| - 1].volume
  }

  /** The bars whose start lies in the window of length d at w, in order. */
  function Inside(bars: seq<Bar>, d: nat, w: Time): (r: seq<Bar>)
    requires d > 0
    ensures forall b :: b in r <==> b in bars && Align(b.start, d) == w
  {
    if bars == [] then []
    else
      var last := bars[|bars| - 1];
      Inside(bars[..|bars| - 1], d, w) + if Align(last.start, d) == w then [last] else []
  }

  /** b opens with the first part, closes with the last, ranges over all and sums the volumes. */
  ghost predicate Merges(b: Bar, parts: seq<Bar>) {
    && |parts| > 0
    && b.open == parts[0].open
    && b.close == parts[|parts| - 1].close
    && (forall p :: p in parts ==> b.low <= p.low && p.high <= b.high)
    && (exists p :: p in parts && p.high == b.high)
    && (exists p :: p in parts && p.low == b.low)
    && b.volume == BarVolume(parts)
  }

  ghost predicate WindowsAscend(c: Cell, ts: seq<Tick>)
    requires Known(c.interval)
  {
    forall i, j :: 0 <= i < j < |ts| ==> Win(c, ts[i]) <= Win(c, ts[j])
  }

  // --- sublists --------------------------------------------------------------------------------

  /** Picking a fine window after its coarse window is picking it at once. */
  lemma {:induction false} FineInCoarse(ts: seq<Tick>, d1: nat, d2: nat, w1: Time)
    requires d1 > 0 && d2 > 0 && d2 % d1 == 0 && Aligned(w1, d1)
    ensures TicksIn(TicksIn(ts, d2, Align(w1, d2)), d1, w1) == TicksIn(ts, d1, w1)
  {
    hide Align, TicksIn, Aligned;
    if ts == [] {
      NoTicksIn(d2, Align(w1, d2));
      NoTicksIn(d1, w1);
    } else {
      var n := |ts| - 1;
      var w2, t := Align(w1, d2), ts[n];
      FineInCoarse(ts[..n], d1, d2, w1);
      WindowsNest(t.ts, d1, d2);
      assert ts == ts[..n] + [t];
      TicksInSnoc(ts[..n], t, d2, w2);
      TicksInSnoc(ts[..n], t, d1, w1);
      var sub := TicksIn(ts[..n], d2, w2);
      if Align(t.ts, d2) == w2 {
        TicksInSnoc(sub, t, d1, w1);
      } else {
        assert sub + [] == sub && TicksIn(ts[..n], d1, w1) + [] == TicksIn(ts[..n], d1, w1);
        assert Align(t.ts, d1) != w1;
      }
    }
  }

  lemma NoTicksIn(d: nat, w: Time)
    requires d > 0
    ensures TicksIn([], d, w) == []
  {
  }

  lemma {:induction false} FirstTick(ts: seq<Tick>, d: nat)
    requires d > 0 && ts != []
    ensures TicksIn(ts, d, Align(ts[0].ts, d)) != []
    ensures TicksIn(ts, d, Align(ts[0].ts, d))[0] == ts[0]
  {
    hide Align;
    if |ts| > 1 {
      FirstTick(ts[..|ts| - 1], d);
    } else {
      assert TicksIn(ts[..0], d, Align(ts[0].ts, d)) == [];
    }
  }

  /** A sublist keeps the windows' order. */
  lemma {:induction false} SublistAscends(c: Cell, ts: seq<Tick>, d: nat, w: Time)
    requires Known(c.interval) && d > 0 && WindowsAscend(c, ts)
    ensures WindowsAscend(c, TicksIn(ts, d, w))
  {
    hide Align;
    if ts == [] {
    } else {
      var n := |ts| - 1;
      SublistAscends(c, ts[..n], d, w);
      var sub := TicksIn(ts[..n], d, w);
      forall i | 0 <= i < |sub|
        ensures Win(c, sub[i]) <= Win(c, ts[n])
      {
        assert sub[i] in sub;
        assert sub[i] in ts[..n];
      }
    }
  }

  lemma {:induction false} InsideAscends(bars: seq<Bar>, d: nat, w: Time)
    requires d > 0 && forall i, j :: 0 <= i < j < |bars| ==> bars[i].start < bars[j].start
    ensures forall i, j :: 0 <= i < j < |Inside(bars, d, w)| ==>
              Inside(bars, d, w)[i].start < Inside(bars, d, w)[j].start
  {
    hide Align, Inside;
    InsideLast(bars, d, w);
    if bars == [] {
    } else {
      var n := |bars| - 1;
      InsideAscends(bars[..n], d, w);
      var sub := Inside(bars[..n], d, w);
      forall i | 0 <= i < |sub|
        ensures sub[i].start < bars[n].start
      {
        assert sub[i] in sub;
        assert sub[i] in bars[..n];
      }
    }
  }

  lemma InsideLast(bars: seq<Bar>, d: nat, w: Time)
    requires d > 0
    ensures if bars == [] then Inside(bars, d, w) == []
            else
              var n := |bars| - 1;
              Inside(bars, d, w) == Inside(bars[..n], d, w) + if Align(bars[n].start, d) == w then [bars[n]] else []
  {
    hide Align;
  }

  // --- volume splits over windows --------------------------------------------------------------

  function VolumeOver(bars: seq<Bar>, ts: seq<Tick>, d: nat): real
    requires d > 0
  {
    if bars == [] then 0.0
    else VolumeOver(bars[..|bars| - 1], ts, d) + Volume(TicksIn(ts, d, bars[|bars| - 1].start))
  }

  lemma {:induction false} VolumeOverEmpty(bars: seq<Bar>, d: nat)
    requires d > 0
    ensures VolumeOver(bars, [], d) == 0.0
  {
    if bars == [] {
    } else {
      VolumeOverEmpty(bars[..|bars| - 1], d);
    }
  }

  ghost predicate HasStart(bars: seq<Bar>, w: Time) {
    exists i :: 0 <= i < |bars| && bars[i].start == w
  }

  /** One more tick adds its volume to the one bar of its window. */
  lemma {:induction false} VolumeOverSnoc(bars: seq<Bar>, ts: seq<Tick>, t: Tick, d: nat)
    requires d > 0 && forall i, j :: 0 <= i < j < |bars| ==> bars[i].start < bars[j].start
    ensures VolumeOver(bars, ts + [t], d)
         == VolumeOver(bars, ts, d) + if HasStart(bars, Align(t.ts, d)) then t.volume else 0.0
  {
    hide Align;
    if bars == [] {
    } else {
      var n := |bars| - 1;
      var w := Align(t.ts, d);
      VolumeOverSnoc(bars[..n], ts, t, d);
      TicksInSnoc(ts, t, d, bars[n].start);
      var sub := TicksIn(ts, d, bars[n].start);
      assert (sub + [t])[..|sub|] == sub;
      assert sub + [] == sub;
      if i :| 0 <= i < |bars[..n]| && bars[..n][i].start == w {
        assert bars[i].start == w;
      }
      if bars[n].start == w {
        assert HasStart(bars, w) && !HasStart(bars[..n], w);
      }
      if i :| 0 <= i < |bars| && bars[i].start == w {
        assert i == n || bars[..n][i].start == w;
      }
    }
  }

  /** If every tick's window has a bar, the bars' ticks carry the whole volume. */
  lemma {:induction false} VolumeSplits(bars: seq<Bar>, ts: seq<Tick>, d: nat)
    requires d > 0 && forall i, j :: 0 <= i < j < |bars| ==> bars[i].start < bars[j].start
    requires forall t :: t in ts ==> HasStart(bars, Align(t.ts, d))
    ensures Volume(ts) == VolumeOver(bars, ts, d)
  {
    hide Align, VolumeOver, HasStart, TicksIn;
    if ts == [] {
      VolumeOverEmpty(bars, d);
    } else {
      var n := |ts| - 1;
      assert ts[n] in ts && forall t :: t in ts[..n] ==> t in ts;
      VolumeSplits(bars, ts[..n], d);
      VolumeOverSnoc(bars, ts[..n], ts[n], d);
      assert ts == ts[..n] + [ts[n]];
    }
  }

  lemma {:induction false} BarVolumeIs(bars: seq<Bar>, ts: seq<Tick>, d: nat)
    requires d > 0
    requires forall b :: b in bars ==> b.volume == Volume(TicksIn(ts, d, b.start))
    ensures BarVolume(bars) == VolumeOver(bars, ts, d)
  {
    hide Align;
    if bars == [] {
    } else {
      BarVolumeIs(bars[..|bars| - 1], ts, d);
    }
  }

  // --- the roll-up -----------------------------------------------------------------------------

  /** What relates the two batch results of one symbol. */
  ghost predicate TwoScales(c1: Cell, c2: Cell, ts: seq<Tick>, fine: seq<Bar>, coarse: seq<Bar>) {
    && Known(c1.interval) && Known(c2.interval)
    && Dur(c2.interval) % Dur(c1.interval) == 0
    && IsBatch(c1, ts, fine) && IsBatch(c2, ts, coarse)
  }

  /** The part that holds tick t of coarse window w. */
  lemma PartOf(c1: Cell, c2: Cell, ts: seq<Tick>, fine: seq<Bar>, coarse: seq<Bar>, t: Tick)
      returns (p: Bar)
    requires TwoScales(c1, c2, ts, fine, coarse) && t in ts
    ensures p in Inside(fine, Dur(c2.interval), Win(c2, t)) && p.start == Win(c1, t)
    ensures Summary(p, In(c1, ts, p.start)) && Aligned(p.start, Dur(c1.interval))
  {
    hide Summary, TicksIn;
    var i :| 0 <= i < |fine| && fine[i].start == Win(c1, t);
    p := fine[i];
    WindowsNest(t.ts, Dur(c1.interval), Dur(c2.interval));
  }

  /** Conversely, a part's ticks are ticks of the coarse window. */
  lemma PartTicks(c1: Cell, c2: Cell, ts: seq<Tick>, fine: seq<Bar>, coarse: seq<Bar>, w: Time, p: Bar)
    requires TwoScales(c1, c2, ts, fine, coarse) && p in Inside(fine, Dur(c2.interval), w)
    ensures Summary(p, In(c1, ts, p.start))
    ensures In(c1, In(c2, ts, w), p.start) == In(c1, ts, p.start)
    ensures forall t :: t in In(c1, ts, p.start) ==> t in In(c2, ts, w)
  {
    var i :| 0 <= i < |fine| && fine[i] == p;
    assert BarOk(c1, p) && Summary(p, In(c1, ts, p.start));
    hide Summary, Align;
    FineInCoarse(ts, Dur(c1.interval), Dur(c2.interval), p.start);
    forall t | t in In(c1, ts, p.start)
      ensures t in In(c2, ts, w)
    {
      assert t in In(c1, In(c2, ts, w), p.start);
    }
  }

  lemma PartVolume(c1: Cell, c2: Cell, ts: seq<Tick>, fine: seq<Bar>, coarse: seq<Bar>, w: Time, p: Bar)
    requires TwoScales(c1, c2, ts, fine, coarse) && p in Inside(fine, Dur(c2.interval), w)
    ensures p.volume == Volume(TicksIn(In(c2, ts, w), Dur(c1.interval), p.start))
  {
    hide TicksIn, Align, Inside, TwoScales;
    PartTicks(c1, c2, ts, fine, coarse, w, p);
  }

  lemma RollupVolume(c1: Cell, c2: Cell, ts: seq<Tick>, fine: seq<Bar>, coarse: seq<Bar>, w: Time)
    requires TwoScales(c1, c2, ts, fine, coarse)
    ensures Volume(In(c2, ts, w)) == BarVolume(Inside(fine, Dur(c2.interval), w))
  {
    hide Summary, TicksIn, Align, Inside;
    var d1, parts, sub := Dur(c1.interval), Inside(fine, Dur(c2.interval), w), In(c2, ts, w);
    InsideAscends(fine, Dur(c2.interval), w);
    forall p | p in parts
      ensures p.volume == Volume(TicksIn(sub, d1, p.start))
    {
      PartVolume(c1, c2, ts, fine, coarse, w, p);
    }
    BarVolumeIs(parts, sub, d1);
    forall t | t in sub
      ensures HasStart(parts, Align(t.ts, d1))
    {
      var p := PartOf(c1, c2, ts, fine, coarse, t);
      var i :| 0 <= i < |parts| && parts[i] == p;
    }
    VolumeSplits(parts, sub, d1);
  }

  lemma RollupRange(c1: Cell, c2: Cell, ts: seq<Tick>, fine: seq<Bar>, coarse: seq<Bar>, b: Bar)
    requires TwoScales(c1, c2, ts, fine, coarse) && Summary(b, In(c2, ts, b.start))
    ensures var parts := Inside(fine, Dur(c2.interval), b.start);
      && (forall p :: p in parts ==> b.low <= p.low && p.high <= b.high)
      && (exists p :: p in parts && p.high == b.high)
      && (exists p :: p in parts && p.low == b.low)
  {
    var parts, sub := Inside(fine, Dur(c2.interval), b.start), In(c2, ts, b.start);
    PriceRange(sub);
    hide Align;
    forall p | p in parts
      ensures b.low <= p.low && p.high <= b.high
    {
      PartTicks(c1, c2, ts, fine, coarse, b.start, p);
      PriceRange(In(c1, ts, p.start));
    }
    var hi :| hi in sub && hi.price == b.high;
    var lo :| lo in sub && lo.price == b.low;
    var p := PartOf(c1, c2, ts, fine, coarse, hi);
    var q := PartOf(c1, c2, ts, fine, coarse, lo);
    assert hi in In(c1, ts, p.start) && lo in In(c1, ts, q.start);
    PriceRange(In(c1, ts, p.start));
    PriceRange(In(c1, ts, q.start));
  }

  /** Some tick of a part, seen from the coarse window. */
  lemma OwnTick(c1: Cell, c2: Cell, ts: seq<Tick>, fine: seq<Bar>, coarse: seq<Bar>, w: Time, r: Bar)
      returns (t: Tick)
    requires TwoScales(c1, c2, ts, fine, coarse) && r in Inside(fine, Dur(c2.interval), w)
    ensures t in In(c2, ts, w) && Win(c1, t) == r.start
  {
    hide Align, Inside, IsBatch;
    PartTicks(c1, c2, ts, fine, coarse, w, r);
    t := In(c1, ts, r.start)[0];
    hide Summary, TicksIn;
    assert t in In(c1, ts, r.start);
  }

  lemma Between(c: Cell, sub: seq<Tick>, t: Tick)
    requires Known(c.interval) && WindowsAscend(c, sub) && t in sub
    ensures Win(c, sub[0]) <= Win(c, t) <= Win(c, sub[|sub| - 1])
  {
    hide Align;
    var k :| 0 <= k < |sub| && sub[k] == t;
  }

  lemma Extremes(parts: seq<Bar>, p: Bar, q: Bar)
    requires forall i, j :: 0 <= i < j < |parts| ==> parts[i].start < parts[j].start
    requires p in parts && q in parts
    requires forall r :: r in parts ==> p.start <= r.start <= q.start
    ensures parts[0] == p && parts[|parts| - 1] == q
  {
    assert parts[0] in parts && parts[|parts| - 1] in parts;
  }

  /** The part holding the first (last) tick of the coarse window opens (closes) with it. */
  lemma PartEnds(c1: Cell, c2: Cell, ts: seq<Tick>, fine: seq<Bar>, coarse: seq<Bar>, w: Time, p: Bar)
    requires TwoScales(c1, c2, ts, fine, coarse) && p in Inside(fine, Dur(c2.interval), w)
    requires In(c2, ts, w) != []
    ensures var sub := In(c2, ts, w);
      && (p.start == Win(c1, sub[0]) ==> p.open == sub[0].price)
      && (p.start == Win(c1, sub[|sub| - 1]) ==> p.close == sub[|sub| - 1].price)
  {
    PartTicks(c1, c2, ts, fine, coarse, w, p);
    var sub := In(c2, ts, w);
    hide Align, Inside, TwoScales, TicksIn;
    FirstTick(sub, Dur(c1.interval));
    LastTick(sub, Dur(c1.interval));
  }

  lemma PartsBetween(c1: Cell, c2: Cell, ts: seq<Tick>, fine: seq<Bar>, coarse: seq<Bar>, w: Time)
    requires TwoScales(c1, c2, ts, fine, coarse) && WindowsAscend(c1, ts) && In(c2, ts, w) != []
    ensures var sub := In(c2, ts, w);
      forall r :: r in Inside(fine, Dur(c2.interval), w) ==>
        Win(c1, sub[0]) <= r.start <= Win(c1, sub[|sub| - 1])
  {
    hide Align, Inside, Summary, TicksIn, IsBatch, WindowsAscend;
    SublistAscends(c1, ts, Dur(c2.interval), w);
    forall r | r in Inside(fine, Dur(c2.interval), w)
      ensures var sub := In(c2, ts, w); Win(c1, sub[0]) <= r.start <= Win(c1, sub[|sub| - 1])
    {
      var t := OwnTick(c1, c2, ts, fine, coarse, w, r);
      Between(c1, In(c2, ts, w), t);
    }
  }

  lemma EndTicks(c: Cell, ts: seq<Tick>, w: Time)
    requires Known(c.interval) && In(c, ts, w) != []
    ensures var sub := In(c, ts, w);
      && sub[0] in ts && sub[|sub| - 1] in ts
      && Win(c, sub[0]) == w && Win(c, sub[|sub| - 1]) == w
  {
    hide Align, TicksIn;
    var sub := In(c, ts, w);
    assert sub[0] in sub && sub[|sub| - 1] in sub;
  }

  lemma FineAscends(c1: Cell, c2: Cell, ts: seq<Tick>, fine: seq<Bar>, coarse: seq<Bar>, w: Time)
    requires TwoScales(c1, c2, ts, fine, coarse)
    ensures var parts := Inside(fine, Dur(c2.interval), w);
      forall i, j :: 0 <= i < j < |parts| ==> parts[i].start < parts[j].start
  {
    InsideAscends(fine, Dur(c2.interval), w);
  }

  lemma RollupEnds(c1: Cell, c2: Cell, ts: seq<Tick>, fine: seq<Bar>, coarse: seq<Bar>, b: Bar)
    requires TwoScales(c1, c2, ts, fine, coarse) && Summary(b, In(c2, ts, b.start))
    requires WindowsAscend(c1, ts)
    ensures var parts := Inside(fine, Dur(c2.interval), b.start);
      && |parts| > 0
      && b.open == parts[0].open
      && b.close == parts[|parts| - 1].close
  {
    hide IsBatch, WindowsAscend, Align, Inside, TicksIn;
    var parts, sub := Inside(fine, Dur(c2.interval), b.start), In(c2, ts, b.start);
    FineAscends(c1, c2, ts, fine, coarse, b.start);
    assert sub != [] && b.open == sub[0].price && b.close == sub[|sub| - 1].price;
    EndTicks(c2, ts, b.start);
    PartsBetween(c1, c2, ts, fine, coarse, b.start);
    hide Align, Inside, Summary, TicksIn, IsBatch, WindowsAscend;
    var p := PartOf(c1, c2, ts, fine, coarse, sub[0]);
    var q := PartOf(c1, c2, ts, fine, coarse, sub[|sub| - 1]);
    PartEnds(c1, c2, ts, fine, coarse, b.start, p);
    PartEnds(c1, c2, ts, fine, coarse, b.start, q);
    Extremes(parts, p, q);
  }

  lemma LastTick(ts: seq<Tick>, d: nat)
    requires d > 0 && ts != []
    ensures var sub := TicksIn(ts, d, Align(ts[|ts| - 1].ts, d));
      sub != [] && sub[|sub| - 1] == ts[|ts| - 1]
  {
  }

  /** Roll-up: every coarse bar is the ordered merge of the fine bars inside its window. */
  lemma RollsUp(c1: Cell, c2: Cell, ts: seq<Tick>, fine: seq<Bar>, coarse: seq<Bar>, i: nat)
    requires TwoScales(c1, c2, ts, fine, coarse) && WindowsAscend(c1, ts) && i < |coarse|
    ensures Merges(coarse[i], Inside(fine, Dur(c2.interval), coarse[i].start))
  {
    var b := coarse[i];
    assert Summary(b, In(c2, ts, b.start));
    RollupVolume(c1, c2, ts, fine, coarse, b.start);
    RollupRange(c1, c2, ts, fine, coarse, b);
    RollupEnds(c1, c2, ts, fine, coarse, b);
  }

  /** Orderly runs bring the ticks of a cell in the order of their windows. */
  lemma {:induction false} OrderlyAscends(c: Cell, es: seq<Event>, clk: Time)
    requires Known(c.interval) && OrderlyRun(Dur(c.interval), es, clk)
    ensures WindowsAscend(c, TicksOf(es))
    ensures forall t :: t in TicksOf(es) ==> Align(clk, Dur(c.interval)) <= Win(c, t)
    decreases es
  {
    if es == [] {
    } else {
      var e, rest, d := es[0], TicksOf(es[1..]), Dur(c.interval);
      OrderlyAscends(c, es[1..], Clock(e, clk));
      AlignMonotone(clk, Clock(e, clk), d);
      hide Align;
      if e.Feed? {
        assert TicksOf(es) == [e.tick] + rest;
        forall i | 0 <= i < |rest|
          ensures Win(c, e.tick) <= Win(c, rest[i])
        {
          assert rest[i] in rest;
        }
      }
    }
  }

  /** The roll-up of what the sinks really received: in every orderly run of the system without a
      crash, for any two configured intervals the coarser bars are merges of the finer ones. */
  lemma RollsUpSystem(ivs: seq<string>, finest: string, ops: seq<Op>, visits: seq<Visit>, clk: Time,
                      iv1: string, iv2: string, symbol: string, i: nat)
    requires KnownIntervals(ivs) && NoDuplicates(ivs) && finest in ivs && iv1 in ivs && iv2 in ivs
    requires forall iv :: iv in ivs ==> Dur(finest) <= Dur(iv)
    requires Dur(iv1) <= Dur(iv2)
    requires forall op :: op in ops ==> ValidOp(ivs, op) && !op.Restart?
    requires OrderlyOps(ops, Dur(finest), clk)
    requires ValidOp(ivs, FlushEverything(visits))
    requires Covers(visits, SysRun(START, ExpandAll(ivs, ops)))
    requires i < |HandedOf(SysRun(SysRun(START, ExpandAll(ivs, ops)), VisitAll(None, visits)).handed,
                           Cell(iv2, symbol))|
    ensures
      var log := SysRun(SysRun(START, ExpandAll(ivs, ops)), VisitAll(None, visits)).handed;
      var fine := BarsHanded(HandedOf(log, Cell(iv1, symbol)));
      var coarse := BarsHanded(HandedOf(log, Cell(iv2, symbol)));
      Merges(coarse[i], Inside(fine, Dur(iv2), coarse[i].start))
  {
    var c1, c2 := Cell(iv1, symbol), Cell(iv2, symbol);
    StreamingRefinesBatchSystem(ivs, finest, ops, visits, clk, c1);
    StreamingRefinesBatchSystem(ivs, finest, ops, visits, clk, c2);
    DurationsDivide(finest, iv1);
    DurationsDivide(iv1, iv2);
    OpsAtCell(ivs, ops, c1, Dur(finest), clk);
    OrderlyAscends(c1, EventsAt(c1, ExpandAll(ivs, ops)), clk);
    hide SysRun, ExpandAll, VisitAll, Covers, IsBatch, Merges, WindowsAscend, OrderlyOps, Duration, Known;
    var log := SysRun(SysRun(START, ExpandAll(ivs, ops)), VisitAll(None, visits)).handed;
    RollsUp(c1, c2, SymbolTicks(ops, symbol), BarsHanded(HandedOf(log, c1)),
            BarsHanded(HandedOf(log, c2)), i);
  }
}
