/** Orderly runs of a cell: what the sinks receive is the batch result, and no window is lost.

    A run is orderly when the clock never falls behind, every tick is processed while the clock is
    in the tick's own window, the store starts empty, and FlushAll comes last. A sweep reads its
    clock before it takes the lock, so its reading may be older than that of ticks before it; it
    only bounds the readings of later ticks. */
module Orderly {
  import opened Wrappers
  import opened Intervals
  import opened Bars
  import opened Cells

  function Clock(e: Event, clk: Time): Time {
    match e
    case Feed(_, now, _) => now
    case Sweep(now, _) => if now > clk then now else clk
    case Expire(_, now) => if now > clk then now else clk
    case FlushAll(_) => clk
    case Crash => clk
  }

  predicate OrderlyEvent(d: nat, e: Event, clk: Time)
    requires d > 0
  {
    match e
    case Feed(t, now, _) => clk <= now && Align(now, d) == Align(t.ts, d)
    case FlushAll(_) => false
    case _ => true
  }

  predicate OrderlyRun(d: nat, es: seq<Event>, clk: Time)
    requires d > 0
    decreases es
  {
    es == [] || (OrderlyEvent(d, es[0], clk) && OrderlyRun(d, es[1..], Clock(es[0], clk)))
  }

  function ClockAfter(es: seq<Event>, clk: Time): Time
    decreases es
  {
    if es == [] then clk else ClockAfter(es[1..], Clock(es[0], clk))
  }

  function Win(c: Cell, t: Tick): Time
    requires Known(c.interval)
  {
    Align(t.ts, Dur(c.interval))
  }

  function In(c: Cell, ts: seq<Tick>, w: Time): seq<Tick>
    requires Known(c.interval)
  {
    TicksIn(ts, Dur(c.interval), w)
  }

  // --- what every orderly run keeps ------------------------------------------------------------

  /** Sink log: windows strictly ascending, each bar the summary of its ticks, all in the past. */
  ghost predicate LogOk(c: Cell, hs: seq<Handed>, ts: seq<Tick>, clk: Time)
    requires Known(c.interval)
  {
    && (forall i, j :: 0 <= i < j < |hs| ==> hs[i].bar.start < hs[j].bar.start)
    && (forall i :: 0 <= i < |hs| ==>
          Summary(hs[i].bar, In(c, ts, hs[i].bar.start)) && hs[i].bar.end <= clk)
  }

  /** Live bar: the summary of its ticks, and the newest thing the cell knows of. */
  ghost predicate LiveOk(c: Cell, b: Bar, s: CellState, ts: seq<Tick>, clk: Time)
    requires Known(c.interval)
  {
    && Summary(b, In(c, ts, b.start))
    && b.start <= clk
    && (forall i :: 0 <= i < |s.handed| ==> s.handed[i].bar.start < b.start)
    && (forall t :: t in ts ==> Win(c, t) <= b.start)
    && (forall w :: w in s.store ==> w <= b.start)
  }

  ghost predicate Core(c: Cell, s: CellState, ts: seq<Tick>, clk: Time)
    requires Known(c.interval)
  {
    && WellFormed(c, s)
    && LogOk(c, s.handed, ts, clk)
    && (s.live.Some? ==> LiveOk(c, s.live.value, s, ts, clk))
    && (forall w :: w in s.store ==> w <= clk)
    && (forall t :: t in ts ==> Win(c, t) <= clk)
  }

  /** A window that ended by the clock lies before the clock's own window. */
  lemma EndedBefore(d: nat, w: Time, now: Time)
    requires d > 0 && Aligned(w, d) && w + d <= now
    ensures w < Align(now, d)
  {
    AlignWindow(now, 0, d);
  }

  lemma NotAfter(d: nat, w: Time, now: Time)
    requires d > 0 && Aligned(w, d) && w <= now
    ensures w <= Align(now, d)
  {
    AlignMonotone(w, now, d);
    AlignWindow(w, w, d);
  }

  /** A bar that summarises the ticks of the clock's window may become the live bar. */
  lemma CoreAdopt(c: Cell, s: CellState, ts: seq<Tick>, clk: Time, now: Time, b: Bar)
    requires Known(c.interval) && Core(c, s, ts, clk) && s.live.None? && clk <= now
    requires BarOk(c, b) && !b.complete && b.start == Align(now, Dur(c.interval))
    requires Summary(b, In(c, ts, b.start))
    ensures Core(c, s.(live := Some(b)), ts, now)
  {
    var d := Dur(c.interval);
    AlignWindow(now, 0, d);
    forall i | 0 <= i < |s.handed|
      ensures s.handed[i].bar.start < b.start
    {
      assert s.handed[i] in s.handed;
      EndedBefore(d, s.handed[i].bar.start, now);
    }
    forall t | t in ts
      ensures Win(c, t) <= b.start
    {
      AlignWindow(t.ts, 0, d);
      NotAfter(d, Win(c, t), now);
    }
    forall w | w in s.store
      ensures w <= b.start
    {
      NotAfter(d, w, now);
    }
  }

  lemma LogGrows(c: Cell, hs: seq<Handed>, ts: seq<Tick>, t: Tick, clk: Time, now: Time)
    requires Known(c.interval) && LogOk(c, hs, ts, clk) && clk <= now
    requires forall i :: 0 <= i < |hs| ==> hs[i].bar.start < Win(c, t)
    ensures LogOk(c, hs, ts + [t], now)
  {
    forall i | 0 <= i < |hs|
      ensures Summary(hs[i].bar, In(c, ts + [t], hs[i].bar.start))
    {
      TicksInSnoc(ts, t, Dur(c.interval), hs[i].bar.start);
      assert In(c, ts + [t], hs[i].bar.start) == In(c, ts, hs[i].bar.start);
    }
  }

  /** A tick may open a bar for the clock's window if no counted tick was in that window. */
  lemma CoreNew(c: Cell, s: CellState, ts: seq<Tick>, clk: Time, t: Tick, now: Time)
    requires Known(c.interval) && Core(c, s, ts, clk) && s.live.None? && clk <= now
    requires Align(now, Dur(c.interval)) == Win(c, t) && In(c, ts, Win(c, t)) == []
    ensures Core(c, s.(live := Some(NewBar(c, t))), ts + [t], now)
  {
    var d, w := Dur(c.interval), Win(c, t);
    NewBarOk(c, t);
    NewBarSummary(c, t);
    TicksInSnoc(ts, t, d, w);
    assert In(c, ts + [t], w) == [t];
    AlignWindow(now, w, d);
    forall i | 0 <= i < |s.handed|
      ensures s.handed[i].bar.start < w
    {
      assert s.handed[i] in s.handed;
      EndedBefore(d, s.handed[i].bar.start, now);
    }
    LogGrows(c, s.handed, ts, t, clk, now);
    forall u | u in ts + [t]
      ensures Win(c, u) <= w
    {
      if u in ts {
        AlignWindow(u.ts, 0, d);
        NotAfter(d, Win(c, u), now);
      }
    }
    forall x | x in s.store
      ensures x <= w
    {
      NotAfter(d, x, now);
    }
  }

  lemma LiveUpdate(c: Cell, b: Bar, s: CellState, ts: seq<Tick>, clk: Time, t: Tick, now: Time)
    requires Known(c.interval) && LiveOk(c, b, s, ts, clk) && clk <= now && Win(c, t) == b.start
    ensures LiveOk(c, Update(b, t), s, ts + [t], now)
  {
    TicksInSnoc(ts, t, Dur(c.interval), b.start);
    UpdateSummary(b, In(c, ts, b.start), t);
  }

  lemma CoreUpdate(c: Cell, s: CellState, ts: seq<Tick>, clk: Time, t: Tick, now: Time)
    requires Known(c.interval) && Core(c, s, ts, clk) && s.live.Some? && clk <= now
    requires Align(now, Dur(c.interval)) == Win(c, t) && now < s.live.value.end
    ensures Win(c, t) == s.live.value.start
    ensures Core(c, s.(live := Some(Update(s.live.value, t))), ts + [t], now)
  {
    var b, s' := s.live.value, s.(live := Some(Update(s.live.value, t)));
    AlignWindow(now, b.start, Dur(c.interval));
    LiveUpdate(c, b, s, ts, clk, t, now);
    LogGrows(c, s.handed, ts, t, clk, now);
    assert LiveOk(c, Update(b, t), s', ts + [t], now) by {
      hide Summary, TicksIn, Align;
    }
    assert WellFormed(c, s') by {
      hide Summary, TicksIn, Align;
    }
    hide Summary, TicksIn, Align, WellFormed, LiveOk;
  }

  lemma CoreFlush(c: Cell, s: CellState, ts: seq<Tick>, clk: Time, now: Time, io: IO)
    requires Known(c.interval) && Core(c, s, ts, clk) && s.live.Some? && clk <= now
    requires s.live.value.end <= now
    ensures Core(c, FlushOne(c, s, io), ts, now)
  {
    var b, s' := s.live.value.(complete := true), FlushOne(c, s, io);
    assert Summary(b, In(c, ts, b.start));
    forall h | h in s'.handed
      ensures BarOk(c, h.bar) && h.bar.complete
    {
    }
  }

  /** Writing the live bar's copy, or dropping keys, keeps the core. */
  lemma CoreStore(c: Cell, s: CellState, s': CellState, ts: seq<Tick>, clk: Time)
    requires Known(c.interval) && Core(c, s, ts, clk) && WellFormed(c, s')
    requires s'.live == s.live && s'.handed == s.handed
    requires forall w :: w in s'.store ==> w in s.store || (s.live.Some? && w == s.live.value.start)
    ensures Core(c, s', ts, clk)
  {
  }

  lemma NoneInWindow(c: Cell, ts: seq<Tick>, w: Time)
    requires Known(c.interval) && forall t :: t in ts ==> Win(c, t) != w
    ensures In(c, ts, w) == []
  {
    if ts != [] {
      NoneInWindow(c, ts[..|ts| - 1], w);
    }
  }

  /** What the create branch needs: the window has no counted tick yet. */
  ghost predicate Opens(c: Cell, s: CellState, e: Event)
    requires Known(c.interval)
  {
    e.Feed? && s.live.None? && !Restores(c, s, e)
  }

  function CountOne(restored: bool, e: Event, ts: seq<Tick>): seq<Tick> {
    if e.Feed? && !restored then ts + [e.tick] else ts
  }

  lemma CoreStep(c: Cell, s: CellState, e: Event, ts: seq<Tick>, clk: Time)
    requires Known(c.interval) && Core(c, s, ts, clk) && OrderlyEvent(Dur(c.interval), e, clk)
    requires Opens(c, s, e) ==> In(c, ts, Win(c, e.tick)) == []
    requires Restores(c, s, e) ==>
               var w := Win(c, e.tick);
               Summary(FromProto(c.interval, s.store[w].pb), In(c, ts, w))
    ensures Core(c, Step(c, s, e), CountOne(Restores(c, s, e), e, ts), Clock(e, clk))
  {
    hide Summary, TicksIn, Align, BarOk, LogOk, LiveOk;
    StepKeepsWellFormed(c, s, e);
    var s' := Step(c, s, e);
    match e
    case Feed(t, now, io) =>
      if Restores(c, s, e) {
        var b := FromProto(c.interval, s.store[Win(c, t)].pb);
        CoreAdopt(c, s, ts, clk, now, b);
        CoreStore(c, s.(live := Some(b)), s', ts, now);
      } else if s.live.None? {
        CoreNew(c, s, ts, clk, t, now);
        CoreStore(c, s.(live := Some(NewBar(c, t))), s', ts + [t], now);
      } else if ShouldFlush(s.live.value, now) {
        CoreReplace(c, s, ts, clk, t, now, io);
        CoreStore(c, FlushOne(c, s, io).(live := Some(NewBar(c, t))), s', ts + [t], now);
      } else {
        CoreUpdate(c, s, ts, clk, t, now);
        CoreStore(c, s.(live := Some(Update(s.live.value, t))), s', ts + [t], now);
      }
    case Sweep(now, io) =>
      CoreClock(c, s, ts, clk, Clock(e, clk));
      if s.live.Some? && ShouldFlush(s.live.value, now) {
        CoreFlush(c, s, ts, Clock(e, clk), Clock(e, clk), io);
      }
    case Crash =>
    case Expire(_, now) =>
      CoreClock(c, s, ts, clk, Clock(e, clk));
      CoreStore(c, s, s', ts, Clock(e, clk));
  }

  lemma CoreClock(c: Cell, s: CellState, ts: seq<Tick>, clk: Time, now: Time)
    requires Known(c.interval) && Core(c, s, ts, clk) && clk <= now
    ensures Core(c, s, ts, now)
  {
  }

  lemma CoreReplace(c: Cell, s: CellState, ts: seq<Tick>, clk: Time, t: Tick, now: Time, io: IO)
    requires Known(c.interval) && Core(c, s, ts, clk) && s.live.Some? && clk <= now
    requires Align(now, Dur(c.interval)) == Win(c, t) && s.live.value.end <= now
    ensures Core(c, FlushOne(c, s, io).(live := Some(NewBar(c, t))), ts + [t], now)
  {
    CoreFlush(c, s, ts, clk, now, io);
    EndedBefore(Dur(c.interval), s.live.value.start, now);
    NoneInWindow(c, ts, Win(c, t));
    CoreNew(c, FlushOne(c, s, io), ts, now, t, now);
  }

  // --- streaming refines batch -----------------------------------------------------------------

  /** Has the cell produced a bar for window w, handed over or still live. */
  ghost predicate HasBar(s: CellState, w: Time) {
    || (s.live.Some? && s.live.value.start == w)
    || (exists i :: 0 <= i < |s.handed| && s.handed[i].bar.start == w)
  }

  /** The store holds copies of the cell's own bars only, and every tick went into one. */
  ghost predicate Complete(c: Cell, s: CellState, ts: seq<Tick>)
    requires Known(c.interval)
  {
    && (forall t :: t in ts ==> HasBar(s, Win(c, t)))
    && (forall w :: w in s.store ==> HasBar(s, w))
  }

  lemma CompleteStep(c: Cell, s: CellState, e: Event, ts: seq<Tick>, clk: Time)
    requires Known(c.interval) && Core(c, s, ts, clk) && Complete(c, s, ts)
    requires OrderlyEvent(Dur(c.interval), e, clk) && !e.Crash?
    ensures !Restores(c, s, e)
    ensures Opens(c, s, e) ==> In(c, ts, Win(c, e.tick)) == []
    ensures Complete(c, Step(c, s, e), CountOne(false, e, ts))
  {
    hide Summary, TicksIn, Align, Step;
    if e.Feed? && s.live.None? {
      var w := Win(c, e.tick);
      forall i | 0 <= i < |s.handed|
        ensures s.handed[i].bar.start < w
      {
        assert s.handed[i] in s.handed;
        EndedBefore(Dur(c.interval), s.handed[i].bar.start, e.now);
      }
      NoneInWindow(c, ts, w);
    }
    HasBarStep(c, s, e, clk);
    StepStoreKeys(c, s, e);
  }

  lemma StepStoreKeys(c: Cell, s: CellState, e: Event)
    requires Known(c.interval)
    ensures forall w :: w in Step(c, s, e).store ==>
              w in s.store || (Step(c, s, e).live.Some? && Step(c, s, e).live.value.start == w)
  {
    hide Align;
  }

  /** No step but a crash makes the cell forget a bar, and a tick leaves one for its window. */
  lemma HasBarStep(c: Cell, s: CellState, e: Event, clk: Time)
    requires Known(c.interval) && !Restores(c, s, e) && !e.Crash? && WellFormed(c, s)
    requires e.FlushAll? || OrderlyEvent(Dur(c.interval), e, clk)
    requires s.live.Some? ==> s.live.value.start <= clk
    ensures forall w :: HasBar(s, w) ==> HasBar(Step(c, s, e), w)
    ensures e.Feed? ==> HasBar(Step(c, s, e), Win(c, e.tick))
    ensures Step(c, s, e).live.Some? ==> HasBar(Step(c, s, e), Step(c, s, e).live.value.start)
  {
    var s' := Step(c, s, e);
    assert |s.handed| <= |s'.handed| && s'.handed[..|s.handed|] == s.handed;
    forall w | HasBar(s, w)
      ensures HasBar(s', w)
    {
      if i :| 0 <= i < |s.handed| && s.handed[i].bar.start == w {
        assert s'.handed[i] == s.handed[i];
      } else if s'.live != s.live {
        assert (s'.live.Some? && s'.live.value.start == w) || s'.handed[|s.handed|].bar.start == w;
      }
    }
    if e.Feed? && s.live.Some? && !ShouldFlush(s.live.value, e.now) {
      AlignWindow(e.now, s.live.value.start, Dur(c.interval));
    }
  }

  lemma {:induction false} CompleteRun(c: Cell, s: CellState, es: seq<Event>, ts: seq<Tick>, clk: Time)
    requires Known(c.interval) && Core(c, s, ts, clk) && Complete(c, s, ts)
    requires OrderlyRun(Dur(c.interval), es, clk) && forall e :: e in es ==> !e.Crash?
    ensures Core(c, Run(c, s, es), ts + TicksOf(es), ClockAfter(es, clk))
    ensures Complete(c, Run(c, s, es), ts + TicksOf(es))
    ensures NeverRestores(c, s, es)
    decreases es
  {
    hide Core, Complete, Step, OrderlyEvent, Restores, Summary, TicksIn, Align;
    if es == [] {
      assert ts + TicksOf(es) == ts;
    } else {
      var e := es[0];
      assert e in es;
      hide Opens;
      CompleteStep(c, s, e, ts, clk);
      CoreStep(c, s, e, ts, clk);
      CountedTicks(ts, es);
      assert forall f :: f in es[1..] ==> f in es;
      hide CountOne, TicksOf;
      CompleteRun(c, Step(c, s, e), es[1..], CountOne(false, e, ts), Clock(e, clk));
    }
  }

  lemma CountedTicks(ts: seq<Tick>, es: seq<Event>)
    requires es != []
    ensures CountOne(false, es[0], ts) + TicksOf(es[1..]) == ts + TicksOf(es)
  {
    var rest := TicksOf(es[1..]);
    if es[0].Feed? {
      assert (ts + [es[0].tick]) + rest == ts + ([es[0].tick] + rest);
    } else {
      assert [] + rest == rest;
    }
  }

  /** The end of a run: FlushAll reached the cell, or the cell had no live bar to flush. */
  ghost predicate Closing(s: CellState, end: seq<Event>) {
    |end| <= 1 && (end == [] ==> s.live.None?) && (end != [] ==> end[0].FlushAll?)
  }

  /** The batch result: one complete bar per window that has ticks, windows ascending, each the
      summary of that window's ticks. */
  ghost predicate IsBatch(c: Cell, ts: seq<Tick>, bars: seq<Bar>)
    requires Known(c.interval)
  {
    && (forall i, j :: 0 <= i < j < |bars| ==> bars[i].start < bars[j].start)
    && (forall i :: 0 <= i < |bars| ==>
          BarOk(c, bars[i]) && bars[i].complete && Summary(bars[i], In(c, ts, bars[i].start)))
    && (forall t :: t in ts ==> exists i :: 0 <= i < |bars| && bars[i].start == Win(c, t))
  }

  /** Streaming refines batch: in every orderly run without crashes that ends with FlushAll, the
      bars handed to the sinks are the batch result of the ticks - whatever the sinks and the store
      answered, and wherever the sweeps fell. */
  lemma StreamingRefinesBatch(c: Cell, es: seq<Event>, io: IO, clk: Time)
    requires Known(c.interval) && OrderlyRun(Dur(c.interval), es, clk)
    requires forall e :: e in es ==> !e.Crash?
    ensures IsBatch(c, TicksOf(es), BarsHanded(Run(c, EMPTY, es + [FlushAll(io)]).handed))
    ensures Run(c, EMPTY, es + [FlushAll(io)]).live.None?
  {
    hide Summary, TicksIn, Align, BarOk, OrderlyRun, TicksOf;
    CompleteRun(c, EMPTY, es, [], clk);
    assert [] + TicksOf(es) == TicksOf(es);
    RunAppend(c, EMPTY, es, [FlushAll(io)]);
    var s, ts := Run(c, EMPTY, es), TicksOf(es);
    var s' := Run(c, s, [FlushAll(io)]);
    assert [FlushAll(io)][1..] == [];
    assert s' == Step(c, s, FlushAll(io));
    FinalFlush(c, s, ts, ClockAfter(es, clk), io);
  }

  /** The whole log with the live bar behind it is ascending and made of summaries. */
  lemma LastBar(c: Cell, s: CellState, ts: seq<Tick>, clk: Time, bars: seq<Bar>)
    requires Known(c.interval) && Core(c, s, ts, clk) && s.live.Some?
    requires bars == BarsHanded(s.handed) + [s.live.value.(complete := true)]
    ensures forall i, j :: 0 <= i < j < |bars| ==> bars[i].start < bars[j].start
    ensures forall i :: 0 <= i < |bars| ==>
              BarOk(c, bars[i]) && bars[i].complete && Summary(bars[i], In(c, ts, bars[i].start))
  {
    hide TicksIn, Align;
    var last := s.live.value.(complete := true);
    assert Summary(last, In(c, ts, last.start)) && BarOk(c, last);
    hide Summary, BarOk;
    forall i | 0 <= i < |s.handed|
      ensures BarOk(c, bars[i]) && bars[i].complete && Summary(bars[i], In(c, ts, bars[i].start))
    {
      assert bars[i] == s.handed[i].bar && s.handed[i] in s.handed;
    }
  }

  lemma FinalFlush(c: Cell, s: CellState, ts: seq<Tick>, clk: Time, io: IO)
    requires Known(c.interval) && Core(c, s, ts, clk) && Complete(c, s, ts)
    ensures IsBatch(c, ts, BarsHanded(Step(c, s, FlushAll(io)).handed))
  {
    hide Summary, TicksIn, Align, BarOk, In, Win, HasBar;
    var s' := Step(c, s, FlushAll(io));
    var bars := BarsHanded(s'.handed);
    HasBarStep(c, s, FlushAll(io), clk);
    if s.live.Some? {
      assert bars == BarsHanded(s.handed) + [s.live.value.(complete := true)];
      LastBar(c, s, ts, clk, bars);
    } else {
      assert forall i :: 0 <= i < |bars| ==> bars[i] == s.handed[i].bar && s.handed[i] in s.handed;
    }
    assert s'.live.None? && forall t :: t in ts ==> HasBar(s', Win(c, t));
    hide Step, Core, Complete;
    forall t | t in ts
      ensures exists i :: 0 <= i < |bars| && bars[i].start == Win(c, t)
    {
      HandedHas(s', Win(c, t));
    }
  }

  lemma HandedHas(s: CellState, w: Time)
    requires s.live.None? && HasBar(s, w)
    ensures exists i :: 0 <= i < |BarsHanded(s.handed)| && BarsHanded(s.handed)[i].start == w
  {
    var i :| 0 <= i < |s.handed| && s.handed[i].bar.start == w;
    assert BarsHanded(s.handed)[i].start == w;
  }

  /** There is only one batch result. */
  lemma {:induction false} BatchUnique(c: Cell, ts: seq<Tick>, bars: seq<Bar>, bars': seq<Bar>)
    requires Known(c.interval) && IsBatch(c, ts, bars) && IsBatch(c, ts, bars')
    ensures bars == bars'
  {
    forall k: nat | k < |bars| && k < |bars'|
      ensures bars[k] == bars'[k]
    {
      SamePlace(c, ts, bars, bars', k);
    }
    NotLonger(c, ts, bars, bars');
    NotLonger(c, ts, bars', bars);
  }

  /** Every window of one batch result is a window of the other. */
  lemma SameWindows(c: Cell, ts: seq<Tick>, bars: seq<Bar>, bars': seq<Bar>, k: nat)
    requires Known(c.interval) && IsBatch(c, ts, bars) && IsBatch(c, ts, bars') && k < |bars|
    ensures exists j :: 0 <= j < |bars'| && bars'[j].start == bars[k].start
  {
    assert Summary(bars[k], In(c, ts, bars[k].start));
    var t := In(c, ts, bars[k].start)[0];
    assert t in In(c, ts, bars[k].start);
    assert t in ts && Win(c, t) == bars[k].start;
    hide *;
  }

  lemma SamePlace(c: Cell, ts: seq<Tick>, bars: seq<Bar>, bars': seq<Bar>, k: nat)
    requires Known(c.interval) && IsBatch(c, ts, bars) && IsBatch(c, ts, bars')
    requires k < |bars| && k < |bars'|
    ensures bars[k] == bars'[k]
    decreases k
  {
    hide TicksIn, Align;
    SameWindows(c, ts, bars, bars', k);
    SameWindows(c, ts, bars', bars, k);
    var j :| 0 <= j < |bars'| && bars'[j].start == bars[k].start;
    var j' :| 0 <= j' < |bars| && bars[j'].start == bars'[k].start;
    if j < k {
      SamePlace(c, ts, bars, bars', j);
    }
    if j' < k {
      SamePlace(c, ts, bars, bars', j');
    }
    assert bars[k].start == bars'[k].start;
    assert Summary(bars[k], In(c, ts, bars[k].start)) && Summary(bars'[k], In(c, ts, bars[k].start));
  }

  lemma NotLonger(c: Cell, ts: seq<Tick>, bars: seq<Bar>, bars': seq<Bar>)
    requires Known(c.interval) && IsBatch(c, ts, bars) && IsBatch(c, ts, bars')
    ensures |bars'| <= |bars|
  {
    hide Summary, TicksIn, Align;
    var k := |bars|;
    if k < |bars'| {
      SameWindows(c, ts, bars', bars, k);
      var j :| 0 <= j < |bars| && bars[j].start == bars'[k].start;
      SamePlace(c, ts, bars, bars', j);
    }
  }
}
