/** Runs of the aggregator as its callers see them: calls of Process, sweeps, FlushAll, crashes.

    One call of Process feeds the tick to every configured interval in turn; a sweep or FlushAll
    visits cells in the arbitrary order of Go's map iteration. */
module Runs {
  import opened Wrappers
  import opened Intervals
  import opened Bars
  import opened Cells
  import opened Orderly
  import opened Aggregator

  /** One interval's turn within Process: its own clock reading and outcomes. */
  datatype Turn = Turn(now: Time, io: IO)

  datatype Visit = Visit(cell: Cell, io: IO)

  datatype Op =
    | Process(symbol: string, tick: Tick, turns: seq<Turn>)
    | SweepAll(now: Time, visits: seq<Visit>)
    | FlushEverything(visits: seq<Visit>)
    | Restart
    | ExpireKey(cell: Cell, start: Time, now: Time)

  predicate KnownIntervals(ivs: seq<string>) {
    forall iv :: iv in ivs ==> Known(iv)
  }

  predicate ValidOp(ivs: seq<string>, op: Op) {
    match op
    case Process(_, _, turns) => |turns| == |ivs|
    case SweepAll(_, visits) => forall v :: v in visits ==> Known(v.cell.interval)
    case FlushEverything(visits) => forall v :: v in visits ==> Known(v.cell.interval)
    case Restart => true
    case ExpireKey(c, _, _) => Known(c.interval)
  }

  // --- expanding calls into events -------------------------------------------------------------

  function FeedAll(ivs: seq<string>, symbol: string, t: Tick, turns: seq<Turn>): (evs: seq<SysEvent>)
    requires |turns| == |ivs|
    ensures KnownIntervals(ivs) ==> forall ev :: ev in evs ==> ValidEvent(ev)
  {
    if ivs == [] then []
    else
      var n := |ivs| - 1;
      FeedAll(ivs[..n], symbol, t, turns[..n])
      + [At(Cell(ivs[n], symbol), Feed(t, turns[n].now, turns[n].io))]
  }

  /** What a visit does to a cell: a sweep has a clock reading, FlushAll has none. */
  function VisitEvent(when: Option<Time>, io: IO): Event {
    if when.Some? then Sweep(when.value, io) else FlushAll(io)
  }

  function VisitAll(when: Option<Time>, visits: seq<Visit>): (evs: seq<SysEvent>)
    ensures (forall v :: v in visits ==> Known(v.cell.interval)) ==>
              forall ev :: ev in evs ==> ValidEvent(ev)
  {
    if visits == [] then []
    else
      var n := |visits| - 1;
      VisitAll(when, visits[..n]) + [At(visits[n].cell, VisitEvent(when, visits[n].io))]
  }

  function Expand(ivs: seq<string>, op: Op): (evs: seq<SysEvent>)
    requires KnownIntervals(ivs) && ValidOp(ivs, op)
    ensures forall ev :: ev in evs ==> ValidEvent(ev)
  {
    match op
    case Process(symbol, t, turns) => FeedAll(ivs, symbol, t, turns)
    case SweepAll(now, visits) => VisitAll(Some(now), visits)
    case FlushEverything(visits) => VisitAll(None, visits)
    case Restart => [CrashAll]
    case ExpireKey(c, w, now) => [At(c, Expire(w, now))]
  }

  function ExpandAll(ivs: seq<string>, ops: seq<Op>): (evs: seq<SysEvent>)
    requires KnownIntervals(ivs) && forall op :: op in ops ==> ValidOp(ivs, op)
    ensures forall ev :: ev in evs ==> ValidEvent(ev)
  {
    if ops == [] then [] else Expand(ivs, ops[0]) + ExpandAll(ivs, ops[1..])
  }

  function SymbolTicks(ops: seq<Op>, symbol: string): seq<Tick> {
    if ops == [] then []
    else
      (if ops[0].Process? && ops[0].symbol == symbol then [ops[0].tick] else [])
      + SymbolTicks(ops[1..], symbol)
  }

  // --- what one cell gets out of one call ------------------------------------------------------

  lemma {:induction false} EventsAtAppend(c: Cell, evs: seq<SysEvent>, fvs: seq<SysEvent>)
    ensures EventsAt(c, evs + fvs) == EventsAt(c, evs) + EventsAt(c, fvs)
    decreases |evs|
  {
    if evs == [] {
      assert evs + fvs == fvs;
    } else {
      assert (evs + fvs)[1..] == evs[1..] + fvs;
      EventsAtAppend(c, evs[1..], fvs);
    }
  }

  lemma EventsAtOne(c: Cell, ev: SysEvent)
    ensures EventsAt(c, [ev]) == EventAt(c, ev)
  {
    assert [ev][1..] == [];
  }

  function Count(ivs: seq<string>, iv: string): nat {
    if ivs == [] then 0 else Count(ivs[..|ivs| - 1], iv) + if ivs[|ivs| - 1] == iv then 1 else 0
  }

  function Copies(t: Tick, n: nat): seq<Tick> {
    if n == 0 then [] else Copies(t, n - 1) + [t]
  }

  lemma TicksOfCons(e: Event, es: seq<Event>)
    ensures TicksOf([e] + es) == (if e.Feed? then [e.tick] else []) + TicksOf(es)
    ensures TicksOf([]) == []
  {
    assert ([e] + es)[1..] == es;
  }

  lemma {:induction false} TicksOfAppend(es: seq<Event>, fs: seq<Event>)
    ensures TicksOf(es + fs) == TicksOf(es) + TicksOf(fs)
  {
    hide TicksOf;
    if es == [] {
      assert es + fs == fs;
      TicksOfCons(Crash, []);
    } else {
      var e, rest := es[0], es[1..];
      TicksOfAppend(rest, fs);
      assert es == [e] + rest && es + fs == [e] + (rest + fs);
      TicksOfCons(e, rest);
      TicksOfCons(e, rest + fs);
    }
  }

  /** Process counts a tick in a cell once for every time the interval is configured: repeating an
      interval in the configuration, which NewManager accepts, multiplies the cell's ticks. */
  lemma {:induction false} TickMultiplicity(ivs: seq<string>, symbol: string, t: Tick,
                                            turns: seq<Turn>, c: Cell)
    requires |turns| == |ivs|
    ensures TicksOf(EventsAt(c, FeedAll(ivs, symbol, t, turns)))
         == if c.symbol == symbol then Copies(t, Count(ivs, c.interval)) else []
    decreases |ivs|
  {
    hide FeedAll, EventsAt, EventAt, TicksOf, ValidEvent, KnownIntervals;
    if ivs == [] {
      NoTicks(symbol, t, c);
    } else {
      var n := |ivs| - 1;
      var ev := At(Cell(ivs[n], symbol), Feed(t, turns[n].now, turns[n].io));
      var before := FeedAll(ivs[..n], symbol, t, turns[..n]);
      LastFeed(ivs, symbol, t, turns);
      TickMultiplicity(ivs[..n], symbol, t, turns[..n], c);
      OneFeedTicks(c, Cell(ivs[n], symbol), ev.e);
      EventsAtAppend(c, before, [ev]);
      EventsAtOne(c, ev);
      TicksOfAppend(EventsAt(c, before), EventAt(c, ev));
      assert c == Cell(ivs[n], symbol) <==> c.symbol == symbol && c.interval == ivs[n];
    }
  }

  lemma NoTicks(symbol: string, t: Tick, c: Cell)
    ensures TicksOf(EventsAt(c, FeedAll([], symbol, t, []))) == []
  {
  }

  lemma LastFeed(ivs: seq<string>, symbol: string, t: Tick, turns: seq<Turn>)
    requires |turns| == |ivs| && ivs != []
    ensures var n := |ivs| - 1;
      FeedAll(ivs, symbol, t, turns)
      == FeedAll(ivs[..n], symbol, t, turns[..n]) + [At(Cell(ivs[n], symbol), Feed(t, turns[n].now, turns[n].io))]
  {
  }

  lemma OneFeedTicks(c: Cell, c': Cell, e: Event)
    requires e.Feed?
    ensures TicksOf(EventAt(c, At(c', e))) == if c == c' then [e.tick] else []
  {
    assert c == c' ==> EventAt(c, At(c', e))[1..] == [];
  }

  lemma {:induction false} CountAbsent(ivs: seq<string>, iv: string)
    requires iv !in ivs
    ensures Count(ivs, iv) == 0
  {
    if ivs == [] {
    } else {
      CountAbsent(ivs[..|ivs| - 1], iv);
    }
  }

  lemma {:induction false} CountDistinct(ivs: seq<string>, iv: string)
    requires NoDuplicates(ivs) && iv in ivs
    ensures Count(ivs, iv) == 1
  {
    var n := |ivs| - 1;
    if ivs[n] == iv {
      CountAbsent(ivs[..n], iv);
    } else {
      CountDistinct(ivs[..n], iv);
    }
  }

  lemma {:induction false} SweepTicks(c: Cell, now: Time, visits: seq<Visit>)
    ensures forall e :: e in EventsAt(c, VisitAll(Some(now), visits)) ==> e.Sweep? && e.now == now
    ensures TicksOf(EventsAt(c, VisitAll(Some(now), visits))) == []
  {
    if visits == [] {
    } else {
      var n := |visits| - 1;
      var ev := At(visits[n].cell, Sweep(now, visits[n].io));
      SweepTicks(c, now, visits[..n]);
      EventsAtAppend(c, VisitAll(Some(now), visits[..n]), [ev]);
      EventsAtOne(c, ev);
      TicksOfAppend(EventsAt(c, VisitAll(Some(now), visits[..n])), EventAt(c, ev));
      assert EventAt(c, ev) != [] ==> EventAt(c, ev)[1..] == [];
    }
  }

  // --- orderly runs ----------------------------------------------------------------------------

  /** Every reading is at least the last one and in the tick's window of the finest interval. */
  predicate OrderlyTurns(turns: seq<Turn>, ts: Time, fine: nat, clk: Time)
    requires fine > 0
  {
    forall i :: 0 <= i < |turns| ==>
      && clk <= turns[i].now && Align(turns[i].now, fine) == Align(ts, fine)
      && (i > 0 ==> turns[i - 1].now <= turns[i].now)
  }

  function OpClock(op: Op, clk: Time): Time {
    match op
    case Process(_, _, turns) => if turns == [] then clk else turns[|turns| - 1].now
    case SweepAll(now, _) => if now > clk then now else clk
    case ExpireKey(_, _, now) => if now > clk then now else clk
    case _ => clk
  }

  predicate OrderlyOps(ops: seq<Op>, fine: nat, clk: Time)
    requires fine > 0
    decreases ops
  {
    ops == [] ||
    (&& !ops[0].FlushEverything?
     && (ops[0].Process? ==> OrderlyTurns(ops[0].turns, ops[0].tick.ts, fine, clk))
     && OrderlyOps(ops[1..], fine, OpClock(ops[0], clk)))
  }

  /** An earlier starting clock admits the same runs. */
  lemma {:induction false} OrderlyEarlier(d: nat, es: seq<Event>, clk: Time, clk': Time)
    requires d > 0 && clk' <= clk && OrderlyRun(d, es, clk)
    ensures OrderlyRun(d, es, clk') && ClockAfter(es, clk') <= ClockAfter(es, clk)
    decreases es
  {
    if es == [] {
    } else {
      OrderlyEarlier(d, es[1..], Clock(es[0], clk), Clock(es[0], clk'));
    }
  }

  lemma {:induction false} OrderlyAppend(d: nat, es: seq<Event>, fs: seq<Event>, clk: Time)
    requires d > 0 && OrderlyRun(d, es, clk) && OrderlyRun(d, fs, ClockAfter(es, clk))
    ensures OrderlyRun(d, es + fs, clk)
    ensures ClockAfter(es + fs, clk) == ClockAfter(fs, ClockAfter(es, clk))
    decreases es
  {
    hide OrderlyEvent;
    if es == [] {
      assert es + fs == fs;
    } else {
      assert (es + fs)[1..] == es[1..] + fs;
      OrderlyAppend(d, es[1..], fs, Clock(es[0], clk));
    }
  }

  lemma OrderlyOne(d: nat, e: Event, clk: Time)
    requires d > 0 && OrderlyEvent(d, e, clk)
    ensures OrderlyRun(d, [e], clk) && ClockAfter([e], clk) == Clock(e, clk)
  {
    assert [e][1..] == [];
  }

  lemma {:induction false} FeedsOrderly(ivs: seq<string>, symbol: string, t: Tick, turns: seq<Turn>,
                                        c: Cell, fine: nat, clk: Time)
    requires |turns| == |ivs| && fine > 0 && Known(c.interval) && Dur(c.interval) % fine == 0
    requires OrderlyTurns(turns, t.ts, fine, clk)
    ensures var es := EventsAt(c, FeedAll(ivs, symbol, t, turns));
      && OrderlyRun(Dur(c.interval), es, clk)
      && ClockAfter(es, clk) <= OpClock(Process(symbol, t, turns), clk)
      && forall e :: e in es ==> e.Feed?
    decreases |ivs|
  {
    if ivs == [] {
    } else {
      var n := |ivs| - 1;
      var ev := At(Cell(ivs[n], symbol), Feed(t, turns[n].now, turns[n].io));
      var before := FeedAll(ivs[..n], symbol, t, turns[..n]);
      assert FeedAll(ivs, symbol, t, turns) == before + [ev];
      hide Known, FeedAll;
      var es := EventsAt(c, before);
      FeedsOrderly(ivs[..n], symbol, t, turns[..n], c, fine, clk);
      EventsAtAppend(c, before, [ev]);
      EventsAtOne(c, ev);
      assert ClockAfter(es, clk) <= turns[n].now;
      assert Align(turns[n].now, fine) == Align(t.ts, fine);
      hide EventsAt, OrderlyTurns, OrderlyRun, ClockAfter, Align;
      if EventAt(c, ev) != [] {
        FeedOrderly(es, ev.e, Dur(c.interval), fine, clk);
      } else {
        assert es + [] == es;
      }
    }
  }

  /** A feed whose clock is in the tick's finest window prolongs an orderly run. */
  lemma FeedOrderly(es: seq<Event>, e: Event, d: nat, fine: nat, clk: Time)
    requires e.Feed? && fine > 0 && d > 0 && d % fine == 0
    requires OrderlyRun(d, es, clk) && ClockAfter(es, clk) <= e.now && Align(e.now, fine) == Align(e.tick.ts, fine)
    ensures OrderlyRun(d, es + [e], clk) && ClockAfter(es + [e], clk) == e.now
  {
    FineWindowsAgree(e.now, e.tick.ts, fine, d);
    hide Align;
    OrderlyOne(d, e, ClockAfter(es, clk));
    OrderlyAppend(d, es, [e], clk);
  }

  lemma {:induction false} SweepsOrderly(d: nat, es: seq<Event>, now: Time, clk: Time)
    requires d > 0 && forall e :: e in es ==> e.Sweep? && e.now == now
    ensures OrderlyRun(d, es, clk)
    ensures ClockAfter(es, clk) <= if now > clk then now else clk
    decreases es
  {
    if es == [] {
    } else {
      SweepsOrderly(d, es[1..], now, Clock(es[0], clk));
    }
  }

  /** One orderly call is orderly for every cell, and brings its symbol's cells one tick. */
  lemma OpAtCell(ivs: seq<string>, op: Op, c: Cell, fine: nat, clk: Time)
    requires KnownIntervals(ivs) && ValidOp(ivs, op) && !op.FlushEverything?
    requires fine > 0 && Known(c.interval) && Dur(c.interval) % fine == 0
    requires op.Process? ==> OrderlyTurns(op.turns, op.tick.ts, fine, clk)
    ensures var es := EventsAt(c, Expand(ivs, op));
      && OrderlyRun(Dur(c.interval), es, clk)
      && ClockAfter(es, clk) <= OpClock(op, clk)
      && (!op.Restart? ==> forall e :: e in es ==> !e.Crash?)
    ensures NoDuplicates(ivs) && c.interval in ivs ==>
      TicksOf(EventsAt(c, Expand(ivs, op)))
      == if op.Process? && op.symbol == c.symbol then [op.tick] else []
  {
    match op
    case Process(symbol, t, turns) =>
      FeedsOrderly(ivs, symbol, t, turns, c, fine, clk);
      TickMultiplicity(ivs, symbol, t, turns, c);
      if NoDuplicates(ivs) && c.interval in ivs {
        CountDistinct(ivs, c.interval);
        assert Copies(t, 1) == Copies(t, 0) + [t];
      }
    case SweepAll(now, visits) =>
      SweepTicks(c, now, visits);
      SweepsOrderly(Dur(c.interval), EventsAt(c, Expand(ivs, op)), now, clk);
    case Restart =>
      EventsAtOne(c, CrashAll);
      OrderlyOne(Dur(c.interval), Crash, clk);
    case ExpireKey(c', w, now) =>
      EventsAtOne(c, At(c', Expire(w, now)));
      OrderlyOne(Dur(c.interval), Expire(w, now), clk);
  }

  /** With distinct intervals a call of Process is one tick at the cell of each interval. */
  lemma {:induction false} FeedsAt(ivs: seq<string>, symbol: string, t: Tick, turns: seq<Turn>, c: Cell)
    requires |turns| == |ivs| && NoDuplicates(ivs)
    ensures var es := EventsAt(c, FeedAll(ivs, symbol, t, turns));
      && (c.interval !in ivs || c.symbol != symbol ==> es == [])
      && forall i :: 0 <= i < |ivs| && c == Cell(ivs[i], symbol) ==> es == [Feed(t, turns[i].now, turns[i].io)]
    decreases |ivs|
  {
    hide FeedAll, EventsAt;
    if ivs == [] {
      NoFeedsAt(symbol, t, c);
    } else {
      var n := |ivs| - 1;
      var ev := At(Cell(ivs[n], symbol), Feed(t, turns[n].now, turns[n].io));
      LastFeed(ivs, symbol, t, turns);
      FeedsAt(ivs[..n], symbol, t, turns[..n], c);
      EventsAtAppend(c, FeedAll(ivs[..n], symbol, t, turns[..n]), [ev]);
      EventsAtOne(c, ev);
      assert forall i :: 0 <= i < n ==> ivs[..n][i] == ivs[i] && turns[..n][i] == turns[i];
      assert c == Cell(ivs[n], symbol) <==> c.symbol == symbol && c.interval == ivs[n];
    }
  }

  lemma NoFeedsAt(symbol: string, t: Tick, c: Cell)
    ensures EventsAt(c, FeedAll([], symbol, t, [])) == []
  {
  }

  lemma {:induction false} OpsAtCell(ivs: seq<string>, ops: seq<Op>, c: Cell, fine: nat, clk: Time)
    requires KnownIntervals(ivs) && NoDuplicates(ivs) && c.interval in ivs
    requires forall op :: op in ops ==> ValidOp(ivs, op)
    requires fine > 0 && Dur(c.interval) % fine == 0 && OrderlyOps(ops, fine, clk)
    ensures OrderlyRun(Dur(c.interval), EventsAt(c, ExpandAll(ivs, ops)), clk)
    ensures TicksOf(EventsAt(c, ExpandAll(ivs, ops))) == SymbolTicks(ops, c.symbol)
    ensures (forall op :: op in ops ==> !op.Restart?) ==>
              forall e :: e in EventsAt(c, ExpandAll(ivs, ops)) ==> !e.Crash?
    decreases ops
  {
    if ops == [] {
    } else {
      var d, op, rest := Dur(c.interval), ops[0], ops[1..];
      var es, fs := EventsAt(c, Expand(ivs, op)), EventsAt(c, ExpandAll(ivs, rest));
      OpAtCell(ivs, op, c, fine, clk);
      OpsAtCell(ivs, rest, c, fine, OpClock(op, clk));
      OrderlyEarlier(d, fs, OpClock(op, clk), ClockAfter(es, clk));
      hide OrderlyRun, EventsAt, TicksOf, FeedAll, VisitAll, OrderlyOps, OpClock, Align;
      EventsAtAppend(c, Expand(ivs, op), ExpandAll(ivs, rest));
      OrderlyAppend(d, es, fs, clk);
      TicksOfAppend(es, fs);
    }
  }

  // --- the final FlushAll ----------------------------------------------------------------------

  function VisitedCells(visits: seq<Visit>): set<Cell> {
    set v | v in visits :: v.cell
  }

  predicate NoRepeat(visits: seq<Visit>) {
    forall i, j :: 0 <= i < j < |visits| ==> visits[i].cell != visits[j].cell
  }

  /** A pass visits every live cell once. */
  predicate Covers(visits: seq<Visit>, s: SysState) {
    NoRepeat(visits) && VisitedCells(visits) == s.live.Keys
  }

  lemma VisitSnoc(s: SysState, when: Option<Time>, visits: seq<Visit>, v: Visit)
    requires Known(v.cell.interval) && forall u :: u in visits ==> Known(u.cell.interval)
    ensures forall u :: u in visits + [v] ==> Known(u.cell.interval)
    ensures SysRun(s, VisitAll(when, visits + [v]))
         == SysStep(SysRun(s, VisitAll(when, visits)), At(v.cell, VisitEvent(when, v.io)))
  {
    hide SysStep;
    var ev := At(v.cell, VisitEvent(when, v.io));
    assert (visits + [v])[..|visits|] == visits;
    SysRunAppend(s, VisitAll(when, visits), [ev]);
    assert [ev][1..] == [];
  }

  lemma {:induction false} VisitAppend(s: SysState, when: Option<Time>, visits: seq<Visit>, more: seq<Visit>)
    requires forall u :: u in visits + more ==> Known(u.cell.interval)
    ensures SysRun(s, VisitAll(when, visits + more))
         == SysRun(SysRun(s, VisitAll(when, visits)), VisitAll(when, more))
  {
    hide SysStep, Known;
    if more == [] {
      assert visits + more == visits;
    } else {
      var n := |more| - 1;
      assert visits + more == visits + more[..n] + [more[n]];
      assert more == more[..n] + [more[n]];
      VisitAppend(s, when, visits, more[..n]);
      VisitSnoc(s, when, visits + more[..n], more[n]);
      VisitSnoc(SysRun(s, VisitAll(when, visits)), when, more[..n], more[n]);
    }
  }

  /** Did every sink accept every bar handed over since the log had n entries. */
  predicate AcceptedSince(hs: seq<Handed>, n: nat) {
    forall i :: n <= i < |hs| ==> Accepted(hs[i].answers)
  }

  lemma {:induction false} VisitedOnce(visits: seq<Visit>, c: Cell)
    requires NoRepeat(visits)
    ensures (forall i :: 0 <= i < |visits| ==> visits[i].cell != c) ==>
              EventsAt(c, VisitAll(None, visits)) == []
    ensures forall i :: 0 <= i < |visits| && visits[i].cell == c ==>
              EventsAt(c, VisitAll(None, visits)) == [FlushAll(visits[i].io)]
  {
    hide VisitAll, EventsAt;
    if visits == [] {
      NoVisitsAt(c);
    } else {
      var n := |visits| - 1;
      var ev := At(visits[n].cell, FlushAll(visits[n].io));
      var before := VisitAll(None, visits[..n]);
      LastVisit(None, visits);
      VisitedOnce(visits[..n], c);
      EventsAtAppend(c, before, [ev]);
      EventsAtOne(c, ev);
      assert forall i :: 0 <= i < n ==> visits[..n][i] == visits[i] && visits[i].cell != visits[n].cell;
    }
  }

  lemma NoVisitsAt(c: Cell)
    ensures EventsAt(c, VisitAll(None, [])) == []
  {
  }

  lemma LastVisit(when: Option<Time>, visits: seq<Visit>)
    requires visits != []
    ensures var n := |visits| - 1;
      VisitAll(when, visits) == VisitAll(when, visits[..n]) + [At(visits[n].cell, VisitEvent(when, visits[n].io))]
  {
  }

  /** The end of a cell's run: FlushAll reached it, or it had no live bar to flush. */
  lemma FinalCell(c: Cell, es: seq<Event>, fs: seq<Event>, clk: Time)
    requires Known(c.interval) && OrderlyRun(Dur(c.interval), es, clk)
    requires forall e :: e in es ==> !e.Crash?
    requires Closing(Run(c, EMPTY, es), fs)
    ensures var end := Run(c, Run(c, EMPTY, es), fs);
      IsBatch(c, TicksOf(es), BarsHanded(end.handed)) && end.live.None?
  {
    hide IsBatch, OrderlyRun, TicksOf, OrderlyEvent;
    var io := if fs == [] then IO(true, true, true, []) else fs[0].io;
    StreamingRefinesBatch(c, es, io, clk);
    RunAppend(c, EMPTY, es, [FlushAll(io)]);
    RunOne(c, Run(c, EMPTY, es), [FlushAll(io)]);
    RunOne(c, Run(c, EMPTY, es), fs);
  }

  /** FlushAll over the live cells closes every cell. */
  lemma FlushAllAtCell(s: SysState, visits: seq<Visit>, c: Cell)
    requires Covers(visits, s) && Known(c.interval)
    ensures Closing(Project(s, c), EventsAt(c, VisitAll(None, visits)))
  {
    VisitedOnce(visits, c);
    if c in VisitedCells(visits) {
      var v :| v in visits && v.cell == c;
      var i :| 0 <= i < |visits| && visits[i] == v;
    } else {
      assert forall i :: 0 <= i < |visits| ==> visits[i] in visits && visits[i].cell != c;
    }
  }

  /** Streaming refines batch, for the whole system: take any orderly run of calls without a crash,
      ended by FlushAll over the live cells in any order. For every configured interval and every
      symbol, the bars that reached the sinks are the batch result of the symbol's ticks, whatever
      the sinks and the store answered. */
  lemma StreamingRefinesBatchSystem(ivs: seq<string>, finest: string, ops: seq<Op>, visits: seq<Visit>,
                                    clk: Time, c: Cell)
    requires KnownIntervals(ivs) && NoDuplicates(ivs) && finest in ivs && c.interval in ivs
    requires forall iv :: iv in ivs ==> Dur(finest) <= Dur(iv)
    requires forall op :: op in ops ==> ValidOp(ivs, op) && !op.Restart?
    requires OrderlyOps(ops, Dur(finest), clk)
    requires ValidOp(ivs, FlushEverything(visits))
    requires Covers(visits, SysRun(START, ExpandAll(ivs, ops)))
    ensures
      var end := SysRun(SysRun(START, ExpandAll(ivs, ops)), VisitAll(None, visits));
      && IsBatch(c, SymbolTicks(ops, c.symbol), BarsHanded(HandedOf(end.handed, c)))
      && c !in end.live
  {
    var evs, fvs := ExpandAll(ivs, ops), VisitAll(None, visits);
    var es := EventsAt(c, evs);
    var s := SysRun(START, evs);
    DurationsDivide(finest, c.interval);
    OpsAtCell(ivs, ops, c, Dur(finest), clk);
    StartProjects(c);
    CellsAreIndependent(START, evs, c);
    CellsAreIndependent(s, fvs, c);
    FlushAllAtCell(s, visits, c);
    FinalCell(c, es, EventsAt(c, fvs), clk);
  }
}
