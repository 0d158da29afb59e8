/** Sink failures, crashes and expiring keys: what survives them.

    Here loads and saves take effect; sinks may refuse, deletes may fail, memory may be lost at any
    step, and the store drops a key once its time to live has run out. */
module Recovery {
  import opened Wrappers
  import opened Intervals
  import opened Bars
  import opened Cells
  import opened Orderly

  /** The save takes effect, and so does the load where there is a copy to load. */
  ghost predicate Reliable(c: Cell, s: CellState, e: Event)
    requires Known(c.interval)
  {
    e.Feed? ==> e.io.saveOk && (s.live.None? && Win(c, e.tick) in s.store ==> e.io.loadOk)
  }

  ghost predicate ReliableRun(c: Cell, s: CellState, es: seq<Event>)
    requires Known(c.interval)
    decreases es
  {
    es == [] || (Reliable(c, s, es[0]) && ReliableRun(c, Step(c, s, es[0]), es[1..]))
  }

  // --- keys that ran out -----------------------------------------------------------------------

  /** The step drops the key of window w because its time to live is over, two durations after the
      window's start or later. */
  predicate RunsOut(c: Cell, s: CellState, e: Event, w: Time)
    requires Known(c.interval)
  {
    && e.Expire? && e.start == w && w in s.store && s.store[w].deadline <= e.now
    && e.now >= w + 2 * Dur(c.interval)
  }

  /** Some step of the run does. */
  ghost predicate Expired(c: Cell, s: CellState, es: seq<Event>, w: Time)
    requires Known(c.interval)
    decreases es
  {
    es != [] && (RunsOut(c, s, es[0], w) || Expired(c, Step(c, s, es[0]), es[1..], w))
  }

  ghost function GoneOne(c: Cell, s: CellState, e: Event, gone: set<Time>): set<Time>
    requires Known(c.interval)
  {
    if e.Expire? && RunsOut(c, s, e, e.start) then gone + {e.start} else gone
  }

  /** The windows whose keys ran out. */
  ghost function GoneAfter(c: Cell, s: CellState, es: seq<Event>, gone: set<Time>): set<Time>
    requires Known(c.interval)
    decreases es
  {
    if es == [] then gone else GoneAfter(c, Step(c, s, es[0]), es[1..], GoneOne(c, s, es[0], gone))
  }

  lemma {:induction false} GoneExpired(c: Cell, s: CellState, es: seq<Event>, gone: set<Time>, w: Time)
    requires Known(c.interval) && w in GoneAfter(c, s, es, gone)
    ensures w in gone || Expired(c, s, es, w)
    decreases es
  {
    hide Step;
    if es == [] {
    } else {
      GoneExpired(c, Step(c, s, es[0]), es[1..], GoneOne(c, s, es[0], gone), w);
    }
  }

  // --- the store as a second copy --------------------------------------------------------------

  /** Every stored bar is the summary of its window's counted ticks and lives for two durations. */
  ghost predicate StoreSummaries(c: Cell, s: CellState, ts: seq<Tick>)
    requires Known(c.interval)
  {
    forall w :: w in s.store ==>
      && Summary(FromProto(c.interval, s.store[w].pb), In(c, ts, w))
      && s.store[w].deadline >= w + 2 * Dur(c.interval)
  }

  ghost predicate AcceptedBar(s: CellState, w: Time) {
    exists i :: 0 <= i < |s.handed| && s.handed[i].bar.start == w && Accepted(s.handed[i].answers)
  }

  /** Window w is live, or accepted by every sink, or in the store, or its key ran out. */
  ghost predicate Safe(s: CellState, w: Time, gone: set<Time>) {
    || (s.live.Some? && s.live.value.start == w)
    || AcceptedBar(s, w)
    || w in s.store
    || w in gone
  }

  ghost predicate Kept(c: Cell, s: CellState, ts: seq<Tick>, clk: Time, gone: set<Time>)
    requires Known(c.interval)
  {
    && StoreSummaries(c, s, ts)
    && (s.live.Some? ==> CopyCurrent(s, gone))
    && (forall t :: t in ts ==> Safe(s, Win(c, t), gone))
    && (forall w :: w in gone ==> w + 2 * Dur(c.interval) <= clk)
  }

  /** The live bar's copy is current, unless its key ran out. */
  ghost predicate CopyCurrent(s: CellState, gone: set<Time>)
    requires s.live.Some?
  {
    var b := s.live.value;
    (b.start in s.store && s.store[b.start].pb == ToProto(b)) || b.start in gone
  }

  /** A window that is still open when a tick arrives cannot have been handed over or expired. */
  lemma OpenWindow(c: Cell, s: CellState, ts: seq<Tick>, clk: Time, gone: set<Time>, now: Time, w: Time)
    requires Known(c.interval) && Core(c, s, ts, clk) && Kept(c, s, ts, clk, gone)
    requires s.live.None? && clk <= now && w == Align(now, Dur(c.interval)) && w !in s.store
    ensures In(c, ts, w) == []
  {
    hide Summary, TicksIn, Align;
    AlignWindow(now, w, Dur(c.interval));
    forall i | 0 <= i < |s.handed|
      ensures s.handed[i].bar.start != w
    {
      assert s.handed[i] in s.handed;
    }
    forall t | t in ts
      ensures Win(c, t) != w
    {
      assert Safe(s, Win(c, t), gone);
    }
    NoneInWindow(c, ts, w);
  }

  /** Adding a tick of window w changes no other window's summary. */
  lemma OtherWindows(c: Cell, s: CellState, ts: seq<Tick>, t: Tick, pb: PbBar, deadline: Time)
    requires Known(c.interval) && StoreSummaries(c, s, ts)
    requires Summary(FromProto(c.interval, pb), In(c, ts + [t], Win(c, t)))
    requires deadline >= Win(c, t) + 2 * Dur(c.interval)
    ensures StoreSummaries(c, s.(store := s.store[Win(c, t) := Saved(pb, deadline)]), ts + [t])
  {
    hide Summary, TicksIn, Align;
    var s' := s.(store := s.store[Win(c, t) := Saved(pb, deadline)]);
    forall w | w in s'.store
      ensures Summary(FromProto(c.interval, s'.store[w].pb), In(c, ts + [t], w))
    {
      TicksInSnoc(ts, t, Dur(c.interval), w);
      if w != Win(c, t) {
        assert In(c, ts + [t], w) == In(c, ts, w) + [] == In(c, ts, w);
      }
    }
  }

  /** The state after a tick whose save took effect, whichever branch it went through. */
  lemma SaveKeeps(c: Cell, m: CellState, s': CellState, ts: seq<Tick>, t: Tick, now: Time, gone: set<Time>)
    requires Known(c.interval) && m.live.Some? && m.live.value.start == Win(c, t)
    requires s' == Save(c, m, now, true)
    requires Core(c, m, ts + [t], now) && StoreSummaries(c, m, ts)
    requires forall u :: u in ts ==> Safe(m, Win(c, u), gone)
    requires forall w :: w in gone ==> w + 2 * Dur(c.interval) <= now
    ensures Kept(c, s', ts + [t], now, gone)
  {
    hide TicksIn, Align, Core, Summary;
    var b := m.live.value;
    LiveSummary(c, m, ts + [t], now);
    OtherWindows(c, m, ts, t, ToProto(b), now + 2 * Dur(c.interval));
    hide StoreSummaries;
    forall u | u in ts + [t]
      ensures Safe(s', Win(c, u), gone)
    {
      if u in ts {
        assert Safe(m, Win(c, u), gone);
      }
    }
  }

  lemma LiveSummary(c: Cell, m: CellState, ts: seq<Tick>, now: Time)
    requires Known(c.interval) && Core(c, m, ts, now) && m.live.Some?
    ensures var b := m.live.value;
      b.start <= now && Summary(FromProto(c.interval, ToProto(b)), In(c, ts, b.start))
  {
    hide TicksIn, Align;
    assert Summary(m.live.value, In(c, ts, m.live.value.start));
  }

  lemma KeptClock(c: Cell, s: CellState, ts: seq<Tick>, clk: Time, gone: set<Time>, now: Time)
    requires Known(c.interval) && Kept(c, s, ts, clk, gone) && clk <= now
    ensures Kept(c, s, ts, now, gone)
  {
    hide Summary, TicksIn, Align, Safe, CopyCurrent;
  }

  /** Handing the live bar over: it is accepted, or its copy stays. */
  lemma KeptFlush(c: Cell, s: CellState, ts: seq<Tick>, clk: Time, gone: set<Time>, io: IO)
    requires Known(c.interval) && WellFormed(c, s) && Kept(c, s, ts, clk, gone) && s.live.Some?
    ensures Kept(c, FlushOne(c, s, io), ts, clk, gone)
  {
    hide Summary, TicksIn;
    var b, s' := s.live.value, FlushOne(c, s, io);
    AlignWindow(b.start, b.start, Dur(c.interval));
    assert s'.handed[|s.handed|].bar.start == b.start;
    assert forall i :: 0 <= i < |s.handed| ==> s'.handed[i] == s.handed[i];
    forall t | t in ts
      ensures Safe(s', Win(c, t), gone)
    {
      var w := Win(c, t);
      assert Safe(s, w, gone);
      if i :| 0 <= i < |s.handed| && s.handed[i].bar.start == w && Accepted(s.handed[i].answers) {
        assert s'.handed[i] == s.handed[i];
      } else if w == b.start && Accepted(io.answers) {
        assert AcceptedBar(s', w);
      }
    }
  }

  lemma FeedKeeps(c: Cell, s: CellState, ts: seq<Tick>, clk: Time, gone: set<Time>, t: Tick, now: Time, io: IO)
    requires Known(c.interval) && Core(c, s, ts, clk) && Kept(c, s, ts, clk, gone)
    requires clk <= now && Align(now, Dur(c.interval)) == Win(c, t) && Reliable(c, s, Feed(t, now, io))
    requires !Restores(c, s, Feed(t, now, io))
    ensures Opens(c, s, Feed(t, now, io)) ==> In(c, ts, Win(c, t)) == []
    ensures Kept(c, Step(c, s, Feed(t, now, io)), ts + [t], now, gone)
  {
    hide Summary, TicksIn, Align;
    var s' := Step(c, s, Feed(t, now, io));
    KeptClock(c, s, ts, clk, gone, now);
    if s.live.None? {
      OpenWindow(c, s, ts, clk, gone, now, Win(c, t));
      var m := s.(live := Some(NewBar(c, t)));
      CoreNew(c, s, ts, clk, t, now);
      StillSafe(c, s, m, ts, now, gone);
      SaveKeeps(c, m, s', ts, t, now, gone);
    } else if ShouldFlush(s.live.value, now) {
      var f := FlushOne(c, s, io);
      var m := f.(live := Some(NewBar(c, t)));
      KeptFlush(c, s, ts, now, gone, io);
      CoreReplace(c, s, ts, clk, t, now, io);
      StillSafe(c, f, m, ts, now, gone);
      SaveKeeps(c, m, s', ts, t, now, gone);
    } else {
      var m := s.(live := Some(Update(s.live.value, t)));
      CoreUpdate(c, s, ts, clk, t, now);
      StillSafe(c, s, m, ts, now, gone);
      SaveKeeps(c, m, s', ts, t, now, gone);
    }
  }

  /** A new or updated live bar endangers no window, unless it replaced one of another start. */
  lemma StillSafe(c: Cell, s: CellState, m: CellState, ts: seq<Tick>, clk: Time, gone: set<Time>)
    requires Known(c.interval) && Kept(c, s, ts, clk, gone)
    requires m.store == s.store && m.handed == s.handed && m.live.Some?
    requires s.live.Some? ==> m.live.value.start == s.live.value.start
    ensures StoreSummaries(c, m, ts)
    ensures forall t :: t in ts ==> Safe(m, Win(c, t), gone)
    ensures forall w :: w in gone ==> w + 2 * Dur(c.interval) <= clk
  {
    hide Summary, TicksIn, Align;
    forall t | t in ts
      ensures Safe(m, Win(c, t), gone)
    {
      assert Safe(s, Win(c, t), gone);
    }
  }

  lemma RestoreKeeps(c: Cell, s: CellState, ts: seq<Tick>, clk: Time, gone: set<Time>, e: Event)
    requires Known(c.interval) && Core(c, s, ts, clk) && Kept(c, s, ts, clk, gone)
    requires Restores(c, s, e) && Reliable(c, s, e) && OrderlyEvent(Dur(c.interval), e, clk)
    ensures Kept(c, Step(c, s, e), ts, e.now, gone)
  {
    hide Summary, TicksIn, Align;
    var w := Win(c, e.tick);
    var s' := Step(c, s, e);
    var pb := s.store[w].pb;
    assert s'.live == Some(FromProto(c.interval, pb)) && pb.openTime == w;
    assert ToProto(FromProto(c.interval, pb)) == pb;
    assert s'.store == s.store[w := Saved(pb, e.now + 2 * Dur(c.interval))];
    AlignWindow(e.now, w, Dur(c.interval));
    KeptClock(c, s, ts, clk, gone, e.now);
    forall t | t in ts
      ensures Safe(s', Win(c, t), gone)
    {
      assert Safe(s, Win(c, t), gone);
    }
  }

  lemma ExpireKeeps(c: Cell, s: CellState, ts: seq<Tick>, clk: Time, gone: set<Time>, w: Time, now: Time)
    requires Known(c.interval) && Kept(c, s, ts, clk, gone) && now <= clk
    ensures Kept(c, Step(c, s, Expire(w, now)), ts, clk, GoneOne(c, s, Expire(w, now), gone))
  {
    hide Summary, TicksIn, Align;
    var s', gone' := Step(c, s, Expire(w, now)), GoneOne(c, s, Expire(w, now), gone);
    assert s'.store != s.store ==> w in gone';
    forall t | t in ts
      ensures Safe(s', Win(c, t), gone')
    {
      assert Safe(s, Win(c, t), gone);
    }
  }

  lemma CrashKeeps(c: Cell, s: CellState, ts: seq<Tick>, clk: Time, gone: set<Time>)
    requires Known(c.interval) && Kept(c, s, ts, clk, gone)
    ensures Kept(c, Step(c, s, Crash), ts, clk, gone)
  {
    hide Summary, TicksIn, Align;
    forall t | t in ts
      ensures Safe(Step(c, s, Crash), Win(c, t), gone)
    {
      assert Safe(s, Win(c, t), gone);
    }
  }

  lemma KeptStep(c: Cell, s: CellState, e: Event, ts: seq<Tick>, clk: Time, gone: set<Time>)
    requires Known(c.interval) && Core(c, s, ts, clk) && Kept(c, s, ts, clk, gone)
    requires OrderlyEvent(Dur(c.interval), e, clk) && Reliable(c, s, e)
    ensures Core(c, Step(c, s, e), CountOne(Restores(c, s, e), e, ts), Clock(e, clk))
    ensures Kept(c, Step(c, s, e), CountOne(Restores(c, s, e), e, ts), Clock(e, clk), GoneOne(c, s, e, gone))
  {
    hide Core, Kept, Summary, TicksIn, Align, FlushOne, Save, OrderlyRun, Accepted;
    match e
    case Feed(t, now, io) =>
      if Restores(c, s, e) {
        RestoreKeeps(c, s, ts, clk, gone, e);
        StoredSummary(c, s, ts, clk, gone, Win(c, t));
      } else {
        FeedKeeps(c, s, ts, clk, gone, t, now, io);
      }
      CoreStep(c, s, e, ts, clk);
    case Sweep(now, io) =>
      KeptClock(c, s, ts, clk, gone, Clock(e, clk));
      if s.live.Some? && ShouldFlush(s.live.value, now) {
        CoreFinalLog(c, s, ts, clk);
        KeptFlush(c, s, ts, Clock(e, clk), gone, io);
      }
      CoreStep(c, s, e, ts, clk);
    case Crash =>
      CrashKeeps(c, s, ts, clk, gone);
      CoreStep(c, s, e, ts, clk);
    case Expire(w, now) =>
      KeptClock(c, s, ts, clk, gone, Clock(e, clk));
      ExpireKeeps(c, s, ts, Clock(e, clk), gone, w, now);
      CoreStep(c, s, e, ts, clk);
  }

  lemma StoredSummary(c: Cell, s: CellState, ts: seq<Tick>, clk: Time, gone: set<Time>, w: Time)
    requires Known(c.interval) && Kept(c, s, ts, clk, gone) && w in s.store
    ensures Summary(FromProto(c.interval, s.store[w].pb), In(c, ts, w))
  {
  }

  lemma {:induction false} KeptRun(c: Cell, s: CellState, es: seq<Event>, ts: seq<Tick>, clk: Time, gone: set<Time>)
    requires Known(c.interval) && Core(c, s, ts, clk) && Kept(c, s, ts, clk, gone)
    requires OrderlyRun(Dur(c.interval), es, clk) && ReliableRun(c, s, es)
    ensures Core(c, Run(c, s, es), ts + Counted(c, s, es), ClockAfter(es, clk))
    ensures Kept(c, Run(c, s, es), ts + Counted(c, s, es), ClockAfter(es, clk), GoneAfter(c, s, es, gone))
    decreases es
  {
    hide Core, Kept, Step, OrderlyEvent, Restores, Summary, TicksIn, Align, Reliable, GoneOne;
    if es == [] {
      assert ts + Counted(c, s, es) == ts;
    } else {
      var e := es[0];
      var next := CountOne(Restores(c, s, e), e, ts);
      KeptStep(c, s, e, ts, clk, gone);
      KeptRun(c, Step(c, s, e), es[1..], next, Clock(e, clk), GoneOne(c, s, e, gone));
      assert next + Counted(c, Step(c, s, e), es[1..]) == ts + Counted(c, s, es);
    }
  }

  // --- what is promised ------------------------------------------------------------------------

  /** The final values of window w among the counted ticks. */
  ghost predicate FinalValues(c: Cell, b: Bar, ts: seq<Tick>, w: Time)
    requires Known(c.interval)
  {
    BarOk(c, b) && b.start == w && Summary(b, In(c, ts, w))
  }

  /** Window w is live, accepted by every sink, or in the store under its own key, in each case with
      the values its counted ticks give. */
  ghost predicate Preserved(c: Cell, s: CellState, ts: seq<Tick>, w: Time)
    requires Known(c.interval)
  {
    || (s.live.Some? && FinalValues(c, s.live.value, ts, w))
    || (exists h :: h in s.handed && Accepted(h.answers) && FinalValues(c, h.bar, ts, w))
    || (w in s.store && FinalValues(c, FromProto(c.interval, s.store[w].pb), ts, w))
  }

  /** Each window is handed over at most once, in ascending order, complete, and with the values of
      all its counted ticks. */
  ghost predicate FinalLog(c: Cell, hs: seq<Handed>, ts: seq<Tick>)
    requires Known(c.interval)
  {
    && (forall i, j :: 0 <= i < j < |hs| ==> hs[i].bar.start < hs[j].bar.start)
    && (forall i :: 0 <= i < |hs| ==>
          BarOk(c, hs[i].bar) && hs[i].bar.complete && Summary(hs[i].bar, In(c, ts, hs[i].bar.start)))
  }

  lemma KeptPreserves(c: Cell, s: CellState, ts: seq<Tick>, clk: Time, gone: set<Time>, t: Tick)
    requires Known(c.interval) && WellFormed(c, s) && FinalLog(c, s.handed, ts) && Kept(c, s, ts, clk, gone)
    requires s.live.Some? ==> Summary(s.live.value, In(c, ts, s.live.value.start))
    requires t in ts
    ensures Preserved(c, s, ts, Win(c, t)) || Win(c, t) in gone
  {
    hide Summary, TicksIn, Align;
    var w := Win(c, t);
    assert Safe(s, w, gone);
    if i :| 0 <= i < |s.handed| && s.handed[i].bar.start == w && Accepted(s.handed[i].answers) {
      assert s.handed[i] in s.handed;
      assert FinalValues(c, s.handed[i].bar, ts, w);
    }
  }

  lemma CoreFinalLog(c: Cell, s: CellState, ts: seq<Tick>, clk: Time)
    requires Known(c.interval) && Core(c, s, ts, clk)
    ensures FinalLog(c, s.handed, ts) && WellFormed(c, s)
    ensures s.live.Some? ==> Summary(s.live.value, In(c, ts, s.live.value.start))
  {
    hide Summary, TicksIn, Align, BarOk;
    assert forall i :: 0 <= i < |s.handed| ==> s.handed[i] in s.handed;
  }

  lemma CloseKeeps(c: Cell, s: CellState, ts: seq<Tick>, clk: Time, gone: set<Time>, end: seq<Event>)
    requires Known(c.interval) && Core(c, s, ts, clk) && Kept(c, s, ts, clk, gone) && Closing(s, end)
    ensures var s' := Run(c, s, end);
      s'.live.None? && WellFormed(c, s') && FinalLog(c, s'.handed, ts) && Kept(c, s', ts, clk, gone)
  {
    hide Summary, TicksIn, Align, BarOk, In;
    CoreFinalLog(c, s, ts, clk);
    if end != [] {
      assert end[1..] == [];
      assert Run(c, s, end) == Step(c, s, end[0]);
      StepKeepsWellFormed(c, s, end[0]);
      if s.live.Some? {
        KeptFlush(c, s, ts, clk, gone, end[0].io);
        FlushFinalLog(c, s, ts, clk, end[0].io);
      }
    }
  }

  lemma FlushFinalLog(c: Cell, s: CellState, ts: seq<Tick>, clk: Time, io: IO)
    requires Known(c.interval) && Core(c, s, ts, clk) && s.live.Some?
    ensures FinalLog(c, FlushOne(c, s, io).handed, ts)
  {
    hide Summary, TicksIn, Align, BarOk;
    CoreFinalLog(c, s, ts, clk);
    var hs, last := FlushOne(c, s, io).handed, s.live.value.(complete := true);
    CompleteSummary(c, s.live.value, In(c, ts, last.start));
    assert forall i :: 0 <= i < |s.handed| ==> hs[i] == s.handed[i] && hs[i].bar.start < last.start;
  }

  lemma CompleteSummary(c: Cell, b: Bar, ts: seq<Tick>)
    requires Known(c.interval) && BarOk(c, b) && Summary(b, ts)
    ensures BarOk(c, b.(complete := true)) && Summary(b.(complete := true), ts)
  {
  }

  /** No window is lost: in every orderly run with crashes and sink failures anywhere, each window
      with a counted tick is live, or was accepted by every sink, or is still in the store under its
      own key, in each case with the values its counted ticks give - unless the store itself dropped
      the key when its time to live had run out. */
  lemma NoWindowLost(c: Cell, es: seq<Event>, clk: Time, t: Tick)
    requires Known(c.interval) && OrderlyRun(Dur(c.interval), es, clk) && ReliableRun(c, EMPTY, es)
    requires t in Counted(c, EMPTY, es)
    ensures Preserved(c, Run(c, EMPTY, es), Counted(c, EMPTY, es), Win(c, t)) || Expired(c, EMPTY, es, Win(c, t))
  {
    hide Summary, TicksIn, Align, Run, Counted, Core, Kept, Preserved, Expired;
    var s, ts := Run(c, EMPTY, es), Counted(c, EMPTY, es);
    KeptFromStart(c, es, clk);
    CoreFinalLog(c, s, ts, ClockAfter(es, clk));
    KeptPreserves(c, s, ts, ClockAfter(es, clk), GoneAfter(c, EMPTY, es, {}), t);
    if Win(c, t) in GoneAfter(c, EMPTY, es, {}) {
      GoneExpired(c, EMPTY, es, {}, Win(c, t));
    }
  }

  lemma KeptFromStart(c: Cell, es: seq<Event>, clk: Time)
    requires Known(c.interval) && OrderlyRun(Dur(c.interval), es, clk) && ReliableRun(c, EMPTY, es)
    ensures var s, ts := Run(c, EMPTY, es), Counted(c, EMPTY, es);
      Core(c, s, ts, ClockAfter(es, clk)) && Kept(c, s, ts, ClockAfter(es, clk), GoneAfter(c, EMPTY, es, {}))
  {
    KeptRun(c, EMPTY, es, [], clk, {});
    assert [] + Counted(c, EMPTY, es) == Counted(c, EMPTY, es);
  }

  /** The same for a run that ends with FlushAll, where every live bar leaves memory at once: each
      window was accepted by every sink or is still stored, with its final values. */
  lemma NoWindowLostAtClose(c: Cell, es: seq<Event>, end: seq<Event>, clk: Time, t: Tick)
    requires Known(c.interval) && OrderlyRun(Dur(c.interval), es, clk) && ReliableRun(c, EMPTY, es)
    requires Closing(Run(c, EMPTY, es), end) && t in Counted(c, EMPTY, es)
    ensures var s := Run(c, Run(c, EMPTY, es), end);
      && s.live.None?
      && (Preserved(c, s, Counted(c, EMPTY, es), Win(c, t)) || Expired(c, EMPTY, es, Win(c, t)))
  {
    hide Summary, TicksIn, Align, Run, Counted, Core, Kept, Preserved, Expired, Closing;
    var ts, gone := Counted(c, EMPTY, es), GoneAfter(c, EMPTY, es, {});
    KeptFromStart(c, es, clk);
    CloseKeeps(c, Run(c, EMPTY, es), ts, ClockAfter(es, clk), gone, end);
    KeptPreserves(c, Run(c, Run(c, EMPTY, es), end), ts, ClockAfter(es, clk), gone, t);
    if Win(c, t) in gone {
      GoneExpired(c, EMPTY, es, {}, Win(c, t));
    }
  }

  /** Crashes do not corrupt what is handed over, up to and including the final FlushAll. */
  lemma HandedFinal(c: Cell, es: seq<Event>, end: seq<Event>, clk: Time)
    requires Known(c.interval) && OrderlyRun(Dur(c.interval), es, clk) && ReliableRun(c, EMPTY, es)
    requires end == [] || Closing(Run(c, EMPTY, es), end)
    ensures FinalLog(c, Run(c, Run(c, EMPTY, es), end).handed, Counted(c, EMPTY, es))
  {
    hide Summary, TicksIn, Align, Counted, Core, Kept, FinalLog, Step;
    var ts := Counted(c, EMPTY, es);
    KeptFromStart(c, es, clk);
    if end == [] {
      CoreFinalLog(c, Run(c, EMPTY, es), ts, ClockAfter(es, clk));
    } else {
      CloseKeeps(c, Run(c, EMPTY, es), ts, ClockAfter(es, clk), GoneAfter(c, EMPTY, es, {}), end);
    }
  }

  /** Without crashes there is never a copy to load, so only the saves matter. */
  lemma {:induction false} SavesSuffice(c: Cell, s: CellState, es: seq<Event>, ts: seq<Tick>, clk: Time)
    requires Known(c.interval) && Core(c, s, ts, clk) && Complete(c, s, ts)
    requires OrderlyRun(Dur(c.interval), es, clk)
    requires forall e :: e in es ==> !e.Crash? && (e.Feed? ==> e.io.saveOk)
    ensures ReliableRun(c, s, es)
    decreases es
  {
    hide Core, Complete, Step, Summary, TicksIn, Align;
    if es == [] {
    } else {
      var e := es[0];
      assert e in es && forall f :: f in es[1..] ==> f in es;
      if e.Feed? {
        CompleteStep(c, s, Feed(e.tick, e.now, e.io.(loadOk := true)), ts, clk);
      }
      CompleteStep(c, s, e, ts, clk);
      CoreStep(c, s, e, ts, clk);
      SavesSuffice(c, Step(c, s, e), es[1..], CountOne(false, e, ts), Clock(e, clk));
    }
  }

  // --- crash recovery --------------------------------------------------------------------------

  /** The step saves a bar of window w. */
  ghost predicate Saves(c: Cell, s: CellState, e: Event, w: Time)
    requires Known(c.interval)
  {
    e.Feed? && e.io.saveOk && Step(c, s, e).live.value.start == w
  }

  /** The step drops the key of window w: its bar is accepted by every sink, or its time is over. */
  ghost predicate Drops(s: CellState, e: Event, w: Time) {
    match e
    case Feed(_, now, io) => Hands(s, Some(now), w) && Accepted(io.answers) && io.delOk
    case Sweep(now, io) => Hands(s, Some(now), w) && Accepted(io.answers) && io.delOk
    case FlushAll(io) => Hands(s, None, w) && Accepted(io.answers) && io.delOk
    case Crash => false
    case Expire(x, now) => x == w && w in s.store && s.store[w].deadline <= now
  }

  predicate Hands(s: CellState, now: Option<Time>, w: Time) {
    s.live.Some? && s.live.value.start == w && (now.Some? ==> ShouldFlush(s.live.value, now.value))
  }

  /** No step of the run saves a bar of window w or drops its key. */
  ghost predicate Untouched(c: Cell, s: CellState, es: seq<Event>, w: Time)
    requires Known(c.interval)
    decreases es
  {
    es == [] || (!Saves(c, s, es[0], w) && !Drops(s, es[0], w) && Untouched(c, Step(c, s, es[0]), es[1..], w))
  }

  lemma UntouchedStep(c: Cell, s: CellState, e: Event, w: Time)
    requires Known(c.interval) && WellFormed(c, s) && w in s.store && !Saves(c, s, e, w) && !Drops(s, e, w)
    ensures var s' := Step(c, s, e); w in s'.store && s'.store[w] == s.store[w]
  {
    if s.live.Some? {
      AlignWindow(s.live.value.start, s.live.value.start, Dur(c.interval));
    }
  }

  lemma {:induction false} UntouchedKeeps(c: Cell, s: CellState, es: seq<Event>, w: Time)
    requires Known(c.interval) && WellFormed(c, s) && w in s.store && Untouched(c, s, es, w)
    ensures var s' := Run(c, s, es); WellFormed(c, s') && w in s'.store && s'.store[w] == s.store[w]
    decreases es
  {
    hide WellFormed, Step, Saves, Drops;
    if es == [] {
    } else {
      UntouchedStep(c, s, es[0], w);
      StepKeepsWellFormed(c, s, es[0]);
      UntouchedKeeps(c, Step(c, s, es[0]), es[1..], w);
    }
  }

  /** Crash recovery. After a tick whose save took effect let anything happen that neither saves the
      window again nor drops its key: failed saves, sweeps, refusing sinks, any number of crashes.
      Once the cell has no live bar, the first tick of the window brings back exactly the bar that was
      saved, still open - the tick itself is not folded in. If the save was made at or after the bar's
      start, its key lives until the bar's end plus one more duration. */
  lemma CrashRecovery(c: Cell, s: CellState, t: Tick, now: Time, io: IO, es: seq<Event>,
                      t': Tick, now': Time, io': IO)
    requires Known(c.interval) && WellFormed(c, s) && io.saveOk && io'.loadOk
    requires Untouched(c, Step(c, s, Feed(t, now, io)), es, Step(c, s, Feed(t, now, io)).live.value.start)
    requires Run(c, Step(c, s, Feed(t, now, io)), es).live.None?
    requires Win(c, t') == Step(c, s, Feed(t, now, io)).live.value.start
    ensures
      var saved := Step(c, s, Feed(t, now, io));
      && Step(c, Run(c, saved, es), Feed(t', now', io')).live == saved.live
      && saved.live.Some? && !saved.live.value.complete
      && (now >= saved.live.value.start ==>
            saved.store[saved.live.value.start].deadline >= saved.live.value.end + Dur(c.interval))
  {
    var saved := Step(c, s, Feed(t, now, io));
    StepKeepsWellFormed(c, s, Feed(t, now, io));
    var b := saved.live.value;
    assert saved.store[b.start] == Saved(ToProto(b), now + 2 * Dur(c.interval));
    UntouchedKeeps(c, saved, es, b.start);
    hide Run, Untouched;
    StorageRoundTrip(b, c.interval);
  }

  /** Steps that leave a cell without a live bar as it is, as long as the key of window w lives. */
  predicate Quiet(c: Cell, e: Event, w: Time)
    requires Known(c.interval)
  {
    match e
    case Feed(_, _, _) => false
    case Expire(x, now) => x == w ==> now < w + 2 * Dur(c.interval)
    case _ => true
  }

  /** A crash followed by quiet steps touches no copy that was saved at or after its window's start. */
  lemma CrashUntouched(c: Cell, s: CellState, es: seq<Event>, w: Time)
    requires Known(c.interval) && w in s.store && s.store[w].deadline >= w + 2 * Dur(c.interval)
    requires forall e :: e in es ==> Quiet(c, e, w)
    ensures Untouched(c, s, [Crash] + es, w) && Run(c, s, [Crash] + es).live.None?
  {
    assert ([Crash] + es)[1..] == es;
    QuietUntouched(c, Step(c, s, Crash), es, w);
  }

  lemma {:induction false} QuietUntouched(c: Cell, s: CellState, es: seq<Event>, w: Time)
    requires Known(c.interval) && s.live.None? && w in s.store
    requires s.store[w].deadline >= w + 2 * Dur(c.interval)
    requires forall e :: e in es ==> Quiet(c, e, w)
    ensures Untouched(c, s, es, w) && Run(c, s, es).live.None?
    decreases es
  {
    if es == [] {
    } else {
      assert Quiet(c, es[0], w);
      QuietUntouched(c, Step(c, s, es[0]), es[1..], w);
    }
  }
}
