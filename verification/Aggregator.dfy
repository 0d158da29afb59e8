/** The whole aggregator: all cells over one string-keyed store and one sink log.

    The mutex serialises Process, the sweep and FlushAll, and each of them treats one cell after the
    other, so a run is a sequence of events each aimed at one cell. The main result is that cells do
    not interfere: seen from one cell, a run of the system is a run of that cell alone. */
module Aggregator {
  import opened Wrappers
  import opened Intervals
  import opened Bars
  import opened Cells
  import opened Keys

  datatype SysState = SysState(live: map<Cell, Bar>, store: map<string, Saved>, handed: seq<Handed>)

  datatype SysEvent =
    | At(cell: Cell, e: Event)
    | CrashAll

  const START := SysState(map[], map[], [])

  predicate ValidEvent(ev: SysEvent) {
    ev.At? ==> Known(ev.cell.interval) && !ev.e.Crash?
  }

  /** The adapter's Save: the key and the time to live come from the bar itself. */
  function SaveIn(store: map<string, Saved>, b: Bar, now: Time, ok: bool): map<string, Saved> {
    if ok && Known(b.interval) then
      store[Key(Cell(b.interval, b.symbol), b.start) := Saved(ToProto(b), now + 2 * Dur(b.interval))]
    else store
  }

  /** The adapter's LoadAt: no bar when the load fails or the key is absent. */
  function LoadFrom(store: map<string, Saved>, c: Cell, ts: Time, ok: bool): Option<Bar>
    requires Known(c.interval)
  {
    var key := Key(c, Align(ts, Dur(c.interval)));
    if ok && key in store then Some(FromProto(c.interval, store[key].pb)) else None
  }

  /** The adapter's DeleteAt. */
  function DeleteFrom(store: map<string, Saved>, c: Cell, ts: Time, ok: bool): map<string, Saved>
    requires Known(c.interval)
  {
    if ok then store - {Key(c, Align(ts, Dur(c.interval)))} else store
  }

  function SaveBar(s: SysState, b: Bar, now: Time, ok: bool): SysState {
    s.(store := SaveIn(s.store, b, now, ok))
  }

  /** flushOne: the bar leaves memory complete, and its key goes once every sink accepted. */
  function FlushCell(s: SysState, c: Cell, io: IO): SysState
    requires Known(c.interval) && c in s.live
  {
    var b := s.live[c].(complete := true);
    SysState(s.live - {c},
             DeleteFrom(s.store, c, b.start, Accepted(io.answers) && io.delOk),
             s.handed + [Handed(b, io.answers)])
  }

  function FeedCell(s: SysState, c: Cell, t: Tick, now: Time, io: IO): SysState
    requires Known(c.interval)
  {
    if c !in s.live then
      var loaded := LoadFrom(s.store, c, t.ts, io.loadOk);
      var b := if loaded.Some? then loaded.value else NewBar(c, t);
      SaveBar(s.(live := s.live[c := b]), b, now, io.saveOk)
    else if ShouldFlush(s.live[c], now) then
      var f := FlushCell(s, c, io);
      SaveBar(f.(live := f.live[c := NewBar(c, t)]), NewBar(c, t), now, io.saveOk)
    else
      var b := Update(s.live[c], t);
      SaveBar(s.(live := s.live[c := b]), b, now, io.saveOk)
  }

  function SysStep(s: SysState, ev: SysEvent): SysState
    requires ValidEvent(ev)
  {
    match ev
    case CrashAll => s.(live := map[])
    case At(c, e) =>
      match e
      case Feed(t, now, io) => FeedCell(s, c, t, now, io)
      case Sweep(now, io) =>
        if c in s.live && ShouldFlush(s.live[c], now) then FlushCell(s, c, io) else s
      case FlushAll(io) =>
        if c in s.live then FlushCell(s, c, io) else s
      case Expire(w, now) =>
        if Aligned(w, Dur(c.interval)) && Key(c, w) in s.store && s.store[Key(c, w)].deadline <= now
        then s.(store := s.store - {Key(c, w)}) else s
  }

  function SysRun(s: SysState, evs: seq<SysEvent>): SysState
    requires forall ev :: ev in evs ==> ValidEvent(ev)
    decreases |evs|
  {
    if evs == [] then s else SysRun(SysStep(s, evs[0]), evs[1..])
  }

  lemma {:induction false} SysRunAppend(s: SysState, evs: seq<SysEvent>, fvs: seq<SysEvent>)
    requires forall ev :: ev in evs ==> ValidEvent(ev)
    requires forall ev :: ev in fvs ==> ValidEvent(ev)
    ensures forall ev :: ev in evs + fvs ==> ValidEvent(ev)
    ensures SysRun(s, evs + fvs) == SysRun(SysRun(s, evs), fvs)
    decreases |evs|
  {
    if evs == [] {
      assert evs + fvs == fvs;
    } else {
      assert (evs + fvs)[1..] == evs[1..] + fvs;
      SysRunAppend(SysStep(s, evs[0]), evs[1..], fvs);
    }
  }

  // --- projection onto a cell ------------------------------------------------------------------

  function HandedOf(hs: seq<Handed>, c: Cell): seq<Handed> {
    if hs == [] then []
    else
      var last := hs[|hs| - 1];
      HandedOf(hs[..|hs| - 1], c)
      + if Cell(last.bar.interval, last.bar.symbol) == c then [last] else []
  }

  lemma HandedOfSnoc(hs: seq<Handed>, h: Handed, c: Cell)
    ensures HandedOf(hs + [h], c)
         == HandedOf(hs, c) + if Cell(h.bar.interval, h.bar.symbol) == c then [h] else []
  {
    assert (hs + [h])[..|hs|] == hs;
  }

  /** What cell c sees: its live bar, the keys of its windows, its bars in the sink log. */
  ghost function Project(s: SysState, c: Cell): CellState
    requires Known(c.interval)
  {
    CellState(if c in s.live then Some(s.live[c]) else None,
              imap w: Time | Aligned(w, Dur(c.interval)) && Key(c, w) in s.store :: s.store[Key(c, w)],
              HandedOf(s.handed, c))
  }

  function EventsAt(c: Cell, evs: seq<SysEvent>): seq<Event>
    decreases |evs|
  {
    if evs == [] then []
    else EventAt(c, evs[0]) + EventsAt(c, evs[1..])
  }

  function EventAt(c: Cell, ev: SysEvent): seq<Event> {
    match ev
    case CrashAll => [Crash]
    case At(c', e) => if c' == c then [e] else []
  }

  /** Every cell is well formed, and memory and log hold bars of known intervals only. */
  ghost predicate SysWellFormed(s: SysState) {
    && (forall c :: c in s.live ==> Known(c.interval))
    && (forall h :: h in s.handed ==> Known(h.bar.interval))
    && (forall c: Cell :: Known(c.interval) ==> WellFormed(c, Project(s, c)))
  }

  /** Bars in memory are open, bars handed over are complete - whatever the store may contain. */
  ghost predicate Marked(s: SysState) {
    && (forall c :: c in s.live ==> !s.live[c].complete)
    && (forall h :: h in s.handed ==> h.bar.complete)
  }

  lemma StepKeepsMarked(s: SysState, ev: SysEvent)
    requires Marked(s) && ValidEvent(ev)
    ensures Marked(SysStep(s, ev))
  {
    hide Known, Key, Accepted, SaveIn, DeleteFrom, Aligned, Align, Dur;
  }

  /** Keys of different windows differ, so writing or dropping one leaves every other in place. */
  lemma KeysApart(c: Cell, w: Time, c': Cell, w': Time)
    requires Known(c.interval) && Known(c'.interval)
    requires Aligned(w, Dur(c.interval)) && Aligned(w', Dur(c'.interval))
    ensures Key(c, w) == Key(c', w') <==> c == c' && w == w'
  {
    if Key(c, w) == Key(c', w') {
      AlignedSecond(w, c.interval);
      AlignedSecond(w', c'.interval);
      KeyInjective(c, w, c', w');
    }
  }

  lemma ProjectSave(s: SysState, c: Cell, b: Bar, now: Time, ok: bool, c': Cell)
    requires Known(c.interval) && Known(c'.interval) && BarOk(c, b) && c in s.live && s.live[c] == b
    ensures Project(SaveBar(s, b, now, ok), c')
         == if c' == c then Save(c, Project(s, c), now, ok) else Project(s, c')
  {
    hide Key, Aligned, HandedOf;
    forall w: Time | Aligned(w, Dur(c'.interval))
      ensures Key(c', w) == Key(c, b.start) <==> c' == c && w == b.start
    {
      assert Aligned(b.start, Dur(c.interval)) by {
        assert BarOk(c, b);
      }
      KeysApart(c', w, c, b.start);
    }
  }

  lemma ProjectFlush(s: SysState, c: Cell, io: IO, c': Cell)
    requires Known(c.interval) && Known(c'.interval) && c in s.live && BarOk(c, s.live[c])
    ensures Project(FlushCell(s, c, io), c')
         == if c' == c then FlushOne(c, Project(s, c), io) else Project(s, c')
  {
    hide Key, Aligned, HandedOf;
    var b, d := s.live[c].(complete := true), Dur(c.interval);
    AlignWindow(b.start, b.start, d);
    HandedOfSnoc(s.handed, Handed(b, io.answers), c');
    forall w: Time | Aligned(w, Dur(c'.interval))
      ensures Key(c', w) == Key(c, Align(b.start, d)) <==> c' == c && w == Align(b.start, d)
    {
      KeysApart(c', w, c, Align(b.start, d));
    }
  }

  lemma ProjectExpire(s: SysState, c: Cell, w: Time, now: Time, c': Cell)
    requires Known(c.interval) && Known(c'.interval)
    ensures Project(SysStep(s, At(c, Expire(w, now))), c')
         == if c' == c then Step(c, Project(s, c), Expire(w, now)) else Project(s, c')
  {
    hide Key, Aligned, HandedOf;
    if Aligned(w, Dur(c.interval)) {
      forall x: Time | Aligned(x, Dur(c'.interval))
        ensures Key(c', x) == Key(c, w) <==> c' == c && x == w
      {
        KeysApart(c', x, c, w);
      }
    }
  }

  /** Putting a bar into memory and saving it. */
  lemma ProjectPut(s: SysState, c: Cell, b: Bar, now: Time, ok: bool, c': Cell)
    requires Known(c.interval) && Known(c'.interval) && BarOk(c, b)
    ensures Project(SaveBar(s.(live := s.live[c := b]), b, now, ok), c')
         == if c' == c then Save(c, Project(s, c).(live := Some(b)), now, ok) else Project(s, c')
  {
    hide Key, Aligned, HandedOf, BarOk;
    var m := s.(live := s.live[c := b]);
    ProjectSave(m, c, b, now, ok, c');
    assert Project(m, c) == Project(s, c).(live := Some(b));
    assert c' != c ==> Project(m, c') == Project(s, c');
  }

  lemma ProjectLoad(s: SysState, c: Cell, ts: Time, ok: bool)
    requires Known(c.interval) && WellFormed(c, Project(s, c))
    ensures var w, p := Align(ts, Dur(c.interval)), Project(s, c);
      LoadFrom(s.store, c, ts, ok)
      == if ok && w in p.store then Some(FromProto(c.interval, p.store[w].pb)) else None
    ensures LoadFrom(s.store, c, ts, ok).Some? ==> BarOk(c, LoadFrom(s.store, c, ts, ok).value)
  {
    hide Key, HandedOf;
    AlignWindow(ts, 0, Dur(c.interval));
  }

  lemma ProjectCreate(s: SysState, c: Cell, t: Tick, now: Time, io: IO, c': Cell)
    requires Known(c.interval) && Known(c'.interval) && WellFormed(c, Project(s, c)) && c !in s.live
    ensures Project(FeedCell(s, c, t, now, io), c')
         == if c' == c then Step(c, Project(s, c), Feed(t, now, io)) else Project(s, c')
  {
    ProjectLoad(s, c, t.ts, io.loadOk);
    NewBarOk(c, t);
    hide Key, HandedOf, WellFormed, BarOk, LoadFrom, SaveBar, Aligned, Align;
    var loaded := LoadFrom(s.store, c, t.ts, io.loadOk);
    ProjectPut(s, c, if loaded.Some? then loaded.value else NewBar(c, t), now, io.saveOk, c');
  }

  lemma ProjectReplace(s: SysState, c: Cell, t: Tick, now: Time, io: IO, c': Cell)
    requires Known(c.interval) && Known(c'.interval) && c in s.live && BarOk(c, s.live[c])
    requires ShouldFlush(s.live[c], now)
    ensures Project(FeedCell(s, c, t, now, io), c')
         == if c' == c then Step(c, Project(s, c), Feed(t, now, io)) else Project(s, c')
  {
    NewBarOk(c, t);
    ProjectFlush(s, c, io, c');
    ProjectFlush(s, c, io, c);
    ProjectPut(FlushCell(s, c, io), c, NewBar(c, t), now, io.saveOk, c');
    hide Key, HandedOf, BarOk, SaveBar, Aligned, Align, FlushCell, FlushOne, Save, NewBar;
  }

  lemma ProjectUpdate(s: SysState, c: Cell, t: Tick, now: Time, io: IO, c': Cell)
    requires Known(c.interval) && Known(c'.interval) && c in s.live && BarOk(c, s.live[c])
    requires !ShouldFlush(s.live[c], now)
    ensures Project(FeedCell(s, c, t, now, io), c')
         == if c' == c then Step(c, Project(s, c), Feed(t, now, io)) else Project(s, c')
  {
    ProjectPut(s, c, Update(s.live[c], t), now, io.saveOk, c');
    hide Key, HandedOf, BarOk, SaveBar, Aligned, Align, Save, Update;
  }

  /** One step of the system is one step of the cell it is aimed at, and no step of any other. */
  lemma ProjectStep(s: SysState, ev: SysEvent, c: Cell)
    requires SysWellFormed(s) && ValidEvent(ev) && Known(c.interval)
    ensures Project(SysStep(s, ev), c) == Run(c, Project(s, c), EventAt(c, ev))
  {
    RunOne(c, Project(s, c), EventAt(c, ev));
    match ev
    case CrashAll =>
    case At(c', e) =>
      assert WellFormed(c', Project(s, c'));
      ProjectAt(s, c', e, c);
  }

  lemma RunOne(c: Cell, p: CellState, es: seq<Event>)
    requires Known(c.interval) && |es| <= 1
    ensures Run(c, p, es) == if es == [] then p else Step(c, p, es[0])
  {
    if es != [] {
      assert es[1..] == [];
    }
  }

  lemma ProjectAt(s: SysState, c: Cell, e: Event, c': Cell)
    requires Known(c.interval) && Known(c'.interval) && WellFormed(c, Project(s, c)) && !e.Crash?
    ensures Project(SysStep(s, At(c, e)), c')
         == if c' == c then Step(c, Project(s, c), e) else Project(s, c')
  {
    hide Key, HandedOf, Aligned, Align, SaveBar, FlushOne, FlushCell, Save, LoadFrom;
    match e
    case Feed(t, now, io) =>
      if c !in s.live {
        ProjectCreate(s, c, t, now, io, c');
      } else if ShouldFlush(s.live[c], now) {
        ProjectReplace(s, c, t, now, io, c');
      } else {
        ProjectUpdate(s, c, t, now, io, c');
      }
    case Sweep(now, io) =>
      if c in s.live {
        ProjectFlush(s, c, io, c');
      }
    case FlushAll(io) =>
      if c in s.live {
        ProjectFlush(s, c, io, c');
      }
    case Expire(w, now) => ProjectExpire(s, c, w, now, c');
  }

  lemma StepKeepsSysWellFormed(s: SysState, ev: SysEvent)
    requires SysWellFormed(s) && ValidEvent(ev)
    ensures SysWellFormed(SysStep(s, ev))
  {
    hide Project, WellFormed;
    forall c: Cell | Known(c.interval)
      ensures WellFormed(c, Project(SysStep(s, ev), c))
    {
      ProjectStep(s, ev, c);
      RunKeepsWellFormed(c, Project(s, c), EventAt(c, ev));
    }
    if ev.At? && ev.cell in s.live {
      LiveNames(s, ev.cell);
    }
    KnownNames(s, ev);
  }

  lemma LiveNames(s: SysState, c: Cell)
    requires SysWellFormed(s) && c in s.live
    ensures s.live[c].interval == c.interval
  {
    assert WellFormed(c, Project(s, c));
  }

  lemma KnownNames(s: SysState, ev: SysEvent)
    requires ValidEvent(ev) && (forall c :: c in s.live ==> Known(c.interval))
    requires forall h :: h in s.handed ==> Known(h.bar.interval)
    requires ev.At? && ev.cell in s.live ==> s.live[ev.cell].interval == ev.cell.interval
    ensures var s' := SysStep(s, ev);
      (forall c :: c in s'.live ==> Known(c.interval)) && forall h :: h in s'.handed ==> Known(h.bar.interval)
  {
    hide Known, Key, Accepted, NewBar, LoadFrom, SaveIn, DeleteFrom;
  }

  /** Non-interference: every run of the system, seen from a cell, is a run of the cell alone on
      the events aimed at it - for any interleaving, any failures and any crashes. */
  lemma {:induction false} CellsAreIndependent(s: SysState, evs: seq<SysEvent>, c: Cell)
    requires SysWellFormed(s) && Known(c.interval)
    requires forall ev :: ev in evs ==> ValidEvent(ev)
    ensures Project(SysRun(s, evs), c) == Run(c, Project(s, c), EventsAt(c, evs))
    ensures SysWellFormed(SysRun(s, evs))
    decreases |evs|
  {
    hide Project, SysWellFormed, SysStep, EventAt;
    if evs == [] {
    } else {
      ProjectStep(s, evs[0], c);
      StepKeepsSysWellFormed(s, evs[0]);
      CellsAreIndependent(SysStep(s, evs[0]), evs[1..], c);
      RunAppend(c, Project(s, c), EventAt(c, evs[0]), EventsAt(c, evs[1..]));
    }
  }

  lemma StartProjects(c: Cell)
    requires Known(c.interval)
    ensures Project(START, c) == EMPTY
    ensures WellFormed(c, EMPTY) && SysWellFormed(START)
  {
    assert forall c: Cell :: Known(c.interval) ==> Project(START, c) == EMPTY;
  }

  /** In every run from the start, with crashes and failures anywhere: memory, store and sink log are
      well formed together, in every cell. */
  lemma SystemWellFormed(evs: seq<SysEvent>, c: Cell)
    requires Known(c.interval) && forall ev :: ev in evs ==> ValidEvent(ev)
    ensures WellFormed(c, Project(SysRun(START, evs), c))
    ensures SysWellFormed(SysRun(START, evs))
  {
    StartProjects(c);
    CellsAreIndependent(START, evs, c);
    RunKeepsWellFormed(c, EMPTY, EventsAt(c, evs));
  }
}
