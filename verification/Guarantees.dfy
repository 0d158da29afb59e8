/** The cell results, stated for the whole system by way of `CellsAreIndependent`. */
module Guarantees {
  import opened Wrappers
  import opened Intervals
  import opened Bars
  import opened Cells
  import opened Orderly
  import opened Recovery
  import opened Keys
  import opened Aggregator
  import opened Runs

  // --- one pass over the maps ------------------------------------------------------------------

  predicate Stays(when: Option<Time>, b: Bar) {
    when.Some? && !ShouldFlush(b, when.value)
  }

  /** The cells a pass flushes, in the order it visits them. */
  function Flushed(live: map<Cell, Bar>, when: Option<Time>, visits: seq<Visit>): seq<Cell> {
    if visits == [] then []
    else
      var v := visits[|visits| - 1];
      Flushed(live, when, visits[..|visits| - 1])
      + if v.cell in live && !Stays(when, live[v.cell]) then [v.cell] else []
  }

  lemma {:induction false} FlushedIs(live: map<Cell, Bar>, when: Option<Time>, visits: seq<Visit>)
    requires NoRepeat(visits)
    ensures NoDuplicates(Flushed(live, when, visits))
    ensures forall c :: c in Flushed(live, when, visits) <==>
              c in VisitedCells(visits) && c in live && !Stays(when, live[c])
  {
    hide Stays;
    if visits == [] {
    } else {
      var n := |visits| - 1;
      var v, rest := visits[n], visits[..n];
      FlushedIs(live, when, rest);
      forall i | 0 <= i < n
        ensures visits[i].cell != v.cell
      {
      }
      assert v.cell !in VisitedCells(rest);
      assert forall u :: u in visits <==> u in rest || u == v;
      assert VisitedCells(visits) == VisitedCells(rest) + {v.cell};
    }
  }

  lemma {:induction false} PassEffect(s: SysState, when: Option<Time>, visits: seq<Visit>)
    requires NoRepeat(visits) && forall v :: v in visits ==> Known(v.cell.interval)
    ensures var end, gone := SysRun(s, VisitAll(when, visits)), Flushed(s.live, when, visits);
      && end.live == s.live - (set c | c in gone)
      && |end.handed| == |s.handed| + |gone| && s.handed <= end.handed
      && forall i :: 0 <= i < |gone| ==>
           gone[i] in s.live && end.handed[|s.handed| + i].bar == s.live[gone[i]].(complete := true)
  {
    hide Stays, Known, Key, SaveIn, DeleteFrom, SysStep, VisitEvent;
    if visits == [] {
    } else {
      var n := |visits| - 1;
      var v, rest := visits[n], visits[..n];
      var mid, gone := SysRun(s, VisitAll(when, rest)), Flushed(s.live, when, rest);
      PassEffect(s, when, rest);
      assert visits == rest + [v];
      VisitSnoc(s, when, rest, v);
      var end := SysRun(s, VisitAll(when, visits));
      assert end == SysStep(mid, At(v.cell, VisitEvent(when, v.io)));
      FlushedIs(s.live, when, rest);
      assert v.cell !in VisitedCells(rest);
      hide SysRun, VisitAll, VisitedCells, NoRepeat;
      OneVisit(mid, when, v);
      PassGrows(s, when, v, mid, end, gone);
      assert Flushed(s.live, when, visits)
          == gone + if v.cell in s.live && !Stays(when, s.live[v.cell]) then [v.cell] else [];
    }
  }

  /** One more visit to what a pass has done so far. */
  lemma PassGrows(s: SysState, when: Option<Time>, v: Visit, mid: SysState, end: SysState, gone: seq<Cell>)
    requires v.cell !in gone && mid.live == s.live - (set c | c in gone)
    requires |mid.handed| == |s.handed| + |gone| && s.handed <= mid.handed
    requires forall i :: 0 <= i < |gone| ==>
      gone[i] in s.live && mid.handed[|s.handed| + i].bar == s.live[gone[i]].(complete := true)
    requires if v.cell in mid.live && !Stays(when, mid.live[v.cell]) then
               && end.live == mid.live - {v.cell}
               && end.handed == mid.handed + [Handed(mid.live[v.cell].(complete := true), v.io.answers)]
             else end == mid
    ensures var all := gone + if v.cell in s.live && !Stays(when, s.live[v.cell]) then [v.cell] else [];
      && end.live == s.live - (set c | c in all)
      && |end.handed| == |s.handed| + |all| && s.handed <= end.handed
      && forall i :: 0 <= i < |all| ==>
           all[i] in s.live && end.handed[|s.handed| + i].bar == s.live[all[i]].(complete := true)
  {
    hide Stays;
    assert v.cell in mid.live <==> v.cell in s.live;
    assert v.cell in s.live ==> mid.live[v.cell] == s.live[v.cell];
  }

  lemma OneVisit(s: SysState, when: Option<Time>, v: Visit)
    requires Known(v.cell.interval)
    ensures var end := SysStep(s, At(v.cell, VisitEvent(when, v.io)));
      if v.cell in s.live && !Stays(when, s.live[v.cell]) then
        && end.live == s.live - {v.cell}
        && end.handed == s.handed + [Handed(s.live[v.cell].(complete := true), v.io.answers)]
      else end == s
  {
  }

  /** Sweep exactness: whatever order the maps are iterated in and whatever the sinks answer, a sweep
      hands over every live bar that has ended exactly once, drops exactly those from memory, and
      leaves every other bar as it was. FlushAll (no clock reading) empties memory. */
  lemma PassExact(s: SysState, when: Option<Time>, visits: seq<Visit>)
    requires Covers(visits, s) && forall v :: v in visits ==> Known(v.cell.interval)
    ensures
      var end, gone := SysRun(s, VisitAll(when, visits)), Flushed(s.live, when, visits);
      && end.live == (map c | c in s.live && Stays(when, s.live[c]) :: s.live[c])
      && NoDuplicates(gone)
      && (forall c :: c in gone <==> c in s.live && !Stays(when, s.live[c]))
      && |end.handed| == |s.handed| + |gone| && s.handed <= end.handed
      && forall i :: 0 <= i < |gone| ==>
           end.handed[|s.handed| + i].bar == s.live[gone[i]].(complete := true)
  {
    hide Stays, SysRun, VisitAll, Known;
    FlushedIs(s.live, when, visits);
    PassEffect(s, when, visits);
  }

  // --- mirror, ledger, recovery ----------------------------------------------------------------

  lemma {:induction false} EventsAtHave(c: Cell, evs: seq<SysEvent>)
    ensures forall e :: e in EventsAt(c, evs) ==>
              At(c, e) in evs || (e == Crash && CrashAll in evs)
    decreases |evs|
  {
    if evs == [] {
    } else {
      EventsAtHave(c, evs[1..]);
    }
  }

  /** Is the string a key that Save could have written. */
  ghost predicate IsKey(k: string) {
    exists c: Cell, w: Time :: Known(c.interval) && Aligned(w, Dur(c.interval)) && k == Key(c, w)
  }

  lemma StepKeys(s: SysState, ev: SysEvent)
    requires SysWellFormed(s) && ValidEvent(ev) && forall k :: k in s.store ==> IsKey(k)
    ensures forall k :: k in SysStep(s, ev).store ==> IsKey(k)
  {
    hide SysWellFormed, SysStep, IsKey, Aligned, Known, Key;
    var s' := SysStep(s, ev);
    NewKeys(s, ev);
    if ev.At? && ev.e.Feed? {
      var c := ev.cell;
      StepKeepsSysWellFormed(s, ev);
      LiveIsOk(s', c);
      assert c == Cell(s'.live[c].interval, s'.live[c].symbol);
      KeyIsKey(c, s'.live[c].start);
    }
  }

  lemma KeyIsKey(c: Cell, w: Time)
    requires Known(c.interval) && Aligned(w, Dur(c.interval))
    ensures IsKey(Key(c, w))
  {
  }

  /** Only a tick adds a key, that of the bar it leaves live. */
  lemma NewKeys(s: SysState, ev: SysEvent)
    requires ValidEvent(ev)
    ensures var s' := SysStep(s, ev);
      if ev.At? && ev.e.Feed? then
        && ev.cell in s'.live
        && var b := s'.live[ev.cell];
           forall k :: k in s'.store ==> k in s.store || k == Key(Cell(b.interval, b.symbol), b.start)
      else forall k :: k in s'.store ==> k in s.store
  {
    hide Key, Known, Accepted, NewBar, LoadFrom, Aligned, Dur, Align, Update;
  }

  lemma LiveIsOk(s: SysState, c: Cell)
    requires SysWellFormed(s) && c in s.live
    ensures Known(c.interval) && BarOk(c, s.live[c])
  {
    assert WellFormed(c, Project(s, c));
  }

  /** Nothing but keys of known cells and aligned starts ever gets into the store. */
  lemma {:induction false} RunKeys(s: SysState, evs: seq<SysEvent>)
    requires SysWellFormed(s) && (forall ev :: ev in evs ==> ValidEvent(ev)) && forall k :: k in s.store ==> IsKey(k)
    ensures forall k :: k in SysRun(s, evs).store ==> IsKey(k)
    decreases |evs|
  {
    hide SysWellFormed, SysStep, IsKey, ValidEvent;
    if evs == [] {
    } else {
      StepKeys(s, evs[0]);
      StepKeepsSysWellFormed(s, evs[0]);
      RunKeys(SysStep(s, evs[0]), evs[1..]);
    }
  }

  /** With no failure, no crash and no expiry, for ticks in any order under any clock: after every
      step the keys in the store are exactly the keys of the live bars, with equal contents, and no
      tick has restored a bar. */
  lemma StoreMirrorsMemory(evs: seq<SysEvent>)
    requires forall ev :: ev in evs ==> ValidEvent(ev) && ev.At? && Smooth(ev.e)
    ensures var s := SysRun(START, evs);
      && (forall k :: k in s.store <==> exists c :: c in s.live && k == Key(c, s.live[c].start))
      && (forall c :: c in s.live ==> s.store[Key(c, s.live[c].start)].pb == ToProto(s.live[c]))
    ensures forall c: Cell :: Known(c.interval) ==> NeverRestores(c, EMPTY, EventsAt(c, evs))
  {
    hide Key, SysRun, NeverRestores, Smooth, SysWellFormed, IsKey;
    var s := SysRun(START, evs);
    SystemWellFormed(evs, Cell("1m", ""));
    NoKeys();
    RunKeys(START, evs);
    forall c: Cell, w: Time | Known(c.interval) && Aligned(w, Dur(c.interval))
      ensures MirroredAt(s, c, w) && NeverRestores(c, EMPTY, EventsAt(c, evs))
    {
      CellMirrors(evs, c, w);
    }
    AllMirrored(s);
    forall c: Cell | Known(c.interval)
      ensures NeverRestores(c, EMPTY, EventsAt(c, evs))
    {
      CellMirrors(evs, c, 0);
    }
  }

  ghost predicate MirroredAt(s: SysState, c: Cell, w: Time) {
    && (Key(c, w) in s.store <==> c in s.live && s.live[c].start == w)
    && (Key(c, w) in s.store ==> c in s.live && s.store[Key(c, w)].pb == ToProto(s.live[c]))
  }

  lemma NoKeys()
    ensures SysWellFormed(START) && forall k :: k in START.store ==> IsKey(k)
  {
    StartProjects(Cell("1m", ""));
  }

  lemma AllMirrored(s: SysState)
    requires SysWellFormed(s) && forall k :: k in s.store ==> IsKey(k)
    requires forall c: Cell, w: Time :: Known(c.interval) && Aligned(w, Dur(c.interval)) ==> MirroredAt(s, c, w)
    ensures forall k :: k in s.store <==> exists c :: c in s.live && k == Key(c, s.live[c].start)
    ensures forall c :: c in s.live ==> s.store[Key(c, s.live[c].start)].pb == ToProto(s.live[c])
  {
    hide Key, Known, Aligned, SysWellFormed;
    forall c | c in s.live
      ensures MirroredAt(s, c, s.live[c].start)
    {
      LiveIsOk(s, c);
    }
    forall k | k in s.store
      ensures exists c :: c in s.live && k == Key(c, s.live[c].start)
    {
      var c: Cell, w: Time :| Known(c.interval) && Aligned(w, Dur(c.interval)) && k == Key(c, w);
      assert MirroredAt(s, c, w);
    }
  }

  lemma CellMirrors(evs: seq<SysEvent>, c: Cell, w: Time)
    requires forall ev :: ev in evs ==> ValidEvent(ev) && ev.At? && Smooth(ev.e)
    requires Known(c.interval) && Aligned(w, Dur(c.interval))
    ensures MirroredAt(SysRun(START, evs), c, w) && NeverRestores(c, EMPTY, EventsAt(c, evs))
  {
    hide Key, SysRun, Run, NeverRestores, Project, Smooth;
    StartProjects(c);
    CellsAreIndependent(START, evs, c);
    EventsAtHave(c, evs);
    RunKeepsMirror(c, EMPTY, EventsAt(c, evs));
    MirrorSeen(SysRun(START, evs), c, w);
  }

  /** What a mirroring cell means for the whole store. */
  lemma MirrorSeen(s: SysState, c: Cell, w: Time)
    requires Known(c.interval) && Aligned(w, Dur(c.interval)) && Mirror(Project(s, c))
    ensures MirroredAt(s, c, w)
  {
    hide Key;
    assert Key(c, w) in s.store <==> w in Project(s, c).store;
  }

  /** The ledger of a symbol and interval over any run of the system. */
  lemma LedgerBalances(evs: seq<SysEvent>, c: Cell)
    requires Known(c.interval) && forall ev :: ev in evs ==> ValidEvent(ev)
    ensures var s, es := SysRun(START, evs), EventsAt(c, evs);
      HandedVolume(HandedOf(s.handed, c)) + (if c in s.live then s.live[c].volume else 0.0)
      == Volume(Counted(c, EMPTY, es)) + Restored(c, EMPTY, es) - Crashed(c, EMPTY, es)
  {
    StartProjects(c);
    CellsAreIndependent(START, evs, c);
    VolumeConserved(c, EMPTY, EventsAt(c, evs));
  }

  /** Crash recovery in the system. After the save of a cell's tick let any events follow, crashes
      among them, that neither save the cell's window again nor drop its key; what happens in other
      cells does not matter. Once the cell has no live bar, the first tick of the window brings back
      exactly the saved bar. */
  lemma SystemCrashRecovery(evs: seq<SysEvent>, c: Cell, t: Tick, now: Time, io: IO,
                            rest: seq<SysEvent>, t': Tick, now': Time, io': IO)
    requires Known(c.interval) && io.saveOk && io'.loadOk
    requires (forall ev :: ev in evs ==> ValidEvent(ev)) && forall ev :: ev in rest ==> ValidEvent(ev)
    ensures
      var saved := SysStep(SysRun(START, evs), At(c, Feed(t, now, io)));
      var later := SysRun(saved, rest);
      && c in saved.live
      && (&& c !in later.live
          && Win(c, t') == saved.live[c].start
          && Untouched(c, Project(saved, c), EventsAt(c, rest), saved.live[c].start)
          ==>
          var recovered := SysStep(later, At(c, Feed(t', now', io')));
          c in recovered.live && recovered.live[c] == saved.live[c])
  {
    hide SysRun, Run, Project, SysStep, SysWellFormed, WellFormed, Known, Align, FeedCell, Untouched;
    SystemWellFormed(evs, c);
    var s := SysRun(START, evs);
    var saved := FeedProjects(s, c, t, now, io);
    CellsAreIndependent(saved, rest, c);
    var later := SysRun(saved, rest);
    var recovered := FeedProjects(later, c, t', now', io');
    SeenFromCell(saved, c);
    SeenFromCell(later, c);
    SeenFromCell(recovered, c);
    if c !in later.live && Win(c, t') == saved.live[c].start
       && Untouched(c, Project(saved, c), EventsAt(c, rest), saved.live[c].start) {
      CrashRecovery(c, Project(s, c), t, now, io, EventsAt(c, rest), t', now', io');
    }
  }

  lemma FeedProjects(s: SysState, c: Cell, t: Tick, now: Time, io: IO) returns (s': SysState)
    requires SysWellFormed(s) && Known(c.interval)
    ensures s' == SysStep(s, At(c, Feed(t, now, io))) && SysWellFormed(s')
    ensures Project(s', c) == Step(c, Project(s, c), Feed(t, now, io))
    ensures Project(s', c).live.Some?
  {
    hide SysWellFormed, Project, SysStep, Known;
    s' := SysStep(s, At(c, Feed(t, now, io)));
    StepKeepsSysWellFormed(s, At(c, Feed(t, now, io)));
    ProjectStep(s, At(c, Feed(t, now, io)), c);
    RunOne(c, Project(s, c), [Feed(t, now, io)]);
  }

  lemma SeenFromCell(s: SysState, c: Cell)
    requires Known(c.interval)
    ensures Project(s, c).live == if c in s.live then Some(s.live[c]) else None
  {
  }

  // --- recovery of a whole call ----------------------------------------------------------------

  /** A call between the crash and the symbol's next tick: no tick of the symbol, and no expiry before
      two durations have passed since the window's start. */
  predicate QuietOp(op: Op, symbol: string) {
    match op
    case Process(sym, _, _) => sym != symbol
    case ExpireKey(c, w, now) => Known(c.interval) && (c.symbol == symbol ==> now < w + 2 * Dur(c.interval))
    case _ => true
  }

  lemma {:induction false} VisitsAreQuiet(when: Option<Time>, visits: seq<Visit>, c: Cell, w: Time)
    requires Known(c.interval)
    ensures forall e :: e in EventsAt(c, VisitAll(when, visits)) ==> Quiet(c, e, w)
  {
    if visits == [] {
    } else {
      var n := |visits| - 1;
      var ev := At(visits[n].cell, VisitEvent(when, visits[n].io));
      VisitsAreQuiet(when, visits[..n], c, w);
      EventsAtAppend(c, VisitAll(when, visits[..n]), [ev]);
      EventsAtOne(c, ev);
    }
  }

  lemma {:induction false} QuietOps(ivs: seq<string>, ops: seq<Op>, c: Cell, w: Time)
    requires KnownIntervals(ivs) && NoDuplicates(ivs) && Known(c.interval)
    requires forall op :: op in ops ==> ValidOp(ivs, op) && QuietOp(op, c.symbol)
    ensures forall e :: e in EventsAt(c, ExpandAll(ivs, ops)) ==> Quiet(c, e, w)
    decreases ops
  {
    hide Known, KnownIntervals, EventsAt;
    if ops == [] {
      assert EventsAt(c, []) == [] by {
        NoEvents(c);
      }
    } else {
      var op := ops[0];
      assert op in ops && forall o :: o in ops[1..] ==> o in ops;
      QuietOps(ivs, ops[1..], c, w);
      EventsAtAppend(c, Expand(ivs, op), ExpandAll(ivs, ops[1..]));
      match op
      case Process(symbol, t, turns) => FeedsAt(ivs, symbol, t, turns, c);
      case SweepAll(now, visits) => VisitsAreQuiet(Some(now), visits, c, w);
      case FlushEverything(visits) => VisitsAreQuiet(None, visits, c, w);
      case Restart => EventsAtOne(c, CrashAll);
      case ExpireKey(c', x, now) => EventsAtOne(c, At(c', Expire(x, now)));
    }
  }

  lemma NoEvents(c: Cell)
    ensures EventsAt(c, []) == []
  {
  }

  /** One call of Process saves the bars of all its intervals, one after the other. If memory is lost
      after the call, every interval comes back on its own: at the symbol's next tick in the bar's
      window the cell holds exactly what it held after the first call, for each interval whose save
      and load took effect - whatever the other intervals' outcomes, and whichever calls come between. */
  lemma ProcessRecovers(ivs: seq<string>, evs: seq<SysEvent>, symbol: string, t: Tick, turns: seq<Turn>,
                        between: seq<Op>, t': Tick, turns': seq<Turn>, i: nat)
    requires KnownIntervals(ivs) && NoDuplicates(ivs) && |turns| == |ivs| && |turns'| == |ivs| && i < |ivs|
    requires forall ev :: ev in evs ==> ValidEvent(ev)
    requires forall op :: op in between ==> ValidOp(ivs, op) && QuietOp(op, symbol)
    requires turns[i].io.saveOk && turns'[i].io.loadOk && Known(ivs[i])
    ensures
      var c := Cell(ivs[i], symbol);
      var first := SysRun(SysRun(START, evs), Expand(ivs, Process(symbol, t, turns)));
      var later := SysRun(SysStep(first, CrashAll), ExpandAll(ivs, between));
      var second := SysRun(later, Expand(ivs, Process(symbol, t', turns')));
      && c in first.live
      && (turns[i].now >= first.live[c].start && Win(c, t') == first.live[c].start
          ==> c in second.live && second.live[c] == first.live[c])
  {
    hide SysRun, Run, SysStep, SysWellFormed, WellFormed, Known, Align, EventsAt, ExpandAll, FeedAll, Untouched, Quiet,
         Project, FeedCell;
    var c := Cell(ivs[i], symbol);
    var s := SysRun(START, evs);
    SystemWellFormed(evs, c);
    var p := Project(s, c);
    FeedsAt(ivs, symbol, t, turns, c);
    CellsAreIndependent(s, Expand(ivs, Process(symbol, t, turns)), c);
    var first := SysRun(s, Expand(ivs, Process(symbol, t, turns)));
    var feed := Feed(t, turns[i].now, turns[i].io);
    RunOne(c, p, [feed]);
    assert Project(first, c) == Step(c, p, feed);
    SeenFromCell(first, c);
    var b := Project(first, c).live.value;
    CrashKeepsWellFormed(first, c);
    var between' := EventsAt(c, ExpandAll(ivs, between));
    CellsAreIndependent(SysStep(first, CrashAll), ExpandAll(ivs, between), c);
    var later := SysRun(SysStep(first, CrashAll), ExpandAll(ivs, between));
    FeedsAt(ivs, symbol, t', turns', c);
    CellsAreIndependent(later, Expand(ivs, Process(symbol, t', turns')), c);
    var second := SysRun(later, Expand(ivs, Process(symbol, t', turns')));
    var feed' := Feed(t', turns'[i].now, turns'[i].io);
    RunOne(c, Project(later, c), [feed']);
    SeenFromCell(second, c);
    QuietOps(ivs, between, c, b.start);
    CrashThenRun(c, Project(first, c), between');
    if turns[i].now >= b.start && Win(c, t') == b.start {
      SavedAfterFeed(c, p, t, turns[i].now, turns[i].io);
      CrashUntouched(c, Project(first, c), between', b.start);
      CrashRecovery(c, p, t, turns[i].now, turns[i].io, [Crash] + between', t', turns'[i].now, turns'[i].io);
    }
  }

  lemma SavedAfterFeed(c: Cell, p: CellState, t: Tick, now: Time, io: IO)
    requires Known(c.interval) && WellFormed(c, p) && io.saveOk
    ensures var s := Step(c, p, Feed(t, now, io));
      && s.live.Some? && s.live.value.start in s.store
      && s.store[s.live.value.start].deadline == now + 2 * Dur(c.interval)
  {
  }

  lemma CrashThenRun(c: Cell, p: CellState, es: seq<Event>)
    requires Known(c.interval)
    ensures Run(c, p, [Crash] + es) == Run(c, Step(c, p, Crash), es)
  {
    assert ([Crash] + es)[1..] == es;
  }

  lemma CrashKeepsWellFormed(s: SysState, c: Cell)
    requires SysWellFormed(s) && Known(c.interval)
    ensures SysWellFormed(SysStep(s, CrashAll))
    ensures Project(SysStep(s, CrashAll), c) == Step(c, Project(s, c), Crash)
  {
    hide SysWellFormed, Project, SysStep;
    StepKeepsSysWellFormed(s, CrashAll);
    ProjectStep(s, CrashAll, c);
    RunOne(c, Project(s, c), [Crash]);
  }

  // --- no window is lost -----------------------------------------------------------------------

  /** The step drops the key of the cell's window because its time to live is over, two durations after
      the window's start or later. */
  predicate KeyRunsOut(s: SysState, ev: SysEvent, c: Cell, w: Time)
    requires Known(c.interval)
  {
    && ev.At? && ev.cell == c && ev.e.Expire? && ev.e.start == w
    && Aligned(w, Dur(c.interval)) && Key(c, w) in s.store && s.store[Key(c, w)].deadline <= ev.e.now
    && ev.e.now >= w + 2 * Dur(c.interval)
  }

  /** Some step of the run does. */
  predicate KeyRanOut(s: SysState, evs: seq<SysEvent>, c: Cell, w: Time)
    requires Known(c.interval) && forall ev :: ev in evs ==> ValidEvent(ev)
    decreases |evs|
  {
    evs != [] && (KeyRunsOut(s, evs[0], c, w) || KeyRanOut(SysStep(s, evs[0]), evs[1..], c, w))
  }

  lemma {:induction false} ExpiredSeen(s: SysState, evs: seq<SysEvent>, c: Cell, w: Time)
    requires SysWellFormed(s) && Known(c.interval) && forall ev :: ev in evs ==> ValidEvent(ev)
    requires Expired(c, Project(s, c), EventsAt(c, evs), w)
    ensures KeyRanOut(s, evs, c, w)
    decreases |evs|
  {
    hide SysWellFormed, SysStep, Project, Step, Key, KeyRunsOut, RunsOut, Known;
    if evs == [] {
    } else {
      var ev := evs[0];
      ProjectStep(s, ev, c);
      StepKeepsSysWellFormed(s, ev);
      RunOne(c, Project(s, c), EventAt(c, ev));
      if EventAt(c, ev) == [] {
        assert EventAt(c, ev) + EventsAt(c, evs[1..]) == EventsAt(c, evs[1..]);
        ExpiredSeen(SysStep(s, ev), evs[1..], c, w);
      } else {
        assert EventsAt(c, evs)[0] == EventAt(c, ev)[0] && EventsAt(c, evs)[1..] == EventsAt(c, evs[1..]);
        if RunsOut(c, Project(s, c), EventAt(c, ev)[0], w) {
          RunsOutSeen(s, ev, c, w);
        } else {
          ExpiredSeen(SysStep(s, ev), evs[1..], c, w);
        }
      }
    }
  }

  lemma RunsOutSeen(s: SysState, ev: SysEvent, c: Cell, w: Time)
    requires Known(c.interval) && EventAt(c, ev) != [] && RunsOut(c, Project(s, c), EventAt(c, ev)[0], w)
    ensures KeyRunsOut(s, ev, c, w)
  {
    hide Key;
  }

  /** What the system still has of a window: a live bar, a bar that every sink accepted, or a copy under
      its own key, with the values of all its counted ticks. */
  ghost predicate PreservedIn(s: SysState, c: Cell, ts: seq<Tick>, w: Time)
    requires Known(c.interval)
  {
    || (c in s.live && FinalValues(c, s.live[c], ts, w))
    || (exists h :: h in s.handed && Accepted(h.answers) && FinalValues(c, h.bar, ts, w))
    || (Key(c, w) in s.store && FinalValues(c, FromProto(c.interval, s.store[Key(c, w)].pb), ts, w))
  }

  lemma PreservedSeen(s: SysState, c: Cell, ts: seq<Tick>, w: Time)
    requires Known(c.interval) && Preserved(c, Project(s, c), ts, w)
    ensures PreservedIn(s, c, ts, w)
  {
    hide Key, FinalValues;
    LogSublist(s.handed, c);
  }

  /** What the theorems ask of a run, as far as the cell is concerned: an orderly clock, saves that take
      effect, and loads that take effect where there is a copy. */
  ghost predicate OrderlyAt(evs: seq<SysEvent>, clk: Time, c: Cell) {
    && Known(c.interval) && (forall ev :: ev in evs ==> ValidEvent(ev))
    && OrderlyRun(Dur(c.interval), EventsAt(c, evs), clk)
    && ReliableRun(c, EMPTY, EventsAt(c, evs))
  }

  /** No window is lost, for the whole system: any events of any cells, with crashes anywhere - also in
      the middle of a call of Process, with some intervals fed and others not - and any sink failures.
      Each window of the cell with a counted tick is preserved with its final values, unless the store
      itself dropped its key after the time to live. */
  lemma NoWindowLostSystem(evs: seq<SysEvent>, clk: Time, c: Cell, t: Tick)
    requires OrderlyAt(evs, clk, c) && t in Counted(c, EMPTY, EventsAt(c, evs))
    ensures PreservedIn(SysRun(START, evs), c, Counted(c, EMPTY, EventsAt(c, evs)), Win(c, t))
            || KeyRanOut(START, evs, c, Win(c, t))
  {
    hide Key, SysRun, Run, Counted, EventsAt, OrderlyRun, Align, TicksIn, Summary, Known, Project, SysWellFormed,
         Preserved, PreservedIn, Expired, KeyRanOut, ReliableRun;
    var es := EventsAt(c, evs);
    StartProjects(c);
    CellsAreIndependent(START, evs, c);
    NoWindowLost(c, es, clk, t);
    if Expired(c, EMPTY, es, Win(c, t)) {
      ExpiredSeen(START, evs, c, Win(c, t));
    } else {
      PreservedSeen(SysRun(START, evs), c, Counted(c, EMPTY, es), Win(c, t));
    }
  }

  /** The same up to and including a final FlushAll, whatever the sinks answer it: nothing stays live,
      and each window was accepted by every sink or is still stored. What the sinks received of the cell
      is ascending and final. */
  lemma NoWindowLostAtCloseSystem(evs: seq<SysEvent>, visits: seq<Visit>, clk: Time, c: Cell, t: Tick)
    requires OrderlyAt(evs, clk, c)
    requires (forall v :: v in visits ==> Known(v.cell.interval)) && Covers(visits, SysRun(START, evs))
    ensures
      var s := SysRun(SysRun(START, evs), VisitAll(None, visits));
      var ts := Counted(c, EMPTY, EventsAt(c, evs));
      && c !in s.live
      && FinalLog(c, HandedOf(s.handed, c), ts)
      && (t in ts ==> PreservedIn(s, c, ts, Win(c, t)) || KeyRanOut(START, evs, c, Win(c, t)))
  {
    hide Key, SysRun, Run, Counted, EventsAt, OrderlyRun, Align, TicksIn, Summary, Known, VisitAll, Preserved,
         PreservedIn, Expired, KeyRanOut, ReliableRun, FinalLog, Covers, SysWellFormed, Closing;
    var es, end := EventsAt(c, evs), EventsAt(c, VisitAll(None, visits));
    var s := SysRun(START, evs);
    var s' := SysRun(s, VisitAll(None, visits));
    StartProjects(c);
    CellsAreIndependent(START, evs, c);
    FlushAllAtCell(s, visits, c);
    SeenFromCell(s', c);
    CellsAreIndependent(s, VisitAll(None, visits), c);
    HandedFinal(c, es, end, clk);
    Closed(c, Run(c, EMPTY, es), end);
    if t in Counted(c, EMPTY, es) {
      NoWindowLostAtClose(c, es, end, clk, t);
      if Expired(c, EMPTY, es, Win(c, t)) {
        ExpiredSeen(START, evs, c, Win(c, t));
      } else {
        PreservedSeen(s', c, Counted(c, EMPTY, es), Win(c, t));
      }
    }
  }

  lemma Closed(c: Cell, s: CellState, end: seq<Event>)
    requires Known(c.interval) && Closing(s, end)
    ensures Run(c, s, end).live.None?
  {
    RunOne(c, s, end);
  }

  // --- the same for runs of calls ----------------------------------------------------------------

  /** Calls with known and distinct configured intervals, c's among them, and an orderly clock. */
  ghost predicate OrderlyCalls(ivs: seq<string>, finest: string, ops: seq<Op>, clk: Time, c: Cell) {
    && KnownIntervals(ivs) && NoDuplicates(ivs) && finest in ivs && c.interval in ivs
    && (forall iv :: iv in ivs ==> Dur(finest) <= Dur(iv))
    && (forall op :: op in ops ==> ValidOp(ivs, op))
    && OrderlyOps(ops, Dur(finest), clk)
  }

  lemma CallsAtCell(ivs: seq<string>, finest: string, ops: seq<Op>, clk: Time, c: Cell)
    requires OrderlyCalls(ivs, finest, ops, clk, c)
    requires Known(c.interval) && ReliableRun(c, EMPTY, EventsAt(c, ExpandAll(ivs, ops)))
    ensures OrderlyAt(ExpandAll(ivs, ops), clk, c)
  {
    DurationsDivide(finest, c.interval);
    OpsAtCell(ivs, ops, c, Dur(finest), clk);
  }

  lemma NoWindowLostCalls(ivs: seq<string>, finest: string, ops: seq<Op>, clk: Time, c: Cell, t: Tick)
    requires OrderlyCalls(ivs, finest, ops, clk, c) && Known(c.interval)
    requires ReliableRun(c, EMPTY, EventsAt(c, ExpandAll(ivs, ops)))
    requires t in Counted(c, EMPTY, EventsAt(c, ExpandAll(ivs, ops)))
    ensures
      var evs := ExpandAll(ivs, ops);
      || PreservedIn(SysRun(START, evs), c, Counted(c, EMPTY, EventsAt(c, evs)), Win(c, t))
      || (KeyRanOut(START, evs, c, Win(c, t)) && ExpiredIn(ops, c, Win(c, t)))
  {
    hide SysRun, Counted, ExpandAll, EventsAt, PreservedIn, KeyRanOut, ExpiredIn, Known, Align;
    CallsAtCell(ivs, finest, ops, clk, c);
    NoWindowLostSystem(ExpandAll(ivs, ops), clk, c, t);
    if KeyRanOut(START, ExpandAll(ivs, ops), c, Win(c, t)) {
      RanOutByCall(ivs, ops, c, Win(c, t));
    }
  }

  lemma NoWindowLostAtCloseCalls(ivs: seq<string>, finest: string, ops: seq<Op>, visits: seq<Visit>, clk: Time,
                                 c: Cell, t: Tick)
    requires OrderlyCalls(ivs, finest, ops, clk, c) && Known(c.interval)
    requires ReliableRun(c, EMPTY, EventsAt(c, ExpandAll(ivs, ops)))
    requires ValidOp(ivs, FlushEverything(visits)) && Covers(visits, SysRun(START, ExpandAll(ivs, ops)))
    ensures
      var evs := ExpandAll(ivs, ops);
      var s := SysRun(SysRun(START, evs), VisitAll(None, visits));
      var ts := Counted(c, EMPTY, EventsAt(c, evs));
      && c !in s.live
      && FinalLog(c, HandedOf(s.handed, c), ts)
      && (t in ts ==> || PreservedIn(s, c, ts, Win(c, t))
                      || (KeyRanOut(START, evs, c, Win(c, t)) && ExpiredIn(ops, c, Win(c, t))))
  {
    hide SysRun, Counted, ExpandAll, EventsAt, PreservedIn, KeyRanOut, ExpiredIn, Known, Align, FinalLog, Covers,
         VisitAll;
    CallsAtCell(ivs, finest, ops, clk, c);
    NoWindowLostAtCloseSystem(ExpandAll(ivs, ops), visits, clk, c, t);
    if KeyRanOut(START, ExpandAll(ivs, ops), c, Win(c, t)) {
      RanOutByCall(ivs, ops, c, Win(c, t));
    }
  }

  /** Among the calls, the store dropped the key of the cell's window two durations after its start or later. */
  ghost predicate ExpiredIn(ops: seq<Op>, c: Cell, w: Time)
    requires Known(c.interval)
  {
    exists now: Time :: ExpireKey(c, w, now) in ops && now >= w + 2 * Dur(c.interval)
  }

  lemma {:induction false} RanOutEvent(s: SysState, evs: seq<SysEvent>, c: Cell, w: Time) returns (now: Time)
    requires Known(c.interval) && (forall ev :: ev in evs ==> ValidEvent(ev)) && KeyRanOut(s, evs, c, w)
    ensures At(c, Expire(w, now)) in evs && now >= w + 2 * Dur(c.interval)
    decreases |evs|
  {
    hide Key, SysStep, Known;
    if KeyRunsOut(s, evs[0], c, w) {
      now := evs[0].e.now;
      assert evs[0] == At(c, Expire(w, now));
    } else {
      now := RanOutEvent(SysStep(s, evs[0]), evs[1..], c, w);
    }
  }

  lemma RanOutByCall(ivs: seq<string>, ops: seq<Op>, c: Cell, w: Time)
    requires KnownIntervals(ivs) && (forall op :: op in ops ==> ValidOp(ivs, op)) && Known(c.interval)
    requires KeyRanOut(START, ExpandAll(ivs, ops), c, w)
    ensures ExpiredIn(ops, c, w)
  {
    hide ExpandAll, Known, KeyRanOut;
    var now := RanOutEvent(START, ExpandAll(ivs, ops), c, w);
    ExpiryOfCall(ivs, ops, c, w, now);
  }

  lemma {:induction false} ExpiryOfCall(ivs: seq<string>, ops: seq<Op>, c: Cell, w: Time, now: Time)
    requires KnownIntervals(ivs) && forall op :: op in ops ==> ValidOp(ivs, op)
    requires At(c, Expire(w, now)) in ExpandAll(ivs, ops)
    ensures ExpireKey(c, w, now) in ops
    decreases ops
  {
    if At(c, Expire(w, now)) in Expand(ivs, ops[0]) {
      match ops[0]
      case Process(symbol, t, turns) => OnlyFeeds(ivs, symbol, t, turns);
      case SweepAll(when, visits) => OnlyVisits(Some(when), visits);
      case FlushEverything(visits) => OnlyVisits(None, visits);
      case Restart =>
      case ExpireKey(_, _, _) =>
    } else {
      ExpiryOfCall(ivs, ops[1..], c, w, now);
    }
  }

  lemma {:induction false} OnlyFeeds(ivs: seq<string>, symbol: string, t: Tick, turns: seq<Turn>)
    requires |turns| == |ivs|
    ensures forall ev :: ev in FeedAll(ivs, symbol, t, turns) ==> ev.At? && ev.e.Feed?
    decreases |ivs|
  {
    if ivs == [] {
    } else {
      OnlyFeeds(ivs[..|ivs| - 1], symbol, t, turns[..|ivs| - 1]);
    }
  }

  lemma {:induction false} OnlyVisits(when: Option<Time>, visits: seq<Visit>)
    ensures forall ev :: ev in VisitAll(when, visits) ==> ev.At? && (ev.e.Sweep? || ev.e.FlushAll?)
  {
    if visits == [] {
    } else {
      OnlyVisits(when, visits[..|visits| - 1]);
    }
  }

  lemma {:induction false} LogSublist(hs: seq<Handed>, c: Cell)
    ensures forall h :: h in HandedOf(hs, c) ==> h in hs
  {
    if hs == [] {
    } else {
      LogSublist(hs[..|hs| - 1], c);
    }
  }
}
