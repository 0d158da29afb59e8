/** The aggregator seen from one cell: one interval and one symbol.

    A cell holds at most one live bar, the copies of its partial bars in the key-value store, and
    the log of the bars handed to the sinks. Every outcome of the outside world (store and sinks) is
    part of the event, so a run is determined by its events and each theorem below quantifies over
    all outcomes it does not fix. */
module Cells {
  import opened Wrappers
  import opened Intervals
  import opened Bars

  /** Outcomes of one step: did the load, the save and the delete take effect, and what did each
      sink answer. The aggregator ignores the error of a save and of a delete, so only their effect
      on the store matters. */
  datatype IO = IO(loadOk: bool, saveOk: bool, delOk: bool, answers: seq<bool>)

  predicate Accepted(answers: seq<bool>) {
    forall a :: a in answers ==> a
  }

  predicate AllGood(io: IO) {
    io.loadOk && io.saveOk && io.delOk && Accepted(io.answers)
  }

  datatype Handed = Handed(bar: Bar, answers: seq<bool>)

  /** A stored partial bar and the instant at which its time to live runs out. */
  datatype Saved = Saved(pb: PbBar, deadline: Time)

  datatype CellState = CellState(live: Option<Bar>, store: imap<Time, Saved>, handed: seq<Handed>)

  ghost const EMPTY := CellState(None, imap[], [])

  datatype Event =
    | Feed(tick: Tick, now: Time, io: IO)   // Process, for this interval
    | Sweep(now: Time, io: IO)              // flushExpired
    | FlushAll(io: IO)                      // FlushAll and Close
    | Crash                                 // memory is lost, the store is not
    | Expire(start: Time, now: Time)        // the store drops a key whose time to live ran out

  /** Does this tick find a saved bar of its own window. */
  ghost predicate Restores(c: Cell, s: CellState, e: Event)
    requires Known(c.interval)
  {
    && e.Feed? && s.live.None? && e.io.loadOk
    && Align(e.tick.ts, Dur(c.interval)) in s.store
  }

  /** The store keeps a saved bar for twice the interval's duration. */
  ghost function Save(c: Cell, s: CellState, now: Time, ok: bool): CellState
    requires Known(c.interval) && s.live.Some?
  {
    if ok then
      s.(store := s.store[s.live.value.start := Saved(ToProto(s.live.value), now + 2 * Dur(c.interval))])
    else s
  }

  /** Marks the bar complete, hands it to every sink, and drops its copy once all accepted. */
  ghost function FlushOne(c: Cell, s: CellState, io: IO): CellState
    requires Known(c.interval) && s.live.Some?
  {
    var b := s.live.value.(complete := true);
    CellState(None,
              if Accepted(io.answers) && io.delOk
              then s.store - {Align(b.start, Dur(c.interval))} else s.store,
              s.handed + [Handed(b, io.answers)])
  }

  ghost function Step(c: Cell, s: CellState, e: Event): CellState
    requires Known(c.interval)
  {
    match e
    case Feed(t, now, io) =>
      if s.live.None? then
        var w := Align(t.ts, Dur(c.interval));
        var b := if io.loadOk && w in s.store then FromProto(c.interval, s.store[w].pb) else NewBar(c, t);
        Save(c, s.(live := Some(b)), now, io.saveOk)
      else if ShouldFlush(s.live.value, now) then
        Save(c, FlushOne(c, s, io).(live := Some(NewBar(c, t))), now, io.saveOk)
      else
        Save(c, s.(live := Some(Update(s.live.value, t))), now, io.saveOk)
    case Sweep(now, io) =>
      if s.live.Some? && ShouldFlush(s.live.value, now) then FlushOne(c, s, io) else s
    case FlushAll(io) =>
      if s.live.Some? then FlushOne(c, s, io) else s
    case Crash => s.(live := None)
    case Expire(w, now) =>
      if w in s.store && s.store[w].deadline <= now then s.(store := s.store - {w}) else s
  }

  ghost function Run(c: Cell, s: CellState, es: seq<Event>): CellState
    requires Known(c.interval)
    decreases es
  {
    if es == [] then s else Run(c, Step(c, s, es[0]), es[1..])
  }

  lemma {:induction false} RunAppend(c: Cell, s: CellState, es: seq<Event>, fs: seq<Event>)
    requires Known(c.interval)
    ensures Run(c, s, es + fs) == Run(c, Run(c, s, es), fs)
    decreases es
  {
    if es == [] {
      assert es + fs == fs;
    } else {
      assert (es + fs)[1..] == es[1..] + fs;
      RunAppend(c, Step(c, s, es[0]), es[1..], fs);
    }
  }

  // --- well-formedness in every run ------------------------------------------------------------

  /** Memory, store and sink log are well formed together: a stored bar sits under its own start. */
  ghost predicate WellFormed(c: Cell, s: CellState)
    requires Known(c.interval)
  {
    && (s.live.Some? ==> BarOk(c, s.live.value) && !s.live.value.complete)
    && (forall w :: w in s.store ==>
          s.store[w].pb.openTime == w && BarOk(c, FromProto(c.interval, s.store[w].pb)))
    && (forall h :: h in s.handed ==> BarOk(c, h.bar) && h.bar.complete)
  }

  lemma FlushKeepsWellFormed(c: Cell, s: CellState, io: IO)
    requires Known(c.interval) && WellFormed(c, s) && s.live.Some?
    ensures WellFormed(c, FlushOne(c, s, io))
  {
    hide Align, Dur, Known, Aligned, Accepted;
  }

  lemma SaveKeepsWellFormed(c: Cell, s: CellState, now: Time, ok: bool)
    requires Known(c.interval) && WellFormed(c, s) && s.live.Some?
    ensures WellFormed(c, Save(c, s, now, ok))
  {
    hide Align, Dur, Known, Aligned;
    StorageRoundTrip(s.live.value, c.interval);
  }

  lemma StepKeepsWellFormed(c: Cell, s: CellState, e: Event)
    requires Known(c.interval) && WellFormed(c, s)
    ensures WellFormed(c, Step(c, s, e))
  {
    hide Align, Dur, Known, Aligned, FlushOne, Save;
    match e
    case Feed(t, now, io) =>
      NewBarOk(c, t);
      if s.live.Some? && ShouldFlush(s.live.value, now) {
        FlushKeepsWellFormed(c, s, io);
        SaveKeepsWellFormed(c, FlushOne(c, s, io).(live := Some(NewBar(c, t))), now, io.saveOk);
      } else if s.live.Some? {
        SaveKeepsWellFormed(c, s.(live := Some(Update(s.live.value, t))), now, io.saveOk);
      } else {
        var w := Align(t.ts, Dur(c.interval));
        var b := if io.loadOk && w in s.store then FromProto(c.interval, s.store[w].pb) else NewBar(c, t);
        SaveKeepsWellFormed(c, s.(live := Some(b)), now, io.saveOk);
      }
    case Sweep(now, io) => if s.live.Some? { FlushKeepsWellFormed(c, s, io); }
    case FlushAll(io) => if s.live.Some? { FlushKeepsWellFormed(c, s, io); }
    case Crash =>
    case Expire(_, _) =>
  }

  /** Whatever fails, crashes or expires, no run leaves the well-formed states. */
  lemma {:induction false} RunKeepsWellFormed(c: Cell, s: CellState, es: seq<Event>)
    requires Known(c.interval) && WellFormed(c, s)
    ensures WellFormed(c, Run(c, s, es))
    decreases es
  {
    if es == [] {
    } else {
      StepKeepsWellFormed(c, s, es[0]);
      RunKeepsWellFormed(c, Step(c, s, es[0]), es[1..]);
    }
  }

  // --- the store mirrors memory ----------------------------------------------------------------

  /** The stored keys are exactly the key of the live bar, and its copy is current. */
  ghost predicate Mirror(s: CellState) {
    match s.live
    case None => s.store == imap[]
    case Some(b) => s.store.Keys == iset{b.start} && s.store[b.start].pb == ToProto(b)
  }

  predicate Smooth(e: Event) {
    match e
    case Feed(_, _, io) => AllGood(io)
    case Sweep(_, io) => AllGood(io)
    case FlushAll(io) => AllGood(io)
    case Crash => false
    case Expire(_, _) => false
  }

  lemma StepKeepsMirror(c: Cell, s: CellState, e: Event)
    requires Known(c.interval) && WellFormed(c, s) && Mirror(s) && Smooth(e)
    ensures Mirror(Step(c, s, e)) && !Restores(c, s, e)
  {
    if s.live.Some? {
      AlignWindow(s.live.value.start, s.live.value.start, Dur(c.interval));
    }
  }

  /** Ticks in any order under any clock: with no failure and no crash the store is memory's mirror
      after every step, so the restore branch is never taken. */
  lemma {:induction false} RunKeepsMirror(c: Cell, s: CellState, es: seq<Event>)
    requires Known(c.interval) && WellFormed(c, s) && Mirror(s)
    requires forall e :: e in es ==> Smooth(e)
    ensures Mirror(Run(c, s, es))
    ensures NeverRestores(c, s, es)
    decreases es
  {
    if es == [] {
    } else {
      StepKeepsMirror(c, s, es[0]);
      StepKeepsWellFormed(c, s, es[0]);
      RunKeepsMirror(c, Step(c, s, es[0]), es[1..]);
    }
  }

  ghost predicate NeverRestores(c: Cell, s: CellState, es: seq<Event>)
    requires Known(c.interval)
    decreases es
  {
    es == [] || (!Restores(c, s, es[0]) && NeverRestores(c, Step(c, s, es[0]), es[1..]))
  }

  // --- the volume ledger -----------------------------------------------------------------------

  function HandedVolume(hs: seq<Handed>): real {
    if hs == [] then 0.0 else HandedVolume(hs[..|hs| - 1]) + hs[|hs| - 1].bar.volume
  }

  function LiveVolume(live: Option<Bar>): real {
    if live.Some? then live.value.volume else 0.0
  }

  function Held(s: CellState): real {
    HandedVolume(s.handed) + LiveVolume(s.live)
  }

  /** The ticks that took the create, the replace or the update branch. */
  ghost function Counted(c: Cell, s: CellState, es: seq<Event>): seq<Tick>
    requires Known(c.interval)
    decreases es
  {
    if es == [] then []
    else
      (if es[0].Feed? && !Restores(c, s, es[0]) then [es[0].tick] else [])
      + Counted(c, Step(c, s, es[0]), es[1..])
  }

  /** Volume brought back from the store, at the moments bars were adopted from it. */
  ghost function Restored(c: Cell, s: CellState, es: seq<Event>): real
    requires Known(c.interval)
    decreases es
  {
    if es == [] then 0.0
    else
      (if Restores(c, s, es[0]) then s.store[Align(es[0].tick.ts, Dur(c.interval))].pb.volume else 0.0)
      + Restored(c, Step(c, s, es[0]), es[1..])
  }

  /** Volume that was only in memory when it was lost. */
  ghost function Crashed(c: Cell, s: CellState, es: seq<Event>): real
    requires Known(c.interval)
    decreases es
  {
    if es == [] then 0.0
    else (if es[0].Crash? then LiveVolume(s.live) else 0.0) + Crashed(c, Step(c, s, es[0]), es[1..])
  }

  lemma HandedVolumeSnoc(hs: seq<Handed>, h: Handed)
    ensures HandedVolume(hs + [h]) == HandedVolume(hs) + h.bar.volume
  {
    assert (hs + [h])[..|hs|] == hs;
  }

  lemma {:induction false} VolumeCons(t: Tick, ts: seq<Tick>)
    ensures Volume([t] + ts) == t.volume + Volume(ts)
  {
    var all := [t] + ts;
    if ts == [] {
      assert all[..0] == [];
      assert Volume(all) == Volume(all[..0]) + t.volume;
    } else {
      assert all[..|all| - 1] == [t] + ts[..|ts| - 1];
      VolumeCons(t, ts[..|ts| - 1]);
    }
  }

  /** In every run whatsoever, volume is neither made nor lost: what is held at the end is what was
      held before, plus what ticks and adopted bars brought, minus what crashes discarded. */
  lemma {:induction false} VolumeConserved(c: Cell, s: CellState, es: seq<Event>)
    requires Known(c.interval)
    ensures Held(Run(c, s, es))
         == Held(s) + Volume(Counted(c, s, es)) + Restored(c, s, es) - Crashed(c, s, es)
    decreases es
  {
    if es == [] {
    } else {
      var e, s' := es[0], Step(c, s, es[0]);
      VolumeConserved(c, s', es[1..]);
      StepVolume(c, s, e);
      if e.Feed? && !Restores(c, s, e) {
        VolumeCons(e.tick, Counted(c, s', es[1..]));
      } else {
        assert Counted(c, s, es) == Counted(c, s', es[1..]);
      }
    }
  }

  lemma StepVolume(c: Cell, s: CellState, e: Event)
    requires Known(c.interval)
    ensures Held(Step(c, s, e)) == Held(s)
         + (if Restores(c, s, e) then s.store[Align(e.tick.ts, Dur(c.interval))].pb.volume
            else if e.Feed? then e.tick.volume else 0.0)
         - (if e.Crash? then LiveVolume(s.live) else 0.0)
  {
    if s.live.Some? && (e.Feed? || e.Sweep? || e.FlushAll?) {
      HandedVolumeSnoc(s.handed, Handed(s.live.value.(complete := true), e.io.answers));
    }
  }

  function TicksOf(es: seq<Event>): seq<Tick> {
    if es == [] then []
    else (if es[0].Feed? then [es[0].tick] else []) + TicksOf(es[1..])
  }

  lemma {:induction false} AllCounted(c: Cell, s: CellState, es: seq<Event>)
    requires Known(c.interval) && NeverRestores(c, s, es)
    ensures Counted(c, s, es) == TicksOf(es)
    ensures Restored(c, s, es) == 0.0
    decreases es
  {
    if es == [] {
    } else {
      AllCounted(c, Step(c, s, es[0]), es[1..]);
    }
  }

  // --- every tick in exactly one bar -----------------------------------------------------------

  function Concat(blocks: seq<seq<Tick>>): seq<Tick> {
    if blocks == [] then [] else Concat(blocks[..|blocks| - 1]) + blocks[|blocks| - 1]
  }

  /** The bars handed to the sinks, in order. */
  function BarsHanded(hs: seq<Handed>): (r: seq<Bar>)
    ensures |r| == |hs| && forall i :: 0 <= i < |hs| ==> r[i] == hs[i].bar
  {
    seq(|hs|, i requires 0 <= i < |hs| => hs[i].bar)
  }

  /** The ticks of one bar: it summarises them, and the first one fixed its window. */
  ghost predicate MadeOf(c: Cell, b: Bar, ts: seq<Tick>)
    requires Known(c.interval)
  {
    Summary(b, ts) && b.start == Align(ts[0].ts, Dur(c.interval))
  }

  /** blocks[i] is the list of ticks that bar i was made of. */
  ghost predicate Accounts(c: Cell, s: CellState, blocks: seq<seq<Tick>>)
    requires Known(c.interval)
  {
    && |blocks| == |s.handed| + (if s.live.Some? then 1 else 0)
    && (forall i :: 0 <= i < |s.handed| ==> MadeOf(c, s.handed[i].bar, blocks[i]))
    && (s.live.Some? ==> MadeOf(c, s.live.value, blocks[|s.handed|]))
  }

  /** Which ticks go to which bar: a tick opens a new block exactly when it opens a new bar. */
  function NextBlocks(s: CellState, e: Event, blocks: seq<seq<Tick>>): seq<seq<Tick>> {
    if !e.Feed? then blocks
    else if s.live.None? || ShouldFlush(s.live.value, e.now) || blocks == [] then blocks + [[e.tick]]
    else blocks[|blocks| - 1 := blocks[|blocks| - 1] + [e.tick]]
  }

  ghost function Blocks(c: Cell, s: CellState, es: seq<Event>, blocks: seq<seq<Tick>>): seq<seq<Tick>>
    requires Known(c.interval)
    decreases es
  {
    if es == [] then blocks else Blocks(c, Step(c, s, es[0]), es[1..], NextBlocks(s, es[0], blocks))
  }

  lemma ConcatSnoc(blocks: seq<seq<Tick>>, b: seq<Tick>)
    ensures Concat(blocks + [b]) == Concat(blocks) + b
  {
    assert (blocks + [b])[..|blocks|] == blocks;
  }

  lemma ConcatGrow(blocks: seq<seq<Tick>>, t: Tick)
    requires blocks != []
    ensures Concat(blocks[|blocks| - 1 := blocks[|blocks| - 1] + [t]]) == Concat(blocks) + [t]
  {
    var grown := blocks[|blocks| - 1 := blocks[|blocks| - 1] + [t]];
    assert grown[..|blocks| - 1] == blocks[..|blocks| - 1];
  }

  lemma FlushAccounts(c: Cell, s: CellState, io: IO, blocks: seq<seq<Tick>>)
    requires Known(c.interval) && s.live.Some? && Accounts(c, s, blocks)
    ensures Accounts(c, FlushOne(c, s, io), blocks)
  {
    var b := s.live.value;
    assert MadeOf(c, b.(complete := true), blocks[|s.handed|]);
  }

  lemma NewAccounts(c: Cell, s: CellState, t: Tick, blocks: seq<seq<Tick>>)
    requires Known(c.interval) && s.live.None? && Accounts(c, s, blocks)
    ensures Accounts(c, s.(live := Some(NewBar(c, t))), blocks + [[t]])
    ensures Concat(blocks + [[t]]) == Concat(blocks) + [t]
  {
    NewBarSummary(c, t);
    ConcatSnoc(blocks, [t]);
  }

  lemma UpdateAccounts(c: Cell, s: CellState, t: Tick, blocks: seq<seq<Tick>>)
    requires Known(c.interval) && s.live.Some? && Accounts(c, s, blocks)
    ensures Accounts(c, s.(live := Some(Update(s.live.value, t))),
                     blocks[|blocks| - 1 := blocks[|blocks| - 1] + [t]])
  {
    UpdateSummary(s.live.value, blocks[|blocks| - 1], t);
  }

  /** Saving touches only the store. */
  lemma StoreAside(c: Cell, s: CellState, s': CellState, blocks: seq<seq<Tick>>)
    requires Known(c.interval) && Accounts(c, s, blocks)
    requires s'.live == s.live && s'.handed == s.handed
    ensures Accounts(c, s', blocks)
  {
  }

  lemma StepAccounts(c: Cell, s: CellState, e: Event, blocks: seq<seq<Tick>>)
    requires Known(c.interval) && Accounts(c, s, blocks)
    requires !Restores(c, s, e) && !e.Crash?
    ensures Accounts(c, Step(c, s, e), NextBlocks(s, e, blocks))
    ensures Concat(NextBlocks(s, e, blocks)) == Concat(blocks) + if e.Feed? then [e.tick] else []
  {
    var s', next := Step(c, s, e), NextBlocks(s, e, blocks);
    match e
    case Feed(t, now, io) =>
      if s.live.None? {
        NewAccounts(c, s, t, blocks);
        StoreAside(c, s.(live := Some(NewBar(c, t))), s', next);
      } else if ShouldFlush(s.live.value, now) {
        FlushAccounts(c, s, io, blocks);
        NewAccounts(c, FlushOne(c, s, io), t, blocks);
        StoreAside(c, FlushOne(c, s, io).(live := Some(NewBar(c, t))), s', next);
      } else {
        UpdateAccounts(c, s, t, blocks);
        ConcatGrow(blocks, t);
        StoreAside(c, s.(live := Some(Update(s.live.value, t))), s', next);
      }
    case Sweep(now, io) =>
      if s.live.Some? {
        FlushAccounts(c, s, io, blocks);
      }
    case FlushAll(io) =>
      if s.live.Some? {
        FlushAccounts(c, s, io, blocks);
      }
    case Expire(_, _) =>
  }

  /** Without crashes and restores, for ticks in any order under any clock and with any failures:
      the bars, oldest first, summarise consecutive blocks of the tick sequence, and the blocks put
      together are the tick sequence. So every tick is counted in exactly one bar. */
  lemma {:induction false} TicksPartitioned(c: Cell, s: CellState, es: seq<Event>, blocks: seq<seq<Tick>>)
    requires Known(c.interval) && Accounts(c, s, blocks)
    requires NeverRestores(c, s, es) && forall e :: e in es ==> !e.Crash?
    ensures Accounts(c, Run(c, s, es), Blocks(c, s, es, blocks))
    ensures Concat(Blocks(c, s, es, blocks)) == Concat(blocks) + TicksOf(es)
    decreases es
  {
    hide Step, Accounts, Restores, NextBlocks;
    if es == [] {
      assert Concat(blocks) + TicksOf(es) == Concat(blocks);
    } else {
      var e, s', next := es[0], Step(c, s, es[0]), NextBlocks(s, es[0], blocks);
      StepAccounts(c, s, e, blocks);
      var fed := if e.Feed? then [e.tick] else [];
      TicksPartitioned(c, s', es[1..], next);
      assert TicksOf(es) == fed + TicksOf(es[1..]);
      assert Concat(blocks) + fed + TicksOf(es[1..]) == Concat(blocks) + TicksOf(es);
    }
  }
}
