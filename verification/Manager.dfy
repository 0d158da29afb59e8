/** The aggregator on the heap: candle objects owned by nested maps, sinks, the storage adapter and
    the manager that drives them. Every method is proved to perform a run of module `Aggregator`. */
module Manager {
  import opened Wrappers
  import opened Intervals
  import opened Bars
  import opened Cells
  import opened Keys
  import opened Aggregator
  import opened Guarantees
  import opened Runs

  class Candle {
    var symbol: string
    var interval: string
    var start: Time
    var end: Time
    var open: real
    var high: real
    var low: real
    var close: real
    var volume: real
    var complete: bool

    constructor (b: Bar)
      ensures Value() == b
    {
      symbol, interval, start, end := b.symbol, b.interval, b.start, b.end;
      open, high, low, close, volume := b.open, b.high, b.low, b.close, b.volume;
      complete := b.complete;
    }

    ghost function Value(): Bar
      reads this
    {
      Bar(symbol, interval, start, end, open, high, low, close, volume, complete)
    }
  }

  class CandleState {
    var candle: Candle
    var updatedAt: Time

    constructor (c: Candle, ts: Time)
      ensures candle == c && updatedAt == ts
    {
      candle, updatedAt := c, ts;
    }

    method Fold(ts: Time, price: real, volume: real)
      modifies this, candle
      ensures candle == old(candle) && updatedAt == ts
      ensures candle.Value() == Update(old(candle.Value()), Tick(ts, price, volume))
    {
      var c := candle;
      if price > c.high {
        c.high := price;
      }
      if price < c.low {
        c.low := price;
      }
      c.close := price;
      c.volume := c.volume + volume;
      updatedAt := ts;
    }

    predicate Expired(now: Time)
      reads this, candle
    {
      !(now < candle.end)
    }
  }

  /** newCandleState: a fresh object for the tick's window. */
  method NewCandleState(symbol: string, iv: string, ts: Time, price: real, volume: real)
      returns (st: CandleState)
    requires Known(iv)
    ensures fresh(st) && fresh(st.candle)
    ensures st.candle.Value() == NewBar(Cell(iv, symbol), Tick(ts, price, volume))
    ensures st.updatedAt == ts
  {
    var aligned := AlignToInterval(ts, iv);
    var start := aligned.value;
    var c := new Candle(Bar(symbol, iv, start, start + Dur(iv), price, price, price, price, volume, false));
    st := new CandleState(c, ts);
  }

  /** A sink takes note of every bar it is given and may refuse it. */
  class FlushSink {
    ghost var received: seq<Bar>

    method FlushCandle(c: Candle) returns (ok: bool)
      modifies this
      ensures received == old(received) + [c.Value()]
    {
      ok := *;
      received := received + [c.Value()];
    }
  }

  function Times<T>(x: T, n: nat): (r: seq<T>)
    ensures |r| == n
  {
    if n == 0 then [] else Times(x, n - 1) + [x]
  }

  lemma NoTimes<T>(x: T)
    ensures Times(x, 0) == []
  {
  }

  lemma TimesStep<T>(x: T, n: nat)
    ensures Times(x, n + 1) == Times(x, n) + [x]
  {
  }

  /** Where a loop over sinks stands: the first refusal among the answers so far, if there is one. */
  ghost predicate FirstFailure(firstErr: Option<nat>, answers: seq<bool>) {
    match firstErr
    case None => forall k :: 0 <= k < |answers| ==> answers[k]
    case Some(i) => i < |answers| && !answers[i] && forall k :: 0 <= k < i ==> answers[k]
  }

  lemma NoAnswers()
    ensures FirstFailure(None, [])
  {
  }

  lemma OneMoreAnswer(firstErr: Option<nat>, answers: seq<bool>, ok: bool)
    requires FirstFailure(firstErr, answers)
    ensures FirstFailure(if !ok && firstErr.None? then Some(|answers|) else firstErr, answers + [ok])
  {
  }

  lemma AllAnswers(firstErr: Option<nat>, answers: seq<bool>)
    requires FirstFailure(firstErr, answers)
    ensures firstErr.None? <==> Accepted(answers)
    ensures firstErr.Some? ==>
              && firstErr.value < |answers| && !answers[firstErr.value]
              && forall k :: 0 <= k < firstErr.value ==> answers[k]
  {
    assert forall k :: 0 <= k < |answers| ==> answers[k] in answers;
  }

  /** Hands a candle to all sinks; fails with the first sink that failed. A sink that is listed more
      than once gets the candle as often. */
  class MultiSink {
    const sinks: seq<FlushSink>
    ghost var handed: seq<Handed>
    ghost var objects: seq<Candle>

    constructor (sinks: seq<FlushSink>)
      ensures this.sinks == sinks && handed == [] && objects == []
    {
      this.sinks := sinks;
      handed, objects := [], [];
    }

    method FlushCandle(c: Candle) returns (firstErr: Option<nat>, ghost answers: seq<bool>)
      modifies this, sinks
      ensures handed == old(handed) + [Handed(c.Value(), answers)]
      ensures objects == old(objects) + [c]
      ensures |answers| == |sinks|
      ensures firstErr.None? <==> Accepted(answers)
      ensures firstErr.Some? ==>
                && firstErr.value < |answers| && !answers[firstErr.value]
                && forall i :: 0 <= i < firstErr.value ==> answers[i]
      ensures forall sink :: sink in sinks ==>
                sink.received == old(sink.received) + Times(c.Value(), multiset(sinks)[sink])
    {
      hide Times, Accepted, FirstFailure;
      firstErr, answers := None, [];
      ghost var bar := c.Value();
      NoAnswers();
      NoTimes(bar);
      for i := 0 to |sinks|
        invariant |answers| == i && c.Value() == bar
        invariant handed == old(handed) && objects == old(objects)
        invariant FirstFailure(firstErr, answers)
        invariant forall sink :: sink in sinks ==>
                    sink.received == old(sink.received) + Times(bar, multiset(sinks[..i])[sink])
      {
        assert sinks[..i + 1] == sinks[..i] + [sinks[i]];
        TimesStep(bar, multiset(sinks[..i])[sinks[i]]);
        var ok := sinks[i].FlushCandle(c);
        OneMoreAnswer(firstErr, answers, ok);
        if !ok && firstErr.None? {
          firstErr := Some(i);
        }
        answers := answers + [ok];
      }
      assert sinks[..|sinks|] == sinks;
      AllAnswers(firstErr, answers);
      handed := handed + [Handed(c.Value(), answers)];
      objects := objects + [c];
    }

    /** Everything handed over so far was handed over once, is complete, and still has the value it was
        handed with. */
    ghost predicate Intact()
      reads this, objects
    {
      && |objects| == |handed| && NoDuplicates(objects)
      && forall i :: 0 <= i < |objects| ==> objects[i].Value() == handed[i].bar && handed[i].bar.complete
    }
  }

  /** The key-value store behind its adapter. Each call may or may not take effect. */
  class Adapter {
    var data: map<string, Saved>

    constructor ()
      ensures data == map[]
    {
      data := map[];
    }

    method Save(c: Candle, now: Time) returns (applied: bool)
      modifies this
      ensures data == SaveIn(old(data), c.Value(), now, applied)
    {
      applied := *;
      var key := Key(Cell(c.interval, c.symbol), c.start);
      var pb := PbBar(c.symbol, c.open, c.high, c.low, c.close, c.volume, c.start, c.end);
      var dur := Duration(c.interval);
      if applied && dur.Success? {
        data := data[key := Saved(pb, now + 2 * dur.value)];
      }
    }

    method LoadAt(symbol: string, iv: string, ts: Time) returns (c: Candle?, loaded: bool)
      ensures !Known(iv) ==> c == null && !loaded
      ensures Known(iv) ==>
        var r := LoadFrom(data, Cell(iv, symbol), ts, loaded);
        && (c == null <==> r.None?)
        && (c != null ==> fresh(c) && c.Value() == r.value)
    {
      loaded := *;
      var aligned := AlignToInterval(ts, iv);
      if aligned.Failure? {
        return null, false;
      }
      var key := Key(Cell(iv, symbol), aligned.value);
      if loaded && key in data {
        c := new Candle(FromProto(iv, data[key].pb));
      } else {
        c := null;
      }
    }

    method DeleteAt(symbol: string, iv: string, ts: Time) returns (applied: bool)
      modifies this
      ensures !Known(iv) ==> !applied && data == old(data)
      ensures Known(iv) ==> data == DeleteFrom(old(data), Cell(iv, symbol), ts, applied)
    {
      applied := *;
      var aligned := AlignToInterval(ts, iv);
      if aligned.Failure? {
        return false;
      }
      if applied {
        data := data - {Key(Cell(iv, symbol), aligned.value)};
      }
    }

    /** The store itself drops a key whose time to live is over. */
    method Expire(key: string, now: Time)
      modifies this
      ensures data == if key in old(data) && old(data)[key].deadline <= now then old(data) - {key} else old(data)
    {
      if key in data && data[key].deadline <= now {
        data := data - {key};
      }
    }
  }

  type Buckets = map<string, map<string, CandleState>>

  predicate HasIn(b: Buckets, c: Cell) {
    c.interval in b && c.symbol in b[c.interval]
  }

  function StateIn(b: Buckets, c: Cell): CandleState
    requires HasIn(b, c)
  {
    b[c.interval][c.symbol]
  }

  /** Who owns what: each state and each candle object belongs to one cell. */
  datatype Owner = Owner(states: map<CandleState, Cell>, candles: map<Candle, Cell>) {
    ghost predicate Owns(c: Cell, st: CandleState)
      reads st
    {
      && st in states && states[st] == c
      && st.candle in candles && candles[st.candle] == c
    }

    /** Is the object free, or c's already. */
    ghost predicate FreeFor(c: Cell, st: CandleState)
      reads st
    {
      && (st in states ==> states[st] == c)
      && (st.candle in candles ==> candles[st.candle] == c)
    }

    ghost function Without(st: CandleState): Owner
      reads st
    {
      Owner(states - {st}, candles - {st.candle})
    }

    ghost function With(c: Cell, st: CandleState): Owner
      reads st
    {
      Owner(states[st := c], candles[st.candle := c])
    }
  }

  /** Cell c's state and candle belong to it alone, and the candle holds the live bar. */
  ghost predicate OwnedAt(b: Buckets, owner: Owner, live: map<Cell, Bar>, c: Cell)
    requires HasIn(b, c)
    reads owner.states.Keys, owner.candles.Keys
  {
    var st := StateIn(b, c);
    && st in owner.states && owner.Owns(c, st)
    && c in live && st.candle.Value() == live[c]
  }

  /** The buckets hold the live cells; all but the cell in hand own their objects. */
  ghost predicate OwnedBut(b: Buckets, owner: Owner, live: map<Cell, Bar>, hand: Option<Cell>)
    reads owner.states.Keys, owner.candles.Keys
  {
    && (forall c: Cell :: HasIn(b, c) <==> c in live)
    && (forall c: Cell :: HasIn(b, c) && hand != Some(c) ==> OwnedAt(b, owner, live, c))
  }

  function Drop(b: Buckets, c: Cell): Buckets
    requires c.interval in b
  {
    b[c.interval := b[c.interval] - {c.symbol}]
  }

  function Put(b: Buckets, c: Cell, st: CandleState): Buckets
    requires c.interval in b
  {
    b[c.interval := b[c.interval][c.symbol := st]]
  }

  lemma DropAt(b: Buckets, c: Cell, c': Cell)
    requires c.interval in b
    ensures HasIn(Drop(b, c), c') <==> HasIn(b, c') && c' != c
    ensures HasIn(Drop(b, c), c') ==> StateIn(Drop(b, c), c') == StateIn(b, c')
  {
    assert c' == c <==> c'.interval == c.interval && c'.symbol == c.symbol;
  }

  lemma DropKeys(b: Buckets, c: Cell)
    requires c.interval in b
    ensures Drop(b, c).Keys == b.Keys
  {
  }

  lemma PutAt(b: Buckets, c: Cell, st: CandleState, c': Cell)
    requires c.interval in b
    ensures HasIn(Put(b, c, st), c') <==> HasIn(b, c') || c' == c
    ensures HasIn(Put(b, c, st), c') ==>
              StateIn(Put(b, c, st), c') == if c' == c then st else StateIn(b, c')
  {
    assert c' == c <==> c'.interval == c.interval && c'.symbol == c.symbol;
  }

  /** The log is what the sinks were given: each object was given once, still has the value it was handed with, and
      is not an object of the manager any more. */
  ghost predicate ReleasedIn(objects: seq<Candle>, handed: seq<Handed>, owner: Owner)
    reads objects
  {
    && |objects| == |handed| && NoDuplicates(objects)
    && forall i :: 0 <= i < |objects| ==>
         objects[i] !in owner.candles && objects[i].Value() == handed[i].bar
  }

  lemma ReleaseOne(objects: seq<Candle>, handed: seq<Handed>, owner: Owner, st: CandleState, h: Handed)
    requires ReleasedIn(objects, handed, owner) && st.candle.Value() == h.bar && st.candle !in objects
    ensures ReleasedIn(objects + [st.candle], handed + [h], owner.Without(st))
  {
  }

  /** Taking the cell in hand out of the buckets. */
  lemma OwnedDrop(b: Buckets, owner: Owner, live: map<Cell, Bar>, c: Cell, st: CandleState)
    requires OwnedBut(b, owner, live, Some(c)) && c.interval in b
    requires owner.FreeFor(c, st)
    ensures OwnedBut(Drop(b, c), owner.Without(st), live - {c}, None)
  {
    forall c': Cell
      ensures HasIn(Drop(b, c), c') <==> c' in live - {c}
      ensures HasIn(Drop(b, c), c') ==> OwnedAt(Drop(b, c), owner.Without(st), live - {c}, c')
    {
      DropAt(b, c, c');
    }
  }

  /** Putting a state with its candle into the cell in hand. */
  lemma OwnedPut(b: Buckets, owner: Owner, live: map<Cell, Bar>, c: Cell, st: CandleState, bar: Bar)
    requires OwnedBut(b, owner, live, Some(c)) && c.interval in b
    requires owner.FreeFor(c, st) && st.candle.Value() == bar
    ensures OwnedBut(Put(b, c, st), owner.With(c, st), live[c := bar], None)
  {
    forall c': Cell
      ensures HasIn(Put(b, c, st), c') <==> c' in live[c := bar]
      ensures HasIn(Put(b, c, st), c') ==> OwnedAt(Put(b, c, st), owner.With(c, st), live[c := bar], c')
    {
      PutAt(b, c, st, c');
    }
  }

  lemma ReleasedPut(objects: seq<Candle>, handed: seq<Handed>, owner: Owner, c: Cell, st: CandleState)
    requires ReleasedIn(objects, handed, owner) && st.candle !in objects
    ensures ReleasedIn(objects, handed, owner.With(c, st))
  {
  }

  lemma PutKeys(b: Buckets, c: Cell, st: CandleState)
    requires c.interval in b
    ensures Put(b, c, st).Keys == b.Keys
  {
  }

  /** Giving up the objects of the cell in hand. */
  lemma OwnedForget(b: Buckets, owner: Owner, live: map<Cell, Bar>, c: Cell, st: CandleState)
    requires OwnedBut(b, owner, live, Some(c)) && owner.FreeFor(c, st)
    ensures OwnedBut(b, owner.Without(st), live, Some(c))
  {
  }

  /** The state in hand now holds the bar. */
  lemma OwnedRefresh(b: Buckets, owner: Owner, live: map<Cell, Bar>, c: Cell, bar: Bar)
    requires OwnedBut(b, owner, live, Some(c)) && HasIn(b, c)
    requires StateIn(b, c) in owner.states && owner.Owns(c, StateIn(b, c))
    requires StateIn(b, c).candle.Value() == bar
    ensures OwnedBut(b, owner, live[c := bar], None)
  {
  }

  /** One more turn of Process is one more event of the run. */
  lemma FeedAllSnoc(s: SysState, ivs: seq<string>, i: nat, symbol: string, t: Tick, turns: seq<Turn>,
                    turn: Turn)
    requires i < |ivs| && |turns| == i && KnownIntervals(ivs)
    ensures KnownIntervals(ivs[..i]) && KnownIntervals(ivs[..i + 1])
    ensures SysRun(s, FeedAll(ivs[..i + 1], symbol, t, turns + [turn]))
         == FeedCell(SysRun(s, FeedAll(ivs[..i], symbol, t, turns)), Cell(ivs[i], symbol), t, turn.now, turn.io)
  {
    hide FeedCell;
    var ev := At(Cell(ivs[i], symbol), Feed(t, turn.now, turn.io));
    assert ivs[..i + 1][..i] == ivs[..i] && (turns + [turn])[..i] == turns;
    SysRunAppend(s, FeedAll(ivs[..i], symbol, t, turns), [ev]);
    SysRunOne(SysRun(s, FeedAll(ivs[..i], symbol, t, turns)), ev);
  }

  lemma SysRunOne(s: SysState, ev: SysEvent)
    requires ValidEvent(ev)
    ensures SysRun(s, [ev]) == SysStep(s, ev)
  {
    assert [ev][1..] == [];
  }

  /** Only bucket iv changed, and it only lost entries. */
  ghost predicate OnlyBucket(b: Buckets, b': Buckets, iv: string) {
    && b'.Keys == b.Keys && iv in b
    && (forall iv' :: iv' in b && iv' != iv ==> b'[iv'] == b[iv'])
    && (forall sym :: sym in b'[iv] ==> sym in b[iv] && b'[iv][sym] == b[iv][sym])
  }

  lemma OneBucket(b0: Buckets, b: Buckets, b': Buckets, c: Cell)
    requires OnlyBucket(b0, b, c.interval) && (b' == b || b' == Drop(b, c))
    ensures OnlyBucket(b0, b', c.interval) && b[c.interval].Keys - {c.symbol} <= b'[c.interval].Keys
  {
  }

  /** Buckets only lost entries. */
  ghost predicate Shrunk(b: Buckets, b': Buckets) {
    && b'.Keys == b.Keys
    && forall iv :: iv in b ==> forall sym :: sym in b'[iv] ==> sym in b[iv] && b'[iv][sym] == b[iv][sym]
  }

  lemma ShrunkMore(b0: Buckets, b: Buckets, b': Buckets, iv: string)
    requires Shrunk(b0, b) && OnlyBucket(b, b', iv)
    ensures Shrunk(b0, b')
  {
    forall iv' | iv' in b0
      ensures forall sym :: sym in b'[iv'] ==> sym in b0[iv'] && b'[iv'][sym] == b0[iv'][sym]
    {
    }
  }

  /** Where the pass over one bucket stands: visits went once to every entry but the remaining ones,
      and nothing but this bucket changed. */
  ghost predicate BucketPass(b0: Buckets, b: Buckets, visits: seq<Visit>, remaining: set<string>, iv: string) {
    && (forall v :: v in visits ==> Known(v.cell.interval))
    && NoRepeat(visits)
    && (forall c: Cell :: c in VisitedCells(visits) <==>
          c.interval == iv && HasIn(b0, c) && c.symbol !in remaining)
    && OnlyBucket(b0, b, iv) && remaining <= b[iv].Keys
  }

  lemma BucketStart(b: Buckets, iv: string, hs: seq<Handed>)
    requires iv in b
    ensures BucketPass(b, b, [], b[iv].Keys, iv) && AcceptedSince(hs, |hs|)
  {
  }

  lemma BucketEntry(b0: Buckets, b: Buckets, visits: seq<Visit>, remaining: set<string>, c: Cell)
    requires BucketPass(b0, b, visits, remaining, c.interval) && c.symbol in remaining
    ensures HasIn(b, c) && forall v :: v in visits ==> Known(v.cell.interval)
  {
  }

  lemma BucketNext(b0: Buckets, b: Buckets, b': Buckets, visits: seq<Visit>, v: Visit, remaining: set<string>)
    requires BucketPass(b0, b, visits, remaining, v.cell.interval) && v.cell.symbol in remaining
    requires Known(v.cell.interval) && (b' == b || b' == Drop(b, v.cell))
    ensures BucketPass(b0, b', visits + [v], remaining - {v.cell.symbol}, v.cell.interval)
    ensures forall u :: u in visits + [v] ==> Known(u.cell.interval)
  {
    hide Known, Drop;
    OneBucket(b0, b, b', v.cell);
    assert HasIn(b0, v.cell);
    VisitedSnoc(visits, v);
    assert forall u :: u in visits + [v] ==> u in visits || u == v;
    hide NoRepeat, VisitedCells, OnlyBucket;
  }

  lemma BucketDone(b0: Buckets, b: Buckets, visits: seq<Visit>, iv: string)
    requires BucketPass(b0, b, visits, {}, iv)
    ensures (forall v :: v in visits ==> Known(v.cell.interval)) && NoRepeat(visits) && OnlyBucket(b0, b, iv)
    ensures forall c: Cell :: c in VisitedCells(visits) <==> c.interval == iv && HasIn(b0, c)
  {
  }

  /** Where a pass stands: visits went once to every entry of the buckets it is done with, those
      buckets only lost entries, and the remaining ones are as they were. */
  ghost predicate PassOver(b0: Buckets, b: Buckets, visits: seq<Visit>, remaining: set<string>) {
    && (forall v :: v in visits ==> Known(v.cell.interval))
    && NoRepeat(visits)
    && (forall c: Cell :: c in VisitedCells(visits) <==> HasIn(b0, c) && c.interval !in remaining)
    && Shrunk(b0, b) && remaining <= b.Keys
    && (forall iv :: iv in remaining ==> b[iv] == b0[iv])
  }

  lemma PassStart(b: Buckets, hs: seq<Handed>)
    ensures PassOver(b, b, [], b.Keys) && AcceptedSince(hs, |hs|)
  {
  }

  lemma PassNext(b0: Buckets, b: Buckets, visits: seq<Visit>, remaining: set<string>, iv: string)
    requires PassOver(b0, b, visits, remaining) && iv in remaining
    ensures iv in b
  {
  }

  /** The pass is done with one more bucket. */
  lemma PassBucket(b0: Buckets, b: Buckets, b': Buckets, visits: seq<Visit>, more: seq<Visit>,
                   remaining: set<string>, iv: string)
    requires PassOver(b0, b, visits, remaining) && iv in remaining
    requires (forall v :: v in more ==> Known(v.cell.interval)) && NoRepeat(more)
    requires forall c: Cell :: c in VisitedCells(more) <==> c.interval == iv && HasIn(b, c)
    requires OnlyBucket(b, b', iv)
    ensures PassOver(b0, b', visits + more, remaining - {iv})
    ensures forall v :: v in visits + more ==> Known(v.cell.interval)
  {
    hide Known;
    VisitedAppend(visits, more);
    ShrunkMore(b0, b, b', iv);
    assert forall v :: v in visits + more ==> v in visits || v in more;
    hide NoRepeat, VisitedCells, Shrunk;
    assert b[iv] == b0[iv];
  }

  lemma PassDone(b0: Buckets, b: Buckets, visits: seq<Visit>, s: SysState)
    requires PassOver(b0, b, visits, {}) && forall c: Cell :: HasIn(b0, c) <==> c in s.live
    ensures Covers(visits, s) && Shrunk(b0, b)
    ensures forall v :: v in visits ==> Known(v.cell.interval)
  {
  }

  lemma VisitedAppend(visits: seq<Visit>, more: seq<Visit>)
    requires NoRepeat(visits) && NoRepeat(more) && VisitedCells(visits) !! VisitedCells(more)
    ensures NoRepeat(visits + more)
    ensures VisitedCells(visits + more) == VisitedCells(visits) + VisitedCells(more)
  {
    forall i, j | 0 <= i < |visits| && 0 <= j < |more|
      ensures visits[i].cell != more[j].cell
    {
      assert visits[i] in visits && more[j] in more;
      assert visits[i].cell in VisitedCells(visits) && more[j].cell in VisitedCells(more);
    }
    assert forall u :: u in visits + more <==> u in visits || u in more;
  }

  lemma VisitedSnoc(visits: seq<Visit>, v: Visit)
    requires NoRepeat(visits) && v.cell !in VisitedCells(visits)
    ensures NoRepeat(visits + [v]) && VisitedCells(visits + [v]) == VisitedCells(visits) + {v.cell}
  {
    forall i | 0 <= i < |visits|
      ensures visits[i].cell != v.cell
    {
      assert visits[i] in visits;
    }
    assert v in visits + [v];
    assert forall u :: u in visits ==> u in visits + [v];
  }

  lemma MoreAccepted(hs: seq<Handed>, hs': seq<Handed>, n: nat)
    requires hs <= hs' && n <= |hs|
    ensures AcceptedSince(hs', n) <==> AcceptedSince(hs, n) && AcceptedSince(hs', |hs|)
  {
    hide Accepted;
    forall i | 0 <= i < |hs|
      ensures hs'[i] == hs[i]
    {
    }
  }

  lemma NoFeeds(s: SysState, symbol: string, t: Tick)
    ensures SysRun(s, FeedAll([], symbol, t, [])) == s
  {
  }

  lemma NoVisits(s: SysState, when: Option<Time>)
    ensures SysRun(s, VisitAll(when, [])) == s
  {
  }

  class Manager {
    var buckets: Buckets
    const intervals: seq<string>
    const sink: MultiSink
    const storage: Adapter
    ghost var model: SysState
    ghost var owner: Owner

    predicate Has(c: Cell)
      reads this
    {
      HasIn(buckets, c)
    }

    function StateAt(c: Cell): CandleState
      requires Has(c)
      reads this
    {
      StateIn(buckets, c)
    }

    /** The manager's own objects: each state and each candle belongs to one cell. */
    ghost function Repr(): set<object>
      reads this
    {
      owner.states.Keys + owner.candles.Keys
    }

    /** Memory holds the model's live bars, each in a state and a candle object of its own. */
    ghost predicate Owned()
      reads this, Repr()
    {
      OwnedBut(buckets, owner, model.live, None)
    }

    ghost predicate Released()
      reads this, sink, sink.objects
    {
      ReleasedIn(sink.objects, sink.handed, owner) && model.handed == sink.handed
    }

    /** The objects are in the state the model says. */
    ghost predicate Agrees()
      reads this, Repr(), sink, sink.objects, storage
    {
      Owned() && Released() && model.store == storage.data && Settled()
    }

    ghost predicate Valid()
      reads this, Repr(), sink, sink.objects, storage
    {
      Agrees() && Marked(model)
    }

    /** What never changes. */
    ghost predicate Settled()
      reads `buckets
    {
      && KnownIntervals(intervals)
      && (forall iv :: iv in intervals <==> iv in buckets)
    }

    constructor (intervals: seq<string>, sink: MultiSink, store: Adapter)
      requires KnownIntervals(intervals) && sink.Intact()
      ensures Valid() && fresh(Repr())
      ensures this.intervals == intervals && this.sink == sink && this.storage == store
      ensures model == SysState(map[], store.data, sink.handed)
    {
      this.intervals, this.sink, this.storage := intervals, sink, store;
      buckets := map iv | iv in intervals :: map[];
      model := SysState(map[], store.data, sink.handed);
      owner := Owner(map[], map[]);
    }

    method MarkComplete(c: Cell, st: CandleState)
      requires Owned() && Has(c) && st == StateAt(c)
      modifies st.candle
      ensures st.candle.Value() == old(st.candle.Value()).(complete := true)
      ensures OwnedBut(buckets, owner, model.live, Some(c))
    {
      assert OwnedAt(buckets, owner, model.live, c);
      st.candle.complete := true;
      forall c': Cell | HasIn(buckets, c') && c' != c
        ensures OwnedAt(buckets, owner, model.live, c')
      {
        assert old(OwnedAt(buckets, owner, model.live, c'));
      }
    }

    /** flushOne: marks the candle complete, hands it over, and on success drops its stored copy.
        The caller removes or replaces the bucket entry. */
    method FlushOne(c: Cell, st: CandleState) returns (firstErr: Option<nat>, ghost io: IO)
      requires Known(c.interval)
      requires Owned() && Has(c) && st == StateAt(c)
      modifies st.candle, sink, sink.sinks, storage
      ensures st.candle.Value() == old(st.candle.Value()).(complete := true)
      ensures sink.handed == old(sink.handed) + [Handed(st.candle.Value(), io.answers)]
      ensures sink.objects == old(sink.objects) + [st.candle]
      ensures storage.data == DeleteFrom(old(storage.data), c, st.candle.start,
                                         Accepted(io.answers) && io.delOk)
      ensures firstErr.None? <==> Accepted(io.answers)
      ensures OwnedBut(buckets, owner, model.live, Some(c))
    {
      hide Accepted, Key, Known, DeleteFrom, Align;
      MarkComplete(c, st);
      firstErr, io := Deliver(c, st.candle);
    }

    /** Hands a candle over and, if every sink accepted it, drops its stored copy. */
    method Deliver(c: Cell, candle: Candle) returns (firstErr: Option<nat>, ghost io: IO)
      requires Known(c.interval)
      modifies sink, sink.sinks, storage
      ensures sink.handed == old(sink.handed) + [Handed(candle.Value(), io.answers)]
      ensures sink.objects == old(sink.objects) + [candle]
      ensures storage.data == DeleteFrom(old(storage.data), c, candle.start, Accepted(io.answers) && io.delOk)
      ensures firstErr.None? <==> Accepted(io.answers)
    {
      hide Accepted, Key, Known;
      ghost var answers;
      firstErr, answers := sink.FlushCandle(candle);
      io := IO(true, true, false, answers);
      if firstErr.Some? {
        return;
      }
      var applied := storage.DeleteAt(c.symbol, c.interval, candle.start);
      io := IO(true, true, applied, answers);
    }

    /** Between flushOne and the change of the bucket: cell c's candle is already in the log. */
    ghost predicate InHand(c: Cell)
      reads this, Repr(), sink, sink.objects, storage
    {
      && Has(c) && StateAt(c) in owner.states && owner.Owns(c, StateAt(c))
      && OwnedBut(buckets, owner, model.live, Some(c))
      && ReleasedIn(sink.objects, sink.handed, owner.Without(StateAt(c)))
      && model.handed == sink.handed && model.store == storage.data
      && Settled()
    }

    method HandOver(c: Cell) returns (firstErr: Option<nat>, ghost io: IO)
      requires Agrees() && Has(c)
      modifies this`model, StateAt(c).candle, sink, sink.sinks, storage
      ensures InHand(c)
      ensures c in old(model).live && Known(c.interval)
      ensures model == FlushCell(old(model), c, io).(live := old(model).live)
      ensures firstErr.None? <==> Accepted(io.answers)
      ensures sink.objects == old(sink.objects) + [StateAt(c).candle] && old(sink.handed) <= sink.handed
    {
      hide DeleteFrom, Accepted, Key, Known, ReleasedIn, Settled, OwnedBut, OwnedAt;
      var st := StateAt(c);
      EntryFacts(c);
      ghost var bar := model.live[c].(complete := true);
      firstErr, io := FlushOne(c, st);
      ReleaseOne(old(sink.objects), old(sink.handed), owner, st, Handed(bar, io.answers));
      model := FlushCell(model, c, io).(live := model.live);
    }

    /** One entry of a sweep or of FlushAll: flushed and deleted, whatever the sinks answer. Every
        other entry keeps its objects, untouched. */
    method FlushEntry(c: Cell) returns (firstErr: Option<nat>, ghost io: IO)
      requires Valid() && Has(c)
      modifies this, StateAt(c).candle, sink, sink.sinks, storage
      ensures Valid() && Repr() <= old(Repr())
      ensures model == FlushCell(old(model), c, io)
      ensures firstErr.None? <==> Accepted(io.answers)
      ensures buckets == Drop(old(buckets), c)
      ensures sink.objects == old(sink.objects) + [old(StateAt(c).candle)] && old(sink.handed) <= sink.handed
    {
      hide Marked, DeleteFrom, Accepted, KnownIntervals, Key, Known, OwnedBut, OwnedAt, ReleasedIn, Drop;
      firstErr, io := HandOver(c);
      FlushFacts(old(model), c, io);
      var st := StateAt(c);
      OwnedDrop(buckets, owner, model.live, c, st);
      DropKeys(buckets, c);
      buckets := Drop(buckets, c);
      owner := owner.Without(st);
      model := model.(live := model.live - {c});
    }

    /** All is as the model says, except that cell c's bucket entry is about to be set to st. */
    ghost predicate Awaits(c: Cell, st: CandleState)
      reads this, Repr(), sink, sink.objects, storage, st
    {
      Vacant(c) && owner.FreeFor(c, st) && st.candle !in sink.objects
    }

    ghost predicate Vacant(c: Cell)
      reads this, Repr(), sink, sink.objects, storage
    {
      && c.interval in buckets && OwnedBut(buckets, owner, model.live, Some(c))
      && ReleasedIn(sink.objects, sink.handed, owner) && model.handed == sink.handed
      && model.store == storage.data && Settled()
    }

    /** bucket[symbol] = state */
    method Install(c: Cell, st: CandleState)
      requires Awaits(c, st)
      modifies this
      ensures Agrees() && Has(c) && StateAt(c) == st
      ensures model == old(model).(live := old(model).live[c := st.candle.Value()])
      ensures buckets == Put(old(buckets), c, st)
      ensures owner == old(owner).With(c, st)
    {
      hide Marked, KnownIntervals;
      OwnedPut(buckets, owner, model.live, c, st, st.candle.Value());
      ReleasedPut(sink.objects, sink.handed, owner, c, st);
      PutKeys(buckets, c, st);
      PutAt(buckets, c, st, c);
      hide Put, ReleasedIn, OwnedBut, OwnedAt;
      buckets := Put(buckets, c, st);
      owner := owner.With(c, st);
      model := model.(live := model.live[c := st.candle.Value()]);
    }

    method SaveEntry(c: Cell, now: Time) returns (applied: bool)
      requires Agrees() && Has(c)
      modifies this`model, storage
      ensures Agrees() && c in model.live
      ensures model == SaveBar(old(model), model.live[c], now, applied)
    {
      hide KnownIntervals, ReleasedIn, SaveIn;
      assert OwnedAt(buckets, owner, model.live, c);
      applied := storage.Save(StateAt(c).candle, now);
      hide OwnedBut, OwnedAt;
      model := SaveBar(model, model.live[c], now, applied);
    }

    /** The stored bar of the tick's window, or a new one, in objects of its own. */
    method FreshState(c: Cell, t: Tick) returns (st: CandleState, loaded: bool)
      requires Known(c.interval)
      ensures fresh(st) && fresh(st.candle)
      ensures var r := LoadFrom(storage.data, c, t.ts, loaded);
        st.candle.Value() == if r.Some? then r.value else NewBar(c, t)
    {
      hide LoadFrom, NewBar;
      assert c == Cell(c.interval, c.symbol) && t == Tick(t.ts, t.price, t.volume);
      var existing;
      existing, loaded := storage.LoadAt(c.symbol, c.interval, t.ts);
      if existing != null {
        st := new CandleState(existing, t.ts);
      } else {
        st := NewCandleState(c.symbol, c.interval, t.ts, t.price, t.volume);
      }
    }

    /** The create branch: adopt the stored bar of the tick's window, else open a new one. The tick
        is not folded into an adopted bar. */
    method CreateEntry(c: Cell, t: Tick, now: Time) returns (ghost io: IO)
      requires Valid() && c.interval in buckets && !Has(c)
      modifies this, storage
      ensures Valid() && fresh(Repr() - old(Repr()))
      ensures model == FeedCell(old(model), c, t, now, io)
      ensures buckets.Keys == old(buckets).Keys
    {
      hide Marked, KnownIntervals, Known, LoadFrom, SaveIn, NewBar, OwnedAt, ReleasedIn;
      IntervalKnown(c.interval);
      assert OwnedBut(buckets, owner, model.live, Some(c)) && c !in model.live;
      hide OwnedBut;
      var st, loaded := FreshState(c, t);
      assert st !in old(owner).states.Keys && st.candle !in old(owner).candles.Keys;
      Install(c, st);
      PutKeys(old(buckets), c, st);
      hide Put, Agrees;
      var saved := SaveEntry(c, now);
      io := IO(loaded, saved, true, []);
      FeedFacts(old(model), c, t, now, io);
    }

    /** The expired bar of the replace branch is handed over; its objects are given up. */
    method Vacate(c: Cell) returns (ghost io: IO)
      requires Agrees() && Has(c)
      modifies this, StateAt(c).candle, sink, sink.sinks, storage
      ensures Vacant(c) && Known(c.interval) && c in old(model).live
      ensures owner.states.Keys <= old(owner).states.Keys && owner.candles.Keys <= old(owner).candles.Keys
      ensures buckets == old(buckets)
      ensures model == FlushCell(old(model), c, io).(live := old(model).live)
      ensures sink.objects == old(sink.objects) + [old(StateAt(c).candle)] && old(sink.handed) <= sink.handed
    {
      hide Marked, KnownIntervals, Known, OwnedAt, OwnedBut, ReleasedIn, FlushCell;
      var firstErr, handing := HandOver(c);
      OwnedForget(buckets, owner, model.live, c, StateAt(c));
      owner := owner.Without(StateAt(c));
      io := handing;
    }

    /** A new bar in objects of its own takes the free place of the cell, and is saved. */
    method OpenBar(c: Cell, t: Tick, now: Time) returns (saved: bool)
      requires Vacant(c) && Known(c.interval)
      modifies this, storage
      ensures Agrees() && fresh(Repr() - old(Repr())) && buckets.Keys == old(buckets).Keys
      ensures model == SaveBar(old(model).(live := old(model).live[c := NewBar(c, t)]), NewBar(c, t), now, saved)
    {
      hide Marked, KnownIntervals, Known, SaveIn, NewBar, OwnedAt, OwnedBut, ReleasedIn, Put, Agrees;
      assert c == Cell(c.interval, c.symbol) && t == Tick(t.ts, t.price, t.volume);
      var st := NewCandleState(c.symbol, c.interval, t.ts, t.price, t.volume);
      assert st !in old(owner).states.Keys && st.candle !in old(owner).candles.Keys;
      Install(c, st);
      PutKeys(old(buckets), c, st);
      saved := SaveEntry(c, now);
    }

    /** The replace branch: the expired bar is handed over and a new one takes its place - whatever
        the sinks answered, and without asking the store. */
    method ReplaceEntry(c: Cell, t: Tick, now: Time) returns (ghost io: IO)
      requires Valid() && Has(c) && StateAt(c).Expired(now)
      modifies this, StateAt(c).candle, sink, sink.sinks, storage
      ensures Valid() && fresh(Repr() - old(Repr()))
      ensures model == FeedCell(old(model), c, t, now, io)
      ensures buckets.Keys == old(buckets).Keys
      ensures sink.objects == old(sink.objects) + [old(StateAt(c).candle)] && old(sink.handed) <= sink.handed
    {
      hide Marked, KnownIntervals, Known, SaveIn, NewBar, OwnedAt, OwnedBut, ReleasedIn, FlushCell, FeedCell;
      ExpiredBar(c, now);
      var handing := Vacate(c);
      var saved := OpenBar(c, t, now);
      io := handing.(saveOk := saved);
      ReplaceIs(old(model), c, t, now, handing, saved);
      FeedFacts(old(model), c, t, now, io);
    }

    /** state.update writes to the objects of one cell, and no other cell notices. */
    method FoldState(c: Cell, t: Tick)
      requires OwnedBut(buckets, owner, model.live, None) && Has(c)
      requires StateAt(c) in owner.states && owner.Owns(c, StateAt(c))
      modifies StateAt(c), StateAt(c).candle
      ensures OwnedBut(buckets, owner, model.live, Some(c)) && owner.Owns(c, StateAt(c))
      ensures StateAt(c).candle == old(StateAt(c).candle)
      ensures StateAt(c).candle.Value() == Update(old(StateAt(c).candle.Value()), t)
    {
      hide Update;
      assert t == Tick(t.ts, t.price, t.volume);
      StateAt(c).Fold(t.ts, t.price, t.volume);
      forall c': Cell | HasIn(buckets, c') && c' != c
        ensures OwnedAt(buckets, owner, model.live, c')
      {
        assert old(OwnedAt(buckets, owner, model.live, c'));
      }
    }

    /** state.update on a live bar. */
    method FoldEntry(c: Cell, t: Tick)
      requires Agrees() && Has(c)
      modifies this`model, StateAt(c), StateAt(c).candle
      ensures Agrees() && c in old(model).live && Known(c.interval)
      ensures model == old(model).(live := old(model).live[c := Update(old(model).live[c], t)])
    {
      hide KnownIntervals, ReleasedIn, Update, Settled, OwnedBut, OwnedAt;
      EntryFacts(c);
      FoldState(c, t);
      OwnedRefresh(buckets, owner, model.live, c, StateAt(c).candle.Value());
      model := model.(live := model.live[c := StateAt(c).candle.Value()]);
    }

    /** The update branch. */
    method UpdateEntry(c: Cell, t: Tick, now: Time) returns (ghost io: IO)
      requires Valid() && Has(c) && !StateAt(c).Expired(now)
      modifies this`model, StateAt(c), StateAt(c).candle, storage
      ensures Valid()
      ensures model == FeedCell(old(model), c, t, now, io)
    {
      hide Marked, KnownIntervals, Known, SaveIn, Update, OwnedAt, OwnedBut, ReleasedIn;
      ExpiredBar(c, now);
      FoldEntry(c, t);
      hide Agrees;
      var saved := SaveEntry(c, now);
      io := IO(true, saved, true, []);
      FeedFacts(old(model), c, t, now, io);
    }

    /** One interval's turn in Process. */
    method TakeTurn(c: Cell, t: Tick) returns (ghost turn: Turn)
      requires Valid() && c.interval in buckets
      modifies this, Repr(), sink, sink.sinks, storage
      ensures Valid() && fresh(Repr() - old(Repr()))
      ensures model == FeedCell(old(model), c, t, turn.now, turn.io)
      ensures buckets.Keys == old(buckets).Keys
      ensures old(sink.objects) <= sink.objects && old(sink.handed) <= sink.handed
    {
      hide Marked, OwnedBut, OwnedAt, ReleasedIn, FeedCell;
      var now: Time := *; // m.now()
      ghost var io;
      if !Has(c) {
        io := CreateEntry(c, t, now);
      } else {
        EntryFacts(c);
        if StateAt(c).Expired(now) {
          io := ReplaceEntry(c, t, now);
        } else {
          io := UpdateEntry(c, t, now);
        }
      }
      turn := Turn(now, io);
    }

    /** Process: every configured interval takes its turn with the tick. */
    method Process(symbol: string, price: real, volume: real, ts: Time) returns (ghost turns: seq<Turn>)
      requires Valid()
      modifies this, Repr(), sink, sink.sinks, storage
      ensures Valid() && fresh(Repr() - old(Repr()))
      ensures |turns| == |intervals| && KnownIntervals(intervals)
      ensures model == SysRun(old(model), Expand(intervals, Op.Process(symbol, Tick(ts, price, volume), turns)))
      ensures old(sink.objects) <= sink.objects && old(sink.handed) <= sink.handed
    {
      hide Valid, SysRun, Known, FeedAll, FeedCell;
      turns := [];
      ghost var t := Tick(ts, price, volume);
      ConfiguredIfValid();
      assert intervals[..0] == [] && SysRun(model, FeedAll([], symbol, t, [])) == model by {
        NoFeeds(model, symbol, t);
      }
      for i := 0 to |intervals|
        invariant Valid() && fresh(Repr() - old(Repr())) && buckets.Keys == old(buckets).Keys
        invariant |turns| == i && KnownIntervals(intervals[..i])
        invariant model == SysRun(old(model), FeedAll(intervals[..i], symbol, t, turns))
        invariant old(sink.objects) <= sink.objects && old(sink.handed) <= sink.handed
      {
        assert intervals[i] in intervals;
        ghost var turn := TakeTurn(Cell(intervals[i], symbol), Tick(ts, price, volume));
        FeedAllSnoc(old(model), intervals, i, symbol, t, turns, turn);
        turns := turns + [turn];
      }
      assert intervals[..|intervals|] == intervals;
    }

    /** One entry of a pass: a sweep (with a clock reading) leaves a bar that has not ended alone. */
    method VisitEntry(c: Cell, when: Option<Time>) returns (firstErr: Option<nat>, ghost io: IO)
      requires Valid() && Has(c)
      modifies this, owner.candles.Keys, sink, sink.sinks, storage
      ensures Valid() && Repr() <= old(Repr()) && owner.candles.Keys <= old(owner).candles.Keys
      ensures Known(c.interval) && model == SysStep(old(model), At(c, VisitEvent(when, io)))
      ensures buckets == if c in model.live then old(buckets) else Drop(old(buckets), c)
      ensures c in model.live <==> when.Some? && !old(StateAt(c).Expired(when.value))
      ensures old(model).handed <= model.handed && old(sink.objects) <= sink.objects
      ensures firstErr.None? <==> AcceptedSince(model.handed, |old(model).handed|)
    {
      hide Marked, OwnedBut, OwnedAt, ReleasedIn, FlushCell, Drop, Settled;
      EntryFacts(c);
      if when.Some? {
        ExpiredBar(c, when.value);
        if !StateAt(c).Expired(when.value) {
          return None, IO(true, true, true, []);
        }
      }
      firstErr, io := FlushEntry(c);
      FlushedOut(old(model), c, io);
    }

    lemma FlushedOut(s: SysState, c: Cell, io: IO)
      requires Known(c.interval) && c in s.live
      ensures var s' := FlushCell(s, c, io);
        && s'.live == s.live - {c} && s.handed <= s'.handed
        && (AcceptedSince(s'.handed, |s.handed|) <==> Accepted(io.answers))
    {
      var s' := FlushCell(s, c, io);
      assert s'.handed[|s.handed|].answers == io.answers;
    }

    /** The inner loop of a pass: every entry of one bucket, in any order. */
    method VisitBucket(iv: string, when: Option<Time>) returns (errs: nat, ghost visits: seq<Visit>)
      requires Valid() && iv in buckets
      modifies this, owner.candles.Keys, sink, sink.sinks, storage
      ensures Valid() && Repr() <= old(Repr()) && owner.candles.Keys <= old(owner).candles.Keys
      ensures forall v :: v in visits ==> Known(v.cell.interval)
      ensures model == SysRun(old(model), VisitAll(when, visits))
      ensures NoRepeat(visits)
      ensures forall c: Cell :: c in VisitedCells(visits) <==> c.interval == iv && old(Has(c))
      ensures OnlyBucket(old(buckets), buckets, iv)
      ensures old(model).handed <= model.handed && old(sink.objects) <= sink.objects
      ensures errs == 0 <==> AcceptedSince(model.handed, |old(model).handed|)
    {
      hide Valid, SysRun, SysStep, VisitAll, Drop, Accepted, Known, AcceptedSince, NoRepeat, VisitedCells,
           BucketPass, OnlyBucket;
      var remaining := buckets[iv].Keys;
      errs, visits := 0, [];
      NoVisits(model, when);
      BucketStart(buckets, iv, model.handed);
      while remaining != {}
        invariant Valid() && Repr() <= old(Repr()) && owner.candles.Keys <= old(owner).candles.Keys
        invariant BucketPass(old(buckets), buckets, visits, remaining, iv)
        invariant forall v :: v in visits ==> Known(v.cell.interval)
        invariant model == SysRun(old(model), VisitAll(when, visits))
        invariant old(model).handed <= model.handed && old(sink.objects) <= sink.objects
        invariant errs == 0 <==> AcceptedSince(model.handed, |old(model).handed|)
      {
        var symbol :| symbol in remaining;
        var c := Cell(iv, symbol);
        BucketEntry(old(buckets), buckets, visits, remaining, c);
        ghost var before, bs := model, buckets;
        var firstErr;
        ghost var io;
        firstErr, io := VisitEntry(c, when);
        BucketNext(old(buckets), bs, buckets, visits, Visit(c, io), remaining);
        VisitSnoc(old(model), when, visits, Visit(c, io));
        MoreAccepted(before.handed, model.handed, |old(model).handed|);
        remaining := remaining - {symbol};
        visits := visits + [Visit(c, io)];
        if firstErr.Some? {
          errs := errs + 1;
        }
      }
      BucketDone(old(buckets), buckets, visits, iv);
    }

    /** The outer loop of a pass: every bucket, in any order. */
    method VisitBuckets(when: Option<Time>) returns (errs: nat, ghost visits: seq<Visit>)
      requires Valid()
      modifies this, owner.candles.Keys, sink, sink.sinks, storage
      ensures Valid() && Repr() <= old(Repr())
      ensures forall v :: v in visits ==> Known(v.cell.interval)
      ensures Covers(visits, old(model))
      ensures model == SysRun(old(model), VisitAll(when, visits))
      ensures Shrunk(old(buckets), buckets)
      ensures old(model).handed <= model.handed && old(sink.objects) <= sink.objects
      ensures errs == 0 <==> AcceptedSince(model.handed, |old(model).handed|)
    {
      hide Valid, SysRun, SysStep, VisitAll, Drop, Accepted, Known, AcceptedSince, NoRepeat, VisitedCells,
           Marked;
      LiveCells();
      PassStart(buckets, model.handed);
      var remaining := buckets.Keys;
      errs, visits := 0, [];
      NoVisits(model, when);
      while remaining != {}
        invariant Valid() && Repr() <= old(Repr()) && owner.candles.Keys <= old(owner).candles.Keys
        invariant PassOver(old(buckets), buckets, visits, remaining)
        invariant model == SysRun(old(model), VisitAll(when, visits))
        invariant old(model).handed <= model.handed && old(sink.objects) <= sink.objects
        invariant errs == 0 <==> AcceptedSince(model.handed, |old(model).handed|)
      {
        hide PassOver;
        var iv :| iv in remaining;
        PassNext(old(buckets), buckets, visits, remaining, iv);
        ghost var before, bs := model, buckets;
        var n;
        ghost var more;
        n, more := VisitBucket(iv, when);
        PassBucket(old(buckets), bs, buckets, visits, more, remaining, iv);
        hide OnlyBucket;
        remaining := remaining - {iv};
        VisitAppend(old(model), when, visits, more);
        MoreAccepted(before.handed, model.handed, |old(model).handed|);
        visits := visits + more;
        errs := errs + n;
      }
      PassDone(old(buckets), buckets, visits, old(model));
    }

    lemma LiveCells()
      requires Valid()
      ensures forall c: Cell :: Has(c) <==> c in model.live
    {
    }

    /** One tick of the flush loop: every live candle that has ended is handed over and dropped. */
    method FlushExpired() returns (ghost now: Time, ghost visits: seq<Visit>)
      requires Valid()
      modifies this, owner.candles.Keys, sink, sink.sinks, storage
      ensures Valid() && Repr() <= old(Repr())
      ensures ValidOp(intervals, SweepAll(now, visits)) && KnownIntervals(intervals)
      ensures Covers(visits, old(model))
      ensures model == SysRun(old(model), Expand(intervals, SweepAll(now, visits)))
      ensures old(model).handed <= model.handed && old(sink.objects) <= sink.objects
      ensures Shrunk(old(buckets), buckets)
    {
      hide SysRun, SysStep, Marked, VisitAll, Covers, Owned, Released;
      Configured();
      var t: Time := *; // m.now()
      now := t;
      var errs;
      errs, visits := VisitBuckets(Some(t));
    }

    /** FlushAll, and Close: every live candle is handed over and dropped; no error is returned
        exactly if every sink accepted every candle. */
    method FlushEverything() returns (errs: nat, ghost visits: seq<Visit>)
      requires Valid()
      modifies this, owner.candles.Keys, sink, sink.sinks, storage
      ensures Valid() && Repr() <= old(Repr())
      ensures ValidOp(intervals, Op.FlushEverything(visits)) && KnownIntervals(intervals)
      ensures Covers(visits, old(model))
      ensures model == SysRun(old(model), Expand(intervals, Op.FlushEverything(visits)))
      ensures old(model).handed <= model.handed && old(sink.objects) <= sink.objects
      ensures errs == 0 <==> AcceptedSince(model.handed, |old(model).handed|)
      ensures forall c: Cell :: !Has(c)
    {
      hide SysRun, SysStep, Marked, VisitAll, Covers, Valid, Accepted;
      ConfiguredIfValid();
      errs, visits := VisitBuckets(None);
      PassExact(old(model), None, visits);
      NothingStays(model);
      LiveCells();
    }

    lemma NothingStays(s: SysState)
      ensures forall b: Bar :: !Stays(None, b)
    {
    }

    /** The store drops the key of a window whose time to live is over. */
    method ExpireKey(c: Cell, w: Time, now: Time)
      requires Valid() && Known(c.interval) && Aligned(w, Dur(c.interval))
      modifies this`model, storage
      ensures Valid() && KnownIntervals(intervals) && buckets == old(buckets)
      ensures model == SysRun(old(model), Expand(intervals, Op.ExpireKey(c, w, now)))
    {
      hide ReleasedIn, Key, KnownIntervals, Known, SysStep, SysRun, ValidEvent, Expand;
      ExpiryIs(model, c, w, now);
      storage.Expire(Key(c, w), now);
      model := model.(store := storage.data);
    }

    lemma ExpiryIs(s: SysState, c: Cell, w: Time, now: Time)
      requires KnownIntervals(intervals) && Known(c.interval) && Aligned(w, Dur(c.interval))
      ensures SysRun(s, Expand(intervals, Op.ExpireKey(c, w, now)))
           == if Key(c, w) in s.store && s.store[Key(c, w)].deadline <= now then s.(store := s.store - {Key(c, w)})
              else s
    {
      hide Key, Known;
      SysRunOne(s, At(c, Expire(w, now)));
    }

    /** Ownership: live candles and their states are pairwise distinct objects and not complete; every
        candle that was handed to the sinks was handed over once, is complete, is in no bucket, and has
        the value it had. */
    lemma Ownership()
      requires Valid()
      ensures forall c: Cell, c': Cell :: Has(c) && Has(c') && c != c' ==>
        StateAt(c) != StateAt(c') && StateAt(c).candle != StateAt(c').candle
      ensures forall c: Cell :: Has(c) ==> !StateAt(c).candle.complete
      ensures sink.Intact() && NoDuplicates(sink.objects)
      ensures forall c: Cell, o :: Has(c) && o in sink.objects ==> StateAt(c).candle != o
    {
      forall c: Cell | Has(c)
        ensures OwnedAt(buckets, owner, model.live, c)
      {
      }
      assert forall i :: 0 <= i < |sink.handed| ==> sink.handed[i] in sink.handed;
    }

    lemma Configured()
      requires Agrees()
      ensures KnownIntervals(intervals) && forall iv :: iv in intervals ==> iv in buckets
    {
    }

    lemma ConfiguredIfValid()
      requires Valid()
      ensures KnownIntervals(intervals) && forall iv :: iv in intervals ==> iv in buckets
    {
    }

    lemma ReplaceIs(s: SysState, c: Cell, t: Tick, now: Time, io: IO, saved: bool)
      requires Known(c.interval) && c in s.live && ShouldFlush(s.live[c], now)
      ensures var f := FlushCell(s, c, io);
        FeedCell(s, c, t, now, io.(saveOk := saved))
        == SaveBar(f.(live := s.live[c := NewBar(c, t)]), NewBar(c, t), now, saved)
    {
    }

    lemma ExpiredBar(c: Cell, now: Time)
      requires Agrees() && Has(c)
      ensures c in model.live
      ensures StateAt(c).Expired(now) <==> ShouldFlush(model.live[c], now)
    {
      assert OwnedAt(buckets, owner, model.live, c);
    }

    lemma IntervalKnown(iv: string)
      requires Settled() && iv in buckets
      ensures Known(iv)
    {
    }

    lemma FlushFacts(s: SysState, c: Cell, io: IO)
      requires Marked(s) && Known(c.interval) && c in s.live
      ensures Marked(FlushCell(s, c, io))
    {
      hide Marked;
      StepKeepsMarked(s, At(c, FlushAll(io)));
    }

    /** A bucket entry: its cell is live, and its objects are its own. */
    lemma EntryFacts(c: Cell)
      requires Agrees() && Has(c)
      ensures c.interval in buckets && Known(c.interval) && c in model.live
      ensures StateAt(c) in owner.states && owner.Owns(c, StateAt(c))
      ensures StateAt(c).candle.Value() == model.live[c]
      ensures StateAt(c).candle !in sink.objects
    {
      assert OwnedAt(buckets, owner, model.live, c);
    }

    lemma FeedFacts(s: SysState, c: Cell, t: Tick, now: Time, io: IO)
      requires Marked(s) && Known(c.interval)
      ensures Marked(FeedCell(s, c, t, now, io))
    {
      hide Marked;
      StepKeepsMarked(s, At(c, Feed(t, now, io)));
    }
  }

  /** NewManager rejects an unknown interval, and nothing else: a repeated one is accepted, and so is a
      store with any content. Over the store and the sinks of an earlier manager it is a restart. */
  method NewManager(intervals: seq<string>, sink: MultiSink, store: Adapter)
      returns (r: Result<Manager, string>)
    requires sink.Intact()
    ensures r.Success? <==> KnownIntervals(intervals)
    ensures r.Success? ==>
              && fresh(r.value) && r.value.Valid() && r.value.intervals == intervals
              && r.value.model == SysState(map[], store.data, sink.handed)
  {
    hide Marked;
    for i := 0 to |intervals|
      invariant forall k :: 0 <= k < i ==> Known(intervals[k])
    {
      var d := Duration(intervals[i]);
      if d.Failure? {
        assert intervals[i] in intervals && !Known(intervals[i]);
        return Failure("invalid interval " + intervals[i] + ": " + d.error);
      }
    }
    var m := new Manager(intervals, sink, store);
    r := Success(m);
  }
}
