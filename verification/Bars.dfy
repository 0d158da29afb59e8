/** Ticks, OHLCV bars, and what it means for a bar to summarise a list of ticks.

    `Summary` and `TicksIn` are the batch specification: they never mention the fold that the
    streaming aggregator performs. */
module Bars {
  import opened Intervals

  datatype Tick = Tick(ts: Time, price: real, volume: real)

  datatype Cell = Cell(interval: string, symbol: string)

  datatype Bar = Bar(symbol: string, interval: string, start: Time, end: Time,
                     open: real, high: real, low: real, close: real, volume: real, complete: bool)

  /** The protobuf candle: `Interval` and `Complete` are not among its fields. */
  datatype PbBar = PbBar(symbol: string, open: real, high: real, low: real, close: real,
                         volume: real, openTime: Time, closeTime: Time)

  function ToProto(b: Bar): PbBar {
    PbBar(b.symbol, b.open, b.high, b.low, b.close, b.volume, b.start, b.end)
  }

  /** What the storage adapter rebuilds: the interval comes from the request, Complete is false. */
  function FromProto(iv: string, pb: PbBar): Bar {
    Bar(pb.symbol, iv, pb.openTime, pb.closeTime, pb.open, pb.high, pb.low, pb.close, pb.volume, false)
  }

  /** What a bar loses on its way through storage: nothing but the Complete mark. */
  lemma StorageRoundTrip(b: Bar, iv: string)
    ensures FromProto(iv, ToProto(b)) == b.(interval := iv, complete := false)
  {
  }

  function NewBar(c: Cell, t: Tick): Bar
    requires Known(c.interval)
  {
    var d := Dur(c.interval);
    var start := Align(t.ts, d);
    Bar(c.symbol, c.interval, start, start + d, t.price, t.price, t.price, t.price, t.volume, false)
  }

  function Update(b: Bar, t: Tick): Bar {
    b.(high := if t.price > b.high then t.price else b.high,
       low := if t.price < b.low then t.price else b.low,
       close := t.price,
       volume := b.volume + t.volume)
  }

  predicate ShouldFlush(b: Bar, now: Time) {
    now >= b.end
  }

  /** The shape every bar of a cell has: named after its cell, on the interval's grid, and with the
      opening and closing price between low and high. */
  ghost predicate BarOk(c: Cell, b: Bar)
    requires Known(c.interval)
  {
    && b.symbol == c.symbol && b.interval == c.interval
    && Aligned(b.start, Dur(c.interval))
    && b.end == b.start + Dur(c.interval)
    && b.low <= b.open <= b.high
    && b.low <= b.close <= b.high
  }

  lemma NewBarOk(c: Cell, t: Tick)
    requires Known(c.interval)
    ensures BarOk(c, NewBar(c, t))
    ensures NewBar(c, t).start <= t.ts < NewBar(c, t).end
    ensures var b := NewBar(c, t);
      b.open == b.high == b.low == b.close == t.price && b.volume == t.volume && !b.complete
  {
    AlignWindow(t.ts, 0, Dur(c.interval));
  }

  // --- the batch specification -------------------------------------------------------------

  function Volume(ts: seq<Tick>): real {
    if ts == [] then 0.0 else Volume(ts[..|ts| - 1]) + ts[|ts| - 1].volume
  }

  /** The ticks whose window of length d starts at w, in arrival order. */
  function TicksIn(ts: seq<Tick>, d: nat, w: Time): (r: seq<Tick>)
    requires d > 0
    ensures forall t :: t in r <==> t in ts && Align(t.ts, d) == w
  {
    if ts == [] then []
    else
      var last := ts[|ts| - 1];
      TicksIn(ts[..|ts| - 1], d, w) + if Align(last.ts, d) == w then [last] else []
  }

  function Top(ts: seq<Tick>): real
    requires ts != []
  {
    var last := ts[|ts| - 1].price;
    if |ts| == 1 then last
    else var top := Top(ts[..|ts| - 1]); if last > top then last else top
  }

  function Bottom(ts: seq<Tick>): real
    requires ts != []
  {
    var last := ts[|ts| - 1].price;
    if |ts| == 1 then last
    else var bottom := Bottom(ts[..|ts| - 1]); if last < bottom then last else bottom
  }

  /** Top and Bottom are the attained bounds of the prices. */
  lemma {:induction false} PriceRange(ts: seq<Tick>)
    requires ts != []
    ensures forall t :: t in ts ==> Bottom(ts) <= t.price <= Top(ts)
    ensures exists t :: t in ts && t.price == Top(ts)
    ensures exists t :: t in ts && t.price == Bottom(ts)
  {
    var n := |ts| - 1;
    assert ts[n] in ts;
    if n > 0 {
      PriceRange(ts[..n]);
      var hi :| hi in ts[..n] && hi.price == Top(ts[..n]);
      var lo :| lo in ts[..n] && lo.price == Bottom(ts[..n]);
      assert hi in ts && lo in ts;
      assert forall t :: t in ts ==> t in ts[..n] || t == ts[n];
    }
  }

  /** open is the first price, close the last, high and low the bounds, volume the sum. */
  ghost predicate Summary(b: Bar, ts: seq<Tick>) {
    && ts != []
    && b.open == ts[0].price
    && b.close == ts[|ts| - 1].price
    && b.high == Top(ts)
    && b.low == Bottom(ts)
    && b.volume == Volume(ts)
  }

  lemma TicksInSnoc(ts: seq<Tick>, t: Tick, d: nat, w: Time)
    requires d > 0
    ensures TicksIn(ts + [t], d, w) == TicksIn(ts, d, w) + if Align(t.ts, d) == w then [t] else []
  {
    assert (ts + [t])[..|ts|] == ts;
  }

  lemma NewBarSummary(c: Cell, t: Tick)
    requires Known(c.interval)
    ensures Summary(NewBar(c, t), [t])
  {
    assert [t][..0] == [];
    assert Volume([t]) == Volume([t][..0]) + t.volume;
  }

  /** Folding one more tick in keeps the summary. */
  lemma UpdateSummary(b: Bar, ts: seq<Tick>, t: Tick)
    requires Summary(b, ts)
    ensures Summary(Update(b, t), ts + [t])
  {
    assert (ts + [t])[..|ts|] == ts;
  }
}
