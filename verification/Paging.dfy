/** The write-once candle table and keyset pagination over it while it grows. */
module Paging {
  import opened Bars
  import opened Intervals
  import opened Wrappers

  // --- the candles table -------------------------------------------------------------------------

  datatype RowKey = RowKey(symbol: string, interval: string, time: Time)

  datatype Values = Values(open: real, high: real, low: real, close: real, volume: real)

  type Table = map<RowKey, Values>

  /** Every row stays, with its values. */
  ghost predicate Extends(t: Table, t': Table) {
    forall k :: k in t ==> k in t' && t'[k] == t[k]
  }

  function KeyOf(b: Bar): RowKey {
    RowKey(b.symbol, b.interval, b.start)
  }

  function ValuesOf(b: Bar): Values {
    Values(b.open, b.high, b.low, b.close, b.volume)
  }

  /** INSERT ... ON CONFLICT (symbol, interval, time) DO NOTHING. */
  function Inserted(t: Table, b: Bar): (t': Table)
    ensures KeyOf(b) in t'
  {
    if KeyOf(b) in t then t else t[KeyOf(b) := ValuesOf(b)]
  }

  class CandleTable {
    var rows: Table

    constructor ()
      ensures rows == map[]
    {
      rows := map[];
    }

    /** A reported failure may still have been applied, a reported success always is. */
    method FlushCandle(b: Bar, applied: bool, reported: bool) returns (r: Result<(), string>)
      requires reported ==> applied
      modifies this
      ensures Extends(old(rows), rows)
      ensures rows == if applied then Inserted(old(rows), b) else old(rows)
      ensures r.Success? <==> reported
      ensures r.Success? ==> KeyOf(b) in rows
    {
      var k := RowKey(b.symbol, b.interval, b.start);
      if applied && k !in rows {
        rows := rows[k := Values(b.open, b.high, b.low, b.close, b.volume)];
      }
      r := if reported then Success(()) else Failure("timescaledb insert");
    }
  }

  // --- ORDER BY time ASC -------------------------------------------------------------------------

  predicate Ascends(ts: seq<Time>) {
    forall i, j :: 0 <= i < j < |ts| ==> ts[i] < ts[j]
  }

  lemma {:induction false} LeastExists(s: set<Time>)
    requires s != {}
    ensures exists m :: IsLeast(m, s)
    decreases |s|
  {
    var x :| x in s;
    if s == {x} {
      assert IsLeast(x, s);
    } else {
      var rest := s - {x};
      LeastExists(rest);
      var m :| IsLeast(m, rest);
      assert forall t :: t in s ==> t == x || t in rest;
      assert IsLeast(if m < x then m else x, s);
    }
  }

  predicate IsLeast(m: Time, s: set<Time>) {
    m in s && forall t :: t in s ==> m <= t
  }

  function Least(s: set<Time>): (m: Time)
    requires s != {}
    ensures IsLeast(m, s)
  {
    LeastExists(s);
    var m :| m in s && IsLeast(m, s);
    m
  }

  /** The members of s in ascending order. */
  function Ascending(s: set<Time>): (ts: seq<Time>)
    ensures |ts| == |s| && Ascends(ts)
    ensures forall t :: t in ts <==> t in s
    decreases |s|
  {
    if s == {} then [] else
      var m := Least(s);
      var rest := Ascending(s - {m});
      assert forall i :: 0 <= i < |rest| ==> rest[i] in rest;
      [m] + rest
  }

  // --- QueryCandles ------------------------------------------------------------------------------

  /** The page token, as the instant it denotes. */
  datatype Token = Absent | Malformed | At(t: Time)

  datatype Query = Query(symbol: string, interval: string, start: Time, end: Time, pageSize: int)

  /** One call: the table it sees, and how many of the selected rows reach the client. Iteration
      errors are not checked, so a broken connection only shortens the page. */
  datatype Call = Call(table: Table, delivered: nat)

  const DEFAULT_PAGE_SIZE := 500

  function PageSize(requested: int): (n: nat)
    ensures n > 0
  {
    if requested > 0 then requested else DEFAULT_PAGE_SIZE
  }

  function From(start: Time, token: Token): Time {
    if token.At? && token.t > start then token.t else start
  }

  /** The instants of the rows that the WHERE clause selects; both bounds are exclusive. */
  function Selected(t: Table, symbol: string, interval: string, lo: Time, hi: Time): (s: set<Time>)
    ensures forall x: Time :: x in s <==> RowKey(symbol, interval, x) in t && lo < x < hi
  {
    set k | k in t && k.symbol == symbol && k.interval == interval && lo < k.time < hi :: k.time
  }

  function Rows(q: Query, token: Token, t: Table): (s: set<Time>)
    ensures forall x: Time :: x in s <==>
      RowKey(q.symbol, q.interval, x) in t && q.start < x < q.end && (token.At? ==> token.t < x)
  {
    Selected(t, q.symbol, q.interval, From(q.start, token), q.end)
  }

  function Min(a: nat, b: nat): nat {
    if a < b then a else b
  }

  /** ORDER BY time ASC LIMIT limit, as far as it is delivered. */
  function Limited(s: set<Time>, limit: nat, delivered: nat): seq<Time> {
    Ascending(s)[..Min(Min(limit, |s|), delivered)]
  }

  function PageLength(q: Query, token: Token, c: Call): (n: nat)
    ensures n <= |Rows(q, token, c.table)|
  {
    Min(Min(PageSize(q.pageSize), |Rows(q, token, c.table)|), c.delivered)
  }

  function PageTimes(q: Query, token: Token, c: Call): (ts: seq<Time>)
    ensures |ts| == PageLength(q, token, c) && Ascends(ts)
    ensures forall t :: t in ts ==> t in Rows(q, token, c.table) && RowKey(q.symbol, q.interval, t) in c.table
  {
    Limited(Rows(q, token, c.table), PageSize(q.pageSize), c.delivered)
  }

  lemma SelectsPage(q: Query, token: Token, c: Call, start: Time, limit: nat)
    requires start == From(q.start, token) && limit == PageSize(q.pageSize)
    ensures Limited(Selected(c.table, q.symbol, q.interval, start, q.end), limit, c.delivered)
         == PageTimes(q, token, c)
  {
  }

  function CandleAt(q: Query, t: Table, time: Time): PbBar
    requires Known(q.interval) && RowKey(q.symbol, q.interval, time) in t
  {
    var v := t[RowKey(q.symbol, q.interval, time)];
    PbBar(q.symbol, v.open, v.high, v.low, v.close, v.volume, time, time + Dur(q.interval))
  }

  function CandlesAt(q: Query, t: Table, times: seq<Time>): (r: seq<PbBar>)
    requires Known(q.interval) && forall x :: x in times ==> RowKey(q.symbol, q.interval, x) in t
    ensures |r| == |times| && forall i :: 0 <= i < |r| ==> r[i] == CandleAt(q, t, times[i])
  {
    if times == [] then [] else [CandleAt(q, t, times[0])] + CandlesAt(q, t, times[1..])
  }

  function PageOf(q: Query, token: Token, c: Call): seq<PbBar>
    requires Known(q.interval)
  {
    CandlesAt(q, c.table, PageTimes(q, token, c))
  }

  function NextToken(page: seq<PbBar>): Token {
    if page == [] then Absent else At(page[|page| - 1].openTime)
  }

  /** The page has n of the remaining rows, unless fewer are left or are delivered. */
  ghost predicate Fills(page: seq<PbBar>, n: nat, left: set<Time>, delivered: nat) {
    && |page| <= n && |page| <= |left| && |page| <= delivered
    && (n <= |left| && n <= delivered ==> |page| == n)
    && (|left| <= n && |left| <= delivered ==> |page| == |left|)
    && (delivered <= n && delivered <= |left| ==> |page| == delivered)
  }

  lemma PageFills(q: Query, token: Token, c: Call)
    requires Known(q.interval)
    ensures q.pageSize > 0 ==> Fills(PageOf(q, token, c), q.pageSize, Rows(q, token, c.table), c.delivered)
    ensures q.pageSize <= 0 ==> Fills(PageOf(q, token, c), 500, Rows(q, token, c.table), c.delivered)
  {
    hide Duration, Rows;
  }

  /** A query that fails, or a row that cannot be scanned, is an error without a page. A page has the
      requested number of candles, or 500 without a request, unless fewer are left or are delivered. */
  method QueryCandles(q: Query, token: Token, c: Call, fault: Option<string>)
      returns (r: Result<(seq<PbBar>, Token), string>)
    ensures r.Success? <==> Known(q.interval) && !token.Malformed? && fault.None?
    ensures r.Success? ==> r.value == (PageOf(q, token, c), NextToken(PageOf(q, token, c)))
    ensures r.Success? && q.pageSize > 0 ==> Fills(r.value.0, q.pageSize, Rows(q, token, c.table), c.delivered)
    ensures r.Success? && q.pageSize <= 0 ==> Fills(r.value.0, 500, Rows(q, token, c.table), c.delivered)
  {
    hide Duration, PageTimes, Rows, Limited, Selected, Fills;
    var dur := Duration(q.interval);
    if dur.Failure? {
      return Failure("invalid interval: " + dur.error);
    }
    var limit := DEFAULT_PAGE_SIZE;
    if q.pageSize > 0 {
      limit := q.pageSize;
    }
    if token.Malformed? {
      return Failure("invalid page_token");
    }
    var start := q.start;
    if token.At? && token.t > start {
      start := token.t;
    }
    if fault.Some? {
      return Failure("query failed: " + fault.value);
    }
    var times := Limited(Selected(c.table, q.symbol, q.interval, start, q.end), limit, c.delivered);
    SelectsPage(q, token, c, start, limit);
    var result: seq<PbBar>, next := [], Absent;
    var i := 0;
    while i < |times|
      invariant 0 <= i <= |times|
      invariant |result| == i && forall j :: 0 <= j < i ==> result[j] == CandleAt(q, c.table, times[j])
      invariant next == NextToken(result)
    {
      assert times[i] in times;
      var v := c.table[RowKey(q.symbol, q.interval, times[i])];
      result := result + [PbBar(q.symbol, v.open, v.high, v.low, v.close, v.volume, times[i], times[i] + dur.value)];
      next := At(times[i]);
      i := i + 1;
    }
    assert result == PageOf(q, token, c);
    PageFills(q, token, c);
    return Success((result, next));
  }

  // --- a session: following the token from page to page ------------------------------------------

  /** All candles a client gets that follows the token until an empty page. */
  function Session(q: Query, token: Token, calls: seq<Call>): seq<PbBar>
    requires Known(q.interval)
    decreases |calls|
  {
    if calls == [] then [] else
      var page := PageOf(q, token, calls[0]);
      if page == [] then [] else page + Session(q, NextToken(page), calls[1..])
  }

  /** Did the client see an empty page. */
  predicate Finished(q: Query, token: Token, calls: seq<Call>)
    requires Known(q.interval)
    decreases |calls|
  {
    calls != [] &&
    var page := PageOf(q, token, calls[0]);
    page == [] || Finished(q, NextToken(page), calls[1..])
  }

  /** Rows are inserted between the calls and never changed. */
  ghost predicate Growing(calls: seq<Call>) {
    forall i, j :: 0 <= i < j < |calls| ==> Extends(calls[i].table, calls[j].table)
  }

  /** Every call that selects rows delivers at least one. */
  ghost predicate Delivering(calls: seq<Call>) {
    forall c :: c in calls ==> c.delivered > 0
  }

  ghost predicate InOrder(page: seq<PbBar>, lo: Time, hi: Time) {
    && (forall i, j :: 0 <= i < j < |page| ==> page[i].openTime < page[j].openTime)
    && forall i :: 0 <= i < |page| ==> lo < page[i].openTime < hi
  }

  lemma PageInOrder(q: Query, token: Token, c: Call)
    requires Known(q.interval)
    ensures InOrder(PageOf(q, token, c), From(q.start, token), q.end)
    ensures |PageOf(q, token, c)| == PageLength(q, token, c)
  {
    hide Duration, PageTimes, Selected, From, PageLength;
    var page, times := PageOf(q, token, c), PageTimes(q, token, c);
    assert forall i :: 0 <= i < |page| ==> times[i] in times && times[i] == page[i].openTime;
  }

  lemma PageRows(q: Query, token: Token, c: Call, i: nat)
    requires Known(q.interval) && i < |PageOf(q, token, c)|
    ensures var b := PageOf(q, token, c)[i];
      RowKey(q.symbol, q.interval, b.openTime) in c.table && b == CandleAt(q, c.table, b.openTime)
      && b.openTime in Rows(q, token, c.table)
  {
    hide Duration, PageTimes, Rows;
    assert PageTimes(q, token, c)[i] in PageTimes(q, token, c);
  }

  /** A page holds the first rows after the token: a selected row is on the page or lies after it. */
  lemma PageFirst(q: Query, token: Token, c: Call, t: Time)
    requires Known(q.interval) && t in Rows(q, token, c.table)
    ensures CandleAt(q, c.table, t) in PageOf(q, token, c)
            || forall i :: 0 <= i < |PageOf(q, token, c)| ==> PageOf(q, token, c)[i].openTime < t
  {
    hide Duration, Ascending, Selected, From, PageLength;
    var all, page := Ascending(Rows(q, token, c.table)), PageOf(q, token, c);
    var times := PageTimes(q, token, c);
    var k :| 0 <= k < |all| && all[k] == t;
    if k < |page| {
      assert page[k] == CandleAt(q, c.table, t);
    } else {
      assert forall i :: 0 <= i < |page| ==> times[i] == all[i] == page[i].openTime;
    }
  }

  lemma JoinInOrder(a: seq<PbBar>, b: seq<PbBar>, lo: Time, mid: Time, hi: Time)
    requires a != [] && InOrder(a, lo, hi) && a[|a| - 1].openTime <= mid && InOrder(b, mid, hi)
    ensures InOrder(a + b, lo, hi)
  {
    assert forall i :: 0 <= i < |a| ==> a[i].openTime <= mid;
    assert lo < a[0].openTime <= mid;
  }

  /** Whatever happens to the table between the calls, a session is strictly increasing in time and
      stays inside the requested range: no candle comes twice. */
  lemma {:induction false} SessionInOrder(q: Query, token: Token, calls: seq<Call>)
    requires Known(q.interval)
    ensures InOrder(Session(q, token, calls), From(q.start, token), q.end)
    decreases |calls|
  {
    hide Duration, PageOf;
    if calls == [] {
    } else {
      var page := PageOf(q, token, calls[0]);
      PageInOrder(q, token, calls[0]);
      if page != [] {
        var next := NextToken(page);
        SessionInOrder(q, next, calls[1..]);
        JoinInOrder(page, Session(q, next, calls[1..]), From(q.start, token), From(q.start, next), q.end);
      }
    }
  }

  lemma TailGrows(calls: seq<Call>)
    requires calls != [] && Growing(calls)
    ensures Growing(calls[1..])
    ensures forall c :: c in calls ==> Extends(calls[0].table, c.table)
    ensures Extends(calls[|calls| - 1].table, calls[|calls| - 1].table)
  {
  }

  /** Every candle of a session is a row of the table as it is at the end, with its values. */
  lemma {:induction false} SessionRows(q: Query, token: Token, calls: seq<Call>, i: nat)
    requires Known(q.interval) && Growing(calls) && i < |Session(q, token, calls)|
    ensures var b, last := Session(q, token, calls)[i], calls[|calls| - 1].table;
      RowKey(q.symbol, q.interval, b.openTime) in last && b == CandleAt(q, last, b.openTime)
    decreases |calls|
  {
    hide Duration, PageOf, Extends;
    var page := PageOf(q, token, calls[0]);
    TailGrows(calls);
    if i < |page| {
      PageRows(q, token, calls[0], i);
      assert Extends(calls[0].table, calls[|calls| - 1].table);
      KeptRow(q, calls[0].table, calls[|calls| - 1].table, page[i].openTime);
    } else {
      SessionRows(q, NextToken(page), calls[1..], i - |page|);
    }
  }

  lemma KeptRow(q: Query, t: Table, t': Table, time: Time)
    requires Known(q.interval) && Extends(t, t') && RowKey(q.symbol, q.interval, time) in t
    ensures RowKey(q.symbol, q.interval, time) in t' && CandleAt(q, t', time) == CandleAt(q, t, time)
  {
    hide Duration;
  }

  /** A page is empty only if nothing is left, unless nothing was delivered. */
  lemma EmptyPage(q: Query, token: Token, c: Call)
    requires Known(q.interval) && c.delivered > 0
    ensures PageOf(q, token, c) == [] <==> Rows(q, token, c.table) == {}
  {
    hide Duration, PageTimes, Rows;
  }

  /** A session that ran to its empty page has every row that was there when it started. */
  lemma {:induction false} SessionComplete(q: Query, token: Token, calls: seq<Call>, t: Time)
    requires Known(q.interval) && Growing(calls) && Delivering(calls) && Finished(q, token, calls)
    requires t in Rows(q, token, calls[0].table)
    ensures CandleAt(q, calls[0].table, t) in Session(q, token, calls)
    decreases |calls|
  {
    hide Duration, PageOf, Selected, CandleAt, Extends;
    var page := PageOf(q, token, calls[0]);
    EmptyPage(q, token, calls[0]);
    PageFirst(q, token, calls[0], t);
    if CandleAt(q, calls[0].table, t) !in page {
      TailGrows(calls);
      assert calls[1] in calls;
      KeptRow(q, calls[0].table, calls[1].table, t);
      assert t in Rows(q, NextToken(page), calls[1].table);
      SessionComplete(q, NextToken(page), calls[1..], t);
    }
  }

  /** The token in use at call i. */
  function TokenAt(q: Query, token: Token, calls: seq<Call>, i: nat): Token
    requires Known(q.interval) && i <= |calls|
    decreases i
  {
    if i == 0 then token else TokenAt(q, NextToken(PageOf(q, token, calls[0])), calls[1..], i - 1)
  }

  /** A row inserted during the session is in it too, if the token had not passed it by then. */
  lemma {:induction false} SessionCatches(q: Query, token: Token, calls: seq<Call>, i: nat, t: Time)
    requires Known(q.interval) && Growing(calls) && Delivering(calls) && Finished(q, token, calls)
    requires i < |calls| && !Finished(q, token, calls[..i])
    requires t in Rows(q, TokenAt(q, token, calls, i), calls[i].table)
    ensures CandleAt(q, calls[i].table, t) in Session(q, token, calls)
    decreases i
  {
    hide Duration, PageOf, Rows, CandleAt;
    if i == 0 {
      SessionComplete(q, token, calls, t);
    } else {
      TailGrows(calls);
      assert calls[1..][..i - 1] == calls[..i][1..];
      assert calls[..i][0] == calls[0] && calls[1..][i - 1] == calls[i];
      SessionCatches(q, NextToken(PageOf(q, token, calls[0])), calls[1..], i - 1, t);
    }
  }

  // --- when inserts cease ------------------------------------------------------------------------

  /** A page takes its candles, and nothing else, off what remains. */
  lemma RemainingShrinks(q: Query, token: Token, c: Call)
    requires Known(q.interval) && PageOf(q, token, c) != []
    ensures var page, next := PageOf(q, token, c), NextToken(PageOf(q, token, c));
      && Ascending(Rows(q, next, c.table)) == Ascending(Rows(q, token, c.table))[|page|..]
      && |Rows(q, next, c.table)| == |Rows(q, token, c.table)| - |page|
  {
    hide Duration, Ascending, PageOf;
    var all, n := Ascending(Rows(q, token, c.table)), |PageOf(q, token, c)|;
    PageInOrder(q, token, c);
    LastOfPage(q, token, c);
    var last := all[n - 1];
    var rest := Rows(q, NextToken(PageOf(q, token, c)), c.table);
    assert last in all;
    assert rest == set t | t in Rows(q, token, c.table) && t > last;
    AscendingUnique(all[n..], rest);
  }

  lemma LastOfPage(q: Query, token: Token, c: Call)
    requires Known(q.interval) && PageOf(q, token, c) != []
    ensures var n := |PageOf(q, token, c)|;
      n <= |Rows(q, token, c.table)| && NextToken(PageOf(q, token, c)) == At(Ascending(Rows(q, token, c.table))[n - 1])
  {
    hide Duration, Ascending, PageLength;
    assert PageTimes(q, token, c) == Ascending(Rows(q, token, c.table))[..PageLength(q, token, c)];
  }

  /** An ascending sequence of all members of a set is the sorted set. */
  lemma {:induction false} AscendingUnique(ts: seq<Time>, s: set<Time>)
    requires Ascends(ts) && forall t :: t in ts <==> t in s
    ensures Ascending(s) == ts
    decreases |s|
  {
    if ts == [] {
      assert s == {};
    } else {
      HeadIsLeast(ts, s);
      assert Ascending(s) == [ts[0]] + Ascending(s - {ts[0]});
      hide Ascends, IsLeast, Ascending;
      AscendingUnique(ts[1..], s - {ts[0]});
    }
  }

  lemma HeadIsLeast(ts: seq<Time>, s: set<Time>)
    requires ts != [] && Ascends(ts) && forall t :: t in ts <==> t in s
    ensures s != {} && Least(s) == ts[0]
    ensures Ascends(ts[1..]) && forall t :: t in ts[1..] <==> t in s - {ts[0]}
  {
    assert ts[0] in ts;
    assert Least(s) in ts;
    forall t | t in s - {ts[0]} ensures t in ts[1..] {
      var i :| 0 <= i < |ts| && ts[i] == t;
      assert ts[1..][i - 1] == t;
    }
  }

  /** No inserts from the k-th call on. */
  ghost predicate QuietFrom(calls: seq<Call>, k: nat, t: Table) {
    forall i :: k <= i < |calls| ==> calls[i].table == t
  }

  /** Over a table that stays as it is, a finished session is the one big query, and a session finishes
      after at most one call per row and one more. */
  lemma {:induction false} PagesJoin(q: Query, token: Token, calls: seq<Call>, t: Table)
    requires Known(q.interval) && QuietFrom(calls, 0, t) && Delivering(calls)
    ensures |calls| > |Rows(q, token, t)| ==> Finished(q, token, calls)
    ensures Finished(q, token, calls) ==>
              Session(q, token, calls) == CandlesAt(q, t, Ascending(Rows(q, token, t)))
    decreases |calls|
  {
    hide Duration, PageOf, Rows, Ascending, CandleAt;
    if calls == [] {
    } else {
      var page := PageOf(q, token, calls[0]);
      assert calls[0] in calls;
      EmptyPage(q, token, calls[0]);
      if page == [] {
        assert Ascending(Rows(q, token, t)) == [];
      } else {
        RemainingShrinks(q, token, calls[0]);
        PagesJoin(q, NextToken(page), calls[1..], t);
        FirstPage(q, token, calls[0]);
      }
    }
  }

  lemma FirstPage(q: Query, token: Token, c: Call)
    requires Known(q.interval) && PageOf(q, token, c) != []
    ensures CandlesAt(q, c.table, Ascending(Rows(q, token, c.table)))
         == PageOf(q, token, c)
            + CandlesAt(q, c.table, Ascending(Rows(q, NextToken(PageOf(q, token, c)), c.table)))
  {
    hide Duration, CandleAt, Ascending, PageLength;
    RemainingShrinks(q, token, c);
    var all, times := Ascending(Rows(q, token, c.table)), PageTimes(q, token, c);
    var rest := Ascending(Rows(q, NextToken(PageOf(q, token, c)), c.table));
    assert all == times + rest;
    CandlesAppend(q, c.table, times, rest);
  }

  lemma {:induction false} CandlesAppend(q: Query, t: Table, a: seq<Time>, b: seq<Time>)
    requires Known(q.interval)
    requires forall x :: x in a ==> RowKey(q.symbol, q.interval, x) in t
    requires forall x :: x in b ==> RowKey(q.symbol, q.interval, x) in t
    ensures CandlesAt(q, t, a + b) == CandlesAt(q, t, a) + CandlesAt(q, t, b)
  {
    hide Duration, CandleAt;
    if a == [] {
      assert a + b == b;
    } else {
      assert (a + b)[1..] == a[1..] + b;
      CandlesAppend(q, t, a[1..], b);
    }
  }

  /** Once inserts cease, a session ends after at most one call per remaining row and one more. */
  lemma {:induction false} SessionStops(q: Query, token: Token, calls: seq<Call>, k: nat, t: Table)
    requires Known(q.interval) && Delivering(calls) && QuietFrom(calls, k, t)
    requires |calls| - k > |Rows(q, token, t)|
    ensures Finished(q, token, calls)
    decreases k
  {
    hide Duration, PageOf, Rows;
    if k == 0 {
      PagesJoin(q, token, calls, t);
    } else {
      var page := PageOf(q, token, calls[0]);
      if page != [] {
        LaterToken(q, token, calls[0], t);
        SessionStops(q, NextToken(page), calls[1..], k - 1, t);
      }
    }
  }

  lemma LaterToken(q: Query, token: Token, c: Call, t: Table)
    requires Known(q.interval) && PageOf(q, token, c) != []
    ensures |Rows(q, NextToken(PageOf(q, token, c)), t)| <= |Rows(q, token, t)|
  {
    hide Duration, PageOf;
    PageInOrder(q, token, c);
    Subset(Rows(q, NextToken(PageOf(q, token, c)), t), Rows(q, token, t));
  }

  lemma {:induction false} Subset(a: set<Time>, b: set<Time>)
    requires a <= b
    ensures |a| <= |b|
  {
    if a == {} {
    } else {
      var x :| x in a;
      Subset(a - {x}, b - {x});
    }
  }

  // --- from the aggregator's candle to the client's ----------------------------------------------

  /** A candle that was inserted first for its key is read back field by field, whatever is inserted
      afterwards. */
  lemma InsertedReadsBack(c: Cell, b: Bar, q: Query, before: Table, after: Table)
    requires Known(c.interval) && BarOk(c, b) && q.symbol == c.symbol && q.interval == c.interval
    requires KeyOf(b) !in before && Extends(Inserted(before, b), after)
    ensures RowKey(q.symbol, q.interval, b.start) in after
    ensures CandleAt(q, after, b.start) == ToProto(b)
  {
    hide Duration;
    assert Inserted(before, b)[KeyOf(b)] == ValuesOf(b);
  }
}
