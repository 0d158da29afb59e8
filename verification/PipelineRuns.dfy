/** What every interleaving of the pipeline's goroutines keeps, and how it ends. */
module PipelineRuns {
  import opened Pipeline

  // --- runs --------------------------------------------------------------------------------------

  /** A run: every event is possible when it happens. */
  predicate Possible(s: Flow, es: seq<Event>, registered: set<string>)
    decreases |es|
  {
    es == [] || (Enabled(s, es[0]) && Possible(Step(s, es[0], registered), es[1..], registered))
  }

  function Run(s: Flow, es: seq<Event>, registered: set<string>): Flow
    requires Possible(s, es, registered)
    decreases |es|
  {
    if es == [] then s else Run(Step(s, es[0], registered), es[1..], registered)
  }

  // --- subsequences and counts -------------------------------------------------------------------

  /** b with some elements left out, in order. */
  predicate Subsequence(a: seq<Msg>, b: seq<Msg>)
    decreases |b|
  {
    if a == [] then true
    else if b == [] then false
    else
      || (a[|a| - 1] == b[|b| - 1] && Subsequence(a[..|a| - 1], b[..|b| - 1]))
      || Subsequence(a, b[..|b| - 1])
  }

  lemma SubsequenceSnoc(a: seq<Msg>, b: seq<Msg>, m: Msg)
    requires Subsequence(a, b)
    ensures Subsequence(a + [m], b + [m]) && Subsequence(a, b + [m])
  {
    assert (a + [m])[..|a|] == a && (b + [m])[..|b|] == b;
  }

  lemma {:induction false} SubsequenceDrop(x: seq<Msg>, m: Msg, y: seq<Msg>, b: seq<Msg>)
    requires Subsequence(x + [m] + y, b)
    ensures Subsequence(x + y, b)
    decreases |b|
  {
    var a, n := x + [m] + y, |b| - 1;
    if x + y != [] {
      if Subsequence(a, b[..n]) {
        SubsequenceDrop(x, m, y, b[..n]);
      } else if y == [] {
        assert a[..|a| - 1] == x && x + y == x;
        LongerSubsequence(x, b);
      } else {
        var y' := y[..|y| - 1];
        assert a[..|a| - 1] == x + [m] + y';
        SubsequenceDrop(x, m, y', b[..n]);
        assert (x + y)[..|x + y| - 1] == x + y';
      }
    }
  }

  lemma LongerSubsequence(a: seq<Msg>, b: seq<Msg>)
    requires b != [] && Subsequence(a, b[..|b| - 1])
    ensures Subsequence(a, b)
  {
  }

  function Count(ms: seq<Msg>, kind: string): nat {
    if ms == [] then 0
    else Count(ms[..|ms| - 1], kind) + if ms[|ms| - 1].kind == kind then 1 else 0
  }

  /** The messages that have a processor. */
  function Supported(ms: seq<Msg>, registered: set<string>): seq<Msg> {
    if ms == [] then []
    else Supported(ms[..|ms| - 1], registered) + if ms[|ms| - 1].kind in registered then [ms[|ms| - 1]] else []
  }

  // --- the invariant -----------------------------------------------------------------------------

  function Held(s: Flow): seq<Msg> {
    if s.hand.Some? then [s.hand.value] else []
  }

  /** Everything that was read and not dropped, the farthest first. */
  function Line(s: Flow): seq<Msg> {
    s.routed + s.buf2 + Held(s) + s.buf1
  }

  ghost predicate InOrder(s: Flow) {
    Subsequence(Line(s), s.read)
  }

  ghost predicate Accounted(s: Flow) {
    multiset(s.read) == multiset(Line(s)) + multiset(s.lost1) + multiset(s.lost2)
  }

  ghost predicate Bounded(s: Flow) {
    |s.buf1| <= s.capacity && |s.buf2| <= s.capacity
  }

  /** Per type: messages received are those forwarded, those dropped, and the one in hand. */
  ghost predicate Metered(s: Flow) {
    forall kind: string ::
      && Value(s.messages, kind) == Count(s.routed + s.buf2, kind) + Value(s.drops, kind) + Count(Held(s), kind)
      && Value(s.drops, kind) == Count(s.lost2, kind)
  }

  /** Channels are closed in order, and only when they are drained. */
  ghost predicate ClosedInOrder(s: Flow) {
    && (s.closed2 ==> s.closed1 && s.hand.None? && s.buf1 == [])
    && (s.stopped ==> s.closed2 && s.buf2 == [])
  }

  ghost predicate RoutedOk(s: Flow, registered: set<string>) {
    s.handled == Supported(s.routed, registered) && s.publishErrors <= |s.handled|
  }

  ghost predicate FlowOk(s: Flow, registered: set<string>) {
    InOrder(s) && Accounted(s) && Bounded(s) && Metered(s) && ClosedInOrder(s) && RoutedOk(s, registered)
  }

  // --- steps keep it -----------------------------------------------------------------------------

  /** What a step does to the line: append at the end, drop the message in hand, or only move. */
  lemma StepLine(s: Flow, e: Event, registered: set<string>)
    requires Enabled(s, e)
    ensures var s' := Step(s, e, registered);
      match e
      case Read(m) => Line(s') == if |s.buf1| < s.capacity then Line(s) + [m] else Line(s)
      case Forward =>
        Line(s) == (s.routed + s.buf2) + [s.hand.value] + s.buf1
        && Line(s') == if |s.buf2| < s.capacity then Line(s) else (s.routed + s.buf2) + s.buf1
      case _ => Line(s') == Line(s)
  {
    match e
    case Read(m) => Assoc(s.routed + s.buf2 + Held(s), s.buf1, [m]);
    case Take => TakeLine(s.routed + s.buf2, s.buf1);
    case Forward =>
    case Route(_) => RouteLine(s.routed, s.buf2);
    case _ =>
  }

  lemma Assoc(a: seq<Msg>, b: seq<Msg>, c: seq<Msg>)
    ensures a + (b + c) == (a + b) + c
  {
  }

  lemma TakeLine(a: seq<Msg>, buf: seq<Msg>)
    requires buf != []
    ensures a + [buf[0]] + buf[1..] == a + [] + buf
  {
  }

  lemma RouteLine(a: seq<Msg>, buf: seq<Msg>)
    requires buf != []
    ensures a + [buf[0]] + buf[1..] == a + buf
  {
  }

  lemma StepKeepsOrder(s: Flow, e: Event, registered: set<string>)
    requires Enabled(s, e) && InOrder(s)
    ensures InOrder(Step(s, e, registered))
  {
    hide Subsequence, Line;
    StepLine(s, e, registered);
    if e.Read? {
      SubsequenceSnoc(Line(s), s.read, e.m);
    } else if e.Forward? {
      SubsequenceDrop(s.routed + s.buf2, s.hand.value, s.buf1, s.read);
    }
  }

  lemma StepKeepsAccount(s: Flow, e: Event, registered: set<string>)
    requires Enabled(s, e) && Accounted(s)
    ensures Accounted(Step(s, e, registered))
  {
    hide Line;
    StepLine(s, e, registered);
    var s' := Step(s, e, registered);
    match e
    case Read(m) => ReadAccount(s, s', m);
    case Forward => ForwardAccount(s, s', s.routed + s.buf2, s.hand.value, s.buf1);
    case _ =>
  }

  lemma ReadAccount(s: Flow, s': Flow, m: Msg)
    requires Accounted(s) && s'.read == s.read + [m] && s'.lost2 == s.lost2
    requires || (Line(s') == Line(s) + [m] && s'.lost1 == s.lost1)
             || (Line(s') == Line(s) && s'.lost1 == s.lost1 + [m])
    ensures Accounted(s')
  {
    hide Line;
    MultisetSnoc(s.read, m);
    MultisetSnoc(Line(s), m);
    MultisetSnoc(s.lost1, m);
  }

  lemma ForwardAccount(s: Flow, s': Flow, x: seq<Msg>, m: Msg, y: seq<Msg>)
    requires Accounted(s) && s'.read == s.read && s'.lost1 == s.lost1 && Line(s) == x + [m] + y
    requires || (Line(s') == Line(s) && s'.lost2 == s.lost2)
             || (Line(s') == x + y && s'.lost2 == s.lost2 + [m])
    ensures Accounted(s')
  {
    hide Line;
    MultisetMiddle(x, m, y);
    MultisetSnoc(s.lost2, m);
  }

  lemma MultisetSnoc(ms: seq<Msg>, m: Msg)
    ensures multiset(ms + [m]) == multiset(ms) + multiset{m}
  {
  }

  lemma MultisetMiddle(x: seq<Msg>, m: Msg, y: seq<Msg>)
    ensures multiset(x + [m] + y) == multiset(x + y) + multiset{m}
  {
  }

  lemma CountSnoc(ms: seq<Msg>, m: Msg, kind: string)
    ensures Count(ms + [m], kind) == Count(ms, kind) + if m.kind == kind then 1 else 0
  {
    assert (ms + [m])[..|ms|] == ms;
  }

  lemma SupportedSnoc(ms: seq<Msg>, m: Msg, registered: set<string>)
    ensures Supported(ms + [m], registered) == Supported(ms, registered) + if m.kind in registered then [m] else []
  {
    assert (ms + [m])[..|ms|] == ms;
  }

  lemma StepKeepsMeters(s: Flow, e: Event, registered: set<string>)
    requires Enabled(s, e) && Metered(s)
    ensures Metered(Step(s, e, registered))
  {
    hide Count;
    var s' := Step(s, e, registered);
    forall kind: string
      ensures Value(s'.messages, kind)
           == Count(s'.routed + s'.buf2, kind) + Value(s'.drops, kind) + Count(Held(s'), kind)
      ensures Value(s'.drops, kind) == Count(s'.lost2, kind)
    {
      StepMetersOne(s, e, registered, kind);
    }
  }

  lemma StepMetersOne(s: Flow, e: Event, registered: set<string>, kind: string)
    requires Enabled(s, e)
    requires Value(s.messages, kind) == Count(s.routed + s.buf2, kind) + Value(s.drops, kind) + Count(Held(s), kind)
    requires Value(s.drops, kind) == Count(s.lost2, kind)
    ensures var s' := Step(s, e, registered);
      && Value(s'.messages, kind) == Count(s'.routed + s'.buf2, kind) + Value(s'.drops, kind) + Count(Held(s'), kind)
      && Value(s'.drops, kind) == Count(s'.lost2, kind)
  {
    hide Count, Value, Inc;
    var s' := Step(s, e, registered);
    match e
    case Take =>
      IncValue(s.messages, s.buf1[0].kind, kind);
      CountOne(s.buf1[0], kind);
    case Forward =>
      var m := s.hand.value;
      CountOne(m, kind);
      if |s.buf2| < s.capacity {
        CountSnoc(s.routed + s.buf2, m, kind);
        assert s'.routed + s'.buf2 == (s.routed + s.buf2) + [m];
      } else {
        IncValue(s.drops, m.kind, kind);
        CountSnoc(s.lost2, m, kind);
      }
    case Route(_) =>
      assert s'.routed + s'.buf2 == s.routed + s.buf2;
    case _ =>
  }

  lemma IncValue(c: Counter, counted: string, kind: string)
    ensures Value(Inc(c, counted), kind) == Value(c, kind) + if counted == kind then 1 else 0
  {
  }

  lemma CountOne(m: Msg, kind: string)
    ensures Count([m], kind) == if m.kind == kind then 1 else 0
    ensures Count([], kind) == 0
  {
    assert [] + [m] == [m];
    CountSnoc([], m, kind);
  }

  /** Every step of every goroutine keeps order, account, bounds, meters and closing discipline. */
  lemma StepKeepsFlow(s: Flow, e: Event, registered: set<string>)
    requires Enabled(s, e) && FlowOk(s, registered)
    ensures FlowOk(Step(s, e, registered), registered)
  {
    hide InOrder, Accounted, Metered, Supported;
    StepKeepsOrder(s, e, registered);
    StepKeepsAccount(s, e, registered);
    StepKeepsMeters(s, e, registered);
    if e.Route? {
      SupportedSnoc(s.routed, s.buf2[0], registered);
    }
  }

  lemma {:induction false} RunKeepsFlow(s: Flow, es: seq<Event>, registered: set<string>)
    requires Possible(s, es, registered) && FlowOk(s, registered)
    ensures FlowOk(Run(s, es, registered), registered)
    decreases |es|
  {
    hide FlowOk, Step, Enabled;
    if es == [] {
    } else {
      StepKeepsFlow(s, es[0], registered);
      RunKeepsFlow(Step(s, es[0], registered), es[1..], registered);
    }
  }

  /** In every interleaving the routed messages are read ones in order, and nothing is unaccounted for. */
  lemma PipelineSafe(capacity: nat, es: seq<Event>, registered: set<string>)
    requires Possible(Empty(capacity), es, registered)
    ensures FlowOk(Run(Empty(capacity), es, registered), registered)
  {
    RunKeepsFlow(Empty(capacity), es, registered);
  }

  // --- how it ends -------------------------------------------------------------------------------

  /** An upper bound on the steps that are left once the stream is closed. */
  function Remaining(s: Flow): nat {
    3 * |s.buf1| + 2 * |Held(s)| + |s.buf2| + (if s.closed2 then 0 else 1) + (if s.stopped then 0 else 1)
  }

  /** After the stream is closed every run is finite, at most Remaining steps long. */
  lemma {:induction false} DrainingEnds(s: Flow, es: seq<Event>, registered: set<string>)
    requires s.closed1 && Possible(s, es, registered)
    ensures |es| + Remaining(Run(s, es, registered)) <= Remaining(s)
    decreases |es|
  {
    if es == [] {
    } else {
      DrainingEnds(Step(s, es[0], registered), es[1..], registered);
    }
  }

  /** Until the router has stopped, some goroutine can go on: there is no deadlock. */
  lemma SomethingRuns(s: Flow, registered: set<string>) returns (e: Event)
    requires s.closed1 && !s.stopped && FlowOk(s, registered)
    ensures Enabled(s, e)
  {
    hide InOrder, Accounted, Metered, RoutedOk;
    e := if s.buf2 != [] then Route(false)
         else if s.closed2 then Stop
         else if s.hand.Some? then Forward
         else if s.buf1 != [] then Take
         else CloseOut;
  }

  /** When the router has stopped, every message that was read has been routed or dropped. */
  lemma Drained(capacity: nat, es: seq<Event>, registered: set<string>)
    requires Possible(Empty(capacity), es, registered) && Run(Empty(capacity), es, registered).stopped
    ensures var s := Run(Empty(capacity), es, registered);
      && multiset(s.read) == multiset(s.routed) + multiset(s.lost1) + multiset(s.lost2)
      && Subsequence(s.routed, s.read)
      && s.handled == Supported(s.routed, registered)
  {
    PipelineSafe(capacity, es, registered);
    var s := Run(Empty(capacity), es, registered);
    hide Subsequence, Supported, Metered;
    assert Line(s) == s.routed;
  }

  // --- the error meter ---------------------------------------------------------------------------

  /** What the processors answered, in order. */
  function Outcomes(es: seq<Event>): seq<bool> {
    if es == [] then [] else (if es[0].Route? then [es[0].failed] else []) + Outcomes(es[1..])
  }

  /** The positions of the routed messages that have a processor and made it fail. */
  function Failed(routed: seq<Msg>, outcomes: seq<bool>, registered: set<string>): set<nat>
    requires |routed| == |outcomes|
  {
    set i: nat | i < |routed| && outcomes[i] && routed[i].kind in registered
  }

  lemma FailedSnoc(routed: seq<Msg>, outcomes: seq<bool>, m: Msg, failed: bool, registered: set<string>)
    requires |routed| == |outcomes|
    ensures |Failed(routed + [m], outcomes + [failed], registered)|
         == |Failed(routed, outcomes, registered)| + if failed && m.kind in registered then 1 else 0
  {
    var before, after := Failed(routed, outcomes, registered), Failed(routed + [m], outcomes + [failed], registered);
    assert after == before + if failed && m.kind in registered then {|routed|} else {};
  }

  ghost predicate ErrorsOk(s: Flow, outcomes: seq<bool>, registered: set<string>) {
    |outcomes| == |s.routed| && s.publishErrors == |Failed(s.routed, outcomes, registered)|
  }

  lemma StepErrors(s: Flow, e: Event, before: seq<bool>, registered: set<string>)
    requires Enabled(s, e) && ErrorsOk(s, before, registered)
    ensures ErrorsOk(Step(s, e, registered), before + Outcomes([e]), registered)
  {
    hide Failed;
    assert Outcomes([e]) == (if e.Route? then [e.failed] else []) + Outcomes([]);
    if e.Route? {
      assert Outcomes([e]) == [e.failed];
      FailedSnoc(s.routed, before, s.buf2[0], e.failed, registered);
    } else {
      assert before + Outcomes([e]) == before;
    }
  }

  lemma OutcomesCons(before: seq<bool>, es: seq<Event>)
    requires es != []
    ensures before + Outcomes(es) == before + Outcomes([es[0]]) + Outcomes(es[1..])
  {
    assert [es[0]][1..] == [];
  }

  lemma {:induction false} ErrorsFrom(s: Flow, before: seq<bool>, es: seq<Event>, registered: set<string>)
    requires Possible(s, es, registered) && ErrorsOk(s, before, registered)
    ensures ErrorsOk(Run(s, es, registered), before + Outcomes(es), registered)
    decreases |es|
  {
    hide ErrorsOk, Step, Enabled;
    if es == [] {
      assert before + Outcomes(es) == before;
    } else {
      hide Outcomes;
      StepErrors(s, es[0], before, registered);
      ErrorsFrom(Step(s, es[0], registered), before + Outcomes([es[0]]), es[1..], registered);
      OutcomesCons(before, es);
    }
  }

  /** In every interleaving the error meter counts exactly the routed messages whose processor failed. */
  lemma ErrorsExact(capacity: nat, es: seq<Event>, registered: set<string>)
    requires Possible(Empty(capacity), es, registered)
    ensures var s := Run(Empty(capacity), es, registered);
      |Outcomes(es)| == |s.routed| && s.publishErrors == |Failed(s.routed, Outcomes(es), registered)|
  {
    assert [] + Outcomes(es) == Outcomes(es);
    ErrorsFrom(Empty(capacity), [], es, registered);
  }

  // --- no loss within capacity -------------------------------------------------------------------

  lemma {:induction false} ReadNeverShrinks(s: Flow, es: seq<Event>, registered: set<string>)
    requires Possible(s, es, registered)
    ensures |s.read| <= |Run(s, es, registered).read|
    decreases |es|
  {
    if es == [] {
    } else {
      ReadNeverShrinks(Step(s, es[0], registered), es[1..], registered);
    }
  }

  lemma {:induction false} NothingLostFrom(s: Flow, es: seq<Event>, registered: set<string>)
    requires Possible(s, es, registered) && FlowOk(s, registered) && s.lost1 == [] && s.lost2 == []
    requires |Run(s, es, registered).read| <= s.capacity
    ensures Run(s, es, registered).lost1 == [] && Run(s, es, registered).lost2 == []
    decreases |es|
  {
    hide FlowOk, Step, Enabled;
    if es == [] {
    } else {
      var s' := Step(s, es[0], registered);
      ReadNeverShrinks(s', es[1..], registered);
      StepLosesNothing(s, es[0], registered);
      StepKeepsFlow(s, es[0], registered);
      NothingLostFrom(s', es[1..], registered);
    }
  }

  lemma StepLosesNothing(s: Flow, e: Event, registered: set<string>)
    requires Enabled(s, e) && FlowOk(s, registered) && s.lost1 == [] && s.lost2 == []
    requires |Step(s, e, registered).read| <= s.capacity
    ensures var s' := Step(s, e, registered);
      s'.lost1 == [] && s'.lost2 == [] && s'.capacity == s.capacity
  {
    hide InOrder, Metered, RoutedOk;
    assert |s.read| == |Line(s)| by {
      assert |multiset(s.read)| == |multiset(Line(s))|;
    }
  }

  /** Whatever the interleaving, no more messages than a buffer holds are never dropped. */
  lemma NothingLost(capacity: nat, es: seq<Event>, registered: set<string>)
    requires Possible(Empty(capacity), es, registered)
    requires |Run(Empty(capacity), es, registered).read| <= capacity
    ensures Run(Empty(capacity), es, registered).lost1 == [] && Run(Empty(capacity), es, registered).lost2 == []
  {
    NothingLostFrom(Empty(capacity), es, registered);
  }
}
