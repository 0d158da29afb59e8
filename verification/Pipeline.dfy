/** The collector's lossy pipeline: a reader, a forwarder and a router, joined by two bounded channels.

    Every atomic step of one of the three goroutines is a method of `Pipeline`, proved against `Step`;
    a run is any interleaving of such steps. */
module Pipeline {
  import opened Wrappers

  datatype Msg = Msg(data: string, kind: string)

  const DEFAULT_BUFFER_SIZE: nat := 10000

  function BufferSize(configured: int): (n: nat)
    ensures n > 0
  {
    if configured <= 0 then DEFAULT_BUFFER_SIZE else configured
  }

  // --- a channel ---------------------------------------------------------------------------------

  class Channel {
    const capacity: nat
    var buf: seq<Msg>
    var closed: bool

    constructor (capacity: nat)
      ensures this.capacity == capacity && buf == [] && !closed
    {
      this.capacity := capacity;
      buf, closed := [], false;
    }

    /** The non-blocking send of a select with a default branch. */
    method TrySend(m: Msg) returns (sent: bool)
      requires !closed
      modifies this`buf
      ensures sent <==> |old(buf)| < capacity
      ensures buf == if sent then old(buf) + [m] else old(buf)
    {
      sent := |buf| < capacity;
      if sent {
        buf := buf + [m];
      }
    }

    /** A receive that does not have to wait; None is a closed and drained channel. */
    method Receive() returns (m: Option<Msg>)
      requires buf != [] || closed
      modifies this`buf
      ensures old(buf) != [] ==> m == Some(old(buf)[0]) && buf == old(buf)[1..]
      ensures old(buf) == [] ==> m == None && buf == []
    {
      if buf == [] {
        return None;
      }
      m := Some(buf[0]);
      buf := buf[1..];
    }

    method Close()
      requires !closed
      modifies this`closed
      ensures closed
    {
      closed := true;
    }
  }

  // --- the state machine -------------------------------------------------------------------------

  /** How many messages of each type a metric has counted. */
  type Counter = map<string, nat>

  function Value(c: Counter, kind: string): nat {
    if kind in c then c[kind] else 0
  }

  function Inc(c: Counter, kind: string): Counter {
    c[kind := Value(c, kind) + 1]
  }

  /** The state, and the ledgers `read`, `lost1`, `lost2` and `routed` that no goroutine looks at. */
  datatype Flow = Flow(capacity: nat,
                       buf1: seq<Msg>, closed1: bool, hand: Option<Msg>, buf2: seq<Msg>, closed2: bool, stopped: bool,
                       messages: Counter, drops: Counter, publishErrors: nat,
                       read: seq<Msg>, lost1: seq<Msg>, lost2: seq<Msg>, routed: seq<Msg>, handled: seq<Msg>)

  function Empty(capacity: nat): Flow {
    Flow(capacity, [], false, None, [], false, false, map[], map[], 0, [], [], [], [], [])
  }

  /** Read and CloseStream are the reader's, Take, Forward and CloseOut the forwarder's, Route and Stop
      the router's; `failed` is the processor's error result. */
  datatype Event = Read(m: Msg) | CloseStream | Take | Forward | CloseOut | Route(failed: bool) | Stop

  predicate Enabled(s: Flow, e: Event) {
    match e
    case Read(_) => !s.closed1
    case CloseStream => !s.closed1
    case Take => s.hand.None? && s.buf1 != []
    case Forward => s.hand.Some? && !s.closed2
    case CloseOut => s.hand.None? && s.buf1 == [] && s.closed1 && !s.closed2
    case Route(_) => !s.stopped && s.buf2 != []
    case Stop => !s.stopped && s.buf2 == [] && s.closed2
  }

  function Step(s: Flow, e: Event, registered: set<string>): Flow
    requires Enabled(s, e)
  {
    match e
    case Read(m) =>
      if |s.buf1| < s.capacity then s.(read := s.read + [m], buf1 := s.buf1 + [m])
      else s.(read := s.read + [m], lost1 := s.lost1 + [m])
    case CloseStream => s.(closed1 := true)
    case Take => s.(hand := Some(s.buf1[0]), buf1 := s.buf1[1..], messages := Inc(s.messages, s.buf1[0].kind))
    case Forward =>
      if |s.buf2| < s.capacity then s.(hand := None, buf2 := s.buf2 + [s.hand.value])
      else s.(hand := None, lost2 := s.lost2 + [s.hand.value], drops := Inc(s.drops, s.hand.value.kind))
    case CloseOut => s.(closed2 := true)
    case Route(failed) =>
      var m := s.buf2[0];
      s.(buf2 := s.buf2[1..], routed := s.routed + [m],
         handled := if m.kind in registered then s.handled + [m] else s.handled,
         publishErrors := s.publishErrors + if m.kind in registered && failed then 1 else 0)
    case Stop => s.(stopped := true)
  }

  // --- the goroutines ----------------------------------------------------------------------------

  class Pipeline {
    const stream: Channel
    const out: Channel
    var processors: set<string>
    var hand: Option<Msg>
    var stopped: bool
    var messages: Counter
    var drops: Counter
    var publishErrors: nat
    ghost var read: seq<Msg>
    ghost var lost1: seq<Msg>
    ghost var lost2: seq<Msg>
    ghost var routed: seq<Msg>
    ghost var handled: seq<Msg>

    /** The second channel is as large as the first. */
    constructor (bufferSize: int)
      ensures Valid() && State() == Empty(BufferSize(bufferSize)) && processors == {}
      ensures stream.capacity == out.capacity == if bufferSize > 0 then bufferSize else 10_000
      ensures fresh(stream) && fresh(out)
    {
      stream := new Channel(BufferSize(bufferSize));
      out := new Channel(BufferSize(bufferSize));
      processors, hand, stopped := {}, None, false;
      messages, drops, publishErrors := map[], map[], 0;
      read, lost1, lost2, routed, handled := [], [], [], [], [];
    }

    ghost predicate Valid()
    {
      stream != out && stream.capacity == out.capacity
    }

    ghost function State(): Flow
      reads this, stream, out
    {
      Flow(stream.capacity, stream.buf, stream.closed, hand, out.buf, out.closed, stopped,
           messages, drops, publishErrors, read, lost1, lost2, routed, handled)
    }

    method Register(kind: string)
      modifies this`processors
      ensures processors == old(processors) + {kind}
    {
      processors := processors + {kind};
    }

    /** One round of the read loop. */
    method ReadMessage(m: Msg)
      requires Valid() && Enabled(State(), Read(m))
      modifies this`read, this`lost1, stream
      ensures State() == Step(old(State()), Read(m), processors)
      ensures if |old(stream.buf)| < stream.capacity then stream.buf == old(stream.buf) + [m] && lost1 == old(lost1)
              else stream.buf == old(stream.buf) && lost1 == old(lost1) + [m]
    {
      var sent := stream.TrySend(m);
      read := read + [m];
      if !sent {
        lost1 := lost1 + [m];
      }
    }

    method EndReading()
      requires Valid() && Enabled(State(), CloseStream)
      modifies stream
      ensures State() == Step(old(State()), CloseStream, processors)
      ensures stream.closed && out.closed == old(out.closed)
    {
      stream.Close();
    }

    /** The forwarder receives a message, counts it, and holds it. */
    method TakeMessage()
      requires Valid() && Enabled(State(), Take)
      modifies this`hand, this`messages, stream
      ensures State() == Step(old(State()), Take, processors)
      ensures hand == Some(old(stream.buf)[0]) && stream.buf == old(stream.buf)[1..]
      ensures var k := hand.value.kind;
        messages == old(messages)[k := 1 + if k in old(messages) then old(messages)[k] else 0]
    {
      hand := stream.Receive();
      messages := Inc(messages, hand.value.kind);
    }

    /** It hands the message on, or drops and counts it. */
    method ForwardMessage()
      requires Valid() && Enabled(State(), Forward)
      modifies this`hand, this`drops, this`lost2, out
      ensures State() == Step(old(State()), Forward, processors)
      ensures hand == None
      ensures var m := old(hand.value);
        if |old(out.buf)| < out.capacity then out.buf == old(out.buf) + [m] && drops == old(drops)
        else
          && out.buf == old(out.buf) && lost2 == old(lost2) + [m]
          && drops == old(drops)[m.kind := 1 + if m.kind in old(drops) then old(drops)[m.kind] else 0]
    {
      var m := hand.value;
      hand := None;
      var sent := out.TrySend(m);
      if !sent {
        drops := Inc(drops, m.kind);
        lost2 := lost2 + [m];
      }
    }

    method EndForwarding()
      requires Valid() && Enabled(State(), CloseOut)
      modifies out
      ensures State() == Step(old(State()), CloseOut, processors)
      ensures out.closed && stream.closed
    {
      out.Close();
    }

    /** One round of the router: unsupported types are skipped, errors are counted, nothing stops it. */
    method RouteMessage(failed: bool)
      requires Valid() && Enabled(State(), Route(failed))
      modifies this`routed, this`handled, this`publishErrors, out
      ensures State() == Step(old(State()), Route(failed), processors)
      ensures out.buf == old(out.buf)[1..] && routed == old(routed) + [old(out.buf)[0]]
      ensures handled == old(handled) + if old(out.buf)[0].kind in processors then [old(out.buf)[0]] else []
      ensures publishErrors == old(publishErrors) + if old(out.buf)[0].kind in processors && failed then 1 else 0
    {
      var received := out.Receive();
      var m := received.value;
      routed := routed + [m];
      if m.kind in processors {
        handled := handled + [m];
        if failed {
          publishErrors := publishErrors + 1;
        }
      }
    }

    method EndRouting()
      requires Valid() && Enabled(State(), Stop)
      modifies this`stopped
      ensures State() == Step(old(State()), Stop, processors)
      ensures stopped
    {
      stopped := true;
    }
  }
}
