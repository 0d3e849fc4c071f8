/**
 The subscriber's data path: the message callback puts each decoded message on
 a FIFO queue, and every pass of the plotting loop takes messages off that
 queue until it is empty, parsing each one and pushing it into the window.

 The queue is a plain sequence, oldest message first, and the two threads are
 modelled as a single sequence of events. The laws of the drain are stated for
 any way of turning a message into a sample (a `Parser`); the subscriber's own
 is `ParseSample`. A message whose timestamp is missing
 or malformed, or whose value is missing, raises inside the plotting loop after
 it has been taken off the queue; the exception is not caught, so the loop
 stops for good. The model records that as a drain that ends in an error.
 */
module Subscriber {
  import opened Wrappers
  import opened Timestamps
  import opened SlidingWindow
  import opened Seqs

  /**
   A decoded message body: its "timestamp" and "value" entries. `None` stands
   for an entry that is missing (or, for the timestamp, is not a string).
   */
  datatype Message<V> = Message(timestamp: Option<string>, value: Option<V>)

  /** Why a queued message could not become a sample. */
  datatype SampleError = MissingTimestamp | BadTimestamp(text: string) | MissingValue

  /**
   Turns one queued message into a sample: the timestamp is looked up and parsed
   first, then the value is looked up, so a message that is wrong in both ways
   fails on its timestamp.
   */
  function ParseSample<V>(m: Message<V>): (r: Result<Sample<V>, SampleError>)
    ensures r.Ok? <==> m.timestamp.Some? && Parse(m.timestamp.value).Some? && m.value.Some?
    ensures r.Ok? ==> Parse(m.timestamp.value) == Some(r.value.timestamp)
    ensures r.Ok? ==> r.value.value == m.value.value
    ensures m.timestamp.None? ==> r == Err(MissingTimestamp)
    ensures m.timestamp.Some? && Parse(m.timestamp.value).None? ==> r == Err(BadTimestamp(m.timestamp.value))
  {
    match m.timestamp
    case None => Err(MissingTimestamp)
    case Some(text) =>
      match Parse(text)
      case None => Err(BadTimestamp(text))
      case Some(t) =>
        match m.value
        case None => Err(MissingValue)
        case Some(v) => Ok(Sample(t, v))
  }

  /**
   The message callback: a payload that decoded puts exactly one message at the
   tail of the queue; one that failed to decode (`None`) raises before the put
   and leaves the queue as it was.
   */
  function OnMessage<V>(pending: seq<Message<V>>, decoded: Option<Message<V>>): (q: seq<Message<V>>)
    ensures decoded.None? ==> q == pending
    ensures decoded.Some? ==> |q| == |pending| + 1 && q[..|pending|] == pending && q[|pending|] == decoded.value
  {
    match decoded
    case None => pending
    case Some(m) => pending + [m]
  }

  // ---------------------------------------------------------------------------
  // Draining the queue into the window

  /** A way of turning one queued message into a sample or an error. */
  type Parser<!V> = Message<V> -> Result<Sample<V>, SampleError>

  /**
   What one drain leaves behind: the window, the messages still queued, and the
   error that stopped the drain, if one did.
   */
  datatype Drained<V> = Drained(window: Window<V>, pending: seq<Message<V>>, error: Option<SampleError>)

  /**
   The inner loop of the plotting loop: take the oldest message, parse it, push
   it; repeat until the queue is empty. A message that fails to parse has
   already been taken off the queue, nothing of it is pushed, and the drain
   stops there.
   */
  function DrainQueue<V>(parse: Parser<V>, w: Window<V>, q: seq<Message<V>>): (r: Drained<V>)
    ensures |r.pending| <= |q| && r.pending == q[|q| - |r.pending|..]
    ensures r.error.None? ==> r.pending == []
    ensures r.error.Some? ==> |r.pending| < |q|
    ensures Inv(w) ==> Inv(r.window)
    decreases |q|
  {
    if |q| == 0 then Drained(w, [], None)
    else
      match parse(q[0])
      case Err(e) => Drained(w, q[1..], Some(e))
      case Ok(s) => DrainQueue(parse, Push(w, s.timestamp, s.value), q[1..])
  }

  /** Where a sequence of messages first fails to parse, and why. */
  datatype Failure = Failure(index: nat, error: SampleError)

  /**
   Reference definition for a drain: the samples a queue parses to, in queue
   order, or the first message that does not parse.
   */
  function ParseAll<V>(parse: Parser<V>, q: seq<Message<V>>): (r: Result<seq<Sample<V>>, Failure>)
    ensures r.Ok? ==> |r.value| == |q| && forall i :: 0 <= i < |q| ==> parse(q[i]) == Ok(r.value[i])
    ensures r.Err? ==> && r.error.index < |q|
                       && parse(q[r.error.index]) == Err(r.error.error)
                       && forall i :: 0 <= i < r.error.index ==> parse(q[i]).Ok?
    decreases |q|
  {
    if |q| == 0 then Ok([])
    else
      match parse(q[0])
      case Err(e) => Err(Failure(0, e))
      case Ok(s) =>
        match ParseAll(parse, q[1..])
        case Ok(ss) => Ok([s] + ss)
        case Err(f) => Err(Failure(f.index + 1, f.error))
  }

  /** A queue that parses splits into two parts that parse, to the two halves of its samples. */
  lemma {:induction false} ParseAllSplit<V>(parse: Parser<V>, a: seq<Message<V>>, b: seq<Message<V>>)
    requires ParseAll(parse, a + b).Ok?
    ensures ParseAll(parse, a).Ok? && ParseAll(parse, b).Ok?
    ensures ParseAll(parse, a + b).value == ParseAll(parse, a).value + ParseAll(parse, b).value
    decreases |a|
  {
    if |a| == 0 {
      ConcatEmpty(b, a);
    } else {
      assert (a + b)[0] == a[0];
      assert (a + b)[1..] == a[1..] + b;
      ParseAllSplit(parse, a[1..], b);
      ConcatAssoc([parse(a[0]).value], ParseAll(parse, a[1..]).value, ParseAll(parse, b).value);
    }
  }

  /**
   When every queued message parses, the drain empties the queue, reports no
   error, and leaves the window holding the last Capacity samples of the old
   window followed by the new ones, in queue order.
   */
  lemma {:induction false} DrainAllParsed<V>(parse: Parser<V>, w: Window<V>, q: seq<Message<V>>)
    requires Inv(w) && ParseAll(parse, q).Ok?
    ensures DrainQueue(parse, w, q).error.None? && DrainQueue(parse, w, q).pending == []
    ensures Samples(DrainQueue(parse, w, q).window) == Recent(Samples(w) + ParseAll(parse, q).value, Capacity)
    decreases |q|
  {
    if |q| == 0 {
      ConcatEmpty(Samples(w), ParseAll(parse, q).value);
    } else {
      var s := parse(q[0]).value;
      var ss := ParseAll(parse, q[1..]).value;
      var w1 := Push(w, s.timestamp, s.value);
      assert ParseAll(parse, q).value == [s] + ss;
      DrainAllParsed(parse, w1, q[1..]);
      PushKeepsRecent(w, s.timestamp, s.value);
      RecentOfRecent(Samples(w) + [s], ss, Capacity);
      ConcatAssoc(Samples(w), [s], ss);
    }
  }

  /**
   When some queued message does not parse, the drain stops at the first such
   message with its error: that message is gone from the queue, the messages
   after it stay queued, and the window holds only what the good messages
   before it added, so the bad message itself changes nothing.
   */
  lemma {:induction false} DrainStopsAtFailure<V>(parse: Parser<V>, w: Window<V>, q: seq<Message<V>>)
    requires Inv(w) && ParseAll(parse, q).Err?
    ensures var f := ParseAll(parse, q).error;
            && DrainQueue(parse, w, q).error == Some(f.error)
            && DrainQueue(parse, w, q).pending == q[f.index + 1..]
            && ParseAll(parse, q[..f.index]).Ok?
            && Samples(DrainQueue(parse, w, q).window)
               == Recent(Samples(w) + ParseAll(parse, q[..f.index]).value, Capacity)
    decreases |q|
  {
    var f := ParseAll(parse, q).error;
    var k := f.index;
    if parse(q[0]).Err? {
      assert k == 0;
      ConcatEmpty(Samples(w), ParseAll(parse, q[..0]).value);
    } else {
      var s := parse(q[0]).value;
      var tail := q[1..];
      var w1 := Push(w, s.timestamp, s.value);
      assert DrainQueue(parse, w, q) == DrainQueue(parse, w1, tail);
      assert ParseAll(parse, tail).Err? && ParseAll(parse, tail).error == Failure(k - 1, f.error);
      DrainStopsAtFailure(parse, w1, tail);
      var pre := ParseAll(parse, tail[..k - 1]).value;
      DropHead(q, k);
      DropHead(q, k + 1);
      assert q[..k][0] == q[0];
      assert ParseAll(parse, q[..k]) == Ok([s] + pre);
      PushKeepsRecent(w, s.timestamp, s.value);
      RecentOfRecent(Samples(w) + [s], pre, Capacity);
      ConcatAssoc(Samples(w), [s], pre);
    }
  }

  /**
   While the window has room for everything drained, every queued sample is
   appended exactly once, in queue order, and nothing is evicted.
   */
  lemma DrainAppendsEachOnce<V>(parse: Parser<V>, w: Window<V>, q: seq<Message<V>>)
    requires Inv(w) && ParseAll(parse, q).Ok? && |w.timestamps| + |q| <= Capacity
    ensures DrainQueue(parse, w, q).pending == []
    ensures Samples(DrainQueue(parse, w, q).window) == Samples(w) + ParseAll(parse, q).value
  {
    DrainAllParsed(parse, w, q);
  }

  /** 105 good messages drained into an empty window leave samples 6 to 105 of them. */
  lemma DrainKeepsLastHundred<V>(q: seq<Message<V>>)
    requires |q| == 105 && ParseAll(ParseSample, q).Ok?
    ensures |Samples(DrainQueue(ParseSample, Empty(), q).window)| == 100
    ensures Samples(DrainQueue(ParseSample, Empty(), q).window) == ParseAll(ParseSample, q).value[5..]
  {
    var e: Window<V> := Empty();
    DrainAllParsed(ParseSample, e, q);
    ConcatEmpty(ParseAll(ParseSample, q).value, Samples(e));
  }

  /**
   Draining a queue that had more messages put on its tail is draining the
   original queue, then (if that succeeded) the added messages; if the original
   drain stopped on an error, the added messages simply stay queued.
   */
  lemma {:induction false} DrainAppended<V>(parse: Parser<V>, w: Window<V>, a: seq<Message<V>>, b: seq<Message<V>>)
    ensures var r := DrainQueue(parse, w, a);
            DrainQueue(parse, w, a + b) ==
              if r.error.Some? then Drained(r.window, r.pending + b, r.error)
              else DrainQueue(parse, r.window, b)
    decreases |a|
  {
    if |a| == 0 {
      ConcatEmpty(b, a);
    } else {
      assert (a + b)[0] == a[0];
      assert (a + b)[1..] == a[1..] + b;
      match parse(a[0])
      case Err(e) =>
      case Ok(s) =>
        DrainAppended(parse, Push(w, s.timestamp, s.value), a[1..], b);
    }
  }

  // ---------------------------------------------------------------------------
  // The two threads as one sequence of events

  /** A payload delivered to the message callback, or one pass of the plotting loop. */
  datatype Event<V> = Delivered(decoded: Option<Message<V>>) | Tick

  /** The subscriber's data: the queue, the window, and the error that stopped the plotting loop, if any. */
  datatype State<V> = State(pending: seq<Message<V>>, window: Window<V>, crashed: Option<SampleError>)

  /** Both lists and the queue start empty. */
  function Start<V>(): (st: State<V>)
    ensures st.pending == [] && Inv(st.window) && Samples(st.window) == [] && st.crashed.None?
  {
    State([], Empty(), None)
  }

  /** One event. Once the plotting loop has died, the process is gone and nothing changes. */
  function Step<V>(parse: Parser<V>, st: State<V>, e: Event<V>): (st': State<V>)
    ensures st.crashed.Some? ==> st' == st
    ensures st.crashed.None? && e.Tick? ==> st'.crashed.Some? || st'.pending == []
    ensures Inv(st.window) ==> Inv(st'.window)
  {
    if st.crashed.Some? then st
    else
      match e
      case Delivered(d) => st.(pending := OnMessage(st.pending, d))
      case Tick =>
        var r := DrainQueue(parse, st.window, st.pending);
        State(r.pending, r.window, r.error)
  }

  /** A whole run: the events in the order they happened. */
  function Run<V>(parse: Parser<V>, st: State<V>, es: seq<Event<V>>): (st': State<V>)
    ensures Inv(st.window) ==> Inv(st'.window)
    decreases |es|
  {
    if |es| == 0 then st else Run(parse, Step(parse, st, es[0]), es[1..])
  }

  /**
   A message that fails to parse ends the plotting loop for good: from then on
   no delivery and no pass changes the queue, the window or the error.
   */
  lemma {:induction false} CrashIsFinal<V>(parse: Parser<V>, st: State<V>, es: seq<Event<V>>)
    requires st.crashed.Some?
    ensures Run(parse, st, es) == st
    decreases |es|
  {
    if |es| > 0 {
      CrashIsFinal(parse, Step(parse, st, es[0]), es[1..]);
    }
  }

  /** A pass of the loop over a queue whose first message does not parse stops the loop, window untouched. */
  lemma TickOnBadMessage<V>(parse: Parser<V>, st: State<V>)
    requires st.crashed.None? && |st.pending| > 0 && parse(st.pending[0]).Err?
    ensures Step(parse, st, Tick) == State(st.pending[1..], st.window, Some(parse(st.pending[0]).error))
  {
  }

  /** The messages one event puts on the queue. */
  function Enqueued<V>(e: Event<V>): seq<Message<V>> {
    if e.Delivered? && e.decoded.Some? then [e.decoded.value] else []
  }

  /** All messages a run puts on the queue, in order. */
  function Received<V>(es: seq<Event<V>>): seq<Message<V>>
    decreases |es|
  {
    if |es| == 0 then [] else Enqueued(es[0]) + Received(es[1..])
  }

  /**
   The relation between the messages d received so far and a live state: the
   queue holds the newest of them, and the window holds the last Capacity
   samples of all the older ones, in arrival order.
   */
  ghost predicate Consistent<V>(parse: Parser<V>, st: State<V>, d: seq<Message<V>>) {
    && st.crashed.None?
    && Inv(st.window)
    && |st.pending| <= |d|
    && st.pending == d[|d| - |st.pending|..]
    && ParseAll(parse, d[..|d| - |st.pending|]).Ok?
    && Samples(st.window) == Recent(ParseAll(parse, d[..|d| - |st.pending|]).value, Capacity)
  }

  /** Before anything is received, the empty queue and window are consistent with it. */
  lemma StartConsistent<V>(parse: Parser<V>)
    ensures Consistent(parse, Start(), [])
  {
    var empty: seq<Message<V>> := [];
    assert ParseAll(parse, empty[..0]) == Ok([]);
  }

  /** A delivery only lengthens the queue; the drained messages and the window stay as they were. */
  lemma DeliveredConsistent<V>(parse: Parser<V>, st: State<V>, d: seq<Message<V>>, dec: Option<Message<V>>)
    requires Consistent(parse, st, d)
    ensures Consistent(parse, Step(parse, st, Delivered(dec)), d + Enqueued(Delivered(dec)))
  {
    var e := Enqueued(Delivered(dec));
    var st' := Step(parse, st, Delivered(dec));
    var k := |d| - |st.pending|;
    assert st'.pending == st.pending + e;
    AppendSlices(d, e, k);
  }

  /** A pass of the plotting loop moves the whole queue into the window. */
  lemma TickConsistent<V>(parse: Parser<V>, st: State<V>, d: seq<Message<V>>)
    requires Consistent(parse, st, d) && ParseAll(parse, d).Ok?
    ensures Consistent(parse, Step(parse, st, Tick), d)
    ensures Step(parse, st, Tick).pending == []
  {
    var p := st.pending;
    var k := |d| - |p|;
    var drained := ParseAll(parse, d[..k]).value;
    assert ParseAll(parse, p).Ok? && ParseAll(parse, d).value == drained + ParseAll(parse, p).value by {
      SplitAt(d, k);
      ParseAllSplit(parse, d[..k], p);
    }
    var incoming := ParseAll(parse, p).value;
    var r := DrainQueue(parse, st.window, p);
    assert r.error.None? && r.pending == [] && Samples(r.window) == Recent(drained + incoming, Capacity) by {
      DrainAllParsed(parse, st.window, p);
      RecentOfRecent(drained, incoming, Capacity);
    }
    assert d[..|d|] == d by {
      SplitAt(d, k);
    }
    assert Step(parse, st, Tick) == State([], r.window, None);
  }

  lemma StepConsistent<V>(parse: Parser<V>, st: State<V>, d: seq<Message<V>>, e: Event<V>)
    requires Consistent(parse, st, d) && ParseAll(parse, d + Enqueued(e)).Ok?
    ensures Consistent(parse, Step(parse, st, e), d + Enqueued(e))
    ensures e.Tick? ==> Step(parse, st, e).pending == []
  {
    match e
    case Delivered(dec) =>
      DeliveredConsistent(parse, st, d, dec);
    case Tick =>
      ConcatEmpty(d, Enqueued(e));
      TickConsistent(parse, st, d);
  }

  lemma {:induction false} RunConsistent<V>(parse: Parser<V>, st: State<V>, d: seq<Message<V>>, es: seq<Event<V>>)
    requires Consistent(parse, st, d) && ParseAll(parse, d + Received(es)).Ok?
    ensures Consistent(parse, Run(parse, st, es), d + Received(es))
    ensures |es| > 0 && es[|es| - 1].Tick? ==> Run(parse, st, es).pending == []
    decreases |es|
  {
    if |es| == 0 {
      ConcatEmpty(d, Received(es));
    } else {
      var st1 := Step(parse, st, es[0]);
      var d1 := d + Enqueued(es[0]);
      var rest := es[1..];
      assert Run(parse, st, es) == Run(parse, st1, rest);
      assert d1 + Received(rest) == d + Received(es) by {
        ConcatAssoc(d, Enqueued(es[0]), Received(rest));
      }
      assert Consistent(parse, st1, d1) && (es[0].Tick? ==> st1.pending == []) by {
        ParseAllSplit(parse, d1, Received(rest));
        StepConsistent(parse, st, d, es[0]);
      }
      RunConsistent(parse, st1, d1, rest);
      if |es| == 1 {
        assert Run(parse, st, es) == st1;
      } else {
        assert es[|es| - 1] == rest[|rest| - 1];
      }
    }
  }

  /** Two queues that each parse still parse when one is put behind the other. */
  lemma {:induction false} ParseAllConcat<V>(parse: Parser<V>, a: seq<Message<V>>, b: seq<Message<V>>)
    requires ParseAll(parse, a).Ok? && ParseAll(parse, b).Ok?
    ensures ParseAll(parse, a + b).Ok?
    decreases |a|
  {
    if |a| == 0 {
      ConcatEmpty(b, a);
    } else {
      assert (a + b)[0] == a[0];
      assert (a + b)[1..] == a[1..] + b;
      ParseAllConcat(parse, a[1..], b);
    }
  }

  /**
   A pass of the loop that does not stop it moves the whole queue into the
   window, whether or not messages received later would parse.
   */
  lemma TickLive<V>(parse: Parser<V>, st: State<V>, d: seq<Message<V>>)
    requires Consistent(parse, st, d) && Step(parse, st, Tick).crashed.None?
    ensures Consistent(parse, Step(parse, st, Tick), d)
    ensures Step(parse, st, Tick).pending == []
  {
    var p := st.pending;
    var k := |d| - |p|;
    if ParseAll(parse, p).Err? {
      DrainStopsAtFailure(parse, st.window, p);
      assert false;
    }
    ParseAllConcat(parse, d[..k], p);
    SplitAt(d, k);
    TickConsistent(parse, st, d);
  }

  /**
   Every run whose plotting loop is still alive keeps the relation between
   the messages received and the state; no message is required to parse
   beyond those the loop has already drained.
   */
  /** One event that leaves the plotting loop alive keeps the state consistent with what was received. */
  lemma StepLive<V>(parse: Parser<V>, st: State<V>, d: seq<Message<V>>, e: Event<V>)
    requires Consistent(parse, st, d) && Step(parse, st, e).crashed.None?
    ensures Consistent(parse, Step(parse, st, e), d + Enqueued(e))
    ensures e.Tick? ==> Step(parse, st, e).pending == []
  {
    match e
    case Delivered(dec) =>
      DeliveredConsistent(parse, st, d, dec);
    case Tick =>
      ConcatEmpty(d, Enqueued(e));
      TickLive(parse, st, d);
  }

  lemma {:induction false} RunLive<V>(parse: Parser<V>, st: State<V>, d: seq<Message<V>>, es: seq<Event<V>>)
    requires Consistent(parse, st, d)
    ensures Run(parse, st, es).crashed.None? ==> Consistent(parse, Run(parse, st, es), d + Received(es))
    ensures Run(parse, st, es).crashed.None? && |es| > 0 && es[|es| - 1].Tick? ==> Run(parse, st, es).pending == []
    decreases |es|
  {
    if |es| == 0 {
      ConcatEmpty(d, Received(es));
    } else {
      var st1 := Step(parse, st, es[0]);
      var rest := es[1..];
      assert Run(parse, st, es) == Run(parse, st1, rest);
      if st1.crashed.Some? {
        CrashIsFinal(parse, st1, rest);
      } else {
        var d1 := d + Enqueued(es[0]);
        assert d1 + Received(rest) == d + Received(es) by {
          ConcatAssoc(d, Enqueued(es[0]), Received(rest));
        }
        assert Consistent(parse, st1, d1) && (es[0].Tick? ==> st1.pending == []) by {
          StepLive(parse, st, d, es[0]);
        }
        RunLive(parse, st1, d1, rest);
        if |es| == 1 {
          assert Run(parse, st, es) == st1;
        } else {
          assert es[|es| - 1] == rest[|rest| - 1];
        }
      }
    }
  }

  /**
   End to end, for every run whose plotting loop is still alive: the queue
   holds the newest received messages, every older one parsed, and the window
   holds the last Capacity of their samples in arrival order; right after a
   pass the queue is empty and the window holds the last Capacity samples
   ever received.
   */
  lemma LiveWindowKept<V>(es: seq<Event<V>>)
    ensures var st := Run(ParseSample, Start(), es);
            var d := Received(es);
            st.crashed.None? ==>
              && |st.pending| <= |d| && st.pending == d[|d| - |st.pending|..]
              && ParseAll(ParseSample, d[..|d| - |st.pending|]).Ok?
              && Samples(st.window) == Recent(ParseAll(ParseSample, d[..|d| - |st.pending|]).value, Capacity)
    ensures var st := Run(ParseSample, Start(), es);
            st.crashed.None? && |es| > 0 && es[|es| - 1].Tick? ==>
              && st.pending == []
              && ParseAll(ParseSample, Received(es)).Ok?
              && Samples(st.window) == Recent(ParseAll(ParseSample, Received(es)).value, Capacity)
  {
    StartConsistent<V>(ParseSample);
    ConcatEmpty(Received(es), []);
    RunLive(ParseSample, Start(), [], es);
    SplitAt(Received(es), 0);
  }

  /**
   End to end, when every received message parses, queued ones included: the
   plotting loop never stops, every received message is either still queued or was drained, the
   window holds the last Capacity drained samples in arrival order, and right
   after a pass of the loop the queue is empty and the window holds the last
   Capacity samples ever received.
   */
  lemma ArrivalOrderKept<V>(es: seq<Event<V>>)
    requires ParseAll(ParseSample, Received(es)).Ok?
    ensures var st := Run(ParseSample, Start(), es);
            var d := Received(es);
            && st.crashed.None?
            && |st.pending| <= |d| && st.pending == d[|d| - |st.pending|..]
            && Samples(st.window) == Recent(ParseAll(ParseSample, d[..|d| - |st.pending|]).value, Capacity)
    ensures |es| > 0 && es[|es| - 1].Tick? ==>
              && Run(ParseSample, Start(), es).pending == []
              && Samples(Run(ParseSample, Start(), es).window) == Recent(ParseAll(ParseSample, Received(es)).value, Capacity)
  {
    assert Run(ParseSample, Start(), es).crashed.None? by {
      StartConsistent<V>(ParseSample);
      ConcatEmpty(Received(es), []);
      RunConsistent(ParseSample, Start(), [], es);
    }
    LiveWindowKept(es);
  }
}
