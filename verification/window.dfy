/**
 The subscriber's recent history: two parallel lists, `timestamps` and
 `values`, that start empty, grow by one entry per received sample and lose
 their oldest entry once they hold more than 100.
 */
module SlidingWindow {
  import opened Timestamps
  import opened Seqs

  /** How many samples the plot keeps. */
  const Capacity: nat := 100

  /** One received reading; the value is carried but never inspected. */
  datatype Sample<V> = Sample(timestamp: DateTime, value: V)

  /** The two parallel lists as the subscriber keeps them. */
  datatype Window<V> = Window(timestamps: seq<DateTime>, values: seq<V>)

  function Empty<V>(): (w: Window<V>)
    ensures Inv(w) && |w.timestamps| == 0
  {
    Window([], [])
  }

  /** Both lists have one entry per sample. */
  predicate Aligned<V>(w: Window<V>) {
    |w.timestamps| == |w.values|
  }

  /** The invariant the plotting loop keeps: aligned and within capacity. */
  predicate Inv<V>(w: Window<V>) {
    Aligned(w) && |w.timestamps| <= Capacity
  }

  /** The window read as one sequence of samples, oldest first. */
  function Samples<V>(w: Window<V>): (ss: seq<Sample<V>>)
    requires Aligned(w)
    ensures |ss| == |w.timestamps|
  {
    seq(|w.timestamps|, i requires 0 <= i < |w.timestamps| => Sample(w.timestamps[i], w.values[i]))
  }

  /** Reference definition: the last n elements of xs, or all of xs if there are fewer. */
  function Recent<T>(xs: seq<T>, n: nat): (r: seq<T>)
    ensures |r| == if |xs| <= n then |xs| else n
    ensures r == xs[|xs| - |r|..]
  {
    if |xs| <= n then xs else xs[|xs| - n..]
  }

  /**
   Appends one sample to both lists, then, if the timestamp list has grown past
   the capacity, drops the head of both. Only the timestamp list's length is
   checked, exactly as the plotting loop does.
   */
  function Push<V>(w: Window<V>, t: DateTime, v: V): (r: Window<V>)
    ensures |r.timestamps| > 0 && r.timestamps[|r.timestamps| - 1] == t
    ensures Aligned(w) ==> |r.values| > 0 && r.values[|r.values| - 1] == v
    ensures |r.timestamps| == if |w.timestamps| < Capacity then |w.timestamps| + 1 else |w.timestamps|
    ensures Aligned(w) ==> Aligned(r)
    ensures Inv(w) ==> Inv(r)
  {
    var ts := w.timestamps + [t];
    var vs := w.values + [v];
    if |ts| > Capacity then Window(ts[1..], vs[1..]) else Window(ts, vs)
  }

  /**
   Below capacity nothing is evicted and the sample lands at the tail; at
   capacity exactly the head entry of each list is evicted.
   */
  lemma PushEvictsOnlyWhenFull<V>(w: Window<V>, t: DateTime, v: V)
    requires Inv(w)
    ensures |w.timestamps| < Capacity ==>
              Push(w, t, v) == Window(w.timestamps + [t], w.values + [v])
    ensures |w.timestamps| == Capacity ==>
              Push(w, t, v) == Window(w.timestamps[1..] + [t], w.values[1..] + [v])
  {
    if |w.timestamps| == Capacity {
      assert (w.timestamps + [t])[1..] == w.timestamps[1..] + [t];
      assert (w.values + [v])[1..] == w.values[1..] + [v];
    }
  }

  /** Keeping the last n of a prefix and then extending it is the same as keeping the last n of the whole. */
  lemma {:induction false} RecentOfRecent<T>(xs: seq<T>, ys: seq<T>, n: nat)
    ensures Recent(Recent(xs, n) + ys, n) == Recent(xs + ys, n)
  {
    if |xs| > n {
      var a := Recent(xs, n);
      var p := xs[..|xs| - n];
      assert xs == p + a;
      assert xs + ys == p + (a + ys);
      var l := Recent(a + ys, n);
      var r := Recent(xs + ys, n);
      assert |l| == n == |r|;
      forall i | 0 <= i < n
        ensures l[i] == r[i]
      {
        assert l[i] == (a + ys)[|a + ys| - n + i];
        assert r[i] == (p + (a + ys))[|p| + |a + ys| - n + i];
      }
    }
  }

  /** Pushing onto a window keeps it equal to the last Capacity samples ever pushed. */
  lemma PushKeepsRecent<V>(w: Window<V>, t: DateTime, v: V)
    requires Inv(w)
    ensures Samples(Push(w, t, v)) == Recent(Samples(w) + [Sample(t, v)], Capacity)
  {
    var r := Push(w, t, v);
    var all := Samples(w) + [Sample(t, v)];
    var rec := Recent(all, Capacity);
    PushEvictsOnlyWhenFull(w, t, v);
    assert |Samples(r)| == |rec|;
    if |w.timestamps| < Capacity {
      forall i | 0 <= i < |rec|
        ensures Samples(r)[i] == rec[i]
      {
        if i < |w.timestamps| {
          assert rec[i] == Samples(w)[i];
        }
      }
    } else {
      forall i | 0 <= i < |rec|
        ensures Samples(r)[i] == rec[i]
      {
        assert rec[i] == all[i + 1];
        if i + 1 < |w.timestamps| {
          assert all[i + 1] == Samples(w)[i + 1];
        }
      }
    }
  }
}
