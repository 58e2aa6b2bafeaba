/** The rolling window behind the chart: three parallel lists (upload rates,
    download rates, timestamps) that grow by one entry per tick and drop their
    oldest entry once they hold more than the configured number of points.
    Timestamps are opaque values of type T supplied by the caller. */
module Window {

  /** One synchronised entry of the three lists. */
  datatype Point<T> = Point(upload: real, download: real, stamp: T)

  /** The three lists as the loop keeps them. */
  datatype Series<T> = Series(uploads: seq<real>, downloads: seq<real>, stamps: seq<T>)

  function Empty<T>(): (s: Series<T>)
    ensures Aligned(s) && Len(s) == 0
  {
    Series([], [], [])
  }

  /** The parallel-list invariant: all three lists have the same length. */
  predicate Aligned<T>(s: Series<T>) {
    |s.uploads| == |s.downloads| && |s.downloads| == |s.stamps|
  }

  /** The length the eviction test looks at: that of the upload list. */
  function Len<T>(s: Series<T>): nat {
    |s.uploads|
  }

  /** The aligned lists read as one list of entries. */
  function Entries<T>(s: Series<T>): (ps: seq<Point<T>>)
    requires Aligned(s)
    ensures |ps| == Len(s)
  {
    seq(|s.uploads|, i requires 0 <= i < |s.uploads| =>
      Point(s.uploads[i], s.downloads[i], s.stamps[i]))
  }

  /** A list of entries split back into three parallel lists. */
  function OfEntries<T>(ps: seq<Point<T>>): (s: Series<T>)
    ensures Aligned(s) && Entries(s) == ps
  {
    Series(seq(|ps|, i requires 0 <= i < |ps| => ps[i].upload),
           seq(|ps|, i requires 0 <= i < |ps| => ps[i].download),
           seq(|ps|, i requires 0 <= i < |ps| => ps[i].stamp))
  }

  /** Splitting an aligned series into entries and back loses nothing. */
  lemma EntriesRoundTrip<T>(s: Series<T>)
    requires Aligned(s)
    ensures OfEntries(Entries(s)) == s
  {
  }

  /** An aligned series is determined by its entries. */
  lemma SeriesOfItsEntries<T>(s: Series<T>, ps: seq<Point<T>>)
    requires Aligned(s) && Entries(s) == ps
    ensures s == OfEntries(ps)
  {
    EntriesRoundTrip(s);
  }

  ghost predicate IsSuffix<X>(a: seq<X>, b: seq<X>) {
    |a| <= |b| && a == b[|b| - |a|..]
  }

  function Min(a: int, b: int): int {
    if a <= b then a else b
  }

  /** Reference definition of a bounded history: the last n items of xs,
      or all of them when there are fewer. */
  function LastN<X>(xs: seq<X>, n: nat): (r: seq<X>)
    ensures |r| == Min(|xs|, n)
    ensures IsSuffix(r, xs)
  {
    if |xs| <= n then xs else xs[|xs| - n..]
  }

  /** One tick: append one entry to each list, then, if the upload list has
      grown past maxPoints, drop the front of all three lists, once. */
  function Tick<T>(s: Series<T>, up: real, down: real, stamp: T, maxPoints: int): (r: Series<T>)
    ensures Aligned(s) ==> Aligned(r)
    ensures Len(s) < maxPoints ==> Len(r) == Len(s) + 1
    ensures Len(s) >= maxPoints ==> Len(r) == Len(s)
    ensures Len(s) <= maxPoints ==> Len(r) <= maxPoints
    ensures Aligned(s) ==> IsSuffix(Entries(r), Entries(s) + [Point(up, down, stamp)])
    ensures Aligned(s) && Len(r) > 0 ==> Entries(r)[Len(r) - 1] == Point(up, down, stamp)
    ensures Aligned(s) && Len(s) <= maxPoints
         ==> Entries(r) == LastN(Entries(s) + [Point(up, down, stamp)], maxPoints)
  {
    var grown := Series(s.uploads + [up], s.downloads + [down], s.stamps + [stamp]);
    if |grown.uploads| > maxPoints then
      Series(grown.uploads[1..], grown.downloads[1..], grown.stamps[1..])
    else
      grown
  }

  /** Ticks applied in order, one per entry of ps. */
  function Run<T>(s: Series<T>, ps: seq<Point<T>>, maxPoints: int): (r: Series<T>)
    ensures Aligned(s) ==> Aligned(r)
    ensures Len(s) <= maxPoints ==> Len(r) <= maxPoints
    ensures Len(s) == maxPoints ==> Len(r) == maxPoints
    decreases |ps|
  {
    if |ps| == 0 then s
    else Run(Tick(s, ps[0].upload, ps[0].download, ps[0].stamp, maxPoints), ps[1..], maxPoints)
  }

  /** Keeping the last n of a list and then of its extension is the same as
      keeping the last n of the extension. */
  lemma LastNOfExtension<X>(xs: seq<X>, ys: seq<X>, n: nat)
    ensures LastN(LastN(xs, n) + ys, n) == LastN(xs + ys, n)
  {
    var a := LastN(LastN(xs, n) + ys, n);
    var b := LastN(xs + ys, n);
    assert |a| == |b|;
    forall i | 0 <= i < |a|
      ensures a[i] == b[i]
    {
      var k := |LastN(xs, n) + ys| - |a| + i;
      if k < |LastN(xs, n)| {
        assert a[i] == LastN(xs, n)[k];
      } else {
        assert a[i] == ys[k - |LastN(xs, n)|];
      }
    }
  }

  lemma ConsSplit<X>(xs: seq<X>, ys: seq<X>)
    requires |ys| > 0
    ensures xs + [ys[0]] + ys[1..] == xs + ys
  {
  }

  /** Whatever the starting contents (within the bound), a run of ticks leaves
      the last maxPoints entries of the old contents followed by the appended
      ones, in order: eviction is first-in first-out. */
  lemma {:induction false} RunKeepsLatest<T>(s: Series<T>, ps: seq<Point<T>>, maxPoints: int)
    requires Aligned(s) && Len(s) <= maxPoints
    ensures Entries(Run(s, ps, maxPoints)) == LastN(Entries(s) + ps, maxPoints)
    decreases |ps|
  {
    if |ps| == 0 {
      assert Entries(s) + ps == Entries(s);
    } else {
      var p := ps[0];
      var t := Tick(s, p.upload, p.download, p.stamp, maxPoints);
      assert Run(s, ps, maxPoints) == Run(t, ps[1..], maxPoints);
      var xs := Entries(s) + [p];
      assert Entries(t) == LastN(xs, maxPoints);
      RunKeepsLatest(t, ps[1..], maxPoints);
      LastNOfExtension(xs, ps[1..], maxPoints);
      ConsSplit(Entries(s), ps);
    }
  }

  /** From empty lists, k ticks leave exactly the last min(k, maxPoints)
      appended entries, in the order they were appended: the three lists are
      those entries split into uploads, downloads and timestamps. */
  lemma RunFromEmpty<T>(ps: seq<Point<T>>, maxPoints: int)
    requires maxPoints >= 0
    ensures Len(Run(Empty(), ps, maxPoints)) == Min(|ps|, maxPoints)
    ensures Run(Empty(), ps, maxPoints) == OfEntries(LastN(ps, maxPoints))
  {
    var r := Run(Empty(), ps, maxPoints);
    RunKeepsLatest(Empty(), ps, maxPoints);
    assert Entries(Empty<T>()) + ps == ps;
    SeriesOfItsEntries(r, LastN(ps, maxPoints));
  }
}
