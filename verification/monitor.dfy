/** The monitoring loop: each tick takes a sample against the previous
    counter snapshot, hands the new snapshot on as the next baseline, appends
    the two rates and a timestamp to the rolling window and labels both rates.
    The counter read, the sleep and the clock are inputs: every tick consumes
    one Reading, which carries the counters just read and the timestamp label. */
module Monitor {
  import opened Rates
  import opened Status
  import opened Window

  /** The two settings the loop runs with. They are read once, before the
      loop starts, and stay fixed for every tick. */
  datatype Config = Config(interval: real, maxPoints: int)

  /** The ranges the settings panel allows: an interval of 0.5 to 5 seconds
      and a window of 10 to 200 points. */
  predicate ValidConfig(c: Config) {
    0.5 <= c.interval <= 5.0 && 10 <= c.maxPoints <= 200
  }

  /** What one tick gets from the outside world: the counters just read and
      the timestamp label of the moment. */
  datatype Reading<T> = Reading(counters: Snapshot, stamp: T)

  /** The loop's state: the previous snapshot and the three lists. */
  datatype State<T> = State(prev: Snapshot, series: Series<T>)

  /** Before the loop: one counter read and three empty lists. */
  function Start<T>(initial: Snapshot): (st: State<T>)
    ensures st.prev == initial
    ensures Aligned(st.series) && Len(st.series) == 0
  {
    State(initial, Empty())
  }

  /** The state after one tick plus the figures the log line shows. */
  datatype TickReport<T> = TickReport(state: State<T>, upload: real, download: real,
                                      upStatus: Tier, downStatus: Tier)

  /** One tick of the loop (sampling, storing, trimming and labelling). */
  function Step<T>(st: State<T>, rd: Reading<T>, c: Config): (o: TickReport<T>)
    requires c.interval != 0.0
    ensures o.state.prev == rd.counters
    ensures o.upload * (c.interval * KiB) == Delta(st.prev, rd.counters, Up) as real
    ensures o.download * (c.interval * KiB) == Delta(st.prev, rd.counters, Down) as real
    ensures Aligned(st.series) ==> Aligned(o.state.series)
    ensures Len(st.series) <= c.maxPoints ==> Len(o.state.series) <= c.maxPoints
    ensures Aligned(st.series) && Len(st.series) <= c.maxPoints
         ==> Entries(o.state.series)
             == LastN(Entries(st.series) + [Point(o.upload, o.download, rd.stamp)], c.maxPoints)
    ensures InBand(o.upload, o.upStatus) && InBand(o.download, o.downStatus)
  {
    var sp := GetSpeed(st.prev, rd.counters, c.interval);
    var series := Tick(st.series, sp.upload, sp.download, rd.stamp, c.maxPoints);
    TickReport(State(sp.next, series), sp.upload, sp.download,
               NetworkStatus(sp.upload), NetworkStatus(sp.download))
  }

  /** Ticks applied in order, one per reading. */
  function Loop<T>(st: State<T>, rds: seq<Reading<T>>, c: Config): (r: State<T>)
    requires c.interval != 0.0
    ensures |rds| > 0 ==> r.prev == rds[|rds| - 1].counters
    ensures |rds| == 0 ==> r == st
    ensures Aligned(st.series) ==> Aligned(r.series)
    ensures Len(st.series) <= c.maxPoints ==> Len(r.series) <= c.maxPoints
    decreases |rds|
  {
    if |rds| == 0 then st
    else Loop(Step(st, rds[0], c).state, rds[1..], c)
  }

  /** The baseline the i-th tick subtracts: the initial read for the first
      tick, the previous reading afterwards, because each tick hands the
      counters it read on to the next one. */
  function Baseline<T>(initial: Snapshot, rds: seq<Reading<T>>, i: nat): Snapshot
    requires i < |rds|
  {
    if i == 0 then initial else rds[i - 1].counters
  }

  /** The entries a run of readings produces, defined without the window:
      one sample per reading, each taken against the snapshot the previous
      sample returned. Entry i compares reading i with its baseline and
      carries reading i's timestamp. */
  function Samples<T>(prev: Snapshot, rds: seq<Reading<T>>, c: Config): (ps: seq<Point<T>>)
    requires c.interval != 0.0
    ensures |ps| == |rds|
    ensures forall i :: 0 <= i < |rds| ==> ps[i].stamp == rds[i].stamp
    decreases |rds|
  {
    if |rds| == 0 then []
    else
      var sp := GetSpeed(prev, rds[0].counters, c.interval);
      [Point(sp.upload, sp.download, rds[0].stamp)] + Samples(sp.next, rds[1..], c)
  }

  /** Entry i of the samples compares reading i with its baseline: the
      initial read for the first entry, the reading before it afterwards. */
  lemma {:induction false} SampleIsConsecutiveRate<T>(prev: Snapshot, rds: seq<Reading<T>>, c: Config, i: nat)
    requires c.interval != 0.0 && i < |rds|
    ensures Samples(prev, rds, c)[i].upload
         == GetSpeed(Baseline(prev, rds, i), rds[i].counters, c.interval).upload
    ensures Samples(prev, rds, c)[i].download
         == GetSpeed(Baseline(prev, rds, i), rds[i].counters, c.interval).download
    decreases i
  {
    var ps := Samples(prev, rds, c);
    if i > 0 {
      var rest := Samples(rds[0].counters, rds[1..], c);
      assert ps[i] == rest[i - 1];
      SampleIsConsecutiveRate(rds[0].counters, rds[1..], c, i - 1);
      assert Baseline(rds[0].counters, rds[1..], i - 1) == Baseline(prev, rds, i);
    }
  }

  /** The loop is the window fold over the samples: its lists are
      exactly what appending Samples one tick at a time produces. */
  lemma {:induction false} LoopIsRunOfSamples<T>(st: State<T>, rds: seq<Reading<T>>, c: Config)
    requires c.interval != 0.0
    ensures Loop(st, rds, c).series == Run(st.series, Samples(st.prev, rds, c), c.maxPoints)
    decreases |rds|
  {
    if |rds| > 0 {
      var o := Step(st, rds[0], c);
      var ps := Samples(st.prev, rds, c);
      assert ps[0] == Point(o.upload, o.download, rds[0].stamp);
      assert ps[1..] == Samples(o.state.prev, rds[1..], c);
      LoopIsRunOfSamples(o.state, rds[1..], c);
    }
  }

  /** From any state whose lists are aligned and within the bound, a run of
      ticks leaves the last maxPoints of the old entries followed by the new
      samples, oldest first. */
  lemma LoopKeepsLatestSamples<T>(st: State<T>, rds: seq<Reading<T>>, c: Config)
    requires c.interval != 0.0
    requires Aligned(st.series) && Len(st.series) <= c.maxPoints
    ensures Entries(Loop(st, rds, c).series)
         == LastN(Entries(st.series) + Samples(st.prev, rds, c), c.maxPoints)
  {
    LoopIsRunOfSamples(st, rds, c);
    RunKeepsLatest(st.series, Samples(st.prev, rds, c), c.maxPoints);
  }

  /** From the start state, after k ticks the chart holds the last
      min(k, maxPoints) samples, oldest first. */
  lemma LoopShowsLatestSamples<T>(initial: Snapshot, rds: seq<Reading<T>>, c: Config)
    requires c.interval != 0.0 && c.maxPoints >= 0
    ensures Len(Loop(Start(initial), rds, c).series) == Min(|rds|, c.maxPoints)
    ensures Entries(Loop(Start(initial), rds, c).series) == LastN(Samples(initial, rds, c), c.maxPoints)
  {
    LoopIsRunOfSamples(Start<T>(initial), rds, c);
    RunFromEmpty(Samples(initial, rds, c), c.maxPoints);
  }

  /** Counters that never go backwards over the run. */
  predicate CountersNeverDecrease<T>(initial: Snapshot, rds: seq<Reading<T>>) {
    forall i: nat :: i < |rds| ==>
      Baseline(initial, rds, i).bytesSent <= rds[i].counters.bytesSent &&
      Baseline(initial, rds, i).bytesRecv <= rds[i].counters.bytesRecv
  }

  /** Every entry has non-negative rates. */
  predicate RatesNonNegative<T>(ps: seq<Point<T>>) {
    forall i :: 0 <= i < |ps| ==> ps[i].upload >= 0.0 && ps[i].download >= 0.0
  }

  /** With counters that never go backwards, every sample is non-negative. */
  lemma SamplesNonNegative<T>(initial: Snapshot, rds: seq<Reading<T>>, c: Config)
    requires c.interval > 0.0
    requires CountersNeverDecrease(initial, rds)
    ensures RatesNonNegative(Samples(initial, rds, c))
  {
    var ps := Samples(initial, rds, c);
    forall i | 0 <= i < |ps|
      ensures ps[i].upload >= 0.0 && ps[i].download >= 0.0
    {
      SampleIsConsecutiveRate(initial, rds, c, i);
      RateSignFollowsCounters(Baseline(initial, rds, i), rds[i].counters, c.interval);
    }
  }

  lemma SuffixNonNegative<T>(ps: seq<Point<T>>, n: nat)
    requires RatesNonNegative(ps)
    ensures RatesNonNegative(LastN(ps, n))
  {
  }

  /** With counters that never go backwards, every rate the chart shows is
      non-negative. */
  lemma WindowRatesNonNegative<T>(initial: Snapshot, rds: seq<Reading<T>>, c: Config)
    requires ValidConfig(c)
    requires CountersNeverDecrease(initial, rds)
    ensures RatesNonNegative(Entries(Loop(Start(initial), rds, c).series))
  {
    SamplesNonNegative(initial, rds, c);
    LoopShowsLatestSamples(initial, rds, c);
    SuffixNonNegative(Samples(initial, rds, c), c.maxPoints);
  }

  /** The rate an entry records for one direction. */
  function Rate<T>(p: Point<T>, d: Direction): real {
    match d
    case Up => p.upload
    case Down => p.download
  }

  function Sum<T>(ps: seq<Point<T>>, d: Direction): real
    decreases |ps|
  {
    if |ps| == 0 then 0.0 else Rate(ps[0], d) + Sum(ps[1..], d)
  }

  lemma Distribute(a: real, b: real, c: real)
    ensures (a + b) * c == a * c + b * c
  {
  }

  /** Because every reading becomes the next baseline, no byte is counted
      twice or lost: in either direction, the rates of a run of samples,
      scaled back by the interval, add up to the growth of that direction's
      counter from the initial read to the last reading. */
  lemma {:induction false} SamplesAccountForEveryByte<T>(initial: Snapshot, rds: seq<Reading<T>>, c: Config, d: Direction)
    requires c.interval != 0.0
    requires |rds| > 0
    ensures Sum(Samples(initial, rds, c), d) * (c.interval * KiB)
         == Delta(initial, rds[|rds| - 1].counters, d) as real
    decreases |rds|
  {
    var ps := Samples(initial, rds, c);
    var k := c.interval * KiB;
    assert Rate(ps[0], d) * k == Delta(initial, rds[0].counters, d) as real;
    if |rds| == 1 {
      assert Sum(ps, d) == Rate(ps[0], d) + Sum(ps[1..], d);
      assert ps[1..] == [];
    } else {
      var rest := Samples(rds[0].counters, rds[1..], c);
      assert ps == [ps[0]] + rest;
      assert ps[1..] == rest;
      SamplesAccountForEveryByte(rds[0].counters, rds[1..], c, d);
      assert rds[1..][|rds[1..]| - 1] == rds[|rds| - 1];
      assert Sum(ps, d) == Rate(ps[0], d) + Sum(rest, d);
      Distribute(Rate(ps[0], d), Sum(rest, d), k);
    }
  }
}
