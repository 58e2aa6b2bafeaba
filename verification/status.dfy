/** The three-tier status label shown next to each rate in the log line. */
module Status {

  /** Status tiers, from worst to best. */
  datatype Tier = Slow | Good | Excellent

  /** Position of a tier in the order Slow < Good < Excellent. */
  function Rank(t: Tier): nat {
    match t
    case Slow => 0
    case Good => 1
    case Excellent => 2
  }

  /** Rates below this many KiB/s are Slow. */
  const GoodFrom: real := 50.0
  /** Rates of at least this many KiB/s are Excellent. */
  const ExcellentFrom: real := 200.0

  /** The band of rates a tier stands for, written as an interval of its own:
      [-inf, 50), [50, 200) and [200, +inf). */
  predicate InBand(speed: real, t: Tier) {
    match t
    case Slow => speed < GoodFrom
    case Good => GoodFrom <= speed < ExcellentFrom
    case Excellent => ExcellentFrom <= speed
  }

  /** The classifier: an if/elif/else chain over the two thresholds, total on
      every rate, negative ones included. */
  function NetworkStatus(speed: real): (t: Tier)
    ensures InBand(speed, t)
  {
    if speed < GoodFrom then Slow
    else if speed < ExcellentFrom then Good
    else Excellent
  }

  /** The bands partition the rates: a tier's band holds the speed exactly
      when that tier is the one the classifier returns. */
  lemma BandsPartition(speed: real, t: Tier)
    ensures InBand(speed, t) <==> NetworkStatus(speed) == t
  {
  }

  /** A faster rate never gets a worse label. */
  lemma StatusMonotone(a: real, b: real)
    requires a <= b
    ensures Rank(NetworkStatus(a)) <= Rank(NetworkStatus(b))
  {
  }

  /** The thresholds belong to the upper tier. */
  lemma StatusBoundaries()
    ensures NetworkStatus(49.99) == Slow
    ensures NetworkStatus(50.0) == Good
    ensures NetworkStatus(199.99) == Good
    ensures NetworkStatus(200.0) == Excellent
  {
  }
}
