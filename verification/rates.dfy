/** Rate computation: turning two cumulative byte-counter snapshots taken one
    interval apart into upload/download rates in KiB per second, and handing the
    current snapshot on as the baseline of the next sample. */
module Rates {

  /** Cumulative host-wide byte counters as read from the operating system.
      Python integers are unbounded, so the counters are plain naturals. */
  datatype Snapshot = Snapshot(bytesSent: nat, bytesRecv: nat)

  /** What one sample yields: the two rates and the snapshot just read, which
      becomes the baseline of the next sample. */
  datatype Speed = Speed(upload: real, download: real, next: Snapshot)

  /** Bytes per KiB: the divisor that turns bytes per second into KB/s. */
  const KiB: real := 1024.0

  /** The two directions a counter and a rate can measure. */
  datatype Direction = Up | Down

  /** The counter of a snapshot for one direction: bytes sent for Up, bytes
      received for Down. */
  function Counter(s: Snapshot, d: Direction): nat {
    match d
    case Up => s.bytesSent
    case Down => s.bytesRecv
  }

  /** Counter growth between two snapshots, as a signed integer: nothing is
      clamped, so a counter that went backwards gives a negative delta. */
  function Delta(prev: Snapshot, current: Snapshot, d: Direction): int {
    Counter(current, d) - Counter(prev, d)
  }

  /** One sample. The only demand on the caller is a non-zero interval
      (division by zero raises); any sign of the delta goes through. */
  function GetSpeed(prev: Snapshot, current: Snapshot, interval: real): (r: Speed)
    requires interval != 0.0
    ensures r.upload * (interval * KiB) == Delta(prev, current, Up) as real
    ensures r.download * (interval * KiB) == Delta(prev, current, Down) as real
    ensures r.next == current
  {
    var up := Delta(prev, current, Up) as real / interval / KiB;
    var down := Delta(prev, current, Down) as real / interval / KiB;
    Speed(up, down, current)
  }

  /** For a positive interval each rate is non-negative exactly when its
      counter did not decrease: there is no clamp, so a counter reset shows up
      as a negative rate. */
  lemma RateSignFollowsCounters(prev: Snapshot, current: Snapshot, interval: real)
    requires interval > 0.0
    ensures GetSpeed(prev, current, interval).upload >= 0.0 <==> current.bytesSent >= prev.bytesSent
    ensures GetSpeed(prev, current, interval).download >= 0.0 <==> current.bytesRecv >= prev.bytesRecv
  {
  }

  /** A counter that went backwards (5000 bytes down to 100) gives a negative
      upload rate rather than zero. */
  lemma CounterResetGivesNegativeRate()
    ensures GetSpeed(Snapshot(5000, 5000), Snapshot(100, 100), 1.0).upload < 0.0
    ensures GetSpeed(Snapshot(5000, 5000), Snapshot(100, 100), 1.0).download < 0.0
  {
  }

  /** 1024 bytes sent and 2096 bytes received over one second are 1 and
      2.046875 KiB/s. */
  lemma ExampleRates()
    ensures GetSpeed(Snapshot(1000, 2000), Snapshot(2024, 4096), 1.0)
         == Speed(1.0, 2.046875, Snapshot(2024, 4096))
  {
  }
}
