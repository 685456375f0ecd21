/**
 * The 90-day sliding SLA tracker of the uptime API (api/main.go:159-168,
 * 433-536): a ring of daily buckets of probed and down seconds, a cursor on
 * today's bucket, and the report built from their sums.
 *
 * Times are whole seconds since the Unix epoch. The pure functions on
 * `Window` say what each operation does; the class `SlidingSla` does it in
 * place on an array, and its methods are proved to agree with them.
 */
module Sla {
  import opened GoInt
  import opened Duration

  /** `minutes90d`: the number of daily buckets (and the step bound of `rotateTo`). */
  const Days: int := 90

  datatype Bucket = Bucket(totalSec: Int64, downSec: Int64)

  const EmptyBucket: Bucket := Bucket(0, 0)

  /** What a bucket means: down seconds are part of the probed seconds. */
  predicate Sound(b: Bucket) {
    0 <= b.downSec <= b.totalSec
  }

  predicate AllSound(bs: seq<Bucket>) {
    forall i :: 0 <= i < |bs| ==> Sound(bs[i])
  }

  predicate AllEmpty(bs: seq<Bucket>) {
    forall i :: 0 <= i < |bs| ==> bs[i] == EmptyBucket
  }

  /** `t.Truncate(24 * time.Hour)` on whole seconds: the start of the UTC day of `t`. */
  function TruncateToDay(t: int): (r: int)
    ensures r <= t < r + SecondsPerDay
    ensures r % SecondsPerDay == 0
  {
    t - t % SecondsPerDay
  }

  /** `t.Truncate(time.Minute)` on whole seconds: the start of the minute of `t`. */
  function TruncateToMinute(t: int): (r: int)
    ensures r <= t < r + SecondsPerMinute
    ensures r % SecondsPerMinute == 0
  {
    t - t % SecondsPerMinute
  }

  /** The state of a tracker, without its target and its last-update time. */
  datatype Window = Window(buckets: seq<Bucket>, idx: int, currentMinute: int)

  predicate WellShaped(w: Window) {
    |w.buckets| == Days && 0 <= w.idx < Days
  }

  // ------------------------------------------------------------ rotation

  /** The step, in 1..Days, at which advancing the cursor from `start` enters bucket `i`. */
  function EnteredAt(start: int, i: int): (j: int)
    requires 0 <= start < Days && 0 <= i < Days
    ensures 1 <= j <= Days
  {
    if i > start then i - start else i - start + Days
  }

  /**
   * The buckets after advancing the cursor `steps` times from `start`: more
   * than `Days` steps clear everything; otherwise exactly the buckets entered
   * are cleared (none when `steps <= 0`).
   */
  function Rotated(bs: seq<Bucket>, start: int, steps: int): (r: seq<Bucket>)
    requires |bs| == Days && 0 <= start < Days
    ensures |r| == Days
  {
    seq(Days, i requires 0 <= i < Days =>
      if steps > Days || EnteredAt(start, i) <= steps then EmptyBucket else bs[i])
  }

  /** The cursor after advancing `steps` times from `start`; back to 0 beyond `Days`. */
  function RotatedIdx(start: int, steps: int): (r: int)
    requires 0 <= start < Days
    ensures 0 <= r < Days
  {
    if steps > Days then 0
    else if steps <= 0 then start
    else if start + steps < Days then start + steps
    else start + steps - Days
  }

  /**
   * The number of days between two day starts, as `rotateTo` evidently means
   * to compute it: the elapsed time divided by 24 hours.
   */
  function DaySteps(elapsed: int): int {
    elapsed / SecondsPerDay
  }

  /**
   * The step count as api/main.go:448 computes it. Go's precedence makes
   * `d / 24 * time.Hour` mean `(d / 24) * time.Hour`: the elapsed time in
   * nanoseconds (saturated like `Time.Sub`), divided by 24, then multiplied
   * by 3.6e12 with int64 wrap-around.
   */
  function StepsAsWritten(elapsed: int): Int64 {
    var nanos := elapsed * NanosPerSecond;
    var d := if nanos > MaxInt64 then MaxInt64 else if nanos < MinInt64 then MinInt64 else nanos;
    Wrap64(Quo(d, 24) * NanosPerHour)
  }

  /** rotateTo (api/main.go:443-465) with the day count corrected (see `DaySteps`). */
  function RotateWindow(w: Window, now: int): (r: Window)
    requires WellShaped(w)
    ensures WellShaped(r)
  {
    var minNow := TruncateToDay(now);
    if minNow <= w.currentMinute then w
    else
      var steps := DaySteps(minNow - w.currentMinute);
      Window(Rotated(w.buckets, w.idx, steps), RotatedIdx(w.idx, steps), minNow)
  }

  /** rotateTo exactly as api/main.go:443-465 writes it, step count included. */
  function RotateWindowAsWritten(w: Window, now: int): (r: Window)
    requires WellShaped(w)
    ensures WellShaped(r)
  {
    var minNow := TruncateToDay(now);
    if minNow <= w.currentMinute then w
    else
      var steps := StepsAsWritten(minNow - w.currentMinute);
      Window(Rotated(w.buckets, w.idx, steps), RotatedIdx(w.idx, steps), minNow)
  }

  // ---------------------------------------------------------------- ticks

  /** `Duration.Round(m)` (saturating at the int64 bounds), for `m > 0`. */
  function RoundDuration(d: Int64, m: int): (r: Int64)
    requires 0 < m <= MaxInt64
  {
    var rem := Rem(d, m);
    if d < 0 then
      if -rem + -rem < m then d - rem
      else if d - m - rem >= MinInt64 then d - m - rem else MinInt64
    else
      if rem + rem < m then d - rem
      else if d + m - rem <= MaxInt64 then d + m - rem else MaxInt64
  }

  /**
   * `int64(interval.Round(time.Second).Seconds())`: the probe interval, given
   * in nanoseconds, in whole seconds, rounding halves away from zero.
   */
  function RoundToSeconds(interval: Int64): (inc: Int64)
    ensures interval >= 0 ==> inc >= 0
    ensures 0 <= interval <= MaxInt64 - NanosPerSecond
            ==> -NanosPerSecond / 2 <= interval - inc * NanosPerSecond < NanosPerSecond / 2
  {
    Quo(RoundDuration(interval, NanosPerSecond), NanosPerSecond)
  }

  /** Tick's update of today's bucket: int64 additions, down seconds only when down. */
  function Charge(b: Bucket, inc: Int64, isDown: bool): Bucket {
    Bucket(Wrap64(b.totalSec + inc), if isDown then Wrap64(b.downSec + inc) else b.downSec)
  }

  /** Tick (api/main.go:467-481): rotate to `now`, then charge the current bucket. */
  function TickWindow(w: Window, isDown: bool, interval: Int64, now: int): (r: Window)
    requires WellShaped(w)
    ensures WellShaped(r)
  {
    var rotated := RotateWindow(w, now);
    var inc := RoundToSeconds(interval);
    rotated.(buckets := rotated.buckets[rotated.idx := Charge(rotated.buckets[rotated.idx], inc, isDown)])
  }

  /**
   * A tick leaves the rotated window as it is except for today's bucket,
   * which gains the rounded interval as probed time and, only when down, as
   * down time.
   */
  lemma TickChargesCurrentBucket(w: Window, isDown: bool, interval: Int64, now: int)
    requires WellShaped(w)
    ensures var rotated := RotateWindow(w, now);
            var r := TickWindow(w, isDown, interval, now);
            && r.idx == rotated.idx && r.currentMinute == rotated.currentMinute
            && (forall i :: 0 <= i < Days && i != r.idx ==> r.buckets[i] == rotated.buckets[i])
            && r.buckets[r.idx].totalSec == Wrap64(rotated.buckets[r.idx].totalSec + RoundToSeconds(interval))
            && r.buckets[r.idx].downSec
               == if isDown then Wrap64(rotated.buckets[r.idx].downSec + RoundToSeconds(interval))
                  else rotated.buckets[r.idx].downSec
  {
  }

  /** NewSlidingSLA (api/main.go:433-441): every bucket empty, cursor 0, time truncated to the DAY. */
  function NewWindow(now: int): (r: Window)
    ensures WellShaped(r)
  {
    Window(seq(Days, _ => EmptyBucket), 0, TruncateToDay(now))
  }

  /** Reset (api/main.go:527-536): every bucket empty, cursor 0, time truncated to the MINUTE. */
  function ResetWindow(now: int): (r: Window)
    ensures WellShaped(r)
  {
    Window(seq(Days, _ => EmptyBucket), 0, TruncateToMinute(now))
  }

  // -------------------------------------------------------------- reports

  function SumTotal(bs: seq<Bucket>): int {
    if bs == [] then 0 else SumTotal(bs[..|bs| - 1]) + bs[|bs| - 1].totalSec
  }

  function SumDown(bs: seq<Bucket>): int {
    if bs == [] then 0 else SumDown(bs[..|bs| - 1]) + bs[|bs| - 1].downSec
  }

  /**
   * The integer and exact parts of the map `Snapshot` returns: the uptime
   * percentage (as an exact number; Go formats a float64 with "%.3f%%"),
   * the three duration texts and the breach flag.
   */
  datatype Report = Report(uptimePercent: real, upText: string, downText: string,
                           totalText: string, breached: bool)

  /** The report of an empty window (api/main.go:493-503). */
  const ZeroReport: Report := Report(100.0, "0s", "0s", "0s", false)

  /** The report Snapshot builds from the summed seconds (api/main.go:493-524). */
  function ReportFromSums(total: Int64, down: Int64, target: real): Report {
    if total <= 0 then
      Report(100.0, FormatDurationFull(0), FormatDurationFull(0), FormatDurationFull(0), false)
    else
      var up := Wrap64(total - down);
      Report(Availability(total, down) * 100.0, FormatDurationFull(up), FormatDurationFull(down),
             FormatDurationFull(total), Breached(total, down, target))
  }

  /** The fraction of a non-empty window that was up (api/main.go:505). */
  function Availability(total: Int64, down: Int64): real
    requires total > 0
  {
    1.0 - down as real / total as real
  }

  /** The breach test (api/main.go:513): any down time against a target of 100% or more, or availability below target. */
  function Breached(total: Int64, down: Int64, target: real): bool
    requires total > 0
  {
    (target >= 1.0 && down > 0) || Availability(total, down) < target
  }

  /** What Snapshot (api/main.go:483-525) reports for these buckets and target. */
  function ReportOf(bs: seq<Bucket>, target: real): Report {
    ReportFromSums(Wrap64(SumTotal(bs)), Wrap64(SumDown(bs)), target)
  }

  // ----------------------------------------------------------- the tracker

  class SlidingSla {
    var target: real
    var buckets: array<Bucket>
    var idx: int
    var currentMinute: int
    var lastUpdate: int

    ghost predicate Valid()
      reads this
    {
      buckets.Length == Days && 0 <= idx < Days
    }

    ghost function View(): (w: Window)
      reads this, buckets
      requires Valid()
      ensures WellShaped(w)
    {
      Window(buckets[..], idx, currentMinute)
    }

    /** NewSlidingSLA (api/main.go:433-441). */
    constructor (target: real, now: int)
      ensures Valid() && fresh(buckets)
      ensures View() == NewWindow(now)
      ensures this.target == target && lastUpdate == now
    {
      this.target := target;
      buckets := new Bucket[Days](_ => EmptyBucket);
      idx := 0;
      currentMinute := TruncateToDay(now);
      lastUpdate := now;
    }

    /** The in-place part of rotateTo (api/main.go:449-464), for a given step count. */
    method Advance(steps: int, minNow: int)
      requires Valid()
      modifies this, buckets
      ensures Valid() && buckets == old(buckets)
      ensures target == old(target) && lastUpdate == old(lastUpdate)
      ensures View() == Window(Rotated(old(buckets[..]), old(idx), steps), RotatedIdx(old(idx), steps), minNow)
    {
      if steps > Days {
        for i := 0 to buckets.Length
          modifies buckets
          invariant forall k :: 0 <= k < i ==> buckets[k] == EmptyBucket
        {
          buckets[i] := EmptyBucket;
        }
        idx := 0;
        currentMinute := minNow;
        return;
      }
      ghost var start := idx;
      var n := 0;
      while n < steps
        invariant buckets == old(buckets) && target == old(target)
        invariant lastUpdate == old(lastUpdate)
        invariant 0 <= n <= if steps > 0 then steps else 0
        invariant 0 <= idx < Days && idx == RotatedIdx(start, n)
        invariant forall k :: 0 <= k < Days ==>
                    buckets[k] == if EnteredAt(start, k) <= n then EmptyBucket else old(buckets[k])
      {
        idx := idx + 1;
        if idx >= buckets.Length {
          idx := 0;
        }
        buckets[idx] := EmptyBucket;
        n := n + 1;
      }
      currentMinute := minNow;
    }

    /** rotateTo (api/main.go:443-465), with the step count of `DaySteps`. */
    method RotateTo(now: int)
      requires Valid()
      modifies this, buckets
      ensures Valid() && buckets == old(buckets)
      ensures target == old(target) && lastUpdate == old(lastUpdate)
      ensures View() == RotateWindow(old(View()), now)
    {
      var minNow := TruncateToDay(now);
      if !(minNow > currentMinute) {
        return;
      }
      var steps := DaySteps(minNow - currentMinute);
      Advance(steps, minNow);
    }

    /** Tick (api/main.go:467-481); the clock reading and the interval are parameters. */
    method Tick(isDown: bool, interval: Int64, now: int)
      requires Valid()
      modifies this, buckets
      ensures Valid() && buckets == old(buckets) && target == old(target)
      ensures View() == TickWindow(old(View()), isDown, interval, now)
      ensures lastUpdate == now
    {
      RotateTo(now);
      ghost var rotated := View();
      var inc := RoundToSeconds(interval);
      buckets[idx] := buckets[idx].(totalSec := Wrap64(buckets[idx].totalSec + inc));
      if isDown {
        buckets[idx] := buckets[idx].(downSec := Wrap64(buckets[idx].downSec + inc));
      }
      assert buckets[..] == rotated.buckets[idx := Charge(rotated.buckets[idx], inc, isDown)];
      lastUpdate := now;
    }

    /** Snapshot (api/main.go:483-525): sums the buckets and builds the report. */
    method Snapshot() returns (r: Report)
      requires Valid()
      ensures r == ReportOf(buckets[..], target)
    {
      var total: Int64, down: Int64 := 0, 0;
      for i := 0 to buckets.Length
        invariant total == Wrap64(SumTotal(buckets[..i]))
        invariant down == Wrap64(SumDown(buckets[..i]))
      {
        assert buckets[..i + 1][..i] == buckets[..i];
        WrapAdd(SumTotal(buckets[..i]), buckets[i].totalSec);
        WrapAdd(SumDown(buckets[..i]), buckets[i].downSec);
        total := Wrap64(total + buckets[i].totalSec);
        down := Wrap64(down + buckets[i].downSec);
      }
      assert buckets[..buckets.Length] == buckets[..];
      r := ReportFromSums(total, down, target);
    }

    /** Reset (api/main.go:527-536). */
    method Reset(now: int)
      requires Valid()
      modifies this, buckets
      ensures Valid() && buckets == old(buckets) && target == old(target)
      ensures View() == ResetWindow(now) && lastUpdate == now
    {
      for i := 0 to buckets.Length
        modifies buckets
        invariant forall k :: 0 <= k < i ==> buckets[k] == EmptyBucket
      {
        buckets[i] := EmptyBucket;
      }
      idx := 0;
      currentMinute := TruncateToMinute(now);
      lastUpdate := now;
    }
  }

  // --------------------------------------------------------------- lemmas

  /** The cursor position `j` steps after `start`, in ring order. */
  function Step(start: int, j: int): int {
    (start + j) % Days
  }

  /**
   * Up to a full turn, rotation clears exactly the buckets the cursor
   * enters, one per step, leaves every other bucket as it was, and moves
   * the cursor cyclically by `steps`.
   */
  lemma RotatedClearsEnteredBuckets(bs: seq<Bucket>, start: int, steps: int)
    requires |bs| == Days && 0 <= start < Days && 0 <= steps <= Days
    ensures RotatedIdx(start, steps) == Step(start, steps)
    ensures forall j :: 1 <= j <= steps ==> Rotated(bs, start, steps)[Step(start, j)] == EmptyBucket
    ensures forall i :: 0 <= i < Days && (forall j :: 1 <= j <= steps ==> Step(start, j) != i)
                        ==> Rotated(bs, start, steps)[i] == bs[i]
  {
    forall j | 1 <= j <= steps
      ensures Rotated(bs, start, steps)[Step(start, j)] == EmptyBucket
    {
      assert EnteredAt(start, Step(start, j)) == j;
    }
    forall i | 0 <= i < Days && (forall j :: 1 <= j <= steps ==> Step(start, j) != i)
      ensures Rotated(bs, start, steps)[i] == bs[i]
    {
      var j := EnteredAt(start, i);
      assert Step(start, j) == i;
    }
  }

  /** Rotating by more than the window length clears the window and resets the cursor. */
  lemma RotatedBeyondWindow(bs: seq<Bucket>, start: int, steps: int)
    requires |bs| == Days && 0 <= start < Days && steps > Days
    ensures AllEmpty(Rotated(bs, start, steps)) && RotatedIdx(start, steps) == 0
  {
  }

  /** A time on the current day, or before it, leaves the window as it is. */
  lemma RotateSameDay(w: Window, now: int)
    requires WellShaped(w) && TruncateToDay(now) <= w.currentMinute
    ensures RotateWindow(w, now) == w
  {
  }

  /**
   * With the corrected day count, moving on by `k` whole days (at most a
   * full window) advances the cursor by `k` and clears the `k` buckets it
   * enters, keeping the history of the other days.
   */
  lemma RotateByDays(w: Window, k: int)
    requires WellShaped(w) && w.currentMinute % SecondsPerDay == 0
    requires 1 <= k <= Days
    ensures var r := RotateWindow(w, w.currentMinute + k * SecondsPerDay);
            && r.idx == Step(w.idx, k)
            && r.currentMinute == w.currentMinute + k * SecondsPerDay
            && (forall j :: 1 <= j <= k ==> r.buckets[Step(w.idx, j)] == EmptyBucket)
            && (forall i :: 0 <= i < Days && (forall j :: 1 <= j <= k ==> Step(w.idx, j) != i)
                            ==> r.buckets[i] == w.buckets[i])
  {
    var now := w.currentMinute + k * SecondsPerDay;
    assert TruncateToDay(now) == now;
    assert DaySteps(now - w.currentMinute) == k;
    RotatedClearsEnteredBuckets(w.buckets, w.idx, k);
  }

  /** The step count api/main.go:448 computes for one day. */
  lemma StepsAsWrittenOneDay()
    ensures StepsAsWritten(SecondsPerDay) == 143342396288008192
  {
  }

  /**
   * As written, the first tick of a new day sees far more than 90 steps and
   * clears the whole 90-day window: the history never holds more than a day.
   */
  lemma AsWrittenNextDayClearsWindow(w: Window)
    requires WellShaped(w) && w.currentMinute % SecondsPerDay == 0
    ensures var r := RotateWindowAsWritten(w, w.currentMinute + SecondsPerDay);
            AllEmpty(r.buckets) && r.idx == 0
  {
    var now := w.currentMinute + SecondsPerDay;
    assert TruncateToDay(now) == now;
    assert now - w.currentMinute == SecondsPerDay;
    StepsAsWrittenOneDay();
    RotatedBeyondWindow(w.buckets, w.idx, StepsAsWritten(SecondsPerDay));
  }

  /** With the corrected count the same day change keeps 89 days of history. */
  lemma NextDayKeepsHistory(w: Window)
    requires WellShaped(w) && w.currentMinute % SecondsPerDay == 0
    ensures var r := RotateWindow(w, w.currentMinute + SecondsPerDay);
            && r.idx == Step(w.idx, 1) && r.buckets[r.idx] == EmptyBucket
            && forall i :: 0 <= i < Days && i != r.idx ==> r.buckets[i] == w.buckets[i]
  {
    RotateByDays(w, 1);
  }

  /**
   * Reset keeps the time to the minute, not to the day, so the midnight
   * after a reset made later than the first minute of a day is less than a
   * day away: the cursor does not move and the new day shares bucket 0 with
   * the day of the reset, where a fresh tracker would move on to bucket 1.
   */
  lemma ResetDelaysNextDay(t: int)
    requires t % SecondsPerDay >= SecondsPerMinute
    ensures RotateWindow(ResetWindow(t), TruncateToDay(t) + SecondsPerDay).idx == 0
    ensures RotateWindow(NewWindow(t), TruncateToDay(t) + SecondsPerDay).idx == 1
  {
    var midnight := TruncateToDay(t) + SecondsPerDay;
    assert TruncateToDay(midnight) == midnight;
    assert 0 < midnight - TruncateToMinute(t) < SecondsPerDay;
  }

  /** Rotation keeps every bucket sound: cleared buckets are empty, the others unchanged. */
  lemma RotateKeepsSound(w: Window, now: int)
    requires WellShaped(w) && AllSound(w.buckets)
    ensures AllSound(RotateWindow(w, now).buckets)
  {
  }

  /**
   * With a non-negative interval and no int64 overflow, a tick keeps every
   * bucket's down seconds within its probed seconds.
   */
  lemma TickKeepsSound(w: Window, isDown: bool, interval: Int64, now: int)
    requires WellShaped(w) && AllSound(w.buckets)
    requires 0 <= interval
    requires forall i :: 0 <= i < Days ==> w.buckets[i].totalSec + RoundToSeconds(interval) <= MaxInt64
    ensures AllSound(TickWindow(w, isDown, interval, now).buckets)
  {
    var rotated := RotateWindow(w, now);
    RotateKeepsSound(w, now);
    var inc := RoundToSeconds(interval);
    assert rotated.buckets[rotated.idx].totalSec + inc <= MaxInt64 by {
      assert rotated.buckets[rotated.idx] == EmptyBucket
             || rotated.buckets[rotated.idx] == w.buckets[rotated.idx];
    }
  }

  lemma {:induction false} SumsOfEmpty(bs: seq<Bucket>)
    requires AllEmpty(bs)
    ensures SumTotal(bs) == 0 && SumDown(bs) == 0
  {
    if bs != [] {
      SumsOfEmpty(bs[..|bs| - 1]);
    }
  }

  lemma {:induction false} SumsOfSound(bs: seq<Bucket>)
    requires AllSound(bs)
    ensures 0 <= SumDown(bs) <= SumTotal(bs)
  {
    if bs != [] {
      SumsOfSound(bs[..|bs| - 1]);
    }
  }

  /** Right after Reset the window is empty, so Snapshot takes its zero branch. */
  lemma ResetReportsZero(now: int, target: real)
    ensures ReportOf(ResetWindow(now).buckets, target) == ZeroReport
  {
    SumsOfEmpty(ResetWindow(now).buckets);
  }

  /**
   * The duration texts of a report parse back to the summed seconds, so the
   * history roll-up that re-parses them (api/main.go:891-899) sees the
   * tracker's own numbers.
   */
  lemma ReportFromSumsRoundTrip(total: Int64, down: Int64, target: real)
    requires 0 <= down <= total
    ensures var r := ReportFromSums(total, down, target);
            && ParseDuration(r.totalText) == total
            && ParseDuration(r.downText) == down
            && ParseDuration(r.upText) == total - down
  {
    var r := ReportFromSums(total, down, target);
    if total == 0 {
      assert r.totalText == r.downText == r.upText == FormatDurationFull(0);
      ParseFormatRoundTrip(0);
    } else {
      var up: Int64 := total - down;
      assert Wrap64(total - down) == up;
      assert r.totalText == FormatDurationFull(total);
      assert r.downText == FormatDurationFull(down);
      assert r.upText == FormatDurationFull(up);
      ParseFormatRoundTrip(total);
      ParseFormatRoundTrip(down);
      ParseFormatRoundTrip(up);
    }
  }

  lemma ReportTextsRoundTrip(bs: seq<Bucket>, target: real)
    requires AllSound(bs) && SumTotal(bs) <= MaxInt64
    ensures var r := ReportOf(bs, target);
            && ParseDuration(r.totalText) == SumTotal(bs)
            && ParseDuration(r.downText) == SumDown(bs)
            && ParseDuration(r.upText) == SumTotal(bs) - SumDown(bs)
  {
    SumsOfSound(bs);
    ReportFromSumsRoundTrip(SumTotal(bs), SumDown(bs), target);
  }

  /**
   * Breach rules on sound buckets: with a target of 100% or more any down
   * second breaches the SLA; with no down seconds and a target of at most
   * 100% nothing does; an empty window never does.
   */
  lemma ReportBreach(bs: seq<Bucket>, target: real)
    requires AllSound(bs) && SumTotal(bs) <= MaxInt64
    ensures target >= 1.0 && SumDown(bs) > 0 ==> ReportOf(bs, target).breached
    ensures SumDown(bs) == 0 && target <= 1.0 ==> !ReportOf(bs, target).breached
    ensures SumTotal(bs) == 0 ==> ReportOf(bs, target) == ZeroReport
  {
    SumsOfSound(bs);
    var total, down := Wrap64(SumTotal(bs)), Wrap64(SumDown(bs));
    assert total == SumTotal(bs) && down == SumDown(bs);
    if total > 0 {
      assert ReportOf(bs, target).breached == Breached(total, down, target);
      if down == 0 {
        NoDownFullyAvailable(total);
      }
    }
  }

  /** A window without down time is fully available. */
  lemma NoDownFullyAvailable(total: Int64)
    requires total > 0
    ensures Availability(total, 0) == 1.0
  {
    assert 0 as real / total as real == 0.0;
  }

  /** Adding to a wrapped running sum is wrapping the full sum. */
  lemma WrapAdd(a: int, b: int)
    ensures Wrap64(Wrap64(a) + b) == Wrap64(a + b)
  {
    var q := (a - MinInt64) / TwoTo64;
    assert Wrap64(a) == a - q * TwoTo64;
    assert (a - q * TwoTo64 + b - MinInt64) % TwoTo64 == (a + b - MinInt64) % TwoTo64;
  }
}
