/**
 * The per-day history a monitor keeps in its stored record
 * (api/main.go:834-889): the dates it was probed on, its state on each
 * date, and the SLA reports of those days, newest first and at most 90
 * of each.
 */
module History {
  import opened Wrappers
  import opened Sla

  /** The cap publishToNATS applies to every list. */
  const MaxDays := 90

  /** The state recorded when the probe reported none (`hr.Warn`). */
  const Warn := "warn"

  /** capSlice (api/main.go:948-953): the first `max` elements, or all of `s` when it is shorter. */
  function CapSlice<T>(s: seq<T>, max: nat): (r: seq<T>)
    ensures |r| <= max && |r| <= |s|
    ensures |s| <= max ==> r == s
    ensures |s| > max ==> |r| == max
    ensures r == s[..|r|]
  {
    if |s| > max then s[..max] else s
  }

  /** One history entry: a day's SLA report and the target it was measured against. */
  datatype Entry = Entry(report: Report, target: real)

  /**
   * What a stored record holds: dates, states and, when the stored SLA map
   * has a `history` list, that list.
   */
  datatype Record = Record(dates: seq<string>, states: seq<string>, history: Option<seq<Entry>>)

  /** The merged record, and whether the tracker was reset on the way (a new day began). */
  datatype Merged = Merged(record: Record, resetTracker: bool)

  /** The status written for today: the probe's first state, else "warn" (api/main.go:789-792). */
  function CurrentStatus(probeStates: seq<string>): (r: string)
    ensures probeStates != [] ==> r == probeStates[0]
    ensures probeStates == [] ==> r == Warn
  {
    if |probeStates| > 0 then probeStates[0] else Warn
  }

  /** A previous record takes part in the merge only when it has at least one date. */
  predicate HasDates(previous: Option<Record>) {
    previous.Some? && previous.value.dates != []
  }

  /**
   * The merge before capping. `previous` is the decoded stored record (None
   * when the read or decoding failed), `probeStates` the probe's state
   * list, `pending` the history already in the outgoing SLA map, `current`
   * the tracker's report and `target` its target.
   */
  function MergeUncapped(previous: Option<Record>, probeStates: seq<string>, pending: Option<seq<Entry>>,
                         today: string, current: Report, target: real): Merged
  {
    var status := CurrentStatus(probeStates);
    if HasDates(previous) then
      var stored := previous.value;
      if stored.dates[0] == today then
        var states := if |stored.states| > 0 then stored.states[0 := status] else [status];
        var history := match stored.history
          case Some(h) => if |h| > 0 then Some(h[0 := Entry(current, target)]) else Some(h)
          case None => None;
        Merged(Record(stored.dates, states, history), false)
      else
        // The tracker is reset, so the entry opening the new day is the zero report.
        var history := match stored.history
          case Some(h) => Some([Entry(ZeroReport, target)] + h)
          case None => pending;
        Merged(Record([today] + stored.dates, [status] + stored.states, history), true)
    else
      Merged(Record([today], probeStates, Some([Entry(current, target)])), false)
  }

  function CapRecord(r: Record): Record {
    Record(CapSlice(r.dates, MaxDays), CapSlice(r.states, MaxDays),
           match r.history case Some(h) => Some(CapSlice(h, MaxDays)) case None => None)
  }

  /** The history-merge block of publishToNATS (api/main.go:834-889). */
  function Merge(previous: Option<Record>, probeStates: seq<string>, pending: Option<seq<Entry>>,
                 today: string, current: Report, target: real): (m: Merged)
    ensures |m.record.dates| <= MaxDays && |m.record.states| <= MaxDays
    ensures m.record.history.Some? ==> |m.record.history.value| <= MaxDays
  {
    var u := MergeUncapped(previous, probeStates, pending, today, current, target);
    Merged(CapRecord(u.record), u.resetTracker)
  }

  /**
   * Each capped list is a prefix of the list before capping, and is the
   * whole of it when that list had at most 90 elements.
   */
  lemma MergeCapsToPrefix(previous: Option<Record>, probeStates: seq<string>, pending: Option<seq<Entry>>,
                          today: string, current: Report, target: real)
    ensures var u := MergeUncapped(previous, probeStates, pending, today, current, target).record;
            var m := Merge(previous, probeStates, pending, today, current, target).record;
            && m.dates == u.dates[..|m.dates|] && m.states == u.states[..|m.states|]
            && (|u.dates| <= MaxDays ==> m.dates == u.dates)
            && (|u.states| <= MaxDays ==> m.states == u.states)
            && m.history.Some? == u.history.Some?
            && (u.history.Some? ==> m.history.value == u.history.value[..|m.history.value|])
  {
  }

  /**
   * Same day (api/main.go:835-854): the dates are kept, only the first state
   * is replaced by today's status (or becomes the only one), the first
   * history entry becomes the current report, and the tracker is untouched.
   */
  lemma MergeSameDay(previous: Option<Record>, probeStates: seq<string>, pending: Option<seq<Entry>>,
                     today: string, current: Report, target: real)
    requires HasDates(previous) && previous.value.dates[0] == today
    ensures var stored := previous.value;
            var status := CurrentStatus(probeStates);
            var m := Merge(previous, probeStates, pending, today, current, target);
            && !m.resetTracker
            && m.record.dates == CapSlice(stored.dates, MaxDays)
            && m.record.states[0] == status
            && (stored.states != [] ==> m.record.states == CapSlice([status] + stored.states[1..], MaxDays))
            && (stored.states == [] ==> m.record.states == [status])
            && (stored.history.Some? && stored.history.value != []
                ==> m.record.history == Some(CapSlice([Entry(current, target)] + stored.history.value[1..], MaxDays)))
            && (stored.history.Some? && stored.history.value == [] ==> m.record.history == Some([]))
            && (stored.history.None? ==> m.record.history.None?)
  {
    var stored := previous.value;
    var status := CurrentStatus(probeStates);
    if stored.states != [] {
      assert stored.states[0 := status] == [status] + stored.states[1..];
    }
    if stored.history.Some? && stored.history.value != [] {
      var h := stored.history.value;
      assert h[0 := Entry(current, target)] == [Entry(current, target)] + h[1..];
    }
  }

  /**
   * New day (api/main.go:855-868): today and the current status are put in
   * front of the stored lists, the zero report opens the history, older days
   * beyond the 90th drop off the end, and the tracker is reset.
   */
  lemma MergeNewDay(previous: Option<Record>, probeStates: seq<string>, pending: Option<seq<Entry>>,
                    today: string, current: Report, target: real)
    requires HasDates(previous) && previous.value.dates[0] != today
    ensures var stored := previous.value;
            var m := Merge(previous, probeStates, pending, today, current, target);
            && m.resetTracker
            && m.record.dates == CapSlice([today] + stored.dates, MaxDays)
            && m.record.states == CapSlice([CurrentStatus(probeStates)] + stored.states, MaxDays)
            && (stored.history.Some? ==> m.record.history == Some(CapSlice([Entry(ZeroReport, target)] + stored.history.value, MaxDays)))
            && (|stored.dates| < MaxDays ==> m.record.dates[1..] == stored.dates)
            && (|stored.dates| >= MaxDays ==> m.record.dates[1..] == stored.dates[..MaxDays - 1])
  {
    var stored := previous.value;
    var full := [today] + stored.dates;
    if |stored.dates| >= MaxDays {
      assert full[..MaxDays][1..] == stored.dates[..MaxDays - 1];
    } else {
      assert full[1..] == stored.dates;
    }
  }

  /**
   * No usable previous record (api/main.go:869-879): the dates are just
   * today, the history is just the current report, and the states are the
   * probe's own.
   */
  lemma MergeFirstRecord(previous: Option<Record>, probeStates: seq<string>, pending: Option<seq<Entry>>,
                         today: string, current: Report, target: real)
    requires !HasDates(previous)
    ensures var m := Merge(previous, probeStates, pending, today, current, target);
            && !m.resetTracker
            && m.record.dates == [today]
            && m.record.history == Some([Entry(current, target)])
            && m.record.states == CapSlice(probeStates, MaxDays)
  {
  }

  /**
   * In every case the merged record is dated today first, and its first
   * state, if any, is today's status.
   */
  lemma MergeHeadIsToday(previous: Option<Record>, probeStates: seq<string>, pending: Option<seq<Entry>>,
                         today: string, current: Report, target: real)
    ensures var r := Merge(previous, probeStates, pending, today, current, target).record;
            && r.dates != [] && r.dates[0] == today
            && (r.states != [] ==> r.states[0] == CurrentStatus(probeStates))
            && (HasDates(previous) ==> r.states != [])
  {
  }

  /** Dates, states and history entries line up one per day. */
  predicate Aligned(r: Record) {
    |r.states| == |r.dates| && (r.history.Some? ==> |r.history.value| == |r.dates|)
  }

  /** A merge into an aligned record with a history list keeps it aligned. */
  lemma MergeKeepsAlignment(previous: Option<Record>, probeStates: seq<string>, pending: Option<seq<Entry>>,
                            today: string, current: Report, target: real)
    requires HasDates(previous) && Aligned(previous.value) && previous.value.history.Some?
    ensures Aligned(Merge(previous, probeStates, pending, today, current, target).record)
  {
  }

  /**
   * A first record is aligned only when the probe reports a single state:
   * the DNS probe's two states give one date and two states.
   */
  lemma FirstRecordCanMisalign(today: string, current: Report, target: real)
    ensures !Aligned(Merge(None, ["up", "up"], None, today, current, target).record)
  {
  }
}
