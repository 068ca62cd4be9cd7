/** Calendar quarters as the forecasting scripts use them: the continuous
    time index `year + (quarter - 1) / 4` and the quarter-by-quarter stepping
    of the forecast loop. */
module Quarters {

  datatype YearQuarter = YearQuarter(year: int, quarter: int)

  predicate ValidQuarter(q: int) {
    1 <= q <= 4
  }

  /** `year + (quarter - 1) / 4.0`. */
  function TimeIndex(year: int, quarter: int): real {
    year as real + (quarter - 1) as real / 4.0
  }

  function TimeIndexOf(p: YearQuarter): real {
    TimeIndex(p.year, p.quarter)
  }

  /** `(y1, q1)` comes strictly before `(y2, q2)` in the calendar. */
  predicate Before(y1: int, q1: int, y2: int, q2: int) {
    y1 < y2 || (y1 == y2 && q1 < q2)
  }

  /** For quarters 1 to 4 the time index orders periods exactly as the
      calendar does, and tells different periods apart. */
  lemma TimeIndexOrder(y1: int, q1: int, y2: int, q2: int)
    requires ValidQuarter(q1) && ValidQuarter(q2)
    ensures TimeIndex(y1, q1) < TimeIndex(y2, q2) <==> Before(y1, q1, y2, q2)
    ensures TimeIndex(y1, q1) == TimeIndex(y2, q2) <==> y1 == y2 && q1 == q2
  {
  }

  /** The quarter after `p`: Q4 rolls over to Q1 of the next year. */
  function NextQuarter(p: YearQuarter): (r: YearQuarter)
    ensures ValidQuarter(p.quarter) ==> ValidQuarter(r.quarter)
    ensures ValidQuarter(p.quarter) ==> TimeIndexOf(r) == TimeIndexOf(p) + 0.25
  {
    if p.quarter == 4 then YearQuarter(p.year + 1, 1) else YearQuarter(p.year, p.quarter + 1)
  }

  /** The quarter before `p`. */
  function PreviousQuarter(p: YearQuarter): YearQuarter {
    if p.quarter == 1 then YearQuarter(p.year - 1, 4) else YearQuarter(p.year, p.quarter - 1)
  }

  /** Stepping forward and back again returns to the same quarter. */
  lemma NextQuarterInverse(p: YearQuarter)
    requires ValidQuarter(p.quarter)
    ensures PreviousQuarter(NextQuarter(p)) == p
    ensures NextQuarter(PreviousQuarter(p)) == p
  {
  }

  /** The quarters the forecast loop visits, starting at `start`. */
  function Schedule(start: YearQuarter, steps: nat): (s: seq<YearQuarter>)
    ensures |s| == steps
    ensures steps > 0 ==> s[0] == start
    ensures forall i :: 0 < i < steps ==> s[i] == NextQuarter(s[i - 1])
    decreases steps
  {
    if steps == 0 then [] else [start] + Schedule(NextQuarter(start), steps - 1)
  }

  /** Entry `i > 0` of a schedule is entry `i - 1` of the schedule that
      starts one quarter later. */
  lemma ScheduleTail(start: YearQuarter, steps: nat, i: nat)
    requires 0 < i < steps
    ensures Schedule(start, steps)[i] == Schedule(NextQuarter(start), steps - 1)[i - 1]
  {
    assert Schedule(start, steps) == [start] + Schedule(NextQuarter(start), steps - 1);
  }

  /** From a valid start, `n` steps visit `n` consecutive valid quarters, a
      quarter of a year apart. */
  lemma {:induction false} ScheduleConsecutive(start: YearQuarter, steps: nat)
    requires ValidQuarter(start.quarter)
    ensures forall i :: 0 <= i < steps ==> ValidQuarter(Schedule(start, steps)[i].quarter)
    ensures forall i :: 0 <= i < steps ==>
      TimeIndexOf(Schedule(start, steps)[i]) == TimeIndexOf(start) + i as real / 4.0
    decreases steps
  {
    if steps > 0 {
      var next := NextQuarter(start);
      ScheduleConsecutive(next, steps - 1);
      var s := Schedule(start, steps);
      assert s == [start] + Schedule(next, steps - 1);
      forall i | 0 < i < steps
        ensures ValidQuarter(s[i].quarter)
        ensures TimeIndexOf(s[i]) == TimeIndexOf(start) + i as real / 4.0
      {
        assert s[i] == Schedule(next, steps - 1)[i - 1];
      }
    }
  }
}
