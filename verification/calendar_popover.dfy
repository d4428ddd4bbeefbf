/** The date-picker popover of the quote form: it builds the same
    jobs-by-date dictionary as the dashboard (the code is the same), reports
    the chosen dates, and labels its trigger button. */
module CalendarPopover {
  import opened Common
  import opened Domain
  import opened Grouping
  import Dashboard

  /** The popover's `jobsByDate`: same loops as the dashboard's. */
  method JobsByDate(jobs: seq<Job>, dayKey: Timestamp -> string) returns (groups: map<string, seq<Job>>)
    ensures NoEmptyGroup(groups)
    ensures forall k :: Lookup(groups, k) == Expected(jobs, Dashboard.KeysOf(dayKey), k)
    ensures forall k :: k in groups <==> exists i :: 0 <= i < |jobs| && k in Dashboard.KeysOf(dayKey)(jobs[i])
  {
    groups := Dashboard.JobsByDate(jobs, dayKey);
    GroupByKeys(jobs, Dashboard.KeysOf(dayKey));
    forall k ensures Lookup(groups, k) == Expected(jobs, Dashboard.KeysOf(dayKey), k) {
      GroupByLookup(jobs, Dashboard.KeysOf(dayKey), k);
    }
  }

  /** The popover's day cell, for any dictionary with the properties its
      `jobsByDate` guarantees: a count badge exactly when the day's reference
      list is non-empty, showing that list's length, and never a literal 0. */
  lemma DayContentSpec(jobs: seq<Job>, groups: map<string, seq<Job>>, dayKey: Timestamp -> string, day: Timestamp)
    requires NoEmptyGroup(groups)
    requires forall k :: Lookup(groups, k) == Expected(jobs, Dashboard.KeysOf(dayKey), k)
    ensures var mark := Dashboard.DayContent(groups, day, dayKey);
      && mark != Dashboard.ZeroText
      && (mark.CountBadge? <==> Expected(jobs, Dashboard.KeysOf(dayKey), dayKey(day)) != [])
      && (mark.CountBadge? ==> mark.count == |Expected(jobs, Dashboard.KeysOf(dayKey), dayKey(day))|)
  {
    assert Lookup(groups, dayKey(day)) == Expected(jobs, Dashboard.KeysOf(dayKey), dayKey(day));
  }

  /** `handleSelect`: the dates handed to `onDatesChange` when the calendar
      reports a selection (`None` when it reports `undefined`). */
  function HandleSelect(selected: Option<seq<Timestamp>>): (reported: seq<Timestamp>)
    ensures selected.None? ==> reported == []
    ensures selected.Some? ==> reported == selected.value
  {
    match selected
    case Some(ds) => ds
    case None => []
  }

  /** `getButtonText`; `longDate` is the long-date formatter. */
  function ButtonText(dates: seq<Timestamp>, longDate: Timestamp -> string): string {
    if |dates| == 0 then "Pick dates"
    else if |dates| == 1 then longDate(dates[0])
    else NatToString(|dates|) + " dates selected"
  }

  /** No dates: the prompt; one date: that date in long form; two or more:
      a label that names the count, which can be read back from it. */
  lemma ButtonTextSpec(dates: seq<Timestamp>, longDate: Timestamp -> string)
    ensures var t := ButtonText(dates, longDate);
      && (|dates| == 0 ==> t == "Pick dates")
      && (|dates| == 1 ==> t == longDate(dates[0]))
      && (|dates| >= 2 ==>
            && |t| > 15 && t[|t| - 15..] == " dates selected"
            && (forall i :: 0 <= i < |t| - 15 ==> '0' <= t[i] <= '9')
            && DigitsValue(t[..|t| - 15]) == |dates|)
  {
    if |dates| >= 2 {
      var t := ButtonText(dates, longDate);
      assert t[..|t| - 15] == NatToString(|dates|);
      NatToStringRoundTrip(|dates|);
    }
  }
}
