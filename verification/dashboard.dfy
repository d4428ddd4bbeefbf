/** The dashboard page: the jobs-by-date dictionary built from the jobs'
    dates, the list shown for the selected day, and the per-day count badge.
    `dayKey` is the `yyyy-MM-dd` formatter, left uninterpreted. */
module Dashboard {
  import opened Common
  import opened Domain
  import opened Grouping

  /** The day keys of one job: the formatted day of each of its dates, and
      none at all when its `dates` is not an array. */
  function DayKeys(job: Job, dayKey: Timestamp -> string): (r: seq<string>)
    ensures |r| == |DatesOf(job)|
    ensures forall i :: 0 <= i < |r| ==> r[i] == dayKey(DatesOf(job)[i])
  {
    var ds := DatesOf(job);
    seq(|ds|, i requires 0 <= i < |ds| => dayKey(ds[i]))
  }

  function KeysOf(dayKey: Timestamp -> string): Job -> seq<string> {
    job => DayKeys(job, dayKey)
  }

  /** The number of dates over all jobs (non-array `dates` count as none). */
  function DateCount(jobs: seq<Job>): nat {
    if jobs == [] then 0 else DateCount(jobs[..|jobs| - 1]) + |DatesOf(jobs[|jobs| - 1])|
  }

  /** The two nested `forEach` loops that fill the `groups` dictionary. */
  method JobsByDate(jobs: seq<Job>, dayKey: Timestamp -> string) returns (groups: map<string, seq<Job>>)
    ensures groups == GroupBy(jobs, KeysOf(dayKey))
  {
    groups := map[];
    var i := 0;
    while i < |jobs|
      invariant 0 <= i <= |jobs|
      invariant groups == GroupBy(jobs[..i], KeysOf(dayKey))
    {
      var job := jobs[i];
      var jobDates := if job.dates.Some? then job.dates.value else [];
      ghost var before := groups;
      ghost var keys := KeysOf(dayKey)(job);
      var n := 0;
      while n < |jobDates|
        invariant 0 <= n <= |jobDates| == |keys|
        invariant groups == PushAll(before, keys[..n], job)
      {
        var dateStr := dayKey(jobDates[n]);
        ghost var prev := groups;
        if dateStr !in groups {
          groups := groups[dateStr := []];
        }
        groups := groups[dateStr := groups[dateStr] + [job]];
        assert groups == Push(prev, dateStr, job);
        assert dateStr == keys[n];
        assert keys[..n + 1][..n] == keys[..n];
        assert PushAll(before, keys[..n + 1], job) == Push(PushAll(before, keys[..n], job), keys[n], job);
        n := n + 1;
      }
      assert keys[..n] == keys;
      assert jobs[..i + 1][..i] == jobs[..i];
      assert GroupBy(jobs[..i + 1], KeysOf(dayKey)) == PushAll(GroupBy(jobs[..i], KeysOf(dayKey)), keys, job);
      i := i + 1;
    }
    assert jobs[..i] == jobs;
  }

  /** `selectedJobs`: nothing when no day is selected, otherwise the list
      under the selected day's key or nothing. */
  function SelectedJobs(groups: map<string, seq<Job>>, date: Option<Timestamp>, dayKey: Timestamp -> string): seq<Job> {
    match date
    case None => []
    case Some(d) => Selected(groups, Some(dayKey(d)))
  }

  /** What a calendar cell shows beside its day number: nothing when the day
      has no entry, a literal `0` when its entry is an empty list (the
      `count && ...` idiom renders a zero), otherwise the count badge. */
  datatype DayMark = NoMark | ZeroText | CountBadge(count: nat)

  function DayContent(groups: map<string, seq<Job>>, day: Timestamp, dayKey: Timestamp -> string): DayMark {
    var k := dayKey(day);
    if k !in groups then NoMark
    else if |groups[k]| == 0 then ZeroText
    else CountBadge(|groups[k]|)
  }

  /** The days the calendar highlights (`Object.keys(jobsByDate)`). */
  function HasJobsKeys(groups: map<string, seq<Job>>): set<string> {
    groups.Keys
  }

  predicate HasDateOn(job: Job, k: string, dayKey: Timestamp -> string) {
    exists i :: 0 <= i < |DatesOf(job)| && dayKey(DatesOf(job)[i]) == k
  }

  lemma KeysOfMeaning(job: Job, k: string, dayKey: Timestamp -> string)
    ensures k in KeysOf(dayKey)(job) <==> HasDateOn(job, k, dayKey)
  {
    var keys := KeysOf(dayKey)(job);
    if k in keys {
      var i :| 0 <= i < |keys| && keys[i] == k;
      assert dayKey(DatesOf(job)[i]) == k;
    }
    if HasDateOn(job, k, dayKey) {
      var i :| 0 <= i < |DatesOf(job)| && dayKey(DatesOf(job)[i]) == k;
      assert keys[i] == k;
    }
  }

  /** Under every day key, a job appears once per date of that job on that
      day (times the number of times it is listed); a job whose `dates` is
      not an array appears nowhere. */
  lemma JobsByDateCount(jobs: seq<Job>, dayKey: Timestamp -> string, k: string, job: Job)
    ensures multiset(Lookup(GroupBy(jobs, KeysOf(dayKey)), k))[job]
         == multiset(jobs)[job] * Occurrences(k, DayKeys(job, dayKey))
    ensures job.dates.None? ==> multiset(Lookup(GroupBy(jobs, KeysOf(dayKey)), k))[job] == 0
  {
    GroupByCount(jobs, KeysOf(dayKey), k, job);
    if job.dates.None? {
      assert DayKeys(job, dayKey) == [];
      assert Occurrences(k, DayKeys(job, dayKey)) == 0;
      MulZero(multiset(jobs)[job]);
    }
  }

  lemma MulZero(m: nat)
    ensures m * 0 == 0
  {
  }

  lemma {:induction false} TotalKeysIsDateCount(jobs: seq<Job>, dayKey: Timestamp -> string)
    ensures TotalKeys(jobs, KeysOf(dayKey)) == DateCount(jobs)
  {
    if jobs != [] {
      TotalKeysIsDateCount(jobs[..|jobs| - 1], dayKey);
    }
  }

  /** The sizes of all the day lists add up to the number of dates over all
      jobs. */
  lemma JobsByDateSize(jobs: seq<Job>, dayKey: Timestamp -> string)
    ensures TotalSize(GroupBy(jobs, KeysOf(dayKey))) == DateCount(jobs)
  {
    GroupBySize(jobs, KeysOf(dayKey));
    TotalKeysIsDateCount(jobs, dayKey);
  }

  /** Every highlighted day has at least one job, and the highlighted days
      are exactly the days on which some job has a date. */
  lemma HasJobsDays(jobs: seq<Job>, dayKey: Timestamp -> string, k: string)
    ensures k in HasJobsKeys(GroupBy(jobs, KeysOf(dayKey))) ==> |Lookup(GroupBy(jobs, KeysOf(dayKey)), k)| >= 1
    ensures k in HasJobsKeys(GroupBy(jobs, KeysOf(dayKey))) <==> exists i :: 0 <= i < |jobs| && HasDateOn(jobs[i], k, dayKey)
  {
    GroupByKeys(jobs, KeysOf(dayKey));
    forall i | 0 <= i < |jobs| {
      KeysOfMeaning(jobs[i], k, dayKey);
    }
  }

  /** The list shown for the selected day is empty when no day is selected,
      empty when no job has a date on that day, and otherwise every job with
      a date on that day, in list order, once per such date. */
  lemma SelectedJobsSpec(jobs: seq<Job>, date: Option<Timestamp>, dayKey: Timestamp -> string)
    ensures date.None? ==> SelectedJobs(GroupBy(jobs, KeysOf(dayKey)), date, dayKey) == []
    ensures date.Some? ==> SelectedJobs(GroupBy(jobs, KeysOf(dayKey)), date, dayKey)
                           == Expected(jobs, KeysOf(dayKey), dayKey(date.value))
    ensures date.Some? && dayKey(date.value) !in GroupBy(jobs, KeysOf(dayKey)) ==>
              SelectedJobs(GroupBy(jobs, KeysOf(dayKey)), date, dayKey) == []
  {
    if date.Some? {
      GroupByLookup(jobs, KeysOf(dayKey), dayKey(date.value));
    }
  }

  /** A day cell shows a count badge exactly when some job has a date on that
      day, and the badge counts that day's list; the literal zero never shows. */
  lemma DayContentSpec(jobs: seq<Job>, day: Timestamp, dayKey: Timestamp -> string)
    ensures DayContent(GroupBy(jobs, KeysOf(dayKey)), day, dayKey) != ZeroText
    ensures DayContent(GroupBy(jobs, KeysOf(dayKey)), day, dayKey).CountBadge? <==>
              exists i :: 0 <= i < |jobs| && HasDateOn(jobs[i], dayKey(day), dayKey)
    ensures DayContent(GroupBy(jobs, KeysOf(dayKey)), day, dayKey).CountBadge? ==>
              DayContent(GroupBy(jobs, KeysOf(dayKey)), day, dayKey).count
              == |Expected(jobs, KeysOf(dayKey), dayKey(day))|
  {
    HasJobsDays(jobs, dayKey, dayKey(day));
    GroupByLookup(jobs, KeysOf(dayKey), dayKey(day));
  }
}
