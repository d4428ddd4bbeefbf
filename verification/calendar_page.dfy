/** The calendar page: an older grouping that files each job under the day
    of one date. It reads a `date` field that the job record does not declare
    (the record has `dates`), so the single date is a parameter `dateOf`
    here; it also reads the static job list, which is empty. */
module CalendarPage {
  import opened Common
  import opened Domain
  import opened Grouping
  import Dashboard

  function SingleKey(dateOf: Job -> Timestamp, dayKey: Timestamp -> string): Job -> seq<string> {
    job => [dayKey(dateOf(job))]
  }

  /** The single `forEach` loop that fills `groups`. */
  method JobsByDate(jobs: seq<Job>, dateOf: Job -> Timestamp, dayKey: Timestamp -> string)
    returns (groups: map<string, seq<Job>>)
    ensures groups == GroupBy(jobs, SingleKey(dateOf, dayKey))
  {
    groups := map[];
    var i := 0;
    while i < |jobs|
      invariant 0 <= i <= |jobs|
      invariant groups == GroupBy(jobs[..i], SingleKey(dateOf, dayKey))
    {
      var job := jobs[i];
      var jobDate := dayKey(dateOf(job));
      ghost var before := groups;
      if jobDate !in groups {
        groups := groups[jobDate := []];
      }
      groups := groups[jobDate := groups[jobDate] + [job]];
      assert groups == Push(before, jobDate, job);
      assert [jobDate][..0] == [];
      assert groups == PushAll(before, [jobDate], job);
      assert SingleKey(dateOf, dayKey)(job) == [jobDate];
      assert jobs[..i + 1][..i] == jobs[..i];
      assert GroupBy(jobs[..i + 1], SingleKey(dateOf, dayKey)) == PushAll(before, SingleKey(dateOf, dayKey)(job), job);
      i := i + 1;
    }
    assert jobs[..i] == jobs;
  }

  /** The jobs whose date falls on day `k`, in list order. */
  function OnDay(jobs: seq<Job>, dateOf: Job -> Timestamp, dayKey: Timestamp -> string, k: string): seq<Job> {
    if jobs == [] then []
    else OnDay(jobs[..|jobs| - 1], dateOf, dayKey, k)
         + (if dayKey(dateOf(jobs[|jobs| - 1])) == k then [jobs[|jobs| - 1]] else [])
  }

  lemma {:induction false} ExpectedIsOnDay(jobs: seq<Job>, dateOf: Job -> Timestamp, dayKey: Timestamp -> string, k: string)
    ensures Expected(jobs, SingleKey(dateOf, dayKey), k) == OnDay(jobs, dateOf, dayKey, k)
  {
    if jobs != [] {
      var last := jobs[|jobs| - 1];
      ExpectedIsOnDay(jobs[..|jobs| - 1], dateOf, dayKey, k);
      var key := dayKey(dateOf(last));
      assert SingleKey(dateOf, dayKey)(last) == [key];
      assert [key][..0] == [];
      assert Occurrences(k, [key]) == if key == k then 1 else 0;
      assert Repeat(last, 1) == [last];
    }
  }

  /** Each day's list is exactly the jobs dated on that day, in list order. */
  lemma JobsByDateLookup(jobs: seq<Job>, dateOf: Job -> Timestamp, dayKey: Timestamp -> string, k: string)
    ensures Lookup(GroupBy(jobs, SingleKey(dateOf, dayKey)), k) == OnDay(jobs, dateOf, dayKey, k)
  {
    GroupByLookup(jobs, SingleKey(dateOf, dayKey), k);
    ExpectedIsOnDay(jobs, dateOf, dayKey, k);
  }

  lemma ScaleByIndicator(m: nat, b: bool)
    ensures m * (if b then 1 else 0) == if b then m else 0
  {
  }

  /** Each job sits in its own day's list as often as it occurs in `jobs`,
      and in no other day's list. */
  lemma JobsByDateIsPartition(jobs: seq<Job>, dateOf: Job -> Timestamp, dayKey: Timestamp -> string, k: string, job: Job)
    ensures multiset(Lookup(GroupBy(jobs, SingleKey(dateOf, dayKey)), k))[job]
         == if dayKey(dateOf(job)) == k then multiset(jobs)[job] else 0
  {
    var key := dayKey(dateOf(job));
    var m := multiset(jobs)[job];
    GroupByCount(jobs, SingleKey(dateOf, dayKey), k, job);
    assert SingleKey(dateOf, dayKey)(job) == [key];
    OccurrencesSingle(k, key);
    ScaleByIndicator(m, key == k);
  }

  lemma {:induction false} TotalKeysIsLength(jobs: seq<Job>, dateOf: Job -> Timestamp, dayKey: Timestamp -> string)
    ensures TotalKeys(jobs, SingleKey(dateOf, dayKey)) == |jobs|
  {
    if jobs != [] {
      TotalKeysIsLength(jobs[..|jobs| - 1], dateOf, dayKey);
    }
  }

  /** The sizes of all day lists add up to the number of jobs. */
  lemma JobsByDateSize(jobs: seq<Job>, dateOf: Job -> Timestamp, dayKey: Timestamp -> string)
    ensures TotalSize(GroupBy(jobs, SingleKey(dateOf, dayKey))) == |jobs|
  {
    GroupBySize(jobs, SingleKey(dateOf, dayKey));
    TotalKeysIsLength(jobs, dateOf, dayKey);
  }

  /** The page's `selectedJobs` (the same code as the dashboard's): empty
      with no selected day, otherwise the jobs dated on that day. */
  lemma SelectedJobsSpec(jobs: seq<Job>, dateOf: Job -> Timestamp, dayKey: Timestamp -> string, date: Option<Timestamp>)
    ensures date.None? ==> Dashboard.SelectedJobs(GroupBy(jobs, SingleKey(dateOf, dayKey)), date, dayKey) == []
    ensures date.Some? ==> Dashboard.SelectedJobs(GroupBy(jobs, SingleKey(dateOf, dayKey)), date, dayKey)
                           == OnDay(jobs, dateOf, dayKey, dayKey(date.value))
    ensures date.Some? && dayKey(date.value) !in GroupBy(jobs, SingleKey(dateOf, dayKey)) ==>
              Dashboard.SelectedJobs(GroupBy(jobs, SingleKey(dateOf, dayKey)), date, dayKey) == []
  {
    if date.Some? {
      GroupByLookup(jobs, SingleKey(dateOf, dayKey), dayKey(date.value));
      ExpectedIsOnDay(jobs, dateOf, dayKey, dayKey(date.value));
    }
  }

  /** A day cell shows a count badge exactly when some job falls on that day,
      and the badge counts those jobs; the literal zero never shows. */
  lemma DayContentSpec(jobs: seq<Job>, dateOf: Job -> Timestamp, dayKey: Timestamp -> string, day: Timestamp)
    ensures var mark := Dashboard.DayContent(GroupBy(jobs, SingleKey(dateOf, dayKey)), day, dayKey);
      && mark != Dashboard.ZeroText
      && (mark.CountBadge? <==> OnDay(jobs, dateOf, dayKey, dayKey(day)) != [])
      && (mark.CountBadge? ==> mark.count == |OnDay(jobs, dateOf, dayKey, dayKey(day))|)
  {
    GroupByKeys(jobs, SingleKey(dateOf, dayKey));
    JobsByDateLookup(jobs, dateOf, dayKey, dayKey(day));
  }
}
