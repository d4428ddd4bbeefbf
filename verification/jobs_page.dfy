/** The "All Jobs" page: the jobs sorted newest first by their first date,
    the dates line of each job card, and the empty-list message. */
module JobsPage {
  import opened Common
  import opened Domain
  import opened Sorting

  /** The comparator's key: the first date's time, or 0 for a job with no
      dates. */
  function SortKey(job: Job): int {
    var ds := DatesOf(job);
    if |ds| > 0 then ds[0] else 0
  }

  /** The page reads `dates.length` without a guard, so every job's `dates`
      must be an array. */
  predicate DatesAreArrays(jobs: seq<Job>) {
    forall i :: 0 <= i < |jobs| ==> jobs[i].dates.Some?
  }

  /** `sortedJobs`: a sorted copy; the input list itself is a value and is
      left as it was. */
  function SortedJobs(jobs: seq<Job>): (r: seq<Job>)
    requires DatesAreArrays(jobs)
    ensures multiset(r) == multiset(jobs)
    ensures SortedDesc(r, SortKey)
  {
    SortDesc(jobs, SortKey)
  }

  /** Jobs with the same key keep their relative order. */
  lemma SortedJobsStable(jobs: seq<Job>, v: int)
    requires DatesAreArrays(jobs)
    ensures WithKey(SortedJobs(jobs), SortKey, v) == WithKey(jobs, SortKey, v)
  {
    SortStable(jobs, SortKey, v);
  }

  /** A job with no dates is listed after every job whose first date has a
      positive time. */
  lemma UndatedAfterDated(jobs: seq<Job>)
    requires DatesAreArrays(jobs)
    ensures var r := SortedJobs(jobs);
      forall i, j :: 0 <= i < |r| && 0 <= j < |r| && DatesOf(r[i]) == [] && SortKey(r[j]) > 0 ==> j < i
  {
  }

  /** The dates line of a job card; `longDate` is the long-date formatter. */
  function DatesLabel(job: Job, longDate: Timestamp -> string): string
    requires job.dates.Some?
  {
    var ds := job.dates.value;
    if |ds| > 0 then
      if |ds| == 1 then longDate(ds[0]) else NatToString(|ds|) + " dates"
    else "Not scheduled"
  }

  /** No dates: "Not scheduled"; one date: that date in long form; two or
      more: a label that names the count, which can be read back from it. */
  lemma DatesLabelSpec(job: Job, longDate: Timestamp -> string)
    requires job.dates.Some?
    ensures var t, n := DatesLabel(job, longDate), |job.dates.value|;
      && (n == 0 ==> t == "Not scheduled")
      && (n == 1 ==> t == longDate(job.dates.value[0]))
      && (n >= 2 ==>
            && |t| > 6 && t[|t| - 6..] == " dates"
            && (forall i :: 0 <= i < |t| - 6 ==> '0' <= t[i] <= '9')
            && DigitsValue(t[..|t| - 6]) == n)
  {
    var n := |job.dates.value|;
    if n >= 2 {
      var t := DatesLabel(job, longDate);
      assert t[..|t| - 6] == NatToString(n);
      NatToStringRoundTrip(n);
    }
  }

  /** Whether the page shows "No jobs found." instead of the card grid. */
  predicate ShowsNoJobsText(jobs: seq<Job>)
    requires DatesAreArrays(jobs)
  {
    |SortedJobs(jobs)| == 0
  }

  lemma NoJobsTextIffEmpty(jobs: seq<Job>)
    requires DatesAreArrays(jobs)
    ensures ShowsNoJobsText(jobs) <==> jobs == []
  {
    if jobs != [] {
      assert jobs[0] in multiset(jobs);
      assert jobs[0] in multiset(SortedJobs(jobs));
    }
  }
}
