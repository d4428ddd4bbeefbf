/** The notifications page: newest first, an empty-state card, and per row
    the unread highlight and the "View Job" link. */
module NotificationsPage {
  import opened Common
  import opened Domain
  import opened Sorting

  function NotificationTime(n: Notification): int {
    n.date
  }

  /** `sortedNotifications`: a copy sorted by date, newest first. */
  function SortedNotifications(ns: seq<Notification>): (r: seq<Notification>)
    ensures multiset(r) == multiset(ns)
    ensures SortedDesc(r, NotificationTime)
  {
    SortDesc(ns, NotificationTime)
  }

  /** Notifications with the same date keep their relative order. */
  lemma SortedNotificationsStable(ns: seq<Notification>, v: int)
    ensures WithKey(SortedNotifications(ns), NotificationTime, v) == WithKey(ns, NotificationTime, v)
  {
    SortStable(ns, NotificationTime, v);
  }

  /** Whether the page shows the "No Notifications" card instead of the list. */
  predicate ShowsEmptyState(ns: seq<Notification>) {
    |SortedNotifications(ns)| == 0
  }

  lemma EmptyStateIffNone(ns: seq<Notification>)
    ensures ShowsEmptyState(ns) <==> ns == []
  {
    if ns != [] {
      assert ns[0] in multiset(ns);
      assert ns[0] in multiset(SortedNotifications(ns));
    }
  }

  /** How one row is drawn: highlighted background, the dot's colour class,
      and the target of the "View Job" button, if there is one. */
  datatype RowView = RowView(highlighted: bool, dotClass: string, viewJob: Option<string>)

  function Row(n: Notification): RowView {
    RowView(
      !n.read,
      if !n.read then "bg-accent" else "bg-muted-foreground/50",
      if n.jobId.Some? && n.jobId.value != "" then Some("/jobs/" + n.jobId.value) else None)
  }

  /** Unread rows, and only those, are highlighted and get the accent dot;
      the "View Job" link appears exactly for a non-empty job id and leads to
      that job's page. */
  lemma RowSpec(n: Notification)
    ensures Row(n).highlighted <==> !n.read
    ensures Row(n).dotClass == "bg-accent" <==> !n.read
    ensures Row(n).viewJob.Some? <==> n.jobId.Some? && n.jobId.value != ""
    ensures Row(n).viewJob.Some? ==>
      StartsWith(Row(n).viewJob.value, "/jobs/") && Row(n).viewJob.value[6..] == n.jobId.value
  {
    assert "bg-muted-foreground/50" != "bg-accent";
  }
}
