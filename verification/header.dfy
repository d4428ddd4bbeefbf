/** The page header: the title chosen from the current path, and the unread
    notification count on the bell. */
module Header {
  import opened Common
  import opened Domain

  /** `getPageTitle`: `/` by equality, then the prefixes in a fixed order. */
  function PageTitle(path: string): string {
    if path == "/" then "Dashboard"
    else if StartsWith(path, "/jobs") then "Job Details"
    else if StartsWith(path, "/quotes") then "Quotes"
    else if StartsWith(path, "/calendar") then "Calendar"
    else if StartsWith(path, "/team") then "Team"
    else if StartsWith(path, "/notifications") then "Notifications"
    else "ConexPro"
  }

  /** The prefix rules as a table, in the order they are tried. */
  const PrefixRules: seq<(string, string)> := [
    ("/jobs", "Job Details"),
    ("/quotes", "Quotes"),
    ("/calendar", "Calendar"),
    ("/team", "Team"),
    ("/notifications", "Notifications")]

  const Titles: set<string> := {"Dashboard", "Job Details", "Quotes", "Calendar", "Team", "Notifications", "ConexPro"}

  /** Every path gets one of the seven titles, and "Dashboard" belongs to the
      root path alone. */
  lemma PageTitleRange(path: string)
    ensures PageTitle(path) in Titles
    ensures PageTitle(path) == "Dashboard" <==> path == "/"
  {
  }

  /** First match wins: a path (other than the root) whose first matching
      rule is rule `n` gets that rule's title, whatever later rules say. */
  lemma PageTitleFirstMatch(path: string, n: nat)
    requires path != "/" && n < |PrefixRules|
    requires StartsWith(path, PrefixRules[n].0)
    requires forall m :: 0 <= m < n ==> !StartsWith(path, PrefixRules[m].0)
    ensures PageTitle(path) == PrefixRules[n].1
  {
    if n > 0 { assert !StartsWith(path, PrefixRules[0].0); }
    if n > 1 { assert !StartsWith(path, PrefixRules[1].0); }
    if n > 2 { assert !StartsWith(path, PrefixRules[2].0); }
    if n > 3 { assert !StartsWith(path, PrefixRules[3].0); }
  }

  /** A path matching no rule, and only such a path, is titled "ConexPro". */
  lemma PageTitleFallback(path: string)
    ensures PageTitle(path) == "ConexPro" <==>
      path != "/" && forall m :: 0 <= m < |PrefixRules| ==> !StartsWith(path, PrefixRules[m].0)
  {
    if path != "/" && PageTitle(path) == "ConexPro" {
      forall m | 0 <= m < |PrefixRules| ensures !StartsWith(path, PrefixRules[m].0) {
        assert m == 0 || m == 1 || m == 2 || m == 3 || m == 4;
      }
    }
    if path != "/" && forall m :: 0 <= m < |PrefixRules| ==> !StartsWith(path, PrefixRules[m].0) {
      assert !StartsWith(path, PrefixRules[0].0);
      assert !StartsWith(path, PrefixRules[1].0);
      assert !StartsWith(path, PrefixRules[2].0);
      assert !StartsWith(path, PrefixRules[3].0);
      assert !StartsWith(path, PrefixRules[4].0);
    }
  }

  /** A job's page is titled "Job Details"; so is any path that merely
      starts with the letters "/jobs". */
  lemma PageTitleExamples()
    ensures PageTitle("/jobs/42") == "Job Details"
    ensures PageTitle("/jobsite") == "Job Details"
    ensures PageTitle("/teams") == "Team"
    ensures PageTitle("") == "ConexPro"
  {
    assert StartsWith("/jobs/42", "/jobs");
    assert StartsWith("/jobsite", "/jobs");
    assert "/teams"[..5] == "/team";
  }

  /** `notifications.filter(n => !n.read).length` */
  function UnreadCount(ns: seq<Notification>): (count: nat)
    ensures count <= |ns|
    ensures count == 0 <==> forall i :: 0 <= i < |ns| ==> ns[i].read
    ensures count == |ns| <==> forall i :: 0 <= i < |ns| ==> !ns[i].read
  {
    if ns == [] then 0
    else
      var init := ns[..|ns| - 1];
      assert forall i :: 0 <= i < |init| ==> init[i] == ns[i];
      UnreadCount(init) + (if ns[|ns| - 1].read then 0 else 1)
  }

  /** The positions of the unread notifications. */
  function UnreadPositions(ns: seq<Notification>): set<nat> {
    set i: nat | i < |ns| && !ns[i].read
  }

  /** The count is the number of unread positions. */
  lemma {:induction false} UnreadCountIsPositions(ns: seq<Notification>)
    ensures UnreadCount(ns) == |UnreadPositions(ns)|
  {
    if ns != [] {
      var init := ns[..|ns| - 1];
      UnreadCountIsPositions(init);
      var last: nat := |ns| - 1;
      if ns[last].read {
        assert UnreadPositions(ns) == UnreadPositions(init);
      } else {
        assert UnreadPositions(ns) == UnreadPositions(init) + {last};
      }
    }
  }

  /** Whether the bell shows a count badge. */
  predicate ShowsBadge(ns: seq<Notification>) {
    UnreadCount(ns) > 0
  }

  lemma ShowsBadgeIff(ns: seq<Notification>)
    ensures ShowsBadge(ns) <==> exists i :: 0 <= i < |ns| && !ns[i].read
  {
  }
}
