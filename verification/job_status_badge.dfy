/** The job status badge: its colour tables and the drop-down that moves a
    job to another status. */
module JobStatusBadge {
  import opened Common
  import opened Domain

  /** The drop-down's options, in display order. */
  const StatusOptions: seq<JobStatus> := [Scheduled, InProgress, OnHold, Completed, CompletedAndPaid]

  /** One drop-down entry and whether it is disabled. */
  datatype MenuItem = MenuItem(option: JobStatus, disabled: bool)

  function Menu(current: JobStatus): (items: seq<MenuItem>)
    ensures |items| == |StatusOptions|
  {
    seq(|StatusOptions|, i requires 0 <= i < |StatusOptions| =>
      MenuItem(StatusOptions[i], StatusOptions[i] == current))
  }

  /** Choosing an entry: a disabled entry does nothing, any other calls
      `onStatusChange` with its option. */
  function Choose(item: MenuItem): Option<JobStatus> {
    if item.disabled then None else Some(item.option)
  }

  datatype Variant = Default | Secondary | Destructive | Outline

  function VariantOf(s: JobStatus): Variant {
    match s
    case Scheduled => Default
    case InProgress => Default
    case Completed => Secondary
    case OnHold => Outline
    case CompletedAndPaid => Secondary
  }

  /** The extra background classes, for two statuses only. */
  function BgClass(s: JobStatus): Option<string> {
    match s
    case InProgress => Some("bg-accent text-accent-foreground")
    case CompletedAndPaid => Some("bg-green-100 text-green-800 border-green-300 dark:bg-green-900/50 dark:text-green-300")
    case _ => None
  }

  /** The options are the five statuses, each exactly once. */
  lemma StatusOptionsComplete(s: JobStatus)
    ensures multiset(StatusOptions)[s] == 1
  {
  }

  /** In the menu for `current`, the entry for `current` is the only disabled
      one; every other status is offered, and choosing it reports exactly that
      status. */
  lemma MenuSpec(current: JobStatus, target: JobStatus)
    ensures forall i :: 0 <= i < |Menu(current)| ==> (Menu(current)[i].disabled <==> Menu(current)[i].option == current)
    ensures exists i :: 0 <= i < |Menu(current)| && Menu(current)[i].option == target
    ensures forall i :: 0 <= i < |Menu(current)| && Menu(current)[i].option == target ==>
      Choose(Menu(current)[i]) == (if target == current then None else Some(target))
  {
    var i := if target == Scheduled then 0 else if target == InProgress then 1
             else if target == OnHold then 2 else if target == Completed then 3 else 4;
    assert Menu(current)[i].option == target;
  }

  /** Completed and "Completed and Paid" share the secondary look, and no
      status is drawn as destructive; only In Progress and "Completed and
      Paid" get extra background classes. */
  lemma TablesSpec(s: JobStatus)
    ensures VariantOf(Completed) == VariantOf(CompletedAndPaid) == Secondary
    ensures VariantOf(s) != Destructive
    ensures BgClass(s).Some? <==> s == InProgress || s == CompletedAndPaid
  {
  }
}
