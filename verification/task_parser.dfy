/** The job's task checklist: a list of tasks held as component state,
    toggled by id, with a completion percentage. */
module TaskParser {
  import opened Domain

  /** The list after toggling `id`: every task with that id has its
      `completed` flag flipped; the others are the same records. */
  function Toggled(tasks: seq<Task>, id: string): seq<Task> {
    seq(|tasks|, i requires 0 <= i < |tasks| =>
      if tasks[i].id == id then tasks[i].(completed := !tasks[i].completed) else tasks[i])
  }

  /** `tasks.filter(t => t.completed).length` */
  function CompletedCount(tasks: seq<Task>): (count: nat)
    ensures count <= |tasks|
    ensures count == |tasks| <==> forall i :: 0 <= i < |tasks| ==> tasks[i].completed
  {
    if tasks == [] then 0
    else
      var init := tasks[..|tasks| - 1];
      assert forall i :: 0 <= i < |init| ==> init[i] == tasks[i];
      CompletedCount(init) + (if tasks[|tasks| - 1].completed then 1 else 0)
  }

  /** `progress`: 0 for no tasks, else completed / total * 100. */
  function Progress(tasks: seq<Task>): (p: real)
    ensures 0.0 <= p <= 100.0
    ensures tasks == [] ==> p == 0.0
    ensures tasks != [] ==> (p == 100.0 <==> forall i :: 0 <= i < |tasks| ==> tasks[i].completed)
  {
    if |tasks| > 0 then
      PercentBounds(CompletedCount(tasks), |tasks|);
      (CompletedCount(tasks) as real / |tasks| as real) * 100.0
    else 0.0
  }

  lemma PercentBounds(part: nat, whole: nat)
    requires 0 < whole && part <= whole
    ensures 0.0 <= (part as real / whole as real) * 100.0 <= 100.0
    ensures (part as real / whole as real) * 100.0 == 100.0 <==> part == whole
  {
    var pr, wr := part as real, whole as real;
    var r := pr / wr;
    QuotientBounds(pr, wr);
    if part == whole {
      QuotientOfSelf(wr);
    }
    if r * 100.0 == 100.0 {
      QuotientTimesDivisor(pr, wr);
      assert r == 1.0;
      assert pr == 1.0 * wr;
    }
  }

  lemma QuotientTimesDivisor(p: real, w: real)
    requires w > 0.0
    ensures (p / w) * w == p
  {
  }

  lemma QuotientOfSelf(w: real)
    requires w > 0.0
    ensures w / w == 1.0
  {
  }

  lemma QuotientBounds(p: real, w: real)
    requires 0.0 <= p <= w && w > 0.0
    ensures 0.0 <= p / w <= 1.0
  {
    QuotientTimesDivisor(p, w);
  }

  class TaskList {
    var tasks: seq<Task>

    constructor (initialTasks: seq<Task>)
      ensures tasks == initialTasks
    {
      tasks := initialTasks;
    }

    /** `toggleTask(id)`: replaces the list with the toggled one. */
    method ToggleTask(id: string)
      modifies this
      ensures tasks == Toggled(old(tasks), id)
    {
      tasks := Toggled(tasks, id);
    }
  }

  /** Toggling keeps the length, the order, every id and description, flips
      exactly the tasks with the given id and leaves the others alone. */
  lemma ToggledSpec(tasks: seq<Task>, id: string)
    ensures |Toggled(tasks, id)| == |tasks|
    ensures forall i :: 0 <= i < |tasks| ==>
      && Toggled(tasks, id)[i].id == tasks[i].id
      && Toggled(tasks, id)[i].description == tasks[i].description
      && (Toggled(tasks, id)[i].completed <==> (if tasks[i].id == id then !tasks[i].completed else tasks[i].completed))
  {
  }

  /** Toggling the same id twice gives back the original list. */
  lemma ToggleTwice(tasks: seq<Task>, id: string)
    ensures Toggled(Toggled(tasks, id), id) == tasks
  {
  }

  /** Toggling an id no task has changes nothing. */
  lemma ToggleAbsent(tasks: seq<Task>, id: string)
    requires forall i :: 0 <= i < |tasks| ==> tasks[i].id != id
    ensures Toggled(tasks, id) == tasks
  {
  }

  /** Toggling a task whose id is unique moves the completed count by one,
      up if it was open and down if it was done. */
  lemma {:induction false} ToggleUniqueCount(tasks: seq<Task>, k: nat)
    requires k < |tasks|
    requires forall i :: 0 <= i < |tasks| && i != k ==> tasks[i].id != tasks[k].id
    ensures CompletedCount(Toggled(tasks, tasks[k].id))
         == if tasks[k].completed then CompletedCount(tasks) - 1 else CompletedCount(tasks) + 1
  {
    var id := tasks[k].id;
    var t := Toggled(tasks, id);
    var n := |tasks|;
    var init := tasks[..n - 1];
    ToggledPrefix(tasks, id);
    assert t[..n - 1] == Toggled(init, id);
    CompletedCountStep(tasks);
    CompletedCountStep(t);
    if k == n - 1 {
      ToggleAbsent(init, id);
      assert t[n - 1].completed == !tasks[n - 1].completed;
    } else {
      assert init[k] == tasks[k];
      ToggleUniqueCount(init, k);
      assert tasks[n - 1].id != id;
      assert t[n - 1] == tasks[n - 1];
    }
  }

  lemma CompletedCountStep(tasks: seq<Task>)
    requires tasks != []
    ensures CompletedCount(tasks)
         == CompletedCount(tasks[..|tasks| - 1]) + (if tasks[|tasks| - 1].completed then 1 else 0)
  {
  }

  lemma ToggledPrefix(tasks: seq<Task>, id: string)
    requires tasks != []
    ensures Toggled(tasks, id)[..|tasks| - 1] == Toggled(tasks[..|tasks| - 1], id)
  {
  }
}
