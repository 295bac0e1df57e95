/** The study task list of context/TaskContext.tsx. Every operation builds a
    new list from the old one (spread, filter or map) and replaces the state
    with it once, so each is a function from the old list to the new one. */
module Tasks {
  import Seqs

  datatype Task = Task(id: string, text: string, completed: bool, priority: int)

  /** The ids in list order. */
  function Ids(tasks: seq<Task>): seq<string>
  {
    seq(|tasks|, i requires 0 <= i < |tasks| => tasks[i].id)
  }

  predicate HasId(tasks: seq<Task>, id: string)
  {
    exists i :: 0 <= i < |tasks| && tasks[i].id == id
  }

  /** A new task goes at the end: not completed, priority 1. The id is the
      caller's (the source uses the current time as a string). */
  function AddTask(tasks: seq<Task>, id: string, text: string): (r: seq<Task>)
    ensures |r| == |tasks| + 1
    ensures r[..|tasks|] == tasks
    ensures r[|tasks|] == Task(id, text, false, 1)
  {
    tasks + [Task(id, text, false, 1)]
  }

  /** Drops every task carrying the id; the others stay, in their order. */
  function RemoveTask(tasks: seq<Task>, id: string): (r: seq<Task>)
    ensures !HasId(r, id)
    ensures Seqs.IsSubsequence(r, tasks)
    ensures forall t: Task :: t.id != id ==> multiset(r)[t] == multiset(tasks)[t]
  {
    Seqs.Filter((t: Task) => t.id != id, tasks)
  }

  /** Removing an id that no task carries gives the list back. */
  lemma RemoveAbsentIsIdentity(tasks: seq<Task>, id: string)
    requires !HasId(tasks, id)
    ensures RemoveTask(tasks, id) == tasks
  {
    Seqs.FilterKeepsAll((t: Task) => t.id != id, tasks);
  }

  /** Flips `completed` on the tasks carrying the id and changes nothing else. */
  function ToggleTask(tasks: seq<Task>, id: string): (r: seq<Task>)
    ensures Ids(r) == Ids(tasks)
    ensures forall i :: 0 <= i < |r| ==>
      r[i].completed == (tasks[i].completed != (tasks[i].id == id)) &&
      r[i].(completed := tasks[i].completed) == tasks[i]
  {
    seq(|tasks|, i requires 0 <= i < |tasks| =>
      if tasks[i].id == id then tasks[i].(completed := !tasks[i].completed) else tasks[i])
  }

  /** Toggling the same id twice restores the list. */
  lemma ToggleTwiceIsIdentity(tasks: seq<Task>, id: string)
    ensures ToggleTask(ToggleTask(tasks, id), id) == tasks
  {
    var once := ToggleTask(tasks, id);
    var twice := ToggleTask(once, id);
    assert |twice| == |tasks|;
    forall i | 0 <= i < |tasks| ensures twice[i] == tasks[i] {
      assert once[i].id == tasks[i].id;
    }
  }

  /** Stores the priority on the tasks carrying the id, exactly as given
      (the source clamps nothing), and changes nothing else. */
  function UpdateTaskPriority(tasks: seq<Task>, id: string, priority: int): (r: seq<Task>)
    ensures Ids(r) == Ids(tasks)
    ensures forall i :: 0 <= i < |r| ==>
      r[i].priority == (if tasks[i].id == id then priority else tasks[i].priority) &&
      r[i].(priority := tasks[i].priority) == tasks[i]
  {
    seq(|tasks|, i requires 0 <= i < |tasks| =>
      if tasks[i].id == id then tasks[i].(priority := priority) else tasks[i])
  }

  /** Of two priority updates of one id, the later one wins. */
  lemma LaterPriorityWins(tasks: seq<Task>, id: string, p: int, q: int)
    ensures UpdateTaskPriority(UpdateTaskPriority(tasks, id, p), id, q) == UpdateTaskPriority(tasks, id, q)
  {
    var first := UpdateTaskPriority(tasks, id, p);
    var both := UpdateTaskPriority(first, id, q);
    var direct := UpdateTaskPriority(tasks, id, q);
    forall i | 0 <= i < |tasks| ensures both[i] == direct[i] {
      assert first[i].id == tasks[i].id;
    }
  }
}
