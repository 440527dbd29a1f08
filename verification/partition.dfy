/** The split of the fetched task list into the pending and the completed
    sections of the page (todo_streamlit_app.py:317-318). */
module Partition {
  import opened Wrappers
  import opened Json

  /** A fetched task: a JSON object with `taskId`, `title`, `dueDate` and
      `completed` fields, any of which may be missing. */
  type Task = Dict

  /** The fetched `tasks` value read as a list of task objects: `None` when
      it is not a JSON array of objects, the one shape the page can split
      (todo_streamlit_app.py:309-318). */
  function TaskList(v: JsonValue): (tasks: Option<seq<Task>>)
    ensures tasks.Some? <==> v.JArray? && forall i :: 0 <= i < |v.items| ==> v.items[i].JObject?
    ensures tasks.Some? ==>
      |tasks.value| == |v.items| && forall i :: 0 <= i < |v.items| ==> v.items[i] == JObject(tasks.value[i])
  {
    if v.JArray? then ObjectsOf(v.items) else None
  }

  /** The fields of each item, when every item is an object. */
  function ObjectsOf(items: seq<JsonValue>): (tasks: Option<seq<Task>>)
    ensures tasks.Some? <==> forall i :: 0 <= i < |items| ==> items[i].JObject?
    ensures tasks.Some? ==> |tasks.value| == |items| && forall i :: 0 <= i < |items| ==> items[i] == JObject(tasks.value[i])
  {
    if items == [] then Some([])
    else if !items[0].JObject? then None
    else
      match ObjectsOf(items[1..])
      case None => None
      case Some(rest) => Some([items[0].fields] + rest)
  }

  /** `t.get("completed", False)` tested for truth: a missing flag counts as
      not completed. */
  predicate IsCompleted(t: Task)
  {
    Truthy(GetOr(t, "completed", JBool(false)))
  }

  /** `[t for t in tasks if not t.get("completed", False)]`. */
  function PendingTasks(tasks: seq<Task>): (pending: seq<Task>)
    ensures forall t :: t in pending <==> t in tasks && !IsCompleted(t)
    ensures |pending| <= |tasks|
  {
    if tasks == [] then []
    else (if IsCompleted(tasks[0]) then [] else [tasks[0]]) + PendingTasks(tasks[1..])
  }

  /** `[t for t in tasks if t.get("completed", False)]`. */
  function CompletedTasks(tasks: seq<Task>): (completed: seq<Task>)
    ensures forall t :: t in completed <==> t in tasks && IsCompleted(t)
    ensures |completed| <= |tasks|
  {
    if tasks == [] then []
    else (if IsCompleted(tasks[0]) then [tasks[0]] else []) + CompletedTasks(tasks[1..])
  }

  /** `tasks` is an order-preserving merge of `a` and `b`: every element of
      `tasks` is taken, in order, from the front of one of the two. */
  ghost predicate IsInterleaving(tasks: seq<Task>, a: seq<Task>, b: seq<Task>)
    decreases |tasks|
  {
    if tasks == [] then a == [] && b == []
    else
      || (a != [] && a[0] == tasks[0] && IsInterleaving(tasks[1..], a[1..], b))
      || (b != [] && b[0] == tasks[0] && IsInterleaving(tasks[1..], a, b[1..]))
  }

  /** The two sections are an order-preserving split of the fetched list:
      merging them back in the right way gives the list itself. */
  lemma {:induction false} PartitionInterleaves(tasks: seq<Task>)
    ensures IsInterleaving(tasks, PendingTasks(tasks), CompletedTasks(tasks))
    decreases |tasks|
  {
    if tasks != [] {
      PartitionInterleaves(tasks[1..]);
      var p := PendingTasks(tasks);
      var c := CompletedTasks(tasks);
      if IsCompleted(tasks[0]) {
        assert c[1..] == CompletedTasks(tasks[1..]);
        assert p == PendingTasks(tasks[1..]);
      } else {
        assert p[1..] == PendingTasks(tasks[1..]);
        assert c == CompletedTasks(tasks[1..]);
      }
    }
  }

  /** An interleaving loses and duplicates nothing. */
  lemma {:induction false} InterleavingKeepsElements(tasks: seq<Task>, a: seq<Task>, b: seq<Task>)
    requires IsInterleaving(tasks, a, b)
    ensures |a| + |b| == |tasks|
    ensures multiset(a) + multiset(b) == multiset(tasks)
    decreases |tasks|
  {
    if tasks != [] {
      if a != [] && a[0] == tasks[0] && IsInterleaving(tasks[1..], a[1..], b) {
        InterleavingKeepsElements(tasks[1..], a[1..], b);
        assert a == [a[0]] + a[1..];
      } else {
        InterleavingKeepsElements(tasks[1..], a, b[1..]);
        assert b == [b[0]] + b[1..];
      }
      assert tasks == [tasks[0]] + tasks[1..];
    }
  }

  /** No task is lost or shown twice: the two sections hold, between them,
      exactly the fetched tasks, and no task is in both. */
  lemma PartitionCovers(tasks: seq<Task>)
    ensures |PendingTasks(tasks)| + |CompletedTasks(tasks)| == |tasks|
    ensures multiset(PendingTasks(tasks)) + multiset(CompletedTasks(tasks)) == multiset(tasks)
    ensures forall t :: !(t in PendingTasks(tasks) && t in CompletedTasks(tasks))
  {
    PartitionInterleaves(tasks);
    InterleavingKeepsElements(tasks, PendingTasks(tasks), CompletedTasks(tasks));
  }

  /** For tasks whose `completed` field is a boolean, the split follows the
      flag; a task without the field is pending. */
  lemma CompletedFollowsFlag(t: Task)
    ensures "completed" !in t ==> !IsCompleted(t)
    ensures "completed" in t && t["completed"].JBool? ==> (IsCompleted(t) <==> t["completed"].b)
  {
  }
}
