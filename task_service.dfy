/** The in-memory task store: an array of task records that `create` appends to,
    `update` rewrites in place and `delete` splices. */
module TaskStore {
  import opened Common
  import opened Records

  const NotFound := "Task not found"

  /** Every stored identifier is a number, and no two tasks share one. */
  predicate WellFormed(tasks: seq<Task>) {
    && (forall i :: 0 <= i < |tasks| ==> tasks[i].id.NumId?)
    && Distinct(TaskIds(tasks))
  }

  /** `this.tasks.map(t => t.Id)` on a store whose identifiers are numbers. */
  function NumericIds(tasks: seq<Task>): (ns: seq<nat>)
    requires forall i :: 0 <= i < |tasks| ==> tasks[i].id.NumId?
    ensures |ns| == |tasks|
    ensures forall i :: 0 <= i < |tasks| ==> tasks[i].id == NumId(ns[i])
  {
    seq(|tasks|, i requires 0 <= i < |tasks| => tasks[i].id.n)
  }

  /** `getNextId`: one more than the largest identifier, 1 for an empty store;
      hence an identifier no stored task has. */
  function NextId(tasks: seq<Task>): (n: nat)
    requires forall i :: 0 <= i < |tasks| ==> tasks[i].id.NumId?
    ensures n >= 1
    ensures forall i :: 0 <= i < |tasks| ==> tasks[i].id.n < n
    ensures n == 1 || NumId(n - 1) in TaskIds(tasks)
    ensures NumId(n) !in TaskIds(tasks)
  {
    var ns := NumericIds(tasks);
    var m := MaxOf(ns);
    assert m != 0 ==> TaskIds(tasks)[IndexOfNat(ns, m)] == NumId(m);
    m + 1
  }

  /** Splicing one task out keeps the store well formed and leaves no task
      with the removed identifier. */
  lemma SpliceKeepsWellFormed(tasks: seq<Task>, i: nat)
    requires WellFormed(tasks) && i < |tasks|
    ensures WellFormed(tasks[..i] + tasks[i + 1..])
    ensures tasks[i].id !in TaskIds(tasks[..i] + tasks[i + 1..])
  {
    var ids := TaskIds(tasks);
    var rest := tasks[..i] + tasks[i + 1..];
    RemoveAt(ids, i);
    assert TaskIds(rest) == ids[..i] + ids[i + 1..];
  }

  /** A position of `x` in `xs`, for the witness in NextId. */
  function IndexOfNat(xs: seq<nat>, x: nat): (k: nat)
    requires x in xs
    ensures k < |xs| && xs[k] == x
  {
    if xs[0] == x then 0 else IndexOfNat(xs[1..], x) + 1
  }

  /** The record `create` builds: a fresh numeric identifier, not completed,
      no completion time, an empty description when none is given, `null` for
      a falsy category, and only title, description, priority, category and due
      date taken from the draft (its `status` is dropped). */
  function NewTask(id: nat, d: TaskDraft, now: Stamp): (t: Task)
    ensures t.id == NumId(id) && t.title == d.title && t.priority == d.priority
    ensures !t.completed && t.completedAt == None && t.status == None
    ensures t.description == Some(d.description.GetOr(""))
    ensures t.categoryId == (if Truthy(d.categoryId) then d.categoryId else Null)
    ensures t.dueDate == d.dueDate && t.createdAt == now
  {
    Task(
      NumId(id),
      d.title,
      Some(d.description.GetOr("")),
      false,
      None,
      d.priority,
      if Truthy(d.categoryId) then d.categoryId else Null,
      d.dueDate,
      now,
      None)
  }

  /** `{ ...stored, ...patch }`: each key the patch carries overrides the stored one. */
  function Merged(t: Task, p: TaskPatch): (r: Task)
    ensures r.id == t.id
  {
    Task(
      t.id,
      p.title.GetOr(t.title),
      p.description.GetOr(t.description),
      p.completed.GetOr(t.completed),
      p.status.GetOr(t.status),
      p.priority.GetOr(t.priority),
      p.categoryId.GetOr(t.categoryId),
      p.dueDate.GetOr(t.dueDate),
      p.createdAt.GetOr(t.createdAt),
      p.completedAt.GetOr(t.completedAt))
  }

  /** Merging a whole task over a stored record with the same identifier yields
      that task, whatever the stored record held. */
  lemma MergeFullPatch(stored: Task, t: Task)
    requires stored.id == t.id
    ensures Merged(stored, FullPatch(t)) == t
  {
  }

  /** The keys the form submits override exactly those fields; completion state,
      creation time and completion time survive the update. */
  lemma MergeDraftKeeps(stored: Task, d: TaskDraft)
    ensures var r := Merged(stored, DraftPatch(d));
      && r.id == stored.id && r.completed == stored.completed
      && r.createdAt == stored.createdAt && r.completedAt == stored.completedAt
      && r.title == d.title && r.priority == d.priority && r.status == Some(d.status)
      && r.categoryId == d.categoryId && r.dueDate == d.dueDate
      && r.description == (if d.description.Some? then d.description else stored.description)
  {
  }

  class TaskService {
    var tasks: seq<Task>

    ghost predicate Valid()
      reads this
    {
      WellFormed(tasks)
    }

    /** The store starts as a copy of the seed records. */
    constructor (seed: seq<Task>)
      requires WellFormed(seed)
      ensures Valid() && tasks == seed
    {
      tasks := seed;
    }

    /** `getAll`: the stored records in storage order; the store is untouched. */
    method GetAll() returns (all: seq<Task>)
      ensures all == tasks
    {
      all := tasks;
    }

    /** `getById`: the first record with the identifier, or "Task not found". */
    method GetById(id: Id) returns (r: Result<Task>)
      ensures r.Ok? <==> id in TaskIds(tasks)
      ensures r.Ok? ==> r.value.id == id && r.value == tasks[IndexOf(TaskIds(tasks), id)]
      ensures r.Err? ==> r.message == NotFound
    {
      var i := IndexOf(TaskIds(tasks), id);
      if i == -1 {
        r := Err(NotFound);
      } else {
        r := Ok(tasks[i]);
      }
    }

    /** `create`: appends one new record under a fresh identifier and returns it. */
    method Create(d: TaskDraft, now: Stamp) returns (t: Task)
      requires Valid()
      modifies this
      ensures Valid()
      ensures t == NewTask(NextId(old(tasks)), d, now)
      ensures t.id !in TaskIds(old(tasks))
      ensures tasks == old(tasks) + [t]
    {
      t := NewTask(NextId(tasks), d, now);
      AppendFresh(TaskIds(tasks), t.id);
      assert TaskIds(tasks + [t]) == TaskIds(tasks) + [t.id];
      tasks := tasks + [t];
    }

    /** `update`: on a known identifier the record at its position becomes the
        merge of the old record and the patch, every other record and the length
        stay as they were; on an unknown one nothing changes and
        "Task not found" is thrown. */
    method Update(id: Id, patch: TaskPatch) returns (r: Result<Task>)
      requires Valid()
      modifies this
      ensures Valid()
      ensures IndexOf(TaskIds(old(tasks)), id) == -1 ==> r == Err(NotFound) && tasks == old(tasks)
      ensures var i := IndexOf(TaskIds(old(tasks)), id);
        0 <= i ==> r == Ok(Merged(old(tasks)[i], patch)) && tasks == old(tasks)[i := r.value]
    {
      var i := IndexOf(TaskIds(tasks), id);
      if i == -1 {
        r := Err(NotFound);
        return;
      }
      var updated := Merged(tasks[i], patch);
      assert TaskIds(tasks[i := updated]) == TaskIds(tasks);
      tasks := tasks[i := updated];
      r := Ok(updated);
    }

    /** `delete`: splices out the first record with the identifier and returns
        it; the others keep their order, and no record with that identifier is
        left. On an unknown identifier nothing changes and "Task not found" is
        thrown. */
    method Delete(id: Id) returns (r: Result<Task>)
      requires Valid()
      modifies this
      ensures Valid()
      ensures IndexOf(TaskIds(old(tasks)), id) == -1 ==> r == Err(NotFound) && tasks == old(tasks)
      ensures var i := IndexOf(TaskIds(old(tasks)), id);
        0 <= i ==> r == Ok(old(tasks)[i]) && tasks == old(tasks)[..i] + old(tasks)[i + 1..]
      ensures r.Ok? ==> |tasks| == |old(tasks)| - 1 && id !in TaskIds(tasks)
    {
      var i := IndexOf(TaskIds(tasks), id);
      if i == -1 {
        r := Err(NotFound);
        return;
      }
      SpliceKeepsWellFormed(tasks, i);
      r := Ok(tasks[i]);
      tasks := tasks[..i] + tasks[i + 1..];
    }
  }
}
