/** The sidebar's figures: a task count per category and the overview counts
    (all, completed, pending). */
module CategorySidebar {
  import opened Common
  import opened Records
  import TaskList

  /** `tasks.filter(task => task.categoryId === id).length`. */
  function CountFor(tasks: seq<Task>, id: Id): (n: nat)
    ensures n <= |tasks|
  {
    if |tasks| == 0 then 0
    else (if tasks[0].categoryId == Bare(id) then 1 else 0) + CountFor(tasks[1..], id)
  }

  /** `categoriesData.map(category => ({ ...category, taskCount: ... }))`: the
      same categories in the same order, each with its count set and every
      other field kept. */
  function WithTaskCounts(categories: seq<Category>, tasks: seq<Task>): (r: seq<Category>)
    ensures |r| == |categories|
    ensures forall i :: 0 <= i < |categories| ==>
      r[i] == categories[i].(taskCount := CountFor(tasks, categories[i].id))
  {
    if |categories| == 0 then []
    else [categories[0].(taskCount := CountFor(tasks, categories[0].id))] + WithTaskCounts(categories[1..], tasks)
  }

  /** `getTotalTaskCount`: every loaded task, which is the completed ones and
      the pending ones together. */
  function TotalCount(tasks: seq<Task>): (n: nat)
    ensures n == |tasks|
    ensures n == CompletedCount(tasks) + PendingCount(tasks)
  {
    CompletedPlusPending(tasks);
    |tasks|
  }

  /** `getCompletedTaskCount`. */
  function CompletedCount(tasks: seq<Task>): (n: nat)
    ensures n <= |tasks|
  {
    if |tasks| == 0 then 0 else (if tasks[0].completed then 1 else 0) + CompletedCount(tasks[1..])
  }

  /** `getPendingTaskCount`. */
  function PendingCount(tasks: seq<Task>): (n: nat)
    ensures n <= |tasks|
  {
    if |tasks| == 0 then 0 else (if !tasks[0].completed then 1 else 0) + PendingCount(tasks[1..])
  }

  /** Every task is either completed or pending, never both. */
  lemma {:induction false} CompletedPlusPending(tasks: seq<Task>)
    ensures CompletedCount(tasks) + PendingCount(tasks) == |tasks|
  {
    if |tasks| > 0 {
      CompletedPlusPending(tasks[1..]);
    }
  }

  /** A category's count is the length of the list shown when that category
      is selected with no search and every other filter open. */
  lemma {:induction false} CountMatchesCategoryFilter(tasks: seq<Task>, id: Id)
    requires id != AllCategories
    ensures CountFor(tasks, id) == |TaskList.FilterTasks(tasks, "", Filters("all", id, "all"))|
  {
    if |tasks| > 0 {
      CountMatchesCategoryFilter(tasks[1..], id);
    }
  }

  /** The completed count is the length of the list filtered on "completed". */
  lemma {:induction false} CompletedMatchesStatusFilter(tasks: seq<Task>)
    ensures CompletedCount(tasks) == |TaskList.FilterTasks(tasks, "", Filters("completed", AllCategories, "all"))|
  {
    if |tasks| > 0 {
      CompletedMatchesStatusFilter(tasks[1..]);
    }
  }

  /** The pending count is the length of the list filtered on "pending". */
  lemma {:induction false} PendingMatchesStatusFilter(tasks: seq<Task>)
    ensures PendingCount(tasks) == |TaskList.FilterTasks(tasks, "", Filters("pending", AllCategories, "all"))|
  {
    if |tasks| > 0 {
      PendingMatchesStatusFilter(tasks[1..]);
    }
  }

  /** The sum of the displayed counts. */
  function SumCounts(categories: seq<Category>): nat {
    if |categories| == 0 then 0 else categories[0].taskCount + SumCounts(categories[1..])
  }

  /** How many of the categories a task refers to by bare identifier. */
  function Hits(categories: seq<Category>, t: Task): nat {
    if |categories| == 0 then 0
    else (if t.categoryId == Bare(categories[0].id) then 1 else 0) + Hits(categories[1..], t)
  }

  lemma {:induction false} NoHits(categories: seq<Category>, t: Task)
    requires forall i :: 0 <= i < |categories| ==> t.categoryId != Bare(categories[i].id)
    ensures Hits(categories, t) == 0
  {
    if |categories| > 0 {
      NoHits(categories[1..], t);
    }
  }

  /** With distinct identifiers a task refers to at most one category. */
  lemma {:induction false} HitsAtMostOne(categories: seq<Category>, t: Task)
    requires Distinct(CategoryIds(categories))
    ensures Hits(categories, t) <= 1
  {
    if |categories| > 0 {
      var tail := categories[1..];
      assert CategoryIds(tail) == CategoryIds(categories)[1..];
      if t.categoryId == Bare(categories[0].id) {
        forall i | 0 <= i < |tail| ensures t.categoryId != Bare(tail[i].id) {
          assert CategoryIds(categories)[i + 1] != CategoryIds(categories)[0];
        }
        NoHits(tail, t);
      } else {
        HitsAtMostOne(tail, t);
      }
    }
  }

  /** Adding one task in front raises the sum of counts by the categories it hits. */
  lemma {:induction false} SumCountsCons(categories: seq<Category>, t: Task, rest: seq<Task>)
    ensures SumCounts(WithTaskCounts(categories, [t] + rest))
         == Hits(categories, t) + SumCounts(WithTaskCounts(categories, rest))
  {
    if |categories| > 0 {
      assert ([t] + rest)[1..] == rest;
      SumCountsCons(categories[1..], t, rest);
    }
  }

  /** With distinct category identifiers, no task is counted twice: the counts
      add up to at most the total. */
  lemma {:induction false} SumCountsAtMostTotal(categories: seq<Category>, tasks: seq<Task>)
    requires Distinct(CategoryIds(categories))
    ensures SumCounts(WithTaskCounts(categories, tasks)) <= TotalCount(tasks)
  {
    if |tasks| == 0 {
      ZeroCounts(categories);
    } else {
      assert [tasks[0]] + tasks[1..] == tasks;
      SumCountsCons(categories, tasks[0], tasks[1..]);
      HitsAtMostOne(categories, tasks[0]);
      SumCountsAtMostTotal(categories, tasks[1..]);
    }
  }

  lemma {:induction false} ZeroCounts(categories: seq<Category>)
    ensures SumCounts(WithTaskCounts(categories, [])) == 0
  {
    if |categories| > 0 {
      ZeroCounts(categories[1..]);
    }
  }
}
