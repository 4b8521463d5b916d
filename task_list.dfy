/** The task list: the four-way filter over the loaded tasks, the completion
    toggle and the category lookup used when each card is drawn. */
module TaskList {
  import opened Common
  import opened Text
  import opened Records
  import TaskStore
  import CategoryStore

  /** Search: an empty term keeps every task; otherwise the lower-cased title or
      the lower-cased description must contain the lower-cased term. A task
      without a description can only match on its title. */
  predicate MatchesSearch(t: Task, term: string): (b: bool)
    ensures term == "" ==> b
    ensures Lower(term) == Lower(t.title) ==> b
    ensures Includes(Lower(t.title), Lower(term)) ==> b
    ensures t.description.Some? && Includes(Lower(t.description.value), Lower(term)) ==> b
    ensures t.description.None? ==> (b <==> term == "" || Includes(Lower(t.title), Lower(term)))
  {
    || term == ""
    || Includes(Lower(t.title), Lower(term))
    || (t.description.Some? && Includes(Lower(t.description.value), Lower(term)))
  }

  /** Status: "completed" keeps completed tasks, "pending" keeps the others,
      any other value keeps everything. */
  predicate MatchesStatus(t: Task, status: string): (b: bool)
    ensures status == "completed" ==> (b <==> t.completed)
    ensures status == "pending" ==> (b <==> !t.completed)
    ensures status != "completed" && status != "pending" ==> b
  {
    && !(status == "completed" && !t.completed)
    && !(status == "pending" && t.completed)
  }

  /** Category: "all" keeps everything, any other value keeps the tasks whose
      `categoryId` is strictly equal to it (an object reference never is). */
  predicate MatchesCategory(t: Task, category: Id): (b: bool)
    ensures category == AllCategories ==> b
    ensures !t.categoryId.Bare? ==> (b <==> category == AllCategories)
    ensures b && category != AllCategories ==> t.categoryId.id == category
  {
    category == AllCategories || t.categoryId == Bare(category)
  }

  /** Priority: "all" keeps everything, any other value keeps equal priorities. */
  predicate MatchesPriority(t: Task, priority: string): (b: bool)
    ensures priority == "all" ==> b
    ensures b && priority != "all" ==> t.priority == priority
    ensures t.priority == priority ==> b
  {
    priority == "all" || t.priority == priority
  }

  /** The search ignores the case of the term: searching for its lower-cased
      form keeps the same tasks. */
  lemma SearchIgnoresTermCase(t: Task, term: string)
    ensures MatchesSearch(t, Lower(term)) == MatchesSearch(t, term)
  {
    LowerIdempotent(term);
  }

  /** A task passes when it passes all four filters; with no search term and
      every filter open, every task passes. */
  predicate Matches(t: Task, term: string, f: Filters): (b: bool)
    ensures (term == "" && f.status != "completed" && f.status != "pending"
             && f.category == AllCategories && f.priority == "all") ==> b
  {
    && MatchesSearch(t, term)
    && MatchesStatus(t, f.status)
    && MatchesCategory(t, f.category)
    && MatchesPriority(t, f.priority)
  }

  /** `filterTasks`: the tasks that pass all four filters, in their order. */
  function FilterTasks(tasks: seq<Task>, term: string, f: Filters): (r: seq<Task>)
    ensures |r| <= |tasks|
    ensures forall t :: t in r ==> t in tasks && Matches(t, term, f)
  {
    if |tasks| == 0 then []
    else
      var rest := FilterTasks(tasks[1..], term, f);
      if Matches(tasks[0], term, f) then [tasks[0]] + rest else rest
  }

  /** `xs` is obtained from `ys` by deleting elements. */
  predicate IsSubsequence(xs: seq<Task>, ys: seq<Task>) {
    || xs == []
    || (|ys| > 0 && ((xs[0] == ys[0] && IsSubsequence(xs[1..], ys[1..])) || IsSubsequence(xs, ys[1..])))
  }

  /** Filtering only deletes: the result is a subsequence of the input. */
  lemma {:induction false} FilterIsSubsequence(tasks: seq<Task>, term: string, f: Filters)
    ensures IsSubsequence(FilterTasks(tasks, term, f), tasks)
  {
    if |tasks| > 0 {
      var rest := FilterTasks(tasks[1..], term, f);
      FilterIsSubsequence(tasks[1..], term, f);
      if Matches(tasks[0], term, f) {
        assert ([tasks[0]] + rest)[1..] == rest;
      }
    }
  }

  /** Filtering drops no task that passes all four filters. */
  lemma {:induction false} FilterKeepsMatches(tasks: seq<Task>, term: string, f: Filters, t: Task)
    requires t in tasks && Matches(t, term, f)
    ensures t in FilterTasks(tasks, term, f)
  {
    if tasks[0] != t {
      FilterKeepsMatches(tasks[1..], term, f, t);
    }
  }

  /** What a kept task satisfies, filter by filter. */
  lemma FilterKeeps(tasks: seq<Task>, term: string, f: Filters, t: Task)
    requires t in FilterTasks(tasks, term, f)
    ensures t in tasks
    ensures term != "" ==>
      Includes(Lower(t.title), Lower(term))
      || (t.description.Some? && Includes(Lower(t.description.value), Lower(term)))
    ensures f.status == "completed" ==> t.completed
    ensures f.status == "pending" ==> !t.completed
    ensures f.category != AllCategories ==> t.categoryId == Bare(f.category)
    ensures f.priority != "all" ==> t.priority == f.priority
  {
  }

  /** With no search term, a status other than "completed"/"pending" and both
      other filters at "all", the list is shown unchanged. */
  lemma {:induction false} FilterNoOp(tasks: seq<Task>, f: Filters)
    requires f.status != "completed" && f.status != "pending"
    requires f.category == AllCategories && f.priority == "all"
    ensures FilterTasks(tasks, "", f) == tasks
  {
    if |tasks| > 0 {
      FilterNoOp(tasks[1..], f);
      assert [tasks[0]] + tasks[1..] == tasks;
    }
  }

  /** Searching "milk" over "Buy milk" and "Walk dog" (no descriptions) keeps
      exactly the first. */
  lemma SearchExample(milk: Task, dog: Task)
    requires milk.title == "Buy milk" && dog.title == "Walk dog"
    requires milk.description == None && dog.description == None
    ensures FilterTasks([milk, dog], "milk", InitialFilters) == [milk]
  {
    MilkFound();
    MilkNotInDog();
    assert Matches(milk, "milk", InitialFilters);
    assert !Matches(dog, "milk", InitialFilters);
    assert [milk, dog][1..] == [dog];
  }

  lemma MilkFound()
    ensures Lower("milk") == "milk" && Includes(Lower("Buy milk"), "milk")
  {
    assert Lower("milk") == "milk";
    assert Lower("Buy milk") == "buy milk";
    IncludesFrom("buy milk", "milk", 4);
  }

  lemma MilkNotInDog()
    ensures !Includes(Lower("Walk dog"), "milk")
  {
    assert Lower("Walk dog") == "walk dog";
    NotIncludesShort("dog", "milk");
    var hay := " dog";
    NotIncludesStep(hay, "milk");
    hay := "k" + hay;
    NotIncludesStep(hay, "milk");
    hay := "l" + hay;
    NotIncludesStep(hay, "milk");
    hay := "a" + hay;
    NotIncludesStep(hay, "milk");
    hay := "w" + hay;
    NotIncludesStep(hay, "milk");
    assert hay == "walk dog";
  }

  /** A needle longer than the haystack is not included. */
  lemma {:induction false} NotIncludesShort(hay: string, needle: string)
    requires |hay| < |needle|
    ensures !Includes(hay, needle)
  {
    if |hay| > 0 {
      NotIncludesShort(hay[1..], needle);
    }
  }

  /** A haystack whose first character differs from the needle's includes it
      only if its tail does. */
  lemma NotIncludesStep(hay: string, needle: string)
    requires |hay| > 0 && |needle| > 0 && hay[0] != needle[0] && !Includes(hay[1..], needle)
    ensures !Includes(hay, needle)
  {
  }

  /** The record `handleToggleComplete` sends: `completed` flipped, a completion
      time exactly when the task becomes completed, every other field copied. */
  function Toggled(t: Task, now: Stamp): (r: Task)
    ensures r.completed == !t.completed
    ensures r.completedAt.Some? <==> r.completed
    ensures r == t.(completed := r.completed, completedAt := r.completedAt)
  {
    t.(completed := !t.completed, completedAt := if !t.completed then Some(now) else None)
  }

  /** Toggling twice restores `completed`; a pending task toggled on and off
      again is the original task with no completion time. */
  lemma ToggleTwice(t: Task, a: Stamp, b: Stamp)
    ensures Toggled(Toggled(t, a), b).completed == t.completed
    ensures !t.completed ==> Toggled(t, a).completedAt == Some(a)
    ensures !t.completed ==> Toggled(Toggled(t, a), b) == t.(completedAt := None)
  {
  }

  /** `prev.map(t => t.Id === id ? result : t)`: an identifier the list does
      not hold leaves it unchanged; on distinct identifiers exactly the slot
      the store's `findIndex` reports takes the result, the slot the store's
      `update` rewrites. */
  function ReplaceById(tasks: seq<Task>, id: Id, result: Task): (r: seq<Task>)
    ensures |r| == |tasks|
    ensures id !in TaskIds(tasks) ==> r == tasks
    ensures Distinct(TaskIds(tasks)) && id in TaskIds(tasks) ==>
      r == tasks[IndexOf(TaskIds(tasks), id) := result]
  {
    if |tasks| == 0 then []
    else
      var rest := ReplaceById(tasks[1..], id, result);
      ReplaceByIdStep(tasks, id, result, rest);
      [if tasks[0].id == id then result else tasks[0]] + rest
  }

  /** One step of `ReplaceById`: from what the rest of the list becomes to what
      the whole list becomes. */
  lemma ReplaceByIdStep(tasks: seq<Task>, id: Id, result: Task, rest: seq<Task>)
    requires |tasks| > 0 && |rest| == |tasks| - 1
    requires id !in TaskIds(tasks[1..]) ==> rest == tasks[1..]
    requires Distinct(TaskIds(tasks[1..])) && id in TaskIds(tasks[1..]) ==>
      rest == tasks[1..][IndexOf(TaskIds(tasks[1..]), id) := result]
    ensures var r := [if tasks[0].id == id then result else tasks[0]] + rest;
      (id !in TaskIds(tasks) ==> r == tasks) &&
      (Distinct(TaskIds(tasks)) && id in TaskIds(tasks) ==>
         r == tasks[IndexOf(TaskIds(tasks), id) := result])
  {
    var ids := TaskIds(tasks);
    assert TaskIds(tasks[1..]) == ids[1..];
    if tasks[0].id == id {
      assert id in ids;
      if Distinct(ids) {
        HitAtHead(tasks, id, result, rest);
      }
    } else if id !in ids {
      assert id !in ids[1..];
      assert [tasks[0]] + tasks[1..] == tasks;
    } else if Distinct(ids) {
      HitInTail(tasks, id, result, rest);
    }
  }

  /** The head holds the identifier: on distinct identifiers the rest is
      untouched and only the head is replaced. */
  lemma HitAtHead(tasks: seq<Task>, id: Id, result: Task, rest: seq<Task>)
    requires |tasks| > 0 && tasks[0].id == id && Distinct(TaskIds(tasks))
    requires id !in TaskIds(tasks[1..]) ==> rest == tasks[1..]
    ensures [result] + rest == tasks[IndexOf(TaskIds(tasks), id) := result]
  {
    var ids := TaskIds(tasks);
    assert TaskIds(tasks[1..]) == ids[1..];
    assert ids[0] == id;
    assert id !in ids[1..];
    assert IndexOf(ids, id) == 0;
    ShiftUpdate(tasks, -1, result);
  }

  /** The identifier lies past the head: the replaced slot of the rest is one
      slot further on in the whole list. */
  lemma HitInTail(tasks: seq<Task>, id: Id, result: Task, rest: seq<Task>)
    requires |tasks| > 0 && tasks[0].id != id
    requires id in TaskIds(tasks) && Distinct(TaskIds(tasks))
    requires Distinct(TaskIds(tasks[1..])) && id in TaskIds(tasks[1..]) ==>
      rest == tasks[1..][IndexOf(TaskIds(tasks[1..]), id) := result]
    ensures [tasks[0]] + rest == tasks[IndexOf(TaskIds(tasks), id) := result]
  {
    var ids := TaskIds(tasks);
    var tail := TaskIds(tasks[1..]);
    assert tail == ids[1..];
    DistinctTail(ids);
    assert id in tail;
    var k := IndexOf(tail, id);
    assert IndexOf(ids, id) == k + 1;
    ShiftUpdate(tasks, k, result);
  }

  /** A list without its head keeps distinct identifiers distinct. */
  lemma DistinctTail(ids: seq<Id>)
    requires |ids| > 0 && Distinct(ids)
    ensures Distinct(ids[1..])
  {
    forall i, j | 0 <= i < j < |ids| - 1
      ensures ids[1..][i] != ids[1..][j]
    {
      assert ids[1..][i] == ids[i + 1] && ids[1..][j] == ids[j + 1];
    }
  }

  /** Replacing slot `k` of the tail is replacing slot `k + 1` of the list;
      `k == -1` stands for the head itself. */
  lemma ShiftUpdate(tasks: seq<Task>, k: int, result: Task)
    requires -1 <= k < |tasks| - 1
    ensures k == -1 ==> [result] + tasks[1..] == tasks[0 := result]
    ensures 0 <= k ==> [tasks[0]] + tasks[1..][k := result] == tasks[k + 1 := result]
  {
  }

  /** `getCategoryById` as written: an object argument is unwrapped to its `Id`,
      but `typeof null === 'object'` sends `null` down that branch too, where
      reading `null.Id` throws a TypeError. */
  function GetCategoryByIdAsWritten(categories: seq<Category>, arg: Ref): (r: Result<Option<Category>>)
    ensures r.Err? <==> arg.Null?
  {
    match arg
    case Null => Err("TypeError: Cannot read properties of null (reading 'Id')")
    case Bare(id) => Ok(FindCategory(categories, id))
    case Obj(id) => Ok(FindCategory(categories, id))
  }

  /** `categories.find(cat => cat.Id === id)`. */
  function FindCategory(categories: seq<Category>, id: Id): (r: Option<Category>)
    ensures r.Some? <==> id in CategoryIds(categories)
    ensures r.Some? ==> r.value == categories[IndexOf(CategoryIds(categories), id)]
  {
    var i := IndexOf(CategoryIds(categories), id);
    if i == -1 then None else Some(categories[i])
  }

  /** A task saved without a category stores `categoryId: null`, so drawing its
      card makes the lookup as written throw. */
  lemma UncategorisedTaskBreaksLookup(categories: seq<Category>, n: nat, d: TaskDraft, now: Stamp)
    requires !Truthy(d.categoryId)
    ensures GetCategoryByIdAsWritten(categories, TaskStore.NewTask(n, d, now).categoryId).Err?
  {
  }

  /** The lookup as intended: `null` means no category; a bare identifier or an
      object carrying one resolves to the first category with that identifier,
      or to none. It agrees with the written lookup wherever that one returns. */
  function GetCategoryById(categories: seq<Category>, arg: Ref): (r: Option<Category>)
    ensures arg.Null? ==> r == None
    ensures !arg.Null? ==> (r.Some? <==> arg.id in CategoryIds(categories))
    ensures r.Some? ==> r.value.id == arg.id && r.value in categories
    ensures GetCategoryByIdAsWritten(categories, arg).Ok? ==> GetCategoryByIdAsWritten(categories, arg).value == r
  {
    match arg
    case Null => None
    case Bare(id) => FindCategory(categories, id)
    case Obj(id) => FindCategory(categories, id)
  }

  /** A task saved without a category is drawn with no category, without error. */
  lemma UncategorisedTaskHasNoCategory(categories: seq<Category>, n: nat, d: TaskDraft, now: Stamp)
    requires !Truthy(d.categoryId)
    ensures GetCategoryById(categories, TaskStore.NewTask(n, d, now).categoryId) == None
  {
  }

  /** Once a category is spliced out of a store with distinct identifiers, every
      task still referring to it resolves to no category. */
  lemma {:induction false} OrphanResolvesToNone(categories: seq<Category>, i: nat, ref: Ref)
    requires Distinct(CategoryIds(categories)) && i < |categories|
    requires ref == Bare(categories[i].id) || ref == Obj(categories[i].id)
    ensures GetCategoryById(categories[..i] + categories[i + 1..], ref) == None
  {
    var ids := CategoryIds(categories);
    RemoveAt(ids, i);
    assert CategoryIds(categories[..i] + categories[i + 1..]) == ids[..i] + ids[i + 1..];
  }

  /** The component's loaded state. */
  class TaskListView {
    var tasks: seq<Task>
    var categories: seq<Category>

    /** A load leaves the state holding what both stores' `getAll` return. */
    method Load(taskService: TaskStore.TaskService, categoryService: CategoryStore.CategoryService)
      modifies this
      ensures tasks == taskService.tasks && categories == categoryService.categories
    {
      tasks := taskService.GetAll();
      categories := categoryService.GetAll();
    }

    /** `handleToggleComplete`: an identifier not in the list changes nothing;
        otherwise the toggled record is sent to the store, and only when the
        store accepts it does the list entry with that identifier take the
        store's answer, which is exactly the toggled record. */
    method ToggleComplete(taskId: Id, service: TaskStore.TaskService, now: Stamp)
      requires service.Valid()
      modifies this`tasks, service
      ensures service.Valid()
      ensures IndexOf(TaskIds(old(tasks)), taskId) == -1 ==>
        tasks == old(tasks) && service.tasks == old(service.tasks)
      ensures var i := IndexOf(TaskIds(old(tasks)), taskId);
        var j := IndexOf(TaskIds(old(service.tasks)), taskId);
        0 <= i && j == -1 ==> tasks == old(tasks) && service.tasks == old(service.tasks)
      ensures var i := IndexOf(TaskIds(old(tasks)), taskId);
        var j := IndexOf(TaskIds(old(service.tasks)), taskId);
        0 <= i && 0 <= j ==>
          var u := Toggled(old(tasks)[i], now);
          && service.tasks == old(service.tasks)[j := u]
          && tasks == ReplaceById(old(tasks), taskId, u)
    {
      var i := IndexOf(TaskIds(tasks), taskId);
      if i == -1 {
        return;
      }
      var updated := Toggled(tasks[i], now);
      ghost var j := IndexOf(TaskIds(service.tasks), taskId);
      if j != -1 {
        TaskStore.MergeFullPatch(service.tasks[j], updated);
      }
      var result := service.Update(taskId, FullPatch(updated));
      if result.Ok? {
        tasks := ReplaceById(tasks, taskId, result.value);
      }
    }
  }
}
