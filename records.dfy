/** The records the task manager stores and passes around. */
module Records {
  import opened Common

  /** A calendar day (the date a `dueDate` names), counted from an arbitrary origin. */
  type Day = int

  /** A point in time in milliseconds; `createdAt` and `completedAt` hold such values
      and are otherwise opaque to the model. */
  type Stamp = int

  /** A stored task. Optional keys are `None` when absent or `null`. */
  datatype Task = Task(
    id: Id,
    title: string,
    description: Option<string>,
    completed: bool,
    status: Option<string>,
    priority: string,
    categoryId: Ref,
    dueDate: Option<Day>,
    createdAt: Stamp,
    completedAt: Option<Stamp>)

  /** A stored category; `taskCount` is derived by the sidebar, the store keeps 0. */
  datatype Category = Category(id: Id, name: string, color: string, taskCount: nat)

  /** The object the task form submits: every key present, `dueDate` already
      turned from "" into `null`. `description` is `None` when a caller leaves
      the key out. */
  datatype TaskDraft = TaskDraft(
    title: string,
    description: Option<string>,
    priority: string,
    status: string,
    categoryId: Ref,
    dueDate: Option<Day>)

  /** The keys an object passed to `taskService.update` carries: `Some(v)` for a
      key that is present with value `v`. It never carries `Id`. */
  datatype TaskPatch = TaskPatch(
    title: Option<string>,
    description: Option<Option<string>>,
    completed: Option<bool>,
    status: Option<Option<string>>,
    priority: Option<string>,
    categoryId: Option<Ref>,
    dueDate: Option<Option<Day>>,
    createdAt: Option<Stamp>,
    completedAt: Option<Option<Stamp>>)

  /** The object the category form submits, to `create` and to `update` alike. */
  datatype CategoryDraft = CategoryDraft(name: string, color: string)

  /** The filter object shared by the search bar, the page and the task list.
      `category` holds "all" or the identifier of a category. */
  datatype Filters = Filters(status: string, category: Id, priority: string)

  const AllCategories: Id := StrId("all")

  /** The filters every component starts with: all three keys "all". */
  const InitialFilters := Filters("all", AllCategories, "all")

  /** A draft handed to `update`: the keys the form submits, and no others. */
  function DraftPatch(d: TaskDraft): (p: TaskPatch)
    ensures p.completed.None? && p.createdAt.None? && p.completedAt.None?
    ensures p.title == Some(d.title) && p.priority == Some(d.priority)
    ensures p.status == Some(Some(d.status)) && p.categoryId == Some(d.categoryId)
    ensures p.dueDate == Some(d.dueDate)
    ensures p.description.Some? <==> d.description.Some?
  {
    TaskPatch(
      Some(d.title),
      if d.description.Some? then Some(d.description) else None,
      None,
      Some(Some(d.status)),
      Some(d.priority),
      Some(d.categoryId),
      Some(d.dueDate),
      None,
      None)
  }

  /** A whole task handed to `update` (`{ ...task, ... }`): every key but `Id`. */
  function FullPatch(t: Task): TaskPatch {
    TaskPatch(
      Some(t.title), Some(t.description), Some(t.completed), Some(t.status), Some(t.priority),
      Some(t.categoryId), Some(t.dueDate), Some(t.createdAt), Some(t.completedAt))
  }

  /** The identifiers of the stored tasks, position by position. */
  function TaskIds(tasks: seq<Task>): (ids: seq<Id>)
    ensures |ids| == |tasks|
    ensures forall i :: 0 <= i < |tasks| ==> ids[i] == tasks[i].id
  {
    seq(|tasks|, i requires 0 <= i < |tasks| => tasks[i].id)
  }

  /** The identifiers of the stored categories, position by position. */
  function CategoryIds(categories: seq<Category>): (ids: seq<Id>)
    ensures |ids| == |categories|
    ensures forall i :: 0 <= i < |categories| ==> ids[i] == categories[i].id
  {
    seq(|categories|, i requires 0 <= i < |categories| => categories[i].id)
  }
}
