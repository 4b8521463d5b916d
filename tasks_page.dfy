/** The page that ties everything together: which category or shortcut is
    selected, the filters, the open dialogs and the refresh counter that makes
    the list and the sidebar reload after every successful write. */
module TasksPage {
  import opened Common
  import opened Records
  import TaskStore
  import CategoryStore
  import TaskList
  import CategorySidebar

  /** The record a delete dialog is about. */
  datatype Item = TaskItem(task: Task) | CategoryItem(category: Category) {
    function Id(): Id {
      match this
      case TaskItem(t) => t.id
      case CategoryItem(c) => c.id
    }
  }

  /** The filters after a sidebar selection: the shortcuts "all", "completed"
      and "pending" set the status and open the category filter; anything else
      is a category identifier, which opens the status filter. The priority is
      never touched. */
  function SelectFilters(prev: Filters, id: Id): (f: Filters)
    ensures f.priority == prev.priority
    ensures f.status in {"all", "completed", "pending"}
    ensures f.category == AllCategories || f.category == id
  {
    if id == StrId("all") then prev.(status := "all", category := AllCategories)
    else if id == StrId("completed") then prev.(status := "completed", category := AllCategories)
    else if id == StrId("pending") then prev.(status := "pending", category := AllCategories)
    else prev.(status := "all", category := id)
  }

  /** The figure the sidebar shows next to an entry. */
  function SidebarFigure(tasks: seq<Task>, id: Id): nat {
    if id == StrId("all") then CategorySidebar.TotalCount(tasks)
    else if id == StrId("completed") then CategorySidebar.CompletedCount(tasks)
    else if id == StrId("pending") then CategorySidebar.PendingCount(tasks)
    else CategorySidebar.CountFor(tasks, id)
  }

  /** Selecting a sidebar entry, with no search term and the priority filter
      open, shows exactly as many tasks as the sidebar printed beside it: the
      shortcut mapping agrees with the list's filter. */
  lemma SelectionShowsSidebarFigure(tasks: seq<Task>, prev: Filters, id: Id)
    requires prev.priority == "all"
    ensures |TaskList.FilterTasks(tasks, "", SelectFilters(prev, id))| == SidebarFigure(tasks, id)
  {
    var f := SelectFilters(prev, id);
    if id == StrId("all") {
      TaskList.FilterNoOp(tasks, f);
    } else if id == StrId("completed") {
      CategorySidebar.CompletedMatchesStatusFilter(tasks);
    } else if id == StrId("pending") {
      CategorySidebar.PendingMatchesStatusFilter(tasks);
    } else {
      CategorySidebar.CountMatchesCategoryFilter(tasks, id);
    }
  }

  class Page {
    var selectedCategory: Id
    var searchTerm: string
    var filters: Filters
    var categories: seq<Category>
    var isTaskModalOpen: bool
    var isCategoryModalOpen: bool
    var isDeleteDialogOpen: bool
    var isMobileMenuOpen: bool
    var currentTask: Option<Task>
    var currentCategory: Option<Category>
    var itemToDelete: Option<Item>
    var deleteType: string
    var refreshTrigger: nat

    /** The initial state: "all" selected, no search, all filters open, every
        dialog closed, nothing selected for editing or deletion. */
    constructor ()
      ensures selectedCategory == StrId("all") && searchTerm == "" && filters == InitialFilters
      ensures categories == []
      ensures !isTaskModalOpen && !isCategoryModalOpen && !isDeleteDialogOpen && !isMobileMenuOpen
      ensures currentTask == None && currentCategory == None && itemToDelete == None
      ensures deleteType == "task" && refreshTrigger == 0
    {
      selectedCategory := StrId("all");
      searchTerm := "";
      filters := InitialFilters;
      categories := [];
      isTaskModalOpen, isCategoryModalOpen, isDeleteDialogOpen, isMobileMenuOpen := false, false, false, false;
      currentTask, currentCategory, itemToDelete := None, None, None;
      deleteType := "task";
      refreshTrigger := 0;
    }

    /** `loadCategories`: the page keeps what the category store lists. */
    method LoadCategories(service: CategoryStore.CategoryService)
      modifies this`categories
      ensures categories == service.categories
    {
      categories := service.GetAll();
    }

    /** `handleCategorySelect`: records the selection, derives the filters from
        it and closes the mobile menu. */
    method CategorySelect(id: Id)
      modifies this`selectedCategory, this`filters, this`isMobileMenuOpen
      ensures selectedCategory == id
      ensures filters == SelectFilters(old(filters), id)
      ensures !isMobileMenuOpen
    {
      selectedCategory := id;
      filters := SelectFilters(filters, id);
      isMobileMenuOpen := false;
    }

    /** `onSearch={setSearchTerm}`. */
    method SetSearchTerm(term: string)
      modifies this`searchTerm
      ensures searchTerm == term
    {
      searchTerm := term;
    }

    /** `onFilterChange={setFilters}`: the search bar's whole filter object
        replaces the page's, including what a sidebar selection had set. */
    method SetFilters(f: Filters)
      modifies this`filters
      ensures filters == f
    {
      filters := f;
    }

    method ToggleMobileMenu()
      modifies this`isMobileMenuOpen
      ensures isMobileMenuOpen == !old(isMobileMenuOpen)
    {
      isMobileMenuOpen := !isMobileMenuOpen;
    }

    /** `handleCreateTask`. */
    method CreateTask()
      modifies this`currentTask, this`isTaskModalOpen
      ensures currentTask == None && isTaskModalOpen
    {
      currentTask := None;
      isTaskModalOpen := true;
    }

    /** `handleEditTask`; the empty list's action button calls it with `null`,
        which opens the dialog for a new task. */
    method EditTask(t: Option<Task>)
      modifies this`currentTask, this`isTaskModalOpen
      ensures currentTask == t && isTaskModalOpen
    {
      currentTask := t;
      isTaskModalOpen := true;
    }

    /** Closing or cancelling the task dialog. */
    method CloseTaskModal()
      modifies this`currentTask, this`isTaskModalOpen
      ensures currentTask == None && !isTaskModalOpen
    {
      isTaskModalOpen := false;
      currentTask := None;
    }

    /** `handleDeleteTask`. */
    method DeleteTask(t: Task)
      modifies this`itemToDelete, this`deleteType, this`isDeleteDialogOpen
      ensures itemToDelete == Some(TaskItem(t)) && deleteType == "task" && isDeleteDialogOpen
    {
      itemToDelete := Some(TaskItem(t));
      deleteType := "task";
      isDeleteDialogOpen := true;
    }

    /** `handleCreateCategory`. */
    method CreateCategory()
      modifies this`currentCategory, this`isCategoryModalOpen
      ensures currentCategory == None && isCategoryModalOpen
    {
      currentCategory := None;
      isCategoryModalOpen := true;
    }

    /** `handleEditCategory`; the sidebar's add buttons call it with `null`,
        which opens the dialog for a new category. */
    method EditCategory(c: Option<Category>)
      modifies this`currentCategory, this`isCategoryModalOpen
      ensures currentCategory == c && isCategoryModalOpen
    {
      currentCategory := c;
      isCategoryModalOpen := true;
    }

    /** Closing or cancelling the category dialog. */
    method CloseCategoryModal()
      modifies this`currentCategory, this`isCategoryModalOpen
      ensures currentCategory == None && !isCategoryModalOpen
    {
      isCategoryModalOpen := false;
      currentCategory := None;
    }

    /** `handleDeleteCategory`. */
    method DeleteCategory(c: Category)
      modifies this`itemToDelete, this`deleteType, this`isDeleteDialogOpen
      ensures itemToDelete == Some(CategoryItem(c)) && deleteType == "category" && isDeleteDialogOpen
    {
      itemToDelete := Some(CategoryItem(c));
      deleteType := "category";
      isDeleteDialogOpen := true;
    }

    /** Closing the delete dialog (also done right after a confirmation). */
    method CloseDeleteDialog()
      modifies this`isDeleteDialogOpen
      ensures !isDeleteDialogOpen
    {
      isDeleteDialogOpen := false;
    }

    /** `handleTaskSubmit`: updates the task being edited, or creates one. On
        success the dialog closes, nothing is left selected for editing and the
        refresh counter goes up by one; when the store throws, the error is
        passed on and the page is left as it was. */
    method TaskSubmit(d: TaskDraft, service: TaskStore.TaskService, now: Stamp) returns (outcome: Outcome)
      requires service.Valid()
      modifies this`isTaskModalOpen, this`currentTask, this`refreshTrigger, service
      ensures service.Valid()
      ensures old(currentTask).None? ==>
        outcome == Done && service.tasks == old(service.tasks) + [TaskStore.NewTask(TaskStore.NextId(old(service.tasks)), d, now)]
      ensures old(currentTask).Some? ==>
        var j := IndexOf(TaskIds(old(service.tasks)), old(currentTask).value.id);
        && (outcome == Done <==> j != -1)
        && (j != -1 ==> service.tasks == old(service.tasks)[j := TaskStore.Merged(old(service.tasks)[j], DraftPatch(d))])
      ensures outcome == Done ==> !isTaskModalOpen && currentTask == None && refreshTrigger == old(refreshTrigger) + 1
      ensures outcome.Thrown? ==>
        && outcome.message == TaskStore.NotFound
        && isTaskModalOpen == old(isTaskModalOpen) && currentTask == old(currentTask)
        && refreshTrigger == old(refreshTrigger) && service.tasks == old(service.tasks)
    {
      if currentTask.Some? {
        var r := service.Update(currentTask.value.id, DraftPatch(d));
        if r.Err? {
          outcome := Thrown(r.message);
          return;
        }
      } else {
        var t := service.Create(d, now);
      }
      isTaskModalOpen := false;
      currentTask := None;
      refreshTrigger := refreshTrigger + 1;
      outcome := Done;
    }

    /** `handleCategorySubmit`: the same protocol for categories. */
    method CategorySubmit(d: CategoryDraft, service: CategoryStore.CategoryService) returns (outcome: Outcome)
      requires service.Valid()
      modifies this`isCategoryModalOpen, this`currentCategory, this`refreshTrigger, service
      ensures service.Valid()
      ensures old(currentCategory).None? ==>
        outcome == Done
        && service.categories == old(service.categories) + [CategoryStore.NewCategory(CategoryStore.NextId(old(service.categories)), d)]
      ensures old(currentCategory).Some? ==>
        var j := IndexOf(CategoryIds(old(service.categories)), old(currentCategory).value.id);
        && (outcome == Done <==> j != -1)
        && (j != -1 ==> service.categories == old(service.categories)[j := CategoryStore.Merged(old(service.categories)[j], d)])
      ensures outcome == Done ==> !isCategoryModalOpen && currentCategory == None && refreshTrigger == old(refreshTrigger) + 1
      ensures outcome.Thrown? ==>
        && outcome.message == CategoryStore.NotFound
        && isCategoryModalOpen == old(isCategoryModalOpen) && currentCategory == old(currentCategory)
        && refreshTrigger == old(refreshTrigger) && service.categories == old(service.categories)
    {
      if currentCategory.Some? {
        var r := service.Update(currentCategory.value.id, d);
        if r.Err? {
          outcome := Thrown(r.message);
          return;
        }
      } else {
        var c := service.Create(d);
      }
      isCategoryModalOpen := false;
      currentCategory := None;
      refreshTrigger := refreshTrigger + 1;
      outcome := Done;
    }

    /** `handleConfirmDelete`: deletes from the task store when the dialog is
        about a task and from the category store otherwise; the refresh counter
        goes up by one exactly when the delete succeeds. With nothing selected
        the read of `itemToDelete.Id` throws and nothing is deleted. Failures
        are caught here and not passed on. */
    method ConfirmDelete(tasks: TaskStore.TaskService, categories: CategoryStore.CategoryService) returns (succeeded: bool)
      requires tasks.Valid() && categories.Valid()
      modifies this`refreshTrigger, tasks, categories
      ensures tasks.Valid() && categories.Valid()
      ensures succeeded <==>
        && itemToDelete.Some?
        && if deleteType == "task" then itemToDelete.value.Id() in TaskIds(old(tasks.tasks))
           else itemToDelete.value.Id() in CategoryIds(old(categories.categories))
      ensures refreshTrigger == old(refreshTrigger) + (if succeeded then 1 else 0)
      ensures deleteType != "task" || !succeeded ==> tasks.tasks == old(tasks.tasks)
      ensures deleteType == "task" || !succeeded ==> categories.categories == old(categories.categories)
      ensures succeeded && deleteType == "task" ==>
        var i := IndexOf(TaskIds(old(tasks.tasks)), itemToDelete.value.Id());
        tasks.tasks == old(tasks.tasks)[..i] + old(tasks.tasks)[i + 1..]
      ensures succeeded && deleteType != "task" ==>
        var i := IndexOf(CategoryIds(old(categories.categories)), itemToDelete.value.Id());
        categories.categories == old(categories.categories)[..i] + old(categories.categories)[i + 1..]
    {
      if itemToDelete.None? {
        succeeded := false;
        return;
      }
      var id := itemToDelete.value.Id();
      if deleteType == "task" {
        var r := tasks.Delete(id);
        succeeded := r.Ok?;
      } else {
        var r := categories.Delete(id);
        succeeded := r.Ok?;
      }
      if succeeded {
        refreshTrigger := refreshTrigger + 1;
      }
    }
  }
}
