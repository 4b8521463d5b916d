# Task manager data layer and view-state rules, in Dafny

This project models the client-side core of a task-management web application
(dash-clarity-tasks). Users keep tasks in categories, search and filter them,
and mark them complete. The model covers:

- **The two in-memory stores** (`taskService`, `categoryService`). Each is a
  class that holds a sequence of records and offers `getAll`, `getById`,
  `create`, `update`, `delete` and `getNextId`. Task identifiers are numbers.
  Category identifiers are decimal strings. Every lookup is strict `===`, so
  the model's `Id` type keeps numbers and strings apart (`NumId`/`StrId`).
- **The task list**: the four-way filter (search text, status, category,
  priority), the completion toggle with its write-back, and the category
  lookup for each card.
- **The sidebar's counts**: a task count per category, plus the total,
  completed and pending counts.
- **The page's state machine**: the sidebar selection that becomes filters,
  the open dialogs, the task and category submit handlers, and the confirm
  delete. A successful write bumps a refresh counter.
- **The two forms**: defaults when a form is opened for editing, validation,
  the submitted data, reset after a create, and per-field changes.
- **The search bar**: per-key filter changes.
- **The task card's derived display**: the priority colour and the due-date
  badge.

Stateful code is modelled as classes:

- The stores, the list, the page, the forms and the search bar are classes.
  Their methods say in `ensures` what the new state is.
- The filter, the counts, the record builders and the classifications are
  functions. Lemmas relate them to one another and to the stores.

Three behaviours of the code are modelled as written, although an
application of this kind would usually do otherwise:

- Identifiers are compared raw with `===`, not normalised first. A task
  whose `categoryId` is an object `{Id}` is therefore never counted by the
  sidebar and never matched by the category filter. Only `getCategoryById`
  unwraps the object form.
- The store's `create` drops the status the form sends. A created task has
  no status at all, and it only reads as "Not Started" because the edit form
  fills that default in when the task is reopened
  (`TaskForm.CreateThenEditForm`).
- `delete` of an unknown identifier throws "not found". It is not
  idempotent.

## Model

| member | source | states |
|---|---|---|
| Common.IndexOf | src/services/api/taskService.js:44-47 | `findIndex` by `===`: -1 exactly when no record has the identifier; otherwise the first position that holds it |
| Common.MaxOf | src/services/api/taskService.js:71 | `Math.max(...xs, 0)`: no element exceeds the result, and the result is 0 or one of the elements |
| Text.TrimEmptyIff | src/components/organisms/TaskForm.jsx:43 | `!s.trim()` holds exactly when the string is empty or all ECMAScript white space |
| Text.DecimalRoundTrip | src/services/api/categoryService.js:66-67 | `parseInt` of `(n).toString()` gives back `n` |
| Text.CanonicalInjective | src/services/api/categoryService.js:67 | two numerals written without leading zeros that parse to the same number are the same string, so the value fixes what `toString` writes |
| TaskStore.NextId | src/services/api/taskService.js:70-73 | the next task identifier is at least 1, exceeds every stored identifier, and is 1 or one more than a stored identifier; no stored task has it |
| TaskStore.NewTask | src/services/api/taskService.js:25-35 | the created record: the given identifier, not completed, no completion time, no status, description defaulting to "", a falsy category stored as `null`, the given creation time |
| TaskStore.Merged | src/services/api/taskService.js:49-52 | `{...stored, ...patch}` keeps the stored identifier |
| TaskStore.MergeFullPatch | src/services/api/taskService.js:49-54 | merging a whole record over a stored one with the same identifier yields that record |
| TaskStore.MergeDraftKeeps | src/services/api/taskService.js:49-52 | merging a form draft replaces title, priority, status, category and due date, replaces the description only when one is sent, and keeps identifier, completion and timestamps |
| TaskStore.TaskService.constructor | src/services/api/taskService.js:4-6 | the store starts as the seed records, which have distinct numeric identifiers |
| TaskStore.TaskService.GetAll | src/services/api/taskService.js:8-11 | the stored records in storage order; the store is unchanged |
| TaskStore.TaskService.GetById | src/services/api/taskService.js:13-20 | succeeds exactly when the identifier is stored and returns the first such record; otherwise "Task not found" |
| TaskStore.TaskService.Create | src/services/api/taskService.js:22-39 | appends exactly the new record with identifier `NextId`, which no stored task had; keeps identifiers distinct |
| TaskStore.TaskService.Update | src/services/api/taskService.js:41-56 | a known identifier: the slot becomes the merge and every other slot and the length are kept; unknown: "Task not found", store unchanged |
| TaskStore.TaskService.Delete | src/services/api/taskService.js:58-68 | a known identifier: returns the record and splices it out, keeping the others' order, and the identifier is gone; unknown: "Task not found", store unchanged |
| CategoryStore.NextId | src/services/api/categoryService.js:65-68 | the next identifier is a decimal numeral without leading zeros ("1" for an empty store) whose value exceeds every parsed stored identifier and is 1 or one more than one of them; no stored category has it |
| CategoryStore.NewCategory | src/services/api/categoryService.js:25-30 | the created category carries the given identifier, the form's name and colour, and a task count of 0 |
| CategoryStore.Merged | src/services/api/categoryService.js:44-47 | `{...stored, ...form}` takes name and colour from the form and keeps identifier and count |
| CategoryStore.CategoryService.constructor | src/services/api/categoryService.js:4-6 | the store starts as the seed records, which have distinct decimal-string identifiers |
| CategoryStore.CategoryService.GetAll | src/services/api/categoryService.js:8-11 | the stored categories in storage order; the store is unchanged |
| CategoryStore.CategoryService.GetById | src/services/api/categoryService.js:13-20 | succeeds exactly when the identifier is stored and returns the first such category; otherwise "Category not found" |
| CategoryStore.CategoryService.Create | src/services/api/categoryService.js:22-34 | appends `{Id: NextId, name, color, taskCount: 0}`, whose identifier is fresh; keeps identifiers distinct |
| CategoryStore.CategoryService.Update | src/services/api/categoryService.js:36-51 | a known identifier: the slot takes the form's name and colour and the rest is untouched; unknown: "Category not found", store unchanged |
| CategoryStore.CategoryService.Delete | src/services/api/categoryService.js:53-63 | a known identifier: splices out exactly that category, keeping the others' order; unknown: "Category not found", store unchanged |
| TaskList.MatchesSearch | src/components/organisms/TaskList.jsx:69-74 | an empty term keeps every task; a lower-cased title containing the lower-cased term keeps it, and so does a present lower-cased description containing it; a task without a description matches only on its title |
| TaskList.SearchIgnoresTermCase | src/components/organisms/TaskList.jsx:70 | searching for the lower-cased term keeps exactly the tasks the term itself keeps |
| TaskList.MatchesStatus | src/components/organisms/TaskList.jsx:77-78 | "completed" keeps exactly the completed tasks, "pending" exactly the open ones, any other value keeps every task |
| TaskList.MatchesCategory | src/components/organisms/TaskList.jsx:81 | "all" keeps every task; a `null` or object reference passes only "all"; otherwise a kept task refers to the selected identifier |
| TaskList.MatchesPriority | src/components/organisms/TaskList.jsx:84 | "all" keeps every task; a task with exactly the selected priority is kept; otherwise a kept task has exactly the selected priority |
| TaskList.Matches | src/components/organisms/TaskList.jsx:67-87 | with no search term and every filter open, every task passes |
| TaskList.FilterTasks | src/components/organisms/TaskList.jsx:66-88 | the result is no longer than the input, and each kept task is from the input and passes all four filters |
| TaskList.FilterIsSubsequence | src/components/organisms/TaskList.jsx:66-88 | the result is a subsequence of the input: order kept, nothing added |
| TaskList.FilterKeepsMatches | src/components/organisms/TaskList.jsx:66-88 | every task that passes all four filters is kept |
| TaskList.FilterKeeps | src/components/organisms/TaskList.jsx:69-84 | a kept task contains the lower-cased term in its title or its present description; "completed"/"pending" keep only completed/open tasks; a category or priority other than "all" must be strictly equal |
| TaskList.FilterNoOp | src/components/organisms/TaskList.jsx:66-88 | with no search term, a non-filtering status, and category and priority "all", the list is returned unchanged |
| TaskList.SearchExample | src/components/organisms/TaskList.jsx:69-74 | searching "milk" over "Buy milk" and "Walk dog" keeps exactly the first |
| TaskList.Toggled | src/components/organisms/TaskList.jsx:50-54 | the toggled record flips `completed`, has a completion time exactly when now completed, and copies every other field |
| TaskList.ToggleTwice | src/components/organisms/TaskList.jsx:50-54 | toggling twice restores `completed`; an open task toggled on and off is the original with no completion time |
| TaskList.ReplaceById | src/components/organisms/TaskList.jsx:59 | the same length; an identifier the list does not hold leaves it unchanged; on distinct identifiers exactly the slot the store's `findIndex` finds takes the result |
| TaskList.GetCategoryByIdAsWritten | src/components/organisms/TaskList.jsx:123-127 | the lookup as written fails exactly on a `null` reference |
| TaskList.FindCategory | src/components/organisms/TaskList.jsx:126 | `find` by `===`: a category exactly when the identifier is stored, and then the first one |
| TaskList.UncategorisedTaskBreaksLookup | src/components/organisms/TaskList.jsx:123-127 | a task created without a category makes the lookup as written throw |
| TaskList.GetCategoryById | src/components/organisms/TaskList.jsx:123-127 | the corrected lookup: `null` gives none; a bare or object reference gives a category exactly when its identifier is stored; it agrees with the written lookup wherever that returns |
| TaskList.UncategorisedTaskHasNoCategory | src/components/organisms/TaskList.jsx:123-127 | a task created without a category is shown with no category |
| TaskList.OrphanResolvesToNone | src/components/organisms/TaskList.jsx:123-127 | after a category is deleted, tasks still referring to it resolve to no category |
| TaskList.TaskListView.Load | src/components/organisms/TaskList.jsx:22-40 | after a load the list holds what both stores return |
| TaskList.TaskListView.ToggleComplete | src/components/organisms/TaskList.jsx:46-64 | an identifier not in the list, or not in the store, changes nothing; otherwise the store's slot and the list entry both become the toggled record |
| CategorySidebar.TotalCount | src/components/organisms/CategorySidebar.jsx:53 | the number of loaded tasks, which is the completed count plus the pending count |
| CategorySidebar.CountFor | src/components/organisms/CategorySidebar.jsx:36 | a category's count never exceeds the number of tasks |
| CategorySidebar.WithTaskCounts | src/components/organisms/CategorySidebar.jsx:34-37 | same length and order; each category keeps every field and has its count set to the number of tasks strictly referring to it |
| CategorySidebar.CompletedCount | src/components/organisms/CategorySidebar.jsx:54 | at most the total |
| CategorySidebar.PendingCount | src/components/organisms/CategorySidebar.jsx:55 | at most the total |
| CategorySidebar.CompletedPlusPending | src/components/organisms/CategorySidebar.jsx:53-55 | completed plus pending equals the total |
| CategorySidebar.CountMatchesCategoryFilter | src/components/organisms/CategorySidebar.jsx:36 | a category's count equals the length of the list filtered on that category |
| CategorySidebar.CompletedMatchesStatusFilter | src/components/organisms/CategorySidebar.jsx:54 | the completed count equals the length of the list filtered on "completed" |
| CategorySidebar.PendingMatchesStatusFilter | src/components/organisms/CategorySidebar.jsx:55 | the pending count equals the length of the list filtered on "pending" |
| CategorySidebar.SumCountsAtMostTotal | src/components/organisms/CategorySidebar.jsx:34-37 | with distinct category identifiers, the counts add up to at most the total |
| TasksPage.SelectFilters | src/components/pages/TasksPage.jsx:55-62 | a selection keeps the priority, sets the status to "all", "completed" or "pending", and sets the category to "all" or the selected identifier |
| TasksPage.SelectionShowsSidebarFigure | src/components/pages/TasksPage.jsx:51-63 | with no search and priority "all", selecting an entry shows as many tasks as the sidebar prints beside it (total, completed, pending or the category's count) |
| TasksPage.Page.constructor | src/components/pages/TasksPage.jsx:14-36 | the initial page state |
| TasksPage.Page.LoadCategories | src/components/pages/TasksPage.jsx:42-49 | the page holds the category store's list |
| TasksPage.Page.CategorySelect | src/components/pages/TasksPage.jsx:51-67 | records the selection, derives the filters from the previous ones, closes the mobile menu |
| TasksPage.Page.SetSearchTerm | src/components/pages/TasksPage.jsx:154 | the page's search term is the one typed |
| TasksPage.Page.SetFilters | src/components/pages/TasksPage.jsx:155 | the search bar's filter object replaces the page's |
| TasksPage.Page.ToggleMobileMenu | src/components/pages/TasksPage.jsx:158 | the mobile menu flag flips |
| TasksPage.Page.CreateTask | src/components/pages/TasksPage.jsx:69-72 | no task being edited; the task dialog is open |
| TasksPage.Page.EditTask | src/components/pages/TasksPage.jsx:74-77 | the given task (or none, from the empty list's button) is being edited; the task dialog is open |
| TasksPage.Page.CloseTaskModal | src/components/pages/TasksPage.jsx:213-216 | the task dialog is closed and no task is being edited |
| TasksPage.Page.DeleteTask | src/components/pages/TasksPage.jsx:79-83 | the task is the item to delete, the type is "task", and the dialog is open |
| TasksPage.Page.CreateCategory | src/components/pages/TasksPage.jsx:101-104 | no category being edited; the category dialog is open |
| TasksPage.Page.EditCategory | src/components/pages/TasksPage.jsx:106-109 | the given category (or none) is being edited; the category dialog is open |
| TasksPage.Page.CloseCategoryModal | src/components/pages/TasksPage.jsx:234-237 | the category dialog is closed and no category is being edited |
| TasksPage.Page.DeleteCategory | src/components/pages/TasksPage.jsx:111-115 | the category is the item to delete, the type is "category", and the dialog is open |
| TasksPage.Page.CloseDeleteDialog | src/components/pages/TasksPage.jsx:253 | the delete dialog is closed |
| TasksPage.Page.TaskSubmit | src/components/pages/TasksPage.jsx:85-99 | editing calls `update` on the edited task's identifier and creating calls `create`; on success the dialog closes, the edit is cleared and the refresh counter rises by exactly 1; on "Task not found" the error is passed on and page and store are unchanged |
| TasksPage.Page.CategorySubmit | src/components/pages/TasksPage.jsx:117-131 | the same for categories, with `update`/`create` on the category store and "Category not found" |
| TasksPage.Page.ConfirmDelete | src/components/pages/TasksPage.jsx:133-148 | deletes from the store `deleteType` names; succeeds exactly when an item is selected and its identifier is stored there; the refresh counter rises by 1 exactly on success; the other store is untouched |
| TaskForm.FromTask | src/components/organisms/TaskForm.jsx:27-38 | each field is the task's own when it is truthy and the form default otherwise: the title as is, description "", priority "medium", status "Not Started", category "", and the task's due day exactly when it has one |
| TaskForm.FalsyTaskShowsDefaults | src/components/organisms/TaskForm.jsx:27-38 | a task whose every field is empty or missing opens as the empty form |
| TaskForm.DraftOf | src/components/organisms/TaskForm.jsx:66-69 | the submitted object is the form, with an empty date turned into `null` and a picked date kept |
| TaskForm.Apply | src/components/organisms/TaskForm.jsx:91-92 | the named field takes the value, a category choice as a bare identifier string; every other field is kept |
| TaskForm.Validate | src/components/organisms/TaskForm.jsx:40-53 | a title error exactly when the title is white space only; a date error exactly when a picked date is before today; no other key; the fixed messages |
| TaskForm.CreateThenEditForm | src/components/organisms/TaskForm.jsx:28-36 | a created task reopened for editing shows the submitted form, but with status "Not Started" |
| TaskForm.UpdateThenEditForm | src/components/organisms/TaskForm.jsx:28-36 | an edited task reopened for editing shows exactly the submitted form |
| TaskForm.ResaveKeepsTask | src/components/organisms/TaskForm.jsx:66-69 | resaving an unchanged, fully filled task leaves the stored record unchanged |
| TaskForm.EditTouchesOwnCheck | src/components/organisms/TaskForm.jsx:91-92 | a change decides its own field's check and leaves the other check as it was |
| TaskForm.ClearedError | src/components/organisms/TaskForm.jsx:95-97 | after a change, the changed field shows no error; every other key is kept |
| TaskForm.TaskFormState.constructor | src/components/organisms/TaskForm.jsx:16-38 | a blank form with the defaults, or one filled from the task being edited |
| TaskForm.TaskFormState.Change | src/components/organisms/TaskForm.jsx:91-98 | only the named field takes the value; its error is cleared |
| TaskForm.TaskFormState.Submit | src/components/organisms/TaskForm.jsx:55-89 | errors are the validation result; something is sent exactly when the form is valid, and it is the form with "" turned into `null` for the date; only an accepted create resets the form; not submitting afterwards |
| CategoryForm.FromCategory | src/components/organisms/CategoryForm.jsx:24-31 | the name is taken as is; the colour is the category's own when it has one and "#2563eb" when it is empty |
| CategoryForm.Apply | src/components/organisms/CategoryForm.jsx:71-72 | the named field takes the value and the other field is kept |
| CategoryForm.Validate | src/components/organisms/CategoryForm.jsx:33-42 | a name error exactly when the name is white space only, and no other key |
| CategoryForm.CreateThenEditForm | src/components/organisms/CategoryForm.jsx:25-30 | a created category reopened for editing shows the submitted form |
| CategoryForm.UpdateThenEditForm | src/components/organisms/CategoryForm.jsx:25-30 | an edited category reopened for editing shows the submitted form |
| CategoryForm.PresetsAreColours | src/components/organisms/CategoryForm.jsx:19-22 | each of the eight presets is "#" followed by six lower-case hex digits, and no two presets are equal, so at most one swatch shows as selected |
| CategoryForm.ColourEditKeepsValidity | src/components/organisms/CategoryForm.jsx:71-78 | changing the colour never changes whether the form validates |
| CategoryForm.CategoryFormState.constructor | src/components/organisms/CategoryForm.jsx:12-31 | name "" and colour "#2563eb", or the values from the category being edited |
| CategoryForm.CategoryFormState.Change | src/components/organisms/CategoryForm.jsx:71-78 | only the named field changes; that field's error is cleared and every other key is kept |
| CategoryForm.CategoryFormState.PickPreset | src/components/organisms/CategoryForm.jsx:113 | the colour becomes exactly the clicked preset and the name is kept |
| CategoryForm.CategoryFormState.Submit | src/components/organisms/CategoryForm.jsx:44-69 | sends the form unchanged exactly when the name is not blank; only an accepted create resets it |
| SearchBar.WithKey | src/components/molecules/SearchBar.jsx:26-27 | the named key takes the value and the other two keys are unchanged |
| SearchBar.WithKeyIdempotent | src/components/molecules/SearchBar.jsx:26-27 | repeating a selection changes nothing |
| SearchBar.WithKeyCommutes | src/components/molecules/SearchBar.jsx:26-27 | changes to different keys commute |
| SearchBar.Bar.constructor | src/components/molecules/SearchBar.jsx:13-18 | an empty search and all three filters "all" |
| SearchBar.Bar.SearchChange | src/components/molecules/SearchBar.jsx:20-24 | the value is stored and forwarded unchanged |
| SearchBar.Bar.FilterChange | src/components/molecules/SearchBar.jsx:26-30 | the stored filters change in the named key only, and the stored object is the one forwarded |
| TaskCard.PriorityColor | src/components/molecules/TaskCard.jsx:26-33 | high gives red, medium orange, low blue, and any other priority grey |
| TaskCard.PriorityColorsDistinct | src/components/molecules/TaskCard.jsx:26-33 | the three known priorities get three different colours |
| TaskCard.DateStatus | src/components/molecules/TaskCard.jsx:35-43 | no due date gives no status; any status is "today", "overdue" or "upcoming"; "overdue" only for an open task |
| TaskCard.DateStatusByDay | src/components/molecules/TaskCard.jsx:35-43 | by calendar day: due today gives "today"; earlier gives "overdue" for an open task and nothing for a completed one; later gives "upcoming" |
| TaskCard.BadgeVariant | src/components/molecules/TaskCard.jsx:113 | "danger" exactly for overdue, "warning" exactly for today, "default" otherwise |
| TaskCard.BadgeLabel | src/components/molecules/TaskCard.jsx:116-117 | "Due Today" exactly for today, "Overdue" exactly for overdue, "Upcoming" otherwise |
| TaskCard.DangerIffOverdue | src/components/molecules/TaskCard.jsx:113 | the red "Overdue" badge appears exactly on an open task due before today |
| TaskCard.DueTodayRegardlessOfCompletion | src/components/molecules/TaskCard.jsx:39 | a task due today shows "Due Today" whether or not it is completed |
| TaskCard.BorderColor | src/components/molecules/TaskCard.jsx:56 | the category's colour when it has a non-empty one, otherwise "#64748b" |

## Left out

- The artificial latency (`delay`, the card's 300 ms animation pause) is left out. It affects timing only. Every service call is modelled as completing at once, and so is the card's toggle hand-off to the list.
- `Promise.all` and the `useEffect` reload wiring are left out. A load is modelled as the state taking what the stores' `getAll` return, and the refresh counter stands for the reload it triggers.
- Loading and error flags, toasts, `console.error` and all rendering are left out.
- JavaScript `Date`, `date-fns` and time zones are not modelled. A due date is a calendar day and "now" is a millisecond timestamp passed in. One time zone is assumed, so a "yyyy-MM-dd" date parsed as UTC midnight starts the same day as local midnight. Creation and completion times are opaque values passed in.
- `toLowerCase` maps ASCII letters only. Other case mappings are not modelled.
- `parseInt` and `Math.max` on identifiers that are not numeric (`NaN`) are not modelled. The stores' invariants require numeric task identifiers and decimal-string category identifiers.
- The JSON seed files are not part of this model. Each store is built from an arbitrary seed whose identifiers are distinct and of the store's kind.
- TaskStore.Merged: an update patch never carries `Id`. Every caller sends a patch without one, or sends the record's own identifier, so a patch that renames a record is not modelled.
- TaskForm.TaskFormState.Submit: the intermediate `isSubmitting = true` state, during which the buttons are disabled, is not observable in the model. Only the state after the awaited call is modelled. The callback's outcome is the `accepted` parameter.
- CategoryForm.CategoryFormState.Submit: the same as for the task form.
- TaskForm.TaskFormState.constructor: the effect that refills the form when `task` changes is modelled only at mount. The dialog unmounts the form when it closes, and the task being edited changes only while the dialog is closed.
- CategoryStore.Merged: the update patch is limited to a name and a colour, the only keys the category form sends. A patch with other keys, which `{...stored, ...patch}` would also copy, is not modelled.
- `undefined` is not modelled as a category reference. Stored tasks hold `null`, a bare identifier or an object. The written lookup would pass `undefined` on to `find` without throwing, since `typeof undefined` is not 'object'.
- TaskStore.NextId: identifiers are unbounded naturals. JavaScript numbers are exact only below 2^53, and from there on `Math.max(...) + 1` can return a stored identifier again. The proved freshness therefore carries over to the program only while identifiers stay below 2^53.
- CategoryStore.NextId: the same bound applies. `parseInt` of an identifier of 2^53 or more loses digits, and from 10^21 on `toString` writes exponent notation, which is not a plain numeral. The proved canonical form and freshness carry over to the program only while identifiers stay below 2^53.
- The list's default `filters = {}` prop is not modelled. The page always passes a full filter object.
- The remote record-store backend described for other variants of the services does not appear in this code and is not modelled.
- Header, Modal, ConfirmDialog, CategoryItem, Badge and the input atoms are presentation only. The one behaviour taken from ConfirmDialog is that it closes the dialog after confirming: `TasksPage.Page.CloseDeleteDialog`.

## Findings

| source | as written | input that shows it | evidently intended | confidence | as-written member | corrected member |
|---|---|---|---|---|---|---|
| src/components/organisms/TaskList.jsx:123-127 | `typeof categoryId === 'object'` also holds for `null`, so `null.Id` is read and a TypeError is thrown while the list is drawn | a task created with "No Category" selected, which `create` stores as `categoryId: null` (src/services/api/taskService.js:31) | `null` means the task has no category, and the card is drawn without one | high, not executed | TaskList.GetCategoryByIdAsWritten | TaskList.GetCategoryById |
