/** What one task card derives from its task: the priority dot's colour, the
    due-date badge and the card's border colour. */
module TaskCard {
  import opened Common
  import opened Records

  /** `getPriorityColor`: one colour per known priority, grey for anything else. */
  function PriorityColor(priority: string): (c: string)
    ensures priority == "high" ==> c == "bg-red-500"
    ensures priority == "medium" ==> c == "bg-orange-500"
    ensures priority == "low" ==> c == "bg-blue-500"
    ensures priority !in {"high", "medium", "low"} ==> c == "bg-gray-500"
  {
    if priority == "high" then "bg-red-500"
    else if priority == "medium" then "bg-orange-500"
    else if priority == "low" then "bg-blue-500"
    else "bg-gray-500"
  }

  /** The three priorities the form offers get three different colours. */
  lemma PriorityColorsDistinct(p: string, q: string)
    requires p in {"high", "medium", "low"} && q in {"high", "medium", "low"}
    ensures PriorityColor(p) == PriorityColor(q) <==> p == q
  {
  }

  const MsPerDay := 86400000

  /** The day a moment falls on, in the single time zone the model assumes. */
  function DayOf(now: Stamp): Day {
    now / MsPerDay
  }

  /** `new Date(task.dueDate)`: the start of the due day. */
  function DueStamp(day: Day): Stamp {
    day * MsPerDay
  }

  /** `isToday`: the moment falls on the current day. */
  predicate IsToday(at: Stamp, now: Stamp) {
    DayOf(at) == DayOf(now)
  }

  /** `isPast`: the moment is before now. */
  predicate IsPast(at: Stamp, now: Stamp) {
    at < now
  }

  /** `isFuture`: the moment is after now. */
  predicate IsFuture(at: Stamp, now: Stamp) {
    at > now
  }

  /** `getDateStatus`, in the order the source tests the cases: no date gives
      no badge; a date on the current day is "today"; a past date is "overdue"
      unless the task is completed; a future one is "upcoming". */
  function DateStatus(dueDate: Option<Day>, completed: bool, now: Stamp): (r: Option<string>)
    ensures dueDate.None? ==> r.None?
    ensures r.Some? ==> r.value in {"today", "overdue", "upcoming"}
    ensures r == Some("overdue") ==> !completed
  {
    if dueDate.None? then None
    else
      var due := DueStamp(dueDate.value);
      if IsToday(due, now) then Some("today")
      else if IsPast(due, now) && !completed then Some("overdue")
      else if IsFuture(due, now) then Some("upcoming")
      else None
  }

  lemma DayOfDueStamp(day: Day)
    ensures DayOf(DueStamp(day)) == day
  {
    assert DueStamp(day) == day * MsPerDay + 0;
  }

  /** The start of the current day is not after now, and the start of the
      next day is after it. */
  lemma DayBounds(now: Stamp)
    ensures DueStamp(DayOf(now)) <= now < DueStamp(DayOf(now) + 1)
  {
    var d := DayOf(now);
    assert now == d * MsPerDay + now % MsPerDay;
    assert DueStamp(d + 1) == d * MsPerDay + MsPerDay;
  }

  /** Starts of days are ordered as the days are. */
  lemma DueStampMonotone(a: Day, b: Day)
    requires a <= b
    ensures DueStamp(a) <= DueStamp(b)
  {
    assert DueStamp(b) - DueStamp(a) == (b - a) * MsPerDay;
  }

  /** The badge by calendar day: the due day equal to today gives "today", an
      earlier one "overdue" for an open task and nothing for a completed one,
      a later one "upcoming". */
  lemma DateStatusByDay(day: Day, completed: bool, now: Stamp)
    ensures DateStatus(Some(day), completed, now) ==
      if day == DayOf(now) then Some("today")
      else if day < DayOf(now) then (if completed then None else Some("overdue"))
      else Some("upcoming")
  {
    var today := DayOf(now);
    DayOfDueStamp(day);
    DayBounds(now);
    if day < today {
      DueStampMonotone(day + 1, today);
      assert DueStamp(day + 1) == DueStamp(day) + MsPerDay;
    } else if day > today {
      DueStampMonotone(today + 1, day);
    }
  }

  /** The badge's variant: "danger" for overdue, "warning" for today,
      "default" otherwise. */
  function BadgeVariant(status: string): (v: string)
    ensures v == "danger" <==> status == "overdue"
    ensures v == "warning" <==> status == "today"
    ensures v == "default" <==> status != "overdue" && status != "today"
  {
    if status == "overdue" then "danger" else if status == "today" then "warning" else "default"
  }

  /** The badge's label. */
  function BadgeLabel(status: string): (l: string)
    ensures l == "Due Today" <==> status == "today"
    ensures l == "Overdue" <==> status == "overdue"
    ensures l == "Upcoming" <==> status != "today" && status != "overdue"
  {
    if status == "today" then "Due Today" else if status == "overdue" then "Overdue" else "Upcoming"
  }

  /** A red "Overdue" badge appears exactly on an open task whose due day is
      before today. */
  lemma DangerIffOverdue(t: Task, now: Stamp)
    ensures (var s := DateStatus(t.dueDate, t.completed, now);
             s.Some? && BadgeVariant(s.value) == "danger" && BadgeLabel(s.value) == "Overdue")
        <==> t.dueDate.Some? && t.dueDate.value < DayOf(now) && !t.completed
  {
    if t.dueDate.Some? {
      DateStatusByDay(t.dueDate.value, t.completed, now);
    }
  }

  /** A task due today shows "Due Today" whether or not it is completed. */
  lemma DueTodayRegardlessOfCompletion(t: Task, now: Stamp)
    requires t.dueDate == Some(DayOf(now))
    ensures DateStatus(t.dueDate, t.completed, now) == Some("today")
    ensures BadgeLabel(DateStatus(t.dueDate, t.completed, now).value) == "Due Today"
  {
    DateStatusByDay(t.dueDate.value, t.completed, now);
  }

  /** `category?.color || "#64748b"`: the category's colour, slate grey for a
      task shown without a category or with an empty colour. */
  function BorderColor(category: Option<Category>): (c: string)
    ensures c != ""
    ensures category.Some? && category.value.color != "" ==> c == category.value.color
    ensures !(category.Some? && category.value.color != "") ==> c == "#64748b"
  {
    if category.Some? && category.value.color != "" then category.value.color else "#64748b"
  }
}
