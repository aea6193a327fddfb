/**
 * The records the app stores and shows, and the string codecs of the list
 * filter and sort order.
 */
module Models {
  import opened Wrappers

  datatype ReminderFilter = All | Active | Completed

  /** `ReminderFilter::as_str`. */
  function FilterAsStr(f: ReminderFilter): (s: string)
    ensures FilterFromStr(s) == f
  {
    match f
    case All => "all"
    case Active => "active"
    case Completed => "completed"
  }

  /** `ReminderFilter::from_str`: anything but "active" and "completed" means every reminder. */
  function FilterFromStr(s: string): (f: ReminderFilter)
    ensures f == All <==> s !in {"active", "completed"}
  {
    if s == "active" then Active
    else if s == "completed" then Completed
    else All
  }

  datatype ReminderSort = Date | Title | Status

  /** `ReminderSort::as_str`. */
  function SortAsStr(s: ReminderSort): (t: string)
    ensures SortFromStr(t) == s
  {
    match s
    case Date => "date"
    case Title => "title"
    case Status => "status"
  }

  /** `ReminderSort::from_str`: anything but "title" and "status" sorts by date. */
  function SortFromStr(s: string): (o: ReminderSort)
    ensures o == Date <==> s !in {"title", "status"}
  {
    if s == "title" then Title
    else if s == "status" then Status
    else Date
  }

  /** A reminder; dates are kept as the text the user or the clock produced. */
  datatype Reminder = Reminder(
    id: string,
    title: string,
    description: string,
    dueDate: string,
    completed: bool,
    createdAt: string,
    tagIds: seq<string>)

  datatype Tag = Tag(id: string, name: string, color: string)

  datatype Statistics = Statistics(total: nat, active: nat, completed: nat, overdue: nat)

  /** A reminder as stored: records written before tags existed have no `tag_ids` field. */
  datatype StoredReminder = StoredReminder(
    id: string,
    title: string,
    description: string,
    dueDate: string,
    completed: bool,
    createdAt: string,
    tagIds: Option<seq<string>>)

  /** Reading a stored record: a missing `tag_ids` (`#[serde(default)]`) is the empty list. */
  function FromStored(s: StoredReminder): (r: Reminder)
    ensures s.tagIds.None? ==> r.tagIds == []
    ensures s.tagIds.Some? ==> r.tagIds == s.tagIds.value
  {
    Reminder(s.id, s.title, s.description, s.dueDate, s.completed, s.createdAt, s.tagIds.GetOr([]))
  }

  /** Writing a record: every field, `tag_ids` included. */
  function ToStored(r: Reminder): (s: StoredReminder)
    ensures s.tagIds.Some?
    ensures FromStored(s) == r
  {
    StoredReminder(r.id, r.title, r.description, r.dueDate, r.completed, r.createdAt, Some(r.tagIds))
  }

  // ---------------------------------------------------------------------------
  // Properties

  lemma FilterRoundTrip(f: ReminderFilter)
    ensures FilterFromStr(FilterAsStr(f)) == f
  {
  }

  lemma FilterUnknownIsAll(s: string)
    requires s !in {"active", "completed"}
    ensures FilterFromStr(s) == All
  {
  }

  lemma FilterAsStrInjective(f: ReminderFilter, g: ReminderFilter)
    requires FilterAsStr(f) == FilterAsStr(g)
    ensures f == g
  {
    FilterRoundTrip(f);
    FilterRoundTrip(g);
  }

  lemma SortRoundTrip(s: ReminderSort)
    ensures SortFromStr(SortAsStr(s)) == s
  {
  }

  lemma SortUnknownIsDate(s: string)
    requires s !in {"title", "status"}
    ensures SortFromStr(s) == Date
  {
  }

  lemma SortAsStrInjective(s: ReminderSort, t: ReminderSort)
    requires SortAsStr(s) == SortAsStr(t)
    ensures s == t
  {
    SortRoundTrip(s);
    SortRoundTrip(t);
  }

  /** A record written by the app reads back as the same reminder. */
  lemma StoredRoundTrip(r: Reminder)
    ensures FromStored(ToStored(r)) == r
  {
  }
}
