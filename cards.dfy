/**
 * `ReminderCard`: how one reminder is drawn. The card computes its own
 * overdue test (a copy of the one the statistics count), picks the card's
 * CSS class and variant from it, and shows the "overdue" badge inside the
 * due-date line.
 */
module Cards {
  import opened Wrappers
  import opened Models
  import opened Dates
  import Queries

  /** The card's overdue test: an open reminder whose due date denotes an instant before now. */
  predicate IsOverdue(c: Clock, r: Reminder)
    ensures IsOverdue(c, r) <==>
      !r.completed && r.dueDate != [] && DueInstant(c, r.dueDate).Some? && DueInstant(c, r.dueDate).value < c.now
  {
    if !r.completed && r.dueDate != [] then
      if c.rfc3339(r.dueDate).Some? then c.rfc3339(r.dueDate).value.instant < c.now
      else if c.wallClock(r.dueDate).Some? then
        if c.local(c.wallClock(r.dueDate).value).Some? then c.local(c.wallClock(r.dueDate).value).value < c.now
        else false
      else false
    else false
  }

  const PlainClass := "reminder-card"
  const CompletedClass := "reminder-card completed"
  const OverdueClass := "reminder-card overdue"

  /** `CardVariant`. */
  datatype Variant = Default | Outline

  /** What the card shows, as far as it depends on the reminder. */
  datatype CardView = CardView(
    variant: Variant,
    cardClass: string,
    /** The title is struck through once the reminder is completed. */
    struckThrough: bool,
    showsDescription: bool,
    /** The due-date line, with its text: the translated "due" label, a space, and the formatted date. */
    dueLine: Option<string>,
    overdueBadge: bool)

  /** `ReminderCard`, given the translation of "reminder.due". */
  function Render(c: Clock, r: Reminder, dueLabel: string): (v: CardView)
    ensures v.overdueBadge <==> IsOverdue(c, r)
    ensures v.variant == Outline <==> IsOverdue(c, r)
    ensures v.dueLine.Some? <==> r.dueDate != []
    ensures v.overdueBadge ==> v.dueLine.Some?
    ensures v.struckThrough <==> r.completed
    ensures v.showsDescription <==> r.description != []
  {
    var overdue := IsOverdue(c, r);
    var cardClass := if r.completed then CompletedClass else if overdue then OverdueClass else PlainClass;
    CardView(
      if overdue then Outline else Default,
      cardClass,
      r.completed,
      r.description != [],
      if r.dueDate != [] then Some(dueLabel + " " + FormatDate(c, r.dueDate)) else None,
      r.dueDate != [] && overdue)
  }

  // ---------------------------------------------------------------------------
  // Properties

  /** The card and the statistics line agree on which reminders are overdue. */
  lemma OverdueAgreesWithStatistics(c: Clock, r: Reminder)
    ensures IsOverdue(c, r) <==> Queries.CountsAsOverdue(c, r)
  {
  }

  /** A completed reminder, or one without a due date, is never overdue. */
  lemma CompletedOrUndatedNotOverdue(c: Clock, r: Reminder)
    requires r.completed || r.dueDate == []
    ensures !IsOverdue(c, r)
  {
  }

  /**
   * The class tells the three states apart, with completion taking
   * precedence: "completed" for every completed reminder, "overdue" for an
   * open overdue one, the plain class otherwise.
   */
  lemma CardClassPrecedence(c: Clock, r: Reminder, dueLabel: string)
    ensures var k := Render(c, r, dueLabel).cardClass;
      && (k == CompletedClass <==> r.completed)
      && (k == OverdueClass <==> !r.completed && IsOverdue(c, r))
      && (k == PlainClass <==> !r.completed && !IsOverdue(c, r))
  {
    ClassesDistinct();
  }

  lemma ClassesDistinct()
    ensures CompletedClass != OverdueClass && CompletedClass != PlainClass && OverdueClass != PlainClass
  {
    assert CompletedClass[14] != OverdueClass[14];
    assert |PlainClass| < |OverdueClass| && |PlainClass| < |CompletedClass|;
  }
}
