/**
 * The reminder query engine: the statistics line, and the list shown for a
 * filter, a search text and a sort order. Rust's `sort_by` is a stable sort;
 * here the sort is an insertion sort on an array, proved equal to the stable
 * insertion order `StableSorted`, whose sortedness, permutation and stability
 * are proved as lemmas.
 */
module Queries {
  import opened Wrappers
  import opened Strings
  import opened Models
  import opened Dates
  import opened Sorting

  // ---------------------------------------------------------------------------
  // Statistics

  /** The test `calculate_statistics` counts as overdue. */
  predicate CountsAsOverdue(c: Clock, r: Reminder) {
    if r.completed || r.dueDate == [] then false
    else if c.rfc3339(r.dueDate).Some? then c.rfc3339(r.dueDate).value.instant < c.now
    else if c.wallClock(r.dueDate).Some? then
      c.local(c.wallClock(r.dueDate).value).Some? && c.local(c.wallClock(r.dueDate).value).value < c.now
    else false
  }

  function CountActive(rs: seq<Reminder>): (n: nat)
    ensures n <= |rs|
    ensures n == 0 <==> forall i :: 0 <= i < |rs| ==> rs[i].completed
  {
    if rs == [] then 0 else (if rs[0].completed then 0 else 1) + CountActive(rs[1..])
  }

  function CountCompleted(rs: seq<Reminder>): (n: nat)
    ensures n <= |rs|
    ensures n == 0 <==> forall i :: 0 <= i < |rs| ==> !rs[i].completed
  {
    if rs == [] then 0 else (if rs[0].completed then 1 else 0) + CountCompleted(rs[1..])
  }

  function CountOverdue(c: Clock, rs: seq<Reminder>): (n: nat)
    ensures n <= |rs|
    ensures n == 0 <==> forall i :: 0 <= i < |rs| ==> !CountsAsOverdue(c, rs[i])
  {
    if rs == [] then 0 else (if CountsAsOverdue(c, rs[0]) then 1 else 0) + CountOverdue(c, rs[1..])
  }

  lemma {:induction false} ActiveAndCompletedPartition(rs: seq<Reminder>)
    ensures CountActive(rs) + CountCompleted(rs) == |rs|
  {
    if rs != [] {
      ActiveAndCompletedPartition(rs[1..]);
    }
  }

  lemma {:induction false} OverdueAreActive(c: Clock, rs: seq<Reminder>)
    ensures CountOverdue(c, rs) <= CountActive(rs)
  {
    if rs != [] {
      OverdueAreActive(c, rs[1..]);
    }
  }

  /** `calculate_statistics`. */
  function CalculateStatistics(c: Clock, rs: seq<Reminder>): (s: Statistics)
    ensures s.total == |rs|
    ensures s.active + s.completed == s.total
    ensures s.overdue <= s.active
  {
    ActiveAndCompletedPartition(rs);
    OverdueAreActive(c, rs);
    Statistics(|rs|, CountActive(rs), CountCompleted(rs), CountOverdue(c, rs))
  }

  /** Only open reminders with a non-empty due date that denotes an instant before now are overdue. */
  lemma OverdueMeansPast(c: Clock, r: Reminder)
    ensures CountsAsOverdue(c, r) <==>
      !r.completed && r.dueDate != [] && DueInstant(c, r.dueDate).Some? && DueInstant(c, r.dueDate).value < c.now
  {
  }

  // ---------------------------------------------------------------------------
  // Filter and search

  predicate MatchesFilter(f: ReminderFilter, r: Reminder)
    ensures MatchesFilter(f, r) <==> f == All || (f == Completed) == r.completed
  {
    match f
    case Active => !r.completed
    case Completed => r.completed
    case All => true
  }

  /** The search: an empty query matches everything, otherwise a case-insensitive substring of the title or description. */
  predicate MatchesSearch(query: string, r: Reminder)
    ensures query == [] ==> MatchesSearch(query, r)
    ensures MatchesSearch(query, r) ==> |query| <= |r.title| || |query| <= |r.description|
  {
    if query == [] then true
    else if Contains(Lower(r.title), Lower(query)) then
      ContainsLength(Lower(r.title), Lower(query));
      true
    else if Contains(Lower(r.description), Lower(query)) then
      ContainsLength(Lower(r.description), Lower(query));
      true
    else false
  }

  /** The search ignores the case of the query: lower-casing it first changes nothing. */
  lemma SearchIgnoresCase(query: string, r: Reminder)
    ensures MatchesSearch(query, r) == MatchesSearch(Lower(query), r)
  {
    LowerIdempotent(query);
  }

  /** The search ignores the case of the reminder's title and description too. */
  lemma SearchIgnoresTextCase(query: string, r: Reminder)
    ensures MatchesSearch(query, r) == MatchesSearch(query, r.(title := Lower(r.title), description := Lower(r.description)))
  {
    LowerIdempotent(r.title);
    LowerIdempotent(r.description);
  }

  predicate Selected(f: ReminderFilter, query: string, r: Reminder) {
    MatchesFilter(f, r) && MatchesSearch(query, r)
  }

  /** The `filter(..).cloned().collect()` step: the selected reminders in their order. */
  function Filtered(rs: seq<Reminder>, f: ReminderFilter, query: string): (out: seq<Reminder>)
    ensures |out| <= |rs|
  {
    if rs == [] then []
    else (if Selected(f, query, rs[0]) then [rs[0]] else []) + Filtered(rs[1..], f, query)
  }

  /** The list holds every selected reminder as often as the input does, and nothing else. */
  lemma {:induction false} FilteredExactly(rs: seq<Reminder>, f: ReminderFilter, query: string, x: Reminder)
    ensures multiset(Filtered(rs, f, query))[x] == if Selected(f, query, x) then multiset(rs)[x] else 0
  {
    if rs != [] {
      var rest := rs[1..];
      FilteredExactly(rest, f, query, x);
      assert multiset(rs) == multiset{rs[0]} + multiset(rest) by {
        assert rs == [rs[0]] + rest;
      }
    }
  }

  /** An empty query leaves only the filter. */
  lemma {:induction false} EmptyQueryMatchesAll(rs: seq<Reminder>)
    ensures Filtered(rs, All, []) == rs
  {
    if rs != [] {
      EmptyQueryMatchesAll(rs[1..]);
      assert rs == [rs[0]] + rs[1..];
    }
  }

  // ---------------------------------------------------------------------------
  // Sort orders

  /** `Ord` on `str`: lexicographic by character. */
  predicate LexLe(a: string, b: string) {
    a == [] || (b != [] && (a[0] < b[0] || (a[0] == b[0] && LexLe(a[1..], b[1..]))))
  }

  lemma {:induction false} LexLeTotal(a: string, b: string)
    ensures LexLe(a, b) || LexLe(b, a)
  {
    if a != [] && b != [] && a[0] == b[0] {
      LexLeTotal(a[1..], b[1..]);
    }
  }

  lemma {:induction false} LexLeTransitive(a: string, b: string, d: string)
    requires LexLe(a, b) && LexLe(b, d)
    ensures LexLe(a, d)
  {
    if a != [] && b != [] && d != [] && a[0] == b[0] && b[0] == d[0] {
      LexLeTransitive(a[1..], b[1..], d[1..]);
    }
  }

  /**
   * The comparator of each sort order, as "a may come before b": titles
   * ascending, open before completed, due instants ascending.
   */
  predicate Le(o: ReminderSort, c: Clock, a: Reminder, b: Reminder) {
    match o
    case Title => LexLe(a.title, b.title)
    case Status => !a.completed || b.completed
    case Date => SortInstant(c, a.dueDate) <= SortInstant(c, b.dueDate)
  }

  lemma LeTotal(o: ReminderSort, c: Clock, a: Reminder, b: Reminder)
    ensures Le(o, c, a, b) || Le(o, c, b, a)
  {
    if o == Title {
      LexLeTotal(a.title, b.title);
    }
  }

  lemma LeTransitive(o: ReminderSort, c: Clock, a: Reminder, b: Reminder, d: Reminder)
    requires Le(o, c, a, b) && Le(o, c, b, d)
    ensures Le(o, c, a, d)
  {
    if o == Title {
      LexLeTransitive(a.title, b.title, d.title);
    }
  }

  /** The closure handed to `sort_by`, as "the comparator does not return `Greater`". */
  function Comparator(o: ReminderSort, c: Clock): (le: (Reminder, Reminder) -> bool)
    ensures TotalPreorder(le)
  {
    var le := (a, b) => Le(o, c, a, b);
    ComparatorIsTotalPreorder(o, c, le);
    le
  }

  /** Every sort order is a total preorder, so `sort_by` has one stable result. */
  lemma ComparatorIsTotalPreorder(o: ReminderSort, c: Clock, le: (Reminder, Reminder) -> bool)
    requires forall a, b :: le(a, b) == Le(o, c, a, b)
    ensures TotalPreorder(le)
  {
    forall a, b
      ensures le(a, b) || le(b, a)
    {
      LeTotal(o, c, a, b);
    }
    forall a, b, d | le(a, b) && le(b, d)
      ensures le(a, d)
    {
      LeTransitive(o, c, a, b, d);
    }
  }

  /**
   * `get_filtered_and_sorted_reminders`: the selected reminders collected in
   * input order, then sorted in place by the order `sort_by` names ("title",
   * "status", anything else by date). The string dispatch is that of
   * `ReminderFilter::from_str` and `ReminderSort::from_str`.
   */
  method GetFilteredAndSortedReminders(rs: seq<Reminder>, filter: string, query: string, sortBy: string, c: Clock)
    returns (result: seq<Reminder>)
    ensures result == StableSorted(Comparator(SortFromStr(sortBy), c), Filtered(rs, FilterFromStr(filter), query))
  {
    var selected := Filtered(rs, FilterFromStr(filter), query);
    var a := new Reminder[|selected|](i requires 0 <= i < |selected| => selected[i]);
    assert a[..] == selected;
    InsertionSort(Comparator(SortFromStr(sortBy), c), a);
    result := a[..];
  }

  /**
   * What the list holds: every reminder the filter and search select, as
   * often as the input holds it, and nothing else; in the order of the sort;
   * and reminders the comparator cannot tell apart in their input order.
   */
  lemma FilteredAndSorted(rs: seq<Reminder>, f: ReminderFilter, query: string, o: ReminderSort, c: Clock)
    ensures var out := StableSorted(Comparator(o, c), Filtered(rs, f, query));
      && Sorted(Comparator(o, c), out)
      && (forall x :: multiset(out)[x] == if Selected(f, query, x) then multiset(rs)[x] else 0)
      && (forall e :: LevelWith(Comparator(o, c), out, e) == LevelWith(Comparator(o, c), Filtered(rs, f, query), e))
  {
    var le := Comparator(o, c);
    StableSortedIsSortedPermutation(le, Filtered(rs, f, query));
    forall x
      ensures multiset(StableSorted(le, Filtered(rs, f, query)))[x] == if Selected(f, query, x) then multiset(rs)[x] else 0
    {
      FilteredExactly(rs, f, query, x);
    }
    forall e
      ensures LevelWith(le, StableSorted(le, Filtered(rs, f, query)), e) == LevelWith(le, Filtered(rs, f, query), e)
    {
      StableSortedKeepsLevelOrder(le, Filtered(rs, f, query), e);
    }
  }

  /** What sorted means for each order: titles ascending, open reminders before completed ones, due instants ascending. */
  lemma SortedMeans(o: ReminderSort, c: Clock, s: seq<Reminder>, i: nat, j: nat)
    requires Sorted(Comparator(o, c), s) && i < j < |s|
    ensures o == Title ==> LexLe(s[i].title, s[j].title)
    ensures o == Status ==> !s[i].completed || s[j].completed
    ensures o == Date ==> SortInstant(c, s[i].dueDate) <= SortInstant(c, s[j].dueDate)
  {
    assert Comparator(o, c)(s[i], s[j]);
  }
}
