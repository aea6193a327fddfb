/**
 * `AddReminderForm` and `EditReminderForm`: the tag check-boxes, and the
 * reminder each form builds when its button is pressed with a non-empty
 * title. The clock (`now_timestamp_millis`, `now_rfc3339`) and
 * `to_datetime_local_value` are parameters.
 */
module Forms {
  import opened Wrappers
  import opened Strings
  import opened Models
  import ReminderApp

  /** `retain(|id| id != tag_id)`. */
  function Without(ids: seq<string>, tagId: string): (r: seq<string>)
    ensures forall x :: x in r <==> x in ids && x != tagId
  {
    if ids == [] then [] else (if ids[0] == tagId then [] else [ids[0]]) + Without(ids[1..], tagId)
  }

  /** A check-box's `onchange`: a selected tag is removed (every copy), an unselected one appended. */
  function Toggled(ids: seq<string>, tagId: string): (r: seq<string>)
    ensures tagId in r <==> tagId !in ids
    ensures forall x :: x != tagId ==> (x in r <==> x in ids)
    ensures tagId !in ids ==> r == ids + [tagId]
  {
    if tagId in ids then Without(ids, tagId) else ids + [tagId]
  }

  predicate NoDuplicates(ids: seq<string>) {
    forall i, j :: 0 <= i < j < |ids| ==> ids[i] != ids[j]
  }

  /** The reminder the add form builds. */
  function NewReminder(title: string, description: string, dueDate: string, tagIds: seq<string>, millis: nat, now: string): (r: Reminder)
    ensures r.id == "reminder_" + Decimal(millis) && !r.completed && r.createdAt == now
    ensures r.title == title && r.description == description && r.dueDate == dueDate && r.tagIds == tagIds
  {
    Reminder("reminder_" + Decimal(millis), title, description, dueDate, false, now, tagIds)
  }

  /** The reminder the edit form builds: the edited fields on the original's id, completion and creation time. */
  function Edited(original: Reminder, title: string, description: string, dueDate: string, tagIds: seq<string>): (r: Reminder)
    ensures r.id == original.id && r.completed == original.completed && r.createdAt == original.createdAt
    ensures r.title == title && r.description == description && r.dueDate == dueDate && r.tagIds == tagIds
  {
    original.(title := title, description := description, dueDate := dueDate, tagIds := tagIds)
  }

  class AddForm {
    var title: string
    var description: string
    var dueDate: string
    var selectedTagIds: seq<string>

    constructor()
      ensures title == [] && description == [] && dueDate == [] && selectedTagIds == []
    {
      title, description, dueDate, selectedTagIds := [], [], [], [];
    }

    method ToggleTag(tagId: string)
      modifies this
      ensures selectedTagIds == Toggled(old(selectedTagIds), tagId)
      ensures title == old(title) && description == old(description) && dueDate == old(dueDate)
    {
      selectedTagIds := Toggled(selectedTagIds, tagId);
    }

    /** The add button: with a title, the new reminder goes to `on_add` and every field is cleared. */
    method Submit(millis: nat, now: string) returns (added: Option<Reminder>)
      modifies this
      ensures old(title) == [] ==>
        (added.None? && title == old(title) && description == old(description)
        && dueDate == old(dueDate) && selectedTagIds == old(selectedTagIds))
      ensures old(title) != [] ==>
        added == Some(NewReminder(old(title), old(description), old(dueDate), old(selectedTagIds), millis, now))
        && title == [] && description == [] && dueDate == [] && selectedTagIds == []
    {
      if title == [] {
        return None;
      }
      added := Some(NewReminder(title, description, dueDate, selectedTagIds, millis, now));
      title, description, dueDate, selectedTagIds := [], [], [], [];
    }
  }

  class EditForm {
    const original: Reminder
    var title: string
    var description: string
    var dueDate: string
    var selectedTagIds: seq<string>

    /** The fields start from the reminder; the due date through `to_datetime_local_value`. */
    constructor(original: Reminder, toDatetimeLocal: string -> string)
      ensures this.original == original && title == original.title && description == original.description
      ensures dueDate == toDatetimeLocal(original.dueDate) && selectedTagIds == original.tagIds
    {
      this.original := original;
      title := original.title;
      description := original.description;
      dueDate := toDatetimeLocal(original.dueDate);
      selectedTagIds := original.tagIds;
    }

    method ToggleTag(tagId: string)
      modifies this
      ensures selectedTagIds == Toggled(old(selectedTagIds), tagId)
      ensures title == old(title) && description == old(description) && dueDate == old(dueDate)
    {
      selectedTagIds := Toggled(selectedTagIds, tagId);
    }

    /** The save button: with a title, the edited reminder goes to `on_save`; the text fields are cleared, the tags kept. */
    method Submit() returns (saved: Option<Reminder>)
      modifies this
      ensures old(title) == [] ==>
        (saved.None? && title == old(title) && description == old(description)
        && dueDate == old(dueDate) && selectedTagIds == old(selectedTagIds))
      ensures old(title) != [] ==>
        saved == Some(Edited(original, old(title), old(description), old(dueDate), old(selectedTagIds)))
        && title == [] && description == [] && dueDate == [] && selectedTagIds == old(selectedTagIds)
    {
      if title == [] {
        return None;
      }
      saved := Some(Edited(original, title, description, dueDate, selectedTagIds));
      title, description, dueDate := [], [], [];
    }
  }

  // ---------------------------------------------------------------------------
  // Properties

  /** Toggling keeps a selection free of duplicates. */
  lemma {:induction false} ToggleKeepsNoDuplicates(ids: seq<string>, tagId: string)
    requires NoDuplicates(ids)
    ensures NoDuplicates(Toggled(ids, tagId))
  {
    if tagId in ids {
      WithoutKeepsNoDuplicates(ids, tagId);
    }
  }

  lemma {:induction false} WithoutKeepsNoDuplicates(ids: seq<string>, tagId: string)
    requires NoDuplicates(ids)
    ensures NoDuplicates(Without(ids, tagId))
  {
    if ids != [] {
      WithoutKeepsNoDuplicates(ids[1..], tagId);
      var rest := Without(ids[1..], tagId);
      if ids[0] != tagId {
        assert ids[0] !in rest;
        var r := [ids[0]] + rest;
        forall i, j | 0 <= i < j < |r|
          ensures r[i] != r[j]
        {
          assert r[j] == rest[j - 1];
          if i > 0 {
            assert r[i] == rest[i - 1];
          }
        }
      }
    }
  }

  lemma {:induction false} WithoutAbsent(ids: seq<string>, tagId: string)
    requires tagId !in ids
    ensures Without(ids, tagId) == ids
  {
    if ids != [] {
      WithoutAbsent(ids[1..], tagId);
      assert ids == [ids[0]] + ids[1..];
    }
  }

  lemma {:induction false} WithoutAppend(ids: seq<string>, tail: seq<string>, tagId: string)
    ensures Without(ids + tail, tagId) == Without(ids, tagId) + Without(tail, tagId)
  {
    if ids != [] {
      WithoutAppend(ids[1..], tail, tagId);
      assert (ids + tail)[1..] == ids[1..] + tail;
    } else {
      assert ids + tail == tail;
    }
  }

  /** Ticking and unticking a tag that was not selected gives the selection back. */
  lemma ToggleTwiceRestores(ids: seq<string>, tagId: string)
    requires tagId !in ids
    ensures Toggled(Toggled(ids, tagId), tagId) == ids
  {
    WithoutAppend(ids, [tagId], tagId);
    WithoutAbsent(ids, tagId);
    assert Without([tagId], tagId) == [] + Without([], tagId);
  }

  /** Reminders added at different milliseconds have different ids. */
  lemma NewIdsDistinct(m: nat, n: nat)
    requires m != n
    ensures ("reminder_" + Decimal(m)) != ("reminder_" + Decimal(n))
  {
    if ("reminder_" + Decimal(m)) == ("reminder_" + Decimal(n)) {
      assert Decimal(m) == ("reminder_" + Decimal(m))[9..];
      DecimalInjective(m, n);
    }
  }

  /** Saving an edit replaces the edited reminder itself, at its place in the list. */
  lemma EditReplacesOriginal(rs: seq<Reminder>, original: Reminder, title: string, description: string, dueDate: string, tagIds: seq<string>)
    requires ReminderApp.FirstIndex(rs, original.id).Some?
    ensures var i := ReminderApp.FirstIndex(rs, original.id).value;
      ReminderApp.ReplaceFirst(rs, Edited(original, title, description, dueDate, tagIds)) == rs[i := Edited(original, title, description, dueDate, tagIds)]
  {
  }
}
