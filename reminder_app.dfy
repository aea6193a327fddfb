/**
 * `ReminderApp`: the reminder list and the UI state around it. Each handler
 * edits the list (append, replace the first reminder with an id, flip the
 * first one's completion, drop every one with an id), saves it, and raises a
 * toast. Translation is the function `t`.
 */
module ReminderApp {
  import opened Wrappers
  import opened Models
  import opened KeyValue
  import opened Storage
  import I18n

  datatype ToastVariant = Success | Error | Warning | Info

  /** The form the app shows: none, the add form, or the edit form of a reminder. */
  datatype Form = NoForm | AddForm | EditForm(reminder: Reminder)

  /** `iter().position(|r| r.id == id)`, which `iter_mut().find` also stops at. */
  function FirstIndex(rs: seq<Reminder>, id: string): (r: Option<nat>)
    ensures r.Some? ==> r.value < |rs| && rs[r.value].id == id && forall j :: 0 <= j < r.value ==> rs[j].id != id
    ensures r.None? ==> forall j :: 0 <= j < |rs| ==> rs[j].id != id
  {
    if rs == [] then None
    else if rs[0].id == id then Some(0)
    else
      match FirstIndex(rs[1..], id)
      case None => None
      case Some(i) => Some(i + 1)
  }

  /** The `on_save` edit: the first reminder with the updated one's id is replaced; without one, nothing changes. */
  function ReplaceFirst(rs: seq<Reminder>, updated: Reminder): (r: seq<Reminder>)
    ensures |r| == |rs|
    ensures forall j :: 0 <= j < |rs| && rs[j].id != updated.id ==> r[j] == rs[j]
    ensures updated in r <==> exists j :: 0 <= j < |rs| && rs[j].id == updated.id
  {
    match FirstIndex(rs, updated.id)
    case None => rs
    case Some(i) => assert rs[i := updated][i] == updated; rs[i := updated]
  }

  /** The `on_toggle` edit: the first reminder with the id changes its completion; without one, nothing changes. */
  function ToggleFirst(rs: seq<Reminder>, id: string): (r: seq<Reminder>)
    ensures |r| == |rs|
    ensures forall j :: 0 <= j < |rs| ==> r[j].(completed := rs[j].completed) == rs[j]
    ensures r != rs <==> exists j :: 0 <= j < |rs| && rs[j].id == id
  {
    match FirstIndex(rs, id)
    case None => rs
    case Some(i) => rs[i := rs[i].(completed := !rs[i].completed)]
  }

  /** The `on_confirm` edit, `retain(|r| r.id != id)`. */
  function RemoveAll(rs: seq<Reminder>, id: string): (r: seq<Reminder>)
    ensures |r| <= |rs|
  {
    if rs == [] then [] else (if rs[0].id == id then [] else [rs[0]]) + RemoveAll(rs[1..], id)
  }

  class App {
    var reminders: seq<Reminder>
    var showAddForm: bool
    var filter: string
    var searchQuery: string
    var sortBy: string
    var editingId: Option<string>
    var deleteConfirmId: Option<string>
    var showToast: bool
    var toastMessage: string
    var toastVariant: ToastVariant
    const codec: Codec
    /** `localStorage`, `null` when there is none. */
    const storage: Store?
    /** `i18n.t`. */
    const t: string -> string

    /**
     * The stored list is the list shown, whenever the store accepts writes
     * and the codec writes every list and reads it back.
     */
    ghost predicate Persisted()
      reads this, storage
    {
      storage != null && storage.accepts && RoundTrips(codec) && (forall ss :: codec.encode(ss).Some?) ==>
        LoadReminders(codec, storage) == reminders
    }

    /** The component's initial state: the stored list, no form, filter "all", sort "date". */
    constructor(codec: Codec, storage: Store?, t: string -> string)
      ensures this.codec == codec && this.storage == storage && this.t == t
      ensures reminders == LoadReminders(codec, storage) && Persisted()
      ensures !showAddForm && filter == "all" && searchQuery == [] && sortBy == "date"
      ensures editingId.None? && deleteConfirmId.None? && !showToast
    {
      this.codec := codec;
      this.storage := storage;
      this.t := t;
      reminders := LoadReminders(codec, storage);
      showAddForm := false;
      filter := "all";
      searchQuery := [];
      sortBy := "date";
      editingId := None;
      deleteConfirmId := None;
      showToast := false;
      toastMessage := [];
      toastVariant := Success;
    }

    /** The form on screen: editing wins over adding, and an edit of an id no reminder has shows nothing. */
    function CurrentForm(): (f: Form)
      reads this
      ensures f == AddForm <==> showAddForm && editingId.None?
      ensures f.EditForm? <==> editingId.Some? && FirstIndex(reminders, editingId.value).Some?
      ensures f.EditForm? ==> f.reminder in reminders && f.reminder.id == editingId.value
    {
      if showAddForm || editingId.Some? then
        if editingId.Some? then
          match FirstIndex(reminders, editingId.value)
          case Some(i) => EditForm(reminders[i])
          case None => NoForm
        else AddForm
      else NoForm
    }

    method Save()
      modifies storage
      ensures storage != null ==> storage.entries == Saved(codec, storage.accepts, old(storage.entries), reminders)
      ensures Persisted()
    {
      SaveReminders(codec, storage, reminders);
      if storage != null && storage.accepts && RoundTrips(codec) && (forall ss :: codec.encode(ss).Some?) {
        SaveLoadRoundTrip(codec, old(storage.entries), reminders);
      }
    }

    /** `on_add`: the reminder is appended and saved, and the add form closes. */
    method OnAdd(r: Reminder)
      modifies this, storage
      ensures reminders == old(reminders) + [r] && Persisted()
      ensures storage != null ==> storage.entries == Saved(codec, storage.accepts, old(storage.entries), reminders)
      ensures !showAddForm && showToast && toastVariant == Success && toastMessage == t("toast.added")
      ensures editingId == old(editingId) && deleteConfirmId == old(deleteConfirmId)
      ensures filter == old(filter) && searchQuery == old(searchQuery) && sortBy == old(sortBy)
    {
      reminders := reminders + [r];
      Save();
      showAddForm := false;
      toastMessage := t("toast.added");
      toastVariant := Success;
      showToast := true;
    }

    /** `on_save` of the edit form: the first reminder with the id is replaced, the list saved, the edit ended. */
    method OnSave(updated: Reminder)
      modifies this, storage
      ensures reminders == ReplaceFirst(old(reminders), updated) && Persisted()
      ensures storage != null ==> storage.entries == Saved(codec, storage.accepts, old(storage.entries), reminders)
      ensures editingId.None? && showToast && toastVariant == Success && toastMessage == t("toast.updated")
      ensures showAddForm == old(showAddForm) && deleteConfirmId == old(deleteConfirmId)
      ensures filter == old(filter) && searchQuery == old(searchQuery) && sortBy == old(sortBy)
    {
      reminders := ReplaceFirst(reminders, updated);
      Save();
      editingId := None;
      toastMessage := t("toast.updated");
      toastVariant := Success;
      showToast := true;
    }

    /**
     * `on_toggle`: the first reminder with the id changes its completion and
     * the list is saved, with an "info" toast naming the new status; an
     * unknown id changes nothing at all.
     */
    method OnToggle(id: string)
      requires Persisted()
      modifies this, storage
      ensures reminders == ToggleFirst(old(reminders), id) && Persisted()
      ensures FirstIndex(old(reminders), id).None? ==>
        storage == null || storage.entries == old(storage.entries)
      ensures FirstIndex(old(reminders), id).None? ==>
        showToast == old(showToast) && toastMessage == old(toastMessage) && toastVariant == old(toastVariant)
      ensures FirstIndex(old(reminders), id).Some? ==>
        (storage != null ==> storage.entries == Saved(codec, storage.accepts, old(storage.entries), reminders))
      ensures FirstIndex(old(reminders), id).Some? ==>
        var i := FirstIndex(old(reminders), id).value;
        showToast && toastVariant == Info &&
        toastMessage == t("toast.info") + " " + (if reminders[i].completed then t("toast.completed") else t("toast.marked_active"))
      ensures showAddForm == old(showAddForm) && editingId == old(editingId) && deleteConfirmId == old(deleteConfirmId)
      ensures filter == old(filter) && searchQuery == old(searchQuery) && sortBy == old(sortBy)
    {
      var found := FirstIndex(reminders, id);
      if found.Some? {
        var i := found.value;
        reminders := reminders[i := reminders[i].(completed := !reminders[i].completed)];
        assert reminders == ToggleFirst(old(reminders), id);
        var status := if reminders[i].completed then t("toast.completed") else t("toast.marked_active");
        Save();
        toastMessage := t("toast.info") + " " + status;
        toastVariant := Info;
        showToast := true;
      }
    }

    /** `on_edit` of a card: that reminder's edit form replaces the add form. */
    method OnEdit(id: string)
      modifies this
      ensures editingId == Some(id) && !showAddForm
      ensures reminders == old(reminders) && deleteConfirmId == old(deleteConfirmId)
      ensures showToast == old(showToast) && toastMessage == old(toastMessage) && toastVariant == old(toastVariant)
      ensures filter == old(filter) && searchQuery == old(searchQuery) && sortBy == old(sortBy)
    {
      editingId := Some(id);
      showAddForm := false;
    }

    /** `on_delete` of a card: only asks for confirmation. */
    method OnDelete(id: string)
      modifies this
      ensures deleteConfirmId == Some(id)
      ensures reminders == old(reminders) && editingId == old(editingId) && showAddForm == old(showAddForm)
      ensures showToast == old(showToast) && toastMessage == old(toastMessage) && toastVariant == old(toastVariant)
      ensures filter == old(filter) && searchQuery == old(searchQuery) && sortBy == old(sortBy)
    {
      deleteConfirmId := Some(id);
    }

    /** `on_confirm` of the delete dialog: every reminder with the id goes, and the list is saved. */
    method OnConfirm(id: string)
      modifies this, storage
      ensures reminders == RemoveAll(old(reminders), id) && Persisted()
      ensures storage != null ==> storage.entries == Saved(codec, storage.accepts, old(storage.entries), reminders)
      ensures deleteConfirmId.None? && showToast && toastVariant == Success && toastMessage == t("toast.deleted")
      ensures showAddForm == old(showAddForm) && editingId == old(editingId)
      ensures filter == old(filter) && searchQuery == old(searchQuery) && sortBy == old(sortBy)
    {
      reminders := RemoveAll(reminders, id);
      Save();
      deleteConfirmId := None;
      toastMessage := t("toast.deleted");
      toastVariant := Success;
      showToast := true;
    }
  }

  // ---------------------------------------------------------------------------
  // Properties

  /** After an edit, the id finds the updated reminder, at the same place. */
  lemma EditThenFind(rs: seq<Reminder>, updated: Reminder)
    requires FirstIndex(rs, updated.id).Some?
    ensures FirstIndex(ReplaceFirst(rs, updated), updated.id) == FirstIndex(rs, updated.id)
    ensures ReplaceFirst(rs, updated)[FirstIndex(rs, updated.id).value] == updated
  {
    var i := FirstIndex(rs, updated.id).value;
    FirstIndexAfterUpdate(rs, i, updated);
  }

  /** Changing the reminder at the first match of its own id keeps it the first match. */
  lemma FirstIndexAfterUpdate(rs: seq<Reminder>, i: nat, x: Reminder)
    requires FirstIndex(rs, x.id) == Some(i)
    ensures FirstIndex(rs[i := x], x.id) == Some(i)
  {
    FirstIndexUnique(rs[i := x], x.id, i);
  }

  /** The first match is the unique index with the id and none before it. */
  lemma {:induction false} FirstIndexUnique(rs: seq<Reminder>, id: string, i: nat)
    requires i < |rs| && rs[i].id == id && forall j :: 0 <= j < i ==> rs[j].id != id
    ensures FirstIndex(rs, id) == Some(i)
  {
    if i > 0 {
      FirstIndexUnique(rs[1..], id, i - 1);
    }
  }

  /** Everything but the first match is untouched by an edit. */
  lemma ReplaceFirstFrame(rs: seq<Reminder>, updated: Reminder, j: nat)
    requires j < |rs| && FirstIndex(rs, updated.id) != Some(j)
    ensures ReplaceFirst(rs, updated)[j] == rs[j]
  {
  }

  /** Toggling the same id twice restores the list. */
  lemma ToggleTwice(rs: seq<Reminder>, id: string)
    ensures ToggleFirst(ToggleFirst(rs, id), id) == rs
  {
    match FirstIndex(rs, id)
    case None =>
    case Some(i) =>
      var x := rs[i].(completed := !rs[i].completed);
      FirstIndexAfterUpdate(rs, i, x);
      assert rs[i := x][i := x.(completed := !x.completed)] == rs;
  }

  /** Toggling changes only the completion of the first match. */
  lemma ToggleOnlyCompletion(rs: seq<Reminder>, id: string, j: nat)
    requires j < |rs|
    ensures var r := ToggleFirst(rs, id)[j];
      r.(completed := rs[j].completed) == rs[j]
      && (r.completed != rs[j].completed <==> FirstIndex(rs, id) == Some(j))
  {
  }

  /** A delete leaves no reminder with the id and keeps every other one, as often as it was there. */
  lemma {:induction false} RemoveAllExactly(rs: seq<Reminder>, id: string, x: Reminder)
    ensures multiset(RemoveAll(rs, id))[x] == if x.id == id then 0 else multiset(rs)[x]
  {
    if rs != [] {
      var rest := rs[1..];
      RemoveAllExactly(rest, id, x);
      assert rs == [rs[0]] + rest;
      assert multiset(rs)[x] == multiset([rs[0]])[x] + multiset(rest)[x];
      if rs[0].id == id {
        assert RemoveAll(rs, id) == RemoveAll(rest, id);
      } else {
        assert RemoveAll(rs, id) == [rs[0]] + RemoveAll(rest, id);
        assert multiset(RemoveAll(rs, id))[x] == multiset([rs[0]])[x] + multiset(RemoveAll(rest, id))[x];
      }
    }
  }

  /** Deleting an id no reminder has leaves the list as it was. */
  lemma {:induction false} RemoveAllKeepsOthers(rs: seq<Reminder>, id: string)
    requires forall j :: 0 <= j < |rs| ==> rs[j].id != id
    ensures RemoveAll(rs, id) == rs
  {
    if rs != [] {
      RemoveAllKeepsOthers(rs[1..], id);
      assert rs == [rs[0]] + rs[1..];
    }
  }

  lemma {:induction false} RemoveAllAppend(rs: seq<Reminder>, tail: seq<Reminder>, id: string)
    ensures RemoveAll(rs + tail, id) == RemoveAll(rs, id) + RemoveAll(tail, id)
  {
    if rs != [] {
      RemoveAllAppend(rs[1..], tail, id);
      assert (rs + tail)[1..] == rs[1..] + tail;
    } else {
      assert rs + tail == tail;
    }
  }

  /** Adding a reminder with a fresh id and then deleting that id gives back the list. */
  lemma AddThenDelete(rs: seq<Reminder>, r: Reminder)
    requires FirstIndex(rs, r.id).None?
    ensures RemoveAll(rs + [r], r.id) == rs
  {
    RemoveAllAppend(rs, [r], r.id);
    RemoveAllKeepsOthers(rs, r.id);
    assert RemoveAll([r], r.id) == [] + RemoveAll([], r.id);
  }

  /** Saving reminders never touches the saved locale. */
  lemma SaveKeepsLocale(codec: Codec, accepts: bool, entries: map<string, string>, rs: seq<Reminder>)
    ensures I18n.LocaleKey in Saved(codec, accepts, entries, rs) <==> I18n.LocaleKey in entries
    ensures I18n.LocaleKey in entries ==> Saved(codec, accepts, entries, rs)[I18n.LocaleKey] == entries[I18n.LocaleKey]
  {
    assert |I18n.LocaleKey| != |RemindersKey|;
    SaveKeepsOtherKeys(codec, accepts, entries, rs, I18n.LocaleKey);
  }
}
