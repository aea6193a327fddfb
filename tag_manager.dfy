/**
 * `TagManager`: the tag list of the manager dialog. Saving a tag from the
 * form replaces the tag with its id or appends it; deleting drops every tag
 * with an id; opening the dialog reloads the list and resets the dialog.
 * `load_tags` and `save_tags` are not part of this model: the list loaded is
 * a parameter, and `saved` records the last list handed to `save_tags`.
 */
module TagManager {
  import opened Wrappers
  import opened Models

  /** `iter().position(|t| t.id == id)`. */
  function TagIndex(tags: seq<Tag>, id: string): (r: Option<nat>)
    ensures r.Some? ==> r.value < |tags| && tags[r.value].id == id && forall j :: 0 <= j < r.value ==> tags[j].id != id
    ensures r.None? ==> forall j :: 0 <= j < |tags| ==> tags[j].id != id
  {
    if tags == [] then None
    else if tags[0].id == id then Some(0)
    else
      match TagIndex(tags[1..], id)
      case None => None
      case Some(i) => Some(i + 1)
  }

  /** The form's `on_save`: replace the first tag with the id, or append. */
  function Upsert(tags: seq<Tag>, tag: Tag): (r: seq<Tag>)
    ensures |r| == if TagIndex(tags, tag.id).Some? then |tags| else |tags| + 1
  {
    match TagIndex(tags, tag.id)
    case Some(i) => tags[i := tag]
    case None => tags + [tag]
  }

  /** `on_delete`: `retain(|t| t.id != tag_id)`. */
  function RemoveTag(tags: seq<Tag>, id: string): (r: seq<Tag>)
    ensures |r| <= |tags|
  {
    if tags == [] then [] else (if tags[0].id == id then [] else [tags[0]]) + RemoveTag(tags[1..], id)
  }

  predicate UniqueIds(tags: seq<Tag>) {
    forall i, j :: 0 <= i < j < |tags| ==> tags[i].id != tags[j].id
  }

  class Manager {
    var tags: seq<Tag>
    var editingTag: Option<Tag>
    var showForm: bool
    var deleteConfirmId: Option<string>
    /** The last list handed to `save_tags`. */
    var saved: seq<Tag>

    constructor(loaded: seq<Tag>)
      ensures tags == loaded && saved == loaded
      ensures editingTag.None? && !showForm && deleteConfirmId.None?
    {
      tags := loaded;
      saved := loaded;
      editingTag := None;
      showForm := false;
      deleteConfirmId := None;
    }

    /** The effect run when the dialog opens: the list reloads and nothing is being edited or deleted. */
    method Open(loaded: seq<Tag>)
      modifies this
      ensures tags == loaded && saved == old(saved)
      ensures editingTag.None? && !showForm && deleteConfirmId.None?
    {
      tags := loaded;
      editingTag := None;
      showForm := false;
      deleteConfirmId := None;
    }

    /** "New tag", or the empty state's action: an empty form. */
    method NewTag()
      modifies this
      ensures editingTag.None? && showForm
      ensures tags == old(tags) && saved == old(saved) && deleteConfirmId == old(deleteConfirmId)
    {
      editingTag := None;
      showForm := true;
    }

    /** A tag's edit button: the form opens on that tag. */
    method EditTag(t: Tag)
      modifies this
      ensures editingTag == Some(t) && showForm
      ensures tags == old(tags) && saved == old(saved) && deleteConfirmId == old(deleteConfirmId)
    {
      editingTag := Some(t);
      showForm := true;
    }

    /** The form's `on_save`: upsert, save, close the form. */
    method OnSave(tag: Tag)
      modifies this
      ensures tags == Upsert(old(tags), tag) && saved == tags
      ensures editingTag.None? && !showForm && deleteConfirmId == old(deleteConfirmId)
    {
      tags := Upsert(tags, tag);
      saved := tags;
      editingTag := None;
      showForm := false;
    }

    /** The form's `on_cancel`. */
    method OnCancel()
      modifies this
      ensures editingTag.None? && !showForm
      ensures tags == old(tags) && saved == old(saved) && deleteConfirmId == old(deleteConfirmId)
    {
      editingTag := None;
      showForm := false;
    }

    /** A tag's delete button: asks for confirmation. */
    method ConfirmDelete(id: string)
      modifies this
      ensures deleteConfirmId == Some(id)
      ensures tags == old(tags) && saved == old(saved) && editingTag == old(editingTag) && showForm == old(showForm)
    {
      deleteConfirmId := Some(id);
    }

    method CancelDelete()
      modifies this
      ensures deleteConfirmId.None?
      ensures tags == old(tags) && saved == old(saved) && editingTag == old(editingTag) && showForm == old(showForm)
    {
      deleteConfirmId := None;
    }

    /** The confirmed delete: every tag with the id goes and the list is saved. */
    method OnDelete(id: string)
      modifies this
      ensures tags == RemoveTag(old(tags), id) && saved == tags
      ensures deleteConfirmId.None? && editingTag == old(editingTag) && showForm == old(showForm)
    {
      tags := RemoveTag(tags, id);
      saved := tags;
      deleteConfirmId := None;
    }
  }

  // ---------------------------------------------------------------------------
  // Properties

  lemma {:induction false} TagIndexUnique(tags: seq<Tag>, id: string, i: nat)
    requires i < |tags| && tags[i].id == id && forall j :: 0 <= j < i ==> tags[j].id != id
    ensures TagIndex(tags, id) == Some(i)
  {
    if i > 0 {
      TagIndexUnique(tags[1..], id, i - 1);
    }
  }

  /** After an upsert the tag is found under its id; every other tag is where it was. */
  lemma UpsertThenFind(tags: seq<Tag>, tag: Tag)
    ensures var r := Upsert(tags, tag);
      TagIndex(r, tag.id).Some? && r[TagIndex(r, tag.id).value] == tag
    ensures forall j :: 0 <= j < |tags| && TagIndex(tags, tag.id) != Some(j) ==> Upsert(tags, tag)[j] == tags[j]
  {
    var r := Upsert(tags, tag);
    match TagIndex(tags, tag.id)
    case Some(i) => TagIndexUnique(r, tag.id, i);
    case None => TagIndexUnique(r, tag.id, |tags|);
  }

  /** Saving the same tag twice is saving it once. */
  lemma UpsertIdempotent(tags: seq<Tag>, tag: Tag)
    ensures Upsert(Upsert(tags, tag), tag) == Upsert(tags, tag)
  {
    UpsertThenFind(tags, tag);
    match TagIndex(tags, tag.id)
    case Some(i) => TagIndexUnique(Upsert(tags, tag), tag.id, i);
    case None => TagIndexUnique(Upsert(tags, tag), tag.id, |tags|);
  }

  /** Upserts keep tag ids unique. */
  lemma UpsertKeepsUniqueIds(tags: seq<Tag>, tag: Tag)
    requires UniqueIds(tags)
    ensures UniqueIds(Upsert(tags, tag))
  {
    var r := Upsert(tags, tag);
    match TagIndex(tags, tag.id)
    case Some(k) =>
      forall i, j | 0 <= i < j < |r|
        ensures r[i].id != r[j].id
      {
        if i == k || j == k {
          assert r[k].id == tags[k].id;
        }
      }
    case None =>
  }

  /** A delete leaves no tag with the id and keeps the others, in order. */
  lemma {:induction false} RemoveTagExactly(tags: seq<Tag>, id: string, x: Tag)
    ensures multiset(RemoveTag(tags, id))[x] == if x.id == id then 0 else multiset(tags)[x]
  {
    if tags != [] {
      var rest := tags[1..];
      RemoveTagExactly(rest, id, x);
      assert multiset(tags) == multiset{tags[0]} + multiset(rest) by {
        assert tags == [tags[0]] + rest;
      }
    }
  }

  lemma {:induction false} RemoveTagAbsent(tags: seq<Tag>, id: string)
    requires TagIndex(tags, id).None?
    ensures RemoveTag(tags, id) == tags
  {
    if tags != [] {
      RemoveTagAbsent(tags[1..], id);
      assert tags == [tags[0]] + tags[1..];
    }
  }

  lemma {:induction false} RemoveTagAppend(tags: seq<Tag>, tail: seq<Tag>, id: string)
    ensures RemoveTag(tags + tail, id) == RemoveTag(tags, id) + RemoveTag(tail, id)
  {
    if tags != [] {
      RemoveTagAppend(tags[1..], tail, id);
      assert (tags + tail)[1..] == tags[1..] + tail;
    } else {
      assert tags + tail == tail;
    }
  }

  /** Creating a tag and deleting it gives back the list. */
  lemma CreateThenDelete(tags: seq<Tag>, tag: Tag)
    requires TagIndex(tags, tag.id).None?
    ensures RemoveTag(Upsert(tags, tag), tag.id) == tags
  {
    RemoveTagAppend(tags, [tag], tag.id);
    RemoveTagAbsent(tags, tag.id);
    assert RemoveTag([tag], tag.id) == [] + RemoveTag([], tag.id);
  }
}
