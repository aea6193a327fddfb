/**
 * `TagForm`: the name field and the colour picker of a new or an edited
 * tag, and the tag it hands to `on_save`. `now_timestamp_millis` is a
 * parameter.
 */
module TagForm {
  import opened Wrappers
  import opened Strings
  import opened Models

  /** `PRESET_COLORS`, in picker order. */
  const PresetColors: seq<string> := [
    "#FA8A59", "#F4D273", "#6A7CED", "#9E75E9", "#FF6B6B", "#51CF66",
    "#4DABF7", "#FFA94D", "#FFD43B", "#C5F6FA", "#FFE066", "#D0BFFF"]

  /** The tag handed to `on_save`: the edited tag's id, or "tag_" and the milliseconds; nothing while the name is empty. */
  function BuildTag(tagId: Option<string>, name: string, color: string, millis: nat): (r: Option<Tag>)
    ensures r.Some? <==> name != []
    ensures r.Some? ==> r.value.name == name && r.value.color == color
    ensures r.Some? && tagId.Some? ==> r.value.id == tagId.value
    ensures r.Some? && tagId.None? ==> r.value.id == "tag_" + Decimal(millis)
  {
    if name == [] then None
    else Some(Tag(if tagId.Some? then tagId.value else "tag_" + Decimal(millis), name, color))
  }

  class Form {
    /** The id of the tag being edited; `None` for a new tag. */
    const tagId: Option<string>
    var name: string
    var color: string

    /** A new tag starts with no name and the first preset; an edited one with its own name and colour. */
    constructor(tag: Option<Tag>)
      ensures tagId == (if tag.Some? then Some(tag.value.id) else None)
      ensures name == (if tag.Some? then tag.value.name else [])
      ensures color == (if tag.Some? then tag.value.color else PresetColors[0])
    {
      tagId := if tag.Some? then Some(tag.value.id) else None;
      name := if tag.Some? then tag.value.name else [];
      color := if tag.Some? then tag.value.color else PresetColors[0];
    }

    /** A preset's button. */
    method PickColor(i: nat)
      requires i < |PresetColors|
      modifies this
      ensures color == PresetColors[i] && name == old(name)
    {
      color := PresetColors[i];
    }

    /** Whether the `i`-th preset is drawn as selected. */
    function PresetSelected(i: nat): (b: bool)
      requires i < |PresetColors|
      reads this
      ensures b <==> color == PresetColors[i]
    {
      color == PresetColors[i]
    }

    /** The save button: the form's fields are left as they are. */
    method Submit(millis: nat) returns (r: Option<Tag>)
      ensures r == BuildTag(tagId, name, color, millis)
    {
      r := BuildTag(tagId, name, color, millis);
    }
  }

  // ---------------------------------------------------------------------------
  // Properties

  /** Editing a tag keeps its id, so the manager's upsert replaces it. */
  lemma EditKeepsId(t: Tag, name: string, color: string, millis: nat)
    requires name != []
    ensures BuildTag(Some(t.id), name, color, millis) == Some(Tag(t.id, name, color))
  {
  }

  /** New tags made at different milliseconds have different ids. */
  lemma NewTagIdsDistinct(name: string, color: string, m: nat, n: nat)
    requires name != [] && m != n
    ensures BuildTag(None, name, color, m).value.id != BuildTag(None, name, color, n).value.id
  {
    var a, b := "tag_" + Decimal(m), "tag_" + Decimal(n);
    if a == b {
      assert Decimal(m) == a[4..] && Decimal(n) == b[4..];
      DecimalInjective(m, n);
    }
  }

  /** A new tag saved without touching the picker is "#FA8A59". */
  lemma DefaultColor(name: string, millis: nat)
    requires name != []
    ensures BuildTag(None, name, PresetColors[0], millis).value.color == "#FA8A59"
  {
  }

  /** The presets differ pairwise, so the picker marks at most one of them. */
  lemma AtMostOnePresetSelected(color: string, i: nat, j: nat)
    requires i < j < |PresetColors|
    ensures !(color == PresetColors[i] && color == PresetColors[j])
  {
    assert PresetColors[i][1..3] != PresetColors[j][1..3] || PresetColors[i][3..] != PresetColors[j][3..];
  }
}
