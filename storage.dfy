/**
 * Persistence of the reminder list in `localStorage` under the key
 * "reminders", as JSON. The JSON codec is abstract: a writer that may fail
 * and a reader that fails on text that is not a list of records. Records are
 * read through `FromStored`, so a record without `tag_ids` loads with no
 * tags. A missing window or `localStorage` is a `null` store.
 */
module Storage {
  import opened Wrappers
  import opened Models
  import opened KeyValue

  const RemindersKey := "reminders"

  /** `serde_json::to_string` and `serde_json::from_str::<Vec<Reminder>>`. */
  datatype Codec = Codec(encode: seq<StoredReminder> -> Option<string>, decode: string -> Option<seq<StoredReminder>>)

  /** The reader reads back whatever the writer wrote. */
  ghost predicate RoundTrips(codec: Codec) {
    forall rs :: codec.encode(rs).Some? ==> codec.decode(codec.encode(rs).value) == Some(rs)
  }

  /** The records written for a list. */
  function WriteAll(rs: seq<Reminder>): (ss: seq<StoredReminder>)
    ensures |ss| == |rs|
    ensures forall i :: 0 <= i < |rs| ==> ss[i] == ToStored(rs[i])
  {
    if rs == [] then [] else [ToStored(rs[0])] + WriteAll(rs[1..])
  }

  /** The reminders read from a list of records. */
  function ReadAll(ss: seq<StoredReminder>): (rs: seq<Reminder>)
    ensures |rs| == |ss|
    ensures forall i :: 0 <= i < |ss| ==> rs[i] == FromStored(ss[i])
  {
    if ss == [] then [] else [FromStored(ss[0])] + ReadAll(ss[1..])
  }

  /** The list stored in `entries`: absent or unreadable text is the empty list. */
  function LoadFrom(codec: Codec, entries: map<string, string>): (rs: seq<Reminder>)
    ensures RemindersKey !in entries ==> rs == []
    ensures RemindersKey in entries && codec.decode(entries[RemindersKey]).None? ==> rs == []
    ensures RemindersKey in entries && codec.decode(entries[RemindersKey]).Some? ==> rs == ReadAll(codec.decode(entries[RemindersKey]).value)
  {
    if RemindersKey in entries then ReadAll(codec.decode(entries[RemindersKey]).GetOr([])) else []
  }

  /** `load_reminders`. */
  function LoadReminders(codec: Codec, storage: Store?): (rs: seq<Reminder>)
    reads storage
    ensures storage == null ==> rs == []
    ensures storage != null ==> rs == LoadFrom(codec, storage.entries)
  {
    if storage == null then []
    else
      match storage.Get(RemindersKey)
      case None => []
      case Some(data) => ReadAll(codec.decode(data).GetOr([]))
  }

  /** The entries after a save: the JSON under "reminders" when the writer and the store succeed, else as they were. */
  function Saved(codec: Codec, accepts: bool, entries: map<string, string>, rs: seq<Reminder>): map<string, string> {
    if accepts && codec.encode(WriteAll(rs)).Some? then entries[RemindersKey := codec.encode(WriteAll(rs)).value] else entries
  }

  /** `save_reminders`: a failed serialisation or a refused write changes nothing. */
  method SaveReminders(codec: Codec, storage: Store?, rs: seq<Reminder>)
    modifies storage
    ensures storage != null ==> storage.entries == Saved(codec, storage.accepts, old(storage.entries), rs)
  {
    if storage != null {
      var json := codec.encode(WriteAll(rs));
      if json.Some? {
        var ok := storage.SetItem(RemindersKey, json.value);
      }
    }
  }

  // ---------------------------------------------------------------------------
  // Properties

  /** Every reminder written reads back as itself. */
  lemma ReadWriteAll(rs: seq<Reminder>)
    ensures ReadAll(WriteAll(rs)) == rs
  {
    forall i | 0 <= i < |rs|
      ensures ReadAll(WriteAll(rs))[i] == rs[i]
    {
      StoredRoundTrip(rs[i]);
    }
  }

  /** A record written before tags existed loads with no tags; every other field is kept. */
  lemma LegacyRecordLoadsUntagged(s: StoredReminder)
    requires s.tagIds.None?
    ensures FromStored(s).tagIds == []
    ensures ToStored(FromStored(s)) == s.(tagIds := Some([]))
  {
  }

  /** A successful save reads back as the list saved. */
  lemma SaveLoadRoundTrip(codec: Codec, entries: map<string, string>, rs: seq<Reminder>)
    requires RoundTrips(codec) && codec.encode(WriteAll(rs)).Some?
    ensures LoadFrom(codec, Saved(codec, true, entries, rs)) == rs
  {
    ReadWriteAll(rs);
  }

  /** A refused write leaves the previously stored list in place. */
  lemma RefusedSaveKeepsList(codec: Codec, entries: map<string, string>, rs: seq<Reminder>)
    ensures LoadFrom(codec, Saved(codec, false, entries, rs)) == LoadFrom(codec, entries)
  {
  }

  /** Saving reminders touches no other key. */
  lemma SaveKeepsOtherKeys(codec: Codec, accepts: bool, entries: map<string, string>, rs: seq<Reminder>, k: string)
    requires k != RemindersKey
    ensures k in Saved(codec, accepts, entries, rs) <==> k in entries
    ensures k in entries ==> Saved(codec, accepts, entries, rs)[k] == entries[k]
  {
  }
}
