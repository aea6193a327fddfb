/**
 * `FolderView`: the reminders grouped under each tag that has any, then the
 * reminders with no tag at all.
 */
module FolderView {
  import opened Models

  /** The reminders carrying the tag id, in list order. */
  function WithTag(rs: seq<Reminder>, tagId: string): (g: seq<Reminder>)
    ensures forall r :: r in g <==> r in rs && tagId in r.tagIds
  {
    if rs == [] then [] else (if tagId in rs[0].tagIds then [rs[0]] else []) + WithTag(rs[1..], tagId)
  }

  /** `tag_groups`: each tag with its reminders, in tag order, leaving out tags with none. */
  function TagGroups(tags: seq<Tag>, rs: seq<Reminder>): (groups: seq<(Tag, seq<Reminder>)>)
    ensures forall t, g :: (t, g) in groups <==> t in tags && g == WithTag(rs, t.id) && g != []
  {
    GroupsMembers(tags, rs);
    Groups(tags, rs)
  }

  /** The recursion behind `TagGroups`. */
  function Groups(tags: seq<Tag>, rs: seq<Reminder>): seq<(Tag, seq<Reminder>)> {
    if tags == [] then [] else Group(tags[0], rs) + Groups(tags[1..], rs)
  }

  /** One tag's entry: the tag with its reminders, or nothing when it has none. */
  function Group(t: Tag, rs: seq<Reminder>): seq<(Tag, seq<Reminder>)> {
    var g := WithTag(rs, t.id);
    if g != [] then [(t, g)] else []
  }

  lemma {:induction false} GroupsMembers(tags: seq<Tag>, rs: seq<Reminder>)
    ensures forall t, g :: (t, g) in Groups(tags, rs) <==> t in tags && g == WithTag(rs, t.id) && g != []
  {
    if tags != [] {
      GroupsMembers(tags[1..], rs);
      assert forall t :: t in tags <==> t == tags[0] || t in tags[1..];
    }
  }

  /** `untagged`, as written: the reminders whose tag list is empty. */
  function Untagged(rs: seq<Reminder>): (u: seq<Reminder>)
    ensures forall r :: r in u <==> r in rs && r.tagIds == []
  {
    if rs == [] then [] else (if rs[0].tagIds == [] then [rs[0]] else []) + Untagged(rs[1..])
  }

  /** Whether a reminder is drawn in some group of the view. */
  predicate Shown(tags: seq<Tag>, rs: seq<Reminder>, r: Reminder, untagged: seq<Reminder>) {
    r in untagged || exists p :: p in TagGroups(tags, rs) && r in p.1
  }

  /** Whether some id in the list names one of the tags. */
  predicate HasKnownTag(tags: seq<Tag>, r: Reminder) {
    exists t :: t in tags && t.id in r.tagIds
  }

  /** The untagged group as evidently intended: reminders none of whose tag ids names an existing tag. */
  function UntaggedOrOrphaned(tags: seq<Tag>, rs: seq<Reminder>): (u: seq<Reminder>)
    ensures forall r :: r in u <==> r in rs && !HasKnownTag(tags, r)
  {
    if rs == [] then [] else (if !HasKnownTag(tags, rs[0]) then [rs[0]] else []) + UntaggedOrOrphaned(tags, rs[1..])
  }

  // ---------------------------------------------------------------------------
  // Properties

  /** Each reminder carrying the tag appears in its group as often as in the list, and no other does. */
  lemma {:induction false} WithTagExactly(rs: seq<Reminder>, tagId: string, x: Reminder)
    ensures multiset(WithTag(rs, tagId))[x] == if tagId in x.tagIds then multiset(rs)[x] else 0
  {
    if rs != [] {
      var rest := rs[1..];
      WithTagExactly(rest, tagId, x);
      assert multiset(rs) == multiset{rs[0]} + multiset(rest) by {
        assert rs == [rs[0]] + rest;
      }
    }
  }

  /** A group keeps the list order: the group of a concatenation is the concatenation of the groups. */
  lemma {:induction false} WithTagAppend(a: seq<Reminder>, b: seq<Reminder>, tagId: string)
    ensures WithTag(a + b, tagId) == WithTag(a, tagId) + WithTag(b, tagId)
  {
    if a != [] {
      var head := if tagId in a[0].tagIds then [a[0]] else [];
      var x, y := WithTag(a[1..], tagId), WithTag(b, tagId);
      WithTagAppend(a[1..], b, tagId);
      assert (a + b)[0] == a[0];
      assert (a + b)[1..] == a[1..] + b;
      assert WithTag(a + b, tagId) == head + (x + y);
      assert WithTag(a, tagId) == head + x;
      assert head + (x + y) == (head + x) + y;
    } else {
      assert a + b == b;
    }
  }

  /** One group per occurrence of a tag whose group is non-empty, and no other entry. */
  lemma {:induction false} TagGroupsExactly(tags: seq<Tag>, rs: seq<Reminder>, t: Tag, g: seq<Reminder>)
    ensures multiset(TagGroups(tags, rs))[(t, g)] == if g == WithTag(rs, t.id) && g != [] then multiset(tags)[t] else 0
  {
    GroupsExactly(tags, rs, t, g);
  }

  lemma {:induction false} GroupsExactly(tags: seq<Tag>, rs: seq<Reminder>, t: Tag, g: seq<Reminder>)
    ensures multiset(Groups(tags, rs))[(t, g)] == if g == WithTag(rs, t.id) && g != [] then multiset(tags)[t] else 0
  {
    if tags != [] {
      var rest := tags[1..];
      var g0 := WithTag(rs, tags[0].id);
      var head := if g0 != [] then [(tags[0], g0)] else [];
      GroupsExactly(rest, rs, t, g);
      assert tags == [tags[0]] + rest;
      assert multiset(tags)[t] == multiset([tags[0]])[t] + multiset(rest)[t];
      assert Groups(tags, rs) == head + Groups(rest, rs);
      assert multiset(Groups(tags, rs))[(t, g)] == multiset(head)[(t, g)] + multiset(Groups(rest, rs))[(t, g)];
    }
  }

  /** The groups follow the tag order: the groups of a concatenation of tag lists are the concatenation of the groups. */
  lemma {:induction false} TagGroupsAppend(a: seq<Tag>, b: seq<Tag>, rs: seq<Reminder>)
    ensures TagGroups(a + b, rs) == TagGroups(a, rs) + TagGroups(b, rs)
  {
    GroupsAppend(a, b, rs);
  }

  lemma {:induction false} GroupsAppend(a: seq<Tag>, b: seq<Tag>, rs: seq<Reminder>)
    ensures Groups(a + b, rs) == Groups(a, rs) + Groups(b, rs)
  {
    if a != [] {
      var head := Group(a[0], rs);
      var x, y := Groups(a[1..], rs), Groups(b, rs);
      GroupsAppend(a[1..], b, rs);
      assert (a + b)[0] == a[0];
      assert (a + b)[1..] == a[1..] + b;
      assert Groups(a + b, rs) == head + (x + y);
      assert Groups(a, rs) == head + x;
      assert head + (x + y) == (head + x) + y;
    } else {
      assert a + b == b;
    }
  }

  /** Each untagged reminder appears as often as in the list, and no tagged one does. */
  lemma {:induction false} UntaggedExactly(rs: seq<Reminder>, x: Reminder)
    ensures multiset(Untagged(rs))[x] == if x.tagIds == [] then multiset(rs)[x] else 0
  {
    if rs != [] {
      var rest := rs[1..];
      UntaggedExactly(rest, x);
      assert multiset(rs) == multiset{rs[0]} + multiset(rest) by {
        assert rs == [rs[0]] + rest;
      }
    }
  }

  /** The untagged group keeps the list order. */
  lemma {:induction false} UntaggedAppend(a: seq<Reminder>, b: seq<Reminder>)
    ensures Untagged(a + b) == Untagged(a) + Untagged(b)
  {
    if a != [] {
      UntaggedAppend(a[1..], b);
      assert (a + b)[1..] == a[1..] + b;
    } else {
      assert a + b == b;
    }
  }

  /** A reminder with a known tag appears under that tag. */
  lemma KnownTagShown(tags: seq<Tag>, rs: seq<Reminder>, r: Reminder, t: Tag)
    requires r in rs && t in tags && t.id in r.tagIds
    ensures (t, WithTag(rs, t.id)) in TagGroups(tags, rs) && r in WithTag(rs, t.id)
  {
  }

  /**
   * As written, a reminder whose tag ids all name tags that no longer exist
   * (the tag manager deletes a tag without touching the reminders) is in no
   * group and not untagged: the view does not show it.
   */
  lemma OrphanedReminderHidden(tags: seq<Tag>, rs: seq<Reminder>, r: Reminder)
    requires r in rs && r.tagIds != [] && !HasKnownTag(tags, r)
    ensures !Shown(tags, rs, r, Untagged(rs))
  {
    forall p | p in TagGroups(tags, rs)
      ensures r !in p.1
    {
      assert p == (p.0, p.1);
      assert p.0 in tags && p.1 == WithTag(rs, p.0.id);
    }
  }

  /** The smallest such case: one reminder tagged with an id no tag has. */
  lemma OrphanExample(r: Reminder)
    requires r.tagIds == ["tag_1"]
    ensures !Shown([], [r], r, Untagged([r]))
  {
    OrphanedReminderHidden([], [r], r);
  }

  /** With orphans counted as untagged, every reminder of the list is shown. */
  lemma EveryReminderShown(tags: seq<Tag>, rs: seq<Reminder>, r: Reminder)
    requires r in rs
    ensures Shown(tags, rs, r, UntaggedOrOrphaned(tags, rs))
  {
    if HasKnownTag(tags, r) {
      var t :| t in tags && t.id in r.tagIds;
      KnownTagShown(tags, rs, r, t);
      assert (t, WithTag(rs, t.id)).1 == WithTag(rs, t.id);
    }
  }

  /** Without orphans the two untagged groups agree. */
  lemma {:induction false} NoOrphansSameUntagged(tags: seq<Tag>, rs: seq<Reminder>)
    requires forall r :: r in rs && r.tagIds != [] ==> HasKnownTag(tags, r)
    ensures UntaggedOrOrphaned(tags, rs) == Untagged(rs)
  {
    if rs != [] {
      NoOrphansSameUntagged(tags, rs[1..]);
      assert rs[0] in rs;
      if rs[0].tagIds == [] {
        assert !HasKnownTag(tags, rs[0]);
      }
    }
  }
}
