/** The skill merge of the update handler, one batch entry at a time: find the
    first stored record with the entry's name, change its rating or append a
    new record, and go on with the list as re-read after that write. */
module SkillMerge {
  import opened Shapes

  /** `skills.find(s => s.skill === name)`, as the index of the record found:
      the first record with that name, or None when no record has it. */
  function FindByName(s: seq<SkillRecord>, name: string): (r: Option<nat>)
    ensures r.Some? ==> r.value < |s| && s[r.value].skill == name
    ensures r.Some? ==> forall j :: 0 <= j < r.value ==> s[j].skill != name
    ensures r.None? <==> name !in SkillNames(s)
  {
    if s == [] then None
    else if s[0].skill == name then assert SkillNames(s)[0] == name; Some(0)
    else
      assert SkillNames(s) == [s[0].skill] + SkillNames(s[1..]);
      match FindByName(s[1..], name)
      case None => None
      case Some(i) => Some(i + 1)
  }

  /** One iteration of the merge loop on a user's skill list: a name already
      present has the rating of its first record replaced (id, name and
      position kept); a new name is created at the end with the next free id.
      Returns the new list and the next free id. The list grows by at most
      one record, and an id is used up exactly when a record is created. */
  function Upsert(s: seq<SkillRecord>, e: SkillInput, next: nat): (r: (seq<SkillRecord>, nat))
    ensures |s| <= |r.0| <= |s| + 1
    ensures r.1 - next == |r.0| - |s|
  {
    match FindByName(s, e.skill)
    case Some(i) => (s[i := s[i].(rating := e.rating)], next)
    case None => (s + [SkillRecord(next, e.skill, e.rating)], next + 1)
  }

  /** The whole merge: the batch entries applied in order, each to the result
      of the previous one. */
  function Merge(s: seq<SkillRecord>, b: seq<SkillInput>, next: nat): (seq<SkillRecord>, nat)
    decreases |b|
  {
    if b == [] then (s, next)
    else
      var (s', next') := Merge(s, b[..|b| - 1], next);
      Upsert(s', b[|b| - 1], next')
  }

  /** The merged list only grows, by at most one record per entry, and the id
      supply advances by exactly the number of records created. */
  lemma {:induction false} MergeGrows(s: seq<SkillRecord>, b: seq<SkillInput>, next: nat)
    ensures var (r, next') := Merge(s, b, next);
            |s| <= |r| <= |s| + |b| && next' - next == |r| - |s|
    decreases |b|
  {
    if b != [] {
      MergeGrows(s, b[..|b| - 1], next);
    }
  }

  /** Merging one more entry of the batch is one more upsert on the result
      so far: the loop's step. */
  lemma {:induction false} MergeStep(s: seq<SkillRecord>, b: seq<SkillInput>, next: nat, k: nat)
    requires k < |b|
    ensures var m := Merge(s, b[..k], next);
            Merge(s, b[..k + 1], next).0 == Upsert(m.0, b[k], m.1).0 &&
            Merge(s, b[..k + 1], next).1 == Upsert(m.0, b[k], m.1).1
  {
    assert b[..k + 1][..k] == b[..k];
  }

  /** A name already stored: only its first record changes, and only in its
      rating; the list keeps its length and no id is used up. */
  lemma {:induction false} UpsertExisting(s: seq<SkillRecord>, e: SkillInput, next: nat, i: nat)
    requires i < |s| && s[i].skill == e.skill
    requires forall j :: 0 <= j < i ==> s[j].skill != e.skill
    ensures var (r, next') := Upsert(s, e, next);
            |r| == |s| && next' == next &&
            r[i] == SkillRecord(s[i].id, s[i].skill, e.rating) &&
            forall j :: 0 <= j < |s| && j != i ==> r[j] == s[j]
  {
    UpsertFound(s, e, next, i);
  }

  /** Once `find` has answered, the iteration is a rating update at that index. */
  lemma {:induction false} UpsertFound(s: seq<SkillRecord>, e: SkillInput, next: nat, i: nat)
    requires i < |s| && s[i].skill == e.skill
    requires forall j :: 0 <= j < i ==> s[j].skill != e.skill
    ensures Upsert(s, e, next).0 == s[i := s[i].(rating := e.rating)]
    ensures Upsert(s, e, next).1 == next
  {
    assert FindByName(s, e.skill) == Some(i) by {
      assert e.skill in SkillNames(s) by { assert SkillNames(s)[i] == e.skill; }
    }
  }

  /** A new name: exactly one record is appended, with the next free id, and
      every earlier record is unchanged. */
  lemma {:induction false} UpsertNew(s: seq<SkillRecord>, e: SkillInput, next: nat)
    requires forall j :: 0 <= j < |s| ==> s[j].skill != e.skill
    ensures Upsert(s, e, next).0 == s + [SkillRecord(next, e.skill, e.rating)]
    ensures Upsert(s, e, next).1 == next + 1
  {
    assert e.skill !in SkillNames(s);
  }

  /** No record of the list is lost or reordered by one iteration: the names
      and ids of the old records stay at their positions, and the entry's
      name is stored afterwards. */
  lemma {:induction false} UpsertKeepsPrefix(s: seq<SkillRecord>, e: SkillInput, next: nat)
    ensures var r := Upsert(s, e, next).0;
            (forall j :: 0 <= j < |s| ==> r[j].id == s[j].id && r[j].skill == s[j].skill) &&
            e.skill in SkillNames(r)
  {
    var r := Upsert(s, e, next).0;
    match FindByName(s, e.skill)
    case Some(i) =>
      assert SkillNames(r)[i] == e.skill;
    case None =>
      assert SkillNames(r)[|s|] == e.skill;
  }
}
