/** The properties of the update handler's skill merge, read off the closed
    form proved in MergeTheory. */
module MergeProperties {
  import opened Shapes
  import opened SkillMerge
  import opened MergeTheory

  /** The stored records keep their positions, ids and names; a record whose
      name the batch does not mention keeps its rating too, and so does every
      record that is not the first of its name (find only ever reaches the
      first). */
  lemma {:induction false} MergeKeepsStored(s: seq<SkillRecord>, b: seq<SkillInput>, next: nat)
    ensures var (r, next') := Merge(s, b, next);
            |s| <= |r| && next <= next' &&
            (forall j :: 0 <= j < |s| ==> r[j].id == s[j].id && r[j].skill == s[j].skill) &&
            (forall j :: 0 <= j < |s| && s[j].skill !in BatchNames(b) ==> r[j] == s[j]) &&
            (forall j :: 0 <= j < |s| && !IsFirst(s, j) ==> r[j] == s[j])
  {
    MergeAt(s, b, next);
  }

  /** The names along a merged list: the stored names, then the new names. */
  lemma {:induction false} MergeNamesAt(s: seq<SkillRecord>, b: seq<SkillInput>, next: nat)
    ensures var r, nn := Merge(s, b, next).0, NewNames(SkillNames(s), b);
            |r| == |s| + |nn| &&
            (forall j :: 0 <= j < |s| ==> r[j].skill == s[j].skill) &&
            (forall j :: |s| <= j < |r| ==> r[j].skill == nn[j - |s|])
  {
    MergeClosedForm(s, b, next);
    MergedNames(s, b, next);
  }

  /** Where `find` lands in a merged list for a name the user had: on the
      same record as before the merge. */
  lemma {:induction false} FindInMergedKnown(s: seq<SkillRecord>, b: seq<SkillInput>, next: nat, name: string)
    requires name in SkillNames(s)
    ensures FindByName(Merge(s, b, next).0, name) == FindByName(s, name)
  {
    MergeNamesAt(s, b, next);
    var r := Merge(s, b, next).0;
    var i := FindByName(s, name).value;
    FindFirstAt(r, name, i);
  }

  /** Where `find` lands in a merged list for a name the user did not have:
      on the record the batch created for it. */
  lemma {:induction false} FindInMergedNew(s: seq<SkillRecord>, b: seq<SkillInput>, next: nat, name: string)
    requires name !in SkillNames(s) && name in BatchNames(b)
    ensures var nn := NewNames(SkillNames(s), b);
            name in nn && FindByName(Merge(s, b, next).0, name) == Some(|s| + IndexOf(nn, name))
  {
    var nn := NewNames(SkillNames(s), b);
    assert name in nn;
    var k := IndexOf(nn, name);
    FindCreated(s, b, next, name, k);
  }

  /** `find` lands on the record created for the k-th new name when no
      earlier new name is the same. */
  lemma {:induction false} FindCreated(s: seq<SkillRecord>, b: seq<SkillInput>, next: nat, name: string, k: nat)
    requires name !in SkillNames(s)
    requires var nn := NewNames(SkillNames(s), b);
             k < |nn| && nn[k] == name && forall j :: 0 <= j < k ==> nn[j] != name
    ensures FindByName(Merge(s, b, next).0, name) == Some(|s| + k)
  {
    MergeNamesAt(s, b, next);
    FindAfterStored(Merge(s, b, next).0, s, NewNames(SkillNames(s), b), name, k);
  }

  /** In a list of the stored names followed by other names, a name not
      stored is found at its first place among the others. */
  lemma {:induction false} FindAfterStored(r: seq<SkillRecord>, s: seq<SkillRecord>, nn: seq<string>,
                                           name: string, k: nat)
    requires |r| == |s| + |nn|
    requires forall j :: 0 <= j < |s| ==> r[j].skill == s[j].skill
    requires forall j :: |s| <= j < |r| ==> r[j].skill == nn[j - |s|]
    requires name !in SkillNames(s)
    requires k < |nn| && nn[k] == name && forall j :: 0 <= j < k ==> nn[j] != name
    ensures FindByName(r, name) == Some(|s| + k)
  {
    forall j | 0 <= j < |s| + k ensures r[j].skill != name {
      if j < |s| {
        assert SkillNames(s)[j] == s[j].skill;
      }
    }
    FindFirstAt(r, name, |s| + k);
  }

  /** Last write wins: after the batch, the record `find` returns for any
      batch name carries the rating of that name's last entry. */
  lemma {:induction false} MergeLastWriteWins(s: seq<SkillRecord>, b: seq<SkillInput>, next: nat)
    ensures var r := Merge(s, b, next).0;
            forall name :: name in BatchNames(b) ==>
              FindByName(r, name).Some? && FindLast(b, name).Some? &&
              r[FindByName(r, name).value].rating == b[FindLast(b, name).value].rating
  {
    MergeAt(s, b, next);
    var r := Merge(s, b, next).0;
    forall name | name in BatchNames(b)
      ensures FindByName(r, name).Some? && FindLast(b, name).Some? &&
              r[FindByName(r, name).value].rating == b[FindLast(b, name).value].rating
    {
      if name in SkillNames(s) {
        FindInMergedKnown(s, b, next, name);
        assert IsFirst(s, FindByName(s, name).value);
      } else {
        FindInMergedNew(s, b, next, name);
      }
    }
  }

  /** New names go to the end: exactly one record per name the user did not
      have, with consecutive fresh ids, in the order of NewNames. */
  lemma {:induction false} MergeAppendsNewNames(s: seq<SkillRecord>, b: seq<SkillInput>, next: nat)
    ensures var (r, next') := Merge(s, b, next);
            var nn := NewNames(SkillNames(s), b);
            |r| == |s| + |nn| && next' == next + |nn| &&
            forall k :: 0 <= k < |nn| ==> r[|s| + k].id == next + k && r[|s| + k].skill == nn[k]
  {
    MergeAt(s, b, next);
    var r, nn := Merge(s, b, next).0, NewNames(SkillNames(s), b);
    forall k | 0 <= k < |nn| ensures r[|s| + k].id == next + k && r[|s| + k].skill == nn[k] {
      assert (|s| + k) - |s| == k;
    }
  }

  lemma {:induction false} IndexOfPrefix(xs: seq<string>, ys: seq<string>, x: string)
    requires x in xs
    ensures IndexOf(xs + ys, x) == IndexOf(xs, x)
  {
    assert (xs + ys)[IndexOf(xs, x)] == x;
    assert forall j :: 0 <= j < |xs| ==> (xs + ys)[j] == xs[j];
  }

  /** xs lists names that occur in `names`, ordered by where they first occur there. */
  predicate InFirstOccurrenceOrder(xs: seq<string>, names: seq<string>)
  {
    forall i, j :: 0 <= i < j < |xs| ==>
      xs[i] in names && xs[j] in names && IndexOf(names, xs[i]) < IndexOf(names, xs[j])
  }

  /** NewNames lists the new names in the order they first occur in the batch. */
  lemma {:induction false} NewNamesInFirstOccurrenceOrder(known: seq<string>, b: seq<SkillInput>)
    ensures InFirstOccurrenceOrder(NewNames(known, b), BatchNames(b))
    decreases |b|
  {
    var nn := NewNames(known, b);
    if b != [] {
      var b', x := b[..|b| - 1], b[|b| - 1].skill;
      var p := NewNames(known, b');
      NewNamesInFirstOccurrenceOrder(known, b');
      assert InFirstOccurrenceOrder(p, BatchNames(b'));
      assert BatchNames(b) == BatchNames(b') + [x];
      forall y | y in p ensures IndexOf(BatchNames(b), y) == IndexOf(BatchNames(b'), y) {
        IndexOfPrefix(BatchNames(b'), [x], y);
      }
      if nn == p {
        forall i, j | 0 <= i < j < |nn|
          ensures nn[i] in BatchNames(b) && nn[j] in BatchNames(b)
          ensures IndexOf(BatchNames(b), nn[i]) < IndexOf(BatchNames(b), nn[j])
        {
          assert nn[i] in nn && nn[j] in nn;
          assert nn[i] == p[i] && nn[j] == p[j];
          assert IndexOf(BatchNames(b'), p[i]) < IndexOf(BatchNames(b'), p[j]);
        }
      } else {
        assert nn == p + [x] && x !in known && x !in p;
        assert x !in BatchNames(b');
        assert forall k :: 0 <= k < |b'| ==> BatchNames(b)[k] == BatchNames(b')[k];
        assert BatchNames(b)[|b| - 1] == x;
        assert IndexOf(BatchNames(b), x) == |b| - 1;
        forall i, j | 0 <= i < j < |nn|
          ensures nn[i] in BatchNames(b) && nn[j] in BatchNames(b)
          ensures IndexOf(BatchNames(b), nn[i]) < IndexOf(BatchNames(b), nn[j])
        {
          assert nn[i] in nn && nn[j] in nn;
          assert nn[i] == p[i] && p[i] in p;
          assert IndexOf(BatchNames(b'), p[i]) < |b'|;
          if j < |p| {
            assert nn[j] == p[j] && p[j] in p;
            assert IndexOf(BatchNames(b'), p[i]) < IndexOf(BatchNames(b'), p[j]);
          } else {
            assert nn[j] == x;
          }
        }
      }
    }
  }

  /** Pairwise distinct names stay distinct: a repeated batch name finds the
      record an earlier entry created instead of creating a second one. */
  lemma {:induction false} MergeKeepsNamesDistinct(s: seq<SkillRecord>, b: seq<SkillInput>, next: nat)
    requires Distinct(SkillNames(s))
    ensures Distinct(SkillNames(Merge(s, b, next).0))
  {
    MergeAt(s, b, next);
    var r, names, nn := Merge(s, b, next).0, SkillNames(s), NewNames(SkillNames(s), b);
    forall i, j | 0 <= i < j < |r| ensures SkillNames(r)[i] != SkillNames(r)[j] {
      assert SkillNames(r)[i] == r[i].skill && SkillNames(r)[j] == r[j].skill;
      if j < |s| {
        assert names[i] != names[j];
      } else if i < |s| {
        assert r[i].skill == names[i] && names[i] in names;
        assert r[j].skill == nn[j - |s|] && nn[j - |s|] in nn;
      } else {
        assert r[i].skill == nn[i - |s|] && r[j].skill == nn[j - |s|];
      }
    }
  }

  /** Every name of the batch is stored after the merge. */
  lemma {:induction false} MergeStoresBatchNames(s: seq<SkillRecord>, b: seq<SkillInput>, next: nat)
    ensures forall x :: x in BatchNames(b) ==> x in SkillNames(Merge(s, b, next).0)
  {
    var r := Merge(s, b, next).0;
    forall x | x in BatchNames(b) ensures x in SkillNames(r) {
      if x in SkillNames(s) {
        FindInMergedKnown(s, b, next, x);
      } else {
        FindInMergedNew(s, b, next, x);
      }
    }
  }

  /** The first record of every name holds the rating the batch leaves on it. */
  predicate RatingsSettled(r: seq<SkillRecord>, b: seq<SkillInput>)
  {
    forall j :: 0 <= j < |r| && IsFirst(r, j) ==> r[j].rating == LastRating(b, r[j].skill, r[j].rating)
  }

  /** After the merge, the first record of every batch name holds that name's
      last batch rating. */
  lemma {:induction false} MergedFirstRatings(s: seq<SkillRecord>, b: seq<SkillInput>, next: nat)
    ensures RatingsSettled(Merge(s, b, next).0, b)
  {
    MergeAt(s, b, next);
    var r, nn := Merge(s, b, next).0, NewNames(SkillNames(s), b);
    forall j | 0 <= j < |r| && IsFirst(r, j)
      ensures r[j].rating == LastRating(b, r[j].skill, r[j].rating)
    {
      var x := r[j].skill;
      if x in BatchNames(b) {
        if j < |s| {
          assert forall i :: 0 <= i < j ==> r[i].skill == s[i].skill;
          assert IsFirst(s, j);
        } else {
          assert x == nn[j - |s|];
        }
      }
    }
  }

  lemma {:induction false} UpdatedFixed(r: seq<SkillRecord>, b: seq<SkillInput>)
    requires RatingsSettled(r, b)
    ensures Updated(r, b) == r
  {
    forall j | 0 <= j < |r| ensures Updated(r, b)[j] == r[j] {
    }
  }

  lemma {:induction false} NewNamesNone(known: seq<string>, b: seq<SkillInput>)
    requires forall x :: x in BatchNames(b) ==> x in known
    ensures NewNames(known, b) == []
    decreases |b|
  {
    if b != [] {
      assert BatchNames(b) == BatchNames(b[..|b| - 1]) + [b[|b| - 1].skill];
      NewNamesNone(known, b[..|b| - 1]);
    }
  }

  /** Merging the same batch again changes nothing and uses up no id,
      whatever the next free id is by then. */
  lemma {:induction false} MergeIdempotent(s: seq<SkillRecord>, b: seq<SkillInput>, next: nat, again: nat)
    ensures var r := Merge(s, b, next).0;
            Merge(r, b, again) == (r, again)
  {
    var r := Merge(s, b, next).0;
    MergeStoresBatchNames(s, b, next);
    NewNamesNone(SkillNames(r), b);
    MergedFirstRatings(s, b, next);
    UpdatedFixed(r, b);
    MergeClosedForm(r, b, again);
    assert Appended(r, b, again) == [];
    assert Updated(r, b) + Appended(r, b, again) == r;
  }

  /** Ids never matter to the response: two lists that project alike still
      project alike after the same batch, whatever ids they hold or receive. */
  lemma {:induction false} MergeIgnoresIds(s1: seq<SkillRecord>, s2: seq<SkillRecord>, b: seq<SkillInput>,
                                           next1: nat, next2: nat)
    requires ProjectSkills(s1) == ProjectSkills(s2)
    ensures ProjectSkills(Merge(s1, b, next1).0) == ProjectSkills(Merge(s2, b, next2).0)
  {
    ProjectSkillsEqual(s1, s2);
    assert SkillNames(s1) == SkillNames(s2);
    var nn := NewNames(SkillNames(s1), b);
    MergeAt(s1, b, next1);
    MergeAt(s2, b, next2);
    var r1, r2 := Merge(s1, b, next1).0, Merge(s2, b, next2).0;
    forall j | 0 <= j < |r1| ensures r1[j].skill == r2[j].skill && r1[j].rating == r2[j].rating {
      if j < |s1| {
        assert IsFirst(s1, j) <==> IsFirst(s2, j) by {
          assert forall i :: 0 <= i < j ==> s1[i].skill == s2[i].skill;
        }
      }
    }
    ProjectSkillsEqual(r1, r2);
  }

  /** Created records get ids no stored record has: every id the list held is
      below `next`, every created id is at least `next`, and all ids end up
      below the new next free id. */
  lemma {:induction false} MergeIdsFresh(s: seq<SkillRecord>, b: seq<SkillInput>, next: nat)
    requires forall j :: 0 <= j < |s| ==> s[j].id < next
    ensures var (r, next') := Merge(s, b, next);
            (forall j :: 0 <= j < |r| ==> r[j].id < next') &&
            (forall j :: |s| <= j < |r| ==> next <= r[j].id)
  {
    MergeAt(s, b, next);
    var (r, next') := Merge(s, b, next);
    forall j | 0 <= j < |r| ensures r[j].id < next' && (|s| <= j ==> next <= r[j].id) {
      if j < |s| {
        assert r[j].id == s[j].id;
      }
    }
  }

  /** The worked example of the update handler: Swift 4 and OpenCV 1 merged
      with Swift 5 and Rust 3 give Swift 5, OpenCV 1, Rust 3. */
  lemma {:induction false} MergeExample()
    ensures ProjectSkills(Merge([SkillRecord(1, "Swift", 4), SkillRecord(2, "OpenCV", 1)],
                                [SkillInput("Swift", 5), SkillInput("Rust", 3)], 3).0) ==
            [SkillView("Swift", 5), SkillView("OpenCV", 1), SkillView("Rust", 3)]
  {
    var s := [SkillRecord(1, "Swift", 4), SkillRecord(2, "OpenCV", 1)];
    var b := [SkillInput("Swift", 5), SkillInput("Rust", 3)];
    assert b[..1][..0] == [];
    assert Merge(s, b[..1][..0], 3) == (s, 3);
    FindFirstAt(s, "Swift", 0);
    var s1 := [SkillRecord(1, "Swift", 5), SkillRecord(2, "OpenCV", 1)];
    assert s[0 := s[0].(rating := 5)] == s1;
    assert Merge(s, b[..1], 3) == (s1, 3);
    assert FindByName(s1, "Rust") == None by {
      assert "Swift" != "Rust" && "OpenCV" != "Rust";
      assert SkillNames(s1) == ["Swift", "OpenCV"];
    }
    var r := s1 + [SkillRecord(3, "Rust", 3)];
    assert Merge(s, b, 3).0 == r;
    ProjectSkillsEqual(r, [SkillRecord(0, "Swift", 5), SkillRecord(0, "OpenCV", 1), SkillRecord(0, "Rust", 3)]);
  }
}
