/** What a whole skill batch does to a user's skill list, stated without the
    loop: every stored record keeps its place (the first record of each name
    ends with the rating of that name's last batch entry), and the names the
    user did not have are appended once each, in order of first occurrence.
    MergeClosedForm proves the loop's fold equal to this description; the
    other lemmas read the promised properties off it. */
module MergeTheory {
  import opened Shapes
  import opened SkillMerge

  /** Index of the last batch entry with the given name. */
  function FindLast(b: seq<SkillInput>, name: string): (r: Option<nat>)
    ensures r.Some? ==> r.value < |b| && b[r.value].skill == name
    ensures r.Some? ==> forall k :: r.value < k < |b| ==> b[k].skill != name
    ensures r.None? <==> name !in BatchNames(b)
    decreases |b|
  {
    if b == [] then None
    else if b[|b| - 1].skill == name then
      assert BatchNames(b)[|b| - 1] == name;
      Some(|b| - 1)
    else
      assert BatchNames(b) == BatchNames(b[..|b| - 1]) + [b[|b| - 1].skill];
      FindLast(b[..|b| - 1], name)
  }

  /** The rating the batch leaves on a name: that of its last entry, or
      `otherwise` when the batch does not name it. */
  function LastRating(b: seq<SkillInput>, name: string, otherwise: int): int
  {
    match FindLast(b, name)
    case Some(k) => b[k].rating
    case None => otherwise
  }

  /** Index of the first occurrence of x in xs. */
  function IndexOf(xs: seq<string>, x: string): (r: nat)
    requires x in xs
    ensures r < |xs| && xs[r] == x
    ensures forall j :: 0 <= j < r ==> xs[j] != x
  {
    if xs[0] == x then 0 else 1 + IndexOf(xs[1..], x)
  }

  /** Record j is the first record of its name in s. */
  predicate IsFirst(s: seq<SkillRecord>, j: nat)
    requires j < |s|
  {
    forall i :: 0 <= i < j ==> s[i].skill != s[j].skill
  }

  /** The batch names not in `known`, each once, in order of first occurrence. */
  function NewNames(known: seq<string>, b: seq<SkillInput>): (r: seq<string>)
    ensures forall x :: x in r <==> x in BatchNames(b) && x !in known
    ensures Distinct(r)
    decreases |b|
  {
    if b == [] then []
    else
      var p := NewNames(known, b[..|b| - 1]);
      var x := b[|b| - 1].skill;
      assert BatchNames(b) == BatchNames(b[..|b| - 1]) + [x];
      if x in known || x in p then p else p + [x]
  }

  /** The stored records after the batch: the first record of each name takes
      the name's last batch rating; every other field and record is as before. */
  function Updated(s: seq<SkillRecord>, b: seq<SkillInput>): seq<SkillRecord>
  {
    seq(|s|, j requires 0 <= j < |s| =>
      if IsFirst(s, j) then s[j].(rating := LastRating(b, s[j].skill, s[j].rating)) else s[j])
  }

  /** The records the batch creates: one per new name, with consecutive ids
      from `next` and the name's last batch rating. */
  function Appended(s: seq<SkillRecord>, b: seq<SkillInput>, next: nat): seq<SkillRecord>
  {
    var nn := NewNames(SkillNames(s), b);
    seq(|nn|, k requires 0 <= k < |nn| => SkillRecord(next + k, nn[k], LastRating(b, nn[k], 0)))
  }

  /** The reference result of a merge: the list and the next free id. */
  function MergeResult(s: seq<SkillRecord>, b: seq<SkillInput>, next: nat): (seq<SkillRecord>, nat)
  {
    (Updated(s, b) + Appended(s, b, next), next + |NewNames(SkillNames(s), b)|)
  }

  /** The closed form, position by position: record j < |s| of the merged
      list is stored record j, re-rated when it is the first of its name;
      record |s| + k is the record created for the k-th new name. */
  lemma {:induction false} MergeAt(s: seq<SkillRecord>, b: seq<SkillInput>, next: nat)
    ensures var (r, next') := Merge(s, b, next);
            var nn := NewNames(SkillNames(s), b);
            |r| == |s| + |nn| && next' == next + |nn| &&
            (forall j :: 0 <= j < |s| ==>
               r[j] == if IsFirst(s, j) then s[j].(rating := LastRating(b, s[j].skill, s[j].rating))
                       else s[j]) &&
            (forall j :: |s| <= j < |r| ==>
               r[j] == SkillRecord(next + (j - |s|), nn[j - |s|], LastRating(b, nn[j - |s|], 0)))
  {
    MergeClosedForm(s, b, next);
    var u, a, nn := Updated(s, b), Appended(s, b, next), NewNames(SkillNames(s), b);
    var r := u + a;
    forall j | 0 <= j < |s|
      ensures r[j] == if IsFirst(s, j) then s[j].(rating := LastRating(b, s[j].skill, s[j].rating)) else s[j]
    {
      assert r[j] == u[j];
    }
    forall j | |s| <= j < |r|
      ensures r[j] == SkillRecord(next + (j - |s|), nn[j - |s|], LastRating(b, nn[j - |s|], 0))
    {
      assert r[j] == a[j - |s|];
    }
  }

  lemma {:induction false} LastRatingStep(b: seq<SkillInput>, name: string, otherwise: int)
    requires b != []
    ensures LastRating(b, name, otherwise) ==
              if b[|b| - 1].skill == name then b[|b| - 1].rating
              else LastRating(b[..|b| - 1], name, otherwise)
  {
  }

  /** A first-match witness fixes what `find` returns. */
  lemma {:induction false} FindFirstAt(s: seq<SkillRecord>, name: string, i: nat)
    requires i < |s| && s[i].skill == name
    requires forall j :: 0 <= j < i ==> s[j].skill != name
    ensures FindByName(s, name) == Some(i)
  {
    assert SkillNames(s)[i] == name;
  }

  lemma {:induction false} UpdateLeft(u: seq<SkillRecord>, a: seq<SkillRecord>, i: nat, x: SkillRecord)
    requires i < |u|
    ensures (u + a)[i := x] == u[i := x] + a
  {
  }

  lemma {:induction false} UpdateRight(u: seq<SkillRecord>, a: seq<SkillRecord>, k: nat, x: SkillRecord)
    requires k < |a|
    ensures (u + a)[|u| + k := x] == u + a[k := x]
  {
  }

  /** The fold of the merge loop equals the reference description. */
  lemma {:induction false} MergeClosedForm(s: seq<SkillRecord>, b: seq<SkillInput>, next: nat)
    ensures Merge(s, b, next) == MergeResult(s, b, next)
    decreases |b|
  {
    if b == [] {
      forall j | 0 <= j < |s| ensures Updated(s, b)[j] == s[j] {
        assert FindLast(b, s[j].skill) == None;
      }
      assert Updated(s, b) == s;
      assert NewNames(SkillNames(s), b) == [];
      assert Appended(s, b, next) == [];
      assert Updated(s, b) + Appended(s, b, next) == s;
    } else {
      var b' := b[..|b| - 1];
      MergeClosedForm(s, b', next);
      var e := b[|b| - 1];
      if e.skill in SkillNames(s) {
        StepKnown(s, b, next);
      } else if e.skill in NewNames(SkillNames(s), b') {
        StepPending(s, b, next);
      } else {
        StepFresh(s, b, next);
      }
    }
  }

  /** The last entry does not name a stored record: the stored part is as before it. */
  lemma {:induction false} UpdatedSkips(s: seq<SkillRecord>, b: seq<SkillInput>)
    requires b != [] && b[|b| - 1].skill !in SkillNames(s)
    ensures Updated(s, b) == Updated(s, b[..|b| - 1])
  {
    var u, u' := Updated(s, b), Updated(s, b[..|b| - 1]);
    forall j | 0 <= j < |s| ensures u[j] == u'[j] {
      assert SkillNames(s)[j] == s[j].skill;
      LastRatingStep(b, s[j].skill, s[j].rating);
    }
  }

  /** The last entry names stored record i (the first of that name): only its rating changes. */
  lemma {:induction false} UpdatedHits(s: seq<SkillRecord>, b: seq<SkillInput>, i: nat)
    requires b != [] && FindByName(s, b[|b| - 1].skill) == Some(i)
    ensures var u' := Updated(s, b[..|b| - 1]);
            i < |u'| && Updated(s, b) == u'[i := u'[i].(rating := b[|b| - 1].rating)]
  {
    var e := b[|b| - 1];
    var u, u' := Updated(s, b), Updated(s, b[..|b| - 1]);
    assert IsFirst(s, i);
    forall j | 0 <= j < |s| ensures u[j] == u'[i := u'[i].(rating := e.rating)][j] {
      LastRatingStep(b, s[j].skill, s[j].rating);
      if j > i {
        assert IsFirst(s, j) ==> s[i].skill != s[j].skill;
      }
    }
  }

  /** The last entry names no created record: the created part is as before it. */
  lemma {:induction false} AppendedSkips(s: seq<SkillRecord>, b: seq<SkillInput>, next: nat)
    requires b != []
    requires NewNames(SkillNames(s), b) == NewNames(SkillNames(s), b[..|b| - 1])
    requires b[|b| - 1].skill !in NewNames(SkillNames(s), b)
    ensures Appended(s, b, next) == Appended(s, b[..|b| - 1], next)
  {
    var nn := NewNames(SkillNames(s), b);
    var a, a' := Appended(s, b, next), Appended(s, b[..|b| - 1], next);
    forall k | 0 <= k < |nn| ensures a[k] == a'[k] {
      assert nn[k] in nn;
      LastRatingStep(b, nn[k], 0);
    }
  }

  /** The last entry names created record k: only its rating changes. */
  lemma {:induction false} AppendedHits(s: seq<SkillRecord>, b: seq<SkillInput>, next: nat, k: nat)
    requires b != []
    requires NewNames(SkillNames(s), b) == NewNames(SkillNames(s), b[..|b| - 1])
    requires k < |NewNames(SkillNames(s), b)| && NewNames(SkillNames(s), b)[k] == b[|b| - 1].skill
    ensures var a' := Appended(s, b[..|b| - 1], next);
            k < |a'| && Appended(s, b, next) == a'[k := a'[k].(rating := b[|b| - 1].rating)]
  {
    var nn := NewNames(SkillNames(s), b);
    var a, a' := Appended(s, b, next), Appended(s, b[..|b| - 1], next);
    forall k' | 0 <= k' < |nn| ensures a[k'] == a'[k := a'[k].(rating := b[|b| - 1].rating)][k'] {
      LastRatingStep(b, nn[k'], 0);
    }
  }

  /** The last entry names nothing yet: one record is created after the others. */
  lemma {:induction false} AppendedGrows(s: seq<SkillRecord>, b: seq<SkillInput>, next: nat)
    requires b != []
    requires NewNames(SkillNames(s), b) == NewNames(SkillNames(s), b[..|b| - 1]) + [b[|b| - 1].skill]
    ensures var e, nn' := b[|b| - 1], NewNames(SkillNames(s), b[..|b| - 1]);
            Appended(s, b, next) ==
              Appended(s, b[..|b| - 1], next) + [SkillRecord(next + |nn'|, e.skill, e.rating)]
  {
    var e, nn := b[|b| - 1], NewNames(SkillNames(s), b);
    var a, a' := Appended(s, b, next), Appended(s, b[..|b| - 1], next);
    var t := a' + [SkillRecord(next + |a'|, e.skill, e.rating)];
    forall k | 0 <= k < |nn| ensures a[k] == t[k] {
      LastRatingStep(b, nn[k], 0);
    }
  }

  /** Inductive step, last entry names a record the user had before the batch. */
  lemma {:induction false} StepKnown(s: seq<SkillRecord>, b: seq<SkillInput>, next: nat)
    requires b != [] && b[|b| - 1].skill in SkillNames(s)
    ensures var m := MergeResult(s, b[..|b| - 1], next);
            Upsert(m.0, b[|b| - 1], m.1).0 == MergeResult(s, b, next).0
    ensures var m := MergeResult(s, b[..|b| - 1], next);
            Upsert(m.0, b[|b| - 1], m.1).1 == MergeResult(s, b, next).1
  {
    var b', e, known := b[..|b| - 1], b[|b| - 1], SkillNames(s);
    var u', a' := Updated(s, b'), Appended(s, b', next);
    var m: seq<SkillRecord> := u' + a';
    var i := FindByName(s, e.skill).value;
    MergedNames(s, b', next);
    UpsertFound(m, e, next + |NewNames(known, b')|, i);
    assert NewNames(known, b) == NewNames(known, b');
    UpdatedHits(s, b, i);
    AppendedSkips(s, b, next);
    UpdateLeft(u', a', i, u'[i].(rating := e.rating));
  }

  /** The names along the list a batch leaves: the stored names, then the
      new names in order. */
  lemma {:induction false} MergedNames(s: seq<SkillRecord>, b: seq<SkillInput>, next: nat)
    ensures var nn, m := NewNames(SkillNames(s), b), Updated(s, b) + Appended(s, b, next);
            |m| == |s| + |nn| &&
            (forall j :: 0 <= j < |s| ==> m[j].skill == s[j].skill) &&
            (forall j :: |s| <= j < |m| ==> m[j].skill == nn[j - |s|])
  {
    var nn, u, a := NewNames(SkillNames(s), b), Updated(s, b), Appended(s, b, next);
    UpdatedNames(s, b);
    AppendedNames(s, b, next);
    ConcatNames(u, a, SkillNames(s), nn);
  }

  lemma {:induction false} UpdatedNames(s: seq<SkillRecord>, b: seq<SkillInput>)
    ensures |Updated(s, b)| == |s|
    ensures forall j :: 0 <= j < |s| ==> Updated(s, b)[j].skill == s[j].skill
  {
  }

  lemma {:induction false} AppendedNames(s: seq<SkillRecord>, b: seq<SkillInput>, next: nat)
    ensures var nn := NewNames(SkillNames(s), b);
            |Appended(s, b, next)| == |nn| &&
            forall k :: 0 <= k < |nn| ==> Appended(s, b, next)[k].skill == nn[k]
  {
  }

  lemma {:induction false} ConcatNames(u: seq<SkillRecord>, a: seq<SkillRecord>, un: seq<string>, an: seq<string>)
    requires |u| == |un| && |a| == |an|
    requires forall j :: 0 <= j < |u| ==> u[j].skill == un[j]
    requires forall k :: 0 <= k < |a| ==> a[k].skill == an[k]
    ensures forall j :: 0 <= j < |u| ==> (u + a)[j].skill == un[j]
    ensures forall j :: |u| <= j < |u + a| ==> (u + a)[j].skill == an[j - |u|]
  {
  }

  /** A name created by an earlier entry of the batch is found at its created
      record: no stored record and no earlier created record carries it. */
  lemma {:induction false} PendingFound(s: seq<SkillRecord>, b: seq<SkillInput>, next: nat, name: string, k: nat)
    requires name !in SkillNames(s)
    requires var nn := NewNames(SkillNames(s), b); k < |nn| && nn[k] == name
    ensures var m := Updated(s, b) + Appended(s, b, next);
            |s| + k < |m| && m[|s| + k].skill == name &&
            forall j :: 0 <= j < |s| + k ==> m[j].skill != name
  {
    var known, nn := SkillNames(s), NewNames(SkillNames(s), b);
    var m: seq<SkillRecord> := Updated(s, b) + Appended(s, b, next);
    MergedNames(s, b, next);
    forall j | 0 <= j < |s| + k ensures m[j].skill != name {
      if j < |s| {
        assert known[j] == s[j].skill;
      } else {
        assert nn[j - |s|] != nn[k];
      }
    }
  }

  /** A name neither stored nor created so far is found nowhere in the list. */
  lemma {:induction false} FreshAbsent(s: seq<SkillRecord>, b: seq<SkillInput>, next: nat, name: string)
    requires name !in SkillNames(s) && name !in NewNames(SkillNames(s), b)
    ensures var m := Updated(s, b) + Appended(s, b, next);
            forall j :: 0 <= j < |m| ==> m[j].skill != name
  {
    var known, nn := SkillNames(s), NewNames(SkillNames(s), b);
    var m: seq<SkillRecord> := Updated(s, b) + Appended(s, b, next);
    MergedNames(s, b, next);
    forall j | 0 <= j < |m| ensures m[j].skill != name {
      if j < |s| {
        assert known[j] == s[j].skill;
      } else {
        assert nn[j - |s|] in nn;
      }
    }
  }

  /** Re-rating the k-th created record of the list before the last entry
      gives the list after it. */
  lemma {:induction false} PendingTail(s: seq<SkillRecord>, b: seq<SkillInput>, next: nat, k: nat)
    requires b != [] && b[|b| - 1].skill !in SkillNames(s)
    requires var nn := NewNames(SkillNames(s), b[..|b| - 1]); k < |nn| && nn[k] == b[|b| - 1].skill
    ensures var m := Updated(s, b[..|b| - 1]) + Appended(s, b[..|b| - 1], next);
            |s| + k < |m| &&
            m[|s| + k := m[|s| + k].(rating := b[|b| - 1].rating)] == Updated(s, b) + Appended(s, b, next)
  {
    var b', e := b[..|b| - 1], b[|b| - 1];
    var u', a' := Updated(s, b'), Appended(s, b', next);
    var m: seq<SkillRecord> := u' + a';
    assert |u'| == |s| && m[|s| + k] == a'[k];
    var x := a'[k].(rating := e.rating);
    UpdateRight(u', a', k, x);
    UpdatedSkips(s, b);
    assert NewNames(SkillNames(s), b) == NewNames(SkillNames(s), b');
    AppendedHits(s, b, next, k);
  }

  /** Inductive step, last entry names a record an earlier entry of the batch created. */
  lemma {:induction false} StepPending(s: seq<SkillRecord>, b: seq<SkillInput>, next: nat)
    requires b != [] && b[|b| - 1].skill !in SkillNames(s)
    requires b[|b| - 1].skill in NewNames(SkillNames(s), b[..|b| - 1])
    ensures var m := MergeResult(s, b[..|b| - 1], next);
            Upsert(m.0, b[|b| - 1], m.1).0 == MergeResult(s, b, next).0
    ensures var m := MergeResult(s, b[..|b| - 1], next);
            Upsert(m.0, b[|b| - 1], m.1).1 == MergeResult(s, b, next).1
  {
    var b', e, known := b[..|b| - 1], b[|b| - 1], SkillNames(s);
    var nn := NewNames(known, b');
    assert NewNames(known, b) == nn;
    var k := IndexOf(nn, e.skill);
    var m: seq<SkillRecord> := Updated(s, b') + Appended(s, b', next);
    PendingFound(s, b', next, e.skill, k);
    PendingTail(s, b, next, k);
    UpsertFound(m, e, next + |nn|, |s| + k);
  }

  /** Inductive step, last entry names a record nobody has yet: it is appended. */
  lemma {:induction false} StepFresh(s: seq<SkillRecord>, b: seq<SkillInput>, next: nat)
    requires b != [] && b[|b| - 1].skill !in SkillNames(s)
    requires b[|b| - 1].skill !in NewNames(SkillNames(s), b[..|b| - 1])
    ensures var m := MergeResult(s, b[..|b| - 1], next);
            Upsert(m.0, b[|b| - 1], m.1).0 == MergeResult(s, b, next).0
    ensures var m := MergeResult(s, b[..|b| - 1], next);
            Upsert(m.0, b[|b| - 1], m.1).1 == MergeResult(s, b, next).1
  {
    var b', e, known := b[..|b| - 1], b[|b| - 1], SkillNames(s);
    var nn := NewNames(known, b');
    assert NewNames(known, b) == nn + [e.skill];
    var u', a' := Updated(s, b'), Appended(s, b', next);
    var m: seq<SkillRecord> := u' + a';
    FreshAbsent(s, b', next, e.skill);
    var n' := next + |nn|;
    UpsertNew(m, e, n');
    UpdatedSkips(s, b);
    AppendedGrows(s, b, next);
    AppendTail(u', a', SkillRecord(n', e.skill, e.rating));
  }

  lemma {:induction false} AppendTail(u: seq<SkillRecord>, a: seq<SkillRecord>, x: SkillRecord)
    ensures (u + a) + [x] == u + (a + [x])
  {
  }
}
