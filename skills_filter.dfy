/** GET /skills: the grouped skill counts, kept when the count passes both
    optional query bounds, reshaped to {name, frequency}. The grouped rows are
    an input: the counting itself is the storage layer's. */
module SkillsQuery {
  import opened Shapes
  import opened JsNumbers

  /** One row of the grouping by skill name: the name and the number of Skill
      records that carry it. */
  datatype SkillCount = SkillCount(skill: string, count: nat)

  /** One entry of the response (ISkill). */
  datatype SkillFrequency = SkillFrequency(name: string, frequency: nat)

  /** The lower-bound test. A missing or empty bound is falsy and lets every
      count through; any other text is parsed, and when it is NaN the
      comparison is false for every count. */
  predicate AtLeast(count: nat, bound: Option<string>)
  {
    bound.None? || bound.value == [] ||
    (ParseInt(bound.value).Some? && count >= ParseInt(bound.value).value)
  }

  /** The upper-bound test, with the same reading of the bound. */
  predicate AtMost(count: nat, bound: Option<string>)
  {
    bound.None? || bound.value == [] ||
    (ParseInt(bound.value).Some? && count <= ParseInt(bound.value).value)
  }

  predicate Passes(row: SkillCount, minFrequency: Option<string>, maxFrequency: Option<string>)
  {
    AtLeast(row.count, minFrequency) && AtMost(row.count, maxFrequency)
  }

  function AsFrequency(row: SkillCount): SkillFrequency
  {
    SkillFrequency(row.skill, row.count)
  }

  function Names(r: seq<SkillFrequency>): seq<string>
  {
    seq(|r|, i requires 0 <= i < |r| => r[i].name)
  }

  /** The response: the rows that pass both bounds, in their order, each
      reshaped to a name and a frequency. */
  function SkillsReply(rows: seq<SkillCount>, minFrequency: Option<string>, maxFrequency: Option<string>)
    : (r: seq<SkillFrequency>)
    ensures |r| <= |rows|
    decreases |rows|
  {
    if rows == [] then []
    else
      var rest := SkillsReply(rows[..|rows| - 1], minFrequency, maxFrequency);
      var last := rows[|rows| - 1];
      if Passes(last, minFrequency, maxFrequency) then rest + [AsFrequency(last)] else rest
  }

  /** Every entry of the reply is the reshaped form of a row that passes
      both bounds. */
  lemma {:induction false} SkillsReplySound(rows: seq<SkillCount>,
                                            minFrequency: Option<string>, maxFrequency: Option<string>)
    ensures forall f :: f in SkillsReply(rows, minFrequency, maxFrequency) ==>
              exists j :: 0 <= j < |rows| && Passes(rows[j], minFrequency, maxFrequency) &&
                          f == AsFrequency(rows[j])
    decreases |rows|
  {
    if rows != [] {
      var init, last := rows[..|rows| - 1], rows[|rows| - 1];
      SkillsReplySound(init, minFrequency, maxFrequency);
      var rest := SkillsReply(init, minFrequency, maxFrequency);
      forall f | f in SkillsReply(rows, minFrequency, maxFrequency)
        ensures exists j :: 0 <= j < |rows| && Passes(rows[j], minFrequency, maxFrequency) &&
                            f == AsFrequency(rows[j])
      {
        if f in rest {
          var j :| 0 <= j < |init| && Passes(init[j], minFrequency, maxFrequency) && f == AsFrequency(init[j]);
          assert rows[j] == init[j];
        } else {
          assert Passes(rows[|rows| - 1], minFrequency, maxFrequency) && f == AsFrequency(rows[|rows| - 1]);
        }
      }
    }
  }

  /** Every row that passes both bounds is in the reply. */
  lemma {:induction false} SkillsReplyComplete(rows: seq<SkillCount>,
                                               minFrequency: Option<string>, maxFrequency: Option<string>)
    ensures forall j :: 0 <= j < |rows| && Passes(rows[j], minFrequency, maxFrequency) ==>
              AsFrequency(rows[j]) in SkillsReply(rows, minFrequency, maxFrequency)
    decreases |rows|
  {
    if rows != [] {
      var init := rows[..|rows| - 1];
      SkillsReplyComplete(init, minFrequency, maxFrequency);
      forall j | 0 <= j < |rows| - 1 && Passes(rows[j], minFrequency, maxFrequency)
        ensures AsFrequency(rows[j]) in SkillsReply(rows, minFrequency, maxFrequency)
      {
        assert init[j] == rows[j];
      }
    }
  }

  /** When no row passes, the reply is empty. */
  lemma {:induction false} NoRowPasses(rows: seq<SkillCount>,
                                       minFrequency: Option<string>, maxFrequency: Option<string>)
    requires forall row :: row in rows ==> !Passes(row, minFrequency, maxFrequency)
    ensures SkillsReply(rows, minFrequency, maxFrequency) == []
    decreases |rows|
  {
    if rows != [] {
      assert rows[|rows| - 1] in rows;
      assert forall row :: row in rows[..|rows| - 1] ==> row in rows;
      NoRowPasses(rows[..|rows| - 1], minFrequency, maxFrequency);
    }
  }

  /** The reply of a concatenation is the concatenation of the replies: the
      filter keeps the rows' order and looks at each row alone. */
  lemma {:induction false} SkillsReplyAppend(a: seq<SkillCount>, b: seq<SkillCount>,
                                             minFrequency: Option<string>, maxFrequency: Option<string>)
    ensures SkillsReply(a + b, minFrequency, maxFrequency) ==
            SkillsReply(a, minFrequency, maxFrequency) + SkillsReply(b, minFrequency, maxFrequency)
    decreases |b|
  {
    if b == [] {
      assert a + b == a;
    } else {
      var init := b[..|b| - 1];
      assert (a + b)[..|a + b| - 1] == a + init;
      assert (a + b)[|a + b| - 1] == b[|b| - 1];
      SkillsReplyAppend(a, init, minFrequency, maxFrequency);
    }
  }

  /** Without bounds every row is returned, in order, with its count as
      frequency. */
  lemma {:induction false} SkillsReplyUnbounded(rows: seq<SkillCount>)
    ensures SkillsReply(rows, None, None) == seq(|rows|, i requires 0 <= i < |rows| => AsFrequency(rows[i]))
    decreases |rows|
  {
    if rows != [] {
      SkillsReplyUnbounded(rows[..|rows| - 1]);
    }
  }

  /** Two pairs of bounds that accept the same rows give the same reply. */
  lemma {:induction false} SkillsReplySameVerdicts(rows: seq<SkillCount>,
                                                   min1: Option<string>, max1: Option<string>,
                                                   min2: Option<string>, max2: Option<string>)
    requires forall row :: row in rows ==> (Passes(row, min1, max1) <==> Passes(row, min2, max2))
    ensures SkillsReply(rows, min1, max1) == SkillsReply(rows, min2, max2)
    decreases |rows|
  {
    if rows != [] {
      var init := rows[..|rows| - 1];
      assert forall row :: row in init ==> row in rows;
      assert rows[|rows| - 1] in rows;
      SkillsReplySameVerdicts(init, min1, max1, min2, max2);
    }
  }

  /** An empty bound string is the same as no bound. */
  lemma {:induction false} EmptyBoundIsNoBound(rows: seq<SkillCount>,
                                               minFrequency: Option<string>, maxFrequency: Option<string>)
    ensures SkillsReply(rows, Some(""), maxFrequency) == SkillsReply(rows, None, maxFrequency)
    ensures SkillsReply(rows, minFrequency, Some("")) == SkillsReply(rows, minFrequency, None)
  {
    SkillsReplySameVerdicts(rows, Some(""), maxFrequency, None, maxFrequency);
    SkillsReplySameVerdicts(rows, minFrequency, Some(""), minFrequency, None);
  }

  /** A bound that is present, not empty and NaN lets no row through, so the
      reply is empty: the bound is not ignored. */
  lemma {:induction false} NaNBoundEmptiesReply(rows: seq<SkillCount>,
                                                minFrequency: Option<string>, maxFrequency: Option<string>)
    requires (minFrequency.Some? && minFrequency.value != [] && ParseInt(minFrequency.value).None?) ||
             (maxFrequency.Some? && maxFrequency.value != [] && ParseInt(maxFrequency.value).None?)
    ensures SkillsReply(rows, minFrequency, maxFrequency) == []
  {
    NoRowPasses(rows, minFrequency, maxFrequency);
  }

  /** A word as bound empties the reply. */
  lemma {:induction false} WordBoundEmptiesReply(rows: seq<SkillCount>)
    ensures SkillsReply(rows, Some("abc"), None) == []
    ensures SkillsReply(rows, None, Some("abc")) == []
  {
    ParseWord();
    NaNBoundEmptiesReply(rows, Some("abc"), None);
    NaNBoundEmptiesReply(rows, None, Some("abc"));
  }

  /** A numeric minimum holds for every entry of the reply. */
  lemma {:induction false} MinimumBoundHolds(rows: seq<SkillCount>, minText: string)
    requires minText != [] && ParseInt(minText).Some?
    ensures forall f :: f in SkillsReply(rows, Some(minText), None) ==>
              f.frequency >= ParseInt(minText).value
  {
    SkillsReplySound(rows, Some(minText), None);
  }

  /** A numeric maximum holds for every entry of the reply. */
  lemma {:induction false} MaximumBoundHolds(rows: seq<SkillCount>, maxText: string)
    requires maxText != [] && ParseInt(maxText).Some?
    ensures forall f :: f in SkillsReply(rows, None, Some(maxText)) ==>
              f.frequency <= ParseInt(maxText).value
  {
    SkillsReplySound(rows, None, Some(maxText));
  }

  /** Two numeric bounds hold together: every frequency of the reply lies
      between the parsed minimum and the parsed maximum. */
  lemma {:induction false} BothBoundsHold(rows: seq<SkillCount>, minText: string, maxText: string)
    requires minText != [] && ParseInt(minText).Some?
    requires maxText != [] && ParseInt(maxText).Some?
    ensures forall f :: f in SkillsReply(rows, Some(minText), Some(maxText)) ==>
              ParseInt(minText).value <= f.frequency <= ParseInt(maxText).value
  {
    SkillsReplySound(rows, Some(minText), Some(maxText));
  }

  /** Bounds that cross (minimum above maximum) leave nothing. */
  lemma {:induction false} CrossedBoundsEmptyReply(rows: seq<SkillCount>, minText: string, maxText: string)
    requires minText != [] && maxText != []
    requires ParseInt(minText).Some? && ParseInt(maxText).Some?
    requires ParseInt(minText).value > ParseInt(maxText).value
    ensures SkillsReply(rows, Some(minText), Some(maxText)) == []
  {
    NoRowPasses(rows, Some(minText), Some(maxText));
  }

  /** The string "0" is a bound like any other, not a missing one: as a
      maximum it removes every skill that some user has. */
  lemma {:induction false} ZeroMaximumApplies(rows: seq<SkillCount>)
    requires forall row :: row in rows ==> row.count >= 1
    ensures SkillsReply(rows, None, Some("0")) == []
  {
    var zero := "0";
    ParseZero();
    assert zero != [] && ParseInt(zero) == Some(0);
    forall row | row in rows ensures !Passes(row, None, Some(zero)) {
      assert !AtMost(row.count, Some(zero));
    }
    NoRowPasses(rows, None, Some(zero));
  }

  /** The grouping yields each name once; the reply then names each skill
      at most once. */
  lemma {:induction false} SkillsReplyNamesDistinct(rows: seq<SkillCount>,
                                                    minFrequency: Option<string>, maxFrequency: Option<string>)
    requires forall i, j :: 0 <= i < j < |rows| ==> rows[i].skill != rows[j].skill
    ensures Distinct(Names(SkillsReply(rows, minFrequency, maxFrequency)))
    decreases |rows|
  {
    if rows != [] {
      var init, last := rows[..|rows| - 1], rows[|rows| - 1];
      SkillsReplyNamesDistinct(init, minFrequency, maxFrequency);
      var rest := SkillsReply(init, minFrequency, maxFrequency);
      if Passes(last, minFrequency, maxFrequency) {
        var r := rest + [AsFrequency(last)];
        SkillsReplySound(init, minFrequency, maxFrequency);
        forall i | 0 <= i < |rest| ensures rest[i].name != last.skill {
          assert rest[i] in rest;
          var k :| 0 <= k < |init| && Passes(init[k], minFrequency, maxFrequency) && rest[i] == AsFrequency(init[k]);
          assert init[k] == rows[k];
        }
        forall i, j | 0 <= i < j < |r| ensures Names(r)[i] != Names(r)[j] {
          if j < |rest| {
            assert Names(rest)[i] != Names(rest)[j];
          }
        }
      }
    }
  }
}
