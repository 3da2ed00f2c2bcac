/** The final seminar score: the mean of the examiners' numeric marks,
    rounded to two decimals, and its letter grade. Marks are exact
    rationals; the letter-grade conversion is a parameter, since its
    definition is not part of this model. */
module Scores {
  import opened Common

  /** Python's `round(x, 2)` on an exact value, ties rounded up. */
  function Round2(x: real): (r: real)
    ensures (r * 100.0).Floor as real == r * 100.0
    ensures x - 0.005 < r <= x + 0.005
  {
    var k := (x * 100.0 + 0.5).Floor;
    k as real / 100.0
  }

  /** Rounding keeps a score inside the 0..100 scale. */
  lemma Round2InScale(x: real)
    requires 0.0 <= x <= 100.0
    ensures 0.0 <= Round2(x) <= 100.0
  {
    var k := (x * 100.0 + 0.5).Floor;
    assert 0 <= k <= 10000;
  }

  /** Sum of a list of marks. */
  function Sum(xs: seq<real>): real
  {
    if |xs| == 0 then 0.0 else Sum(xs[..|xs| - 1]) + xs[|xs| - 1]
  }

  /** Sum of the marks that are present, skipping missing ones. */
  function SumPresent(xs: seq<Option<real>>): real
  {
    if |xs| == 0 then 0.0
    else SumPresent(xs[..|xs| - 1]) + (if xs[|xs| - 1].Some? then xs[|xs| - 1].value else 0.0)
  }

  predicate AllPresent(xs: seq<Option<real>>)
  {
    forall i :: 0 <= i < |xs| ==> xs[i].Some?
  }

  /** The marks with every missing one counted as zero. */
  function ZeroFilled(xs: seq<Option<real>>): (ys: seq<real>)
    ensures |ys| == |xs|
    ensures forall i :: 0 <= i < |xs| ==> ys[i] == (if xs[i].Some? then xs[i].value else 0.0)
  {
    seq(|xs|, i requires 0 <= i < |xs| => if xs[i].Some? then xs[i].value else 0.0)
  }

  /** The marks of an assessment list in which none is missing. */
  function Present(xs: seq<Option<real>>): (ys: seq<real>)
    requires AllPresent(xs)
    ensures |ys| == |xs| && forall i :: 0 <= i < |xs| ==> xs[i] == Some(ys[i])
  {
    seq(|xs|, i requires 0 <= i < |xs| => xs[i].value)
  }

  /** Skipping a missing mark is the same as counting it as zero. */
  lemma {:induction false} SumPresentIsZeroFilledSum(xs: seq<Option<real>>)
    ensures SumPresent(xs) == Sum(ZeroFilled(xs))
    decreases |xs|
  {
    if |xs| > 0 {
      var n := |xs| - 1;
      SumPresentIsZeroFilledSum(xs[..n]);
      assert ZeroFilled(xs)[..n] == ZeroFilled(xs[..n]);
    }
  }

  /** The present marks of two lists put together sum to the two sums. */
  lemma {:induction false} SumPresentAppend(xs: seq<Option<real>>, ys: seq<Option<real>>)
    ensures SumPresent(xs + ys) == SumPresent(xs) + SumPresent(ys)
    decreases |ys|
  {
    if |ys| == 0 {
      assert xs + ys == xs;
    } else {
      var n := |ys| - 1;
      SumPresentAppend(xs, ys[..n]);
      assert (xs + ys)[..|xs + ys| - 1] == xs + ys[..n];
    }
  }

  /** Taking one mark out of a list takes its value, or nothing when it is
      missing, out of the sum. */
  lemma SumPresentRemove(xs: seq<Option<real>>, j: nat)
    requires j < |xs|
    ensures SumPresent(xs) == SumPresent(xs[..j] + xs[j + 1..]) + (if xs[j].Some? then xs[j].value else 0.0)
  {
    assert xs == (xs[..j] + [xs[j]]) + xs[j + 1..];
    SumPresentAppend(xs[..j] + [xs[j]], xs[j + 1..]);
    SumPresentAppend(xs[..j], [xs[j]]);
    SumPresentAppend(xs[..j], xs[j + 1..]);
    assert [xs[j]][..0] == [];
  }

  /** Marks on the 0..100 scale sum to at most 100 per mark. */
  lemma {:induction false} SumInScale(xs: seq<real>)
    requires forall i :: 0 <= i < |xs| ==> 0.0 <= xs[i] <= 100.0
    ensures 0.0 <= Sum(xs) <= 100.0 * |xs| as real
    decreases |xs|
  {
    if |xs| > 0 {
      SumInScale(xs[..|xs| - 1]);
    }
  }

  datatype Graded = Graded(score: real, grade: string)

  /** The final score the lecturer views show: absent with no
      assessments; otherwise the present marks are summed, missing ones
      skipped, and divided by the number of ALL assessments, then rounded;
      the grade is the conversion of the rounded score. */
  function FinalScoreViews(nilai: seq<Option<real>>, konversi: real -> string): (r: Option<Graded>)
    ensures r.None? <==> |nilai| == 0
  {
    if |nilai| == 0 then None
    else
      var score := Round2(SumPresent(nilai) / |nilai| as real);
      Some(Graded(score, konversi(score)))
  }

  /** The mean of the marks with missing ones read as zero. */
  function ZeroFilledMean(nilai: seq<Option<real>>): real
    requires |nilai| > 0
  {
    Sum(ZeroFilled(nilai)) / |nilai| as real
  }

  /** The views' final score is the rounded zero-filled mean, and stays on
      the 0..100 scale when every present mark does. */
  lemma FinalScoreViewsIsZeroFilledMean(nilai: seq<Option<real>>, konversi: real -> string)
    requires |nilai| > 0
    requires forall i :: 0 <= i < |nilai| && nilai[i].Some? ==> 0.0 <= nilai[i].value <= 100.0
    ensures FinalScoreViews(nilai, konversi) ==
      Some(Graded(Round2(ZeroFilledMean(nilai)), konversi(Round2(ZeroFilledMean(nilai)))))
    ensures 0.0 <= FinalScoreViews(nilai, konversi).value.score <= 100.0
  {
    SumPresentIsZeroFilledSum(nilai);
    SumInScale(ZeroFilled(nilai));
    var n := |nilai| as real;
    var m := ZeroFilledMean(nilai);
    assert 0.0 <= Sum(ZeroFilled(nilai)) <= 100.0 * n;
    assert 0.0 <= m <= 100.0 by {
      assert m * n == Sum(ZeroFilled(nilai));
    }
    Round2InScale(m);
  }

  /** One examiner with 80 and one without a mark: the views give 40, not
      the 80 the present marks average to. */
  lemma MissingMarkHalvesScore(konversi: real -> string)
    ensures FinalScoreViews([Some(80.0), None], konversi).value.score == 40.0
  {
    assert SumPresent([Some(80.0), None]) == 80.0 by {
      assert [Some(80.0), None][..1] == [Some(80.0)];
      assert [Some(80.0)][..0] == [];
    }
    assert Round2(40.0) == 40.0 by {
      assert (40.0 * 100.0 + 0.5).Floor == 4000;
    }
  }

  datatype FacadeScore = NoScore | Score(graded: Graded) | TypeError

  /** The final score of the older facade copy: every mark goes through
      `float(...)`, so a missing mark raises TypeError instead of being
      skipped. */
  function FinalScoreFacade(nilai: seq<Option<real>>, konversi: real -> string): (r: FacadeScore)
    ensures r.NoScore? <==> |nilai| == 0
    ensures r.TypeError? <==> !AllPresent(nilai)
  {
    if |nilai| == 0 then NoScore
    else if !AllPresent(nilai) then TypeError
    else
      var score := Round2(Sum(Present(nilai)) / |nilai| as real);
      Score(Graded(score, konversi(score)))
  }

  /** When no mark is missing, both copies agree on score and grade. */
  lemma FinalScoresAgreeWhenComplete(nilai: seq<Option<real>>, konversi: real -> string)
    requires |nilai| > 0 && AllPresent(nilai)
    ensures FinalScoreFacade(nilai, konversi) == Score(FinalScoreViews(nilai, konversi).value)
  {
    SumPresentIsZeroFilledSum(nilai);
    assert ZeroFilled(nilai) == Present(nilai);
  }

  /** The conversion agrees with the boundary points the test suite fixes. */
  predicate MatchesGradeTestPoints(konversi: real -> string)
  {
    konversi(81.0) == "A" && konversi(80.0) == "A-" && konversi(76.0) == "A-" &&
    konversi(72.0) == "B+" && konversi(68.0) == "B" && konversi(64.0) == "B-" &&
    konversi(58.0) == "C+" && konversi(54.0) == "C" && konversi(50.0) == "C-" &&
    konversi(46.0) == "D+" && konversi(42.0) == "D" && konversi(40.0) == "E"
  }

  /** Marks 85 and 77 give the final score 81 and, under any conversion
      matching the test points, the grade A. */
  lemma TwoExaminersExample(konversi: real -> string)
    requires MatchesGradeTestPoints(konversi)
    ensures FinalScoreViews([Some(85.0), Some(77.0)], konversi) == Some(Graded(81.0, "A"))
  {
    assert SumPresent([Some(85.0), Some(77.0)]) == 162.0 by {
      assert [Some(85.0), Some(77.0)][..1] == [Some(85.0)];
      assert [Some(85.0)][..0] == [];
    }
    assert Round2(81.0) == 81.0 by {
      assert (81.0 * 100.0 + 0.5).Floor == 8100;
    }
  }
}
