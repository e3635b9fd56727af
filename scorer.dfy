/**
 * SentimentV1Classifier.analyze_data_from_classifier: for every fold it reads the list
 * of classified tuples, predicts a rating from each tuple's three class scores, counts
 * the dataset rows whose text is the tuple's text and whose rating is the prediction,
 * and prints hits / number of tuples. Scores are reals; the text files are given as
 * already-parsed tuple lists.
 */
module Scorer {
  import opened Wrappers
  import opened Dataset

  /**
   * One entry of a classified_set file: (text, label, [("neg", n), ("neutral", u),
   * ("pos", p)]). The label and the class names are not read, so they are not kept.
   */
  datatype ClassifiedTuple = ClassifiedTuple(text: string, neg: real, neutral: real, pos: real)

  /** max(values): the running maximum, replaced only by a strictly greater value. */
  function MaxOf(values: seq<real>): (m: real)
    requires |values| > 0
    ensures m in values
    ensures forall k :: 0 <= k < |values| ==> values[k] <= m
  {
    if |values| == 1 then values[0]
    else
      var rest := MaxOf(values[..|values| - 1]);
      if values[|values| - 1] > rest then values[|values| - 1] else rest
  }

  /** values.index(m): the first position holding m. */
  function IndexOf(values: seq<real>, m: real): (i: nat)
    requires m in values
    ensures i < |values| && values[i] == m
    ensures forall k :: 0 <= k < i ==> values[k] != m
  {
    if values[0] == m then 0 else 1 + IndexOf(values[1..], m)
  }

  /**
   * The rating the classifier predicts: the position of the first maximum of
   * [neg, neutral, pos], read as -1, 0 or 1. Ties go to the earlier class.
   */
  function PredictedRating(t: ClassifiedTuple): (rating: int)
    ensures rating == -1 <==> t.neg >= t.neutral && t.neg >= t.pos
    ensures rating == 0 <==> t.neutral > t.neg && t.neutral >= t.pos
    ensures rating == 1 <==> t.pos > t.neg && t.pos > t.neutral
  {
    var values := [t.neg, t.neutral, t.pos];
    var m := MaxOf(values);
    var index := IndexOf(values, m);
    assert values[0] <= m && values[1] <= m && values[2] <= m;
    assert (index > 0 ==> values[0] != m) && (index > 1 ==> values[1] != m);
    if index == 0 then -1 else if index == 1 then 0 else 1
  }

  /** A row of the dataset that confirms the tuple: same text, and its rating is the prediction. */
  predicate IsHit(row: Record, t: ClassifiedTuple) {
    row.text == t.text && RatingValue(row.rating) == PredictedRating(t)
  }

  /** The hits one tuple scores: the number of confirming rows, duplicates included. */
  function RowHits(rows: seq<Record>, t: ClassifiedTuple): (hits: nat)
    ensures hits <= |rows|
  {
    if rows == [] then 0
    else RowHits(rows[..|rows| - 1], t) + (if IsHit(rows[|rows| - 1], t) then 1 else 0)
  }

  /** Whether some row has the tuple's text; a tuple without one is reported as an error. */
  function HasText(rows: seq<Record>, text: string): (found: bool)
    ensures found <==> exists k :: 0 <= k < |rows| && rows[k].text == text
  {
    if rows == [] then false
    else HasText(rows[..|rows| - 1], text) || rows[|rows| - 1].text == text
  }

  /** The hits of a tuple list: the sum of its tuples' hits. */
  function Hits(rows: seq<Record>, tuples: seq<ClassifiedTuple>): (hits: nat)
    ensures hits <= |tuples| * |rows|
  {
    if tuples == [] then 0
    else Hits(rows, tuples[..|tuples| - 1]) + RowHits(rows, tuples[|tuples| - 1])
  }

  /** The texts of the tuples that no row has, in tuple order. */
  function UnmatchedTexts(rows: seq<Record>, tuples: seq<ClassifiedTuple>): (texts: seq<string>)
    ensures |texts| <= |tuples|
  {
    if tuples == [] then []
    else
      var t := tuples[|tuples| - 1];
      UnmatchedTexts(rows, tuples[..|tuples| - 1]) + (if HasText(rows, t.text) then [] else [t.text])
  }

  /** The printed ratio hits / len(tuple_list); None where the division by zero raises. */
  function HitRatio(rows: seq<Record>, tuples: seq<ClassifiedTuple>): (ratio: Option<real>)
    ensures ratio.None? <==> tuples == []
  {
    if tuples == [] then None else Some(Hits(rows, tuples) as real / |tuples| as real)
  }

  /** The number of rows whose text is text. */
  function TextCount(rows: seq<Record>, text: string): (count: nat)
    ensures count <= |rows|
  {
    if rows == [] then 0
    else TextCount(rows[..|rows| - 1], text) + (if rows[|rows| - 1].text == text then 1 else 0)
  }

  /** Texts that occur at most once in the dataset. */
  predicate DistinctTexts(rows: seq<Record>) {
    forall i, j :: 0 <= i < j < |rows| ==> rows[i].text != rows[j].text
  }

  /** A tuple scores at most one hit per row with its text, and none when no row has it. */
  lemma {:induction false} RowHitsBound(rows: seq<Record>, t: ClassifiedTuple)
    ensures RowHits(rows, t) <= TextCount(rows, t.text)
    ensures !HasText(rows, t.text) ==> RowHits(rows, t) == 0
  {
    if rows != [] {
      RowHitsBound(rows[..|rows| - 1], t);
      assert HasText(rows[..|rows| - 1], t.text) ==> HasText(rows, t.text);
    }
  }

  /** In a dataset without repeated texts every text occurs at most once. */
  lemma {:induction false} DistinctTextCount(rows: seq<Record>, text: string)
    requires DistinctTexts(rows)
    ensures TextCount(rows, text) <= 1
    ensures TextCount(rows, text) == 1 <==> HasText(rows, text)
  {
    if rows != [] {
      var init, last := rows[..|rows| - 1], rows[|rows| - 1];
      assert DistinctTexts(init);
      DistinctTextCount(init, text);
      if last.text == text {
        forall k | 0 <= k < |init|
          ensures init[k].text != text
        {
          assert init[k] == rows[k];
        }
      }
    }
  }

  /**
   * Without repeated texts in the dataset each tuple scores at most one hit, so the
   * printed ratio is at most 1. Only repeated texts can push it above 1.
   */
  lemma {:induction false} DistinctTextsBoundHits(rows: seq<Record>, tuples: seq<ClassifiedTuple>)
    requires DistinctTexts(rows)
    ensures Hits(rows, tuples) <= |tuples|
    ensures tuples != [] ==> HitRatio(rows, tuples).value <= 1.0
  {
    if tuples != [] {
      var t := tuples[|tuples| - 1];
      DistinctTextsBoundHits(rows, tuples[..|tuples| - 1]);
      RowHitsBound(rows, t);
      DistinctTextCount(rows, t.text);
      assert Hits(rows, tuples) <= |tuples|;
      RatioAtMostOne(Hits(rows, tuples), |tuples|);
    }
  }

  /** A count no larger than a positive total gives a ratio of at most 1. */
  lemma RatioAtMostOne(count: nat, total: nat)
    requires 0 < total && count <= total
    ensures count as real / total as real <= 1.0
  {
    var q := count as real / total as real;
    assert q * total as real == count as real;
    assert (q - 1.0) * total as real == count as real - total as real;
  }

  /** Two rows with the same text and rating: one correct tuple scores two hits, ratio 2. */
  lemma RepeatedTextDoublesHit()
    ensures var row := Record("1", "great course");
            var t := ClassifiedTuple("great course", 0.1, 0.2, 0.7);
            Hits([row, row], [t]) == 2 && HitRatio([row, row], [t]) == Some(2.0)
  {
    var row := Record("1", "great course");
    var t := ClassifiedTuple("great course", 0.1, 0.2, 0.7);
    assert PredictedRating(t) == 1;
    assert [row, row][..1] == [row];
    assert RowHits([row], t) == 1;
    assert [t][..0] == [];
  }

  /** A tuple whose text no row has adds no hit but still counts in the denominator. */
  lemma UnmatchedTupleCounts(rows: seq<Record>, tuples: seq<ClassifiedTuple>, t: ClassifiedTuple)
    requires !HasText(rows, t.text)
    ensures Hits(rows, tuples + [t]) == Hits(rows, tuples)
    ensures HitRatio(rows, tuples + [t]) == Some(Hits(rows, tuples) as real / (|tuples| + 1) as real)
    ensures UnmatchedTexts(rows, tuples + [t]) == UnmatchedTexts(rows, tuples) + [t.text]
  {
    assert (tuples + [t])[..|tuples|] == tuples;
    RowHitsBound(rows, t);
  }

  /**
   * The nested loops for one fold: for each tuple, scan every row, count a hit for each
   * row with the same text and the predicted rating, and note the tuple's text when no
   * row had it.
   */
  method CountHits(rows: seq<Record>, tuples: seq<ClassifiedTuple>) returns (hits: nat, unmatched: seq<string>)
    ensures hits == Hits(rows, tuples)
    ensures unmatched == UnmatchedTexts(rows, tuples)
  {
    hits, unmatched := 0, [];
    var i := 0;
    while i < |tuples|
      invariant 0 <= i <= |tuples|
      invariant hits == Hits(rows, tuples[..i])
      invariant unmatched == UnmatchedTexts(rows, tuples[..i])
    {
      var t := tuples[i];
      var ratingValue := PredictedRating(t);
      var found := false;
      var j := 0;
      while j < |rows|
        invariant 0 <= j <= |rows|
        invariant hits == Hits(rows, tuples[..i]) + RowHits(rows[..j], t)
        invariant found == HasText(rows[..j], t.text)
      {
        assert rows[..j + 1][..j] == rows[..j];
        if t.text == rows[j].text {
          found := true;
          var realRating := RatingValue(rows[j].rating);
          if realRating == ratingValue {
            hits := hits + 1;
          }
        }
        j := j + 1;
      }
      assert rows[..j] == rows;
      if !found {
        unmatched := unmatched + [t.text];
      }
      assert tuples[..i + 1][..i] == tuples[..i];
      i := i + 1;
    }
    assert tuples[..i] == tuples;
  }

  /** The number of folds, and of classified_set files read. */
  const FoldCount: nat := 3

  /**
   * The fold loop: the ratio printed for each fold and the unmatched texts reported,
   * fold after fold. An empty tuple list raises ZeroDivisionError, which ends the run
   * (zeroDivision); the folds after it are not reached.
   */
  method AnalyzeDataFromClassifier(rows: seq<Record>, classified: seq<seq<ClassifiedTuple>>)
    returns (ratios: seq<real>, unmatched: seq<seq<string>>, zeroDivision: bool)
    requires |classified| == FoldCount
    ensures |ratios| <= FoldCount && |unmatched| == |ratios| + (if zeroDivision then 1 else 0)
    ensures zeroDivision <==> exists f :: 0 <= f < FoldCount && classified[f] == []
    ensures forall f :: 0 <= f < |ratios| ==> classified[f] != [] && Some(ratios[f]) == HitRatio(rows, classified[f])
    ensures forall f :: 0 <= f < |unmatched| ==> unmatched[f] == UnmatchedTexts(rows, classified[f])
    ensures !zeroDivision ==> |ratios| == FoldCount
    ensures zeroDivision ==> classified[|ratios|] == []
  {
    ratios, unmatched := [], [];
    var i := 0;
    while i < FoldCount
      invariant 0 <= i <= FoldCount && |ratios| == i && |unmatched| == i
      invariant forall f :: 0 <= f < i ==> classified[f] != [] && Some(ratios[f]) == HitRatio(rows, classified[f])
      invariant forall f :: 0 <= f < i ==> unmatched[f] == UnmatchedTexts(rows, classified[f])
    {
      var tupleList := classified[i];
      var hits, missing := CountHits(rows, tupleList);
      unmatched := unmatched + [missing];
      if |tupleList| == 0 {
        return ratios, unmatched, true;
      }
      ratios := ratios + [hits as real / |tupleList| as real];
      i := i + 1;
    }
    zeroDivision := false;
  }
}
