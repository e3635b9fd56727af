/**
 * The per-fold set-up of SentimentV1Classifier.cross_validate_classification: the
 * fold's training rows are sorted into neg, neutral and pos buckets by their rating
 * string, and the fold's test texts are listed in test-index order. These lists are
 * what the uclassify service is trained with and asked to classify.
 */
module V1Folds {
  import opened Dataset

  datatype Bucket = Neg | Neutral | Pos

  /** The if/elif chain of the bucketing loop: "-1" is neg, "0" neutral, anything else pos. */
  function BucketOf(rating: string): (b: Bucket)
  {
    if rating == "-1" then Neg else if rating == "0" then Neutral else Pos
  }

  /** On a valid rating the buckets follow its value: -1 is neg, 0 neutral, 1 pos. */
  lemma BucketOfRating(rating: RatingString)
    ensures BucketOf(rating) == Neg <==> RatingValue(rating) == -1
    ensures BucketOf(rating) == Neutral <==> RatingValue(rating) == 0
    ensures BucketOf(rating) == Pos <==> RatingValue(rating) == 1
  {
  }

  /** The texts of the rows that fall into bucket b, in row order. */
  function BucketTexts(rows: seq<Record>, b: Bucket): (texts: seq<string>)
    ensures |texts| <= |rows|
  {
    if rows == [] then []
    else
      var last := rows[|rows| - 1];
      BucketTexts(rows[..|rows| - 1], b) + (if BucketOf(last.rating) == b then [last.text] else [])
  }

  /** What one fold hands to the classifier: three training buckets and the test texts. */
  datatype FoldInput = FoldInput(neg: seq<string>, neutral: seq<string>, pos: seq<string>, test: seq<string>)

  /** The classifier input of a fold, as a function of the dataset and the fold's indices. */
  function FoldInputOf(data: seq<Record>, fold: Fold): (input: FoldInput)
    requires FoldWithin(fold, |data|)
  {
    var train := Select(data, fold.train);
    FoldInput(BucketTexts(train, Neg), BucketTexts(train, Neutral), BucketTexts(train, Pos),
              Texts(Select(data, fold.test)))
  }

  /** Bucketing distributes over concatenation: each bucket keeps the rows' relative order. */
  lemma {:induction false} BucketTextsConcat(a: seq<Record>, b: seq<Record>, k: Bucket)
    ensures BucketTexts(a + b, k) == BucketTexts(a, k) + BucketTexts(b, k)
  {
    if b == [] {
      assert a + b == a;
    } else {
      var n := |b| - 1;
      var last := b[n];
      assert (a + b)[..|a + b| - 1] == a + b[..n];
      assert (a + b)[|a + b| - 1] == last;
      var extra := if BucketOf(last.rating) == k then [last.text] else [];
      assert BucketTexts(a + b, k) == BucketTexts(a + b[..n], k) + extra;
      BucketTextsConcat(a, b[..n], k);
      assert BucketTexts(b, k) == BucketTexts(b[..n], k) + extra;
    }
  }

  lemma TextsSnoc(init: seq<Record>, last: Record)
    ensures Texts(init + [last]) == Texts(init) + [last.text]
  {
  }

  /** The texts of the three buckets together. */
  function AllBuckets(rows: seq<Record>): (texts: multiset<string>) {
    multiset(BucketTexts(rows, Neg)) + multiset(BucketTexts(rows, Neutral)) + multiset(BucketTexts(rows, Pos))
  }

  /** The last row adds its text once to the buckets together. */
  lemma AllBucketsStep(rows: seq<Record>)
    requires rows != []
    ensures AllBuckets(rows) == AllBuckets(rows[..|rows| - 1]) + multiset{rows[|rows| - 1].text}
  {
    var init, last := rows[..|rows| - 1], rows[|rows| - 1];
    var neg, neutral, pos := multiset(BucketTexts(init, Neg)), multiset(BucketTexts(init, Neutral)), multiset(BucketTexts(init, Pos));
    var one := multiset{last.text};
    UnionMoves(neg, neutral, pos, one);
    match BucketOf(last.rating)
    case Neg => assert multiset(BucketTexts(rows, Neg)) == neg + one;
    case Neutral => assert multiset(BucketTexts(rows, Neutral)) == neutral + one;
    case Pos => assert multiset(BucketTexts(rows, Pos)) == pos + one;
  }

  /** Adding to any one of three multisets adds to their union. */
  lemma UnionMoves<T>(a: multiset<T>, b: multiset<T>, c: multiset<T>, d: multiset<T>)
    ensures (a + d) + b + c == a + b + c + d
    ensures a + (b + d) + c == a + b + c + d
    ensures a + b + (c + d) == a + b + c + d
  {
  }

  /**
   * Every row lands in exactly one bucket: the three buckets together hold the rows'
   * texts, as many times as they occur, so their lengths add up to the number of rows.
   */
  lemma {:induction false} BucketsPartition(rows: seq<Record>)
    ensures multiset(BucketTexts(rows, Neg)) + multiset(BucketTexts(rows, Neutral))
            + multiset(BucketTexts(rows, Pos)) == multiset(Texts(rows))
    ensures |BucketTexts(rows, Neg)| + |BucketTexts(rows, Neutral)| + |BucketTexts(rows, Pos)| == |rows|
  {
    assert AllBuckets(rows) == multiset(Texts(rows)) by {
      BucketsTogether(rows);
    }
    assert |multiset(Texts(rows))| == |rows|;
  }

  lemma {:induction false} BucketsTogether(rows: seq<Record>)
    ensures AllBuckets(rows) == multiset(Texts(rows))
  {
    if rows != [] {
      var init, last := rows[..|rows| - 1], rows[|rows| - 1];
      assert rows == init + [last];
      BucketsTogether(init);
      TextsSnoc(init, last);
      AllBucketsStep(rows);
    }
  }

  /** The fold's buckets hold its training rows and its test list the test rows in index order. */
  lemma FoldInputShape(data: seq<Record>, fold: Fold)
    requires FoldWithin(fold, |data|)
    ensures var input := FoldInputOf(data, fold);
            && |input.neg| + |input.neutral| + |input.pos| == |fold.train|
            && |input.test| == |fold.test|
            && forall k :: 0 <= k < |fold.test| ==> input.test[k] == data[fold.test[k]].text
  {
    BucketsPartition(Select(data, fold.train));
  }

  /** The bucketing loop: each training row's text goes to the bucket its rating string names. */
  method BucketRows(train: seq<Record>) returns (neg: seq<string>, neutral: seq<string>, pos: seq<string>)
    ensures neg == BucketTexts(train, Neg)
    ensures neutral == BucketTexts(train, Neutral)
    ensures pos == BucketTexts(train, Pos)
  {
    neg, neutral, pos := [], [], [];
    var i := 0;
    while i < |train|
      invariant 0 <= i <= |train|
      invariant neg == BucketTexts(train[..i], Neg)
      invariant neutral == BucketTexts(train[..i], Neutral)
      invariant pos == BucketTexts(train[..i], Pos)
    {
      assert train[..i + 1][..i] == train[..i];
      var row := train[i];
      if row.rating == "-1" {
        neg := neg + [row.text];
      } else if row.rating == "0" {
        neutral := neutral + [row.text];
      } else {
        pos := pos + [row.text];
      }
      i := i + 1;
    }
    assert train[..i] == train;
  }

  /** The test loop: the test rows' texts in test-index order. */
  method TestTexts(testRows: seq<Record>) returns (test: seq<string>)
    ensures test == Texts(testRows)
  {
    test := [];
    var j := 0;
    while j < |testRows|
      invariant 0 <= j <= |testRows|
      invariant test == Texts(testRows[..j])
    {
      test := test + [testRows[j].text];
      j := j + 1;
    }
    assert testRows[..j] == testRows;
  }

  /**
   * Builds the buckets and the test list of one fold by running the two loops of the
   * source; FoldInputOf states the same input as a function of the fold's indices.
   */
  method PrepareFold(data: seq<Record>, fold: Fold) returns (input: FoldInput)
    requires FoldWithin(fold, |data|)
    ensures input == FoldInputOf(data, fold)
  {
    var neg, neutral, pos := BucketRows(Select(data, fold.train));
    var test := TestTexts(Select(data, fold.test));
    input := FoldInput(neg, neutral, pos, test);
  }

  /**
   * The fold loop of cross_validate_classification, without the calls to the remote
   * classifier: the input handed to the classifier for each fold, in fold order (the
   * position is the suffix of the classified_set file the fold's output goes to).
   */
  method CrossValidateClassification(data: seq<Record>, folds: seq<Fold>) returns (inputs: seq<FoldInput>)
    requires forall f :: 0 <= f < |folds| ==> FoldWithin(folds[f], |data|)
    ensures |inputs| == |folds|
    ensures forall f :: 0 <= f < |folds| ==> inputs[f] == FoldInputOf(data, folds[f])
  {
    inputs := [];
    var fileName := 0;
    while fileName < |folds|
      invariant 0 <= fileName <= |folds|
      invariant |inputs| == fileName
      invariant forall f :: 0 <= f < fileName ==> inputs[f] == FoldInputOf(data, folds[f])
    {
      var input := PrepareFold(data, folds[fileName]);
      inputs := inputs + [input];
      fileName := fileName + 1;
    }
  }
}
