/**
 * The records of the sanitised dataset, the folds that split them, and the rating
 * scales the two classifiers use. After CSVAnalyser.remove_invalid_entries the dataset
 * is a numpy array of strings, so a rating is one of the strings "-1", "0", "1" and
 * later code compares it against string literals or calls int() on it.
 */
module Dataset {
  import opened JavaText

  predicate IsValidRating(s: string) {
    s == "1" || s == "-1" || s == "0"
  }

  type RatingString = s: string | IsValidRating(s) witness "0"

  /** A sanitised row: [rating, text]. */
  datatype Record = Record(rating: RatingString, text: string)

  /** int(rating): the number the rating string denotes. */
  function RatingValue(rating: RatingString): (v: int)
    ensures -1 <= v <= 1
  {
    if rating == "-1" then -1 else if rating == "0" then 0 else 1
  }

  /** str(int(rating)) is the rating string again, and int() tells the three ratings apart. */
  lemma RatingValueRoundTrip(rating: RatingString)
    ensures IntToString(RatingValue(rating)) == rating
    ensures forall other: RatingString :: RatingValue(other) == RatingValue(rating) ==> other == rating
  {
  }

  /**
   * The CoreNLP 1/2/3 scale the V2 files use: "-1" becomes 1, "0" becomes 2 and every
   * other string 3. On a valid rating this is the rating's value shifted by two.
   */
  function CoreNlpScore(rating: string): (score: int)
    ensures 1 <= score <= 3
    ensures IsValidRating(rating) ==> score == RatingValue(rating) + 2
  {
    if rating == "-1" then 1 else if rating == "0" then 2 else 3
  }

  /**
   * One (train_index, test_index) pair produced by sklearn's KFold. How KFold chooses
   * the indices is not part of this model; FoldWithin is the one promise relied on.
   */
  datatype Fold = Fold(train: seq<nat>, test: seq<nat>)

  predicate IndicesWithin(index: seq<nat>, n: nat) {
    forall k :: 0 <= k < |index| ==> index[k] < n
  }

  predicate FoldWithin(fold: Fold, n: nat) {
    IndicesWithin(fold.train, n) && IndicesWithin(fold.test, n)
  }

  /** data[index] with an index array: the rows at those positions, in index order. */
  function Select(data: seq<Record>, index: seq<nat>): (rows: seq<Record>)
    requires IndicesWithin(index, |data|)
    ensures |rows| == |index|
  {
    seq(|index|, k requires 0 <= k < |index| => data[index[k]])
  }

  /** The text column of some records. */
  function Texts(rows: seq<Record>): (texts: seq<string>)
    ensures |texts| == |rows|
  {
    seq(|rows|, k requires 0 <= k < |rows| => rows[k].text)
  }
}
