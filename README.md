# Sentiment classifier evaluation, modelled in Dafny

This project models the logic that measures how well two sentiment classifiers agree
with hand-labelled course reviews (repository web-science-project-2):

- **CSVAnalyser** (`src/Sentiment.py`). It loads the ratings CSV as a numpy array and
  keeps the rows whose rating column is exactly `"1"`, `"-1"` or `"0"`, as
  `[rating, text]` records. This is the class `Sanitiser.CsvAnalyser`: its two fields are
  updated in place by `Analyze` and `RemoveInvalidEntries`.
- **SentimentV1Classifier** (`src/Sentiment.py`):
  - For each fold it sorts the training texts into `neg`, `neutral` and `pos` buckets and
    lists the test texts (module `V1Folds`).
  - It scores the classifier's output: the predicted rating is the first maximum of the
    three class scores, and hits are counted by exact text match against the dataset
    (module `Scorer`).
- **SentimentV2Classifier.run_classifier** (`src/Sentiment.py`). It writes, for each fold,
  a training file and a test file for the CoreNLP sentiment tool, with ratings mapped to
  the CoreNLP 1/2/3 scale (module `V2Files`).
- **LEGOClassifier** (`corenlp/LEGOClassifier.java`):
  - It numbers and relabels the inner nodes of a sentiment tree in place, through shared
    `Label` objects (module `LegoTrees`).
  - Its file mode reads the V2 test file back chunk by chunk. It averages the sentence
    classes of each review into a 1/2/3 score and counts hits and reviews
    (module `LegoReviews`).
- **String functions both sides rely on** (module `JavaText`): Java `Integer.parseInt`,
  `Integer.toString` / Python `str`, `String.trim`, `split("\\n")` and the chunk separator
  `split("\\n\\s*\\n+")`. They are written out so that the round trip from the Python
  writer to the Java reader can be proved.
- **Shared types** (module `Dataset`) and an `Option` type (module `Wrappers`).

Loops that update state are `while` loops here, each proved against a specification
function on its inputs. The printing loops of `outputTreeVectors` and `outputTreeScores`
are the exception: they are the recursive functions `OutputTreeRows` and
`ForestOutputRows`, which return the printed rows in order instead of writing them. The main results are:

- The sanitiser keeps exactly the rows with a valid rating, in input order.
- The three buckets partition the training rows.
- The predicted rating is the first maximum, so ties go to `neg`.
- Hits can exceed the number of tuples only when dataset texts repeat.
- `setIndexLabels` numbers the inner nodes in pre-order, and the output functions count
  the same way.
- The review score is always 1, 2 or 3, and `successfulHits <= totalReviews`.
- A test file written by the Python side reads back, review by review, in the Java loop.

Some behaviour of the code worth knowing, which the model keeps:

- The hit ratio's denominator includes classifier tuples whose text matches no row.
- A tuple scores one hit per matching dataset row, so duplicate texts count more than once
  and the ratio can exceed 1 (`Scorer.RepeatedTextDoublesHit`).
- The folds come from an unshuffled `KFold`, which is not computed here.
- The comment on `setIndexLabels` (corenlp/LEGOClassifier.java:77-79) says postorder.
  The code labels a node before its children, which is pre-order, and so does the model.
- A completed `remove_invalid_entries` turns `sanitized_data` into a numpy array, which
  has no `append`: a second `analyze` on the same analyser raises AttributeError at the
  first row it keeps.

## Model

| member | source | states |
|---|---|---|
| Dataset.RatingValue | src/Sentiment.py:165 | `int(rating)` of a valid rating string is -1, 0 or 1 |
| Dataset.RatingValueRoundTrip | src/Sentiment.py:283-287 | `str(int(rating))` gives the rating string back, so converting the kept rating to an int and `np.array` turning it back into a string leaves it unchanged; distinct ratings have distinct values |
| Dataset.CoreNlpScore | src/Sentiment.py:63-68 | the CoreNLP score is always in 1..3, and on a valid rating it is the rating's value plus 2 (`-1`→1, `0`→2, `1`→3); train rows (63-68) and test rows (76-81) use this same function |
| Dataset.Select | src/Sentiment.py:55 | `data[index]` has one row per index |
| Sanitiser.Sanitized | src/Sentiment.py:278-285 | the sanitised records never outnumber the rows |
| Sanitiser.FirstRaise | src/Sentiment.py:278-285 | the loop raises at the first row it cannot get past: IndexError exactly when that row has no column 3, AttributeError when it is kept while `sanitized_data` is already an array; every row before it is passed, and without such a row every row is |
| Sanitiser.RowsRead | src/Sentiment.py:278-285 | the loop reads a prefix of the rows, all of them wide enough to index |
| Sanitiser.KeepsNothing | src/Sentiment.py:282-285 | a pass over wide rows gets through with `sanitized_data` an array exactly when it keeps no row |
| Sanitiser.KeptPositions | src/Sentiment.py:278-282 | the kept positions increase, each holds a row with a valid rating, and every row with a valid rating is among them |
| Sanitiser.SanitizedKeepsExactly | src/Sentiment.py:278-285 | record k has the rating (column 1) and the text (column 3) of the k-th kept row, and the records are exactly the kept rows in input order |
| Sanitiser.SanitizedConcat | src/Sentiment.py:278-285 | sanitising distributes over concatenation, so the filter is stable |
| Sanitiser.DropsInvalidRow | src/Sentiment.py:282 | a row with any other rating (`"2"`, `""`, `"+1"`, ...) is dropped silently and contributes nothing |
| Sanitiser.AsArray | src/Sentiment.py:273 | `np.asarray` keeps one entry per row; rows of equal length stay as they are, and rows of unequal length become entries that cannot be indexed at column 3 |
| Sanitiser.AsArrayAllOrNothing | src/Sentiment.py:273-285 | after `np.asarray` the loop raises IndexError at row 0 unless the rows form a matrix at least four columns wide (or there are none); a matrix stays unchanged and the loop gets through it, except that with `sanitized_data` already an array it raises AttributeError, at a kept row, exactly when some row is kept |
| Sanitiser.CsvAnalyser.constructor | src/Sentiment.py:263-266 | a new analyser has no imported and no sanitised data, and `sanitized_data` is a list |
| Sanitiser.CsvAnalyser.RemoveInvalidEntries | src/Sentiment.py:277-287 | the loop appends the records of the kept rows, in order, to `sanitized_data`, and a completed pass turns it into an array; it stops at the first row it raises at and returns it, with the earlier records already appended and `sanitized_data` still a list; once it is an array, nothing is appended |
| Sanitiser.CsvAnalyser.Analyze | src/Sentiment.py:269-275 | loads the rows as an array and sanitises them. Unless they form a matrix at least four columns wide it raises IndexError at row 0 and changes nothing. Otherwise, on a fresh analyser, it appends the records of all kept rows and returns `sanitized_data`; on one whose `sanitized_data` is already an array, it raises AttributeError at a kept row exactly when some row is kept, and appends nothing |
| V1Folds.BucketOfRating | src/Sentiment.py:115-120 | `BucketOf`, the if/elif chain: on a valid rating it sends -1 to `neg`, 0 to `neutral` and 1 to `pos`, both ways |
| V1Folds.BucketTextsConcat | src/Sentiment.py:114-120 | `BucketTexts`, the bucket lists, distributes over concatenation: each bucket keeps the rows' relative order |
| V1Folds.BucketsPartition | src/Sentiment.py:114-120 | every training row lands in exactly one `BucketTexts` list: the buckets together are the training texts as a multiset, and their lengths add up to the number of training rows |
| V1Folds.FoldInputShape | src/Sentiment.py:109-123 | a fold's buckets hold as many texts as it has training indices, and its test list holds the text of the k-th test index at position k |
| V1Folds.BucketRows | src/Sentiment.py:114-120 | the bucketing loop builds exactly the three bucket lists |
| V1Folds.TestTexts | src/Sentiment.py:122-123 | the test loop lists the test rows' texts in test-index order |
| V1Folds.PrepareFold | src/Sentiment.py:109-123 | one fold's buckets and test list are the fold's classifier input |
| V1Folds.CrossValidateClassification | src/Sentiment.py:102-141 | one classifier input per fold, in fold order (the position is the file-name suffix) |
| V2Files.TestFile | src/Sentiment.py:58 | the test file starts with the newline written first |
| V2Files.TrainFile | src/Sentiment.py:57 | the training file starts with the newline written first |
| V2Files.Emit | src/Sentiment.py:70-72 | the sentence loop only appends to what was written before |
| V2Files.TestFileBody | src/Sentiment.py:58 | the test file is a newline followed by one `TestEntry` per test row, in order, each the three writes: score line, text line, blank line (83-85) |
| V2Files.WriteTestSet | src/Sentiment.py:73-85 | the test loop writes exactly that file |
| V2Files.RowPairs | src/Sentiment.py:69-71 | one (score, sentence) pair per sentence of a row, all with the row's score |
| V2Files.EmitRender | src/Sentiment.py:70-72 | the sentence loop writes one `score\tsentence\n\n` entry per sentence, in order |
| V2Files.TrainFilePairs | src/Sentiment.py:57-72 | the training file is a newline followed by the entries of all (score, sentence) pairs |
| V2Files.TrainPairsConcat | src/Sentiment.py:60-72 | the entries of consecutive training rows follow each other |
| V2Files.TrainPairsCount | src/Sentiment.py:60-72 | the training file has one entry per sentence, and every entry's score is in 1..3 |
| V2Files.WriteTrainSet | src/Sentiment.py:57-72 | the training loop writes exactly that file |
| V2Files.RunClassifier | src/Sentiment.py:45-89 | one training and one test file per fold, in fold order (the position is `file_name_suffix`) |
| Scorer.MaxOf | src/Sentiment.py:154 | `max(values)` is one of the values and no value exceeds it |
| Scorer.IndexOf | src/Sentiment.py:154 | `values.index(m)` is the first position holding `m` |
| Scorer.PredictedRating | src/Sentiment.py:153-160 | the prediction is -1 exactly when `neg` is a maximum, 0 exactly when `neutral` is a maximum greater than `neg`, and 1 exactly when `pos` is greater than both; equal scores resolve to -1 |
| Scorer.RowHits | src/Sentiment.py:162-167 | one tuple scores at most one hit per dataset row |
| Scorer.Hits | src/Sentiment.py:150-167 | the hits of a tuple list are at most the number of (tuple, row) pairs |
| Scorer.HasText | src/Sentiment.py:161-164 | `found` holds exactly when some row has the tuple's text |
| Scorer.UnmatchedTexts | src/Sentiment.py:169-170 | no more error lines than tuples |
| Scorer.HitRatio | src/Sentiment.py:172 | the ratio is undefined (ZeroDivisionError) exactly when the tuple list is empty |
| Scorer.RowHitsBound | src/Sentiment.py:161-167 | a tuple scores at most one hit per row with its text, and none when no row has its text |
| Scorer.DistinctTextsBoundHits | src/Sentiment.py:161-172 | without repeated texts, hits never exceed the number of tuples and the printed ratio is at most 1 |
| Scorer.RepeatedTextDoublesHit | src/Sentiment.py:162-167 | with two identical rows, one correct tuple scores two hits and the ratio is 2 |
| Scorer.UnmatchedTupleCounts | src/Sentiment.py:161-172 | a tuple whose text matches no row adds no hit, adds one to the denominator, and is reported |
| Scorer.CountHits | src/Sentiment.py:150-170 | the nested loops count exactly the (tuple, row) pairs with equal text and the predicted rating, and report the unmatched texts in order |
| Scorer.AnalyzeDataFromClassifier | src/Sentiment.py:143-172 | for each of the three folds, the ratio of its hits to its tuple count and its unmatched texts; all three ratios when no tuple list is empty, and otherwise the ratios of the folds before the first empty list, where ZeroDivisionError ends the loop |
| LegoTrees.SetIndexLabels | corenlp/LEGOClassifier.java:81-92 | returns `index` plus the number of inner nodes, changes only inner nodes' labels, and (labels not shared) gives the k-th inner node in pre-order the value `index + k` |
| LegoTrees.SetChildrenIndexLabels | corenlp/LEGOClassifier.java:88-90 | the loop over the children numbers their inner nodes consecutively from `index + 1`, threading the index, and leaves the root's label as it is |
| LegoTrees.SetChildIndexLabels | corenlp/LEGOClassifier.java:89 | one child's inner nodes are numbered on from the running index, and those numbered before stay numbered |
| LegoTrees.OutputTreeRows | corenlp/LEGOClassifier.java:98-136 | one printed row per inner node in pre-order, numbered from `index`, with that node's values; returns `index` plus the number of inner nodes |
| LegoTrees.OutputTreeVectors | corenlp/LEGOClassifier.java:98-114 | one row per inner node in pre-order, numbered from `index`, holding the node's vector; returns `index` plus the number of inner nodes |
| LegoTrees.OutputTreeScores | corenlp/LEGOClassifier.java:120-136 | one row per inner node in pre-order, numbered from `index`, holding the node's class scores; returns `index` plus the number of inner nodes |
| LegoTrees.ForestOutputRows | corenlp/LEGOClassifier.java:110-112 | the loop over the children prints their rows consecutively, threading the index |
| LegoTrees.OutputAgreesWithIndexLabels | corenlp/LEGOClassifier.java:94-136 | `outputTreeVectors` and `outputTreeScores` return what `setIndexLabels` returns, and their k-th row carries the number `setIndexLabels` put into the k-th inner node's label |
| LegoTrees.AllCoreLabelsNonLeaves | corenlp/LEGOClassifier.java:69-72 | the traversal finds a non-CoreLabel exactly when some inner node's label is not a CoreLabel |
| LegoTrees.SetSentimentLabels | corenlp/LEGOClassifier.java:60-75 | changes only inner nodes' labels, throws IllegalArgumentException (false) exactly when some inner label is not a CoreLabel, and otherwise (labels not shared) sets every inner node's label to its predicted class |
| LegoTrees.SetChildrenSentimentLabels | corenlp/LEGOClassifier.java:65-67 | the loop over the children labels all their inner nodes, or fails only when some inner label of the tree is not a CoreLabel |
| LegoTrees.SetChildSentimentLabels | corenlp/LEGOClassifier.java:66 | one child is labelled, the children before it stay labelled, and it fails only on a non-CoreLabel |
| LegoReviews.QuotientThresholds | corenlp/LEGOClassifier.java:385-395 | comparing the average `w/n` with -0.5 and 0.5 is comparing `2w` with `-n` and `n` |
| LegoReviews.ReviewScore | corenlp/LEGOClassifier.java:385-395 | the bucketed score is always 1, 2 or 3 |
| LegoReviews.HistogramCounts | corenlp/LEGOClassifier.java:373-382 | bin c of `Histogram`, the tally into `scoreVector`, counts the sentences of class c |
| LegoReviews.HistogramTotal | corenlp/LEGOClassifier.java:373-382 | the bins add up to `sentenceCount` |
| LegoReviews.ChunkScore | corenlp/LEGOClassifier.java:370-395 | a review gets a score, in 1..3, exactly when every sentence class indexes `scoreVector` |
| LegoReviews.ComputeReviewScore | corenlp/LEGOClassifier.java:369-395 | the tally loop and the average compute that score |
| LegoReviews.AverageReviewScore | corenlp/LEGOClassifier.java:384-395 | the average-and-threshold over the `scoreVector` array is the review score, including 3 for zero sentences (0/0 is NaN) |
| LegoReviews.ReadChunk | corenlp/LEGOClassifier.java:351-353 | a chunk is skipped exactly when it trims to nothing |
| LegoReviews.ParseChunk | corenlp/LEGOClassifier.java:351-364 | trim, split into lines, parse the first line as the score, take the second as the text |
| LegoReviews.Step | corenlp/LEGOClassifier.java:362-407 | a chunk whose first line is not an int ends the run; otherwise `totalReviews` grows by one only for a scored review, `successfulHits` grows with it exactly when the computed score equals the chunk's, and every other chunk changes neither counter |
| LegoReviews.ScoreReview | corenlp/LEGOClassifier.java:363-407 | the try block updates the counters as `Step` says |
| LegoReviews.RunReads | corenlp/LEGOClassifier.java:350-411 | `successfulHits <= totalReviews <= ` the number of chunks |
| LegoReviews.Run | corenlp/LEGOClassifier.java:348-411 | the same bound for the chunks of a file |
| LegoReviews.RunStaysEnded | corenlp/LEGOClassifier.java:362 | once `parseInt` has thrown, no later chunk changes anything |
| LegoReviews.ScoreChunks | corenlp/LEGOClassifier.java:350-411 | the chunk loop computes the counters and the early end of `Run` |
| LegoReviews.ScoreReviewFile | corenlp/LEGOClassifier.java:347-411 | splitting the file into chunks and running the loop gives `Run`, with `successfulHits <= totalReviews` |
| LegoReviews.ReadWrittenChunk | corenlp/LEGOClassifier.java:351-364 | an entry written as score line and one-line text reads back as that score and text |
| LegoReviews.FileChunks | corenlp/LEGOClassifier.java:348 | a written test file splits into one chunk per entry (the first keeping the file's leading newline), or one blank chunk when empty |
| LegoReviews.WrittenChunksRead | corenlp/LEGOClassifier.java:351-364 | every chunk of a written test file reads back as its row's CoreNLP score and text |
| LegoReviews.RunReviews | corenlp/LEGOClassifier.java:397-402 | reviews with valid sentence classes are all counted, and the hits are the rows whose computed score equals their written score |
| LegoReviews.EmptyFileRun | corenlp/LEGOClassifier.java:348-353 | the empty test file gives one blank chunk and leaves both counters at 0 |
| LegoReviews.ScoreWrittenTestFile | corenlp/LEGOClassifier.java:348-402 | round trip: scoring a test file written by `run_classifier` counts every row once and hits exactly the rows whose computed score equals their CoreNLP score |
| JavaText.IntToString | src/Sentiment.py:83 | `str(n)` / `Integer.toString(n)`: digits without a leading zero, after a minus sign for a negative number |
| JavaText.IntToStringShape | src/Sentiment.py:83 | `str(score)` has no newline and starts and ends with a visible character |
| JavaText.ParseInt | corenlp/LEGOClassifier.java:362 | `Integer.parseInt` yields a 32-bit value, only for a string starting with a digit or a sign, and a non-negative value unless the string starts with `-` |
| JavaText.ParseIntToString | corenlp/LEGOClassifier.java:362 | `parseInt` reads back every 32-bit value that `toString`/`str` writes |
| JavaText.Trim | corenlp/LEGOClassifier.java:351 | `trim` gives an empty string or one whose first and last characters are above U+0020 |
| JavaText.TrimStartDrops | corenlp/LEGOClassifier.java:351 | `trim` drops a leading run of characters up to U+0020 and nothing more |
| JavaText.TrimEndDrops | corenlp/LEGOClassifier.java:351 | `trim` drops a trailing run of characters up to U+0020 and nothing more |
| JavaText.TrimPadded | corenlp/LEGOClassifier.java:360 | trimming a blank prefix off a visibly bounded string gives that string |
| JavaText.NewlinePiecesClean | corenlp/LEGOClassifier.java:360 | the pieces between newlines hold no newline |
| JavaText.NewlinePiecesJoin | corenlp/LEGOClassifier.java:360 | joining the pieces with newlines gives the string back |
| JavaText.DropTrailingEmptyDrops | corenlp/LEGOClassifier.java:360 | `split` drops exactly the empty strings at the end of its result |
| JavaText.SplitLines | corenlp/LEGOClassifier.java:360 | `split("\\n")`: no line holds a newline, and the last line is non-empty unless the string has no newline |
| JavaText.SplitTwoLines | corenlp/LEGOClassifier.java:360 | a two-line string splits into its two lines |
| JavaText.SplitChunks | corenlp/LEGOClassifier.java:348 | `split("\\n\\s*\\n+")` gives the whole string back exactly when no separator matches, and otherwise ends with a non-empty chunk, if any |
| JavaText.SpaceRunEndSpans | corenlp/LEGOClassifier.java:348 | the run of `\s` characters found is all `\s` and maximal |
| JavaText.LastNewlineIsLast | corenlp/LEGOClassifier.java:348 | the newline where `\n+` ends is the last newline in the run |
| JavaText.FindFromLeftmost | corenlp/LEGOClassifier.java:348 | the separator search finds the leftmost match of `\n\s*\n+` |
| JavaText.FindFromReaches | corenlp/LEGOClassifier.java:348 | the search reaches the first matching position |
| JavaText.FirstSeparator | corenlp/LEGOClassifier.java:348 | in an entry followed by a blank line, the first separator is that blank line |
| JavaText.FirstPiece | corenlp/LEGOClassifier.java:348 | so the split cuts such a text at that blank line first |

## Left out

- Files and I/O. Written and read file contents are modelled as strings and tuple lists:
  - `open`/`write` and `ast.literal_eval` (src/Sentiment.py:53-54, 137-138, 146-149);
  - `IOUtils.slurpFileNoExceptions`;
  - all printing (ratios, error lines, predictions, tree rows), so the output functions
    return their rows instead of printing them with `DecimalFormat`;
  - `csv.reader` and the header skip: `Analyze` receives the data rows.
- sklearn `KFold`. Folds are parameters; the model relies only on their indices being in
  range.
- The uclassify service (`addClass`, `train`, `classify`, `removeClass`). The model stops
  at the input handed to it, and its output is the parsed tuple list the scorer receives.
- NLTK `sent_tokenize` is a function parameter. The UTF-8 decode/encode around it is
  left out.
- The CoreNLP pipeline is the parameter `annotate`, which gives a text's sentence classes.
  The tree's node vectors, predictions and predicted classes are given values, and a
  `null` sentence list counts as empty.
- `DownloadSentiments`, `id_generator`, the API keys, the `cd` helper,
  `src/CSVAnalyzer.py`, `help`, the argument parsing, the stdin loop of
  `LEGOClassifier.main`, and `main` in `src/Sentiment.py`. None of these are part of this
  model: they are network, randomness, environment or console code.
- Scorer: the tuple's label and the class names are not read by the source. They are
  dropped, and the scores are given as reals, not parsed with `float()`.
- Floating point. Scores and averages are exact reals, and `successfulHits` and
  `totalReviews` (Java `float`s, corenlp/LEGOClassifier.java:243-244) are unbounded
  naturals; the `float` counters stop growing at 2^24.
- LegoReviews.AverageReviewScore: the average is exact, not a Java `float`. The two agree
  while the sentence count stays below 2^24, and only the zero-sentence NaN case is modelled.
- LegoReviews.Run: the ratio printed after each chunk is left out, including its division
  by zero before the first review.
- JavaText.ParseInt: only ASCII digits are accepted. Java also accepts other Unicode
  decimal digits.
- LegoTrees.SetIndexLabels: the numbering is stated only when no two inner nodes share a
  label object; what aliased labels end up holding is not characterised. The same holds
  for `LegoTrees.SetSentimentLabels`.
- LegoTrees.SetSentimentLabels: when IllegalArgumentException is thrown, which labels were
  already rewritten is not stated. The traversal ends there in the source too.
- LegoTrees.SetIndexLabels: Java `int` overflow of the index is not modelled; the index is
  unbounded.
- Sanitiser.AsArray: rows of unequal length are modelled as the one-dimensional object
  array older numpy builds, which raises IndexError at row 0. Newer numpy raises
  ValueError inside `np.asarray` instead.
- Sanitiser.CsvAnalyser.RemoveInvalidEntries: the array `np.array(...)` makes is modelled
  by the flag `sanitizedIsArray` and by keeping the ratings as strings; numpy's dtype and
  shape are not modelled.
