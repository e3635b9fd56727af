/**
 * The review loop in LEGOClassifier.main: the test file written by the V2 classifier is
 * split into chunks at blank lines; each chunk holds a score line and a text line. The
 * text is run through the CoreNLP pipeline, the predicted classes (0..4) of its
 * sentences are tallied into five bins, the bins are averaged into a 1/2/3 review score,
 * and the hit and review counters are updated. The pipeline is the parameter annotate,
 * returning the predicted class of each sentence of a text.
 */
module LegoReviews {
  import opened Wrappers
  import opened JavaText
  import opened Dataset
  import opened V2Files

  // ------------------------------------------------------------ score bucketing

  /** The length of scoreVector: one bin per CoreNLP sentiment class. */
  const BinCount: nat := 5

  predicate IsClass(c: int) {
    0 <= c < BinCount
  }

  predicate AllClasses(classes: seq<int>) {
    forall k :: 0 <= k < |classes| ==> IsClass(classes[k])
  }

  /** The numerator of the average: the bins weighted -2, -1, 0, 1, 2. */
  function WeightedSum(bins: seq<int>): (w: int)
    requires |bins| == BinCount
  {
    bins[0] * -2 + bins[1] * -1 + bins[2] * 0 + bins[3] * 1 + bins[4] * 2
  }

  /** Comparing the average with -0.5 and 0.5 is comparing twice the sum with -n and n. */
  lemma QuotientThresholds(w: int, n: int)
    requires n > 0
    ensures w as real / n as real <= -0.5 <==> 2 * w <= -n
    ensures w as real / n as real < 0.5 <==> 2 * w < n
  {
    QuotientBelow(w as real, n as real, -0.5);
    QuotientBelow(w as real, n as real, 0.5);
  }

  /** Dividing by a positive number and comparing is comparing with the product. */
  lemma QuotientBelow(x: real, m: real, c: real)
    requires m > 0.0
    ensures x / m <= c <==> x <= c * m
    ensures x / m < c <==> x < c * m
  {
    var q := x / m;
    assert q * m == x;
    assert (q - c) * m == x - c * m;
    ProductSign(q - c, m);
  }

  /** Multiplying by a positive number keeps the sign. */
  lemma ProductSign(a: real, b: real)
    requires b > 0.0
    ensures a * b <= 0.0 <==> a <= 0.0
    ensures a * b < 0.0 <==> a < 0.0
  {
  }

  /**
   * The review score of a tally in integer terms: with n sentences and weighted sum w,
   * 1 when 2w <= -n, 2 when -n < 2w < n, 3 otherwise, and 3 when there are no sentences.
   */
  function ReviewScore(bins: seq<int>): (score: int)
    requires |bins| == BinCount
    ensures 1 <= score <= 3
  {
    var n, w := BinTotal(bins), WeightedSum(bins);
    if n == 0 then 3
    else if 2 * w <= -n then 1
    else if 2 * w < n then 2
    else 3
  }

  /** The bins after tallying the classes: bin c counts the sentences of class c. */
  function Histogram(classes: seq<int>): (bins: seq<int>)
    requires AllClasses(classes)
    ensures |bins| == BinCount
  {
    if classes == [] then [0, 0, 0, 0, 0]
    else
      var bins := Histogram(classes[..|classes| - 1]);
      var c := classes[|classes| - 1];
      bins[c := bins[c] + 1]
  }

  function BinTotal(bins: seq<int>): (total: int)
    requires |bins| == BinCount
  {
    bins[0] + bins[1] + bins[2] + bins[3] + bins[4]
  }

  /** Each bin holds the number of sentences of its class. */
  lemma {:induction false} HistogramCounts(classes: seq<int>)
    requires AllClasses(classes)
    ensures forall c :: 0 <= c < BinCount ==> Histogram(classes)[c] == multiset(classes)[c]
  {
    if classes != [] {
      var init, last := classes[..|classes| - 1], classes[|classes| - 1];
      assert classes == init + [last];
      assert AllClasses(init);
      HistogramCounts(init);
      var before, after := Histogram(init), Histogram(classes);
      assert after == before[last := before[last] + 1];
      var counts := multiset(classes);
      assert counts == multiset(init) + multiset{last};
      forall c | 0 <= c < BinCount
        ensures after[c] == counts[c]
      {
        assert counts[c] == multiset(init)[c] + multiset{last}[c];
      }
    }
  }

  /** The bins add up to the number of sentences. */
  lemma {:induction false} HistogramTotal(classes: seq<int>)
    requires AllClasses(classes)
    ensures BinTotal(Histogram(classes)) == |classes|
  {
    if classes != [] {
      var init := classes[..|classes| - 1];
      assert AllClasses(init);
      HistogramTotal(init);
    }
  }

  /**
   * The computed review score of a text's sentence classes; None when a class falls
   * outside scoreVector, where the ArrayIndexOutOfBoundsException is caught by the loop.
   */
  function ChunkScore(classes: seq<int>): (computed: Option<int>)
    ensures computed.Some? <==> AllClasses(classes)
    ensures computed.Some? ==> 1 <= computed.value <= 3
  {
    if AllClasses(classes) then Some(ReviewScore(Histogram(classes))) else None
  }

  /** The tally over scoreVector and sentenceCount, then the average, as main does them. */
  method ComputeReviewScore(classes: seq<int>) returns (computed: Option<int>)
    ensures computed == ChunkScore(classes)
  {
    var scoreVector := new int[BinCount](_ => 0);
    var sentenceCount: nat := 0;
    var i := 0;
    while i < |classes|
      invariant 0 <= i <= |classes|
      invariant AllClasses(classes[..i])
      invariant scoreVector.Length == BinCount && scoreVector[..] == Histogram(classes[..i])
      invariant sentenceCount == i
    {
      var score := classes[i];
      if !(0 <= score < scoreVector.Length) {
        assert !IsClass(classes[i]);
        return None;
      }
      assert classes[..i + 1][..i] == classes[..i];
      scoreVector[score] := scoreVector[score] + 1;
      sentenceCount := sentenceCount + 1;
      i := i + 1;
    }
    assert classes[..i] == classes;
    HistogramTotal(classes);
    var computedReviewScore := AverageReviewScore(scoreVector, sentenceCount);
    computed := Some(computedReviewScore);
  }

  /**
   * The float average of the tallied bins weighted -2..2, and its comparison with -0.5
   * and 0.5. The average is exact here; Java's float rounding cannot move it across
   * -0.5 or 0.5 while the sentence count is below 2^24.
   */
  method AverageReviewScore(scoreVector: array<int>, sentenceCount: nat) returns (computedReviewScore: int)
    requires scoreVector.Length == BinCount && sentenceCount == BinTotal(scoreVector[..])
    ensures computedReviewScore == ReviewScore(scoreVector[..])
  {
    var weighted := scoreVector[0] * -2 + scoreVector[1] * -1 + scoreVector[2] * 0
                    + scoreVector[3] * 1 + scoreVector[4] * 2;
    if sentenceCount == 0 {
      // 0 / 0.0f is NaN, and both comparisons with NaN are false
      computedReviewScore := 3;
    } else {
      var avgReviewScore := weighted as real / sentenceCount as real;
      QuotientThresholds(weighted, sentenceCount);
      if avgReviewScore <= -0.5 {
        computedReviewScore := 1;
      } else if avgReviewScore > -0.5 && avgReviewScore < 0.5 {
        computedReviewScore := 2;
      } else {
        computedReviewScore := 3;
      }
    }
  }

  // ----------------------------------------------------------------- chunk reading

  /** What the loop makes of one chunk before the pipeline runs. */
  datatype ChunkRead =
    | Blank                              // only whitespace: skipped
    | Malformed                          // first line not an int: the exception ends main
    | NoText(score: int)                 // no second line: caught, counters unchanged
    | Review(score: int, text: string)   // the reference score and the review text

  function ReadChunk(chunk: string): (read: ChunkRead)
    ensures read.Blank? <==> Trim(chunk) == []
  {
    var trimmed := Trim(chunk);
    if trimmed == [] then Blank
    else
      var lines := SplitLines(trimmed);
      if |lines| == 0 then Malformed
      else
        match ParseInt(lines[0])
        case None => Malformed
        case Some(score) => if |lines| < 2 then NoText(score) else Review(score, lines[1])
  }

  // ------------------------------------------------------------------- counters

  datatype Counters = Counters(successfulHits: nat, totalReviews: nat)

  /**
   * One pass of the chunk loop. None: the run ends. Otherwise the counters stay, or
   * totalReviews grows by one and successfulHits grows with it exactly when the computed
   * score is the chunk's score.
   */
  function Step(c: Counters, read: ChunkRead, annotate: string -> seq<int>): (next: Option<Counters>)
    ensures next.None? <==> read.Malformed?
    ensures next.Some? && next.value.totalReviews != c.totalReviews ==>
              read.Review? && ChunkScore(annotate(read.text)).Some?
              && next.value.totalReviews == c.totalReviews + 1
              && (next.value.successfulHits == c.successfulHits + 1 <==> ChunkScore(annotate(read.text)).value == read.score)
              && (next.value.successfulHits == c.successfulHits <==> ChunkScore(annotate(read.text)).value != read.score)
    ensures next.Some? && next.value.totalReviews == c.totalReviews ==>
              next.value == c && (read.Review? ==> ChunkScore(annotate(read.text)).None?)
  {
    match read
    case Blank => Some(c)
    case Malformed => None
    case NoText(_) => Some(c)
    case Review(score, text) =>
      match ChunkScore(annotate(text))
      case None => Some(c)
      case Some(computed) =>
        Some(Counters(c.successfulHits + (if computed == score then 1 else 0), c.totalReviews + 1))
  }

  /** What the loop makes of each chunk, in chunk order. */
  function Reads(chunks: seq<string>): (results: seq<ChunkRead>)
    ensures |results| == |chunks|
    ensures forall k :: 0 <= k < |chunks| ==> results[k] == ReadChunk(chunks[k])
  {
    seq(|chunks|, k requires 0 <= k < |chunks| => ReadChunk(chunks[k]))
  }

  /** The counters after the reads, and whether a malformed chunk ended the run early. */
  function RunReads(results: seq<ChunkRead>, annotate: string -> seq<int>): (r: (Counters, bool))
    ensures r.0.successfulHits <= r.0.totalReviews <= |results|
  {
    if results == [] then (Counters(0, 0), false)
    else
      var prev := RunReads(results[..|results| - 1], annotate);
      if prev.1 then prev
      else
        match Step(prev.0, results[|results| - 1], annotate)
        case None => (prev.0, true)
        case Some(c) => (c, false)
  }

  /** The counters after the chunks of a file, and whether the run ended early. */
  function Run(chunks: seq<string>, annotate: string -> seq<int>): (r: (Counters, bool))
    ensures r.0.successfulHits <= r.0.totalReviews <= |chunks|
  {
    RunReads(Reads(chunks), annotate)
  }

  /** Once the run has ended, later reads change nothing. */
  lemma {:induction false} RunStaysEnded(results: seq<ChunkRead>, n: nat, annotate: string -> seq<int>)
    requires n <= |results| && RunReads(results[..n], annotate).1
    ensures RunReads(results, annotate) == RunReads(results[..n], annotate)
    decreases |results|
  {
    if n == |results| {
      assert results[..n] == results;
    } else {
      var init := results[..|results| - 1];
      assert init[..n] == results[..n];
      RunStaysEnded(init, n, annotate);
    }
  }

  /** A run not yet ended takes the step of its next read. */
  lemma RunReadsNext(results: seq<ChunkRead>, i: nat, c: Counters, next: Counters, annotate: string -> seq<int>)
    requires i < |results| && RunReads(results[..i], annotate) == (c, false)
    requires Step(c, results[i], annotate) == Some(next)
    ensures RunReads(results[..i + 1], annotate) == (next, false)
  {
    assert results[..i + 1][..i] == results[..i];
  }

  /**
   * The head of the loop body: trim the chunk, split it into lines, parse the first. The
   * statements follow the source one by one, with each exception as an early return;
   * ReadChunk is their specification, which the lemmas about the chunk loop reason with.
   */
  method ParseChunk(chunk: string) returns (read: ChunkRead)
    ensures read == ReadChunk(chunk)
  {
    var trimmed := Trim(chunk);
    if trimmed == [] {
      return Blank;
    }
    var lines := SplitLines(trimmed);
    if |lines| == 0 {
      return Malformed;
    }
    var reviewScore := ParseInt(lines[0]);
    if reviewScore.None? {
      return Malformed;
    }
    if |lines| < 2 {
      return NoText(reviewScore.value);
    }
    read := Review(reviewScore.value, lines[1]);
  }

  /** The try block for a chunk with a text line: score the text and update the counters. */
  method ScoreReview(successfulHits: nat, totalReviews: nat, reviewScore: int, reviewText: string,
                     annotate: string -> seq<int>)
    returns (hits: nat, total: nat)
    ensures Step(Counters(successfulHits, totalReviews), Review(reviewScore, reviewText), annotate) == Some(Counters(hits, total))
  {
    hits, total := successfulHits, totalReviews;
    var computedReviewScore := ComputeReviewScore(annotate(reviewText));
    if computedReviewScore.Some? {
      if computedReviewScore.value == reviewScore {
        hits := hits + 1;
      }
      total := total + 1;
    }
  }

  /**
   * The chunk loop over a test file's contents: the counters it ends with, and whether a
   * chunk whose first line is not an integer ended it.
   */
  method ScoreReviewFile(text: string, annotate: string -> seq<int>)
    returns (successfulHits: nat, totalReviews: nat, aborted: bool)
    ensures (Counters(successfulHits, totalReviews), aborted) == Run(SplitChunks(text), annotate)
    ensures successfulHits <= totalReviews
  {
    var chunks := SplitChunks(text);
    successfulHits, totalReviews, aborted := ScoreChunks(chunks, annotate);
  }

  /** The loop over the chunks, in order, until one of them is malformed. */
  method ScoreChunks(chunks: seq<string>, annotate: string -> seq<int>)
    returns (successfulHits: nat, totalReviews: nat, aborted: bool)
    ensures (Counters(successfulHits, totalReviews), aborted) == Run(chunks, annotate)
  {
    ghost var results := Reads(chunks);
    successfulHits, totalReviews := 0, 0;
    var i := 0;
    while i < |chunks|
      invariant 0 <= i <= |chunks|
      invariant RunReads(results[..i], annotate) == (Counters(successfulHits, totalReviews), false)
    {
      var read := ParseChunk(chunks[i]);
      assert read == results[i];
      ghost var before := Counters(successfulHits, totalReviews);
      if read.Malformed? {
        assert results[..i + 1][..i] == results[..i];
        RunStaysEnded(results, i + 1, annotate);
        return successfulHits, totalReviews, true;
      }
      if read.Review? {
        successfulHits, totalReviews := ScoreReview(successfulHits, totalReviews, read.score, read.text, annotate);
      }
      RunReadsNext(results, i, before, Counters(successfulHits, totalReviews), annotate);
      i := i + 1;
    }
    assert results[..i] == results;
    aborted := false;
  }

  // ---------------------------------------------------------- round trip with V2

  /** A text the round trip keeps: one line, starting and ending with a visible character. */
  predicate IsOneLine(text: string) {
    |text| > 0 && text[0] > ' ' && text[|text| - 1] > ' ' && '\n' !in text
  }

  predicate AllOneLine(rows: seq<Record>) {
    forall k :: 0 <= k < |rows| ==> IsOneLine(rows[k].text)
  }

  /** Every newline of a text is followed by a visible character. */
  predicate NewlinesFollowed(a: string) {
    forall k :: 0 <= k < |a| && a[k] == '\n' ==> k + 1 < |a| && a[k + 1] > ' '
  }

  /** The chunk a test entry becomes once the blank line after it is cut off. */
  function Chunk(r: Record): (c: string) {
    IntToString(CoreNlpScore(r.rating)) + "\n" + r.text
  }

  function Chunks(rows: seq<Record>): (chunks: seq<string>)
    ensures |chunks| == |rows|
    ensures forall k :: 0 <= k < |rows| ==> chunks[k] == Chunk(rows[k])
  {
    if rows == [] then [] else [Chunk(rows[0])] + Chunks(rows[1..])
  }

  /** A chunk starts and ends with a visible character. */
  lemma ChunkEnds(r: Record)
    requires IsOneLine(r.text)
    ensures var c := Chunk(r); |c| > 0 && c[0] > ' ' && c[|c| - 1] > ' '
  {
    var s := IntToString(CoreNlpScore(r.rating));
    IntToStringShape(CoreNlpScore(r.rating));
    var c := Chunk(r);
    assert c[0] == s[0];
    assert c[|c| - 1] == r.text[|r.text| - 1];
  }

  /** The one newline of a chunk is followed by a visible character. */
  lemma ChunkNewlines(r: Record)
    requires IsOneLine(r.text)
    ensures NewlinesFollowed(Chunk(r))
  {
    var s := IntToString(CoreNlpScore(r.rating));
    IntToStringShape(CoreNlpScore(r.rating));
    var c := Chunk(r);
    forall k | 0 <= k < |c|
      ensures c[k] == '\n' ==> k + 1 < |c| && c[k + 1] > ' '
    {
      if k < |s| {
        assert c[k] == s[k];
      } else if k > |s| {
        assert c[k] == r.text[k - |s| - 1];
      } else {
        assert c[k + 1] == r.text[0];
      }
    }
  }

  /** A chunk that trims to a parsable score line and one more line is a review. */
  lemma ReadTwoLines(chunk: string, s: string, t: string, score: int)
    requires Trim(chunk) == s + "\n" + t
    requires SplitLines(s + "\n" + t) == [s, t]
    requires ParseInt(s) == Some(score)
    ensures ReadChunk(chunk) == Review(score, t)
  {
  }

  /** Trimming a written chunk, with or without the newline before it, gives the chunk. */
  lemma TrimWrittenChunk(pad: string, r: Record)
    requires pad == "" || pad == "\n"
    requires IsOneLine(r.text)
    ensures Trim(pad + Chunk(r)) == IntToString(CoreNlpScore(r.rating)) + "\n" + r.text
  {
    ChunkEnds(r);
    TrimPadded(pad, Chunk(r));
  }

  /** The score line and the text line of a written chunk are its two lines. */
  lemma SplitWrittenChunk(r: Record)
    requires IsOneLine(r.text)
    ensures var s := IntToString(CoreNlpScore(r.rating)); SplitLines(s + "\n" + r.text) == [s, r.text]
  {
    IntToStringShape(CoreNlpScore(r.rating));
    SplitTwoLines(IntToString(CoreNlpScore(r.rating)), r.text);
  }

  /** The reader gets back the score and the text of a written entry. */
  lemma ReadWrittenChunk(pad: string, r: Record)
    requires pad == "" || pad == "\n"
    requires IsOneLine(r.text)
    ensures ReadChunk(pad + Chunk(r)) == Review(CoreNlpScore(r.rating), r.text)
  {
    var score := CoreNlpScore(r.rating);
    TrimWrittenChunk(pad, r);
    SplitWrittenChunk(r);
    ParseIntToString(score);
    ReadTwoLines(pad + Chunk(r), IntToString(score), r.text, score);
  }

  lemma EntryThenRest(r: Record, rest: string)
    ensures TestEntry(r) + rest == Chunk(r) + "\n\n" + rest
  {
  }

  lemma {:induction false} BodyStart(rows: seq<Record>)
    ensures TestBody(rows) == [] || TestBody(rows)[0] > ' '
  {
    if rows != [] {
      var score := CoreNlpScore(rows[0].rating);
      IntToStringShape(score);
      assert TestBody(rows)[0] == IntToString(score)[0];
    }
  }

  /** A text whose newlines are followed by visible characters, a blank line, then a test body: the text is the first piece. */
  lemma PiecesBeforeBody(a: string, rows: seq<Record>)
    requires NewlinesFollowed(a)
    requires SplitPieces(TestBody(rows)) == Chunks(rows) + [""]
    ensures SplitPieces(a + "\n\n" + TestBody(rows)) == [a] + Chunks(rows) + [""]
  {
    BodyStart(rows);
    FirstPiece(a, TestBody(rows));
  }

  /** Every entry of a test body is one piece of the split, then the empty tail. */
  lemma {:induction false} BodyPieces(rows: seq<Record>)
    requires AllOneLine(rows)
    ensures SplitPieces(TestBody(rows)) == Chunks(rows) + [""]
  {
    if rows == [] {
      assert FindFrom("", 0) == None;
    } else {
      var a := Chunk(rows[0]);
      assert TestBody(rows) == a + "\n\n" + TestBody(rows[1..]) by {
        EntryThenRest(rows[0], TestBody(rows[1..]));
      }
      assert SplitPieces(TestBody(rows[1..])) == Chunks(rows[1..]) + [""] by {
        assert AllOneLine(rows[1..]);
        BodyPieces(rows[1..]);
      }
      ChunkNewlines(rows[0]);
      PiecesBeforeBody(a, rows[1..]);
      assert Chunks(rows) == [a] + Chunks(rows[1..]);
    }
  }

  lemma DropOneEmpty(xs: seq<string>)
    requires xs != [] && xs[|xs| - 1] != ""
    ensures DropTrailingEmpty(xs + [""]) == xs
  {
    assert (xs + [""])[..|xs|] == xs;
  }

  /** The newline before the first chunk is also followed by a visible character. */
  lemma PaddedChunkNewlines(r: Record)
    requires IsOneLine(r.text)
    ensures NewlinesFollowed("\n" + Chunk(r))
  {
    var a := "\n" + Chunk(r);
    ChunkEnds(r);
    ChunkNewlines(r);
    forall k | 0 <= k < |a| && a[k] == '\n'
      ensures k + 1 < |a| && a[k + 1] > ' '
    {
      assert a[k + 1] == Chunk(r)[k];
      if k > 0 {
        assert a[k] == Chunk(r)[k - 1];
      }
    }
  }

  /** A non-empty test file is the first entry after the leading newline, a blank line, then the other entries. */
  lemma FileStart(rows: seq<Record>)
    requires rows != []
    ensures TestFile(rows) == ("\n" + Chunk(rows[0])) + "\n\n" + TestBody(rows[1..])
  {
    TestFileBody(rows);
    EntryThenRest(rows[0], TestBody(rows[1..]));
  }

  /** The split pieces of a non-empty written test file: the first entry with the leading newline, the others, and the empty tail. */
  lemma FilePieces(rows: seq<Record>)
    requires rows != [] && AllOneLine(rows)
    ensures SplitPieces(TestFile(rows)) == ["\n" + Chunk(rows[0])] + Chunks(rows[1..]) + [""]
  {
    FileStart(rows);
    assert AllOneLine(rows[1..]);
    BodyPieces(rows[1..]);
    PaddedChunkNewlines(rows[0]);
    PiecesBeforeBody("\n" + Chunk(rows[0]), rows[1..]);
  }

  /**
   * The chunks of a written test file: the first entry keeps the file's leading
   * newline, the others are score line and text line; an empty file is one blank chunk.
   */
  lemma FileChunks(rows: seq<Record>)
    requires AllOneLine(rows)
    ensures SplitChunks(TestFile(rows)) == if rows == [] then ["\n"] else ["\n" + Chunk(rows[0])] + Chunks(rows[1..])
  {
    if rows == [] {
      assert FindFrom("\n", 0) == None by {
        assert MatchEndAt("\n", 0) == None;
        assert MatchEndAt("\n", 1) == None;
      }
    } else {
      var pieces := ["\n" + Chunk(rows[0])] + Chunks(rows[1..]);
      FilePieces(rows);
      assert SplitPieces(TestFile(rows)) == pieces + [""];
      assert pieces[|pieces| - 1] != "";
      DropOneEmpty(pieces);
      assert FindFrom(TestFile(rows), 0).Some?;
    }
  }

  /** The rows whose computed review score is the score their entry was written with. */
  function ExpectedHits(rows: seq<Record>, annotate: string -> seq<int>): (hits: nat) {
    if rows == [] then 0
    else
      var r := rows[|rows| - 1];
      ExpectedHits(rows[..|rows| - 1], annotate) + (if ChunkScore(annotate(r.text)) == Some(CoreNlpScore(r.rating)) then 1 else 0)
  }

  /** The reads a written test file should give: one review per row, with its CoreNLP score and text. */
  function Reviews(rows: seq<Record>): (results: seq<ChunkRead>)
    ensures |results| == |rows|
    ensures forall k :: 0 <= k < |rows| ==> results[k] == Review(CoreNlpScore(rows[k].rating), rows[k].text)
  {
    seq(|rows|, k requires 0 <= k < |rows| => Review(CoreNlpScore(rows[k].rating), rows[k].text))
  }

  predicate ClassesValid(rows: seq<Record>, annotate: string -> seq<int>) {
    forall k :: 0 <= k < |rows| ==> AllClasses(annotate(rows[k].text))
  }

  /** A review whose classes are all valid is counted, and is a hit exactly when its scores agree. */
  lemma StepReview(c: Counters, score: int, text: string, annotate: string -> seq<int>)
    requires AllClasses(annotate(text))
    ensures Step(c, Review(score, text), annotate)
            == Some(Counters(c.successfulHits + (if ChunkScore(annotate(text)) == Some(score) then 1 else 0), c.totalReviews + 1))
  {
  }

  /**
   * Reviews of rows whose texts the pipeline annotates with valid classes: every row is
   * counted, and the hits are the rows whose computed score is their written score.
   */
  lemma {:induction false} RunReviews(rows: seq<Record>, annotate: string -> seq<int>)
    requires ClassesValid(rows, annotate)
    ensures RunReads(Reviews(rows), annotate) == (Counters(ExpectedHits(rows, annotate), |rows|), false)
  {
    if rows != [] {
      var n := |rows| - 1;
      var results := Reviews(rows);
      assert results[..n] == Reviews(rows[..n]);
      assert ClassesValid(rows[..n], annotate) by {
        forall k | 0 <= k < n ensures AllClasses(annotate(rows[..n][k].text)) {
          assert rows[..n][k] == rows[k];
        }
      }
      RunReviews(rows[..n], annotate);
      StepReview(Counters(ExpectedHits(rows[..n], annotate), n), CoreNlpScore(rows[n].rating), rows[n].text, annotate);
    }
  }

  /** Every chunk of a non-empty written test file reads back as its row's review. */
  lemma WrittenChunksRead(rows: seq<Record>)
    requires rows != [] && AllOneLine(rows)
    ensures Reads(["\n" + Chunk(rows[0])] + Chunks(rows[1..])) == Reviews(rows)
  {
    var chunks := ["\n" + Chunk(rows[0])] + Chunks(rows[1..]);
    forall k | 0 <= k < |rows|
      ensures ReadChunk(chunks[k]) == Review(CoreNlpScore(rows[k].rating), rows[k].text)
    {
      if k == 0 {
        ReadWrittenChunk("\n", rows[0]);
      } else {
        assert chunks[k] == Chunks(rows[1..])[k - 1] == Chunk(rows[k]);
        assert "" + Chunk(rows[k]) == Chunk(rows[k]);
        ReadWrittenChunk("", rows[k]);
      }
    }
  }

  /** The test file of no rows is a lone newline: one blank chunk, nothing counted. */
  lemma EmptyFileRun(annotate: string -> seq<int>)
    ensures Run(["\n"], annotate) == (Counters(0, 0), false)
  {
    assert TrimStart("\n") == TrimStart("");
    assert ReadChunk("\n") == Blank;
    assert Reads(["\n"]) == [Blank];
    assert [Blank][..0] == [];
  }

  /**
   * Round trip: scoring a test file written by the V2 classifier reads every row back
   * with its CoreNLP score and text, so every row is one review and the hits are the
   * rows whose computed score equals their written score.
   */
  lemma ScoreWrittenTestFile(rows: seq<Record>, annotate: string -> seq<int>)
    requires AllOneLine(rows) && ClassesValid(rows, annotate)
    ensures Run(SplitChunks(TestFile(rows)), annotate) == (Counters(ExpectedHits(rows, annotate), |rows|), false)
  {
    FileChunks(rows);
    if rows == [] {
      EmptyFileRun(annotate);
    } else {
      WrittenChunksRead(rows);
      RunReviews(rows, annotate);
    }
  }
}
