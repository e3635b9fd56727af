/**
 * SentimentV2Classifier.run_classifier: for each fold it writes a training file and a
 * test file for the CoreNLP sentiment tool, with ratings moved to the CoreNLP 1/2/3
 * scale. The files are modelled by their contents; file i of each kind belongs to fold i.
 * The sentence splitter (nltk's sent_tokenize) is a parameter.
 */
module V2Files {
  import opened JavaText
  import opened Dataset

  /** Appending three writes one after the other appends their concatenation. */
  lemma AppendThree(before: string, x: string, y: string, z: string)
    ensures before + x + y + z == before + (x + y + z)
  {
  }

  lemma AppendTwo(before: string, x: string, y: string)
    ensures before + x + y == before + (x + y)
  {
  }

  // ------------------------------------------------------------------ test files

  /** One test record: the score line, the text line and a blank line. */
  function TestEntry(r: Record): (entry: string) {
    (IntToString(CoreNlpScore(r.rating)) + "\n") + (r.text + "\n") + "\n"
  }

  /** The test file after the entries of rows have been written: a leading newline, then the entries. */
  function TestFile(rows: seq<Record>): (contents: string)
    ensures |contents| > 0 && contents[0] == '\n'
  {
    if rows == [] then "\n" else TestFile(rows[..|rows| - 1]) + TestEntry(rows[|rows| - 1])
  }

  /** The entries of rows, first row first. */
  function TestBody(rows: seq<Record>): (body: string) {
    if rows == [] then "" else TestEntry(rows[0]) + TestBody(rows[1..])
  }

  lemma {:induction false} TestBodySnoc(rows: seq<Record>, r: Record)
    ensures TestBody(rows + [r]) == TestBody(rows) + TestEntry(r)
  {
    if rows == [] {
      assert [r][1..] == [];
    } else {
      assert (rows + [r])[1..] == rows[1..] + [r];
      TestBodySnoc(rows[1..], r);
    }
  }

  /** A test file is a newline followed by one entry per test row, in row order. */
  lemma {:induction false} TestFileBody(rows: seq<Record>)
    ensures TestFile(rows) == "\n" + TestBody(rows)
  {
    if rows != [] {
      var init, last := rows[..|rows| - 1], rows[|rows| - 1];
      TestFileBody(init);
      assert rows == init + [last];
      TestBodySnoc(init, last);
      AppendTwo("\n", TestBody(init), TestEntry(last));
    }
  }

  /**
   * Writes the test file of one fold with the source's three writes per row. TestEntry
   * is what the three writes append together, and TestFile the file they build.
   */
  method WriteTestSet(test: seq<Record>) returns (contents: string)
    ensures contents == TestFile(test)
  {
    contents := "\n";
    var i := 0;
    while i < |test|
      invariant 0 <= i <= |test|
      invariant contents == TestFile(test[..i])
    {
      ghost var before := contents;
      var score := CoreNlpScore(test[i].rating);
      contents := contents + (IntToString(score) + "\n");
      contents := contents + (test[i].text + "\n");
      contents := contents + "\n";
      AppendThree(before, IntToString(score) + "\n", test[i].text + "\n", "\n");
      assert test[..i + 1][..i] == test[..i];
      i := i + 1;
    }
    assert test[..i] == test;
  }

  // ----------------------------------------------------------------- train files

  /** One training record: score, a tab and one sentence, then a blank line. */
  function TrainEntry(pair: (int, string)): (entry: string) {
    (IntToString(pair.0) + "\t" + pair.1 + "\n") + "\n"
  }

  /** The entries of one row written after prefix: one per sentence, all with the row's score. */
  function Emit(prefix: string, score: int, sentences: seq<string>): (written: string)
    ensures |written| >= |prefix| && written[..|prefix|] == prefix
  {
    if sentences == [] then prefix
    else Emit(prefix, score, sentences[..|sentences| - 1]) + TrainEntry((score, sentences[|sentences| - 1]))
  }

  /** The training file after the rows have been written: a leading newline, then the rows' entries. */
  function TrainFile(rows: seq<Record>, tokenize: string -> seq<string>): (contents: string)
    ensures |contents| > 0 && contents[0] == '\n'
  {
    if rows == [] then "\n"
    else
      var last := rows[|rows| - 1];
      Emit(TrainFile(rows[..|rows| - 1], tokenize), CoreNlpScore(last.rating), tokenize(last.text))
  }

  /** The (score, sentence) pairs of one row. */
  function RowPairs(score: int, sentences: seq<string>): (pairs: seq<(int, string)>)
    ensures |pairs| == |sentences|
    ensures forall k :: 0 <= k < |pairs| ==> pairs[k] == (score, sentences[k])
  {
    seq(|sentences|, k requires 0 <= k < |sentences| => (score, sentences[k]))
  }

  /** The (score, sentence) pairs of a training file, row after row. */
  function TrainPairs(rows: seq<Record>, tokenize: string -> seq<string>): (pairs: seq<(int, string)>) {
    if rows == [] then []
    else
      var last := rows[|rows| - 1];
      TrainPairs(rows[..|rows| - 1], tokenize) + RowPairs(CoreNlpScore(last.rating), tokenize(last.text))
  }

  /** The training entries of some (score, sentence) pairs, in order. */
  function Render(pairs: seq<(int, string)>): (entries: string) {
    if pairs == [] then "" else Render(pairs[..|pairs| - 1]) + TrainEntry(pairs[|pairs| - 1])
  }

  /** The number of sentences the tokenizer finds in the rows' texts. */
  function SentenceCount(rows: seq<Record>, tokenize: string -> seq<string>): (count: nat) {
    if rows == [] then 0
    else SentenceCount(rows[..|rows| - 1], tokenize) + |tokenize(rows[|rows| - 1].text)|
  }

  lemma {:induction false} RenderConcat(a: seq<(int, string)>, b: seq<(int, string)>)
    ensures Render(a + b) == Render(a) + Render(b)
  {
    if b == [] {
      assert a + b == a;
    } else {
      var init := b[..|b| - 1];
      assert (a + b)[..|a + b| - 1] == a + init;
      assert (a + b)[|a + b| - 1] == b[|b| - 1];
      RenderConcat(a, init);
      AppendTwo(Render(a), Render(init), TrainEntry(b[|b| - 1]));
    }
  }

  /** The inner loop appends one rendered entry per sentence. */
  lemma {:induction false} EmitRender(prefix: string, score: int, sentences: seq<string>)
    ensures Emit(prefix, score, sentences) == prefix + Render(RowPairs(score, sentences))
  {
    if sentences != [] {
      var n := |sentences| - 1;
      EmitRender(prefix, score, sentences[..n]);
      var pairs := RowPairs(score, sentences);
      assert pairs[..n] == RowPairs(score, sentences[..n]);
      AppendTwo(prefix, Render(pairs[..n]), TrainEntry(pairs[n]));
    }
  }

  /** A training file is a newline followed by one entry per (score, sentence) pair. */
  lemma {:induction false} TrainFilePairs(rows: seq<Record>, tokenize: string -> seq<string>)
    ensures TrainFile(rows, tokenize) == "\n" + Render(TrainPairs(rows, tokenize))
  {
    if rows != [] {
      var init, last := rows[..|rows| - 1], rows[|rows| - 1];
      var row := RowPairs(CoreNlpScore(last.rating), tokenize(last.text));
      TrainFilePairs(init, tokenize);
      EmitRender(TrainFile(init, tokenize), CoreNlpScore(last.rating), tokenize(last.text));
      RenderConcat(TrainPairs(init, tokenize), row);
      AppendTwo("\n", Render(TrainPairs(init, tokenize)), Render(row));
    }
  }

  /** The entries of consecutive rows follow each other in the training file. */
  lemma {:induction false} TrainPairsConcat(a: seq<Record>, b: seq<Record>, tokenize: string -> seq<string>)
    ensures TrainPairs(a + b, tokenize) == TrainPairs(a, tokenize) + TrainPairs(b, tokenize)
  {
    if b == [] {
      assert a + b == a;
    } else {
      var init := b[..|b| - 1];
      assert (a + b)[..|a + b| - 1] == a + init;
      assert (a + b)[|a + b| - 1] == b[|b| - 1];
      TrainPairsConcat(a, init, tokenize);
    }
  }

  /**
   * A training file has one entry per sentence, and each entry carries the CoreNLP score
   * of the row its sentence came from, a score in 1..3.
   */
  lemma {:induction false} TrainPairsCount(rows: seq<Record>, tokenize: string -> seq<string>)
    ensures |TrainPairs(rows, tokenize)| == SentenceCount(rows, tokenize)
    ensures forall k :: 0 <= k < |TrainPairs(rows, tokenize)| ==> 1 <= TrainPairs(rows, tokenize)[k].0 <= 3
  {
    if rows != [] {
      var init, last := rows[..|rows| - 1], rows[|rows| - 1];
      TrainPairsCount(init, tokenize);
      var a: seq<(int, string)> := TrainPairs(init, tokenize);
      var b: seq<(int, string)> := RowPairs(CoreNlpScore(last.rating), tokenize(last.text));
      assert TrainPairs(rows, tokenize) == a + b;
      forall k | 0 <= k < |a + b|
        ensures 1 <= (a + b)[k].0 <= 3
      {
        if k >= |a| {
          assert (a + b)[k] == b[k - |a|];
        }
      }
    }
  }

  /** Writes the training file of one fold: for each row, one entry per sentence. */
  method WriteTrainSet(train: seq<Record>, tokenize: string -> seq<string>) returns (contents: string)
    ensures contents == TrainFile(train, tokenize)
  {
    contents := "\n";
    var i := 0;
    while i < |train|
      invariant 0 <= i <= |train|
      invariant contents == TrainFile(train[..i], tokenize)
    {
      var score := CoreNlpScore(train[i].rating);
      var sentences := tokenize(train[i].text);
      ghost var start := contents;
      var j := 0;
      while j < |sentences|
        invariant 0 <= j <= |sentences|
        invariant contents == Emit(start, score, sentences[..j])
      {
        ghost var before := contents;
        contents := contents + (IntToString(score) + "\t" + sentences[j] + "\n");
        contents := contents + "\n";
        AppendTwo(before, IntToString(score) + "\t" + sentences[j] + "\n", "\n");
        assert sentences[..j + 1][..j] == sentences[..j];
        j := j + 1;
      }
      assert sentences[..j] == sentences;
      assert train[..i + 1][..i] == train[..i];
      i := i + 1;
    }
    assert train[..i] == train;
  }

  // ------------------------------------------------------------------------ folds

  /** The training and the test file of one fold. */
  function FoldFiles(data: seq<Record>, fold: Fold, tokenize: string -> seq<string>): (string, string)
    requires FoldWithin(fold, |data|)
  {
    (TrainFile(Select(data, fold.train), tokenize), TestFile(Select(data, fold.test)))
  }

  /**
   * The fold loop of run_classifier: the training and the test file of every fold, in
   * fold order (the position is the file-name suffix).
   */
  method RunClassifier(data: seq<Record>, folds: seq<Fold>, tokenize: string -> seq<string>)
    returns (trainFiles: seq<string>, testFiles: seq<string>)
    requires forall f :: 0 <= f < |folds| ==> FoldWithin(folds[f], |data|)
    ensures |trainFiles| == |folds| && |testFiles| == |folds|
    ensures forall f :: 0 <= f < |folds| ==> (trainFiles[f], testFiles[f]) == FoldFiles(data, folds[f], tokenize)
  {
    trainFiles, testFiles := [], [];
    var fileNameSuffix := 0;
    while fileNameSuffix < |folds|
      invariant 0 <= fileNameSuffix <= |folds|
      invariant |trainFiles| == fileNameSuffix && |testFiles| == fileNameSuffix
      invariant forall f :: 0 <= f < fileNameSuffix ==> (trainFiles[f], testFiles[f]) == FoldFiles(data, folds[f], tokenize)
    {
      var fold := folds[fileNameSuffix];
      var trainRows, testRows := Select(data, fold.train), Select(data, fold.test);
      var train := WriteTrainSet(trainRows, tokenize);
      var test := WriteTestSet(testRows);
      trainFiles, testFiles := trainFiles + [train], testFiles + [test];
      fileNameSuffix := fileNameSuffix + 1;
    }
  }
}
