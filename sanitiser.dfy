/**
 * CSVAnalyser: turns the rows of the ratings CSV (columns Stud, Rating, Link, Comment)
 * into [rating, text] records, dropping every row whose rating is not exactly "1", "-1"
 * or "0".
 */
module Sanitiser {
  import opened Wrappers
  import opened JavaText
  import opened Dataset

  /** One CSV row as the csv module returns it, header already skipped. */
  type Row = seq<string>

  const RatingColumn: nat := 1
  const TextColumn: nat := 3

  /** A row that has both the rating and the text column. */
  predicate IsWide(row: Row) {
    |row| > TextColumn
  }

  predicate AllWide(rows: seq<Row>) {
    forall i :: 0 <= i < |rows| ==> IsWide(rows[i])
  }

  predicate Keeps(row: Row)
    requires IsWide(row)
  {
    IsValidRating(row[RatingColumn])
  }

  /** The records the sanitiser makes of rows: the rating and the text of the kept rows, in input order. */
  function Sanitized(rows: seq<Row>): (records: seq<Record>)
    requires AllWide(rows)
    ensures |records| <= |rows|
  {
    if rows == [] then []
    else
      var last := rows[|rows| - 1];
      Sanitized(rows[..|rows| - 1]) + (if Keeps(last) then [Record(last[RatingColumn], last[TextColumn])] else [])
  }

  /** The exception remove_invalid_entries raises, with the row it raises at. */
  datatype Raised =
    | IndexError(row: nat)      // the row has no column 3
    | AttributeError(row: nat)  // sanitized_data is already a numpy array, which has no append

  /**
   * A row the loop gets past without raising: it has a column 3, and once sanitized_data
   * is a numpy array (isArray) it is not kept, since keeping it calls append.
   */
  predicate Passes(row: Row, isArray: bool) {
    IsWide(row) && (isArray ==> !Keeps(row))
  }

  predicate AllPass(rows: seq<Row>, isArray: bool) {
    forall i :: 0 <= i < |rows| ==> Passes(rows[i], isArray)
  }

  /** The first row the loop raises at, and what it raises there; None when it gets through. */
  function FirstRaise(rows: seq<Row>, isArray: bool): (r: Option<Raised>)
    ensures r.Some? ==> r.value.row < |rows| && AllPass(rows[..r.value.row], isArray) && !Passes(rows[r.value.row], isArray)
    ensures r.Some? ==> (r.value.IndexError? <==> !IsWide(rows[r.value.row]))
    ensures r.None? ==> AllPass(rows, isArray)
  {
    if rows == [] then None
    else if !IsWide(rows[0]) then Some(IndexError(0))
    else if isArray && Keeps(rows[0]) then Some(AttributeError(0))
    else match FirstRaise(rows[1..], isArray)
      case None => None
      case Some(e) => Some(e.(row := e.row + 1))
  }

  /** The loop raises at the first row it cannot get past. */
  lemma {:induction false} FirstRaiseAt(rows: seq<Row>, i: nat, isArray: bool)
    requires i < |rows| && AllPass(rows[..i], isArray) && !Passes(rows[i], isArray)
    ensures FirstRaise(rows, isArray) == Some(if IsWide(rows[i]) then AttributeError(i) else IndexError(i))
  {
    if i > 0 {
      assert rows[..i][0] == rows[0];
      var passed := rows[1..][..i - 1];
      assert AllPass(passed, isArray) by {
        forall k | 0 <= k < |passed| ensures Passes(passed[k], isArray) {
          assert passed[k] == rows[..i][k + 1];
        }
      }
      FirstRaiseAt(rows[1..], i - 1, isArray);
    }
  }

  /** Without such a row the loop gets through. */
  lemma {:induction false} FirstRaiseNone(rows: seq<Row>, isArray: bool)
    requires AllPass(rows, isArray)
    ensures FirstRaise(rows, isArray) == None
  {
    if rows != [] {
      assert AllPass(rows[1..], isArray) by {
        forall k | 0 <= k < |rows| - 1 ensures Passes(rows[1..][k], isArray) {
          assert rows[1..][k] == rows[k + 1];
        }
      }
      FirstRaiseNone(rows[1..], isArray);
    }
  }

  lemma AllPassStep(rows: seq<Row>, i: nat, isArray: bool)
    requires i < |rows| && AllPass(rows[..i], isArray) && Passes(rows[i], isArray)
    ensures AllPass(rows[..i + 1], isArray)
  {
    var front := rows[..i + 1];
    forall k | 0 <= k < |front| ensures Passes(front[k], isArray) {
      if k < i {
        assert front[k] == rows[..i][k];
      }
    }
  }

  /** One more wide row adds its record to the sanitised prefix exactly when it is kept. */
  lemma SanitizedStep(rows: seq<Row>, i: nat)
    requires i < |rows| && AllWide(rows[..i]) && IsWide(rows[i])
    ensures AllWide(rows[..i + 1])
    ensures Sanitized(rows[..i + 1])
            == Sanitized(rows[..i]) + (if Keeps(rows[i]) then [Record(rows[i][RatingColumn], rows[i][TextColumn])] else [])
  {
    assert rows[..i + 1] == rows[..i] + [rows[i]];
    assert rows[..i + 1][..i] == rows[..i];
  }

  /** How far the loop gets: to the row it raises at, or to the end. */
  function RowsRead(rows: seq<Row>, isArray: bool): (n: nat)
    ensures n <= |rows| && AllWide(rows[..n]) && AllPass(rows[..n], isArray)
  {
    match FirstRaise(rows, isArray)
    case None => assert rows[..|rows|] == rows; |rows|
    case Some(e) => e.row
  }

  /** Wide rows keep nothing exactly when the loop could pass them all with sanitized_data an array. */
  lemma {:induction false} KeepsNothing(rows: seq<Row>)
    requires AllWide(rows)
    ensures AllPass(rows, true) <==> Sanitized(rows) == []
  {
    if rows != [] {
      var n := |rows| - 1;
      assert AllWide(rows[..n]);
      KeepsNothing(rows[..n]);
      if AllPass(rows[..n], true) && Passes(rows[n], true) {
        AllPassStep(rows, n, true);
        assert rows[..n + 1] == rows;
      }
    }
  }

  /** The positions of the rows the sanitiser keeps, in increasing order. */
  function KeptPositions(rows: seq<Row>): (idx: seq<nat>)
    requires AllWide(rows)
    ensures forall k :: 0 <= k < |idx| ==> idx[k] < |rows| && Keeps(rows[idx[k]])
    ensures forall k, l :: 0 <= k < l < |idx| ==> idx[k] < idx[l]
    ensures forall i :: 0 <= i < |rows| && Keeps(rows[i]) ==> i in idx
  {
    if rows == [] then []
    else
      var n := |rows| - 1;
      KeptPositions(rows[..n]) + (if Keeps(rows[n]) then [n] else [])
  }

  /** records[k] holds the rating and the text of row idx[k], for every k. */
  predicate RecordsOf(records: seq<Record>, rows: seq<Row>, idx: seq<nat>) {
    |records| == |idx|
    && forall k :: 0 <= k < |idx| ==>
         idx[k] < |rows| && IsWide(rows[idx[k]])
         && records[k].rating == rows[idx[k]][RatingColumn] && records[k].text == rows[idx[k]][TextColumn]
  }

  /** A further row adds either nothing or its own record at its own position. */
  lemma RecordsOfExtend(records: seq<Record>, init: seq<Row>, idx: seq<nat>, row: Row, extra: seq<Record>, more: seq<nat>)
    requires RecordsOf(records, init, idx) && IsWide(row)
    requires (extra == [] && more == [])
             || (|extra| == 1 && more == [|init|] && extra[0].rating == row[RatingColumn] && extra[0].text == row[TextColumn])
    ensures RecordsOf(records + extra, init + [row], idx + more)
  {
    var rows := init + [row];
    forall k | 0 <= k < |idx| ensures rows[idx[k]] == init[idx[k]] {
    }
  }

  /**
   * The sanitiser keeps exactly the rows whose rating column is "1", "-1" or "0", in
   * their input order, each as its rating and its column-3 text.
   */
  lemma {:induction false} SanitizedKeepsExactly(rows: seq<Row>)
    requires AllWide(rows)
    ensures RecordsOf(Sanitized(rows), rows, KeptPositions(rows))
  {
    if rows != [] {
      var n := |rows| - 1;
      var init := rows[..n];
      assert AllWide(init);
      SanitizedKeepsExactly(init);
      var extra := if Keeps(rows[n]) then [Record(rows[n][RatingColumn], rows[n][TextColumn])] else [];
      var more := if Keeps(rows[n]) then [n] else [];
      assert rows == init + [rows[n]];
      RecordsOfExtend(Sanitized(init), init, KeptPositions(init), rows[n], extra, more);
    }
  }

  /** Sanitising distributes over concatenation: a filter that keeps row order. */
  lemma {:induction false} SanitizedConcat(a: seq<Row>, b: seq<Row>)
    requires AllWide(a) && AllWide(b)
    ensures AllWide(a + b)
    ensures Sanitized(a + b) == Sanitized(a) + Sanitized(b)
  {
    if b == [] {
      assert a + b == a;
    } else {
      var n := |b| - 1;
      assert (a + b)[..|a + b| - 1] == a + b[..n];
      SanitizedConcat(a, b[..n]);
    }
  }

  /** A row with any other rating ("2", "", "+1", ...) is dropped silently. */
  lemma DropsInvalidRow(before: seq<Row>, row: Row, after: seq<Row>)
    requires AllWide(before) && IsWide(row) && AllWide(after)
    requires !IsValidRating(row[RatingColumn])
    ensures AllWide(before + [row] + after)
    ensures Sanitized(before + [row] + after) == Sanitized(before) + Sanitized(after)
  {
    var front := before + [row];
    assert AllWide(front) && Sanitized(front) == Sanitized(before) by {
      assert front[..|before|] == before;
    }
    SanitizedConcat(front, after);
  }

  /** All rows have the length of the first: the CSV forms a matrix. */
  predicate Rectangular(rows: seq<Row>) {
    forall i :: 0 <= i < |rows| ==> |rows[i]| == |rows[0]|
  }

  /**
   * np.asarray of the rows. A matrix stays as it is. Rows of different lengths become a
   * one-dimensional array of lists, which cannot be indexed by [i, 1]: each row is then
   * shown as having no column.
   */
  function AsArray(rows: seq<Row>): (matrix: seq<Row>)
    ensures |matrix| == |rows|
    ensures Rectangular(rows) ==> matrix == rows
    ensures !Rectangular(rows) ==> forall k :: 0 <= k < |matrix| ==> !IsWide(matrix[k])
  {
    if Rectangular(rows) then rows else seq(|rows|, _ => [])
  }

  /** What np.asarray turns into a matrix at least four columns wide, or no rows at all. */
  predicate WideMatrix(rows: seq<Row>) {
    rows == [] || (Rectangular(rows) && IsWide(rows[0]))
  }

  /**
   * After np.asarray the loop reads either every row or none. Unless the rows form a
   * matrix at least four columns wide it raises IndexError at row 0. Otherwise it reads
   * the rows as they are and gets through all of them, except that once sanitized_data
   * is a numpy array it raises AttributeError at the first row it keeps.
   */
  lemma AsArrayAllOrNothing(rows: seq<Row>, isArray: bool)
    ensures !WideMatrix(rows) ==> FirstRaise(AsArray(rows), isArray) == Some(IndexError(0))
    ensures WideMatrix(rows) ==> AsArray(rows) == rows && AllWide(rows)
    ensures WideMatrix(rows) ==> (FirstRaise(rows, isArray).None? <==> !isArray || Sanitized(rows) == [])
    ensures WideMatrix(rows) && FirstRaise(rows, isArray).Some? ==> FirstRaise(rows, isArray).value.AttributeError?
  {
    var matrix := AsArray(rows);
    if WideMatrix(rows) {
      assert AllWide(matrix);
      KeepsNothing(rows);
      if !isArray || Sanitized(rows) == [] {
        assert AllPass(rows, isArray);
        FirstRaiseNone(rows, isArray);
      }
    } else {
      assert !IsWide(matrix[0]);
      FirstRaiseAt(matrix, 0, isArray);
    }
  }

  class CsvAnalyser {
    var importedData: seq<Row>
    var sanitizedData: seq<Record>
    /** Whether a completed pass has turned sanitized_data from a list into a numpy array. */
    var sanitizedIsArray: bool

    constructor ()
      ensures importedData == [] && sanitizedData == [] && !sanitizedIsArray
    {
      importedData := [];
      sanitizedData := [];
      sanitizedIsArray := false;
    }

    /**
     * Appends the record of every kept row to sanitized_data, in row order, then turns
     * sanitized_data into a numpy array. A row too short to index raises IndexError, and
     * a kept row raises AttributeError once sanitized_data is already an array; the
     * method then stops at that row, which it returns, with the records of the rows
     * before it already appended and sanitized_data still what it was.
     */
    method RemoveInvalidEntries() returns (raised: Option<Raised>)
      modifies this`sanitizedData, this`sanitizedIsArray
      ensures raised == FirstRaise(importedData, old(sanitizedIsArray))
      ensures sanitizedData == old(sanitizedData) + Sanitized(importedData[..RowsRead(importedData, old(sanitizedIsArray))])
      ensures old(sanitizedIsArray) ==> sanitizedData == old(sanitizedData)
      ensures sanitizedIsArray <==> old(sanitizedIsArray) || raised.None?
    {
      var rows := importedData;
      ghost var isArray := sanitizedIsArray;
      var i := 0;
      ghost var kept: seq<Record> := [];
      while i < |rows|
        invariant 0 <= i <= |rows|
        invariant AllWide(rows[..i]) && AllPass(rows[..i], isArray)
        invariant kept == Sanitized(rows[..i])
        invariant sanitizedData == old(sanitizedData) + kept
        invariant isArray ==> kept == []
        invariant sanitizedIsArray == isArray
      {
        var row := rows[i];
        if !IsWide(row) {
          FirstRaiseAt(rows, i, isArray);
          assert RowsRead(rows, isArray) == i;
          return Some(IndexError(i));
        }
        var rating := row[RatingColumn];
        var text := row[TextColumn];
        SanitizedStep(rows, i);
        if rating == "1" || rating == "-1" || rating == "0" {
          if sanitizedIsArray {
            FirstRaiseAt(rows, i, isArray);
            assert RowsRead(rows, isArray) == i;
            return Some(AttributeError(i));
          }
          RatingValueRoundTrip(rating);
          var record := Record(IntToString(RatingValue(rating)), text);
          sanitizedData := sanitizedData + [record];
          kept := kept + [record];
        }
        AllPassStep(rows, i, isArray);
        i := i + 1;
      }
      assert rows[..i] == rows;
      FirstRaiseNone(rows, isArray);
      sanitizedIsArray := true;
      raised := None;
    }

    /**
     * Loads the data rows of the CSV (header skipped) as a numpy array and sanitises
     * them. Unless they form a matrix at least four columns wide, IndexError is raised at
     * row 0. Otherwise, on a fresh analyser, the records of all kept rows are appended
     * and sanitized_data returned; on an analyser whose sanitized_data is already an
     * array, AttributeError is raised at the first kept row and nothing changes.
     */
    method Analyze(rows: seq<Row>) returns (raised: Option<Raised>, records: seq<Record>)
      modifies this
      ensures importedData == AsArray(rows) && records == sanitizedData
      ensures !WideMatrix(rows) ==>
                raised == Some(IndexError(0)) && records == old(sanitizedData) && sanitizedIsArray == old(sanitizedIsArray)
      ensures WideMatrix(rows) ==> AllWide(rows) && sanitizedIsArray
      ensures WideMatrix(rows) && !old(sanitizedIsArray) ==> raised.None? && records == old(sanitizedData) + Sanitized(rows)
      ensures WideMatrix(rows) && old(sanitizedIsArray) ==>
                records == old(sanitizedData) && (raised.None? <==> Sanitized(rows) == [])
                && (raised.Some? ==> raised.value.AttributeError?)
    {
      importedData := AsArray(rows);
      raised := RemoveInvalidEntries();
      records := sanitizedData;
      AsArrayAllOrNothing(rows, old(sanitizedIsArray));
      if WideMatrix(rows) && raised.None? {
        assert importedData[..|rows|] == rows;
      }
    }
  }
}
