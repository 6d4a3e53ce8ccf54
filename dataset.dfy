/** Validation of the loaded rating sheet and extraction of the two lists the
    rest of the evaluator works on: the differentiators (header columns after
    the first) and the business opportunities (distinct values of the first
    column). */
module Dataset {

  /** One cell of the sheet. A blank cell is read as a missing value; any other
      cell is kept as the text it renders to, which is what the score keys are
      built from. */
  datatype Cell = Missing | Value(text: string)

  /** The first sheet, already parsed: the header row and the data rows. */
  datatype Table = Table(header: seq<string>, rows: seq<seq<Cell>>)

  /** A data frame is rectangular: every row has one cell per header column. */
  predicate Rectangular(t: Table)
  {
    forall i :: 0 <= i < |t.rows| ==> |t.rows[i]| == |t.header|
  }

  /** Why a sheet is refused. Each one stops the run. */
  datatype DatasetError =
    | TooFewColumns       // fewer than two columns
    | NoDifferentiators   // no header after the first column
    | NoRows              // no data rows
    | NoOpportunities     // every first-column cell is missing

  /** What a valid sheet yields. */
  datatype Extracted = Extracted(differentiators: seq<string>, opportunities: seq<string>)

  datatype Result<T> = Ok(value: T) | Err(error: DatasetError)

  predicate NoDuplicates(xs: seq<string>)
  {
    forall i, j :: 0 <= i < j < |xs| ==> xs[i] != xs[j]
  }

  /** The cells of the first column, top to bottom. */
  function FirstColumn(t: Table): (cells: seq<Cell>)
    requires Rectangular(t) && 1 <= |t.header|
    ensures |cells| == |t.rows|
    ensures forall i :: 0 <= i < |t.rows| ==> cells[i] == t.rows[i][0]
  {
    seq(|t.rows|, i requires 0 <= i < |t.rows| => t.rows[i][0])
  }

  /** The non-missing values of a column, each taken once, in the order in
      which they first appear (a column's dropna().unique()). */
  function DistinctValues(cells: seq<Cell>): (r: seq<string>)
    ensures NoDuplicates(r)
    ensures forall x :: x in r <==> Value(x) in cells
    ensures |r| <= |cells|
  {
    if cells == [] then []
    else
      var prev := DistinctValues(cells[..|cells| - 1]);
      var last := cells[|cells| - 1];
      assert cells == cells[..|cells| - 1] + [last];
      if last.Missing? || last.text in prev then prev else prev + [last.text]
  }

  /** The row at which a value first appears in a column. */
  function FirstAt(cells: seq<Cell>, x: string): (i: nat)
    requires Value(x) in cells
    ensures i < |cells| && cells[i] == Value(x)
    ensures forall j :: 0 <= j < i ==> cells[j] != Value(x)
  {
    if cells[0] == Value(x) then 0 else 1 + FirstAt(cells[1..], x)
  }

  /** Appending a cell does not move the first appearance of a value that was
      already there. */
  lemma FirstAtPrefix(cells: seq<Cell>, c: Cell, x: string)
    requires Value(x) in cells
    ensures Value(x) in cells + [c]
    ensures FirstAt(cells + [c], x) == FirstAt(cells, x)
  {
    var i, k := FirstAt(cells, x), FirstAt(cells + [c], x);
    assert (cells + [c])[i] == Value(x);
  }

  /** The distinct values come in the order in which they first appear in the
      column: a value listed earlier first appears in an earlier row. */
  lemma {:induction false} DistinctValuesInFirstAppearanceOrder(cells: seq<Cell>)
    ensures forall x :: x in DistinctValues(cells) ==> Value(x) in cells
    ensures forall i, j :: 0 <= i < j < |DistinctValues(cells)| ==>
      FirstAt(cells, DistinctValues(cells)[i]) < FirstAt(cells, DistinctValues(cells)[j])
  {
    if cells != [] {
      var init := cells[..|cells| - 1];
      var last := cells[|cells| - 1];
      assert cells == init + [last];
      var prev := DistinctValues(init);
      DistinctValuesInFirstAppearanceOrder(init);
      forall x | x in prev
        ensures FirstAt(cells, x) == FirstAt(init, x) < |init|
      {
        FirstAtPrefix(init, last, x);
      }
      var r := DistinctValues(cells);
      if !(last.Missing? || last.text in prev) {
        assert r == prev + [last.text];
        assert Value(last.text) !in init;
        assert FirstAt(cells, last.text) == |init|;
      }
    }
  }

  /** The checks of the extraction block, in their order: too few columns, no
      differentiator, no data row, no opportunity. */
  function Validate(t: Table): (r: Result<Extracted>)
    requires Rectangular(t)
    ensures r == Err(TooFewColumns) <==> |t.header| < 2
    ensures r == Err(NoRows) <==> 2 <= |t.header| && |t.rows| == 0
    ensures r == Err(NoOpportunities) <==>
      2 <= |t.header| && 1 <= |t.rows| && forall i :: 0 <= i < |t.rows| ==> t.rows[i][0] == Missing
    ensures r != Err(NoDifferentiators)
    ensures r.Ok? ==> r.value.differentiators == t.header[1..] && r.value.differentiators != []
    ensures r.Ok? ==> r.value.opportunities != [] && NoDuplicates(r.value.opportunities)
    ensures r.Ok? ==> forall x :: x in r.value.opportunities <==>
      exists i :: 0 <= i < |t.rows| && t.rows[i][0] == Value(x)
  {
    if |t.header| < 2 then Err(TooFewColumns)
    else
      var differentiators := t.header[1..];
      if differentiators == [] then Err(NoDifferentiators)
      else if |t.rows| < 1 then Err(NoRows)
      else
        var column := FirstColumn(t);
        var opportunities := DistinctValues(column);
        if opportunities == [] then
          Err(NoOpportunities)
        else
          assert exists i :: 0 <= i < |t.rows| && t.rows[i][0] != Missing by {
            var x := opportunities[0];
            var i := FirstAt(column, x);
            assert t.rows[i][0] == Value(x);
          }
          Ok(Extracted(differentiators, opportunities))
  }

  /** A valid sheet's opportunities are its first column's non-missing values,
      each once and in order of first appearance. */
  lemma OpportunitiesInSheetOrder(t: Table)
    requires Rectangular(t) && Validate(t).Ok?
    ensures forall i, j :: 0 <= i < j < |Validate(t).value.opportunities| ==>
      FirstAt(FirstColumn(t), Validate(t).value.opportunities[i])
        < FirstAt(FirstColumn(t), Validate(t).value.opportunities[j])
  {
    DistinctValuesInFirstAppearanceOrder(FirstColumn(t));
  }
}
