/**
 * The dropdown requests of the sheet writer (`dropdowns`): a strict dropdown over column C listing
 * its categories with one text rule per category, the cleanup of "nan"/"None" texts in column D,
 * and dropdowns over column D on the rows that hold a value only, one pair of requests per run of
 * consecutive rows. The colours of the text rules (an HSL palette) are not modelled.
 */
module Dropdowns {
  import opened Wrappers
  import opened Text
  import opened Ordering
  import opened SheetRequests

  /** One value of a DataFrame column: its text `str(v)`, and whether pandas counts it as missing
      (`dropna` drops it). A NaN prints as `nan` and `None` as `None`; `pd.NA` prints as `<NA>`. */
  datatype SheetCell = SheetCell(text: string, missing: bool)

  /** The stripped texts treated as empty. */
  predicate Blank(t: string) {
    t == "" || t == "None" || t == "nan"
  }

  // ---------------------------------------------------------------------------
  // Categories
  // ---------------------------------------------------------------------------

  /** The value contributes a category: it survives `dropna` and its stripped text is not blank. */
  predicate Contributes(v: SheetCell) {
    !v.missing && !Blank(Strip(v.text))
  }

  /** The stripped texts of the contributing values, in order. */
  function KeptTexts(series: seq<SheetCell>): seq<string>
  {
    if series == [] then []
    else (if Contributes(series[0]) then [Strip(series[0].text)] else []) + KeptTexts(series[1..])
  }

  /** `t` is the stripped text of a contributing value of the series. */
  predicate IsCategory(series: seq<SheetCell>, t: string) {
    exists i :: 0 <= i < |series| && Contributes(series[i]) && Strip(series[i].text) == t
  }

  lemma {:induction false} KeptTextsAreCategories(series: seq<SheetCell>)
    ensures forall t :: t in KeptTexts(series) <==> IsCategory(series, t)
  {
    if series != [] {
      var head := if Contributes(series[0]) then [Strip(series[0].text)] else [];
      var tail := KeptTexts(series[1..]);
      assert KeptTexts(series) == head + tail;
      KeptTextsAreCategories(series[1..]);
      forall t
        ensures t in head + tail <==> IsCategory(series, t)
      {
        if t in tail {
          var i :| 0 <= i < |series[1..]| && Contributes(series[1..][i]) && Strip(series[1..][i].text) == t;
          assert series[i + 1] == series[1..][i];
        }
        if IsCategory(series, t) {
          var i :| 0 <= i < |series| && Contributes(series[i]) && Strip(series[i].text) == t;
          if i > 0 {
            assert series[1..][i - 1] == series[i];
            assert t in tail;
          } else {
            assert t in head;
          }
        }
      }
    }
  }

  /** `sorted(set(...))` of the kept texts: the category list of a dropdown. It is strictly increasing,
      hence free of duplicates, and holds exactly the stripped texts of the contributing values. */
  function Categories(series: seq<SheetCell>): (r: seq<string>)
    ensures StrictlySorted(r)
    ensures forall t :: t in r <==> IsCategory(series, t)
  {
    SortedCategories(series);
    SortedDistinct(KeptTexts(series))
  }

  lemma SortedCategories(series: seq<SheetCell>)
    ensures forall t :: t in SortedDistinct(KeptTexts(series)) <==> IsCategory(series, t)
  {
    KeptTextsAreCategories(series);
    var kept := KeptTexts(series);
    var r := SortedDistinct(kept);
    forall t
      ensures t in r <==> IsCategory(series, t)
    {
      assert t in r <==> t in Elems(r);
      assert t in kept <==> t in Elems(kept);
    }
  }

  /** The category list holds no text twice. */
  lemma CategoriesDistinct(series: seq<SheetCell>)
    ensures forall i, j :: 0 <= i < j < |Categories(series)| ==> Categories(series)[i] != Categories(series)[j]
  {
    StrictlySortedIsDistinct(Categories(series));
  }

  // ---------------------------------------------------------------------------
  // Rows that hold a value
  // ---------------------------------------------------------------------------

  /** The value's row needs a dropdown: its stripped text is not blank (missing or not). */
  predicate Filled(v: SheetCell) {
    !Blank(Strip(v.text))
  }

  /** Each entry is below the next. */
  predicate Increasing(s: seq<int>) {
    forall i :: 0 <= i < |s| - 1 ==> s[i] < s[i + 1]
  }

  /** The filled marks of a series, value by value. */
  function FilledMarks(series: seq<SheetCell>): (m: seq<bool>)
    ensures |m| == |series|
    ensures forall i :: 0 <= i < |series| ==> m[i] == Filled(series[i])
  {
    seq(|series|, i requires 0 <= i < |series| => Filled(series[i]))
  }

  /** The positions of the marked entries, the first entry being numbered `first`. */
  function MarkedFrom(marks: seq<bool>, first: int): (r: seq<int>)
    ensures Increasing(r)
    ensures forall k :: 0 <= k < |r| ==> first <= r[k] < first + |marks|
  {
    if marks == [] then []
    else (if marks[0] then [first] else []) + MarkedFrom(marks[1..], first + 1)
  }

  /** `non_empty_rows`: the sheet rows of the filled values, numbered from row 2 (the header is
      row 1). */
  function NonEmptyRows(series: seq<SheetCell>): (rows: seq<int>)
    ensures Increasing(rows)
    ensures forall i :: 0 <= i < |rows| ==> 2 <= rows[i] < 2 + |series|
  {
    MarkedFrom(FilledMarks(series), 2)
  }

  /** Position `first + i` is listed exactly when entry `i` is marked. */
  lemma {:induction false} MarkedExact(marks: seq<bool>, first: int, x: int)
    ensures x in MarkedFrom(marks, first) <==> first <= x < first + |marks| && marks[x - first]
  {
    if marks != [] {
      var head := if marks[0] then [first] else [];
      var tail := MarkedFrom(marks[1..], first + 1);
      assert MarkedFrom(marks, first) == head + tail;
      MarkedExact(marks[1..], first + 1, x);
      if first + 1 <= x < first + |marks| {
        assert marks[1..][x - (first + 1)] == marks[x - first];
      }
    }
  }

  /** Sheet row `x` is a non-empty row exactly when it is a data row whose value is filled. */
  lemma NonEmptyRowsExact(series: seq<SheetCell>, x: int)
    ensures x in NonEmptyRows(series) <==> 2 <= x < 2 + |series| && Filled(series[x - 2])
  {
    MarkedExact(FilledMarks(series), 2, x);
  }

  /** A missing value printed as `<NA>` gets a dropdown row but is no category. */
  lemma MissingValueFilledButNoCategory(v: SheetCell)
    requires v.missing && Strip(v.text) == "<NA>"
    ensures Filled(v) && !Contributes(v)
  {
  }

  // ---------------------------------------------------------------------------
  // Block compression
  // ---------------------------------------------------------------------------

  /** The run of sheet rows `first..last`, both included. */
  datatype Block = Block(first: int, last: int)

  /** The rows of a block. */
  function Span(b: Block): (r: seq<int>)
    ensures |r| == if b.first <= b.last then b.last - b.first + 1 else 0
    ensures forall k :: 0 <= k < |r| ==> r[k] == b.first + k
    decreases b.last - b.first
  {
    if b.first <= b.last then Span(Block(b.first, b.last - 1)) + [b.last] else []
  }

  /** The rows of a block list, block after block. */
  function Expand(blocks: seq<Block>): seq<int> {
    if blocks == [] then [] else Expand(blocks[..|blocks| - 1]) + Span(blocks[|blocks| - 1])
  }

  /** Every block holds at least one row. */
  predicate Proper(blocks: seq<Block>) {
    forall j :: 0 <= j < |blocks| ==> blocks[j].first <= blocks[j].last
  }

  /** No block continues where the previous one stops: each is a maximal run. */
  predicate Maximal(blocks: seq<Block>) {
    forall j :: 0 <= j < |blocks| - 1 ==> blocks[j + 1].first != blocks[j].last + 1
  }

  /** Blocks are strictly increasing with a gap of at least one row between blocks. */
  predicate Separated(blocks: seq<Block>) {
    forall j :: 0 <= j < |blocks| - 1 ==> blocks[j].last + 1 < blocks[j + 1].first
  }

  /** Appending a block appends its rows. */
  lemma ExpandSnoc(blocks: seq<Block>, b: Block)
    ensures Expand(blocks + [b]) == Expand(blocks) + Span(b)
  {
    assert (blocks + [b])[..|blocks|] == blocks;
  }

  /** The state of the compression loop after `i > 0` rows: the closed `blocks` and the open run
      `open` together list `rows[..i]`, every run maximal, and separated when the rows increase. */
  predicate Partial(rows: seq<int>, i: int, blocks: seq<Block>, open: Block) {
    && 1 <= i <= |rows|
    && Proper(blocks) && Maximal(blocks)
    && open.first <= open.last == rows[i - 1]
    && Expand(blocks) + Span(open) == rows[..i]
    && (blocks != [] ==> open.first != blocks[|blocks| - 1].last + 1)
    && (Increasing(rows) ==> Separated(blocks) && (blocks != [] ==> blocks[|blocks| - 1].last + 1 < open.first))
  }

  /** The whole state of the compression loop after `i` rows: no run is open before the first
      row, and after it `start` and `prev` delimit the open run of `Partial`. */
  predicate Compressing(rows: seq<int>, i: int, blocks: seq<Block>, start: Option<int>, prev: Option<int>) {
    && 0 <= i <= |rows|
    && (start.None? <==> i == 0)
    && (prev.None? <==> i == 0)
    && (i == 0 ==> blocks == [])
    && (i > 0 ==> Partial(rows, i, blocks, Block(start.value, prev.value)))
  }

  /** The first row opens a run. */
  lemma StartRun(rows: seq<int>)
    requires |rows| > 0
    ensures Compressing(rows, 1, [], Some(rows[0]), Some(rows[0]))
  {
    assert rows[..1] == [rows[0]];
  }

  /** A row one past the open run extends it. */
  lemma ExtendRun(rows: seq<int>, i: int, blocks: seq<Block>, start: int, prev: int)
    requires Compressing(rows, i, blocks, Some(start), Some(prev)) && i < |rows| && rows[i] == prev + 1
    ensures Compressing(rows, i + 1, blocks, Some(start), Some(rows[i]))
  {
    assert rows[..i + 1] == rows[..i] + [rows[i]];
    assert Span(Block(start, rows[i])) == Span(Block(start, prev)) + [rows[i]];
  }

  /** Any other row closes the open run as a block and opens a new one. */
  lemma CloseRun(rows: seq<int>, i: int, blocks: seq<Block>, start: int, prev: int)
    requires Compressing(rows, i, blocks, Some(start), Some(prev)) && i < |rows| && rows[i] != prev + 1
    ensures Compressing(rows, i + 1, blocks + [Block(start, prev)], Some(rows[i]), Some(rows[i]))
  {
    assert rows[..i + 1] == rows[..i] + [rows[i]];
    ExpandSnoc(blocks, Block(start, prev));
    if Increasing(rows) {
      assert rows[i - 1] < rows[i];
    }
  }

  /** At the end the open run becomes the last block. */
  lemma FinishRuns(rows: seq<int>, blocks: seq<Block>, start: int, prev: int)
    requires Compressing(rows, |rows|, blocks, Some(start), Some(prev))
    ensures Proper(blocks + [Block(start, prev)]) && Maximal(blocks + [Block(start, prev)])
    ensures Expand(blocks + [Block(start, prev)]) == rows
    ensures Increasing(rows) ==> Separated(blocks + [Block(start, prev)])
  {
    assert rows[..|rows|] == rows;
    ExpandSnoc(blocks, Block(start, prev));
  }

  /** The compression loop of `dropdowns`: `start` and `prev` delimit the open run; a row that does
      not continue it closes it. The blocks list the rows in order, each block a maximal run; for
      increasing rows (as `non_empty_rows` are) the blocks are separated by gaps. */
  method CompressBlocks(rows: seq<int>) returns (blocks: seq<Block>)
    ensures Proper(blocks) && Maximal(blocks)
    ensures Expand(blocks) == rows
    ensures Increasing(rows) ==> Separated(blocks)
  {
    blocks := [];
    var start: Option<int> := None;
    var prev: Option<int> := None;
    var i := 0;
    while i < |rows|
      invariant Compressing(rows, i, blocks, start, prev)
      decreases |rows| - i
    {
      var r := rows[i];
      if start.None? {
        StartRun(rows);
        start, prev := Some(r), Some(r);
      } else if r == prev.value + 1 {
        ExtendRun(rows, i, blocks, start.value, prev.value);
        prev := Some(r);
      } else {
        CloseRun(rows, i, blocks, start.value, prev.value);
        blocks := blocks + [Block(start.value, prev.value)];
        start, prev := Some(r), Some(r);
      }
      i := i + 1;
    }
    if start.Some? {
      FinishRuns(rows, blocks, start.value, prev.value);
      blocks := blocks + [Block(start.value, prev.value)];
    }
  }

  /** Block `b` spans sheet row `x`. */
  predicate Spans(b: Block, x: int) {
    b.first <= x <= b.last
  }

  /** The rows of a block are the rows it spans. */
  lemma InSpan(b: Block, x: int)
    ensures x in Span(b) <==> Spans(b, x)
  {
    if Spans(b, x) {
      assert Span(b)[x - b.first] == x;
    }
  }

  /** The rows of proper blocks are the rows some block spans. */
  lemma {:induction false} InExpand(blocks: seq<Block>, x: int)
    ensures x in Expand(blocks) <==> exists j :: 0 <= j < |blocks| && Spans(blocks[j], x)
  {
    if blocks != [] {
      var init := blocks[..|blocks| - 1];
      var b := blocks[|blocks| - 1];
      assert Expand(blocks) == Expand(init) + Span(b);
      InExpand(init, x);
      InSpan(b, x);
      if x in Expand(init) {
        var j :| 0 <= j < |init| && Spans(init[j], x);
        assert blocks[j] == init[j];
      }
      if exists j :: 0 <= j < |blocks| && Spans(blocks[j], x) {
        var j :| 0 <= j < |blocks| && Spans(blocks[j], x);
        if j < |init| {
          assert init[j] == blocks[j];
        }
      }
    }
  }

  // ---------------------------------------------------------------------------
  // Requests
  // ---------------------------------------------------------------------------

  /** Column C over the data rows, `num_rows` being `len(df) + 1`. */
  function ColumnCRange(sheetId: int, numRows: int): GridRange {
    GridRange(sheetId, 1, numRows, 2, 3)
  }

  /** Column D over the data rows. */
  function ColumnDRange(sheetId: int, numRows: int): GridRange {
    GridRange(sheetId, 1, numRows, 3, 4)
  }

  /** Column D over the sheet rows of a block: 0-based rows `first - 1` up to `last`, excluded. */
  function BlockRange(sheetId: int, b: Block): GridRange {
    GridRange(sheetId, b.first - 1, b.last, 3, 4)
  }

  /** A block's range covers exactly its sheet rows: 0-based row `x - 1` is in it iff sheet row
      `x` is in the block. */
  lemma BlockRangeCoversBlock(sheetId: int, b: Block, x: int)
    ensures Covers(BlockRange(sheetId, b), x) <==> Spans(b, x)
  {
  }

  /** The column C requests: the dropdown listing the categories, then one text rule per category. */
  method ColumnCRequests(sheetId: int, numRows: int, categories: seq<string>) returns (reqs: seq<Request>)
    ensures |reqs| == 1 + |categories|
    ensures reqs[0] == SetDataValidation(ColumnCRange(sheetId, numRows), categories)
    ensures forall k :: 0 <= k < |categories| ==> reqs[1 + k] == AddTextEqRule(ColumnCRange(sheetId, numRows), categories[k], 0)
  {
    var range := ColumnCRange(sheetId, numRows);
    reqs := [SetDataValidation(range, categories)];
    var k := 0;
    while k < |categories|
      invariant 0 <= k <= |categories|
      invariant |reqs| == 1 + k
      invariant reqs[0] == SetDataValidation(range, categories)
      invariant forall m :: 0 <= m < k ==> reqs[1 + m] == AddTextEqRule(range, categories[m], 0)
    {
      reqs := reqs + [AddTextEqRule(range, categories[k], 0)];
      k := k + 1;
    }
  }

  /** The column D requests: for each block, the dropdown and the gray bold text over its range. */
  method ColumnDRequests(sheetId: int, blocks: seq<Block>, categories: seq<string>) returns (reqs: seq<Request>)
    ensures |reqs| == 2 * |blocks|
    ensures forall j :: 0 <= j < |blocks| ==>
              && reqs[2 * j] == SetDataValidation(BlockRange(sheetId, blocks[j]), categories)
              && reqs[2 * j + 1] == RepeatCell(BlockRange(sheetId, blocks[j]), GrayBoldText, ["userEnteredFormat.textFormat"])
  {
    reqs := [];
    var j := 0;
    while j < |blocks|
      invariant 0 <= j <= |blocks|
      invariant |reqs| == 2 * j
      invariant forall m :: 0 <= m < j ==>
                  && reqs[2 * m] == SetDataValidation(BlockRange(sheetId, blocks[m]), categories)
                  && reqs[2 * m + 1] == RepeatCell(BlockRange(sheetId, blocks[m]), GrayBoldText, ["userEnteredFormat.textFormat"])
    {
      var range := BlockRange(sheetId, blocks[j]);
      reqs := reqs + [SetDataValidation(range, categories), RepeatCell(range, GrayBoldText, ["userEnteredFormat.textFormat"])];
      j := j + 1;
    }
  }

  /** The cleanup of column D: "nan" and then "None" replaced by the empty text, ignoring case and
      matching whole cells only. */
  function Cleanup(sheetId: int, numRows: int): (r: seq<Request>)
    ensures |r| == 2
    ensures forall i :: 0 <= i < |r| ==>
              && r[i].FindReplace? && r[i].range == ColumnDRange(sheetId, numRows)
              && r[i].replacement == "" && !r[i].matchCase && r[i].matchEntireCell
    ensures r[0].find == "nan" && r[1].find == "None"
  {
    [FindReplace(ColumnDRange(sheetId, numRows), "nan", "", false, true),
     FindReplace(ColumnDRange(sheetId, numRows), "None", "", false, true)]
  }

  /** The three batches `dropdowns` may send, an empty one standing for a batch that is not sent. */
  datatype DropdownBatches = DropdownBatches(columnC: seq<Request>, cleanup: seq<Request>, columnD: seq<Request>)

  /** Column C's batch: nothing without categories, else the dropdown and one rule per category. */
  predicate ColumnCBatch(sheetId: int, numRows: int, categories: seq<string>, reqs: seq<Request>) {
    && (categories == [] <==> reqs == [])
    && (categories != [] ==>
          && |reqs| == 1 + |categories|
          && reqs[0] == SetDataValidation(ColumnCRange(sheetId, numRows), categories)
          && forall k :: 0 <= k < |categories| ==> reqs[1 + k] == AddTextEqRule(ColumnCRange(sheetId, numRows), categories[k], 0))
  }

  /** D's dropdowns fall exactly on the filled rows, through the blocks of `non_empty_rows`. */
  predicate DropdownsOnRows(sheetId: int, reqs: seq<Request>, categories: seq<string>, blocks: seq<Block>, rows: seq<int>) {
    && Proper(blocks) && Maximal(blocks) && Separated(blocks) && Expand(blocks) == rows
    && |reqs| == 2 * |blocks|
    && forall j :: 0 <= j < |blocks| ==>
         && reqs[2 * j] == SetDataValidation(BlockRange(sheetId, blocks[j]), categories)
         && reqs[2 * j + 1] == RepeatCell(BlockRange(sheetId, blocks[j]), GrayBoldText, ["userEnteredFormat.textFormat"])
  }

  /** Column D's dropdown batch: nothing without non-empty rows or without categories, else the
      requests of the blocks of the non-empty rows. */
  predicate ColumnDBatch(sheetId: int, categories: seq<string>, rows: seq<int>, reqs: seq<Request>, blocks: seq<Block>) {
    && (rows == [] || categories == [] <==> reqs == [])
    && (reqs != [] ==> DropdownsOnRows(sheetId, reqs, categories, blocks, rows))
  }

  /** The column C part of `dropdowns`. */
  method ColumnCDropdown(sheetId: int, numRows: int, series: seq<SheetCell>) returns (reqs: seq<Request>)
    ensures ColumnCBatch(sheetId, numRows, Categories(series), reqs)
  {
    var categories := Categories(series);
    reqs := [];
    if categories != [] {
      reqs := ColumnCRequests(sheetId, numRows, categories);
    }
  }

  /** The column D dropdowns of `dropdowns`, after the cleanup. */
  method ColumnDDropdowns(sheetId: int, series: seq<SheetCell>) returns (reqs: seq<Request>, ghost blocks: seq<Block>)
    ensures ColumnDBatch(sheetId, Categories(series), NonEmptyRows(series), reqs, blocks)
  {
    var rows := NonEmptyRows(series);
    var categories := Categories(series);
    reqs, blocks := [], [];
    if rows != [] && categories != [] {
      var compressed := CompressBlocks(rows);
      blocks := compressed;
      reqs := ColumnDRequests(sheetId, compressed, categories);
      assert compressed != [] by {
        assert Expand(compressed) == rows;
      }
    }
  }

  /** The requests of `dropdowns` for a frame of `height` rows whose columns hold `columns`. An empty
      frame sends nothing. Column C (the third column) gets its batch when it exists; column D (the
      fourth) gets the cleanup and then its dropdown batch when it exists. */
  method ColumnDropdowns(sheetId: int, height: nat, columns: seq<seq<SheetCell>>) returns (b: DropdownBatches, ghost blocks: seq<Block>)
    requires forall column :: column in columns ==> |column| == height
    ensures height == 0 || columns == [] ==> b == DropdownBatches([], [], []) && blocks == []
    ensures height > 0 && columns != [] ==>
              && (|columns| > 2 ==> ColumnCBatch(sheetId, height + 1, Categories(columns[2]), b.columnC))
              && (|columns| <= 2 ==> b.columnC == [])
              && b.cleanup == (if |columns| > 3 then Cleanup(sheetId, height + 1) else [])
              && (|columns| > 3 ==> ColumnDBatch(sheetId, Categories(columns[3]), NonEmptyRows(columns[3]), b.columnD, blocks))
              && (|columns| <= 3 ==> b.columnD == [])
  {
    blocks := [];
    if height == 0 || columns == [] {
      return DropdownBatches([], [], []), blocks;
    }
    var numRows := height + 1;
    var reqsC: seq<Request> := [];
    if |columns| > 2 {
      reqsC := ColumnCDropdown(sheetId, numRows, columns[2]);
    }
    var cleanup: seq<Request> := [];
    var reqsD: seq<Request> := [];
    if |columns| > 3 {
      cleanup := Cleanup(sheetId, numRows);
      reqsD, blocks := ColumnDDropdowns(sheetId, columns[3]);
    }
    b := DropdownBatches(reqsC, cleanup, reqsD);
  }

  /** The range `g` covers sheet row `x` (0-based row `x - 1`). */
  predicate Covers(g: GridRange, x: int) {
    g.startRow <= x - 1 < g.endRow
  }

  /** Sheet row `x` gets a column D dropdown exactly when it is a data row whose value is filled. */
  lemma DropdownsExactlyOnFilledRows(sheetId: int, reqs: seq<Request>, categories: seq<string>, blocks: seq<Block>,
                                     series: seq<SheetCell>, x: int)
    requires DropdownsOnRows(sheetId, reqs, categories, blocks, NonEmptyRows(series))
    ensures (exists j :: 0 <= j < |blocks| && Covers(reqs[2 * j].range, x))
            <==> 2 <= x < 2 + |series| && Filled(series[x - 2])
  {
    InExpand(blocks, x);
    NonEmptyRowsExact(series, x);
    if exists j :: 0 <= j < |blocks| && Spans(blocks[j], x) {
      var j :| 0 <= j < |blocks| && Spans(blocks[j], x);
      assert reqs[2 * j].range == BlockRange(sheetId, blocks[j]);
    }
    if exists j :: 0 <= j < |blocks| && Covers(reqs[2 * j].range, x) {
      var j :| 0 <= j < |blocks| && Covers(reqs[2 * j].range, x);
      assert reqs[2 * j].range == BlockRange(sheetId, blocks[j]);
    }
  }
}
