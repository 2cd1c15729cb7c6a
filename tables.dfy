/**
 * The tables the topic-statistics pipeline reads (nomic_module.py), as records and sequences,
 * and the pure helpers every pass shares: score coercion (`numcol`), the depth rule that picks
 * a topic's members, sums, means and threshold counts.
 */
module Tables {
  import opened Wrappers

  /** One value of the item data: missing (`None` or NaN), a number, or text. */
  datatype Cell = Missing | Num(value: real) | Str(text: string)

  /** The two pandas conversions the model leaves abstract: `pd.to_numeric` applied to one text
      value (`None` where it yields NaN) and Python's `str` of a value. */
  datatype Coercions = Coercions(toNumeric: string -> Option<real>, show: Cell -> string)

  /** One row of the topic metadata, its five fields already rendered by `astype(str)`. */
  datatype MetaRow = MetaRow(depth: string, topicId: string, broad: string, medium: string, description: string)

  /** One row of the topic membership table: the two topic labels of an item and its row number. */
  datatype TopicRow = TopicRow(depth1: string, depth2: string, rowNumber: int)

  /** One row of the item data: its row number and its other named fields. */
  datatype DataRow = DataRow(rowNumber: int, fields: map<string, Cell>)

  /** The item data: its column names, in order, and its rows. */
  datatype DataTable = DataTable(columns: seq<string>, rows: seq<DataRow>)

  /** The three fields of a report row that the depth rule looks at. */
  datatype Identity = Identity(depth: string, broad: string, medium: string)

  function Get(r: DataRow, col: string): Cell {
    if col in r.fields then r.fields[col] else Missing
  }

  /** `pd.to_numeric(v, errors="coerce")` for one value: `None` stands for NaN. */
  function ToNumeric(c: Cell, co: Coercions): Option<real> {
    match c
    case Missing => None
    case Num(v) => Some(v)
    case Str(t) => co.toNumeric(t)
  }

  /** The coerced score of one row, NaN filled with 0.0; 0.0 for every row when the column is absent. */
  function Score(r: DataRow, col: string, columns: seq<string>, co: Coercions): real {
    if col in columns then ToNumeric(Get(r, col), co).GetOr(0.0) else 0.0
  }

  function Scores(rows: seq<DataRow>, col: string, columns: seq<string>, co: Coercions): (s: seq<real>)
    ensures |s| == |rows|
    ensures forall i :: 0 <= i < |rows| ==> s[i] == Score(rows[i], col, columns, co)
  {
    if rows == [] then [] else [Score(rows[0], col, columns, co)] + Scores(rows[1..], col, columns, co)
  }

  /** `numcol(df, col)`: one value per row, in row order; all 0.0 when the column is absent, and
      0.0 wherever coercion fails. */
  function NumCol(t: DataTable, col: string, co: Coercions): (s: seq<real>)
    ensures |s| == |t.rows|
    ensures col !in t.columns ==> forall i :: 0 <= i < |s| ==> s[i] == 0.0
    ensures col in t.columns ==> forall i :: 0 <= i < |s| ==> s[i] == ToNumeric(Get(t.rows[i], col), co).GetOr(0.0)
  {
    Scores(t.rows, col, t.columns, co)
  }

  /** The worked example for the normaliser: `["3", "x", None, 5]` becomes `[3.0, 0.0, 0.0, 5.0]`. */
  lemma NumColExample(co: Coercions)
    requires co.toNumeric("3") == Some(3.0) && co.toNumeric("x") == None
    ensures var t := DataTable(["s"], [DataRow(1, map["s" := Str("3")]), DataRow(2, map["s" := Str("x")]),
                                       DataRow(3, map["s" := Missing]), DataRow(4, map["s" := Num(5.0)])]);
            NumCol(t, "s", co) == [3.0, 0.0, 0.0, 5.0]
  {
    var t := DataTable(["s"], [DataRow(1, map["s" := Str("3")]), DataRow(2, map["s" := Str("x")]),
                               DataRow(3, map["s" := Missing]), DataRow(4, map["s" := Num(5.0)])]);
    var s := NumCol(t, "s", co);
    assert s[0] == 3.0 && s[1] == 0.0 && s[2] == 0.0 && s[3] == 5.0;
  }

  // ---- The depth rule ----

  predicate KnownDepth(id: Identity) {
    id.depth == "1" || id.depth == "2"
  }

  /** The mask of every pass: depth "1" compares `topic_depth_1` with the Broad label, depth "2"
      compares `topic_depth_2` with the Medium label, any other depth selects nothing. */
  predicate InTopic(t: TopicRow, id: Identity) {
    if id.depth == "1" then t.depth1 == id.broad
    else if id.depth == "2" then t.depth2 == id.medium
    else false
  }

  /** The number of membership rows the mask selects (`mask.sum()`). */
  function ItemCount(topics: seq<TopicRow>, id: Identity): nat {
    if topics == [] then 0
    else ItemCount(topics[..|topics| - 1], id) + (if InTopic(topics[|topics| - 1], id) then 1 else 0)
  }

  /** `df_topics.loc[mask, "row_number"]`, as the set `isin` tests against. */
  function MemberNumbers(topics: seq<TopicRow>, id: Identity): set<int> {
    if topics == [] then {}
    else
      var last := topics[|topics| - 1];
      MemberNumbers(topics[..|topics| - 1], id) + (if InTopic(last, id) then {last.rowNumber} else {})
  }

  /** The selected numbers are exactly those of the membership rows the mask selects. */
  lemma {:induction false} MemberNumbersSelects(topics: seq<TopicRow>, id: Identity)
    ensures forall x :: x in MemberNumbers(topics, id) <==>
              exists i :: 0 <= i < |topics| && InTopic(topics[i], id) && topics[i].rowNumber == x
  {
    if topics != [] {
      var init := topics[..|topics| - 1];
      MemberNumbersSelects(init, id);
      assert forall i :: 0 <= i < |init| ==> init[i] == topics[i];
    }
  }

  /** `df_data[df_data["row_number"].isin(numbers)]`: the rows whose number is in the set, in order. */
  function FilterRows(rows: seq<DataRow>, numbers: set<int>): (r: seq<DataRow>)
    ensures |r| <= |rows|
  {
    if rows == [] then []
    else
      var rest := FilterRows(rows[1..], numbers);
      if rows[0].rowNumber in numbers then [rows[0]] + rest else rest
  }

  /** The filter keeps exactly the rows whose number is selected. */
  lemma {:induction false} FilterRowsSelects(rows: seq<DataRow>, numbers: set<int>)
    ensures forall x :: x in FilterRows(rows, numbers) <==> x in rows && x.rowNumber in numbers
  {
    if rows != [] {
      FilterRowsSelects(rows[1..], numbers);
      assert forall x :: x in rows <==> x == rows[0] || x in rows[1..];
    }
  }

  lemma {:induction false} FilterRowsNone(rows: seq<DataRow>, numbers: set<int>)
    requires forall x :: x !in numbers
    ensures FilterRows(rows, numbers) == []
  {
    if rows != [] {
      FilterRowsNone(rows[1..], numbers);
    }
  }

  /** `df_sub`, the item rows of one topic; it keeps all the data's columns. */
  function Members(data: DataTable, topics: seq<TopicRow>, id: Identity): DataTable {
    DataTable(data.columns, FilterRows(data.rows, MemberNumbers(topics, id)))
  }

  /** Rows with an unknown depth or without a matching membership row have no members. */
  lemma NoMembersWithoutMatches(data: DataTable, topics: seq<TopicRow>, id: Identity)
    requires !KnownDepth(id) || ItemCount(topics, id) == 0
    ensures Members(data, topics, id).rows == []
  {
    NoMatchesWithoutCount(topics, id);
    MemberNumbersSelects(topics, id);
    FilterRowsNone(data.rows, MemberNumbers(topics, id));
  }

  lemma {:induction false} NoMatchesWithoutCount(topics: seq<TopicRow>, id: Identity)
    requires !KnownDepth(id) || ItemCount(topics, id) == 0
    ensures forall i :: 0 <= i < |topics| ==> !InTopic(topics[i], id)
  {
    if topics != [] {
      var init := topics[..|topics| - 1];
      NoMatchesWithoutCount(init, id);
      assert forall i :: 0 <= i < |init| ==> topics[i] == init[i];
    }
  }

  /** The indices of the membership rows the mask selects. */
  function MatchIndices(topics: seq<TopicRow>, id: Identity): set<int> {
    set i | 0 <= i < |topics| && InTopic(topics[i], id)
  }

  lemma {:induction false} ItemCountIsMatchCount(topics: seq<TopicRow>, id: Identity)
    ensures ItemCount(topics, id) == |MatchIndices(topics, id)|
  {
    if topics != [] {
      var n := |topics| - 1;
      var init := topics[..n];
      ItemCountIsMatchCount(init, id);
      assert forall i :: 0 <= i < n ==> init[i] == topics[i];
      assert MatchIndices(topics, id) == MatchIndices(init, id) + (if InTopic(topics[n], id) then {n} else {});
    }
  }

  lemma {:induction false} UnknownDepthCountsNothing(topics: seq<TopicRow>, id: Identity)
    requires !KnownDepth(id)
    ensures ItemCount(topics, id) == 0
  {
    if topics != [] {
      UnknownDepthCountsNothing(topics[..|topics| - 1], id);
    }
  }

  /** Item count of a depth-"1" topic: the membership rows whose `topic_depth_1` is the Broad label;
      depth "2": the rows whose `topic_depth_2` is the Medium label; every other depth counts 0. */
  lemma ItemCountByDepth(topics: seq<TopicRow>, id: Identity)
    ensures id.depth == "1" ==> ItemCount(topics, id) == |set i | 0 <= i < |topics| && topics[i].depth1 == id.broad|
    ensures id.depth == "2" ==> ItemCount(topics, id) == |set i | 0 <= i < |topics| && topics[i].depth2 == id.medium|
    ensures !KnownDepth(id) ==> ItemCount(topics, id) == 0
  {
    ItemCountIsMatchCount(topics, id);
    if id.depth == "1" {
      assert MatchIndices(topics, id) == set i | 0 <= i < |topics| && topics[i].depth1 == id.broad;
    } else if id.depth == "2" {
      assert MatchIndices(topics, id) == set i | 0 <= i < |topics| && topics[i].depth2 == id.medium;
    } else {
      assert MatchIndices(topics, id) == {};
    }
  }

  // ---- Sums, means and counts ----

  function Sum(s: seq<real>): real {
    if s == [] then 0.0 else s[0] + Sum(s[1..])
  }

  /** The pandas `mean()` of a non-empty series. */
  function Mean(s: seq<real>): real
    requires |s| > 0
  {
    Sum(s) / (|s| as real)
  }

  /** Elementwise `a + b` of two aligned series. */
  function Add(a: seq<real>, b: seq<real>): (r: seq<real>)
    requires |a| == |b|
    ensures |r| == |a| && forall i :: 0 <= i < |a| ==> r[i] == a[i] + b[i]
  {
    if a == [] then [] else [a[0] + b[0]] + Add(a[1..], b[1..])
  }

  /** `total_score = a + b + c` over the member rows. */
  function Totals(t: DataTable, n: string, f: string, m: string, co: Coercions): (r: seq<real>)
    ensures |r| == |t.rows|
    ensures forall i :: 0 <= i < |t.rows| ==>
              r[i] == Score(t.rows[i], n, t.columns, co) + Score(t.rows[i], f, t.columns, co) + Score(t.rows[i], m, t.columns, co)
  {
    Add(Add(NumCol(t, n, co), NumCol(t, f, co)), NumCol(t, m, co))
  }

  /** `(s >= threshold).sum()`. */
  function CountAtLeast(s: seq<real>, threshold: real): (c: nat)
    ensures c <= |s|
  {
    if s == [] then 0 else (if s[0] >= threshold then 1 else 0) + CountAtLeast(s[1..], threshold)
  }

  lemma {:induction false} SumAdd(a: seq<real>, b: seq<real>)
    requires |a| == |b|
    ensures Sum(Add(a, b)) == Sum(a) + Sum(b)
  {
    if a != [] {
      SumAdd(a[1..], b[1..]);
    }
  }

  lemma DivideSum3(x: real, y: real, z: real, d: real)
    requires d > 0.0
    ensures (x + y + z) / d == x / d + y / d + z / d
  {
    assert x == (x / d) * d && y == (y / d) * d && z == (z / d) * d;
    assert x + y + z == (x / d + y / d + z / d) * d;
  }

  /** Three equally long series whose sums add up to the sum of a fourth have means that add up too. */
  lemma MeanOfSum3(t: seq<real>, a: seq<real>, b: seq<real>, c: seq<real>)
    requires |t| == |a| == |b| == |c| > 0
    requires Sum(t) == Sum(a) + Sum(b) + Sum(c)
    ensures Mean(t) == Mean(a) + Mean(b) + Mean(c)
  {
    var d := |t| as real;
    var x, y, z := Sum(a), Sum(b), Sum(c);
    DivideSum3(x, y, z, d);
    assert Mean(t) == (x + y + z) / d;
    assert Mean(a) == x / d;
  }

  /** The mean of an elementwise sum of three aligned series is the sum of their means. */
  lemma MeanAdd3(a: seq<real>, b: seq<real>, c: seq<real>)
    requires |a| == |b| == |c| > 0
    ensures Mean(Add(Add(a, b), c)) == Mean(a) + Mean(b) + Mean(c)
  {
    SumAdd(Add(a, b), c);
    SumAdd(a, b);
    MeanOfSum3(Add(Add(a, b), c), a, b, c);
  }

  /** Before rounding, the mean combined score is the sum of the three dimension means. */
  lemma MeanOfTotals(t: DataTable, n: string, f: string, m: string, co: Coercions)
    requires |t.rows| > 0
    ensures Mean(Totals(t, n, f, m, co)) == Mean(NumCol(t, n, co)) + Mean(NumCol(t, f, co)) + Mean(NumCol(t, m, co))
  {
    MeanAdd3(NumCol(t, n, co), NumCol(t, f, co), NumCol(t, m, co));
  }

  /** Every value is at most the largest one, so the mean is at most the maximum. */
  lemma {:induction false} SumAtMost(s: seq<real>, top: real)
    requires forall i :: 0 <= i < |s| ==> s[i] <= top
    ensures Sum(s) <= (|s| as real) * top
  {
    if s != [] {
      SumAtMost(s[1..], top);
    }
  }

  /** Some value reaches the threshold exactly when the count of such values is positive. */
  lemma {:induction false} CountAtLeastPositive(s: seq<real>, threshold: real)
    ensures CountAtLeast(s, threshold) > 0 <==> exists i :: 0 <= i < |s| && s[i] >= threshold
  {
    if s != [] {
      CountAtLeastPositive(s[1..], threshold);
      if CountAtLeast(s[1..], threshold) > 0 {
        var i :| 0 <= i < |s[1..]| && s[1..][i] >= threshold;
        assert s[i + 1] >= threshold;
      }
      forall i | 1 <= i < |s| && s[i] >= threshold ensures CountAtLeast(s[1..], threshold) > 0 {
        assert s[1..][i - 1] == s[i];
      }
    }
  }

  // ---- Unique row numbers ----

  predicate DistinctNumbers(rows: seq<DataRow>) {
    forall i, j :: 0 <= i < j < |rows| ==> rows[i].rowNumber != rows[j].rowNumber
  }

  /** With unique row numbers, at most one item row matches each selected number. */
  lemma {:induction false} FilterRowsAtMostNumbers(rows: seq<DataRow>, numbers: set<int>)
    requires DistinctNumbers(rows)
    ensures |FilterRows(rows, numbers)| <= |numbers|
  {
    if rows != [] {
      var x := rows[0].rowNumber;
      FilterRowsAtMostNumbers(rows[1..], numbers - {x});
      FilterRowsIgnores(rows[1..], numbers, x);
    }
  }

  /** Removing a number no row carries does not change the filter. */
  lemma {:induction false} FilterRowsIgnores(rows: seq<DataRow>, numbers: set<int>, x: int)
    requires forall i :: 0 <= i < |rows| ==> rows[i].rowNumber != x
    ensures FilterRows(rows, numbers) == FilterRows(rows, numbers - {x})
  {
    if rows != [] {
      FilterRowsIgnores(rows[1..], numbers, x);
    }
  }

  /** The selected row numbers are never more than the selected membership rows. */
  lemma {:induction false} MemberNumbersAtMostCount(topics: seq<TopicRow>, id: Identity)
    ensures |MemberNumbers(topics, id)| <= ItemCount(topics, id)
  {
    if topics != [] {
      MemberNumbersAtMostCount(topics[..|topics| - 1], id);
    }
  }

  /** When `row_number` is unique in the item data, a topic has at most as many item rows as
      membership rows. */
  lemma MembersAtMostItemCount(data: DataTable, topics: seq<TopicRow>, id: Identity)
    requires DistinctNumbers(data.rows)
    ensures |Members(data, topics, id).rows| <= ItemCount(topics, id)
  {
    FilterRowsAtMostNumbers(data.rows, MemberNumbers(topics, id));
    MemberNumbersAtMostCount(topics, id);
  }

  // ---- Column assignment ----

  /** `df[col] = ...`: an existing column keeps its place, a new one goes at the end. */
  function WithColumn<C(==,!new)>(columns: seq<C>, c: C): (r: seq<C>)
    ensures c in r
    ensures forall x :: x in r <==> x in columns || x == c
    ensures |columns| <= |r| <= |columns| + 1 && r[..|columns|] == columns
  {
    if c in columns then columns else columns + [c]
  }

  /** Several column assignments, in order. */
  function WithColumns<C(==,!new)>(columns: seq<C>, cs: seq<C>): (r: seq<C>)
    ensures forall x :: x in r <==> x in columns || x in cs
    ensures |columns| <= |r| && r[..|columns|] == columns
    decreases |cs|
  {
    if cs == [] then columns
    else
      var r := WithColumns(WithColumn(columns, cs[0]), cs[1..]);
      assert forall x :: x in cs <==> x == cs[0] || x in cs[1..];
      r
  }

  lemma WithThreeColumns<C(!new)>(columns: seq<C>, a: C, b: C, c: C)
    ensures WithColumns(columns, [a, b, c]) == WithColumn(WithColumn(WithColumn(columns, a), b), c)
  {
    var c1 := WithColumn(columns, a);
    var c2 := WithColumn(c1, b);
    assert WithColumns(c2, [c]) == WithColumn(c2, c) by {
      assert [c][1..] == [];
    }
    assert WithColumns(c1, [b, c]) == WithColumns(c2, [c]) by {
      assert [b, c][1..] == [c];
    }
    assert WithColumns(columns, [a, b, c]) == WithColumns(c1, [b, c]) by {
      assert [a, b, c][1..] == [b, c];
    }
  }

  const TotalScoreCol: string := "total_score"

  /** The three score columns `add_best_ideas` sums are all columns of the item data. When one is
      not, `df_data.get(col, 0)` gives the int 0, `pd.to_numeric` hands it back unchanged, and
      `.fillna` on it raises; the sum below is only taken when all three are present. */
  predicate ScoresPresent(columns: seq<string>, n: string, f: string, m: string) {
    n in columns && f in columns && m in columns
  }

  /** The message of that exception. */
  const MissingScoreMessage: string := "'int' object has no attribute 'fillna'"

  /** One item row with its combined score stored under `total_score`: the sum of its coerced
      `n`, `f` and `m` values, 0.0 standing for a value that does not convert. */
  function ScoredRow(r: DataRow, columns: seq<string>, n: string, f: string, m: string, co: Coercions): DataRow {
    DataRow(r.rowNumber,
            r.fields[TotalScoreCol := Num(Score(r, n, columns, co) + Score(r, f, columns, co) + Score(r, m, columns, co))])
  }

  /** The item data once `add_best_ideas` has stored every row's combined score; the score of
      row `i` is entry `i` of `Totals`, and nothing else changes. */
  function WithTotals(t: DataTable, n: string, f: string, m: string, co: Coercions): (r: DataTable)
    ensures r.columns == WithColumn(t.columns, TotalScoreCol)
    ensures |r.rows| == |t.rows|
    ensures forall i :: 0 <= i < |t.rows| ==> r.rows[i] == ScoredRow(t.rows[i], t.columns, n, f, m, co)
    ensures forall i :: 0 <= i < |t.rows| ==> r.rows[i].rowNumber == t.rows[i].rowNumber
    ensures forall i :: 0 <= i < |t.rows| ==>
              r.rows[i].fields == t.rows[i].fields[TotalScoreCol := Num(Totals(t, n, f, m, co)[i])]
  {
    var rows := seq(|t.rows|, i requires 0 <= i < |t.rows| => ScoredRow(t.rows[i], t.columns, n, f, m, co));
    var totals := Totals(t, n, f, m, co);
    assert forall i :: 0 <= i < |t.rows| ==> rows[i].fields == t.rows[i].fields[TotalScoreCol := Num(totals[i])];
    DataTable(WithColumn(t.columns, TotalScoreCol), rows)
  }

  /** Filtering by row number commutes with storing the scores, which keeps row numbers. */
  lemma {:induction false} FilterScoredRows(a: seq<DataRow>, b: seq<DataRow>, numbers: set<int>, columns: seq<string>,
                                            n: string, f: string, m: string, co: Coercions)
    requires |a| == |b| && forall i :: 0 <= i < |a| ==> b[i] == ScoredRow(a[i], columns, n, f, m, co)
    ensures |FilterRows(b, numbers)| == |FilterRows(a, numbers)|
    ensures forall i :: 0 <= i < |FilterRows(a, numbers)| ==>
              FilterRows(b, numbers)[i] == ScoredRow(FilterRows(a, numbers)[i], columns, n, f, m, co)
  {
    if a != [] {
      FilterScoredRows(a[1..], b[1..], numbers, columns, n, f, m, co);
    }
  }

  /** A topic's members in the scored item data are its members in the original data, in the
      same order, each with its combined score stored. */
  lemma ScoredMemberRows(data: DataTable, topics: seq<TopicRow>, id: Identity, n: string, f: string, m: string,
                         co: Coercions)
    ensures var sub := Members(data, topics, id);
            var scored := Members(WithTotals(data, n, f, m, co), topics, id);
            && |scored.rows| == |sub.rows|
            && forall i :: 0 <= i < |sub.rows| ==> scored.rows[i] == ScoredRow(sub.rows[i], data.columns, n, f, m, co)
  {
    var w := WithTotals(data, n, f, m, co);
    FilterScoredRows(data.rows, w.rows, MemberNumbers(topics, id), data.columns, n, f, m, co);
  }

  /** The `total_score` stored for member `i` is entry `i` of the members' combined scores. */
  lemma ScoredMembers(data: DataTable, topics: seq<TopicRow>, id: Identity, n: string, f: string, m: string,
                      co: Coercions)
    ensures var sub := Members(data, topics, id);
            var scored := Members(WithTotals(data, n, f, m, co), topics, id);
            && |scored.rows| == |sub.rows|
            && TotalScoreCol in scored.columns
            && forall i :: 0 <= i < |sub.rows| ==> Get(scored.rows[i], TotalScoreCol) == Num(Totals(sub, n, f, m, co)[i])
  {
    var sub := Members(data, topics, id);
    var scored := Members(WithTotals(data, n, f, m, co), topics, id);
    ScoredMemberRows(data, topics, id, n, f, m, co);
    forall i | 0 <= i < |sub.rows|
      ensures Get(scored.rows[i], TotalScoreCol) == Num(Totals(sub, n, f, m, co)[i])
    {
      var r := sub.rows[i];
      var total := Score(r, n, data.columns, co) + Score(r, f, data.columns, co) + Score(r, m, data.columns, co);
      assert scored.rows[i] == ScoredRow(r, data.columns, n, f, m, co);
      ScoredRowTotal(r, data.columns, n, f, m, co);
      assert Totals(sub, n, f, m, co)[i] == total;
    }
  }

  lemma ScoredRowTotal(r: DataRow, columns: seq<string>, n: string, f: string, m: string, co: Coercions)
    ensures Get(ScoredRow(r, columns, n, f, m, co), TotalScoreCol)
            == Num(Score(r, n, columns, co) + Score(r, f, columns, co) + Score(r, m, columns, co))
  {
  }

  /** The score stored in a scored row reads back as the sum it was computed from. */
  lemma StoredTotal(r: DataRow, columns: seq<string>, scoredColumns: seq<string>, n: string, f: string, m: string,
                    co: Coercions)
    requires TotalScoreCol in scoredColumns
    ensures Score(ScoredRow(r, columns, n, f, m, co), TotalScoreCol, scoredColumns, co)
            == Score(r, n, columns, co) + Score(r, f, columns, co) + Score(r, m, columns, co)
  {
  }

  /** Assigning one more column after several is assigning them all, in order. */
  lemma {:induction false} WithColumnsSnoc<C(!new)>(columns: seq<C>, cs: seq<C>, c: C)
    ensures WithColumns(columns, cs + [c]) == WithColumn(WithColumns(columns, cs), c)
    decreases |cs|
  {
    if cs == [] {
      assert [] + [c] == [c];
    } else {
      assert (cs + [c])[0] == cs[0] && (cs + [c])[1..] == cs[1..] + [c];
      WithColumnsSnoc(WithColumn(columns, cs[0]), cs[1..], c);
    }
  }

  /** Assigning two lists of columns one after the other is assigning their concatenation. */
  lemma {:induction false} WithColumnsAppend<C(!new)>(columns: seq<C>, a: seq<C>, b: seq<C>)
    ensures WithColumns(columns, a + b) == WithColumns(WithColumns(columns, a), b)
    decreases |a|
  {
    if a == [] {
      assert [] + b == b;
    } else {
      assert (a + b)[0] == a[0] && (a + b)[1..] == a[1..] + b;
      WithColumnsAppend(WithColumn(columns, a[0]), a[1..], b);
    }
  }

  /** Assigning distinct columns none of which exists yet appends them, in order. */
  lemma AppendAssoc<C>(a: seq<C>, b: seq<C>, c: seq<C>)
    ensures (a + b) + c == a + (b + c)
  {
  }

  lemma ShiftHead<C>(a: seq<C>, b: seq<C>)
    requires b != []
    ensures (a + [b[0]]) + b[1..] == a + b
  {
    assert b == [b[0]] + b[1..];
  }

  lemma {:induction false} WithColumnsFresh<C(!new)>(columns: seq<C>, cs: seq<C>)
    requires forall i :: 0 <= i < |cs| ==> cs[i] !in columns
    requires forall i, j :: 0 <= i < j < |cs| ==> cs[i] != cs[j]
    ensures WithColumns(columns, cs) == columns + cs
    decreases |cs|
  {
    if cs != [] {
      var head, rest := cs[0], cs[1..];
      var next := columns + [head];
      assert head !in columns;
      assert WithColumn(columns, head) == next;
      assert forall i :: 0 <= i < |rest| ==> rest[i] == cs[i + 1];
      forall i | 0 <= i < |rest|
        ensures rest[i] !in next
      {
        assert rest[i] != head && rest[i] !in columns;
      }
      WithColumnsFresh(next, rest);
      ShiftHead(columns, cs);
    }
  }

  // ---- Looking up a column by candidate names ----

  /** `_first_existing_col`: the earliest candidate, in list order, that is a column; `None` when
      no candidate is. */
  function FirstExistingCol(columns: seq<string>, candidates: seq<string>): (r: Option<string>)
    ensures r.None? <==> forall i :: 0 <= i < |candidates| ==> candidates[i] !in columns
    ensures r.Some? ==> r.value in columns
    ensures r.Some? ==> exists i :: 0 <= i < |candidates| && candidates[i] == r.value
                                     && forall j :: 0 <= j < i ==> candidates[j] !in columns
  {
    if candidates == [] then None
    else if candidates[0] in columns then Some(candidates[0])
    else
      var r := FirstExistingCol(columns, candidates[1..]);
      FirstExistingColStep(columns, candidates, r);
      r
  }

  /** The search step: a candidate found further down the list, behind a first candidate that is
      not a column, is still the earliest one present. */
  lemma FirstExistingColStep(columns: seq<string>, candidates: seq<string>, r: Option<string>)
    requires candidates != [] && candidates[0] !in columns
    requires r.None? <==> forall i :: 0 <= i < |candidates[1..]| ==> candidates[1..][i] !in columns
    requires r.Some? ==> exists i :: 0 <= i < |candidates[1..]| && candidates[1..][i] == r.value
                                      && forall j :: 0 <= j < i ==> candidates[1..][j] !in columns
    ensures r.None? <==> forall i :: 0 <= i < |candidates| ==> candidates[i] !in columns
    ensures r.Some? ==> exists i :: 0 <= i < |candidates| && candidates[i] == r.value
                                     && forall j :: 0 <= j < i ==> candidates[j] !in columns
  {
    assert forall i :: 1 <= i < |candidates| ==> candidates[i] == candidates[1..][i - 1];
    if r.Some? {
      var i :| 0 <= i < |candidates[1..]| && candidates[1..][i] == r.value
               && forall j :: 0 <= j < i ==> candidates[1..][j] !in columns;
      assert candidates[i + 1] == r.value;
      assert forall j :: 0 <= j < i + 1 ==> candidates[j] !in columns by {
        forall j | 0 < j < i + 1 ensures candidates[j] !in columns { assert candidates[j] == candidates[1..][j - 1]; }
      }
    }
  }
}
