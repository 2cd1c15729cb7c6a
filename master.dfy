/**
 * The report table of nomic_module.py as an object the passes change in place, and the passes
 * themselves: each sets its new columns to their defaults for every row, then visits the rows
 * in order and overwrites the cells of the rows whose topic has member items.
 */
module Master {
  import opened Wrappers
  import opened Tables
  import opened ReportSpec

  /** Every row carries the three text fields the depth rule reads. */
  predicate AllIdentified(rows: seq<Row>) {
    forall k :: 0 <= k < |rows| ==> HasIdentity(rows[k])
  }

  /** The rows of `create_master_dataframe`: one per metadata row, in order. */
  function BaseRows(meta: seq<MetaRow>): (r: seq<Row>)
    ensures |r| == |meta| && AllIdentified(r)
    ensures forall k :: 0 <= k < |meta| ==> IdentityOf(r[k]) == Identity(meta[k].depth, meta[k].broad, meta[k].medium)
  {
    seq(|meta|, k requires 0 <= k < |meta| => BaseRow(meta[k]))
  }

  /** The report (`df_master`): its column names, in order, and its rows. */
  class MasterFrame {
    var columns: seq<Col>
    var rows: seq<Row>

    /** Every row has the three text fields the depth rule reads. */
    ghost predicate Valid()
      reads this
    {
      AllIdentified(rows)
    }

    /** `create_master_dataframe`: one row per metadata row, in order. */
    constructor (meta: seq<MetaRow>)
      ensures Valid()
      ensures columns == BaseColumns
      ensures rows == BaseRows(meta)
    {
      columns := BaseColumns;
      rows := BaseRows(meta);
    }

    /** `df_master[c] = v`: every row gets `v` under `c`; a new column goes at the end. */
    method SetColumn(c: Col, v: Value)
      requires Valid()
      requires c == DepthCol || c == BroadCol || c == MediumCol ==> v.StrVal?
      modifies this
      ensures Valid()
      ensures columns == WithColumn(old(columns), c)
      ensures |rows| == |old(rows)| && forall k :: 0 <= k < |rows| ==> rows[k] == old(rows)[k][c := v]
    {
      columns := WithColumn(columns, c);
      var before := rows;
      rows := seq(|before|, k requires 0 <= k < |before| => before[k][c := v]);
    }

    /** The `df_master.at[k, c] = v` writes of one row, for existing columns: the row's cells
        for those columns are replaced. */
    method SetCells(k: nat, cells: Row)
      requires Valid() && k < |rows| && forall c :: c in cells ==> c in columns
      requires DepthCol !in cells && BroadCol !in cells && MediumCol !in cells
      modifies this
      ensures Valid()
      ensures columns == old(columns)
      ensures rows == old(rows)[k := old(rows)[k] + cells]
    {
      rows := rows[k := rows[k] + cells];
    }
  }

  /** The item data (`df_data`), which the best-idea pass extends with `total_score`. */
  class ItemData {
    var columns: seq<string>
    var rows: seq<DataRow>

    constructor (t: DataTable)
      ensures Table() == t
    {
      columns := t.columns;
      rows := t.rows;
    }

    function Table(): DataTable
      reads this
    {
      DataTable(columns, rows)
    }

    /** `df_data["total_score"] = a + b + c`, the three coerced score columns summed; `ok` is false
        when a score column is missing, where the source raises and the table stays as it was. */
    method AddTotalScore(n: string, f: string, m: string, co: Coercions) returns (ok: bool)
      modifies this
      ensures ok <==> ScoresPresent(old(columns), n, f, m)
      ensures ok ==> Table() == WithTotals(old(Table()), n, f, m, co)
      ensures !ok ==> Table() == old(Table())
    {
      ok := ScoresPresent(columns, n, f, m);
      if ok {
        var scored := WithTotals(Table(), n, f, m, co);
        columns := scored.columns;
        rows := scored.rows;
      }
    }
  }

  // ---- Map facts the passes share ----

  /** Writing one cell after merging equals merging with that cell written. */
  lemma UpdateMerge(r: Row, d: Row, c: Col, v: Value)
    ensures (r + d)[c := v] == r + d[c := v]
  {
  }

  /** Merging cells over defaults for the same or fewer columns forgets the defaults. */
  lemma Override(r: Row, defaults: Row, cells: Row)
    requires defaults.Keys <= cells.Keys
    ensures (r + defaults) + cells == r + cells
  {
  }

  lemma Updates2(r: Row, c1: Col, v1: Value, c2: Col, v2: Value)
    ensures r[c1 := v1][c2 := v2] == r + map[c1 := v1, c2 := v2]
  {
  }

  lemma Updates3(r: Row, c1: Col, v1: Value, c2: Col, v2: Value, c3: Col, v3: Value)
    ensures r[c1 := v1][c2 := v2][c3 := v3] == r + map[c1 := v1, c2 := v2, c3 := v3]
  {
  }

  lemma Updates4(r: Row, c1: Col, v1: Value, c2: Col, v2: Value, c3: Col, v3: Value, c4: Col, v4: Value)
    ensures r[c1 := v1][c2 := v2][c3 := v3][c4 := v4] == r + map[c1 := v1, c2 := v2, c3 := v3, c4 := v4]
  {
  }

  lemma MergeAssoc(a: Row, b: Row, c: Row)
    ensures (a + b) + c == a + (b + c)
  {
  }

  /** A merge that does not touch the identity columns keeps the row's identity. */
  lemma KeepsIdentity(r: Row, cells: Row)
    requires HasIdentity(r)
    requires DepthCol !in cells && BroadCol !in cells && MediumCol !in cells
    ensures HasIdentity(r + cells) && IdentityOf(r + cells) == IdentityOf(r)
  {
  }

  /** A row after the row loop of a pass has visited it: unchanged when the pass skipped it
      (`continue`), otherwise with the written cells replacing its own. */
  function Applied(r: Row, w: Option<Row>): Row {
    match w
    case None => r
    case Some(cells) => r + cells
  }

  /** A row holding a pass's defaults, after the row loop: the pass's cells, written or default. */
  lemma AppliedOverDefaults(base: Row, defaults: Row, w: Option<Row>)
    requires w.Some? ==> w.value.Keys == defaults.Keys
    ensures Applied(base + defaults, w) == base + w.GetOr(defaults)
  {
  }

  // ---- The passes ----

  /** The `for idx, row in df_master.iterrows()` loop every pass runs, over rows that hold the
      pass's defaults on top of `base`: for each row in order, `write` decides from the row's
      identity and its cells whether to skip it or which cells to write over the defaults. */
  method WriteRows(master: MasterFrame, write: (Identity, Row) -> Option<Row>, ghost base: seq<Row>,
                   ghost defaults: Row)
    requires master.Valid()
    requires forall c :: c in defaults ==> c in master.columns
    requires DepthCol !in defaults && BroadCol !in defaults && MediumCol !in defaults
    requires forall id, r :: write(id, r).Some? ==> write(id, r).value.Keys == defaults.Keys
    requires |master.rows| == |base| && forall k :: 0 <= k < |base| ==> HasIdentity(base[k])
    requires forall k :: 0 <= k < |base| ==> master.rows[k] == base[k] + defaults
    modifies master
    ensures master.Valid() && master.columns == old(master.columns)
    ensures |master.rows| == |base|
    ensures forall k :: 0 <= k < |base| ==>
              master.rows[k] == base[k] + write(IdentityOf(base[k]), old(master.rows[k])).GetOr(defaults)
  {
    var k := 0;
    while k < |master.rows|
      invariant master.Valid() && master.columns == old(master.columns)
      invariant k <= |master.rows| == |base|
      invariant forall j :: 0 <= j < k ==>
                  master.rows[j] == base[j] + write(IdentityOf(base[j]), old(master.rows[j])).GetOr(defaults)
      invariant forall j :: k <= j < |master.rows| ==> master.rows[j] == old(master.rows[j])
    {
      KeepsIdentity(base[k], defaults);
      var w := write(IdentityOf(master.rows[k]), master.rows[k]);
      if w.Some? {
        master.SetCells(k, w.value);
      }
      AppliedOverDefaults(base[k], defaults, w);
      k := k + 1;
    }
  }

  /** The rows after `add_item_count`: each with the item count of its topic. */
  function ItemCountRows(rows: seq<Row>, topics: seq<TopicRow>): (r: seq<Row>)
    requires AllIdentified(rows)
    ensures |r| == |rows| && AllIdentified(r)
    ensures forall k :: 0 <= k < |rows| ==> IdentityOf(r[k]) == IdentityOf(rows[k])
    ensures forall k :: 0 <= k < |rows| ==> ItemCountCol in r[k] && r[k][ItemCountCol].IntVal?
  {
    seq(|rows|, k requires 0 <= k < |rows| => rows[k] + ItemCountCells(IdentityOf(rows[k]), topics))
  }

  /** `add_item_count`: every row gets the number of membership rows its topic selects. */
  method AddItemCount(master: MasterFrame, topics: seq<TopicRow>)
    requires master.Valid()
    modifies master
    ensures master.Valid()
    ensures master.columns == WithColumn(old(master.columns), ItemCountCol)
    ensures master.rows == ItemCountRows(old(master.rows), topics)
  {
    ghost var base := master.rows;
    master.SetColumn(ItemCountCol, IntVal(0));
    var write := (id, r) => Some(ItemCountCells(id, topics));
    WriteRows(master, write, base, map[ItemCountCol := IntVal(0)]);
  }

  /** The four `df_master[c] = 0.0` statements that open `add_average_scores`. */
  method SetAverageDefaults(master: MasterFrame)
    requires master.Valid()
    modifies master
    ensures master.Valid()
    ensures master.columns == WithColumns(old(master.columns), AverageColumns)
    ensures |master.rows| == |old(master.rows)|
    ensures forall k :: 0 <= k < |master.rows| ==> master.rows[k] == old(master.rows[k]) + AverageDefaults
  {
    ghost var r0 := master.rows;
    master.SetColumn(AverageCol, RealVal(0.0));
    ghost var c1 := master.columns;
    master.SetColumn(NoveltyAverageCol, RealVal(0.0));
    ghost var c2 := master.columns;
    master.SetColumn(MarketAverageCol, RealVal(0.0));
    ghost var c3 := master.columns;
    master.SetColumn(FeasibilityAverageCol, RealVal(0.0));
    forall j | 0 <= j < |r0|
      ensures master.rows[j] == r0[j] + AverageDefaults
    {
      Updates4(r0[j], AverageCol, RealVal(0.0), NoveltyAverageCol, RealVal(0.0), MarketAverageCol, RealVal(0.0),
               FeasibilityAverageCol, RealVal(0.0));
    }
    assert WithColumns(c3, [FeasibilityAverageCol]) == master.columns;
    assert WithColumns(c2, [MarketAverageCol, FeasibilityAverageCol]) == master.columns;
    assert WithColumns(c1, [NoveltyAverageCol, MarketAverageCol, FeasibilityAverageCol]) == master.columns;
  }

  /** The rows after `add_average_scores`: each with its topic's four mean cells. */
  function AverageRows(rows: seq<Row>, topics: seq<TopicRow>, data: DataTable, n: string, f: string, m: string,
                       co: Coercions): (r: seq<Row>)
    requires AllIdentified(rows)
    ensures |r| == |rows| && AllIdentified(r)
    ensures forall k :: 0 <= k < |rows| ==> IdentityOf(r[k]) == IdentityOf(rows[k])
  {
    DefaultsAvoidIdentity();
    seq(|rows|, k requires 0 <= k < |rows| => rows[k] + AverageCells(IdentityOf(rows[k]), topics, data, n, f, m, co))
  }

  /** `add_average_scores`: every row gets the four mean scores of its topic's member items, or
      0.0 when it has none. */
  method AddAverageScores(master: MasterFrame, topics: seq<TopicRow>, data: DataTable,
                          n: string, f: string, m: string, co: Coercions)
    requires master.Valid()
    modifies master
    ensures master.Valid()
    ensures master.columns == WithColumns(old(master.columns), AverageColumns)
    ensures master.rows == AverageRows(old(master.rows), topics, data, n, f, m, co)
  {
    ghost var base := master.rows;
    SetAverageDefaults(master);
    var write := (id, r) => AverageWrite(id, topics, data, n, f, m, co);
    DefaultsAvoidIdentity();
    WriteRows(master, write, base, AverageDefaults);
  }

  /** The two default statements that open `add_excellent_ideas`. */
  method SetExcellentDefaults(master: MasterFrame)
    requires master.Valid()
    modifies master
    ensures master.Valid()
    ensures master.columns == WithColumns(old(master.columns), ExcellentColumns)
    ensures |master.rows| == |old(master.rows)|
    ensures forall k :: 0 <= k < |master.rows| ==> master.rows[k] == old(master.rows[k]) + ExcellentDefaults
  {
    ghost var r0 := master.rows;
    master.SetColumn(ExcellentCountCol, IntVal(0));
    ghost var c1 := master.columns;
    master.SetColumn(ExcellentRatioCol, ZeroPercent);
    forall j | 0 <= j < |r0|
      ensures master.rows[j] == r0[j] + ExcellentDefaults
    {
      Updates2(r0[j], ExcellentCountCol, IntVal(0), ExcellentRatioCol, ZeroPercent);
    }
    assert WithColumns(c1, [ExcellentRatioCol]) == master.columns;
  }

  /** `row["アイデア数"]`, the item count the first pass stored (0 stands for a row without one,
      which the excellent-ideas pass does not accept). */
  function IdeaCountOf(r: Row): int {
    if ItemCountCol in r && r[ItemCountCol].IntVal? then r[ItemCountCol].i else 0
  }

  /** The rows after `add_excellent_ideas`: each with its topic's count of excellent ideas and
      their share of the item count the row holds. */
  function ExcellentRows(rows: seq<Row>, topics: seq<TopicRow>, data: DataTable, n: string, f: string, m: string,
                         co: Coercions): (r: seq<Row>)
    requires AllIdentified(rows)
    ensures |r| == |rows| && AllIdentified(r)
    ensures forall k :: 0 <= k < |rows| ==> IdentityOf(r[k]) == IdentityOf(rows[k])
  {
    DefaultsAvoidIdentity();
    seq(|rows|, k requires 0 <= k < |rows| =>
      rows[k] + ExcellentCells(IdentityOf(rows[k]), IdeaCountOf(rows[k]), topics, data, n, f, m, co))
  }

  /** `add_excellent_ideas`: every row gets its topic's count of combined scores of at least 12
      and that count as a share of the item count the row already holds. */
  method AddExcellentIdeas(master: MasterFrame, topics: seq<TopicRow>, data: DataTable,
                           n: string, f: string, m: string, co: Coercions)
    requires master.Valid()
    requires forall k :: 0 <= k < |master.rows| ==> ItemCountCol in master.rows[k] && master.rows[k][ItemCountCol].IntVal?
    modifies master
    ensures master.Valid()
    ensures master.columns == WithColumns(old(master.columns), ExcellentColumns)
    ensures master.rows == ExcellentRows(old(master.rows), topics, data, n, f, m, co)
  {
    ghost var base := master.rows;
    SetExcellentDefaults(master);
    var write := (id, r) => ExcellentWrite(id, IdeaCountOf(r), topics, data, n, f, m, co);
    DefaultsAvoidIdentity();
    WriteRows(master, write, base, ExcellentDefaults);
    assert forall k :: 0 <= k < |base| ==> IdeaCountOf(base[k] + ExcellentDefaults) == IdeaCountOf(base[k]);
  }

  /** The three default statements for one dimension in `add_detailed_scores`. */
  method SetDetailDefaults(master: MasterFrame, d: Dimension)
    requires master.Valid()
    modifies master
    ensures master.Valid()
    ensures master.columns == WithColumns(old(master.columns), DetailColumns(d))
    ensures |master.rows| == |old(master.rows)|
    ensures forall k :: 0 <= k < |master.rows| ==> master.rows[k] == old(master.rows[k]) + DetailDefaults(d)
  {
    ghost var c0, r0 := master.columns, master.rows;
    master.SetColumn(DetailMeanCol(d), RealVal(0.0));
    ghost var r1 := master.rows;
    master.SetColumn(DetailCountCol(d), IntVal(0));
    ghost var r2 := master.rows;
    master.SetColumn(DetailRatioCol(d), ZeroPercent);
    DetailDefaultsInThreeWrites(d, r0, r1, r2, master.rows);
    WithThreeColumns(c0, DetailMeanCol(d), DetailCountCol(d), DetailRatioCol(d));
  }

  /** The three single-column writes of a dimension's defaults amount to merging its defaults. */
  lemma DetailDefaultsInThreeWrites(d: Dimension, r0: seq<Row>, r1: seq<Row>, r2: seq<Row>, r3: seq<Row>)
    requires |r1| == |r0| && forall k :: 0 <= k < |r1| ==> r1[k] == r0[k][DetailMeanCol(d) := RealVal(0.0)]
    requires |r2| == |r1| && forall k :: 0 <= k < |r2| ==> r2[k] == r1[k][DetailCountCol(d) := IntVal(0)]
    requires |r3| == |r2| && forall k :: 0 <= k < |r3| ==> r3[k] == r2[k][DetailRatioCol(d) := ZeroPercent]
    ensures |r3| == |r0| && forall k :: 0 <= k < |r3| ==> r3[k] == r0[k] + DetailDefaults(d)
  {
    forall k | 0 <= k < |r0|
      ensures r3[k] == r0[k] + DetailDefaults(d)
    {
      Updates3(r0[k], DetailMeanCol(d), RealVal(0.0), DetailCountCol(d), IntVal(0), DetailRatioCol(d), ZeroPercent);
    }
  }

  /** The rows after the dimension loop's turn for `d`: each with that dimension's cells. */
  function DimensionRows(rows: seq<Row>, d: Dimension, topics: seq<TopicRow>, data: DataTable, n: string, f: string,
                         m: string, co: Coercions): (r: seq<Row>)
    requires AllIdentified(rows)
    ensures |r| == |rows| && AllIdentified(r)
    ensures forall k :: 0 <= k < |rows| ==> IdentityOf(r[k]) == IdentityOf(rows[k])
  {
    DefaultsAvoidIdentity();
    seq(|rows|, k requires 0 <= k < |rows| => rows[k] + DetailCells(d, IdentityOf(rows[k]), topics, data, n, f, m, co))
  }

  /** One iteration of the dimension loop of `add_detailed_scores`: the dimension's three columns
      get their defaults, then every row whose topic has member items and whose item data has the
      dimension's column gets its mean, its count of scores of at least 4 and their ratio. */
  method AddDimension(master: MasterFrame, d: Dimension, topics: seq<TopicRow>, data: DataTable,
                      n: string, f: string, m: string, co: Coercions)
    requires master.Valid()
    modifies master
    ensures master.Valid()
    ensures master.columns == WithColumns(old(master.columns), DetailColumns(d))
    ensures master.rows == DimensionRows(old(master.rows), d, topics, data, n, f, m, co)
  {
    ghost var base := master.rows;
    SetDetailDefaults(master, d);
    var write := (id, r) => DetailWrite(d, id, topics, data, n, f, m, co);
    DefaultsAvoidIdentity();
    WriteRows(master, write, base, DetailDefaults(d));
  }

  /** The rows after the dimension loop has run `count` times: each with the cells of the first
      `count` dimensions. */
  function DetailRowsUpTo(rows: seq<Row>, count: nat, topics: seq<TopicRow>, data: DataTable, n: string, f: string,
                          m: string, co: Coercions): (r: seq<Row>)
    requires AllIdentified(rows) && count <= |DimensionOrder|
    ensures |r| == |rows| && AllIdentified(r)
    ensures forall k :: 0 <= k < |rows| ==> IdentityOf(r[k]) == IdentityOf(rows[k])
  {
    seq(|rows|, k requires 0 <= k < |rows| => rows[k] + DetailCellsUpTo(count, IdentityOf(rows[k]), topics, data, n, f, m, co))
  }

  /** One more turn of the dimension loop adds the next dimension's cells. */
  lemma DimensionStep(rows: seq<Row>, i: nat, topics: seq<TopicRow>, data: DataTable, n: string, f: string,
                      m: string, co: Coercions)
    requires AllIdentified(rows) && i < |DimensionOrder|
    ensures DimensionRows(DetailRowsUpTo(rows, i, topics, data, n, f, m, co), DimensionOrder[i], topics, data, n, f, m, co)
            == DetailRowsUpTo(rows, i + 1, topics, data, n, f, m, co)
  {
    var before := DetailRowsUpTo(rows, i, topics, data, n, f, m, co);
    var after := DimensionRows(before, DimensionOrder[i], topics, data, n, f, m, co);
    forall k | 0 <= k < |rows|
      ensures after[k] == DetailRowsUpTo(rows, i + 1, topics, data, n, f, m, co)[k]
    {
      var id := IdentityOf(rows[k]);
      MergeAssoc(rows[k], DetailCellsUpTo(i, id, topics, data, n, f, m, co),
                 DetailCells(DimensionOrder[i], id, topics, data, n, f, m, co));
    }
  }

  /** Before the dimension loop's first turn the rows carry no detail cells. */
  lemma NoDimensionsYet(rows: seq<Row>, topics: seq<TopicRow>, data: DataTable, n: string, f: string, m: string,
                        co: Coercions)
    requires AllIdentified(rows)
    ensures DetailRowsUpTo(rows, 0, topics, data, n, f, m, co) == rows
  {
    assert forall k :: 0 <= k < |rows| ==> rows[k] + DetailCellsUpTo(0, IdentityOf(rows[k]), topics, data, n, f, m, co) == rows[k];
  }

  /** `add_detailed_scores`: the dimensions novelty, marketability and feasibility, in that order. */
  method AddDetailedScores(master: MasterFrame, topics: seq<TopicRow>, data: DataTable,
                           n: string, f: string, m: string, co: Coercions)
    requires master.Valid()
    modifies master
    ensures master.Valid()
    ensures master.columns == WithColumns(old(master.columns), DetailColumnsUpTo(|DimensionOrder|))
    ensures master.rows == DetailRowsUpTo(old(master.rows), |DimensionOrder|, topics, data, n, f, m, co)
  {
    ghost var base, c0 := master.rows, master.columns;
    NoDimensionsYet(base, topics, data, n, f, m, co);
    for i := 0 to |DimensionOrder|
      invariant master.Valid()
      invariant master.columns == WithColumns(c0, DetailColumnsUpTo(i))
      invariant master.rows == DetailRowsUpTo(base, i, topics, data, n, f, m, co)
    {
      AddDimension(master, DimensionOrder[i], topics, data, n, f, m, co);
      WithColumnsAppend(c0, DetailColumnsUpTo(i), DetailColumns(DimensionOrder[i]));
      DimensionStep(base, i, topics, data, n, f, m, co);
    }
  }

  /** A cell `v` under each of `cs`. */
  function ConstCells(cs: seq<Col>, v: Value): Row {
    map c | c in cs :: v
  }

  lemma ConstCellsSnoc(r: Row, cs: seq<Col>, c: Col, v: Value)
    ensures (r + ConstCells(cs, v))[c := v] == r + ConstCells(cs + [c], v)
  {
    assert forall x :: x in cs + [c] <==> x in cs || x == c;
  }

  /** Every row with `cells` merged over it. */
  function Merged(rows: seq<Row>, cells: Row): (r: seq<Row>)
    ensures |r| == |rows|
  {
    seq(|rows|, k requires 0 <= k < |rows| => rows[k] + cells)
  }

  lemma MergedNothing(rows: seq<Row>)
    ensures Merged(rows, map[]) == rows
  {
    assert forall k :: 0 <= k < |rows| ==> rows[k] + map[] == rows[k];
  }

  /** One more constant column written over rows that already hold the earlier ones. */
  lemma ConstRowsSnoc(base: seq<Row>, before: seq<Row>, after: seq<Row>, cs: seq<Col>, c: Col, v: Value)
    requires before == Merged(base, ConstCells(cs, v))
    requires |after| == |before| && forall k :: 0 <= k < |before| ==> after[k] == before[k][c := v]
    ensures after == Merged(base, ConstCells(cs + [c], v))
  {
    forall k | 0 <= k < |base|
      ensures after[k] == base[k] + ConstCells(cs + [c], v)
    {
      ConstCellsSnoc(base[k], cs, c, v);
    }
  }

  /** `for col in cols: df_master[col] = v`. */
  method SetColumns(master: MasterFrame, cols: seq<Col>, v: Value)
    requires master.Valid()
    requires DepthCol !in cols && BroadCol !in cols && MediumCol !in cols
    modifies master
    ensures master.Valid()
    ensures master.columns == WithColumns(old(master.columns), cols)
    ensures master.rows == Merged(old(master.rows), ConstCells(cols, v))
  {
    ghost var base, c0 := master.rows, master.columns;
    assert ConstCells(cols[..0], v) == map[];
    MergedNothing(base);
    for i := 0 to |cols|
      invariant master.Valid()
      invariant master.columns == WithColumns(c0, cols[..i])
      invariant master.rows == Merged(base, ConstCells(cols[..i], v))
    {
      ghost var before := master.rows;
      master.SetColumn(cols[i], v);
      assert cols[..i + 1] == cols[..i] + [cols[i]];
      WithColumnsSnoc(c0, cols[..i], cols[i]);
      ConstRowsSnoc(base, before, master.rows, cols[..i], cols[i], v);
    }
    assert cols[..|cols|] == cols;
  }

  /** The two default loops of `add_best_ideas` set its seven defaults. */
  lemma BestDefaultsInTwoLoops(base: seq<Row>, mid: seq<Row>, after: seq<Row>)
    requires mid == Merged(base, ConstCells(BestTextColumns, StrVal("")))
    requires after == Merged(mid, ConstCells(BestScoreColumns, RealVal(0.0)))
    ensures |after| == |base|
    ensures forall k :: 0 <= k < |base| ==> after[k] == base[k] + BestDefaults
  {
    var cells := ConstCells(BestTextColumns, StrVal("")) + ConstCells(BestScoreColumns, RealVal(0.0));
    assert cells == BestDefaults;
    forall k | 0 <= k < |base|
      ensures after[k] == base[k] + BestDefaults
    {
      MergeAssoc(base[k], ConstCells(BestTextColumns, StrVal("")), ConstCells(BestScoreColumns, RealVal(0.0)));
    }
  }

  lemma BestColumnsAvoidIdentity()
    ensures DepthCol !in BestTextColumns && BroadCol !in BestTextColumns && MediumCol !in BestTextColumns
    ensures DepthCol !in BestScoreColumns && BroadCol !in BestScoreColumns && MediumCol !in BestScoreColumns
  {
  }

  /** The two default loops at the start of `add_best_ideas`. */
  method SetBestDefaults(master: MasterFrame)
    requires master.Valid()
    modifies master
    ensures master.Valid()
    ensures master.columns == WithColumns(WithColumns(old(master.columns), BestTextColumns),
                                          BestScoreColumns)
    ensures |master.rows| == |old(master.rows)|
    ensures forall k :: 0 <= k < |master.rows| ==> master.rows[k] == old(master.rows[k]) + BestDefaults
  {
    ghost var base := master.rows;
    BestColumnsAvoidIdentity();
    SetColumns(master, BestTextColumns, StrVal(""));
    ghost var mid := master.rows;
    SetColumns(master, BestScoreColumns, RealVal(0.0));
    BestDefaultsInTwoLoops(base, mid, master.rows);
  }

  /** The rows after `add_best_ideas`, over item data carrying `total_score`: each with the
      fields and scores of its topic's first member of largest `total_score`. */
  function BestRows(rows: seq<Row>, topics: seq<TopicRow>, scored: DataTable, n: string, f: string, m: string,
                    co: Coercions): (r: seq<Row>)
    requires AllIdentified(rows)
    ensures |r| == |rows| && AllIdentified(r)
    ensures forall k :: 0 <= k < |rows| ==> IdentityOf(r[k]) == IdentityOf(rows[k])
  {
    DefaultsAvoidIdentity();
    seq(|rows|, k requires 0 <= k < |rows| =>
      var id := IdentityOf(rows[k]);
      rows[k] + BestCells(id, topics, scored, n, f, m, co, BestIndex(id, topics, scored, co)))
  }

  /** The per-row part of `add_best_ideas`, over the item data that already carries
      `total_score`. */
  method WriteBestIdeas(master: MasterFrame, topics: seq<TopicRow>, scored: DataTable,
                        n: string, f: string, m: string, co: Coercions)
    requires master.Valid()
    modifies master
    ensures master.Valid()
    ensures master.columns == WithColumns(WithColumns(old(master.columns), BestTextColumns), BestScoreColumns)
    ensures master.rows == BestRows(old(master.rows), topics, scored, n, f, m, co)
  {
    ghost var base := master.rows;
    SetBestDefaults(master);
    var write := (id, r) => BestWrite(id, topics, scored, n, f, m, co, BestIndex(id, topics, scored, co));
    DefaultsAvoidIdentity();
    WriteRows(master, write, base, BestDefaults);
  }

  /** `add_best_ideas`: the item data gets `total_score`; then every row whose topic has member
      items gets the text fields and scores of its first member with the largest `total_score`.
      When a score column is missing the source raises before writing anything: `ok` is false and
      neither table changes. */
  method AddBestIdeas(master: MasterFrame, data: ItemData, topics: seq<TopicRow>,
                      n: string, f: string, m: string, co: Coercions) returns (ok: bool)
    requires master.Valid()
    modifies master, data
    ensures ok <==> ScoresPresent(old(data.Table()).columns, n, f, m)
    ensures master.Valid()
    ensures ok ==> data.Table() == WithTotals(old(data.Table()), n, f, m, co)
    ensures ok ==> master.columns == WithColumns(WithColumns(old(master.columns), BestTextColumns), BestScoreColumns)
    ensures ok ==> master.rows == BestRows(old(master.rows), topics, data.Table(), n, f, m, co)
    ensures !ok ==> data.Table() == old(data.Table())
    ensures !ok ==> master.columns == old(master.columns) && master.rows == old(master.rows)
  {
    ok := data.AddTotalScore(n, f, m, co);
    if ok {
      WriteBestIdeas(master, topics, data.Table(), n, f, m, co);
    }
  }
}
