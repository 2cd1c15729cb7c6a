/**
 * `prepare_master_dataframe` of nomic_module.py: the six passes run in order over a fresh
 * report, and what they build together, column by column and row by row.
 */
module Pipeline {
  import opened Wrappers
  import opened Tables
  import opened ReportSpec
  import opened Master

  // Each pass's columns are new when it runs, so each lands after the earlier ones.

  lemma AverageColumnsAppended(c: seq<Col>)
    requires c == BaseColumns + [ItemCountCol]
    ensures WithColumns(c, AverageColumns) == c + AverageColumns
  {
    WithColumnsFresh(c, AverageColumns);
  }

  lemma ExcellentColumnsAppended(c: seq<Col>)
    requires c == BaseColumns + [ItemCountCol] + AverageColumns
    ensures WithColumns(c, ExcellentColumns) == c + ExcellentColumns
  {
    WithColumnsFresh(c, ExcellentColumns);
  }

  lemma NoveltyColumnsAppended(c: seq<Col>)
    requires c == BaseColumns + [ItemCountCol] + AverageColumns + ExcellentColumns
    ensures WithColumns(c, DetailColumns(Novelty)) == c + DetailColumns(Novelty)
  {
    WithColumnsFresh(c, DetailColumns(Novelty));
  }

  lemma MarketabilityColumnsAppended(c: seq<Col>)
    requires c == BaseColumns + [ItemCountCol] + AverageColumns + ExcellentColumns + DetailColumns(Novelty)
    ensures WithColumns(c, DetailColumns(Marketability)) == c + DetailColumns(Marketability)
  {
    WithColumnsFresh(c, DetailColumns(Marketability));
  }

  lemma FeasibilityColumnsAppended(c: seq<Col>)
    requires c == BaseColumns + [ItemCountCol] + AverageColumns + ExcellentColumns + DetailColumns(Novelty)
                  + DetailColumns(Marketability)
    ensures WithColumns(c, DetailColumns(Feasibility)) == c + DetailColumns(Feasibility)
  {
    WithColumnsFresh(c, DetailColumns(Feasibility));
  }

  lemma DetailColumnsAreDetails()
    ensures forall x :: x in DetailColumnsUpTo(|DimensionOrder|) ==> x.DetailMeanCol? || x.DetailCountCol? || x.DetailRatioCol?
  {
    assert DetailColumnsUpTo(1) == DetailColumns(Novelty);
    assert DetailColumnsUpTo(2) == DetailColumnsUpTo(1) + DetailColumns(Marketability);
    assert DetailColumnsUpTo(3) == DetailColumnsUpTo(2) + DetailColumns(Feasibility);
  }

  lemma DetailColumnsAppended(c: seq<Col>)
    requires c == BaseColumns + [ItemCountCol] + AverageColumns + ExcellentColumns
    ensures WithColumns(c, DetailColumnsUpTo(|DimensionOrder|)) == c + DetailColumnsUpTo(|DimensionOrder|)
  {
    var dn, dm, df := DetailColumns(Novelty), DetailColumns(Marketability), DetailColumns(Feasibility);
    var u1, u2, u3 := DetailColumnsUpTo(1), DetailColumnsUpTo(2), DetailColumnsUpTo(3);
    assert u1 == dn;
    assert u2 == u1 + dm;
    assert u3 == u2 + df;
    NoveltyColumnsAppended(c);
    assert WithColumns(c, u1) == c + dn;
    WithColumnsAppend(c, u1, dm);
    MarketabilityColumnsAppended(c + dn);
    assert WithColumns(c, u2) == c + dn + dm;
    WithColumnsAppend(c, u2, df);
    FeasibilityColumnsAppended(c + dn + dm);
    assert WithColumns(c, u3) == c + dn + dm + df;
    AppendAssoc(c, dn, dm);
    AppendAssoc(c, u2, df);
  }

  lemma BestTextColumnsAppended(c: seq<Col>)
    requires c == BaseColumns + [ItemCountCol] + AverageColumns + ExcellentColumns + DetailColumnsUpTo(|DimensionOrder|)
    ensures WithColumns(c, BestTextColumns) == c + BestTextColumns
  {
    DetailColumnsAreDetails();
    WithColumnsFresh(c, BestTextColumns);
  }

  lemma BestScoreColumnsAppended(c: seq<Col>)
    requires c == BaseColumns + [ItemCountCol] + AverageColumns + ExcellentColumns + DetailColumnsUpTo(|DimensionOrder|)
                  + BestTextColumns
    ensures WithColumns(c, BestScoreColumns) == c + BestScoreColumns
  {
    DetailColumnsAreDetails();
    WithColumnsFresh(c, BestScoreColumns);
  }

  /** The passes, in the order `prepare_master_dataframe` runs them, lay the columns out as the
      report's column list. */
  lemma ReportColumnsInOrder()
    ensures WithColumns(WithColumns(WithColumns(WithColumns(WithColumns(WithColumn(BaseColumns, ItemCountCol),
              AverageColumns), ExcellentColumns), DetailColumnsUpTo(|DimensionOrder|)),
              BestTextColumns), BestScoreColumns)
            == ReportColumns()
  {
    var c1 := BaseColumns + [ItemCountCol];
    var w1 := WithColumn(BaseColumns, ItemCountCol);
    assert w1 == c1;
    AverageColumnsAppended(c1);
    var c2 := c1 + AverageColumns;
    var w2 := WithColumns(w1, AverageColumns);
    assert w2 == c2;
    ExcellentColumnsAppended(c2);
    var c3 := c2 + ExcellentColumns;
    var w3 := WithColumns(w2, ExcellentColumns);
    assert w3 == c3;
    DetailColumnsAppended(c3);
    var c4 := c3 + DetailColumnsUpTo(|DimensionOrder|);
    var w4 := WithColumns(w3, DetailColumnsUpTo(|DimensionOrder|));
    assert w4 == c4;
    BestTextColumnsAppended(c4);
    var c5 := c4 + BestTextColumns;
    var w5 := WithColumns(w4, BestTextColumns);
    assert w5 == c5;
    BestScoreColumnsAppended(c5);
    assert WithColumns(w5, BestScoreColumns) == c5 + BestScoreColumns;
    AppendAssoc(c4, BestTextColumns, BestScoreColumns);
  }

  /** The rows of the finished report, one per metadata row, each best idea the first member of
      largest `total_score`. */
  function ReportRows(meta: seq<MetaRow>, topics: seq<TopicRow>, data: DataTable, n: string, f: string, m: string,
                      co: Coercions): (r: seq<Row>)
    ensures |r| == |meta|
  {
    seq(|meta|, k requires 0 <= k < |meta| =>
      var id := Identity(meta[k].depth, meta[k].broad, meta[k].medium);
      ReportRow(meta[k], topics, data, n, f, m, co, BestIndex(id, topics, WithTotals(data, n, f, m, co), co)))
  }

  /** One report row as the four scoring passes leave it. */
  lemma ScoringStages(meta: MetaRow, topics: seq<TopicRow>, data: DataTable, n: string, f: string, m: string,
                      co: Coercions, r1: Row, r2: Row, r3: Row, r4: Row)
    requires r1 == BaseRow(meta) + ItemCountCells(IdentityOf(BaseRow(meta)), topics)
    requires HasIdentity(r1) && r2 == r1 + AverageCells(IdentityOf(r1), topics, data, n, f, m, co)
    requires HasIdentity(r2) && r3 == r2 + ExcellentCells(IdentityOf(r2), IdeaCountOf(r2), topics, data, n, f, m, co)
    requires HasIdentity(r3) && r4 == r3 + AllDetailCells(IdentityOf(r3), topics, data, n, f, m, co)
    ensures r4 == ScoredReportRow(meta, topics, data, n, f, m, co)
  {
    var id := Identity(meta.depth, meta.broad, meta.medium);
    var base := BaseRow(meta);
    var ic := ItemCountCells(id, topics);
    var av := AverageCells(id, topics, data, n, f, m, co);
    var ex := ExcellentCells(id, ItemCount(topics, id), topics, data, n, f, m, co);
    var de := AllDetailCells(id, topics, data, n, f, m, co);
    DefaultsAvoidIdentity();
    KeepsIdentity(base, ic);
    KeepsIdentity(r1, av);
    assert ItemCountCol !in av;
    assert r1 == base + ic;
    assert ic[ItemCountCol] == IntVal(ItemCount(topics, id));
    assert r1[ItemCountCol] == ic[ItemCountCol];
    assert r2[ItemCountCol] == r1[ItemCountCol];
    KeepsIdentity(r2, ex);
    MergeAssoc(base, ic, av);
    MergeAssoc(base, ic + av, ex);
    MergeAssoc(base, ic + av + ex, de);
  }

  // Row k of each pass's result, one lemma per pass so that each is taken from a small context.

  lemma BaseRowAt(meta: seq<MetaRow>, k: int)
    requires 0 <= k < |meta|
    ensures BaseRows(meta)[k] == BaseRow(meta[k])
  {
  }

  lemma ItemCountRowAt(rows: seq<Row>, topics: seq<TopicRow>, k: int)
    requires AllIdentified(rows) && 0 <= k < |rows|
    ensures ItemCountRows(rows, topics)[k] == rows[k] + ItemCountCells(IdentityOf(rows[k]), topics)
  {
  }

  lemma AverageRowAt(rows: seq<Row>, topics: seq<TopicRow>, data: DataTable, n: string, f: string, m: string,
                     co: Coercions, k: int)
    requires AllIdentified(rows) && 0 <= k < |rows|
    ensures AverageRows(rows, topics, data, n, f, m, co)[k]
            == rows[k] + AverageCells(IdentityOf(rows[k]), topics, data, n, f, m, co)
  {
  }

  lemma ExcellentRowAt(rows: seq<Row>, topics: seq<TopicRow>, data: DataTable, n: string, f: string, m: string,
                       co: Coercions, k: int)
    requires AllIdentified(rows) && 0 <= k < |rows|
    ensures ExcellentRows(rows, topics, data, n, f, m, co)[k]
            == rows[k] + ExcellentCells(IdentityOf(rows[k]), IdeaCountOf(rows[k]), topics, data, n, f, m, co)
  {
  }

  lemma DetailRowAt(rows: seq<Row>, topics: seq<TopicRow>, data: DataTable, n: string, f: string, m: string,
                    co: Coercions, k: int)
    requires AllIdentified(rows) && 0 <= k < |rows|
    ensures DetailRowsUpTo(rows, |DimensionOrder|, topics, data, n, f, m, co)[k]
            == rows[k] + AllDetailCells(IdentityOf(rows[k]), topics, data, n, f, m, co)
  {
  }

  lemma BestRowAt(rows: seq<Row>, topics: seq<TopicRow>, scored: DataTable, n: string, f: string, m: string,
                  co: Coercions, k: int)
    requires AllIdentified(rows) && 0 <= k < |rows|
    ensures var id := IdentityOf(rows[k]);
            BestRows(rows, topics, scored, n, f, m, co)[k]
            == rows[k] + BestCells(id, topics, scored, n, f, m, co, BestIndex(id, topics, scored, co))
  {
  }

  /** The report rows the six passes build, in the order `prepare_master_dataframe` runs them. */
  function PassRows(meta: seq<MetaRow>, topics: seq<TopicRow>, data: DataTable, n: string, f: string,
                    m: string, co: Coercions): seq<Row>
  {
    var r1 := ItemCountRows(BaseRows(meta), topics);
    var r2 := AverageRows(r1, topics, data, n, f, m, co);
    var r3 := ExcellentRows(r2, topics, data, n, f, m, co);
    var r4 := DetailRowsUpTo(r3, |DimensionOrder|, topics, data, n, f, m, co);
    BestRows(r4, topics, WithTotals(data, n, f, m, co), n, f, m, co)
  }

  /** Row k of what the passes build is the report row of metadata row k. */
  lemma PassRowAt(meta: seq<MetaRow>, topics: seq<TopicRow>, data: DataTable, n: string, f: string,
                  m: string, co: Coercions, k: int)
    requires 0 <= k < |meta|
    ensures |PassRows(meta, topics, data, n, f, m, co)| == |meta|
    ensures PassRows(meta, topics, data, n, f, m, co)[k] == ReportRows(meta, topics, data, n, f, m, co)[k]
  {
    var id := Identity(meta[k].depth, meta[k].broad, meta[k].medium);
    var r0 := BaseRows(meta);
    var r1 := ItemCountRows(r0, topics);
    var r2 := AverageRows(r1, topics, data, n, f, m, co);
    var r3 := ExcellentRows(r2, topics, data, n, f, m, co);
    var r4 := DetailRowsUpTo(r3, |DimensionOrder|, topics, data, n, f, m, co);
    var scored := WithTotals(data, n, f, m, co);
    BaseRowAt(meta, k);
    ItemCountRowAt(r0, topics, k);
    AverageRowAt(r1, topics, data, n, f, m, co, k);
    ExcellentRowAt(r2, topics, data, n, f, m, co, k);
    DetailRowAt(r3, topics, data, n, f, m, co, k);
    BestRowAt(r4, topics, scored, n, f, m, co, k);
    ScoringStages(meta[k], topics, data, n, f, m, co, r1[k], r2[k], r3[k], r4[k]);
  }

  /** The passes in the order `prepare_master_dataframe` runs them build the report rows. */
  lemma PassesBuildReportRows(meta: seq<MetaRow>, topics: seq<TopicRow>, data: DataTable, n: string, f: string,
                              m: string, co: Coercions)
    ensures PassRows(meta, topics, data, n, f, m, co) == ReportRows(meta, topics, data, n, f, m, co)
  {
    forall k | 0 <= k < |meta|
      ensures PassRows(meta, topics, data, n, f, m, co)[k] == ReportRows(meta, topics, data, n, f, m, co)[k]
    {
      PassRowAt(meta, topics, data, n, f, m, co, k);
    }
  }

  /** The item counts the first pass stores are still integers when the excellent-ideas pass
      reads them. */
  lemma ItemCountsKept(rows: seq<Row>, topics: seq<TopicRow>, data: DataTable, n: string, f: string, m: string,
                       co: Coercions)
    requires AllIdentified(rows)
    ensures var r := AverageRows(ItemCountRows(rows, topics), topics, data, n, f, m, co);
            forall k :: 0 <= k < |r| ==> ItemCountCol in r[k] && r[k][ItemCountCol].IntVal?
  {
    DefaultsAvoidIdentity();
  }

  /** `prepare_master_dataframe`: the report built by the six passes in order, from the item data
      before the best-idea pass adds `total_score` to it. When one of the score columns `n`, `f`,
      `m` is not an item column the best-idea pass raises, no frame is returned and the item data
      is left as it was. */
  method PrepareMaster(meta: seq<MetaRow>, topics: seq<TopicRow>, data: ItemData,
                       n: string, f: string, m: string, co: Coercions) returns (r: Result<MasterFrame>)
    modifies data
    ensures r.Success? <==> ScoresPresent(old(data.Table()).columns, n, f, m)
    ensures r.Failure? ==> r.message == MissingScoreMessage && data.Table() == old(data.Table())
    ensures r.Success? ==> fresh(r.value) && r.value.Valid()
    ensures r.Success? ==> data.Table() == WithTotals(old(data.Table()), n, f, m, co)
    ensures r.Success? ==> r.value.columns == ReportColumns()
    ensures r.Success? ==> r.value.rows == ReportRows(meta, topics, old(data.Table()), n, f, m, co)
  {
    var t := data.Table();
    var master := new MasterFrame(meta);
    AddItemCount(master, topics);
    AddAverageScores(master, topics, t, n, f, m, co);
    ItemCountsKept(BaseRows(meta), topics, t, n, f, m, co);
    AddExcellentIdeas(master, topics, t, n, f, m, co);
    AddDetailedScores(master, topics, t, n, f, m, co);
    assert data.Table() == t;
    var ok := AddBestIdeas(master, data, topics, n, f, m, co);
    if !ok {
      return Failure(MissingScoreMessage);
    }
    ReportColumnsInOrder();
    PassesBuildReportRows(meta, topics, t, n, f, m, co);
    r := Success(master);
  }
}
