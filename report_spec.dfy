/**
 * What each pass of the topic report (nomic_module.py) writes into one report row: its columns,
 * their defaults, and the values computed from the topic's member items. The in-place passes
 * over the whole report are in master.dfy; the properties of the report are stated here, on
 * these per-row values.
 */
module ReportSpec {
  import opened Wrappers
  import opened Tables

  /** One cell of the report. `PercentVal(p)` is the text `f"{round(p, 1)}%"`; means are kept
      exact (the two-decimal rounding is not modelled); `NaNVal` is a float NaN. */
  datatype Value = IntVal(i: int) | RealVal(r: real) | StrVal(s: string) | PercentVal(p: real) | NaNVal

  /** The report's columns. Their header texts are `Name`; keeping the columns as constructors
      makes two different columns different without comparing their texts. */
  datatype Col =
    | DepthCol | TopicIdCol | BroadCol | MediumCol | KeywordCol
    | ItemCountCol
    | AverageCol | NoveltyAverageCol | MarketAverageCol | FeasibilityAverageCol
    | ExcellentCountCol | ExcellentRatioCol
    | DetailMeanCol(d: Dimension) | DetailCountCol(d: Dimension) | DetailRatioCol(d: Dimension)
    | TitleCol | SummaryCol | CategoryCol | BestTotalCol | BestNoveltyCol | BestMarketCol | BestFeasibilityCol

  /** One report row: column to cell. */
  type Row = map<Col, Value>

  const ZeroPercent: Value := StrVal("0%")

  /** The three score dimensions of the detail pass, in the order it emits them. */
  datatype Dimension = Novelty | Marketability | Feasibility

  const DimensionOrder: seq<Dimension> := [Novelty, Marketability, Feasibility]

  function Key(d: Dimension): string {
    match d
    case Novelty => "novelty_score"
    case Marketability => "marketability_score"
    case Feasibility => "feasibility_score"
  }

  function Label(d: Dimension): string {
    match d
    case Novelty => "新規性"
    case Marketability => "市場性"
    case Feasibility => "実現可能性"
  }

  /** The item column a dimension reads: the novelty argument, the market argument `m`, the
      feasibility argument `f`. */
  function ScoreColumn(d: Dimension, n: string, f: string, m: string): string {
    match d
    case Novelty => n
    case Marketability => m
    case Feasibility => f
  }

  /** The header text of each column; a detail column is named after its dimension's key and label. */
  function Name(c: Col): string {
    match c
    case DepthCol => "depth"
    case TopicIdCol => "topic_id"
    case BroadCol => "Nomic Topic: Broad"
    case MediumCol => "Nomic Topic: Medium"
    case KeywordCol => "キーワード"
    case ItemCountCol => "アイデア数"
    case AverageCol => "平均スコア"
    case NoveltyAverageCol => "新規性平均スコア"
    case MarketAverageCol => "市場性平均スコア"
    case FeasibilityAverageCol => "実現性平均スコア"
    case ExcellentCountCol => "優秀アイデア数(12点以上)"
    case ExcellentRatioCol => "優秀アイデアの比率(12点以上)"
    case DetailMeanCol(d) => Key(d) + "(" + Label(d) + ")\n平均スコア"
    case DetailCountCol(d) => Key(d) + "(" + Label(d) + ")\n優秀アイデア数(4点以上)"
    case DetailRatioCol(d) => Key(d) + "(" + Label(d) + ")\n優秀アイデア比率(4点以上)"
    case TitleCol => "アイデア名"
    case SummaryCol => "Summary"
    case CategoryCol => "カテゴリー"
    case BestTotalCol => "合計スコア"
    case BestNoveltyCol => "新規性スコア"
    case BestMarketCol => "市場性スコア"
    case BestFeasibilityCol => "実現性スコア"
  }

  const BaseColumns: seq<Col> := [DepthCol, TopicIdCol, BroadCol, MediumCol, KeywordCol]
  const AverageColumns: seq<Col> := [AverageCol, NoveltyAverageCol, MarketAverageCol, FeasibilityAverageCol]
  const ExcellentColumns: seq<Col> := [ExcellentCountCol, ExcellentRatioCol]
  const BestTextColumns: seq<Col> := [TitleCol, SummaryCol, CategoryCol]
  const BestScoreColumns: seq<Col> := [BestTotalCol, BestNoveltyCol, BestMarketCol, BestFeasibilityCol]
  const BestColumns: seq<Col> := BestTextColumns + BestScoreColumns

  function DetailColumns(d: Dimension): seq<Col> {
    [DetailMeanCol(d), DetailCountCol(d), DetailRatioCol(d)]
  }

  /** Every column of the finished report, in order. */
  function ReportColumns(): seq<Col> {
    BaseColumns + [ItemCountCol] + AverageColumns + ExcellentColumns
    + DetailColumnsUpTo(|DimensionOrder|) + BestColumns
  }

  // ---- The base row ----

  /** The row carries the three text fields the depth rule reads. */
  predicate HasIdentity(r: Row) {
    DepthCol in r && r[DepthCol].StrVal? && BroadCol in r && r[BroadCol].StrVal?
    && MediumCol in r && r[MediumCol].StrVal?
  }

  function IdentityOf(r: Row): Identity
    requires HasIdentity(r)
  {
    Identity(r[DepthCol].s, r[BroadCol].s, r[MediumCol].s)
  }

  /** `create_master_dataframe`, one row: the five metadata fields as text, under the report's
      names; `topic_depth_1` becomes the Broad label and `topic_depth_2` the Medium label. */
  function BaseRow(meta: MetaRow): (r: Row)
    ensures r.Keys == set c | c in BaseColumns
    ensures HasIdentity(r) && IdentityOf(r) == Identity(meta.depth, meta.broad, meta.medium)
    ensures r[TopicIdCol] == StrVal(meta.topicId) && r[KeywordCol] == StrVal(meta.description)
  {
    map[DepthCol := StrVal(meta.depth), TopicIdCol := StrVal(meta.topicId), BroadCol := StrVal(meta.broad),
        MediumCol := StrVal(meta.medium), KeywordCol := StrVal(meta.description)]
  }

  // ---- What each pass writes ----

  /** A pass leaves a row at its defaults when the depth is unknown or the topic has no item rows. */
  predicate Skipped(id: Identity, sub: DataTable) {
    !KnownDepth(id) || sub.rows == []
  }

  /** `add_item_count`: every row gets the count, 0 for an unknown depth. */
  function ItemCountCells(id: Identity, topics: seq<TopicRow>): Row {
    map[ItemCountCol := IntVal(ItemCount(topics, id))]
  }

  const AverageDefaults: Row :=
    map[AverageCol := RealVal(0.0), NoveltyAverageCol := RealVal(0.0), MarketAverageCol := RealVal(0.0),
        FeasibilityAverageCol := RealVal(0.0)]

  /** `add_average_scores`, one row: nothing when it skips the row, otherwise the means of
      `a + b + c`, `a`, `c` and `b` over the member items, where `a`, `b`, `c` are the coerced
      `n`, `f`, `m` columns. */
  function AverageWrite(id: Identity, topics: seq<TopicRow>, data: DataTable, n: string, f: string, m: string,
                        co: Coercions): (w: Option<Row>)
    ensures w.None? <==> Skipped(id, Members(data, topics, id))
    ensures w.Some? ==> w.value.Keys == AverageDefaults.Keys
  {
    var sub := Members(data, topics, id);
    if Skipped(id, sub) then None
    else
      var a := NumCol(sub, n, co);
      var b := NumCol(sub, f, co);
      var c := NumCol(sub, m, co);
      Some(map[AverageCol := RealVal(Mean(Add(Add(a, b), c))), NoveltyAverageCol := RealVal(Mean(a)),
               MarketAverageCol := RealVal(Mean(c)), FeasibilityAverageCol := RealVal(Mean(b))])
  }

  /** The pass's cells of a row: what it writes, or the defaults; four real means either way. */
  function AverageCells(id: Identity, topics: seq<TopicRow>, data: DataTable, n: string, f: string, m: string,
                        co: Coercions): (r: Row)
    ensures r.Keys == AverageDefaults.Keys
    ensures r[AverageCol].RealVal? && r[NoveltyAverageCol].RealVal? && r[MarketAverageCol].RealVal?
            && r[FeasibilityAverageCol].RealVal?
  {
    AverageWrite(id, topics, data, n, f, m, co).GetOr(AverageDefaults)
  }

  const ExcellentDefaults: Row := map[ExcellentCountCol := IntVal(0), ExcellentRatioCol := ZeroPercent]

  /** `add_excellent_ideas`, one row: nothing when it skips the row, otherwise how many member
      items have a combined score of at least 12, and that count as a percentage of the row's
      item count (`"0%"` when the item count is not positive). */
  function ExcellentWrite(id: Identity, ideaCount: int, topics: seq<TopicRow>, data: DataTable,
                          n: string, f: string, m: string, co: Coercions): (w: Option<Row>)
    ensures w.None? <==> Skipped(id, Members(data, topics, id))
    ensures w.Some? ==> w.value.Keys == ExcellentDefaults.Keys
  {
    var sub := Members(data, topics, id);
    if Skipped(id, sub) then None
    else
      var e := CountAtLeast(Totals(sub, n, f, m, co), 12.0);
      Some(map[ExcellentCountCol := IntVal(e),
               ExcellentRatioCol := if ideaCount > 0 then PercentVal(e as real / ideaCount as real * 100.0) else ZeroPercent])
  }

  /** The pass's cells of a row: an integer count and a ratio text. */
  function ExcellentCells(id: Identity, ideaCount: int, topics: seq<TopicRow>, data: DataTable,
                          n: string, f: string, m: string, co: Coercions): (r: Row)
    ensures r.Keys == ExcellentDefaults.Keys
    ensures r[ExcellentCountCol].IntVal? && (r[ExcellentRatioCol] == ZeroPercent || r[ExcellentRatioCol].PercentVal?)
  {
    ExcellentWrite(id, ideaCount, topics, data, n, f, m, co).GetOr(ExcellentDefaults)
  }

  function DetailDefaults(d: Dimension): Row {
    map[DetailMeanCol(d) := RealVal(0.0), DetailCountCol(d) := IntVal(0), DetailRatioCol(d) := ZeroPercent]
  }

  /** `add_detailed_scores`, one dimension and one row: nothing when it skips the row, which it
      also does when the item data has no such column; otherwise the mean of the dimension's
      coerced column over the member items, how many reach 4, and that count as a percentage of
      the members. */
  function DetailWrite(d: Dimension, id: Identity, topics: seq<TopicRow>, data: DataTable,
                       n: string, f: string, m: string, co: Coercions): (w: Option<Row>)
    ensures w.None? <==> Skipped(id, Members(data, topics, id)) || ScoreColumn(d, n, f, m) !in data.columns
    ensures w.Some? ==> w.value.Keys == DetailDefaults(d).Keys
  {
    var sub := Members(data, topics, id);
    var col := ScoreColumn(d, n, f, m);
    if Skipped(id, sub) || col !in sub.columns then None
    else
      var s := NumCol(sub, col, co);
      var e := CountAtLeast(s, 4.0);
      Some(map[DetailMeanCol(d) := RealVal(Mean(s)), DetailCountCol(d) := IntVal(e),
               DetailRatioCol(d) := if |s| > 0 then PercentVal(e as real / |s| as real * 100.0) else ZeroPercent])
  }

  /** The pass's cells of a row for one dimension: a real mean, an integer count, a ratio text. */
  function DetailCells(d: Dimension, id: Identity, topics: seq<TopicRow>, data: DataTable,
                       n: string, f: string, m: string, co: Coercions): (r: Row)
    ensures r.Keys == DetailDefaults(d).Keys
    ensures r[DetailMeanCol(d)].RealVal? && r[DetailCountCol(d)].IntVal?
            && (r[DetailRatioCol(d)] == ZeroPercent || r[DetailRatioCol(d)].PercentVal?)
  {
    DetailWrite(d, id, topics, data, n, f, m, co).GetOr(DetailDefaults(d))
  }

  /** The columns of the first `count` dimensions, in emission order. */
  function DetailColumnsUpTo(count: nat): seq<Col>
    requires count <= |DimensionOrder|
  {
    if count == 0 then [] else DetailColumnsUpTo(count - 1) + DetailColumns(DimensionOrder[count - 1])
  }

  /** The cells of the first `count` dimensions; none of them is an identity field. */
  function DetailCellsUpTo(count: nat, id: Identity, topics: seq<TopicRow>, data: DataTable,
                           n: string, f: string, m: string, co: Coercions): (r: Row)
    requires count <= |DimensionOrder|
    ensures DepthCol !in r && BroadCol !in r && MediumCol !in r
  {
    if count == 0 then map[]
    else
      DefaultsAvoidIdentity();
      DetailCellsUpTo(count - 1, id, topics, data, n, f, m, co) + DetailCells(DimensionOrder[count - 1], id, topics, data, n, f, m, co)
  }

  /** The three dimensions' cells, in emission order. */
  function AllDetailCells(id: Identity, topics: seq<TopicRow>, data: DataTable, n: string, f: string, m: string,
                          co: Coercions): Row
  {
    DetailCellsUpTo(|DimensionOrder|, id, topics, data, n, f, m, co)
  }

  // ---- The best idea ----

  const TitleCandidates: seq<string> := ["title", "タイトル", "idea_title", "name", "document_title", "node_title"]
  const SummaryCandidates: seq<string> := ["summary", "要約", "概要", "説明", "content_summary", "description"]
  const CategoryCandidates: seq<string> := ["category", "カテゴリー", "カテゴリ", "アイデアカテゴリー", "タグ", "label"]

  /** The text columns the best-idea pass copies, each the first candidate the item data has. */
  datatype TextColumns = TextColumns(title: Option<string>, summary: Option<string>, category: Option<string>)

  function FindTextColumns(columns: seq<string>): TextColumns {
    TextColumns(FirstExistingCol(columns, TitleCandidates), FirstExistingCol(columns, SummaryCandidates),
                FirstExistingCol(columns, CategoryCandidates))
  }

  /** `str(best[col]) if col else ""`. */
  function TextOf(r: DataRow, col: Option<string>, co: Coercions): string {
    match col
    case None => ""
    case Some(c) => co.show(Get(r, c))
  }

  /** `float(pd.to_numeric(best.get(col, 0), errors="coerce"))`: 0.0 when the column is absent,
      NaN when the value does not convert. */
  function ScoreCell(r: DataRow, col: string, columns: seq<string>, co: Coercions): Value {
    if col !in columns then RealVal(0.0)
    else match ToNumeric(Get(r, col), co)
      case Some(v) => RealVal(v)
      case None => NaNVal
  }

  /** The member's stored combined score, the key of the descending sort. */
  function TotalKeys(sub: DataTable, co: Coercions): (s: seq<real>)
    ensures |s| == |sub.rows|
  {
    NumCol(sub, TotalScoreCol, co)
  }

  /** Which member the pass copies: none (-1) when it skips the row, otherwise a member whose
      combined score is at least every other member's. Equal scores leave the choice open. */
  predicate BestChoice(id: Identity, topics: seq<TopicRow>, scored: DataTable, co: Coercions, k: int) {
    var sub := Members(scored, topics, id);
    if Skipped(id, sub) then k == -1
    else 0 <= k < |sub.rows| && forall j :: 0 <= j < |sub.rows| ==> TotalKeys(sub, co)[j] <= TotalKeys(sub, co)[k]
  }

  /** The position of a largest value (the first of equal largest ones), -1 for no values; one
      maximal choice of the descending sort's first row. */
  function ArgMax(s: seq<real>): (k: int)
    ensures s == [] ==> k == -1
    ensures s != [] ==> 0 <= k < |s| && forall j :: 0 <= j < |s| ==> s[j] <= s[k]
  {
    if |s| <= 1 then |s| - 1
    else
      var k := ArgMax(s[..|s| - 1]);
      assert forall j :: 0 <= j < |s| - 1 ==> s[..|s| - 1][j] == s[j];
      if s[|s| - 1] > s[k] then |s| - 1 else k
  }

  /** The member the model's best-idea pass copies for a row. */
  function BestIndex(id: Identity, topics: seq<TopicRow>, scored: DataTable, co: Coercions): (k: int)
    ensures BestChoice(id, topics, scored, co, k)
  {
    var sub := Members(scored, topics, id);
    if Skipped(id, sub) then -1 else ArgMax(TotalKeys(sub, co))
  }

  const BestDefaults: Row :=
    map[TitleCol := StrVal(""), SummaryCol := StrVal(""), CategoryCol := StrVal(""), BestTotalCol := RealVal(0.0),
        BestNoveltyCol := RealVal(0.0), BestMarketCol := RealVal(0.0), BestFeasibilityCol := RealVal(0.0)]

  /** `add_best_ideas`, one row: nothing when it skips the row, otherwise the text fields and
      scores of member `k` of the scored item data. */
  function BestWrite(id: Identity, topics: seq<TopicRow>, scored: DataTable, n: string, f: string, m: string,
                     co: Coercions, k: int): (w: Option<Row>)
    ensures w.None? <==> Skipped(id, Members(scored, topics, id)) || !(0 <= k < |Members(scored, topics, id).rows|)
    ensures w.Some? ==> w.value.Keys == BestDefaults.Keys
  {
    var sub := Members(scored, topics, id);
    if Skipped(id, sub) || !(0 <= k < |sub.rows|) then None
    else
      var best := sub.rows[k];
      var tc := FindTextColumns(scored.columns);
      Some(map[TitleCol := StrVal(TextOf(best, tc.title, co)), SummaryCol := StrVal(TextOf(best, tc.summary, co)),
               CategoryCol := StrVal(TextOf(best, tc.category, co)),
               BestTotalCol := ScoreCell(best, TotalScoreCol, sub.columns, co),
               BestNoveltyCol := ScoreCell(best, n, sub.columns, co), BestMarketCol := ScoreCell(best, m, sub.columns, co),
               BestFeasibilityCol := ScoreCell(best, f, sub.columns, co)])
  }

  /** The pass's cells of a row: three texts, then the four scores, each a real or NaN. */
  function BestCells(id: Identity, topics: seq<TopicRow>, scored: DataTable, n: string, f: string, m: string,
                     co: Coercions, k: int): (r: Row)
    ensures r.Keys == BestDefaults.Keys
    ensures r[TitleCol].StrVal? && r[SummaryCol].StrVal? && r[CategoryCol].StrVal?
    ensures forall c :: c in BestScoreColumns ==>
              r[c].RealVal? || r[c].NaNVal?
  {
    BestWrite(id, topics, scored, n, f, m, co, k).GetOr(BestDefaults)
  }

  /** No pass writes the three identity fields the depth rule reads, and the excellent-ideas
      pass leaves the item count it reads alone. */
  lemma DefaultsAvoidIdentity()
    ensures DepthCol !in AverageDefaults && BroadCol !in AverageDefaults && MediumCol !in AverageDefaults
    ensures DepthCol !in ExcellentDefaults && BroadCol !in ExcellentDefaults && MediumCol !in ExcellentDefaults
    ensures ItemCountCol !in AverageDefaults && ItemCountCol !in ExcellentDefaults
    ensures forall d :: DepthCol !in DetailDefaults(d) && BroadCol !in DetailDefaults(d) && MediumCol !in DetailDefaults(d)
    ensures DepthCol !in BestDefaults && BroadCol !in BestDefaults && MediumCol !in BestDefaults
  {
  }

  // ---- The whole row ----

  /** One row after the first five passes of `prepare_master_dataframe`: the base fields and the
      cells of the four scoring passes, the excellent-idea ratio relative to the stored item count. */
  function ScoredReportRow(meta: MetaRow, topics: seq<TopicRow>, data: DataTable, n: string, f: string, m: string,
                           co: Coercions): (r: Row)
    ensures HasIdentity(r) && IdentityOf(r) == Identity(meta.depth, meta.broad, meta.medium)
  {
    BaseRow(meta) + ScoreCells(Identity(meta.depth, meta.broad, meta.medium), topics, data, n, f, m, co)
  }

  /** The cells the four scoring passes add to a row of identity `id`. */
  function ScoreCells(id: Identity, topics: seq<TopicRow>, data: DataTable, n: string, f: string, m: string,
                      co: Coercions): (r: Row)
    ensures DepthCol !in r && BroadCol !in r && MediumCol !in r
  {
    DefaultsAvoidIdentity();
    ItemCountCells(id, topics) + AverageCells(id, topics, data, n, f, m, co)
    + ExcellentCells(id, ItemCount(topics, id), topics, data, n, f, m, co)
    + AllDetailCells(id, topics, data, n, f, m, co)
  }

  /** `prepare_master_dataframe`, one row: the scored row and the best idea, which is member `k`
      of the item data once it carries `total_score`. */
  function ReportRow(meta: MetaRow, topics: seq<TopicRow>, data: DataTable, n: string, f: string, m: string,
                     co: Coercions, k: int): Row
  {
    var id := Identity(meta.depth, meta.broad, meta.medium);
    ScoredReportRow(meta, topics, data, n, f, m, co) + BestCells(id, topics, WithTotals(data, n, f, m, co), n, f, m, co, k)
  }

  // ---- Properties of the passes ----

  /** Before rounding, the combined mean is the novelty mean plus the market mean plus the
      feasibility mean, and the market and feasibility columns read `m` and `f` respectively. */
  lemma AverageIsSumOfDimensionMeans(id: Identity, topics: seq<TopicRow>, data: DataTable,
                                     n: string, f: string, m: string, co: Coercions)
    requires !Skipped(id, Members(data, topics, id))
    ensures var sub := Members(data, topics, id);
            var cells := AverageCells(id, topics, data, n, f, m, co);
            && cells[AverageCol] == RealVal(Mean(Totals(sub, n, f, m, co)))
            && cells[NoveltyAverageCol] == RealVal(Mean(NumCol(sub, n, co)))
            && cells[MarketAverageCol] == RealVal(Mean(NumCol(sub, m, co)))
            && cells[FeasibilityAverageCol] == RealVal(Mean(NumCol(sub, f, co)))
            && cells[AverageCol].r == cells[NoveltyAverageCol].r + cells[MarketAverageCol].r + cells[FeasibilityAverageCol].r
  {
    MeanOfTotals(Members(data, topics, id), n, f, m, co);
  }

  /** The excellent count is positive exactly when some member's combined score reaches 12, and
      it never exceeds the number of members. */
  lemma ExcellentCountMeaning(id: Identity, ideaCount: int, topics: seq<TopicRow>, data: DataTable,
                              n: string, f: string, m: string, co: Coercions)
    requires !Skipped(id, Members(data, topics, id))
    ensures var sub := Members(data, topics, id);
            var cells := ExcellentCells(id, ideaCount, topics, data, n, f, m, co);
            && cells[ExcellentCountCol] == IntVal(CountAtLeast(Totals(sub, n, f, m, co), 12.0))
            && 0 <= cells[ExcellentCountCol].i <= |sub.rows|
            && (cells[ExcellentCountCol].i > 0 <==>
                  exists i :: 0 <= i < |sub.rows| && Totals(sub, n, f, m, co)[i] >= 12.0)
  {
    var sub := Members(data, topics, id);
    CountAtLeastPositive(Totals(sub, n, f, m, co), 12.0);
  }

  /** A fraction of at most one, as a percentage, lies in [0, 100]. */
  lemma PercentInRange(e: nat, total: nat)
    requires 0 < total && e <= total
    ensures 0.0 <= e as real / total as real * 100.0 <= 100.0
  {
    var q := e as real / total as real;
    assert q * (total as real) == e as real;
    assert q <= 1.0;
  }

  /** With unique row numbers in the item data, the excellent ratio of a row whose item count
      is the pass's own count is `"0%"` or a percentage in [0, 100]. */
  lemma ExcellentRatioInRange(id: Identity, topics: seq<TopicRow>, data: DataTable,
                              n: string, f: string, m: string, co: Coercions)
    requires DistinctNumbers(data.rows)
    ensures var cells := ExcellentCells(id, ItemCount(topics, id), topics, data, n, f, m, co);
            || cells[ExcellentRatioCol] == ZeroPercent
            || (cells[ExcellentRatioCol].PercentVal? && 0.0 <= cells[ExcellentRatioCol].p <= 100.0)
  {
    var sub := Members(data, topics, id);
    if !Skipped(id, sub) {
      MembersAtMostItemCount(data, topics, id);
      PercentInRange(CountAtLeast(Totals(sub, n, f, m, co), 12.0), ItemCount(topics, id));
    }
  }

  /** The detail ratio of every dimension is `"0%"` or a percentage in [0, 100], its count is
      at most the number of members, and a dimension whose column the item data lacks keeps its
      defaults. */
  lemma DetailInRange(d: Dimension, id: Identity, topics: seq<TopicRow>, data: DataTable,
                      n: string, f: string, m: string, co: Coercions)
    ensures var cells := DetailCells(d, id, topics, data, n, f, m, co);
            && (cells[DetailRatioCol(d)] == ZeroPercent
                || (cells[DetailRatioCol(d)].PercentVal? && 0.0 <= cells[DetailRatioCol(d)].p <= 100.0))
            && cells[DetailCountCol(d)].IntVal?
            && 0 <= cells[DetailCountCol(d)].i <= |Members(data, topics, id).rows|
    ensures ScoreColumn(d, n, f, m) !in data.columns ==> DetailCells(d, id, topics, data, n, f, m, co) == DetailDefaults(d)
  {
    var sub := Members(data, topics, id);
    var col := ScoreColumn(d, n, f, m);
    if !(Skipped(id, sub) || col !in sub.columns) {
      var s := NumCol(sub, col, co);
      PercentInRange(CountAtLeast(s, 4.0), |s|);
    }
  }

  /** A mean never exceeds a bound on every element. */
  lemma MeanAtMost(s: seq<real>, top: real)
    requires |s| > 0 && forall i :: 0 <= i < |s| ==> s[i] <= top
    ensures Mean(s) <= top
  {
    SumAtMost(s, top);
    var d := |s| as real;
    assert Mean(s) * d == Sum(s);
  }

  /** A row the best-idea pass does not skip gets member `k`'s stored combined score and its
      coerced `n`, `m` and `f` values, in that column order. */
  lemma BestCopiesMember(id: Identity, topics: seq<TopicRow>, scored: DataTable, n: string, f: string, m: string,
                         co: Coercions, k: int)
    requires !Skipped(id, Members(scored, topics, id)) && 0 <= k < |Members(scored, topics, id).rows|
    ensures var best := Members(scored, topics, id).rows[k];
            var cells := BestCells(id, topics, scored, n, f, m, co, k);
            && cells[BestTotalCol] == ScoreCell(best, TotalScoreCol, scored.columns, co)
            && cells[BestNoveltyCol] == ScoreCell(best, n, scored.columns, co)
            && cells[BestMarketCol] == ScoreCell(best, m, scored.columns, co)
            && cells[BestFeasibilityCol] == ScoreCell(best, f, scored.columns, co)
  {
  }

  /** The best idea's combined score is the stored `total_score` of one member, and no member
      of the topic scores higher. */
  lemma BestIsMaximal(id: Identity, topics: seq<TopicRow>, data: DataTable,
                      n: string, f: string, m: string, co: Coercions, k: int)
    requires !Skipped(id, Members(data, topics, id))
    requires BestChoice(id, topics, WithTotals(data, n, f, m, co), co, k)
    ensures var sub := Members(data, topics, id);
            var t := Totals(sub, n, f, m, co);
            && 0 <= k < |sub.rows|
            && BestCells(id, topics, WithTotals(data, n, f, m, co), n, f, m, co, k)[BestTotalCol] == RealVal(t[k])
            && forall j :: 0 <= j < |sub.rows| ==> t[j] <= t[k]
  {
    var sub := Members(data, topics, id);
    var w := WithTotals(data, n, f, m, co);
    var scored := Members(w, topics, id);
    var t := Totals(sub, n, f, m, co);
    ScoredMembers(data, topics, id, n, f, m, co);
    assert !Skipped(id, scored);
    assert forall j :: 0 <= j < |sub.rows| ==> TotalKeys(scored, co)[j] == t[j];
    assert ScoreCell(scored.rows[k], TotalScoreCol, scored.columns, co) == RealVal(t[k]);
    BestCopiesMember(id, topics, w, n, f, m, co, k);
  }

  /** The best idea's combined score is at least the topic's mean combined score, and reaches 12
      exactly when the topic's excellent count is positive. */
  lemma BestAgreesWithAggregates(id: Identity, ideaCount: int, topics: seq<TopicRow>, data: DataTable,
                                 n: string, f: string, m: string, co: Coercions, k: int)
    requires !Skipped(id, Members(data, topics, id))
    requires BestChoice(id, topics, WithTotals(data, n, f, m, co), co, k)
    ensures var best := BestCells(id, topics, WithTotals(data, n, f, m, co), n, f, m, co, k)[BestTotalCol];
            && best.RealVal?
            && AverageCells(id, topics, data, n, f, m, co)[AverageCol].r <= best.r
            && (ExcellentCells(id, ideaCount, topics, data, n, f, m, co)[ExcellentCountCol].i > 0 <==> best.r >= 12.0)
  {
    var sub := Members(data, topics, id);
    var t := Totals(sub, n, f, m, co);
    BestIsMaximal(id, topics, data, n, f, m, co, k);
    AverageIsSumOfDimensionMeans(id, topics, data, n, f, m, co);
    ExcellentCountMeaning(id, ideaCount, topics, data, n, f, m, co);
    MeanAtMost(t, t[k]);
    CountAtLeastPositive(t, 12.0);
  }

  /** The defaults of the three dimensions, in emission order. */
  const AllDetailDefaults: Row := DetailDefaults(Novelty) + DetailDefaults(Marketability) + DetailDefaults(Feasibility)

  /** A row that the passes skip (unknown depth, or no member items) keeps every default the
      passes set: 0.0 means, 0 counts, `"0%"` ratios, empty texts and 0.0 best scores. */
  lemma SkippedRowKeepsDefaults(id: Identity, ideaCount: int, topics: seq<TopicRow>, data: DataTable,
                                n: string, f: string, m: string, co: Coercions, k: int)
    requires Skipped(id, Members(data, topics, id))
    ensures AverageCells(id, topics, data, n, f, m, co) == AverageDefaults
    ensures ExcellentCells(id, ideaCount, topics, data, n, f, m, co) == ExcellentDefaults
    ensures AllDetailCells(id, topics, data, n, f, m, co) == AllDetailDefaults
    ensures BestCells(id, topics, WithTotals(data, n, f, m, co), n, f, m, co, k) == BestDefaults
  {
    ScoredMemberRows(data, topics, id, n, f, m, co);
    SkippedDetailDefaults(id, topics, data, n, f, m, co);
  }

  lemma SkippedDetailDefaults(id: Identity, topics: seq<TopicRow>, data: DataTable,
                              n: string, f: string, m: string, co: Coercions)
    requires Skipped(id, Members(data, topics, id))
    ensures AllDetailCells(id, topics, data, n, f, m, co) == AllDetailDefaults
  {
    var upTo1 := DetailCellsUpTo(1, id, topics, data, n, f, m, co);
    var upTo2 := DetailCellsUpTo(2, id, topics, data, n, f, m, co);
    var none: Row := map[];
    assert DetailCellsUpTo(0, id, topics, data, n, f, m, co) == none;
    assert DetailCells(Novelty, id, topics, data, n, f, m, co) == DetailDefaults(Novelty);
    assert DetailCells(Marketability, id, topics, data, n, f, m, co) == DetailDefaults(Marketability);
    assert DetailCells(Feasibility, id, topics, data, n, f, m, co) == DetailDefaults(Feasibility);
    assert upTo1 == none + DetailDefaults(Novelty);
    assert none + DetailDefaults(Novelty) == DetailDefaults(Novelty);
    assert upTo2 == DetailDefaults(Novelty) + DetailDefaults(Marketability);
  }
}
