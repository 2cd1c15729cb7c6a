/**
 * The Sheets API requests the sheet writer builds before each `batchUpdate` call: the reset of a
 * worksheet, the style of one column, the base design with its stripes, and the planet border.
 * Requests are values; sending them is not modelled.
 */
module SheetRequests {
  import opened Wrappers
  import opened Text
  import opened Colour
  import opened SheetKeys

  /** A half-open block of cells, rows and columns counted from 0 as the API does. */
  datatype GridRange = GridRange(sheetId: int, startRow: int, endRow: int, startCol: int, endCol: int)

  datatype WrapStrategy = Wrap | Clip | OverflowCell

  /** A number format: its type, and the pattern for the three types that get one. */
  datatype NumberFormat = NumberFormat(kind: string, pattern: Option<string>)

  /** The text and alignment format `style_column` writes; the background is not part of it. */
  datatype ColumnStyle = ColumnStyle(fontFamily: string, fontSize: int, bold: bool, italic: bool,
                                     foreground: Rgb, horizontal: string, vertical: string,
                                     wrap: WrapStrategy, number: Option<NumberFormat>)

  datatype CellFormat =
    | BaseFormat        // Roboto 10 in #434343, left and middle aligned, white background, text overflowing
    | Styled(style: ColumnStyle)
    | MiddleAligned     // vertical alignment only
    | StripeBackground  // the light gray (246, 248, 249) background
    | GrayBoldText      // bold text in (100, 100, 100)

  datatype Borders =
    | AllNone              // all four sides and both inner directions set to NONE
    | InnerNone            // inner horizontal and vertical lines set to NONE
    | Outline(color: Rgb)  // the four sides SOLID, width 2
    | LeftLine(color: Rgb) // the left side SOLID, width 2

  datatype Request =
    | ClearBasicFilter(sheetId: int)
    | DeleteConditionalFormatRule(sheetId: int, index: int)
    | RepeatCell(range: GridRange, format: CellFormat, fields: seq<string>)
    | UpdateBorders(range: GridRange, borders: Borders)
    | ColumnWidth(sheetId: int, startIndex: int, endIndex: int, pixelSize: int)
    | SetDataValidation(range: GridRange, values: seq<string>)
    | AddTextEqRule(range: GridRange, text: string, index: int)
    | FindReplace(range: GridRange, find: string, replacement: string, matchCase: bool, matchEntireCell: bool)

  /** The shape of a DataFrame: its column names and its number of rows. */
  datatype Frame = Frame(columns: seq<string>, height: nat) {
    /** `df.empty`: no rows or no columns. */
    predicate Empty() {
      height == 0 || columns == []
    }
  }

  // ---------------------------------------------------------------------------
  // reset_sheet
  // ---------------------------------------------------------------------------

  /** The block `reset_sheet` reformats: from A1, as many rows as the current values and as many
      columns as their first row, but never less than one cell. */
  function ResetRange(sheetId: int, values: seq<seq<string>>): (g: GridRange)
    ensures g.sheetId == sheetId && g.startRow == 0 && g.startCol == 0
    ensures g.endRow >= 1 && g.endCol >= 1
    ensures |values| <= g.endRow && (values != [] ==> |values[0]| <= g.endCol)
    ensures g.endRow == 1 || g.endRow == |values|
    ensures g.endCol == 1 || (values != [] && g.endCol == |values[0]|)
  {
    var rows := if |values| > 1 then |values| else 1;
    var cols := if values != [] && |values[0]| > 1 then |values[0]| else 1;
    GridRange(sheetId, 0, rows, 0, cols)
  }

  /** The number of conditional format rules the spreadsheet reports: the sum over every sheet of
      the response of its rule count, a sheet without the key counting nothing. */
  method CountRules(sheets: seq<Option<nat>>) returns (n: nat)
    ensures n == RuleTotal(sheets)
  {
    n := 0;
    var i := 0;
    while i < |sheets|
      invariant 0 <= i <= |sheets|
      invariant n == RuleTotal(sheets[..i])
    {
      assert sheets[..i + 1][..i] == sheets[..i];
      n := n + sheets[i].GetOr(0);
      i := i + 1;
    }
    assert sheets[..|sheets|] == sheets;
  }

  function RuleTotal(sheets: seq<Option<nat>>): nat {
    if sheets == [] then 0 else RuleTotal(sheets[..|sheets| - 1]) + sheets[|sheets| - 1].GetOr(0)
  }

  /** The total counts the rules of every sheet, not only those of the sheet being reset. */
  lemma {:induction false} RuleTotalCountsEverySheet(sheets: seq<Option<nat>>, i: nat)
    requires i < |sheets|
    ensures sheets[i].GetOr(0) <= RuleTotal(sheets)
  {
    var last := |sheets| - 1;
    if i < last {
      RuleTotalCountsEverySheet(sheets[..last], i);
    }
  }

  /** The requests of `reset_sheet`: clear the filter, reformat and clear the borders of the used
      block, then delete the first conditional format rule `numRules` times. */
  method ResetRequests(sheetId: int, values: seq<seq<string>>, numRules: nat) returns (r: seq<Request>)
    ensures |r| == 3 + numRules
    ensures r[0] == ClearBasicFilter(sheetId)
    ensures r[1] == RepeatCell(ResetRange(sheetId, values), BaseFormat, ["userEnteredFormat"])
    ensures r[2] == UpdateBorders(ResetRange(sheetId, values), AllNone)
    ensures forall k :: 3 <= k < |r| ==> r[k] == DeleteConditionalFormatRule(sheetId, 0)
  {
    var deletes: seq<Request> := [];
    var i := 0;
    while i < numRules
      invariant 0 <= i <= numRules
      invariant |deletes| == i
      invariant forall k :: 0 <= k < i ==> deletes[k] == DeleteConditionalFormatRule(sheetId, 0)
    {
      deletes := deletes + [DeleteConditionalFormatRule(sheetId, 0)];
      i := i + 1;
    }
    var range := ResetRange(sheetId, values);
    r := [ClearBasicFilter(sheetId), RepeatCell(range, BaseFormat, ["userEnteredFormat"]), UpdateBorders(range, AllNone)]
         + deletes;
  }

  /** The rules of a sheet once the given delete requests have been applied in order, each removing
      the rule at its index. Only in-range deletes are described: `DeletesClearRules` uses no other,
      and an out-of-range index is left as removing nothing here. */
  function AfterDeletes<R>(rules: seq<R>, reqs: seq<Request>): seq<R> {
    if reqs == [] then rules
    else
      var rest := if reqs[0].DeleteConditionalFormatRule? && 0 <= reqs[0].index < |rules|
                  then rules[..reqs[0].index] + rules[reqs[0].index + 1..]
                  else rules;
      AfterDeletes(rest, reqs[1..])
  }

  /** Deleting index 0 once per rule clears every rule of a sheet that has `numRules` of them. */
  lemma {:induction false} DeletesClearRules<R>(rules: seq<R>, deletes: seq<Request>, sheetId: int)
    requires |deletes| == |rules|
    requires forall k :: 0 <= k < |deletes| ==> deletes[k] == DeleteConditionalFormatRule(sheetId, 0)
    ensures AfterDeletes(rules, deletes) == []
  {
    if deletes != [] {
      DeletesClearRules(rules[1..], deletes[1..], sheetId);
    }
  }

  // ---------------------------------------------------------------------------
  // style_column
  // ---------------------------------------------------------------------------

  /** The `wrap` argument: a bool, or a strategy name. */
  datatype WrapArg = WrapFlag(on: bool) | WrapName(name: string)

  /** The `foregroundColor` argument: hex text, or a colour passed through as it is. */
  datatype ColourArg = HexText(text: string) | Given(colour: Rgb)

  const WrapMessage: string := "wrap must be bool or 'WRAP'/'CLIP'/'OVERFLOW'"

  /** The wrap normalisation of `style_column`. */
  function WrapMode(w: WrapArg): (r: Result<WrapStrategy>)
    ensures w.WrapFlag? ==> r.Success?
    ensures r.Failure? ==> w.WrapName? && r.message == WrapMessage
    ensures w.WrapName? && r.Success? ==> Upper(w.name) in {"WRAP", "CLIP", "OVERFLOW_CELL", "OVERFLOW"}
  {
    match w
    case WrapFlag(on) => Success(if on then Wrap else OverflowCell)
    case WrapName(name) =>
      var upper := Upper(name);
      var mode := if upper == "OVERFLOW" then "OVERFLOW_CELL" else upper;
      if mode == "WRAP" then Success(Wrap)
      else if mode == "CLIP" then Success(Clip)
      else if mode == "OVERFLOW_CELL" then Success(OverflowCell)
      else Failure(WrapMessage)
  }

  /** The API name of a strategy. */
  function StrategyName(w: WrapStrategy): string {
    match w
    case Wrap => "WRAP"
    case Clip => "CLIP"
    case OverflowCell => "OVERFLOW_CELL"
  }

  /** A name is accepted exactly when, upper-cased, it is WRAP, CLIP, OVERFLOW_CELL or OVERFLOW,
      and the strategy is the one it names, OVERFLOW standing for OVERFLOW_CELL. */
  lemma WrapNameAccepted(name: string)
    ensures WrapMode(WrapName(name)).Success? <==> Upper(name) in {"WRAP", "CLIP", "OVERFLOW_CELL", "OVERFLOW"}
    ensures WrapMode(WrapName(name)).Success? ==>
              StrategyName(WrapMode(WrapName(name)).value) == (if Upper(name) == "OVERFLOW" then "OVERFLOW_CELL" else Upper(name))
  {
  }

  /** Every strategy is reached from its own name. */
  lemma WrapNameRoundTrip(w: WrapStrategy)
    ensures WrapMode(WrapName(StrategyName(w))) == Success(w)
  {
    match w {
      case Wrap => WrapReached();
      case Clip => ClipReached();
      case OverflowCell => OverflowCellReached();
    }
  }

  lemma WrapReached()
    ensures WrapMode(WrapName("WRAP")) == Success(Wrap)
  {
    UpperKeepsName("WRAP");
  }

  lemma ClipReached()
    ensures WrapMode(WrapName("CLIP")) == Success(Clip)
  {
    UpperKeepsName("CLIP");
    assert "CLIP"[0] != "WRAP"[0];
  }

  lemma OverflowCellReached()
    ensures WrapMode(WrapName("OVERFLOW_CELL")) == Success(OverflowCell)
  {
    UpperKeepsName("OVERFLOW_CELL");
    assert |"OVERFLOW_CELL"| != |"OVERFLOW"| && |"OVERFLOW_CELL"| != |"WRAP"| && |"OVERFLOW_CELL"| != |"CLIP"|;
  }

  /** Strategy names are their own upper forms. */
  lemma UpperKeepsName(name: string)
    requires forall i :: 0 <= i < |name| ==> ('A' <= name[i] <= 'Z') || name[i] == '_'
    ensures Upper(name) == name
  {
  }

  /** `True` wraps and `False` lets text overflow. */
  lemma WrapFlagMode(on: bool)
    ensures WrapMode(WrapFlag(on)) == Success(if on then Wrap else OverflowCell)
  {
  }

  /** The number format for `numberFormat`, upper-cased; three types get a fixed pattern. */
  function NumberFormatOf(text: string): (f: NumberFormat)
    ensures |f.kind| == |text|
    ensures f.pattern.Some? ==> f.pattern.value in {"0.00%", "0.00", "\U{a5}#,##0.00"}
  {
    var kind := Upper(text);
    if kind == "PERCENT" then NumberFormat(kind, Some("0.00%"))
    else if kind == "NUMBER" then NumberFormat(kind, Some("0.00"))
    else if kind == "CURRENCY" then NumberFormat(kind, Some("\U{a5}#,##0.00"))
    else NumberFormat(kind, None)
  }

  /** The format's type is always the upper-cased text; it has a pattern exactly for the three
      types PERCENT, NUMBER and CURRENCY. */
  lemma NumberFormatKinds(text: string)
    ensures NumberFormatOf(text).kind == Upper(text)
    ensures NumberFormatOf(text).pattern.Some? <==> Upper(text) in {"PERCENT", "NUMBER", "CURRENCY"}
  {
  }

  /** The keyword arguments of `style_column`. */
  datatype StyleOptions = StyleOptions(fontFamily: string, fontSize: int, bold: bool, italic: bool,
                                       foreground: ColourArg, wrap: WrapArg, horizontal: string,
                                       vertical: string, columnWidth: Option<int>, excludeHeader: bool,
                                       numberFormat: Option<string>)

  /** The defaults of those arguments. */
  const DefaultStyle: StyleOptions :=
    StyleOptions("Roboto", 10, false, false, HexText("#434343"), WrapFlag(false), "LEFT", "MIDDLE", None, true, None)

  function Foreground(c: ColourArg): Result<Rgb> {
    match c
    case HexText(text) => HexToColor(text)
    case Given(colour) => Success(colour)
  }

  const StyleFields: seq<string> :=
    ["userEnteredFormat.textFormat", "userEnteredFormat.horizontalAlignment",
     "userEnteredFormat.verticalAlignment", "userEnteredFormat.wrapStrategy"]

  const NumberFormatField: string := "userEnteredFormat.numberFormat"

  /** A number format is requested when `numberFormat` is a non-empty string. */
  function RequestedNumberFormat(o: StyleOptions): Option<NumberFormat> {
    if o.numberFormat.Some? && o.numberFormat.value != "" then Some(NumberFormatOf(o.numberFormat.value)) else None
  }

  /** The requests of `style_column` for column key `col`: nothing for an empty frame; else the
      column, the wrap mode and the colour are resolved in that order, the first error winning,
      then one format request and, for a positive width, one width request. The column is resolved
      by `_col_to_index` as written, trailing-newline loophole included. */
  function StyleColumn(sheetId: int, df: Frame, col: ColKey, o: StyleOptions): (r: Result<seq<Request>>)
    ensures df.Empty() ==> r == Success([])
    ensures !df.Empty() && r.Success? ==>
              1 <= |r.value| <= 2 && r.value[0].RepeatCell? && r.value[0].range.sheetId == sheetId
              && r.value[0].range.endCol == r.value[0].range.startCol + 1
    ensures r.Failure? ==> !df.Empty()
  {
    if df.Empty() then Success([])
    else
      var colIndex :- ColIndexAsWritten(col, df.columns);
      var wrap :- WrapMode(o.wrap);
      var fg :- Foreground(o.foreground);
      var number := RequestedNumberFormat(o);
      var fields := StyleFields + (if number.Some? then [NumberFormatField] else []);
      var style := ColumnStyle(o.fontFamily, o.fontSize, o.bold, o.italic, fg, Upper(o.horizontal), Upper(o.vertical),
                               wrap, number);
      var start := if o.excludeHeader then 1 else 0;
      var format := RepeatCell(GridRange(sheetId, start, df.height + 1, colIndex, colIndex + 1), Styled(style), fields);
      var width := if o.columnWidth.Some? && o.columnWidth.value > 0
                   then [ColumnWidth(sheetId, colIndex, colIndex + 1, o.columnWidth.value)] else [];
      Success([format] + width)
  }

  /** Errors come in the order of the source: column key, then wrap, then colour. */
  lemma StyleColumnErrors(sheetId: int, df: Frame, col: ColKey, o: StyleOptions)
    requires !df.Empty()
    ensures ColIndexAsWritten(col, df.columns).Failure? ==>
              StyleColumn(sheetId, df, col, o) == Failure(ColIndexAsWritten(col, df.columns).message)
    ensures ColIndexAsWritten(col, df.columns).Success? && WrapMode(o.wrap).Failure? ==>
              StyleColumn(sheetId, df, col, o) == Failure(WrapMessage)
    ensures ColIndexAsWritten(col, df.columns).Success? && WrapMode(o.wrap).Success? && Foreground(o.foreground).Failure? ==>
              StyleColumn(sheetId, df, col, o) == Failure(Foreground(o.foreground).message)
    ensures StyleColumn(sheetId, df, col, o).Success? <==>
              ColIndexAsWritten(col, df.columns).Success? && WrapMode(o.wrap).Success? && Foreground(o.foreground).Success?
  {
  }

  /** What a successful `style_column` requests: the column's data rows (and the header unless it is
      excluded) get the style, the fields never name the background, the number format field is
      there exactly when a format is requested, and a width request for the same column follows
      exactly when the width is positive. */
  lemma StyleColumnRequests(sheetId: int, df: Frame, col: ColKey, o: StyleOptions)
    requires !df.Empty() && StyleColumn(sheetId, df, col, o).Success?
    ensures var reqs := StyleColumn(sheetId, df, col, o).value;
            var c := ColIndexAsWritten(col, df.columns).value;
            && 1 <= |reqs| <= 2
            && reqs[0].RepeatCell?
            && reqs[0].range == GridRange(sheetId, if o.excludeHeader then 1 else 0, df.height + 1, c, c + 1)
            && reqs[0].format.Styled?
            && reqs[0].format.style.wrap == WrapMode(o.wrap).value
            && reqs[0].format.style.foreground == Foreground(o.foreground).value
            && "userEnteredFormat.backgroundColor" !in reqs[0].fields
            && (NumberFormatField in reqs[0].fields <==> RequestedNumberFormat(o).Some?)
            && (|reqs| == 2 <==> o.columnWidth.Some? && o.columnWidth.value > 0)
            && (|reqs| == 2 ==> reqs[1] == ColumnWidth(sheetId, c, c + 1, o.columnWidth.value))
  {
  }

  /** As written, the key "A\n" on a frame without such a column styles column -29 instead of
      failing as an unknown column. */
  lemma StyleColumnNewlineKey(sheetId: int, df: Frame, o: StyleOptions)
    requires !df.Empty() && "A\n" !in df.columns
    requires WrapMode(o.wrap).Success? && Foreground(o.foreground).Success?
    ensures var r := StyleColumn(sheetId, df, StrKey("A\n"), o);
            r.Success? && r.value[0].range.startCol == -29
  {
    TrailingNewlineAccepted(df.columns);
  }

  // ---------------------------------------------------------------------------
  // base_sheet_design
  // ---------------------------------------------------------------------------

  /** The stripe on sheet row `i` (0-based), across the frame's columns. */
  function Stripe(sheetId: int, i: int, numCols: int): Request {
    RepeatCell(GridRange(sheetId, i, i + 1, 0, numCols), StripeBackground, ["userEnteredFormat.backgroundColor"])
  }

  /** The requests of `base_sheet_design`: nothing for an empty frame; else middle alignment for all
      data rows, then the stripes, the k-th on row 2k. */
  method BaseSheetDesign(sheetId: int, df: Frame) returns (r: seq<Request>)
    ensures df.Empty() ==> r == []
    ensures !df.Empty() ==> |r| == 1 + df.height / 2
    ensures !df.Empty() ==>
              r[0] == RepeatCell(GridRange(sheetId, 1, df.height + 1, 0, |df.columns|), MiddleAligned,
                                 ["userEnteredFormat.verticalAlignment"])
    ensures forall k :: 1 <= k < |r| ==> r[k] == Stripe(sheetId, 2 * k, |df.columns|)
  {
    if df.Empty() {
      return [];
    }
    var numRows := df.height + 1;
    var numCols := |df.columns|;
    r := [RepeatCell(GridRange(sheetId, 1, numRows, 0, numCols), MiddleAligned, ["userEnteredFormat.verticalAlignment"])];
    var i := 1;
    while i < numRows
      invariant 1 <= i <= numRows
      invariant |r| == 1 + (i - 1) / 2
      invariant r[0] == RepeatCell(GridRange(sheetId, 1, numRows, 0, numCols), MiddleAligned,
                                   ["userEnteredFormat.verticalAlignment"])
      invariant forall k :: 1 <= k < |r| ==> r[k] == Stripe(sheetId, 2 * k, numCols)
    {
      if i % 2 == 0 {
        r := r + [Stripe(sheetId, i, numCols)];
      }
      i := i + 1;
    }
  }

  /** The stripes lie exactly on the even rows from 1 to `len(df)`: one single-row stripe each. */
  lemma StripesOnEvenRows(sheetId: int, df: Frame, r: seq<Request>)
    requires !df.Empty() && |r| == 1 + df.height / 2
    requires forall k :: 1 <= k < |r| ==> r[k] == Stripe(sheetId, 2 * k, |df.columns|)
    ensures forall i :: 1 <= i < df.height + 1 ==> (i % 2 == 0 <==> Stripe(sheetId, i, |df.columns|) in r[1..])
  {
    forall i | 1 <= i < df.height + 1
      ensures i % 2 == 0 <==> Stripe(sheetId, i, |df.columns|) in r[1..]
    {
      if i % 2 == 0 {
        assert r[1..][i / 2 - 1] == r[i / 2];
      }
      if Stripe(sheetId, i, |df.columns|) in r[1..] {
        var k :| 0 <= k < |r[1..]| && r[1..][k] == Stripe(sheetId, i, |df.columns|);
        assert r[k + 1] == Stripe(sheetId, 2 * (k + 1), |df.columns|);
      }
    }
  }

  // ---------------------------------------------------------------------------
  // apply_planet_border
  // ---------------------------------------------------------------------------

  /** The columns on whose left edge a group line is drawn. */
  const GroupRightEdges: seq<int> := [5, 10, 12, 15, 18, 21]

  /** The line on the left of column `edge`, over the header and the data rows. */
  function GroupLine(sheetId: int, height: nat, edge: int, color: Rgb): Request {
    UpdateBorders(GridRange(sheetId, 0, height + 1, edge, edge + 1), LeftLine(color))
  }

  /** The clearing of the inner lines over the header and the data. */
  function ClearInner(sheetId: int, df: Frame): Request {
    UpdateBorders(GridRange(sheetId, 0, df.height + 1, 0, |df.columns|), InnerNone)
  }

  /** The outline around the table placed at (`startRow`, `startCol`), counted from 1. */
  function Outer(sheetId: int, df: Frame, startRow: int, startCol: int, color: Rgb): Request {
    UpdateBorders(GridRange(sheetId, startRow - 1, startRow - 1 + df.height + 1, startCol - 1, startCol - 1 + |df.columns|),
                  Outline(color))
  }

  /** What `apply_planet_border` yields for a non-empty frame, given the colour parse: the parse
      error; without a planet, only the clearing of the inner lines; with one, the clearing, the
      outline and the six group lines, in that order. */
  predicate PlanetShape(sheetId: int, df: Frame, hasPlanet: bool, parsed: Result<Rgb>, startRow: int, startCol: int,
                        r: Result<seq<Request>>)
  {
    if parsed.Failure? then r == Failure(parsed.message)
    else
      && r.Success? && |r.value| >= 1
      && r.value[0] == ClearInner(sheetId, df)
      && (!hasPlanet ==> |r.value| == 1)
      && (hasPlanet ==>
            && |r.value| == 2 + |GroupRightEdges|
            && r.value[1] == Outer(sheetId, df, startRow, startCol, parsed.value)
            && forall k :: 0 <= k < |GroupRightEdges| ==>
                 r.value[2 + k] == GroupLine(sheetId, df.height, GroupRightEdges[k], parsed.value))
  }

  /** The requests of `apply_planet_border`. The colour is parsed first, so a bad colour is an
      error even when no planet is drawn. */
  method PlanetBorder(sheetId: int, df: Frame, hasPlanet: bool, planetColor: string, startRow: int, startCol: int)
    returns (r: Result<seq<Request>>)
    ensures df.Empty() ==> r == Success([])
    ensures !df.Empty() ==> PlanetShape(sheetId, df, hasPlanet, HexToRgbColor(planetColor), startRow, startCol, r)
  {
    if df.Empty() {
      return Success([]);
    }
    var parsed := HexToRgbColor(planetColor);
    r := PlanetRequests(sheetId, df, hasPlanet, parsed, startRow, startCol);
  }

  /** The requests once the colour is parsed. */
  method PlanetRequests(sheetId: int, df: Frame, hasPlanet: bool, parsed: Result<Rgb>, startRow: int, startCol: int)
    returns (r: Result<seq<Request>>)
    ensures PlanetShape(sheetId, df, hasPlanet, parsed, startRow, startCol, r)
  {
    if parsed.Failure? {
      return Failure(parsed.message);
    }
    var color := parsed.value;
    var clear := ClearInner(sheetId, df);
    if !hasPlanet {
      return Success([clear]);
    }
    var outer := Outer(sheetId, df, startRow, startCol, color);
    var lines := GroupLines(sheetId, df.height, color);
    r := Success([clear, outer] + lines);
  }

  /** The group lines, one per edge of `GroupRightEdges`, in that order. */
  method GroupLines(sheetId: int, height: nat, color: Rgb) returns (lines: seq<Request>)
    ensures |lines| == |GroupRightEdges|
    ensures forall k :: 0 <= k < |GroupRightEdges| ==> lines[k] == GroupLine(sheetId, height, GroupRightEdges[k], color)
  {
    lines := [];
    var i := 0;
    while i < |GroupRightEdges|
      invariant 0 <= i <= |GroupRightEdges|
      invariant |lines| == i
      invariant forall k :: 0 <= k < i ==> lines[k] == GroupLine(sheetId, height, GroupRightEdges[k], color)
    {
      lines := lines + [GroupLine(sheetId, height, GroupRightEdges[i], color)];
      i := i + 1;
    }
  }
}
