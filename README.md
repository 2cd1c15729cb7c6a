# Topic report and sheet requests, modelled in Dafny

This project models two parts of a small Streamlit tool. The tool reads a Nomic Atlas map, builds a
per-topic report, and writes that report to a Google Sheet.

The first part is the topic-statistics pipeline of `nomic_module.py`:
- `create_master_dataframe` builds one report row per topic-metadata row.
- Five passes then fill derived columns in place:
  - `add_item_count`;
  - `add_average_scores`;
  - `add_excellent_ideas`, with threshold 12 on the combined score;
  - `add_detailed_scores`, with threshold 4 per dimension;
  - `add_best_ideas`.
- Every pass picks a topic's members by the same depth rule.
- Scores are coerced by `numcol`.
- `extract_map_name` parses a map address.

The second part is the request building of `sheet_module.py`:
- `extract_spreadsheet_id`;
- the hex colour parse;
- `_col_to_index`;
- the header's last-column-letter loop;
- the request lists of `reset_sheet`, `style_column`, `base_sheet_design`, `dropdowns` and
  `apply_planet_border`, up to the point where each list would be sent to `batchUpdate`.

Modules, one per file:
- `Wrappers`: `Option` and `Result`.
- `Text`: strip, ASCII upper-casing, hex digits.
- `Ordering`: Python's code-point string order and `sorted(set(...))`.
- `MapName`: `extract_map_name`.
- `Tables`: cells, data rows, `numcol`, topic membership, totals, means, `_first_existing_col`.
- `ReportSpec`: what each pass writes into one report row, as functions.
- `Master`: the report frame and the item table as classes; each pass is a method that updates
  them in place, loop by loop, proved against `ReportSpec`.
- `Pipeline`: `prepare_master_dataframe` and the final column order.
- `SheetKeys`: the spreadsheet id, column letters and `_col_to_index`.
- `Colour`: `_hex_to_color` and `_hex_to_rgb_color`.
- `SheetRequests`: request records, plus `reset_sheet`, `style_column`, `base_sheet_design` and
  `apply_planet_border`.
- `Dropdowns`: `dropdowns`.
- `SheetLayout`: how the planet border's group lines fall on the report's column groups.

Modelling choices:
- Score coercion (`pd.to_numeric(..., errors="coerce")`) is a parameter
  `toNumeric: string -> Option<real>`. `str(v)` of a cell is a parameter `show`.
- A failed coercion becomes 0.0, as `fillna(0.0)` does.
- Mean cells hold the exact mean. A ratio cell `PercentVal(p)` stands for the text
  `f"{round(p, 1)}%"`.
- A DataFrame value in the dropdown code is its text `str(v)` together with `isna(v)`.
- Colour components are the integers `int(..., 16)` returns.
- The sheet's current values (`get_all_values`) and the conditional-format counts returned by the
  API are parameters.
- Five behaviours of the code that are easy to misread, each kept as the code has it:
  - The best idea is the first row of `sort_values(by="total_score", ascending=False)`, whose
    default sort is not stable, so among members of equal total the one reported is not fixed by
    row order. The model fixes one outcome: `ReportSpec.BestIndex` (through `ReportSpec.ArgMax`)
    is the first member of maximal total, and `Master.BestRows`, `Master.WriteBestIdeas`,
    `Master.AddBestIdeas` and `Pipeline.PrepareMaster` report that member. The properties of the
    best idea (`ReportSpec.BestIsMaximal`, `ReportSpec.BestAgreesWithAggregates`) are proved for
    every maximal choice `k` (`ReportSpec.BestChoice`), so they hold whichever member the sort
    puts first.
  - The mean combined score is the sum of the three dimension means
    (`ReportSpec.AverageIsSumOfDimensionMeans`), and a member is excellent when its combined score
    reaches 12 (`ReportSpec.ExcellentCountMeaning`). So for a topic whose four members score
    (5,5,5), (1,1,1), (4,4,4) and (0,0,0), the code gives a mean combined score of 7.5, an
    excellent count of 2 and the ratio "50.0%".
  - `reset_sheet` adds up the conditional-format rules of every sheet in the spreadsheet, then
    deletes that many rules at index 0 of the one sheet being reset. The model keeps this:
    `SheetRequests.CountRules` sums over all sheets.
  - `add_best_ideas` reads each score column with `df_data.get(col, 0)`. For a missing column
    that is the int 0, which `pd.to_numeric` returns unchanged and on which `.fillna` raises. So
    `prepare_master_dataframe` yields no frame unless `n`, `f` and `m` are all item columns
    (`Tables.ScoresPresent`), and `Pipeline.PrepareMaster` fails exactly then.
  - `style_column` calls `_col_to_index` as written, so `SheetRequests.StyleColumn` uses
    `SheetKeys.ColIndexAsWritten` and inherits the trailing-newline loophole of the finding below
    (`SheetRequests.StyleColumnNewlineKey`). The corrected lookup is `SheetKeys.ColIndex`.
- Three places where a comment in `sheet_module.py` promises more than the code does, each modelled
  as the code has it:
  - `reset_sheet` heads its first step "delete data validation" and names the request
    `clear_data_validation` (sheet_module.py:93-94), but the request is `clearBasicFilter`. The
    `repeatCell` of that batch sets only `userEnteredFormat` (sheet_module.py:146), which does not
    touch data validation. So the dropdowns of an earlier run survive a reset:
    `SheetRequests.ResetRequests` lists exactly the requests the code sends, and none of them is a
    validation clear.
  - `planet_border` documents `has_planet=False` as removing everything (sheet_module.py:613) and
    prints "Planet border removed." (sheet_module.py:647). Yet the one request it sends,
    `clear_inner_lines` (sheet_module.py:628-641), sets only `innerHorizontal` and `innerVertical`
    to `NONE`, so an outline drawn earlier stays. `SheetRequests.PlanetBorder` sends that inner
    clear alone in this case.
  - The comments at sheet_module.py:373, 466 and 534 call the dropdown text colour #666666. The
    code writes 100/255 in each channel, which is #646464. The format `SheetRequests.GrayBoldText`,
    which `Dropdowns` applies to column D, keeps the code's value.

## Model

| member | source | states |
|---|---|---|
| MapName.ExtractMapName | nomic_module.py:11-18 | empty input gives ""; else the name captured at the leftmost position where `/data/<org>/<name>(/map)?` reaches the end; with no such position the input unchanged |
| MapName.FirstMatch | nomic_module.py:15 | the leftmost position from `from` at which the address pattern matches, and none when no position matches |
| MapName.LeftmostMatchWins | nomic_module.py:15-17 | when the pattern first matches at `p`, the result is the name captured there |
| MapName.BareNameUnchanged | nomic_module.py:16-18 | a text with no `/` is returned unchanged |
| MapName.MapUrlYieldsName | nomic_module.py:15-17 | `…/data/<org>/<name>/map` gives `<name>`, whatever precedes it |
| MapName.ShortUrlYieldsName | nomic_module.py:15-17 | `…/data/<org>/<name>` gives `<name>` unless `<name>` is `map` (with its optional newline) |
| MapName.ShortUrlNamedMap | nomic_module.py:15-17 | `/data/data/<org>/map` gives `<org>`: the leftmost match consumes `/map` as a name's suffix |
| MapName.NoEarlierMatch | nomic_module.py:15 | no position before a well-formed address can match |
| MapName.TooManySlashes | nomic_module.py:15 | a position followed by three more slashes after its marker cannot match at the end |
| Tables.NumCol | nomic_module.py:55-66 | one value per row; an absent column gives all 0.0; otherwise each value is the coerced cell, or 0.0 when coercion fails |
| Tables.NumColExample | nomic_module.py:55-66 | "3", "x", a missing cell and 5.0 coerce to 3.0, 0.0, 0.0, 5.0 |
| Tables.MemberNumbersSelects | nomic_module.py:106-113 | a row number is selected iff some topic row of the matching label (depth "1" Broad, depth "2" Medium) carries it |
| Tables.FilterRowsSelects | nomic_module.py:114 | a data row is kept iff its `row_number` is among the selected numbers |
| Tables.NoMembersWithoutMatches | nomic_module.py:106-116 | an unknown depth, or a topic with no matching topic rows, has no members |
| Tables.NoMatchesWithoutCount | nomic_module.py:88-93 | a zero item count or an unknown depth means no topic row matches |
| Tables.ItemCountIsMatchCount | nomic_module.py:88-91 | the item count is the number of matching topic rows |
| Tables.UnknownDepthCountsNothing | nomic_module.py:92-93 | a depth other than "1" or "2" counts 0 |
| Tables.ItemCountByDepth | nomic_module.py:84-95 | depth "1" counts topic rows whose `topic_depth_1` equals the Broad label; depth "2" uses `topic_depth_2` and Medium; any other depth 0 |
| Tables.Totals | nomic_module.py:118-121 | the combined score of each member is its n, f and m scores added |
| Tables.MeanOfTotals | nomic_module.py:118-126 | on a non-empty subset the mean of the combined score is the sum of the three dimension means |
| Tables.CountAtLeastPositive | nomic_module.py:151 | the count at a threshold is positive iff some value reaches it |
| Tables.MembersAtMostItemCount | nomic_module.py:142-155 | with unique `row_number`s, a topic's members are at most its item count |
| Tables.WithColumn | nomic_module.py:86 | assigning a column keeps the existing columns in place and adds the new one at the end only when absent |
| Tables.WithColumns | nomic_module.py:99-102 | assigning columns in turn keeps the existing ones first and adds each absent one |
| Tables.WithColumnsFresh | nomic_module.py:99-102 | distinct new columns are appended in order |
| Tables.WithTotals | nomic_module.py:211-215 | the item table gains `total_score`, each row holding the sum of its three coerced scores, nothing else changed (taken only when all three score columns exist) |
| Tables.ScoredMembers | nomic_module.py:241-242 | the members taken from the scored table are the same rows, each carrying its combined score |
| Tables.ScoredRowTotal | nomic_module.py:211-215 | the stored total of a row is the sum of its coerced scores |
| Tables.StoredTotal | nomic_module.py:255 | reading `total_score` back from a scored row gives that sum |
| Tables.FirstExistingCol | nomic_module.py:201-205 | none iff no candidate is a column; otherwise the earliest candidate, in list order, that is a column |
| Ordering.SortedDistinct | sheet_module.py:392-395 | the result is strictly increasing in code-point order and holds exactly the input's values |
| Ordering.StrictlySortedUnique | sheet_module.py:392-395 | two strictly sorted lists with the same values are equal, so that list is `sorted(set(...))` |
| Ordering.LessTrichotomy | sheet_module.py:392 | any two distinct strings are ordered one way |
| ReportSpec.BaseRow | nomic_module.py:72-81 | exactly the five base columns, holding depth, id, the two labels and the keywords as text |
| ReportSpec.AverageWrite | nomic_module.py:104-126 | no write iff the depth is unknown or the topic has no members; otherwise the four average cells |
| ReportSpec.AverageCells | nomic_module.py:98-127 | the four average columns, each a real |
| ReportSpec.ExcellentWrite | nomic_module.py:134-156 | no write iff the depth is unknown or the topic has no members; otherwise the count and ratio cells |
| ReportSpec.ExcellentCells | nomic_module.py:130-157 | the count is an integer; the ratio is "0%" or a percentage |
| ReportSpec.DetailWrite | nomic_module.py:179-197 | no write iff the row is skipped or the dimension's column is absent from the item table |
| ReportSpec.DetailCells | nomic_module.py:175-197 | a dimension's mean, count and ratio cells |
| ReportSpec.DetailCellsUpTo | nomic_module.py:167-197 | the detail cells never touch the identity columns |
| ReportSpec.ArgMax | nomic_module.py:247 | -1 for no values; else a position whose value is at least every other |
| ReportSpec.BestIndex | nomic_module.py:247 | the chosen member is one of maximal combined score (the model takes the first such member) |
| ReportSpec.BestWrite | nomic_module.py:233-258 | no write iff the row is skipped; otherwise the seven best-idea cells |
| ReportSpec.BestCells | nomic_module.py:227-258 | texts for the three text columns; the four score cells as read |
| ReportSpec.ScoredReportRow | nomic_module.py:267-273 | the finished row keeps the identity of its metadata row |
| ReportSpec.AverageIsSumOfDimensionMeans | nomic_module.py:118-126 | the average is the mean combined score; novelty takes n's mean, market m's, feasibility f's; the average equals their sum |
| ReportSpec.ExcellentCountMeaning | nomic_module.py:146-152 | the excellent count is the number of members with combined score at least 12; it is between 0 and the member count, and positive iff some member reaches 12 |
| ReportSpec.ExcellentRatioInRange | nomic_module.py:151-156 | with unique `row_number`s the ratio is "0%" or a percentage in [0, 100] |
| ReportSpec.DetailInRange | nomic_module.py:189-197 | the detail ratio is "0%" or in [0, 100]; the count is at most the member count; an absent column leaves the defaults |
| ReportSpec.BestCopiesMember | nomic_module.py:255-258 | the four best score cells are read from the chosen member |
| ReportSpec.BestIsMaximal | nomic_module.py:246-255 | the best total is the chosen member's combined score, and no member scores more |
| ReportSpec.BestAgreesWithAggregates | nomic_module.py:247-255 | the best total is at least the average, and at least 12 iff the excellent count is positive |
| ReportSpec.SkippedRowKeepsDefaults | nomic_module.py:110-116 | a skipped row keeps 0.0, 0, "0%" and "" in every derived column |
| ReportSpec.SkippedDetailDefaults | nomic_module.py:184-190 | a skipped row keeps the defaults of all three dimensions |
| Master.BaseRows | nomic_module.py:72-81 | one base row per metadata row, identities kept |
| Master.MasterFrame.constructor | nomic_module.py:72-81 | the frame starts with the base columns and base rows |
| Master.MasterFrame.SetColumn | nomic_module.py:86 | the column is added (or kept) and every row gets the value in it |
| Master.MasterFrame.SetCells | nomic_module.py:94 | only row `k` changes, by the given cells |
| Master.ItemData.constructor | nomic_module.py:207 | the item table as given |
| Master.ItemData.AddTotalScore | nomic_module.py:211-215 | succeeds iff `n`, `f` and `m` are all columns; then the item table becomes its scored form, otherwise it is unchanged |
| Master.WriteRows | nomic_module.py:104-126 | each row becomes its defaults overridden by the pass's write for its identity, if any |
| Master.ItemCountRows | nomic_module.py:87-94 | every row gains an integer item count, identity kept |
| Master.AddItemCount | nomic_module.py:84-95 | the frame gains the item-count column, rows as `ItemCountRows` |
| Master.SetAverageDefaults | nomic_module.py:99-102 | four average columns set to 0.0 in every row |
| Master.AverageRows | nomic_module.py:104-126 | one row per row, identity kept |
| Master.AddAverageScores | nomic_module.py:98-127 | the frame gains the average columns, rows as `AverageRows` |
| Master.SetExcellentDefaults | nomic_module.py:131-132 | count 0 and ratio "0%" in every row |
| Master.ExcellentRows | nomic_module.py:134-156 | one row per row, identity kept |
| Master.AddExcellentIdeas | nomic_module.py:130-157 | the frame gains the excellent columns, rows as `ExcellentRows` |
| Master.SetDetailDefaults | nomic_module.py:175-177 | a dimension's three columns set to 0.0, 0 and "0%" |
| Master.DetailDefaultsInThreeWrites | nomic_module.py:175-177 | the three column assignments give the dimension's defaults |
| Master.DimensionRows | nomic_module.py:179-197 | one row per row, identity kept |
| Master.AddDimension | nomic_module.py:167-197 | one dimension's columns added, rows as `DimensionRows` |
| Master.DetailRowsUpTo | nomic_module.py:167-197 | the dimensions in order novelty, marketability, feasibility, identity kept |
| Master.AddDetailedScores | nomic_module.py:160-198 | all three dimensions' columns added in that order, rows as `DetailRowsUpTo` |
| Master.SetColumns | nomic_module.py:227-230 | every listed column set to the value in every row |
| Master.BestDefaultsInTwoLoops | nomic_module.py:227-230 | the two initialisation loops give the best-idea defaults |
| Master.SetBestDefaults | nomic_module.py:227-230 | the seven best-idea columns with "" and 0.0 |
| Master.BestRows | nomic_module.py:233-258 | one row per row, identity kept |
| Master.WriteBestIdeas | nomic_module.py:233-258 | the best-idea columns added, rows as `BestRows` |
| Master.AddBestIdeas | nomic_module.py:207-260 | succeeds iff the three score columns exist; then the item table gains `total_score` and the frame gains the best-idea columns read from the scored table; otherwise neither table changes |
| Pipeline.ReportColumnsInOrder | nomic_module.py:267-274 | the passes append their columns in order, giving the report's 28-column layout |
| Pipeline.ReportRows | nomic_module.py:267-275 | one report row per metadata row |
| Pipeline.ScoringStages | nomic_module.py:269-273 | the passes applied in turn to a base row give the scored report row |
| Pipeline.PassesBuildReportRows | nomic_module.py:267-275 | running the passes over all rows gives the report rows |
| Pipeline.ItemCountsKept | nomic_module.py:154 | the excellent pass reads the item count the first pass wrote |
| Pipeline.PrepareMaster | nomic_module.py:267-275 | fails with the `fillna` error iff a score column is missing, leaving the item table as it was; otherwise a fresh frame with the report columns, rows as `ReportRows` of the unscored table, and the item table scored |
| Text.Strip | sheet_module.py:177 | the stripped text neither starts nor ends with whitespace |
| Text.StripLeft | sheet_module.py:177 | a suffix of the input that starts with a non-whitespace character, with only whitespace (Python's `str.isspace` set) dropped |
| Text.StripRight | sheet_module.py:177 | a prefix of the input that ends with a non-space, with only spaces dropped |
| Text.Upper | sheet_module.py:194 | same length, each character upper-cased |
| SheetKeys.IdRunLength | sheet_module.py:19 | the length of the longest leading run of `[A-Za-z0-9_-]` |
| SheetKeys.FirstMatch | sheet_module.py:19 | the leftmost position where `/spreadsheets/d/` and one id character start |
| SheetKeys.ExtractSpreadsheetId | sheet_module.py:18-20 | the input itself when the pattern does not match, otherwise a non-empty run of id characters shorter than the input |
| SheetKeys.IdIsMaximalRun | sheet_module.py:18-20 | at the first match the id is the non-empty, maximal run of id characters after the marker |
| SheetKeys.NoMatchKeepsInput | sheet_module.py:20 | without a match the input is returned |
| SheetKeys.SlashFreeInputUnchanged | sheet_module.py:18-20 | a bare id (no `/`) is returned unchanged |
| SheetKeys.SheetUrlYieldsId | sheet_module.py:18-20 | a prefix without the marker, then the marker, an id and a non-id character or the end, gives the id |
| SheetKeys.IdRunOfId | sheet_module.py:19 | an id followed by a non-id character has run length the id's length |
| SheetKeys.GoogleSheetUrl | sheet_module.py:18-20 | a `https://docs.google.com/spreadsheets/d/<id>/edit` address gives `<id>` |
| SheetKeys.ColumnLettersAreLetters | sheet_module.py:726-729 | the letters are upper-case, and non-empty iff n is at least 1 |
| SheetKeys.LettersValueOfColumnLetters | sheet_module.py:726-729 | reading the letters back in bijective base 26 gives n |
| SheetKeys.ColumnLettersOfLettersValue | sheet_module.py:195-198 | any upper-case letter string is the letters of its value: the two are inverse bijections |
| SheetKeys.ShortcutAgrees | sheet_module.py:722-729 | for 1 to 26 columns `chr(64 + n)` equals the general loop |
| SheetKeys.LastColumnLetter | sheet_module.py:722-729 | the header's last-column letters for n columns (and `chr(64)` for none) |
| SheetKeys.IndexOf | sheet_module.py:200 | the first position of the name |
| SheetKeys.ColIndexAsWritten | sheet_module.py:188-201 | fails iff the key is neither an int, nor a string the letter pattern accepts as written, nor a column name; a name that is not a letter key gives a position holding that name |
| SheetKeys.ColIndex | sheet_module.py:190-201 | the intended lookup: fails iff the key is neither an int, nor a string of letters, nor a column name; a name that is not a letter key gives a position holding that name |
| SheetKeys.ColToIndex | sheet_module.py:190-201 | the loop computes `ColIndex`: int k gives k-1, a letter key its base-26 value minus 1, a column name its position, else an error |
| SheetKeys.LetterKeyIndex | sheet_module.py:193-198 | a letter key gives its upper-case value minus 1, case-insensitively, even when a column has that name |
| SheetKeys.NameKeyIndex | sheet_module.py:199-200 | a non-letter name in the columns gives its first position |
| SheetKeys.UnknownKeyFails | sheet_module.py:201 | any other key is an error |
| SheetKeys.ColIndexExamples | sheet_module.py:190-198 | A gives 0, Z 25, AA 26, aa 26, and int 3 gives 2 |
| SheetKeys.HeaderLettersRoundTrip | sheet_module.py:190-198 | the header letters for n columns, given back as a key, give n-1 |
| SheetKeys.TrailingNewlineAccepted | sheet_module.py:188-198 | as written, the key "A\n" passes the letter test and gives -29; the corrected test refuses it |
| SheetKeys.AsWrittenDiffersOnlyOnNewline | sheet_module.py:188-193 | the as-written and corrected lookups differ only on keys ending in a newline |
| Colour.ParseField | sheet_module.py:183-185 | a field `int(..., 16)` accepts reads as a value in [-15, 255] |
| Colour.Doubled | sheet_module.py:181-182 | the doubled text is twice as long (`Colour.DoubledDigits` states its contents) |
| Colour.Repr | sheet_module.py:183-185 | Python's `repr` of the refused field: at least two characters longer than the field, opening and closing with the same quote, `'` or `"` |
| Colour.FieldError | sheet_module.py:183-185 | the `ValueError` text of `int(t, 16)` starts with "invalid literal for int() with base 16: " |
| Colour.ParseFields | sheet_module.py:183-185 | a failure carries `int()`'s message; each component lies in [-15, 255] |
| Colour.FieldErrorOrder | sheet_module.py:183-185 | the three fields succeed together; otherwise the error is `int()`'s message naming the first refused field, red before green before blue |
| Colour.ParseHex | sheet_module.py:176-186 | fails only with the missing-`#` message or `int()`'s message for a field; components in [-15, 255] |
| Colour.HexToColor | sheet_module.py:176-186 | fails only with its own missing-`#` message or `int()`'s message for a field; components in [-15, 255] |
| Colour.HexToRgbColor | sheet_module.py:584-595 | the same colours as `HexToColor`; the same failures, with its own missing-`#` message and otherwise exactly `HexToColor`'s message |
| Colour.BadRedField | sheet_module.py:177-183 | `#` and six characters whose first is neither a digit, a sign nor whitespace fail on the red field, and the message shows its two characters in single quotes: `#zz0000` gives "...: 'zz'" |
| Colour.RedRefused | sheet_module.py:183 | a red field `int()` refuses is the field the error names |
| Colour.RefusedPair | sheet_module.py:183 | two non-whitespace characters starting with neither a digit nor a sign are refused |
| Colour.ReprPlain | sheet_module.py:183 | a printable text without quotes or backslashes is shown in single quotes |
| Colour.HashTrimmed | sheet_module.py:177-182 | after the `#`, a text without trailing whitespace and not three characters long reaches the fields unchanged |
| Colour.NoHashFails | sheet_module.py:176-179 | a stripped input not starting with `#` is refused, each parse with its own message |
| Colour.FormatRoundTrip | sheet_module.py:176-186 | formatting components below 256 as `#RRGGBB` and parsing gives them back |
| Colour.SixDigits | sheet_module.py:183-185 | `#` and six digits give the values of the three digit pairs |
| Colour.ShortForm | sheet_module.py:181-182 | `#abc` parses as `#aabbcc`, each component 17 times its digit |
| Colour.DoubledDigits | sheet_module.py:182 | doubling places each digit twice in order |
| Colour.ExtraCharactersIgnored | sheet_module.py:183-185 | characters after the sixth digit are ignored |
| Colour.SignedFieldsAccepted | sheet_module.py:183-185 | `int(..., 16)` accepts a signed digit in a field, so `#-a+b-c` parses to negative components |
| Colour.PairField | sheet_module.py:183 | two digits read as their value |
| Colour.SignedPair | sheet_module.py:183-185 | a sign and a digit read as the signed digit |
| SheetRequests.ResetRange | sheet_module.py:89-92 | rows and columns at least 1, covering the current values |
| SheetRequests.CountRules | sheet_module.py:102-105 | the loop adds up the rule counts of the sheets that report one |
| SheetRequests.RuleTotalCountsEverySheet | sheet_module.py:102-105 | the total is at least every sheet's count |
| SheetRequests.ResetRequests | sheet_module.py:109-167 | clear filter, base format, clear borders, then one delete at index 0 per rule |
| SheetRequests.DeletesClearRules | sheet_module.py:109-113 | deleting index 0 as many times as there are rules removes all of them |
| SheetRequests.WrapMode | sheet_module.py:234-243 | a bool always succeeds; a name succeeds only when its upper form is WRAP, CLIP, OVERFLOW_CELL or OVERFLOW; the one failure is the wrap message |
| SheetRequests.WrapNameAccepted | sheet_module.py:237-243 | a wrap name is accepted iff its upper form is WRAP, CLIP, OVERFLOW_CELL or OVERFLOW, and OVERFLOW means OVERFLOW_CELL |
| SheetRequests.WrapNameRoundTrip | sheet_module.py:235-243 | every strategy's own name is accepted as that strategy |
| SheetRequests.WrapFlagMode | sheet_module.py:235-236 | true gives WRAP, false OVERFLOW_CELL |
| SheetRequests.NumberFormatOf | sheet_module.py:267-277 | the type has the length of the argument; a pattern is one of the three fixed ones |
| SheetRequests.NumberFormatKinds | sheet_module.py:267-277 | the type is the upper form; a pattern exactly for PERCENT, NUMBER and CURRENCY |
| SheetRequests.StyleColumn | sheet_module.py:203-316 | nothing for an empty frame and no error then; otherwise one or two requests, the first a one-column style request on the sheet |
| SheetRequests.StyleColumnErrors | sheet_module.py:226-246 | errors in order: column key (the lookup as written), then wrap, then colour; success iff all three succeed |
| SheetRequests.StyleColumnRequests | sheet_module.py:229-310 | one style request over the column's rows, the column found by the lookup as written, without background; the number-format field iff requested; a width request iff width > 0 |
| SheetRequests.StyleColumnNewlineKey | sheet_module.py:229 | as written, the key "A\n" on a frame without that column styles column -29 |
| SheetRequests.BaseSheetDesign | sheet_module.py:318-363 | nothing for an empty frame; else the middle alignment then a stripe for rows 2, 4, … |
| SheetRequests.StripesOnEvenRows | sheet_module.py:348-363 | a row in [1, len(df)+1) has a stripe iff it is even |
| SheetRequests.PlanetBorder | sheet_module.py:617-689 | nothing for an empty frame; a bad colour is an error; clear only without a planet; else clear, outer border, six group lines |
| SheetRequests.PlanetRequests | sheet_module.py:627-685 | the request list for a parsed colour, as `PlanetShape` |
| SheetRequests.GroupLines | sheet_module.py:667-682 | one left line per edge of `[5, 10, 12, 15, 18, 21]`, in order |
| SheetLayout.GroupEdgesStartReportSections | sheet_module.py:668 | in the full 28-column report the edges fall on item count, excellent, the three details and the best idea |
| Dropdowns.KeptTextsAreCategories | sheet_module.py:392-395 | a text is kept iff it is the stripped text of a non-missing, non-blank value |
| Dropdowns.Categories | sheet_module.py:392-395 | strictly sorted, holding exactly the stripped texts of non-missing values other than "", "None" and "nan" |
| Dropdowns.SortedCategories | sheet_module.py:392-395 | membership of the sorted list is category membership |
| Dropdowns.CategoriesDistinct | sheet_module.py:392-395 | no category twice |
| Dropdowns.FilledMarks | sheet_module.py:510-511 | one mark per value: its stripped text is not blank |
| Dropdowns.MarkedFrom | sheet_module.py:510-511 | the numbers of the marked values, increasing and within the data rows |
| Dropdowns.MarkedExact | sheet_module.py:510-511 | a number is listed iff its value is marked |
| Dropdowns.NonEmptyRows | sheet_module.py:510-511 | increasing sheet rows, each a data row from 2 to the series length + 1 |
| Dropdowns.Cleanup | sheet_module.py:482-504 | two find-and-replace requests over column D, of "nan" and then "None", each to the empty text, ignoring case and matching whole cells |
| Dropdowns.NonEmptyRowsExact | sheet_module.py:510-511 | sheet row x is listed iff it is a data row (from 2) whose value is not blank |
| Dropdowns.MissingValueFilledButNoCategory | sheet_module.py:510-517 | a missing value printed `<NA>` gets a dropdown row yet gives no category |
| Dropdowns.CompressBlocks | sheet_module.py:521-532 | the blocks list the rows in order, each a maximal run, with gaps between blocks for increasing rows |
| Dropdowns.InExpand | sheet_module.py:521-532 | a row is in the blocks' rows iff some block spans it |
| Dropdowns.BlockRangeCoversBlock | sheet_module.py:542-543 | `[r1-1, r2)` covers exactly sheet rows r1..r2 |
| Dropdowns.ColumnCRequests | sheet_module.py:397-458 | the validation over column C, then one text rule per category at index 0 |
| Dropdowns.ColumnDRequests | sheet_module.py:534-576 | per block, the validation and the gray bold text over its range |
| Dropdowns.ColumnCDropdown | sheet_module.py:388-462 | nothing without categories, else the column C requests |
| Dropdowns.ColumnDDropdowns | sheet_module.py:509-580 | nothing without non-empty rows or categories, else dropdowns on exactly the blocks of the non-empty rows |
| Dropdowns.ColumnDropdowns | sheet_module.py:369-580 | for columns of the frame's height: nothing for an empty frame; column C's batch when it exists; D's cleanup and dropdowns when D exists |
| Dropdowns.DropdownsExactlyOnFilledRows | sheet_module.py:509-576 | a sheet row gets a D dropdown iff its value is not blank |

## Left out

- Network, login and I/O: `nomic.login`, `AtlasDataset`, `get_data`, `create_nomic_dataset`, `get_map_data`, the gspread authorisation, `write_sheet`, `set_with_dataframe`, every `build(...)` and `batchUpdate(...).execute()` call, and the `print` diagnostics. The model stops at each request list.
- `app.py` is not part of this model: it is the user interface.
- `apply_header_style` beyond the last-column letters (`format_cell_range`, the frozen row, the row height), `apply_filter_to_header` and `apply_wrap_text_to_header_row` are not modelled.
- Rounding: `round(..., 2)` and `f"{round(ratio, 1)}%"` are not modelled. Means and ratios stay exact reals.
- The `/255.0` scaling of colour components and the `colorsys` palettes of the dropdown rules are left out.
- The dropdown text rules (`SheetRequests.AddTextEqRule`) carry no colours.
- Pandas coercion internals: `pd.to_numeric` is the abstract `toNumeric`. The best idea's individual scores may be NaN (`NaNVal`) and are not zero-defaulted.
- ReportSpec.BestIndex: picks the first maximal member, where the code's non-stable sort may put another maximal member first on a tie; the report rows of `Pipeline.PrepareMaster` are stated for that pick only.
- Text.Upper: upper-cases ASCII letters only, because Python's Unicode case mapping (e.g. `ı` to `I`) is not modelled.
- Colour.ParseField: accepts only ASCII hex digits and one sign, because `int()`'s non-ASCII decimal digits are not modelled (an underscore cannot occur in a valid two-character field).
- SheetKeys.ColIndex: the key is one of int, string or other, because a Python `bool` key (a subclass of `int`) is not distinguished.
- SheetRequests.AfterDeletes: describes in-range deletes only. `reset_sheet` counts the rules of every sheet but deletes them on one sheet, so when another sheet has rules some deletes are out of range, and the Sheets API rejects the whole batch; the model does not capture that rejection.
- Dropdowns.Cleanup: states the two requests and their flags but not the Sheets find-and-replace semantics, so the model does not show that case-insensitive whole-cell matching also blanks "NaN" and "NONE".
- `style_column`'s `df is None` is the same as an empty frame here.
- The exception texts are kept as strings, `int()`'s with the `repr` of the refused field; the `f"Unknown column spec: {col_key}"` of a non-string key is one fixed message.
- Colour.Repr: escapes the backslash, the quote, `\n`, `\r`, `\t` and the other non-printable characters below U+0100 as Python does, but keeps every character from U+0100 on as it is, because Python's `\uXXXX` escapes of non-printable characters beyond U+00FF are not modelled.
- Pandas column names are strings, with a missing mandatory column (a `KeyError`) excluded by the record types.

## Findings

| source | as written | input that shows it | evidently intended | confidence | as-written member | corrected member |
|---|---|---|---|---|---|---|
| sheet_module.py:188-198 | `re.match(r"^[A-Za-z]+$", key)` also accepts letters followed by one trailing newline, since `$` matches before it | the key "A\n" passes the letter test, and the loop gives `1*26 + (10-64) - 1 = -29`; `style_column` then styles column -29 | only letter keys are read as letters; "A\n" goes to the column-name lookup, or fails | not executed | SheetKeys.TrailingNewlineAccepted | SheetKeys.LetterKeyIndex |
