/**
 * How the planet border of the sheet writer lines up with the report the topic pipeline writes:
 * each vertical group line of `apply_planet_border` is drawn on the left of the first column of a
 * pass's group when the written frame is the full report (all three score dimensions present).
 */
module SheetLayout {
  import opened ReportSpec
  import opened SheetRequests

  /** The full report has 28 columns, and the six group edges start, in order, the item count, the
      excellent-idea columns, the novelty, marketability and feasibility details and the best idea. */
  lemma GroupEdgesStartReportSections()
    ensures |ReportColumns()| == 28
    ensures |GroupRightEdges| == 6
    ensures ReportColumns()[GroupRightEdges[0]] == ItemCountCol
    ensures ReportColumns()[GroupRightEdges[1]] == ExcellentCountCol
    ensures ReportColumns()[GroupRightEdges[2]] == DetailMeanCol(Novelty)
    ensures ReportColumns()[GroupRightEdges[3]] == DetailMeanCol(Marketability)
    ensures ReportColumns()[GroupRightEdges[4]] == DetailMeanCol(Feasibility)
    ensures ReportColumns()[GroupRightEdges[5]] == TitleCol
  {
    assert DetailColumnsUpTo(|DimensionOrder|) == DetailColumns(Novelty) + DetailColumns(Marketability) + DetailColumns(Feasibility) by {
      assert DetailColumnsUpTo(1) == DetailColumns(Novelty);
      assert DetailColumnsUpTo(2) == DetailColumns(Novelty) + DetailColumns(Marketability);
    }
  }
}
