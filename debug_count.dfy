/** debugZplLabels of src/app/debug-actions.ts: a diagnostic report of the
    markers in a ZPL text and the label count it would recommend. */
module DebugCount {
  import opened Patterns
  import opened LabelCount

  /** The record the diagnostic returns. */
  datatype LabelReport = LabelReport(
    totalLength: nat,
    dgrCount: nat,
    pqCount: nat,
    xaCount: nat,
    xzCount: nat,
    recommendedCount: nat)

  /** Math.max(dgrCount, pqCount, floor(xaCount / 2)): the largest of the
      three, and always one of them. */
  function Recommended(dgrCount: nat, pqCount: nat, xaCount: nat): (n: nat)
    ensures n >= dgrCount && n >= pqCount && n >= xaCount / 2
    ensures n == dgrCount || n == pqCount || n == xaCount / 2
  {
    var m := if dgrCount >= pqCount then dgrCount else pqCount;
    if m >= xaCount / 2 then m else xaCount / 2
  }

  /** debugZplLabels: every marker is counted with a global match, and ^PQ
      commands are counted, not read for their argument. */
  function DebugZplLabels(zpl: string): LabelReport {
    var dgrCount := Count(Dgr, zpl);
    var xaCount := Count(Xa, zpl);
    var xzCount := Count(Xz, zpl);
    var pqCount := Count(Pq, zpl);
    LabelReport(|zpl|, dgrCount, pqCount, xaCount, xzCount, Recommended(dgrCount, pqCount, xaCount))
  }

  /** The report's counts are the plain numbers of places where each marker
      occurs: no ^XA is left out, whatever follows it, and the length is the
      text's. */
  lemma ReportCounts(zpl: string)
    ensures DebugZplLabels(zpl).totalLength == |zpl|
    ensures DebugZplLabels(zpl).dgrCount == Occurrences(Dgr, zpl)
    ensures DebugZplLabels(zpl).xaCount == Occurrences(Xa, zpl)
    ensures DebugZplLabels(zpl).xzCount == Occurrences(Xz, zpl)
    ensures DebugZplLabels(zpl).pqCount == Occurrences(Pq, zpl)
    ensures DebugZplLabels(zpl).recommendedCount
      == Recommended(Occurrences(Dgr, zpl), Occurrences(Pq, zpl), Occurrences(Xa, zpl))
  {
    MarkersDoNotOverlap();
    CountIsOccurrences(Dgr, zpl);
    CountIsOccurrences(Xa, zpl);
    CountIsOccurrences(Xz, zpl);
    CountIsOccurrences(Pq, zpl);
  }

  /** A text with no graphic download, no ^PQ command and at most one ^XA is
      recommended zero labels. */
  lemma NoMarkersNoLabels(zpl: string)
    requires Occurrences(Dgr, zpl) == 0 && Occurrences(Pq, zpl) == 0 && Occurrences(Xa, zpl) <= 1
    ensures DebugZplLabels(zpl).recommendedCount == 0
  {
    ReportCounts(zpl);
  }

  /** The diagnostic counts every label start that countLabelsInZPL counts,
      and more when some ^XA is followed by ^QA or ^MMT. */
  lemma XaCountCoversStandalone(zpl: string)
    ensures Occurrences(StandaloneXa, zpl) <= DebugZplLabels(zpl).xaCount
  {
    ReportCounts(zpl);
    StandaloneXaAtMostXa(zpl, 0);
  }

  /** When the text has graphic downloads, the diagnostic never recommends fewer
      labels than countLabelsInZPL returns. */
  lemma RecommendedCoversDgrCount(zpl: string)
    requires Occurrences(Dgr, zpl) > 0
    ensures CountLabelsInZpl(zpl) <= DebugZplLabels(zpl).recommendedCount
  {
    ReportCounts(zpl);
    DgrDecides(zpl);
  }
}
