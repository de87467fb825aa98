/** countLabelsInZPL of src/app/actions.ts: how many labels a ZPL document holds,
    by three rules tried in priority order. */
module LabelCount {
  import opened Text
  import opened Wrappers
  import opened Patterns

  /** zpl.match(/\^PQ(\d+)/) followed by parseInt of the captured digits: the
      argument of the first ^PQ command that has one. */
  function FirstPqValue(zpl: string): (v: Option<nat>)
    ensures v.None? <==> forall i :: 0 <= i < |zpl| ==> !MatchesAt(Pq, zpl, i)
    ensures v.Some? ==>
      (exists i :: 0 <= i < |zpl| && MatchesAt(Pq, zpl, i)
         && (forall k :: 0 <= k < i ==> !MatchesAt(Pq, zpl, k))
         && v.value == DecimalValue(Captured(Pq, zpl, i)))
  {
    match FirstMatch(Pq, zpl, 0)
    case None => None
    case Some(i) => Some(DecimalValue(Captured(Pq, zpl, i)))
  }

  /** countLabelsInZPL: the ~DGR: count if positive, else the count of ^XA not
      followed by ^QA or ^MMT if positive, else the first ^PQ argument, else 1. */
  function CountLabelsInZpl(zpl: string): nat {
    var dgrBlocks := Count(Dgr, zpl);
    if dgrBlocks > 0 then dgrBlocks
    else
      var standaloneXa := Count(StandaloneXa, zpl);
      if standaloneXa > 0 then standaloneXa
      else
        match FirstPqValue(zpl)
        case Some(n) => n
        case None => 1
  }

  /** The first rule whose count is positive decides, stated over the indices at
      which each marker occurs. */
  lemma CountLabelsRules(zpl: string)
    ensures Occurrences(Dgr, zpl) > 0 ==> CountLabelsInZpl(zpl) == Occurrences(Dgr, zpl)
    ensures Occurrences(Dgr, zpl) == 0 && Occurrences(StandaloneXa, zpl) > 0 ==>
      CountLabelsInZpl(zpl) == Occurrences(StandaloneXa, zpl)
    ensures Occurrences(Dgr, zpl) == 0 && Occurrences(StandaloneXa, zpl) == 0 ==>
      CountLabelsInZpl(zpl) == (match FirstPqValue(zpl) case Some(n) => n case None => 1)
  {
    MarkersDoNotOverlap();
    CountIsOccurrences(Dgr, zpl);
    CountIsOccurrences(StandaloneXa, zpl);
  }

  /** A document with graphic downloads is counted by them alone: adding any
      ^XA or ^PQ text after the last one leaves the count as it was, as long as
      no new ~DGR: appears. */
  lemma DgrCountIsAuthoritative(zpl: string, extra: string)
    requires Occurrences(Dgr, zpl) > 0
    requires Occurrences(Dgr, zpl + extra) == Occurrences(Dgr, zpl)
    ensures CountLabelsInZpl(zpl + extra) == CountLabelsInZpl(zpl) == Occurrences(Dgr, zpl)
  {
    CountLabelsRules(zpl);
    CountLabelsRules(zpl + extra);
  }

  /** Any positive number of graphic downloads is the count. */
  lemma DgrDecides(zpl: string)
    requires Occurrences(Dgr, zpl) > 0
    ensures CountLabelsInZpl(zpl) == Occurrences(Dgr, zpl)
  {
    CountLabelsRules(zpl);
  }

  /** Exactly one graphic download means exactly one label, whatever else the
      document holds. */
  lemma OneDgrIsOneLabel(zpl: string)
    requires Occurrences(Dgr, zpl) == 1
    ensures CountLabelsInZpl(zpl) == 1
  {
    CountLabelsRules(zpl);
  }

  /** The count is zero only for a document whose deciding rule is a ^PQ0. */
  lemma CountZeroOnlyFromPq(zpl: string)
    ensures CountLabelsInZpl(zpl) == 0 <==>
      Occurrences(Dgr, zpl) == 0 && Occurrences(StandaloneXa, zpl) == 0
      && FirstPqValue(zpl) == Some(0)
  {
    CountLabelsRules(zpl);
  }

  /** A match of /\^XA(?!...)/ is a match of /\^XA/, so there are never more
      standalone label starts than label starts. */
  lemma {:induction false} StandaloneXaAtMostXa(zpl: string, i: nat)
    ensures |AllMatches(StandaloneXa, zpl, i)| <= |AllMatches(Xa, zpl, i)|
    decreases |zpl| - i
  {
    if i < |zpl| {
      StandaloneXaAtMostXa(zpl, i + 1);
      assert MatchesAt(StandaloneXa, zpl, i) ==> MatchesAt(Xa, zpl, i);
    }
  }
}
