/** splitZplIntoIndividualLabels and splitZplIntoChunks of src/app/actions.ts:
    cutting a ZPL document at every ~DGR: into one piece per label. */
module Splitting {
  import opened Text
  import opened Patterns
  import opened Arith

  /** The k-th piece starts with a whole ~DGR: and holds no other ~DGR: start. */
  lemma SegmentBounds(zpl: string, k: nat)
    requires k < Occurrences(Dgr, zpl)
    ensures OccursAt(zpl, AllMatches(Dgr, zpl, 0)[k], "~DGR:")
    ensures AllMatches(Dgr, zpl, 0)[k] + 5 <= NextMatchOrEnd(Dgr, zpl, k) <= |zpl|
    ensures forall j :: AllMatches(Dgr, zpl, 0)[k] < j < NextMatchOrEnd(Dgr, zpl, k) ==>
      !MatchesAt(Dgr, zpl, j)
  {
    MarkersDoNotOverlap();
    MatchStretch(Dgr, zpl, k);
  }

  /** The lastIndex scan for ~DGR: finds every occurrence. */
  lemma DgrScan(zpl: string)
    ensures Scan(Dgr, zpl, 0) == AllMatches(Dgr, zpl, 0)
  {
    MarkersDoNotOverlap();
    ScanFindsAll(Dgr, zpl, 0);
  }

  /** The substring the loops of both splitters cut for the k-th ~DGR:. */
  lemma SegmentIsCut(zpl: string, ps: seq<nat>, k: nat)
    requires ps == AllMatches(Dgr, zpl, 0) && k < |ps|
    ensures (if k < |ps| - 1 then ps[k + 1] else |zpl|) == NextMatchOrEnd(Dgr, zpl, k)
    ensures ps[k] <= NextMatchOrEnd(Dgr, zpl, k) <= |zpl|
    ensures zpl[ps[k]..NextMatchOrEnd(Dgr, zpl, k)] == DgrSegment(zpl, k)
  {
    SegmentBounds(zpl, k);
  }

  /** zpl.substring(start, end) for the k-th ~DGR: match. */
  function DgrSegment(zpl: string, k: nat): (seg: string)
    requires k < Occurrences(Dgr, zpl)
    ensures StartsWith(seg, "~DGR:")
  {
    SegmentBounds(zpl, k);
    var p := AllMatches(Dgr, zpl, 0)[k];
    assert zpl[p..NextMatchOrEnd(Dgr, zpl, k)][..5] == zpl[p..p + 5];
    zpl[p..NextMatchOrEnd(Dgr, zpl, k)]
  }

  /** A trimmed piece is a prefix of the piece that still starts with ~DGR:. */
  lemma TrimmedSegment(zpl: string, k: nat)
    requires k < Occurrences(Dgr, zpl)
    ensures StartsWith(Trim(DgrSegment(zpl, k)), "~DGR:")
    ensures |Trim(DgrSegment(zpl, k))| <= |DgrSegment(zpl, k)|
    ensures Trim(DgrSegment(zpl, k)) == DgrSegment(zpl, k)[..|Trim(DgrSegment(zpl, k))|]
  {
    TrimKeepsPrefix(DgrSegment(zpl, k), "~DGR:");
  }

  lemma ContainsAppend(s: string, t: string, x: string)
    requires Contains(s, t)
    ensures Contains(s + x, t) && Contains(x + s, t)
  {
    var i: nat :| i <= |s| && OccursAt(s, i, t);
    assert (s + x)[i..i + |t|] == s[i..i + |t|];
    assert OccursAt(s + x, i, t);
    assert (x + s)[|x| + i..|x| + i + |t|] == s[i..i + |t|];
    assert OccursAt(x + s, |x| + i, t);
  }

  lemma ContainsEnds(s: string, t: string)
    ensures Contains(t + s, t) && Contains(s + t, t)
  {
    assert OccursAt(t + s, 0, t);
    assert (s + t)[|s|..|s| + |t|] == t;
    assert OccursAt(s + t, |s|, t);
  }

  lemma StartsWithAppend(s: string, p: string, x: string)
    requires StartsWith(s, p)
    ensures StartsWith(s + x, p) && StartsWith(x + s, x + p)
  {
    assert (s + x)[..|p|] == s[..|p|];
    assert (x + s)[..|x + p|] == x + s[..|p|];
  }

  /** splitZplIntoIndividualLabels' repair of one piece: ^XA in front of a piece
      without ^XA, then ^XZ after a piece without ^XZ. */
  function CompleteLabel(piece: string): string {
    var started := if Contains(piece, "^XA") then piece else "^XA" + piece;
    if Contains(started, "^XZ") then started else started + "^XZ"
  }

  /** The repaired piece holds both a label start and a label end, and begins
      with the piece's ~DGR:, or with ^XA~DGR: when ^XA had to be added. */
  lemma CompleteLabelShape(piece: string)
    requires StartsWith(piece, "~DGR:")
    ensures Contains(CompleteLabel(piece), "^XA") && Contains(CompleteLabel(piece), "^XZ")
    ensures Contains(piece, "^XA") ==> StartsWith(CompleteLabel(piece), "~DGR:")
    ensures !Contains(piece, "^XA") ==> StartsWith(CompleteLabel(piece), "^XA~DGR:")
  {
    var started := if Contains(piece, "^XA") then piece else "^XA" + piece;
    if !Contains(piece, "^XA") {
      ContainsEnds(piece, "^XA");
      StartsWithAppend(piece, "~DGR:", "^XA");
    }
    assert Contains(started, "^XA");
    if !Contains(started, "^XZ") {
      ContainsEnds(started, "^XZ");
      ContainsAppend(started, "^XA", "^XZ");
      if Contains(piece, "^XA") {
        StartsWithAppend(piece, "~DGR:", "^XZ");
      } else {
        StartsWithAppend(started, "^XA~DGR:", "^XZ");
      }
    }
  }

  /** The k-th label splitZplIntoIndividualLabels produces. */
  function IndividualLabel(zpl: string, k: nat): string
    requires k < Occurrences(Dgr, zpl)
  {
    CompleteLabel(Trim(DgrSegment(zpl, k)))
  }

  /** splitZplIntoIndividualLabels: one label per ~DGR:, in document order, each
      the trimmed piece from its ~DGR: to the next, repaired. */
  method SplitIntoIndividualLabels(zpl: string) returns (labels: seq<string>)
    ensures |labels| == Occurrences(Dgr, zpl)
    ensures forall k :: 0 <= k < |labels| ==> labels[k] == IndividualLabel(zpl, k)
    ensures forall k :: 0 <= k < |labels| ==>
      Contains(labels[k], "^XA") && Contains(labels[k], "^XZ")
    ensures forall k :: 0 <= k < |labels| ==>
      StartsWith(labels[k], "~DGR:") || StartsWith(labels[k], "^XA~DGR:")
  {
    var dgrMatches := Scan(Dgr, zpl, 0);
    DgrScan(zpl);
    labels := [];
    var i := 0;
    while i < |dgrMatches|
      invariant 0 <= i <= |dgrMatches|
      invariant |labels| == i
      invariant forall k :: 0 <= k < i ==> labels[k] == IndividualLabel(zpl, k)
    {
      SegmentIsCut(zpl, dgrMatches, i);
      var startPos := dgrMatches[i];
      var endPos := if i < |dgrMatches| - 1 then dgrMatches[i + 1] else |zpl|;
      var piece := Trim(zpl[startPos..endPos]);
      if !Contains(piece, "^XA") {
        piece := "^XA" + piece;
      }
      if !Contains(piece, "^XZ") {
        piece := piece + "^XZ";
      }
      assert piece == IndividualLabel(zpl, i);
      labels := labels + [piece];
      i := i + 1;
    }
    forall k | 0 <= k < |labels|
      ensures Contains(labels[k], "^XA") && Contains(labels[k], "^XZ")
      ensures StartsWith(labels[k], "~DGR:") || StartsWith(labels[k], "^XA~DGR:")
    {
      IndividualLabelShape(zpl, k);
    }
  }

  /** Every label holds ^XA and ^XZ and begins with its ~DGR:, possibly after an
      added ^XA. */
  lemma IndividualLabelShape(zpl: string, k: nat)
    requires k < Occurrences(Dgr, zpl)
    ensures Contains(IndividualLabel(zpl, k), "^XA") && Contains(IndividualLabel(zpl, k), "^XZ")
    ensures StartsWith(IndividualLabel(zpl, k), "~DGR:")
      || StartsWith(IndividualLabel(zpl, k), "^XA~DGR:")
  {
    TrimmedSegment(zpl, k);
    CompleteLabelShape(Trim(DgrSegment(zpl, k)));
  }

  /** The block splitZplIntoChunks appends to a piece that does not end in ^XZ. */
  const ChunkTerminator := "\n^XA^IDR:DEMO.GRF^FS^XZ"

  /** The blank line splitZplIntoChunks puts between the labels of a chunk. */
  const ChunkSeparator := "\n\n"

  /** splitZplIntoChunks' repair of one piece: end it with ^XZ. */
  function TerminatedLabel(piece: string): string {
    if EndsWith(piece, "^XZ") then piece else piece + ChunkTerminator
  }

  /** The k-th label splitZplIntoChunks groups. */
  function ChunkLabel(zpl: string, k: nat): string
    requires k < Occurrences(Dgr, zpl)
  {
    TerminatedLabel(Trim(DgrSegment(zpl, k)))
  }

  /** The labels splitZplIntoChunks groups, before grouping. */
  function ChunkLabels(zpl: string): (labels: seq<string>)
    ensures |labels| == Occurrences(Dgr, zpl)
    ensures forall k :: 0 <= k < |labels| ==> labels[k] == ChunkLabel(zpl, k)
  {
    seq(Occurrences(Dgr, zpl), k requires 0 <= k < Occurrences(Dgr, zpl) => ChunkLabel(zpl, k))
  }

  lemma EndsWithAppend(s: string, x: string, t: string)
    requires EndsWith(x, t)
    ensures EndsWith(s + x, t)
  {
    assert (s + x)[|s + x| - |t|..] == x[|x| - |t|..];
  }

  /** A prefix t of s[p..e] holds lit at u only if s holds it at p + u. */
  lemma NotInPrefixOfSlice(s: string, p: nat, e: nat, t: string, u: nat, lit: string)
    requires p <= e <= |s| && |t| <= e - p && t == s[p..e][..|t|]
    requires u + |lit| <= |t| && !OccursAt(s, p + u, lit)
    ensures !OccursAt(t, u, lit)
  {
    forall j | u <= j < u + |lit|
      ensures t[j] == s[p + j]
    {
      assert t[j] == s[p..e][j];
    }
    assert t[u..u + |lit|] == s[p + u..p + u + |lit|];
  }

  /** No ~DGR: starts inside the trimmed k-th piece after its first character. */
  lemma NoDgrInside(zpl: string, k: nat, u: nat)
    requires k < Occurrences(Dgr, zpl)
    requires 0 < u < |Trim(DgrSegment(zpl, k))|
    ensures !OccursAt(Trim(DgrSegment(zpl, k)), u, "~DGR:")
  {
    var seg := DgrSegment(zpl, k);
    var t := Trim(seg);
    TrimmedSegment(zpl, k);
    SegmentBounds(zpl, k);
    var p := AllMatches(Dgr, zpl, 0)[k];
    var e := NextMatchOrEnd(Dgr, zpl, k);
    if u + 5 <= |t| {
      assert !MatchesAt(Dgr, zpl, p + u);
      NotInPrefixOfSlice(zpl, p, e, t, u, "~DGR:");
    }
  }

  /** The trimmed k-th piece holds exactly one ~DGR:, the one it starts with. */
  lemma TrimmedOneDgr(zpl: string, k: nat)
    requires k < Occurrences(Dgr, zpl)
    ensures Occurrences(Dgr, Trim(DgrSegment(zpl, k))) == 1
  {
    var t := Trim(DgrSegment(zpl, k));
    TrimmedSegment(zpl, k);
    forall u: nat | 0 < u < |t|
      ensures !OccursAt(t, u, "~DGR:")
    {
      NoDgrInside(zpl, k, u);
    }
    assert OccursAt(t, 0, "~DGR:");
    SingleOccurrence("~DGR:", t);
  }

  /** Each label of a chunk ends in ^XZ, starts with ~DGR: and holds it once. */
  lemma TerminatedLabelShape(zpl: string, k: nat)
    requires k < Occurrences(Dgr, zpl)
    ensures EndsWith(ChunkLabel(zpl, k), "^XZ")
    ensures StartsWith(ChunkLabel(zpl, k), "~DGR:")
    ensures Occurrences(Dgr, ChunkLabel(zpl, k)) == 1
  {
    var t := Trim(DgrSegment(zpl, k));
    TrimmedOneDgr(zpl, k);
    TrimmedSegment(zpl, k);
    if !EndsWith(t, "^XZ") {
      OccurrencesConcat("~DGR:", t, ChunkTerminator);
      NoOccurrences("~DGR:", ChunkTerminator);
      StartsWithAppend(t, "~DGR:", ChunkTerminator);
      assert EndsWith(ChunkTerminator, "^XZ");
      EndsWithAppend(t, ChunkTerminator, "^XZ");
    }
  }

  /** The labels in groups of m, in order; only the last group may be shorter. */
  function Groups(labels: seq<string>, m: nat): seq<seq<string>>
    requires m >= 1
    decreases |labels|
  {
    if labels == [] then []
    else
      var size := Min(m, |labels|);
      [labels[..size]] + Groups(labels[size..], m)
  }

  /** The groups one after the other. */
  function Flatten(groups: seq<seq<string>>): seq<string> {
    if groups == [] then [] else groups[0] + Flatten(groups[1..])
  }

  /** Groups partitions the labels in order into ceil(n / m) groups, each of m
      labels except the last, which holds between 1 and m. */
  lemma {:induction false} GroupsPartition(labels: seq<string>, m: nat)
    requires m >= 1
    ensures Flatten(Groups(labels, m)) == labels
    ensures |Groups(labels, m)| == (|labels| + m - 1) / m
    ensures forall c :: 0 <= c < |Groups(labels, m)| ==> 1 <= |Groups(labels, m)[c]| <= m
    ensures forall c :: 0 <= c < |Groups(labels, m)| - 1 ==> |Groups(labels, m)[c]| == m
    decreases |labels|
  {
    var gs := Groups(labels, m);
    if labels == [] {
      assert (m - 1) / m == 0 by { DivisionIsUnique(m - 1, m, 0); }
    } else {
      var size := Min(m, |labels|);
      var rest := labels[size..];
      GroupsPartition(rest, m);
      assert gs == [labels[..size]] + Groups(rest, m);
      assert gs[1..] == Groups(rest, m);
      assert labels == labels[..size] + rest;
      if |labels| <= m {
        assert rest == [];
        DivisionIsUnique(|labels| + m - 1, m, 1);
      } else {
        DivShift(|rest| + m - 1, m);
        assert |labels| + m - 1 == |rest| + m - 1 + m;
      }
      forall c | 0 <= c < |gs|
        ensures 1 <= |gs[c]| <= m
        ensures c < |gs| - 1 ==> |gs[c]| == m
      {
        if c > 0 {
          assert gs[c] == Groups(rest, m)[c - 1];
        }
      }
    }
  }

  /** The chunk strings: each group joined with a blank line. */
  function Chunked(labels: seq<string>, m: nat): (chunks: seq<string>)
    requires m >= 1
    ensures |chunks| == |Groups(labels, m)|
  {
    var gs := Groups(labels, m);
    seq(|gs|, c requires 0 <= c < |gs| => JoinWith(gs[c], ChunkSeparator))
  }

  /** One step of the grouping loop: the chunk starting at i, then the rest. */
  lemma ChunkedStep(labels: seq<string>, m: nat, i: nat)
    requires m >= 1 && i < |labels|
    ensures Chunked(labels[i..], m)
      == [JoinWith(labels[i..Min(i + m, |labels|)], ChunkSeparator)]
         + Chunked(labels[Min(i + m, |labels|)..], m)
  {
    var rest := labels[i..];
    var size := Min(m, |rest|);
    assert rest[..size] == labels[i..Min(i + m, |labels|)];
    assert rest[size..] == labels[Min(i + m, |labels|)..];
    assert Groups(rest, m) == [rest[..size]] + Groups(rest[size..], m);
  }

  /** splitZplIntoChunks' first loop: the piece from each ~DGR: to the next,
      trimmed and ended with ^XZ. */
  method CutChunkLabels(zpl: string) returns (labels: seq<string>)
    ensures labels == ChunkLabels(zpl)
  {
    var dgrMatches := Scan(Dgr, zpl, 0);
    DgrScan(zpl);
    labels := [];
    var i := 0;
    while i < |dgrMatches|
      invariant 0 <= i <= |dgrMatches|
      invariant |labels| == i
      invariant forall k :: 0 <= k < i ==> labels[k] == ChunkLabel(zpl, k)
    {
      SegmentIsCut(zpl, dgrMatches, i);
      var startPos := dgrMatches[i];
      var endPos := if i < |dgrMatches| - 1 then dgrMatches[i + 1] else |zpl|;
      var piece := Trim(zpl[startPos..endPos]);
      if !EndsWith(piece, "^XZ") {
        piece := piece + ChunkTerminator;
      }
      assert piece == ChunkLabel(zpl, i);
      labels := labels + [piece];
      i := i + 1;
    }
  }

  /** The second loop's invariant survives one more chunk. */
  lemma ChunkedAdvance(chunks: seq<string>, labels: seq<string>, m: nat, i: nat)
    requires m >= 1 && i < |labels|
    requires chunks + Chunked(labels[i..], m) == Chunked(labels, m)
    ensures (chunks + [JoinWith(labels[i..Min(i + m, |labels|)], ChunkSeparator)])
      + Chunked(labels[Min(i + m, |labels|)..], m) == Chunked(labels, m)
  {
    ChunkedStep(labels, m, i);
  }

  /** splitZplIntoChunks' second loop: the labels from i on, m at a time,
      each group joined with a blank line. */
  method GroupIntoChunks(labels: seq<string>, m: nat) returns (chunks: seq<string>)
    requires m >= 1
    ensures chunks == Chunked(labels, m)
  {
    chunks := [];
    var i := 0;
    while i < |labels|
      invariant chunks + Chunked(labels[Min(i, |labels|)..], m) == Chunked(labels, m)
    {
      var chunk := JoinWith(labels[i..Min(i + m, |labels|)], ChunkSeparator);
      ChunkedAdvance(chunks, labels, m, i);
      chunks := chunks + [chunk];
      i := i + m;
    }
    assert labels[Min(i, |labels|)..] == [];
  }

  /** splitZplIntoChunks: the labels cut at every ~DGR:, each ending in ^XZ,
      grouped in order into ceil(n / m) chunks of m labels (the last may hold
      fewer), each the join of its group with a blank line and holding exactly
      one ~DGR: per label. */
  method SplitIntoChunks(zpl: string, maxLabelsPerChunk: nat) returns (chunks: seq<string>)
    requires maxLabelsPerChunk >= 1
    ensures |chunks| == (Occurrences(Dgr, zpl) + maxLabelsPerChunk - 1) / maxLabelsPerChunk
    ensures chunks == Chunked(ChunkLabels(zpl), maxLabelsPerChunk)
    ensures forall c :: 0 <= c < |chunks| ==>
      Occurrences(Dgr, chunks[c]) == |Groups(ChunkLabels(zpl), maxLabelsPerChunk)[c]|
  {
    var labels := CutChunkLabels(zpl);
    chunks := GroupIntoChunks(labels, maxLabelsPerChunk);
    ChunksOfDocument(zpl, maxLabelsPerChunk);
  }

  /** Every label holds exactly one ~DGR:. */
  predicate OneDgrEach(labels: seq<string>) {
    forall k :: 0 <= k < |labels| ==> Occurrences(Dgr, labels[k]) == 1
  }

  /** Labels that each hold one ~DGR:, joined with blank lines, hold one per label. */
  lemma JoinedDgrCount(group: seq<string>)
    requires OneDgrEach(group)
    ensures Occurrences(Dgr, JoinWith(group, ChunkSeparator)) == |group|
  {
    assert forall k :: 0 <= k < |group| ==> Occurrences(Literal("~DGR:"), group[k]) == 1;
    OccurrencesJoin("~DGR:", group, ChunkSeparator);
  }

  /** Each chunk of the document holds one ~DGR: per label of its group. */
  lemma ChunksOfDocument(zpl: string, m: nat)
    requires m >= 1
    ensures |Chunked(ChunkLabels(zpl), m)| == (Occurrences(Dgr, zpl) + m - 1) / m
    ensures forall c :: 0 <= c < |Chunked(ChunkLabels(zpl), m)| ==>
      Occurrences(Dgr, Chunked(ChunkLabels(zpl), m)[c]) == |Groups(ChunkLabels(zpl), m)[c]|
  {
    var labels := ChunkLabels(zpl);
    GroupsPartition(labels, m);
    forall k | 0 <= k < |labels|
      ensures Occurrences(Dgr, labels[k]) == 1
    {
      TerminatedLabelShape(zpl, k);
    }
    assert OneDgrEach(labels);
    ChunksHoldTheirLabels(labels, m);
  }

  /** When every label holds one ~DGR:, each chunk holds one per label. */
  lemma {:induction false} ChunksHoldTheirLabels(labels: seq<string>, m: nat)
    requires m >= 1 && OneDgrEach(labels)
    ensures forall c :: 0 <= c < |Chunked(labels, m)| ==>
      Occurrences(Dgr, Chunked(labels, m)[c]) == |Groups(labels, m)[c]|
    decreases |labels|
  {
    if labels != [] {
      var size := Min(m, |labels|);
      var rest := labels[size..];
      var gs := Groups(labels, m);
      assert gs == [labels[..size]] + Groups(rest, m);
      assert OneDgrEach(rest) by {
        forall k | 0 <= k < |rest|
          ensures Occurrences(Dgr, rest[k]) == 1
        {
          assert rest[k] == labels[size + k];
        }
      }
      ChunksHoldTheirLabels(rest, m);
      forall c | 0 <= c < |gs|
        ensures Occurrences(Dgr, Chunked(labels, m)[c]) == |gs[c]|
      {
        if c == 0 {
          forall k | 0 <= k < size
            ensures Occurrences(Literal("~DGR:"), gs[0][k]) == 1
          {
            assert gs[0][k] == labels[k];
          }
          OccurrencesJoin("~DGR:", gs[0], ChunkSeparator);
        } else {
          assert gs[c] == Groups(rest, m)[c - 1];
          assert Chunked(labels, m)[c] == Chunked(rest, m)[c - 1];
        }
      }
    }
  }
}
