/** renderZplAction of src/app/actions.ts: which text and which 1-based label
    index a preview request sends to the renderer. */
module Preview {
  import opened Text
  import opened Patterns
  import opened LabelCount
  import opened Splitting
  import opened Arith
  import opened Wrappers
  import opened Request
  import opened Fetch

  /** Above this many labels a preview is rendered from one chunk. */
  const PreviewChunkSize := 16

  /** Where the chunk search stops: in chunk `chunk` at index `index`, or past
      every chunk with `remaining` left of the index. */
  datatype Location = Found(chunk: nat, index: int) | NotFound(remaining: int)

  /** The chunk search of renderZplAction: the first chunk whose label count is
      at least what is left of the index, subtracting each count passed over. */
  function Locate(chunks: seq<string>, labelIndex: int): Location
    decreases |chunks|
  {
    if chunks == [] then NotFound(labelIndex)
    else if labelIndex <= CountLabelsInZpl(chunks[0]) then Found(0, labelIndex)
    else
      match Locate(chunks[1..], labelIndex - CountLabelsInZpl(chunks[0]))
      case Found(c, j) => Found(c + 1, j)
      case NotFound(r) => NotFound(r)
  }

  /** A search that starts `skipped` chunks later. */
  function Shifted(loc: Location, skipped: nat): Location {
    match loc
    case Found(c, j) => Found(c + skipped, j)
    case NotFound(r) => NotFound(r)
  }

  /** The search loop of renderZplAction: it stops at the chunk Locate finds; when
      none is found it keeps chunk 0 and the index left after every chunk. */
  method LocateLabel(chunks: seq<string>, labelIndex: int) returns (chunkIndex: nat, indexInChunk: int)
    ensures Locate(chunks, labelIndex).Found? ==>
      chunkIndex == Locate(chunks, labelIndex).chunk && indexInChunk == Locate(chunks, labelIndex).index
    ensures Locate(chunks, labelIndex).NotFound? ==>
      chunkIndex == 0 && indexInChunk == Locate(chunks, labelIndex).remaining
  {
    chunkIndex := 0;
    indexInChunk := labelIndex;
    var i := 0;
    while i < |chunks|
      invariant 0 <= i <= |chunks| && chunkIndex == 0
      invariant Locate(chunks, labelIndex) == Shifted(Locate(chunks[i..], indexInChunk), i)
    {
      assert chunks[i..][1..] == chunks[i + 1..];
      var chunkLabelCount := CountLabelsInZpl(chunks[i]);
      if indexInChunk <= chunkLabelCount {
        chunkIndex := i;
        return;
      }
      indexInChunk := indexInChunk - chunkLabelCount;
      i := i + 1;
    }
    assert chunks[i..] == [];
  }

  /** A group of labels that each hold one ~DGR:, joined into a chunk, is
      counted as that many labels. */
  lemma ChunkCount(group: seq<string>)
    requires group != [] && OneDgrEach(group)
    ensures CountLabelsInZpl(JoinWith(group, ChunkSeparator)) == |group|
  {
    JoinedDgrCount(group);
    DgrDecides(JoinWith(group, ChunkSeparator));
  }

  /** Over the chunks of labels that each hold one ~DGR:, the search for a label
      index 1 <= idx <= n lands in chunk (idx - 1) div m at index
      idx - m * ((idx - 1) div m). */
  lemma {:induction false} LocateInChunks(labels: seq<string>, m: nat, idx: int)
    requires m >= 1 && OneDgrEach(labels) && 1 <= idx <= |labels|
    ensures Locate(Chunked(labels, m), idx) == Found((idx - 1) / m, idx - ((idx - 1) / m) * m)
    decreases |labels|
  {
    var size := Min(m, |labels|);
    var rest := labels[size..];
    var chunks := Chunked(labels, m);
    assert Groups(labels, m) == [labels[..size]] + Groups(rest, m);
    assert chunks[0] == JoinWith(labels[..size], ChunkSeparator);
    assert chunks[1..] == Chunked(rest, m);
    assert OneDgrEach(labels[..size]) by {
      forall k | 0 <= k < size
        ensures Occurrences(Dgr, labels[..size][k]) == 1
      {
        assert labels[..size][k] == labels[k];
      }
    }
    ChunkCount(labels[..size]);
    if idx <= size {
      DivisionIsUnique(idx - 1, m, 0);
    } else {
      assert size == m;
      assert OneDgrEach(rest) by {
        forall k | 0 <= k < |rest|
          ensures Occurrences(Dgr, rest[k]) == 1
        {
          assert rest[k] == labels[m + k];
        }
      }
      LocateInChunks(rest, m, idx - m);
      var q := (idx - m - 1) / m;
      DivShift(idx - m - 1, m);
      MulMono(q, q, m);
    }
  }

  /** renderZplAction's choice of what to render: the whole text and index for
      at most 16 labels; otherwise the chunk the search finds, with the index
      inside it. A text counted above 16 without any ~DGR: has no chunks, and
      the missing chunk is sent as an empty body. */
  method PreviewTarget(zpl: string, labelIndex: int) returns (body: string, index: int)
    ensures CountLabelsInZpl(zpl) <= PreviewChunkSize ==> body == zpl && index == labelIndex
    ensures CountLabelsInZpl(zpl) > PreviewChunkSize && Occurrences(Dgr, zpl) == 0 ==>
      body == [] && index == labelIndex
    ensures CountLabelsInZpl(zpl) > PreviewChunkSize && 1 <= labelIndex <= Occurrences(Dgr, zpl) ==>
      var c := (labelIndex - 1) / PreviewChunkSize;
      c < |Chunked(ChunkLabels(zpl), PreviewChunkSize)|
      && body == Chunked(ChunkLabels(zpl), PreviewChunkSize)[c]
      && index == labelIndex - c * PreviewChunkSize
  {
    var labelCount := CountLabelsInZpl(zpl);
    if labelCount > PreviewChunkSize {
      var chunks := SplitIntoChunks(zpl, PreviewChunkSize);
      var chunkIndex, indexInChunk := LocateLabel(chunks, labelIndex);
      body := if chunkIndex < |chunks| then chunks[chunkIndex] else [];
      index := indexInChunk;
      if 1 <= labelIndex <= Occurrences(Dgr, zpl) {
        DocumentLabelsHoldOneDgr(zpl);
        LocateInChunks(ChunkLabels(zpl), PreviewChunkSize, labelIndex);
        LocatedChunkExists(ChunkLabels(zpl), PreviewChunkSize, labelIndex);
      }
    } else {
      body := zpl;
      index := labelIndex;
    }
  }

  /** Every attempt posted `body` to `path` on its base URL. */
  predicate PostedAs(attempts: seq<Attempt>, bases: seq<string>, path: string, body: string) {
    forall k :: 0 <= k < |attempts| ==>
      attempts[k].baseIndex < |bases| && attempts[k].body == body
      && attempts[k].url == StripTrailingSlash(bases[attempts[k].baseIndex]) + path
  }

  /** renderZplAction: the png of the chosen text and index, fetched through
      instance 1 over the scripted outcomes. */
  method RenderZpl(zpl: string, labelIndex: int, dpi: int, widthText: string, heightText: string,
                   orientation: string, bases: seq<string>, outcomes: seq<Outcome>, jitters: seq<nat>)
    returns (result: FetchResult, attempts: seq<Attempt>)
    requires |bases| >= 1 && |outcomes| >= MaxAttempts && |jitters| >= MaxAttempts
    requires forall k :: 0 <= k < |jitters| ==> jitters[k] < 250
    ensures result == Resolve(outcomes, 0) && 1 <= |attempts| <= MaxAttempts
    ensures CountLabelsInZpl(zpl) <= PreviewChunkSize ==>
      PostedAs(attempts, bases, LabelaryPath(dpi, widthText, heightText, orientation, Png, Some(labelIndex)), zpl)
    ensures CountLabelsInZpl(zpl) > PreviewChunkSize && 1 <= labelIndex <= Occurrences(Dgr, zpl) ==>
      var c := (labelIndex - 1) / PreviewChunkSize;
      c < |Chunked(ChunkLabels(zpl), PreviewChunkSize)|
      && PostedAs(attempts, bases,
                  LabelaryPath(dpi, widthText, heightText, orientation, Png, Some(labelIndex - c * PreviewChunkSize)),
                  Chunked(ChunkLabels(zpl), PreviewChunkSize)[c])
  {
    var body, index := PreviewTarget(zpl, labelIndex);
    var path := LabelaryPath(dpi, widthText, heightText, orientation, Png, Some(index));
    result, attempts := FetchLabelary(bases, path, body, 1, outcomes, jitters);
    assert PostedAs(attempts, bases, path, body) by {
      forall k | 0 <= k < |attempts|
        ensures attempts[k].baseIndex < |bases| && attempts[k].body == body
        ensures attempts[k].url == StripTrailingSlash(bases[attempts[k].baseIndex]) + path
      {
        assert SentAs(attempts[k], bases, path, body, 1, k);
      }
    }
  }

  /** The chunk found for 1 <= idx <= n is one of the chunks. */
  lemma LocatedChunkExists(labels: seq<string>, m: nat, idx: int)
    requires m >= 1 && 1 <= idx <= |labels|
    ensures (idx - 1) / m < |Chunked(labels, m)|
  {
    GroupsPartition(labels, m);
    var q := (idx - 1) / m;
    assert idx - 1 == q * m + (idx - 1) % m;
    DivShift(|labels| - 1, m);
    DivMono(idx - 1, |labels| - 1, m);
  }

  /** Every label the chunk splitter cuts holds one ~DGR:. */
  lemma DocumentLabelsHoldOneDgr(zpl: string)
    ensures OneDgrEach(ChunkLabels(zpl))
  {
    forall k | 0 <= k < Occurrences(Dgr, zpl)
      ensures Occurrences(Dgr, ChunkLabels(zpl)[k]) == 1
    {
      TerminatedLabelShape(zpl, k);
    }
  }
}
