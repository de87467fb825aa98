/** downloadPdfActionIndividualLabels of src/app/actions.ts: one render call per
    label, two labels per batch, a small pool of instance ids assigned round
    robin, one retry after a failure that mentions 429, and the pages merged in
    label order. Each label's calls follow a script as in the Fetch module. */
module Pdf {
  import opened Wrappers
  import opened Text
  import opened Patterns
  import opened LabelCount
  import opened Splitting
  import opened Arith
  import opened Fetch

  const LabelsPerBatch := 2
  const BatchPauseMs := 300
  const MaxPoolSize := 3

  /** The scripted network for one label: the outcomes and jitters of its first
      call, and of the second call made after a rate limit. */
  datatype LabelScript = LabelScript(first: seq<Outcome>, firstJitters: seq<nat>,
                                     retry: seq<Outcome>, retryJitters: seq<nat>)

  predicate JittersFit(jitters: seq<nat>) {
    |jitters| >= MaxAttempts && forall k :: 0 <= k < |jitters| ==> jitters[k] < 250
  }

  predicate WellScripted(script: LabelScript) {
    |script.first| >= MaxAttempts && JittersFit(script.firstJitters)
    && |script.retry| >= MaxAttempts && JittersFit(script.retryJitters)
  }

  predicate AllWellScripted(scripts: seq<LabelScript>) {
    forall k :: 0 <= k < |scripts| ==> WellScripted(scripts[k])
  }

  /** The download: the merged document's pages, or the message of the error. */
  datatype PdfResult = Document(pages: seq<string>) | Error(message: string)

  /** `min(3, max(1, floor(n / 10)))`: one instance per ten labels, one to three. */
  function PoolSize(labelCount: nat): (size: nat)
    ensures 1 <= size <= MaxPoolSize
  {
    var scaled := labelCount / 10;
    if scaled < 1 then 1 else if scaled > MaxPoolSize then MaxPoolSize else scaled
  }

  /** The pool grows with the label count: one instance below 20 labels, two
      below 30, three from 30 on. */
  lemma PoolSizeSteps(labelCount: nat)
    ensures labelCount < 20 <==> PoolSize(labelCount) == 1
    ensures 20 <= labelCount < 30 <==> PoolSize(labelCount) == 2
    ensures labelCount >= 30 <==> PoolSize(labelCount) == 3
  {
    DivisionIsUnique(labelCount, 10, labelCount / 10);
    if labelCount < 20 {
      DivisionIsUnique(labelCount, 10, if labelCount < 10 then 0 else 1);
    } else if labelCount < 30 {
      DivisionIsUnique(labelCount, 10, 2);
    } else {
      assert labelCount / 10 >= 3 by {
        var q := labelCount / 10;
        assert labelCount == q * 10 + labelCount % 10;
      }
    }
  }

  /** `apiInstances[labelIndex % size].id`: instance ids 1..size in turn. */
  function InstanceFor(labelIndex: nat, poolSize: nat): (id: nat)
    requires poolSize >= 1
    ensures 1 <= id <= poolSize
  {
    labelIndex % poolSize + 1
  }

  /** The assignment is round robin: it repeats every poolSize labels, and with
      two or more instances neighbouring labels never share one. */
  lemma InstancesRoundRobin(labelIndex: nat, poolSize: nat)
    requires poolSize >= 1
    ensures InstanceFor(labelIndex + poolSize, poolSize) == InstanceFor(labelIndex, poolSize)
    ensures poolSize >= 2 ==> InstanceFor(labelIndex + 1, poolSize) != InstanceFor(labelIndex, poolSize)
  {
    var q := labelIndex / poolSize;
    var r := labelIndex % poolSize;
    assert labelIndex == q * poolSize + r;
    MulMono(q, q, poolSize);
    MulMono(q + 1, q + 1, poolSize);
    DivisionIsUnique(labelIndex + poolSize, poolSize, q + 1);
    if r + 1 < poolSize {
      DivisionIsUnique(labelIndex + 1, poolSize, q);
    } else {
      DivisionIsUnique(labelIndex + 1, poolSize, q + 1);
    }
  }

  /** `error.message.includes('429')`. */
  predicate RateLimited(r: FetchResult) {
    r.Failed? && Contains(r.message, "429")
  }

  /** The extra wait before the second call: one second per instance id. */
  function RateLimitWaitMs(instance: nat): nat {
    instance * 1000
  }

  /** What one label's processing yields: the first call's result, or the second
      call's when the first failed mentioning 429. */
  function LabelResult(script: LabelScript): FetchResult
    requires WellScripted(script)
  {
    var first := Resolve(script.first, 0);
    if RateLimited(first) then Resolve(script.retry, 0) else first
  }

  /** A label whose first call exhausted its retries is not tried again: the
      exhausted message does not mention 429. Other failures are retried only
      when their message happens to hold 429. */
  lemma ExhaustedIsFinal(script: LabelScript)
    requires WellScripted(script) && Resolve(script.first, 0) == Failed(ExhaustedMessage)
    ensures LabelResult(script) == Failed(ExhaustedMessage)
  {
    ExhaustedDoesNotMention429();
  }

  /** A 4xx response whose text holds 429 does get the second call. */
  lemma StatusBodyWith429IsRetried(script: LabelScript, body: string)
    requires WellScripted(script) && Contains(body, "429")
    requires script.first[0] == Response(404, None, body)
    ensures LabelResult(script) == Resolve(script.retry, 0)
  {
    var message := StatusMessage(404, body);
    var i: nat :| i <= |body| && OccursAt(body, i, "429");
    var prefix := ApiErrorPrefix + IntToString(404) + " - ";
    assert message == prefix + body;
    assert message[|prefix| + i..|prefix| + i + 3] == body[i..i + 3];
    assert OccursAt(message, |prefix| + i, "429");
  }

  /** The batchPromises body for one label: fetch through the label's instance;
      on a failure mentioning 429, wait one second per instance id and fetch
      once more. Every attempt of either call posts the label. */
  method ProcessLabel(bases: seq<string>, path: string, labelText: string, labelIndex: nat,
                      poolSize: nat, script: LabelScript)
    returns (r: FetchResult, instance: nat, attempts: seq<Attempt>, rateLimitWait: nat)
    requires |bases| >= 1 && poolSize >= 1 && WellScripted(script)
    ensures instance == InstanceFor(labelIndex, poolSize)
    ensures r == LabelResult(script)
    ensures rateLimitWait == (if RateLimited(Resolve(script.first, 0)) then RateLimitWaitMs(instance) else 0)
    ensures 1 <= |attempts| <= 2 * MaxAttempts
    ensures forall k :: 0 <= k < |attempts| ==> attempts[k].body == labelText
  {
    instance := labelIndex % poolSize + 1;
    var first, firstAttempts :=
      FetchLabelary(bases, path, labelText, instance, script.first, script.firstJitters);
    attempts := firstAttempts;
    if first.Failed? && Contains(first.message, "429") {
      rateLimitWait := instance * 1000;
      var second, secondAttempts :=
        FetchLabelary(bases, path, labelText, instance, script.retry, script.retryJitters);
      r := second;
      attempts := attempts + secondAttempts;
    } else {
      rateLimitWait := 0;
      r := first;
    }
  }

  /** The batching loop: slices of `size` labels from the front. */
  method MakeBatches(labels: seq<string>, size: nat) returns (batches: seq<seq<string>>)
    requires size >= 1
    ensures batches == Groups(labels, size)
  {
    batches := [];
    var i := 0;
    while i < |labels|
      invariant batches + Groups(labels[Min(i, |labels|)..], size) == Groups(labels, size)
    {
      GroupsStep(labels, size, i);
      batches := batches + [labels[i..Min(i + size, |labels|)]];
      i := i + size;
    }
    assert labels[Min(i, |labels|)..] == [];
  }

  /** One step of the batching loop: the slice starting at i, then the rest. */
  lemma GroupsStep(labels: seq<string>, m: nat, i: nat)
    requires m >= 1 && i < |labels|
    ensures Groups(labels[i..], m)
      == [labels[i..Min(i + m, |labels|)]] + Groups(labels[Min(i + m, |labels|)..], m)
  {
    var rest := labels[i..];
    var size := Min(m, |rest|);
    assert rest[..size] == labels[i..Min(i + m, |labels|)];
    assert rest[size..] == labels[Min(i + m, |labels|)..];
  }

  /** How the labels' results combine: the bodies of all of them when every one
      was fetched, else the first failure in label order. */
  datatype Collected = AllFetched(bodies: seq<string>) | FirstFailed(index: nat, message: string)

  function Collect(results: seq<FetchResult>): Collected
    decreases |results|
  {
    if results == [] then AllFetched([])
    else if results[0].Failed? then FirstFailed(0, results[0].message)
    else match Collect(results[1..])
      case AllFetched(bodies) => AllFetched([results[0].body] + bodies)
      case FirstFailed(i, m) => FirstFailed(i + 1, m)
  }

  /** Collect keeps every body in order when all were fetched, and otherwise
      reports the earliest failure. */
  lemma {:induction false} CollectSpec(results: seq<FetchResult>)
    ensures Collect(results).AllFetched? <==> forall k :: 0 <= k < |results| ==> results[k].Fetched?
    ensures Collect(results).AllFetched? ==>
      |Collect(results).bodies| == |results|
      && forall k :: 0 <= k < |results| ==> Collect(results).bodies[k] == results[k].body
    ensures Collect(results).FirstFailed? ==>
      Collect(results).index < |results|
      && results[Collect(results).index] == Failed(Collect(results).message)
      && forall k :: 0 <= k < Collect(results).index ==> results[k].Fetched?
    decreases |results|
  {
    if results != [] && results[0].Fetched? {
      var rest := results[1..];
      CollectSpec(rest);
      assert forall k :: 1 <= k < |results| ==> results[k] == rest[k - 1];
    }
  }

  /** The results of the labels' processing, in label order. */
  function LabelResults(scripts: seq<LabelScript>, n: nat): (rs: seq<FetchResult>)
    requires n <= |scripts| && AllWellScripted(scripts)
    ensures |rs| == n
  {
    seq(n, k requires 0 <= k < n => LabelResult(scripts[k]))
  }

  /** Labels offset, offset + 1, ... were fetched, with these bodies. */
  predicate FetchedFrom(scripts: seq<LabelScript>, offset: nat, bodies: seq<string>)
    requires AllWellScripted(scripts)
  {
    offset + |bodies| <= |scripts|
    && forall i :: 0 <= i < |bodies| ==> LabelResult(scripts[offset + i]) == Fetched(bodies[i])
  }

  lemma FetchedFromSnoc(scripts: seq<LabelScript>, offset: nat, bodies: seq<string>, body: string)
    requires AllWellScripted(scripts) && FetchedFrom(scripts, offset, bodies)
    requires offset + |bodies| < |scripts| && LabelResult(scripts[offset + |bodies|]) == Fetched(body)
    ensures FetchedFrom(scripts, offset, bodies + [body])
  {
    var all := bodies + [body];
    forall i | 0 <= i < |all|
      ensures LabelResult(scripts[offset + i]) == Fetched(all[i])
    {
      if i < |bodies| {
        assert all[i] == bodies[i];
      }
    }
  }

  /** Labels offset, offset + 1, ... were posted in order, each on its own and
      through instance (k mod poolSize) + 1 for label k. */
  predicate AssignedFrom(labels: seq<string>, offset: nat, poolSize: nat,
                         sent: seq<string>, instances: seq<nat>)
    requires poolSize >= 1
  {
    |instances| == |sent| && offset + |sent| <= |labels|
    && forall i :: 0 <= i < |sent| ==>
      sent[i] == labels[offset + i] && instances[i] == InstanceFor(offset + i, poolSize)
  }

  lemma AssignedFromSnoc(labels: seq<string>, offset: nat, poolSize: nat,
                         sent: seq<string>, instances: seq<nat>, next: string, instance: nat)
    requires poolSize >= 1 && AssignedFrom(labels, offset, poolSize, sent, instances)
    requires offset + |sent| < |labels| && next == labels[offset + |sent|]
    requires instance == InstanceFor(offset + |sent|, poolSize)
    ensures AssignedFrom(labels, offset, poolSize, sent + [next], instances + [instance])
  {
    var s := sent + [next];
    var t := instances + [instance];
    forall i | 0 <= i < |s|
      ensures s[i] == labels[offset + i] && t[i] == InstanceFor(offset + i, poolSize)
    {
      if i < |sent| {
        assert s[i] == sent[i] && t[i] == instances[i];
      }
    }
  }

  /** One batch, `Promise.all` over its labels: every label of the batch is
      processed through its instance and posted, whatever the others yield.
      When all were fetched their bodies follow the earlier ones; otherwise the
      batch rejects with the message of its lowest-indexed failure, adds no
      body, and `fetched` is what the labels before that failure yielded. */
  method ProcessBatch(bases: seq<string>, path: string, labels: seq<string>, scripts: seq<LabelScript>,
                      poolSize: nat, batchIndex: nat, offset: nat, batch: seq<string>,
                      sentBefore: seq<string>, instancesBefore: seq<nat>, buffersBefore: seq<string>)
    returns (sentLabels: seq<string>, instances: seq<nat>, buffers: seq<string>,
             failure: Option<string>, failedAt: nat, ghost fetched: seq<string>)
    requires |bases| >= 1 && poolSize >= 1 && AllWellScripted(scripts)
    requires offset == batchIndex * LabelsPerBatch && offset + |batch| <= |labels| && |labels| <= |scripts|
    requires batch == labels[offset..offset + |batch|]
    requires AssignedFrom(labels, 0, poolSize, sentBefore, instancesBefore) && |sentBefore| == offset
    requires FetchedFrom(scripts, 0, buffersBefore) && |buffersBefore| == offset
    ensures AssignedFrom(labels, 0, poolSize, sentLabels, instances)
    ensures |sentLabels| == offset + |batch|
    ensures failure.None? ==> FetchedFrom(scripts, 0, buffers) && |buffers| == offset + |batch|
    ensures failure.Some? ==>
      buffers == buffersBefore && offset <= failedAt < offset + |batch|
      && LabelResult(scripts[failedAt]) == Failed(failure.value)
      && FetchedFrom(scripts, 0, fetched) && |fetched| == failedAt
  {
    sentLabels := sentBefore;
    instances := instancesBefore;
    failure := None;
    failedAt := 0;
    var bodies: seq<string> := [];
    var j := 0;
    while j < |batch|
      invariant 0 <= j <= |batch| && |sentLabels| == offset + j
      invariant AssignedFrom(labels, 0, poolSize, sentLabels, instances)
      invariant FetchedFrom(scripts, 0, buffersBefore + bodies)
      invariant failure.None? ==> |bodies| == j
      invariant failure.Some? ==>
        |bodies| < j && failedAt == offset + |bodies| && LabelResult(scripts[failedAt]) == Failed(failure.value)
    {
      var labelIndex := batchIndex * LabelsPerBatch + j;
      assert batch[j] == labels[labelIndex];
      var r, instance, attempts, rateLimitWait :=
        ProcessLabel(bases, path, batch[j], labelIndex, poolSize, scripts[labelIndex]);
      AssignedFromSnoc(labels, 0, poolSize, sentLabels, instances, attempts[0].body, instance);
      sentLabels := sentLabels + [attempts[0].body];
      instances := instances + [instance];
      if failure.None? {
        if r.Failed? {
          failure := Some(r.message);
          failedAt := labelIndex;
        } else {
          FetchedFromSnoc(scripts, 0, buffersBefore + bodies, r.body);
          assert (buffersBefore + bodies) + [r.body] == buffersBefore + (bodies + [r.body]);
          bodies := bodies + [r.body];
        }
      }
      j := j + 1;
    }
    if failure.None? {
      buffers := buffersBefore + bodies;
    } else {
      buffers := buffersBefore;
    }
    fetched := buffersBefore + bodies;
  }

  /** The batch loop of the download. Label k is posted on its own, through
      instance (k mod poolSize) + 1; batches run in order with a 300 ms pause
      between two batches and none after the last. A failing batch has posted
      all of its labels, and no later batch runs. */
  method ProcessLabels(bases: seq<string>, path: string, labels: seq<string>, scripts: seq<LabelScript>)
    returns (outcome: Collected, sentLabels: seq<string>, instances: seq<nat>, pausedMs: nat)
    requires |bases| >= 1 && |scripts| >= |labels| && AllWellScripted(scripts)
    ensures outcome == Collect(LabelResults(scripts, |labels|))
    ensures AssignedFrom(labels, 0, PoolSize(|labels|), sentLabels, instances)
    ensures outcome.AllFetched? ==> |sentLabels| == |labels|
    ensures outcome.AllFetched? && |labels| > 0 ==>
      pausedMs == BatchPauseMs * ((|labels| + 1) / LabelsPerBatch - 1)
    ensures outcome.FirstFailed? ==>
      |sentLabels| == Min(|labels|, (outcome.index / LabelsPerBatch + 1) * LabelsPerBatch)
      && pausedMs == BatchPauseMs * (outcome.index / LabelsPerBatch)
  {
    var n := |labels|;
    var poolSize := PoolSize(n);
    var batches := MakeBatches(labels, LabelsPerBatch);
    var buffers: seq<string> := [];
    sentLabels := [];
    instances := [];
    pausedMs := 0;
    var offset := 0;
    var batchIndex := 0;
    while batchIndex < |batches|
      invariant 0 <= batchIndex <= |batches| && 0 <= offset <= n
      invariant batches[batchIndex..] == Groups(labels[offset..], LabelsPerBatch)
      invariant batchIndex < |batches| ==>
        offset == batchIndex * LabelsPerBatch && pausedMs == BatchPauseMs * batchIndex
      invariant batchIndex == |batches| ==>
        offset == n && (n > 0 ==> pausedMs == BatchPauseMs * (batchIndex - 1))
      invariant |buffers| == offset && |sentLabels| == offset
      invariant FetchedFrom(scripts, 0, buffers)
      invariant AssignedFrom(labels, 0, poolSize, sentLabels, instances)
    {
      var batch := batches[batchIndex];
      BatchStep(labels, batches, batchIndex, offset);
      var nextOffset := offset + |batch|;
      ghost var remaining := batches[batchIndex + 1..];
      assert remaining == Groups(labels[nextOffset..], LabelsPerBatch);
      var failure, failedAt;
      ghost var fetched;
      sentLabels, instances, buffers, failure, failedAt, fetched :=
        ProcessBatch(bases, path, labels, scripts, poolSize, batchIndex, offset, batch,
                     sentLabels, instances, buffers);
      if failure.Some? {
        outcome := FirstFailed(failedAt, failure.value);
        FirstFailureIsCollected(scripts, n, fetched, failure.value);
        FailedBatchReach(n, batchIndex, offset, |batch|, failedAt);
        return;
      }
      offset := nextOffset;
      batchIndex := batchIndex + 1;
      assert batches[batchIndex..] == remaining;
      if batchIndex < |batches| {
        pausedMs := pausedMs + BatchPauseMs;
      }
    }
    AllFetchedIsCollected(scripts, n, buffers);
    outcome := AllFetched(buffers);
    if n > 0 {
      assert |batches| == (n + 1) / LabelsPerBatch by {
        GroupsPartition(labels, LabelsPerBatch);
      }
    }
  }

  /** When every label was fetched, Collect reports exactly their bodies. */
  lemma AllFetchedIsCollected(scripts: seq<LabelScript>, n: nat, bodies: seq<string>)
    requires AllWellScripted(scripts) && n <= |scripts|
    requires FetchedFrom(scripts, 0, bodies) && |bodies| == n
    ensures Collect(LabelResults(scripts, n)) == AllFetched(bodies)
  {
    var results := LabelResults(scripts, n);
    forall k | 0 <= k < n
      ensures results[k] == Fetched(bodies[k])
    {
      assert LabelResult(scripts[0 + k]) == Fetched(bodies[k]);
    }
    CollectSpec(results);
    assert Collect(results).bodies == bodies;
  }

  /** The first failing label decides what Collect reports. */
  lemma FirstFailureIsCollected(scripts: seq<LabelScript>, n: nat, bodies: seq<string>, message: string)
    requires AllWellScripted(scripts) && n <= |scripts|
    requires FetchedFrom(scripts, 0, bodies) && |bodies| < n
    requires LabelResult(scripts[|bodies|]) == Failed(message)
    ensures Collect(LabelResults(scripts, n)) == FirstFailed(|bodies|, message)
  {
    var results := LabelResults(scripts, n);
    forall k | 0 <= k < |bodies|
      ensures results[k].Fetched?
    {
      assert LabelResult(scripts[0 + k]) == Fetched(bodies[k]);
    }
    assert results[|bodies|] == Failed(message);
    CollectSpec(results);
    var c := Collect(results);
    assert !c.AllFetched?;
    assert results[c.index].Failed?;
  }

  /** One step of the batch loop: the batch at `offset` is the next slice of at
      most two labels; every batch but the last holds two, and the last ends the
      labels. */
  lemma BatchStep(labels: seq<string>, batches: seq<seq<string>>, b: nat, offset: nat)
    requires b < |batches| && offset <= |labels|
    requires batches[b..] == Groups(labels[offset..], LabelsPerBatch)
    ensures offset < |labels|
    ensures batches[b] == labels[offset..Min(offset + LabelsPerBatch, |labels|)]
    ensures batches[b + 1..] == Groups(labels[offset + |batches[b]|..], LabelsPerBatch)
    ensures b + 1 < |batches| ==> |batches[b]| == LabelsPerBatch
    ensures b + 1 == |batches| ==> offset + |batches[b]| == |labels|
  {
    assert batches[b..][1..] == batches[b + 1..];
    GroupsStep(labels, LabelsPerBatch, offset);
  }

  /** A failure at position j of batch b is label 2b + j, after b pauses. */
  lemma FailedBatchPauses(b: nat, j: nat)
    requires j < LabelsPerBatch
    ensures (b * LabelsPerBatch + j) / LabelsPerBatch == b
  {
    DivisionIsUnique(b * LabelsPerBatch + j, LabelsPerBatch, b);
  }

  /** A failure inside batch b, which holds the labels from 2b up to 2b + 2 or
      the end: b pauses came before it, and the batch posted every label up to
      the end of batch (failedAt div 2). */
  lemma FailedBatchReach(n: nat, b: nat, offset: nat, size: nat, failedAt: nat)
    requires offset == b * LabelsPerBatch && offset + size == Min(offset + LabelsPerBatch, n)
    requires offset <= failedAt < offset + size
    ensures failedAt / LabelsPerBatch == b
    ensures offset + size == Min(n, (failedAt / LabelsPerBatch + 1) * LabelsPerBatch)
  {
    FailedBatchPauses(b, failedAt - offset);
  }

  /** The merge batch size: 20 documents at a time above 30 labels, else 15. */
  function MergeBatchSize(labelCount: nat): (size: nat)
    ensures size == 15 || size == 20
  {
    if labelCount > 30 then 20 else 15
  }

  /** The merge loop: documents loaded a batch at a time and their pages added
      one document after another, so the pages come out in label order. */
  method MergeInOrder(buffers: seq<string>, labelCount: nat) returns (pages: seq<string>)
    ensures pages == buffers
  {
    var mergeBatchSize := MergeBatchSize(labelCount);
    pages := [];
    var i := 0;
    while i < |buffers|
      invariant i <= |buffers| + mergeBatchSize
      invariant pages == buffers[..Min(i, |buffers|)]
    {
      var batchEnd := Min(i + mergeBatchSize, |buffers|);
      var loaded: seq<string> := [];
      var j := i;
      while j < batchEnd
        invariant i <= j <= batchEnd && loaded == buffers[i..j]
      {
        loaded := loaded + [buffers[j]];
        assert buffers[i..j + 1] == buffers[i..j] + [buffers[j]];
        j := j + 1;
      }
      assert buffers[..batchEnd] == buffers[..i] + loaded;
      pages := pages + loaded;
      i := i + mergeBatchSize;
    }
    assert buffers[..|buffers|] == buffers;
  }

  /** `Unable to process {labelCount} labels individually: {message}`. */
  function WrapFailure(labelCount: nat, message: string): string {
    "Unable to process " + NatToString(labelCount) + " labels individually: " + message
  }

  /** The single-label path: the fetched document, or the error unchanged. */
  function SingleResult(r: FetchResult): PdfResult {
    match r
    case Fetched(body) => Document([body])
    case Failed(message) => Error(message)
  }

  /** downloadPdfActionIndividualLabels. A text counted as one label is rendered
      in one call through instance 1, and its error is passed on unchanged.
      Otherwise the text is split at every ~DGR:, each label is posted on its
      own, and the pages of a successful download are the labels' documents in
      label order; the first failing label's message is wrapped with the
      label count. */
  method DownloadPdf(zpl: string, bases: seq<string>, path: string,
                     single: LabelScript, scripts: seq<LabelScript>)
    returns (result: PdfResult, sentLabels: seq<string>, instances: seq<nat>, pausedMs: nat)
    requires |bases| >= 1 && WellScripted(single)
    requires |scripts| >= Occurrences(Dgr, zpl) && AllWellScripted(scripts)
    ensures CountLabelsInZpl(zpl) == 1 ==>
      result == SingleResult(Resolve(single.first, 0)) && sentLabels == [zpl] && instances == [1]
      && pausedMs == 0
    ensures CountLabelsInZpl(zpl) != 1 ==>
      |instances| == |sentLabels| <= Occurrences(Dgr, zpl)
      && (forall k :: 0 <= k < |sentLabels| ==>
           sentLabels[k] == IndividualLabel(zpl, k)
           && instances[k] == InstanceFor(k, PoolSize(Occurrences(Dgr, zpl))))
    ensures CountLabelsInZpl(zpl) != 1 && Collect(LabelResults(scripts, Occurrences(Dgr, zpl))).AllFetched? ==>
      result == Document(Collect(LabelResults(scripts, Occurrences(Dgr, zpl))).bodies)
      && |sentLabels| == Occurrences(Dgr, zpl)
    ensures CountLabelsInZpl(zpl) != 1 && Collect(LabelResults(scripts, Occurrences(Dgr, zpl))).FirstFailed? ==>
      result == Error(WrapFailure(CountLabelsInZpl(zpl), Collect(LabelResults(scripts, Occurrences(Dgr, zpl))).message))
      && |sentLabels| == Min(Occurrences(Dgr, zpl),
                             (Collect(LabelResults(scripts, Occurrences(Dgr, zpl))).index / LabelsPerBatch + 1)
                             * LabelsPerBatch)
  {
    var labelCount := CountLabelsInZpl(zpl);
    if labelCount == 1 {
      var r, attempts := FetchLabelary(bases, path, zpl, 1, single.first, single.firstJitters);
      result := SingleResult(r);
      sentLabels := [attempts[0].body];
      instances := [1];
      pausedMs := 0;
      return;
    }
    var labels := SplitIntoIndividualLabels(zpl);
    var outcome;
    outcome, sentLabels, instances, pausedMs := ProcessLabels(bases, path, labels, scripts);
    match outcome {
      case AllFetched(buffers) =>
        var pages := MergeInOrder(buffers, |labels|);
        result := Document(pages);
      case FirstFailed(_, message) =>
        result := Error(WrapFailure(labelCount, message));
    }
  }
}
