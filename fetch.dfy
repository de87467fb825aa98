/** fetchLabelary of src/app/actions.ts: up to five attempts at one render,
    each through the next base URL with the next User-Agent, holding a limiter
    slot from before the request until after any backoff. The network is a
    script: the outcome of attempt k is `outcomes[k]`, and the random jitter of
    attempt k is `jitters[k]`. */
module Fetch {
  import opened Wrappers
  import opened Text
  import opened Request
  import opened Arith

  /** What one attempt at the network yields: a response, a timeout abort, or
      any other thrown error with its message. */
  datatype Outcome =
    | Response(status: int, retryAfter: Option<int>, body: string)
    | Abort
    | Failure(message: string)

  /** The call's result: the response body, or the message of the error it throws. */
  datatype FetchResult = Fetched(body: string) | Failed(message: string)

  /** One attempt as sent: where to, with which agent and body, and the backoff
      taken after it, if it was retried. */
  datatype Attempt = Attempt(baseIndex: nat, url: string, userAgent: string, body: string, pause: Option<nat>)

  /** What the attempts do with the limiter and the network, in order. */
  datatype Event = AcquireSlot | Send(url: string, userAgent: string, body: string) | Sleep(ms: nat) | ReleaseSlot

  const MaxAttempts := 5

  const ApiErrorPrefix := "Labelary API Error: "

  const ExhaustedReason := "Exhausted retries " + "due to rate limiting. " + "Please try again later."

  const ExhaustedMessage := ApiErrorPrefix + ExhaustedReason

  /** response.ok. */
  predicate IsOk(status: int) {
    200 <= status < 300
  }

  /** The statuses that are retried: 429 and every 5xx. */
  predicate RetryableStatus(status: int) {
    status == 429 || (500 <= status < 600)
  }

  /** The outcomes after which the loop backs off and tries again. */
  predicate Retryable(o: Outcome) {
    (o.Response? && !IsOk(o.status) && RetryableStatus(o.status)) || o.Abort?
  }

  /** How a non-retried outcome ends the call. */
  function Settle(o: Outcome): FetchResult
    requires !Retryable(o)
  {
    if o.Failure? then Failed(o.message)
    else if IsOk(o.status) then Fetched(o.body)
    else Failed(StatusMessage(o.status, o.body))
  }

  /** `Labelary API Error: {status} - {text}`. */
  function StatusMessage(status: int, body: string): string {
    ApiErrorPrefix + IntToString(status) + " - " + body
  }

  /** The wait after a retried outcome: the longer of Retry-After and the backoff
      for a response, the plain backoff after a timeout. */
  function Pause(o: Outcome, attempt: nat, instance: nat, jitter: nat): nat
    requires jitter < 250
  {
    if o.Response? then RetryDelay(o.retryAfter, attempt, instance, jitter)
    else ComputeBackoff(attempt, BaseDelay(instance), jitter)
  }

  /** The base URL of attempt k of instance i: rotation by one per attempt,
      starting at index i - 1. */
  function BaseIndex(instance: nat, attempt: nat, poolSize: nat): (b: nat)
    requires instance >= 1 && poolSize >= 1
    ensures b < poolSize
  {
    (instance - 1 + attempt) % poolSize
  }

  /** Attempt k went to the right base with the right agent, and posted the
      text to render. */
  predicate SentAs(a: Attempt, bases: seq<string>, path: string, zpl: string, instance: nat, k: nat)
    requires instance >= 1 && |bases| >= 1
  {
    a.baseIndex == BaseIndex(instance, k, |bases|)
    && a.url == StripTrailingSlash(bases[BaseIndex(instance, k, |bases|)]) + path
    && a.userAgent == PickUserAgent(instance + k)
    && a.body == zpl
  }

  /** The result of a script, from attempt k on: the first outcome that is not
      retried settles the call; five retried outcomes exhaust it. */
  function Resolve(outcomes: seq<Outcome>, k: nat): FetchResult
    requires |outcomes| >= MaxAttempts && k <= MaxAttempts
    decreases MaxAttempts - k
  {
    if k == MaxAttempts then Failed(ExhaustedMessage)
    else if Retryable(outcomes[k]) then Resolve(outcomes, k + 1)
    else Settle(outcomes[k])
  }

  /** The events of one attempt: acquire, send, back off if retried, release. */
  function AttemptEvents(a: Attempt): seq<Event> {
    [AcquireSlot, Send(a.url, a.userAgent, a.body)]
      + (if a.pause.Some? then [Sleep(a.pause.value)] else [])
      + [ReleaseSlot]
  }

  function Events(attempts: seq<Attempt>): seq<Event>
    decreases |attempts|
  {
    if attempts == [] then [] else AttemptEvents(attempts[0]) + Events(attempts[1..])
  }

  lemma {:induction false} EventsSnoc(attempts: seq<Attempt>, a: Attempt)
    ensures Events(attempts + [a]) == Events(attempts) + AttemptEvents(a)
    decreases |attempts|
  {
    if attempts == [] {
      assert Events([a]) == AttemptEvents(a) + Events([]);
    } else {
      assert (attempts + [a])[1..] == attempts[1..] + [a];
      EventsSnoc(attempts[1..], a);
    }
  }

  /** The attempts so far were sent as the rotation says, and each was backed off
      exactly when its outcome is retried, by that outcome's pause. */
  predicate Conducted(attempts: seq<Attempt>, bases: seq<string>, path: string, zpl: string,
                      instance: nat, outcomes: seq<Outcome>, jitters: seq<nat>)
    requires instance >= 1 && |bases| >= 1
    requires |attempts| <= |outcomes| && |attempts| <= |jitters|
    requires forall k :: 0 <= k < |jitters| ==> jitters[k] < 250
  {
    forall k {:trigger attempts[k].pause} :: 0 <= k < |attempts| ==>
      SentAs(attempts[k], bases, path, zpl, instance, k)
      && (attempts[k].pause.Some? <==> Retryable(outcomes[k]))
      && (Retryable(outcomes[k]) ==> attempts[k].pause.value == Pause(outcomes[k], k, instance, jitters[k]))
  }

  /** Every outcome before attempt n was retried. */
  predicate RetriedBefore(outcomes: seq<Outcome>, n: nat)
    requires n <= |outcomes|
  {
    forall k :: 0 <= k < n ==> Retryable(outcomes[k])
  }

  lemma ConductedSnoc(attempts: seq<Attempt>, sent: Attempt, bases: seq<string>, path: string,
                      zpl: string, instance: nat, outcomes: seq<Outcome>, jitters: seq<nat>)
    requires instance >= 1 && |bases| >= 1
    requires |attempts| < |outcomes| && |attempts| < |jitters|
    requires forall k :: 0 <= k < |jitters| ==> jitters[k] < 250
    requires Conducted(attempts, bases, path, zpl, instance, outcomes, jitters)
    requires SentAs(sent, bases, path, zpl, instance, |attempts|)
    requires sent.pause.Some? <==> Retryable(outcomes[|attempts|])
    requires Retryable(outcomes[|attempts|]) ==>
      sent.pause.value == Pause(outcomes[|attempts|], |attempts|, instance, jitters[|attempts|])
    ensures Conducted(attempts + [sent], bases, path, zpl, instance, outcomes, jitters)
  {
    var all := attempts + [sent];
    forall k | 0 <= k < |all|
      ensures SentAs(all[k], bases, path, zpl, instance, k)
      ensures all[k].pause.Some? <==> Retryable(outcomes[k])
      ensures Retryable(outcomes[k]) ==> all[k].pause.value == Pause(outcomes[k], k, instance, jitters[k])
    {
      if k < |attempts| {
        assert all[k] == attempts[k];
      }
    }
  }

  /** What one attempt's outcome leads to inside the retry loop: a 2xx returns
      its body; a 429 or 5xx waits the larger of Retry-After and the backoff; any
      other status fails with the status and body; an abort waits the backoff;
      any other error fails with its message. */
  method HandleOutcome(o: Outcome, attempt: nat, instance: nat, jitter: nat)
    returns (pause: Option<nat>, settled: FetchResult)
    requires jitter < 250
    ensures pause.Some? <==> Retryable(o)
    ensures Retryable(o) ==> pause.value == Pause(o, attempt, instance, jitter)
    ensures !Retryable(o) ==> settled == Settle(o)
  {
    pause := None;
    settled := Failed([]);
    match o {
      case Response(status, retryAfter, body) =>
        if IsOk(status) {
          settled := Fetched(body);
        } else if RetryableStatus(status) {
          pause := Some(RetryDelay(retryAfter, attempt, instance, jitter));
        } else {
          settled := Failed(StatusMessage(status, body));
        }
      case Abort =>
        pause := Some(ComputeBackoff(attempt, BaseDelay(instance), jitter));
      case Failure(message) =>
        settled := Failed(message);
    }
  }

  /** fetchLabelary over a script of outcomes. Every attempt k goes to base
      (instance - 1 + k) mod |bases| with agent pickUserAgent(instance + k);
      every attempt but the last was retried, with its backoff; the call ends
      at the first outcome that is not retried, and after five retried outcomes
      it fails with the exhausted-retries message. Every attempt posts `zpl`. */
  method FetchLabelary(bases: seq<string>, path: string, zpl: string, instance: nat,
                       outcomes: seq<Outcome>, jitters: seq<nat>)
    returns (result: FetchResult, attempts: seq<Attempt>)
    requires instance >= 1 && |bases| >= 1
    requires |outcomes| >= MaxAttempts && |jitters| >= MaxAttempts
    requires forall k :: 0 <= k < |jitters| ==> jitters[k] < 250
    ensures 1 <= |attempts| <= MaxAttempts
    ensures Conducted(attempts, bases, path, zpl, instance, outcomes, jitters)
    ensures forall k :: 0 <= k < |attempts| ==> attempts[k].body == zpl
    ensures RetriedBefore(outcomes, |attempts| - 1)
    ensures |attempts| < MaxAttempts ==> !Retryable(outcomes[|attempts| - 1])
    ensures !Retryable(outcomes[|attempts| - 1]) ==> result == Settle(outcomes[|attempts| - 1])
    ensures Retryable(outcomes[|attempts| - 1]) ==> result == Failed(ExhaustedMessage)
    ensures result == Resolve(outcomes, 0)
  {
    attempts := [];
    var attempt := 0;
    while attempt < MaxAttempts
      invariant 0 <= attempt <= MaxAttempts && |attempts| == attempt
      invariant Conducted(attempts, bases, path, zpl, instance, outcomes, jitters)
      invariant RetriedBefore(outcomes, attempt)
    {
      var baseIndex := (instance - 1 + attempt) % |bases|;
      var url := StripTrailingSlash(bases[baseIndex]) + path;
      var userAgent := PickUserAgent(instance + attempt);
      var pause, settled := HandleOutcome(outcomes[attempt], attempt, instance, jitters[attempt]);
      var sent := Attempt(baseIndex, url, userAgent, zpl, pause);
      ConductedSnoc(attempts, sent, bases, path, zpl, instance, outcomes, jitters);
      attempts := attempts + [sent];
      if pause.None? {
        result := settled;
        SkipRetried(outcomes, attempt);
        return;
      }
      attempt := attempt + 1;
    }
    result := Failed(ExhaustedMessage);
    SkipRetried(outcomes, MaxAttempts);
  }

  /** Outcomes that are retried do not decide the result: it is decided from
      the first outcome that is not. */
  lemma {:induction false} SkipRetried(outcomes: seq<Outcome>, n: nat)
    requires |outcomes| >= MaxAttempts && n <= MaxAttempts && RetriedBefore(outcomes, n)
    ensures Resolve(outcomes, 0) == Resolve(outcomes, n)
    decreases n
  {
    if n > 0 {
      SkipRetried(outcomes, n - 1);
    }
  }

  /** The call succeeds exactly when some attempt among the first five gets a
      2xx and every attempt before it was retried. */
  lemma {:induction false} FetchedOnlyOnOk(outcomes: seq<Outcome>, k: nat)
    requires |outcomes| >= MaxAttempts && k <= MaxAttempts
    ensures Resolve(outcomes, k).Fetched? <==>
      exists j :: k <= j < MaxAttempts && outcomes[j].Response? && IsOk(outcomes[j].status)
        && (forall i :: k <= i < j ==> Retryable(outcomes[i]))
    decreases MaxAttempts - k
  {
    if k < MaxAttempts {
      FetchedOnlyOnOk(outcomes, k + 1);
      if Retryable(outcomes[k]) {
        if Resolve(outcomes, k).Fetched? {
          var j :| k + 1 <= j < MaxAttempts && outcomes[j].Response? && IsOk(outcomes[j].status)
            && (forall i :: k + 1 <= i < j ==> Retryable(outcomes[i]));
          assert forall i :: k <= i < j ==> Retryable(outcomes[i]);
        }
      }
    }
  }

  /** The exhausted-retries failure comes exactly from five retried outcomes in
      a row; no other failure carries its message. */
  lemma {:induction false} ExhaustedOnlyAfterFiveRetries(outcomes: seq<Outcome>, k: nat)
    requires |outcomes| >= MaxAttempts && k <= MaxAttempts
    requires forall j :: k <= j < MaxAttempts && outcomes[j].Failure? ==> outcomes[j].message != ExhaustedMessage
    ensures Resolve(outcomes, k) == Failed(ExhaustedMessage) <==>
      forall j :: k <= j < MaxAttempts ==> Retryable(outcomes[j])
    decreases MaxAttempts - k
  {
    if k < MaxAttempts {
      ExhaustedOnlyAfterFiveRetries(outcomes, k + 1);
      if !Retryable(outcomes[k]) && outcomes[k].Response? && !IsOk(outcomes[k].status) {
        StatusMessageIsNotExhausted(outcomes[k].status, outcomes[k].body);
      }
    }
  }

  /** A status error names its status after the common prefix, where the
      exhausted message has a letter. */
  lemma StatusMessageIsNotExhausted(status: int, body: string)
    ensures StatusMessage(status, body) != ExhaustedMessage
  {
    var digits := IntToString(status);
    var tail := digits + " - " + body;
    assert StatusMessage(status, body) == ApiErrorPrefix + tail;
    assert (ApiErrorPrefix + tail)[|ApiErrorPrefix|] == tail[0] == digits[0];
    assert ExhaustedMessage[|ApiErrorPrefix|] == ExhaustedReason[0] == 'E';
    assert digits[0] != 'E' by {
      if status >= 0 {
        assert IsDigit(NatToString(status)[0]);
      }
    }
  }

  /** The exhausted message does not mention 429, although rate limiting is
      the usual way to reach it. */
  lemma ExhaustedDoesNotMention429()
    ensures !Contains(ExhaustedMessage, "429")
  {
    assert '4' !in ExhaustedMessage;
    forall i: nat | i + 3 <= |ExhaustedMessage|
      ensures !OccursAt(ExhaustedMessage, i, "429")
    {
      assert ExhaustedMessage[i..i + 3][0] == ExhaustedMessage[i];
    }
  }

  /** With two or more bases, consecutive attempts of one call never use the
      same base, and a call's first attempt goes to base (instance - 1) mod n. */
  lemma BasesRotate(instance: nat, k: nat, n: nat)
    requires instance >= 1 && n >= 2
    ensures BaseIndex(instance, k + 1, n) != BaseIndex(instance, k, n)
    ensures BaseIndex(instance, 0, n) == (instance - 1) % n
  {
    var x := instance - 1 + k;
    var q := x / n;
    var r := x % n;
    assert x == q * n + r;
    MulMono(q, q, n);
    if r + 1 < n {
      DivisionIsUnique(x + 1, n, q);
    } else {
      MulMono(q + 1, q + 1, n);
      DivisionIsUnique(x + 1, n, q + 1);
    }
  }

  /** Whether the slot is held, tracked through an event sequence: acquire only
      when free, send and sleep only when held, release only when held, and
      free at the end. */
  predicate SlotDiscipline(events: seq<Event>, held: bool)
    decreases |events|
  {
    if events == [] then !held
    else match events[0]
      case AcquireSlot => !held && SlotDiscipline(events[1..], true)
      case ReleaseSlot => held && SlotDiscipline(events[1..], false)
      case Send(_, _, _) => held && SlotDiscipline(events[1..], true)
      case Sleep(_) => held && SlotDiscipline(events[1..], true)
  }

  /** Every request and every backoff happens while the call holds one slot,
      and the slot is given back after each attempt, whatever its outcome.
      This holds by construction of `AttemptEvents`, which lays out the
      acquire, the request, the optional backoff and the `finally` release of
      one attempt; the lemma checks that the layout nests correctly across a
      whole call. */
  lemma {:induction false} AttemptsKeepSlotDiscipline(attempts: seq<Attempt>)
    ensures SlotDiscipline(Events(attempts), false)
    decreases |attempts|
  {
    if attempts != [] {
      AttemptsKeepSlotDiscipline(attempts[1..]);
      var a := attempts[0];
      var rest := Events(attempts[1..]);
      var es := Events(attempts);
      assert es == AttemptEvents(a) + rest;
      assert es[0] == AcquireSlot && es[1] == Send(a.url, a.userAgent, a.body);
      if a.pause.Some? {
        assert es[2] == Sleep(a.pause.value) && es[3] == ReleaseSlot;
        assert es[4..] == rest;
        assert SlotDiscipline(es[3..], true);
        assert SlotDiscipline(es[2..], true);
      } else {
        assert es[2] == ReleaseSlot;
        assert es[3..] == rest;
        assert SlotDiscipline(es[2..], true);
      }
      assert SlotDiscipline(es[1..], true);
    }
  }

  function Acquires(events: seq<Event>): nat
    decreases |events|
  {
    if events == [] then 0 else (if events[0] == AcquireSlot then 1 else 0) + Acquires(events[1..])
  }

  function Releases(events: seq<Event>): nat
    decreases |events|
  {
    if events == [] then 0 else (if events[0] == ReleaseSlot then 1 else 0) + Releases(events[1..])
  }

  lemma {:induction false} CountsAppend(a: seq<Event>, b: seq<Event>)
    ensures Acquires(a + b) == Acquires(a) + Acquires(b)
    ensures Releases(a + b) == Releases(a) + Releases(b)
    decreases |a|
  {
    if a != [] {
      assert (a + b)[0] == a[0];
      assert (a + b)[1..] == a[1..] + b;
      CountsAppend(a[1..], b);
    } else {
      assert a + b == b;
    }
  }

  /** Each attempt acquires the slot once and releases it once; like the
      lemma above, a consequence of how `AttemptEvents` lays out one attempt. */
  lemma {:induction false} OneSlotPerAttempt(attempts: seq<Attempt>)
    ensures Acquires(Events(attempts)) == |attempts|
    ensures Releases(Events(attempts)) == |attempts|
    decreases |attempts|
  {
    if attempts != [] {
      var a := attempts[0];
      OneSlotPerAttempt(attempts[1..]);
      CountsAppend(AttemptEvents(a), Events(attempts[1..]));
      var es := AttemptEvents(a);
      var last: seq<Event> := [ReleaseSlot];
      assert last[1..] == [];
      assert Acquires(last) == 0 && Releases(last) == 1;
      var tail := es[2..];
      assert Acquires(tail) == 0 && Releases(tail) == 1 by {
        if a.pause.Some? {
          assert tail == [Sleep(a.pause.value)] + last;
          assert tail[1..] == last;
        } else {
          assert tail == last;
        }
      }
      assert es[1..][1..] == tail;
    }
  }
}
