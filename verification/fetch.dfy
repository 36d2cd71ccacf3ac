/** The fetch: up to three attempts, the first one that does not fail retryably deciding
    it, then the answer to the form is parsed into a record. A scheduled wrapper repeats
    the whole fetch up to three times. */
module Fetch {
  import opened Results
  import opened Text
  import opened ResultParser
  import opened Retry
  import opened Attempt

  /** Attempts per fetch, and fetches per scheduled update. */
  const MaxAttempts: nat := 3
  const MaxFetches: nat := 3

  /** The requests of a sequence of attempts, in order. */
  function Flatten(runs: seq<AttemptRun>): seq<Request> {
    if runs == [] then [] else Flatten(runs[..|runs| - 1]) + runs[|runs| - 1].requests
  }

  /** The attempts a fetch may make, one per exchange. */
  function Runs(vin: string, ocrBase: string, script: seq<Exchange>): seq<AttemptRun> {
    seq(|script|, i requires 0 <= i < |script| => RunAttempt(vin, ocrBase, script[i]))
  }

  function Steps(runs: seq<AttemptRun>): seq<Try<ResultPage, AttemptError>> {
    seq(|runs|, i requires 0 <= i < |runs| => runs[i].step)
  }

  /** What the attempt loop did: the requests it sent, the attempts it made and how the
      last of them ended. */
  datatype LoopRun = LoopRun(requests: seq<Request>, attempts: nat, last: Try<ResultPage, AttemptError>)

  /** The attempt loop of the fetch. The first attempt that does not fail retryably ends
      it, and otherwise the third one does. Only the attempts made send requests. */
  function FetchLoop(runs: seq<AttemptRun>): (r: LoopRun)
    requires |runs| == MaxAttempts
    ensures 1 <= r.attempts <= MaxAttempts
    ensures r.requests == Flatten(runs[..r.attempts])
    ensures forall i :: 0 <= i < r.attempts - 1 ==> runs[i].step.Retryable?
    ensures r.last == runs[r.attempts - 1].step
    ensures r.last.Retryable? ==> r.attempts == MaxAttempts
  {
    var steps := Steps(runs);
    var n := Used(Drive(steps), MaxAttempts);
    RetryableBeforeLast(steps);
    assert forall i :: 0 <= i < n - 1 ==> steps[i] == runs[i].step;
    LoopRun(Flatten(runs[..n]), n, runs[n - 1].step)
  }

  /** The loop stops at the first attempt that does not fail retryably. */
  lemma LoopEndsAtFirstDecisive(runs: seq<AttemptRun>, k: nat)
    requires |runs| == MaxAttempts && k < MaxAttempts
    requires forall i :: 0 <= i < k ==> runs[i].step.Retryable?
    requires !runs[k].step.Retryable?
    ensures FetchLoop(runs).attempts == k + 1
  {
    var steps := Steps(runs);
    assert forall i :: 0 <= i < k ==> steps[..k][i] == runs[i].step;
    FirstDecisiveTry(steps, k);
  }

  /** The loop never looks past the attempt that ended it. */
  lemma FetchLoopIgnoresLater(runs1: seq<AttemptRun>, runs2: seq<AttemptRun>)
    requires |runs1| == |runs2| == MaxAttempts
    requires forall i :: 0 <= i < FetchLoop(runs1).attempts ==> runs1[i] == runs2[i]
    ensures FetchLoop(runs2) == FetchLoop(runs1)
  {
    var n := FetchLoop(runs1).attempts;
    if n == MaxAttempts {
      assert runs1 == runs2;
    } else {
      LoopEndsAtFirstDecisive(runs2, n - 1);
      assert runs1[..n] == runs2[..n];
    }
  }

  /** The number of attempts among `runs` that posted the form. */
  function PostedAttempts(runs: seq<AttemptRun>): nat {
    if runs == [] then 0
    else PostedAttempts(runs[..|runs| - 1]) + (if |runs[|runs| - 1].requests| == 4 then 1 else 0)
  }

  lemma PostsWellFormedConcat(a: seq<Request>, b: seq<Request>, vin: string)
    requires PostsWellFormed(a, vin) && PostsWellFormed(b, vin)
    ensures PostsWellFormed(a + b, vin)
  {
    forall i | 0 <= i < |a + b| && (a + b)[i].PostForm?
      ensures WellFormedPost((a + b)[i], vin)
    {
      if i >= |a| {
        assert (a + b)[i] == b[i - |a|];
      }
    }
  }

  /** Attempts run one after another load the landing page once each, post once per
      attempt that got that far, and post only well-formed forms. */
  lemma {:induction false} FlattenShaped(runs: seq<AttemptRun>, vin: string)
    requires forall i :: 0 <= i < |runs| ==> Shaped(runs[i].requests, vin)
    ensures PageLoads(Flatten(runs)) == |runs|
    ensures Posts(Flatten(runs)) == PostedAttempts(runs) <= |runs|
    ensures PostsWellFormed(Flatten(runs), vin)
  {
    if runs == [] {
      assert Flatten(runs) == [];
    } else {
      var init, last := runs[..|runs| - 1], runs[|runs| - 1];
      FlattenShaped(init, vin);
      ShapedRequests(last.requests, vin);
      CountsConcat(Flatten(init), last.requests);
      PostsWellFormedConcat(Flatten(init), last.requests, vin);
    }
  }

  /** What the loop sends, given attempts of the right shape. */
  lemma FetchLoopRequests(runs: seq<AttemptRun>, vin: string)
    requires |runs| == MaxAttempts
    requires forall i :: 0 <= i < |runs| ==> Shaped(runs[i].requests, vin)
    ensures var r := FetchLoop(runs);
      && PageLoads(r.requests) == r.attempts
      && Posts(r.requests) == PostedAttempts(runs[..r.attempts]) <= r.attempts
      && PostsWellFormed(r.requests, vin)
  {
    var n := FetchLoop(runs).attempts;
    assert forall i :: 0 <= i < n ==> runs[..n][i] == runs[i];
    FlattenShaped(runs[..n], vin);
  }

  /** The loop over two retryable attempts and a successful third one, all of which
      posted the form. */
  lemma LoopSucceedsThird(runs: seq<AttemptRun>, vin: string, page: ResultPage)
    requires |runs| == MaxAttempts
    requires Shaped(runs[0].requests, vin) && |runs[0].requests| == 4 && runs[0].step.Retryable?
    requires Shaped(runs[1].requests, vin) && |runs[1].requests| == 4 && runs[1].step.Retryable?
    requires Shaped(runs[2].requests, vin) && |runs[2].requests| == 4 && runs[2].step == Done(page)
    ensures var r := FetchLoop(runs);
      && r.attempts == 3
      && r.last == Done(page)
      && PageLoads(r.requests) == 3
      && Posts(r.requests) == 3
  {
    assert forall i :: 0 <= i < |runs| ==> Shaped(runs[i].requests, vin) && |runs[i].requests| == 4;
    FetchLoopRequests(runs, vin);
    assert runs[..3] == runs;
    assert runs[..1][..0] == [];
    assert PostedAttempts(runs[..1]) == 1;
    assert runs[..2][..1] == runs[..1];
    assert PostedAttempts(runs[..2]) == 2;
    assert runs[..3][..2] == runs[..2];
  }

  /** The prefix the fetch wraps every failure in, and the one it adds when all three
      attempts failed. */
  const CheckFailed: string := "ITP check failed: "
  const AfterThreeAttempts: string := "Failed after 3 attempts: "

  /** The data a successful check returns; the `last_checked` timestamp is left out. */
  datatype ItpRecord = ItpRecord(vin: string, status: ItpStatus, expiration: string)

  /** The record for the answer to the form: the VIN it was asked for, with the status and
      the date the parser reads from the answer; `Not Found` exactly when the answer has the
      no-record marker, and then no date. */
  function RecordOf(vin: string, page: ResultPage): (r: ItpRecord)
    ensures r.vin == vin
    ensures Parsed(r.status, r.expiration) == Parse(page.lowerContent, page.legacy)
    ensures r.status == NotFound <==> Contains(page.lowerContent, NotFoundMarker)
    ensures r.status == NotFound ==> r.expiration == Unknown
  {
    var parsed := Parse(page.lowerContent, page.legacy);
    ItpRecord(vin, parsed.status, parsed.expiration)
  }

  /** What the fetch returns once its last attempt has ended: the parsed record on
      success; otherwise the attempt's message behind the "ITP check failed: " prefix,
      with "Failed after 3 attempts: " in between when the attempt could have been
      retried. Every failure starts with the prefix. */
  function Verdict(vin: string, last: Try<ResultPage, AttemptError>): (r: Result<ItpRecord, string>)
    ensures r.Success? <==> last.Done?
    ensures r.Success? ==> r.value.vin == vin && r.value == RecordOf(vin, last.value)
    ensures r.Failure? ==> StartsWith(r.error, CheckFailed)
    ensures last.Fatal? ==> r.error == CheckFailed + Message(last.reason)
    ensures last.Retryable? ==> r.error == CheckFailed + AfterThreeAttempts + Message(last.reason)
  {
    match last
    case Done(page) => Success(RecordOf(vin, page))
    case Fatal(e) =>
      StartsWithPrefix(CheckFailed, Message(e));
      Failure(CheckFailed + Message(e))
    case Retryable(e) =>
      StartsWithPrefix(CheckFailed, AfterThreeAttempts + Message(e));
      assert CheckFailed + AfterThreeAttempts + Message(e) == CheckFailed + (AfterThreeAttempts + Message(e));
      Failure(CheckFailed + AfterThreeAttempts + Message(e))
  }

  /** What one fetch sent, how many attempts it made and what it returned. */
  datatype FetchRun = FetchRun(requests: seq<Request>, attempts: nat, result: Result<ItpRecord, string>)

  /** One fetch, the exchanges of its attempts given in order. A record it returns is for
      the VIN asked about, and every failure carries the "ITP check failed: " prefix. */
  function FetchItp(vin: string, ocrBase: string, script: seq<Exchange>): (r: FetchRun)
    requires |script| == MaxAttempts
    ensures r.result.Success? ==> r.result.value.vin == vin
    ensures r.result.Failure? ==> StartsWith(r.result.error, CheckFailed)
  {
    var loop := FetchLoop(Runs(vin, ocrBase, script));
    FetchRun(loop.requests, loop.attempts, Verdict(vin, loop.last))
  }

  /** Every attempt the fetch may make has the shape of an attempt's requests. */
  lemma RunsShaped(vin: string, ocrBase: string, script: seq<Exchange>)
    ensures forall i :: 0 <= i < |script| ==> Shaped(Runs(vin, ocrBase, script)[i].requests, vin)
  {
    forall i | 0 <= i < |script|
      ensures Shaped(Runs(vin, ocrBase, script)[i].requests, vin)
    {
      assert Runs(vin, ocrBase, script)[i] == RunAttempt(vin, ocrBase, script[i]);
    }
  }

  /** What a fetch sends: the landing page once per attempt made, at most one POST per
      attempt, and only forms carrying the upper-cased VIN and a four-digit code. */
  lemma FetchRequests(vin: string, ocrBase: string, script: seq<Exchange>)
    requires |script| == MaxAttempts
    ensures var r := FetchItp(vin, ocrBase, script);
      && 1 <= r.attempts <= MaxAttempts
      && PageLoads(r.requests) == r.attempts
      && Posts(r.requests) <= r.attempts
      && PostsWellFormed(r.requests, vin)
  {
    RunsShaped(vin, ocrBase, script);
    FetchLoopRequests(Runs(vin, ocrBase, script), vin);
  }

  /** How a fetch ends: every attempt before the last failed retryably; it succeeds only
      through an attempt that posted the form and got a 200 answer without the rejection
      phrase, returning that answer parsed; a failure reports the last attempt's message,
      and one that could have been retried ends the fetch only on the third attempt. */
  lemma FetchOutcome(vin: string, ocrBase: string, script: seq<Exchange>)
    requires |script| == MaxAttempts
    ensures var r := FetchItp(vin, ocrBase, script);
      && 1 <= r.attempts <= MaxAttempts
      && (forall i :: 0 <= i < r.attempts - 1 ==> RunAttempt(vin, ocrBase, script[i]).step.Retryable?)
      && r.result == Verdict(vin, RunAttempt(vin, ocrBase, script[r.attempts - 1]).step)
      && (RunAttempt(vin, ocrBase, script[r.attempts - 1]).step.Retryable? ==> r.attempts == MaxAttempts)
  {
    AttemptsBeforeLast(vin, ocrBase, script);
    LastAttempt(vin, ocrBase, script);
  }

  lemma AttemptsBeforeLast(vin: string, ocrBase: string, script: seq<Exchange>)
    requires |script| == MaxAttempts
    ensures var n := FetchItp(vin, ocrBase, script).attempts;
      && 1 <= n <= MaxAttempts
      && forall i :: 0 <= i < n - 1 ==> RunAttempt(vin, ocrBase, script[i]).step.Retryable?
  {
    var runs := Runs(vin, ocrBase, script);
    var n := FetchLoop(runs).attempts;
    forall i | 0 <= i < n - 1 ensures RunAttempt(vin, ocrBase, script[i]).step.Retryable? {
      assert runs[i] == RunAttempt(vin, ocrBase, script[i]);
    }
  }

  lemma LastAttempt(vin: string, ocrBase: string, script: seq<Exchange>)
    requires |script| == MaxAttempts
    ensures var r := FetchItp(vin, ocrBase, script);
      && 1 <= r.attempts <= MaxAttempts
      && r.result == Verdict(vin, RunAttempt(vin, ocrBase, script[r.attempts - 1]).step)
      && (RunAttempt(vin, ocrBase, script[r.attempts - 1]).step.Retryable? ==> r.attempts == MaxAttempts)
  {
    var runs := Runs(vin, ocrBase, script);
    var loop := FetchLoop(runs);
    var n := loop.attempts;
    assert runs[n - 1] == RunAttempt(vin, ocrBase, script[n - 1]);
  }

  /** A fetch succeeds only through an attempt that posted the form and got a 200 answer
      without the rejection phrase; its record is that answer, parsed, for the VIN. */
  lemma FetchSuccess(vin: string, ocrBase: string, script: seq<Exchange>)
    requires |script| == MaxAttempts
    ensures var r := FetchItp(vin, ocrBase, script);
      r.result.Success? ==>
        var x := script[r.attempts - 1];
        && ReadyToPost(vin, x)
        && x.post.Answered? && x.post.status == 200
        && !Contains(x.post.body.lowerText, RejectionPhrase)
        && r.result.value == RecordOf(vin, x.post.body)
  {
    var runs := Runs(vin, ocrBase, script);
    var loop := FetchLoop(runs);
    if loop.last.Done? {
      var k := loop.attempts - 1;
      assert runs[k] == RunAttempt(vin, ocrBase, script[k]);
      AttemptDone(vin, ocrBase, script[k]);
    }
  }

  /** An exception in attempt `k`, after `k` retryable failures, ends the fetch at once:
      `k + 1` attempts, and the failure is the exception's text behind the prefix. */
  lemma FetchRaised(vin: string, ocrBase: string, script: seq<Exchange>, k: nat, cause: string)
    requires |script| == MaxAttempts && k < MaxAttempts
    requires forall i :: 0 <= i < k ==> RunAttempt(vin, ocrBase, script[i]).step.Retryable?
    requires RaisesFirst(vin, script[k], cause)
    ensures FetchItp(vin, ocrBase, script).attempts == k + 1
    ensures FetchItp(vin, ocrBase, script).result == Failure(CheckFailed + cause)
  {
    var runs := Runs(vin, ocrBase, script);
    forall i | 0 <= i < k ensures runs[i].step.Retryable? {
      assert runs[i] == RunAttempt(vin, ocrBase, script[i]);
    }
    assert runs[k] == RunAttempt(vin, ocrBase, script[k]);
    AttemptRaises(vin, ocrBase, script[k], cause);
    LoopEndsAtFirstDecisive(runs, k);
  }

  /** Replies the fetch never waited for do not matter: two scripts that agree on the
      attempts the first one made give the same fetch. */
  lemma FetchIgnoresLaterReplies(vin: string, ocrBase: string, s1: seq<Exchange>, s2: seq<Exchange>)
    requires |s1| == |s2| == MaxAttempts
    requires forall i :: 0 <= i < FetchItp(vin, ocrBase, s1).attempts ==> s1[i] == s2[i]
    ensures FetchItp(vin, ocrBase, s2) == FetchItp(vin, ocrBase, s1)
  {
    var runs1, runs2 := Runs(vin, ocrBase, s1), Runs(vin, ocrBase, s2);
    var n := FetchLoop(runs1).attempts;
    assert forall i :: 0 <= i < n ==> runs1[i] == RunAttempt(vin, ocrBase, s1[i]) == runs2[i];
    FetchLoopIgnoresLater(runs1, runs2);
  }

  /** Two answers rejecting the CAPTCHA and then a clean answer: the third attempt
      succeeds, after three page loads and three posts. */
  lemma TwoRejectionsThenSuccess(vin: string, ocrBase: string, script: seq<Exchange>)
    requires |script| == MaxAttempts
    requires forall i :: 0 <= i < 2 ==>
               && ReadyToPost(vin, script[i])
               && script[i].post.Answered? && script[i].post.status == 200
               && Contains(script[i].post.body.lowerText, RejectionPhrase)
    requires ReadyToPost(vin, script[2])
    requires script[2].post.Answered? && script[2].post.status == 200
    requires !Contains(script[2].post.body.lowerText, RejectionPhrase)
    ensures var r := FetchItp(vin, ocrBase, script);
      && r.attempts == 3
      && r.result == Success(RecordOf(vin, script[2].post.body))
      && PageLoads(r.requests) == 3
      && Posts(r.requests) == 3
  {
    var runs := Runs(vin, ocrBase, script);
    AttemptRejected(vin, ocrBase, script[0]);
    AttemptRejected(vin, ocrBase, script[1]);
    AttemptAccepted(vin, ocrBase, script[2]);
    assert runs[0] == RunAttempt(vin, ocrBase, script[0]);
    assert runs[1] == RunAttempt(vin, ocrBase, script[1]);
    assert runs[2] == RunAttempt(vin, ocrBase, script[2]);
    LoopSucceedsThird(runs, vin, script[2].post.body);
  }

  /** The scheduled update: what each fetch did, and what the update returned. */
  datatype Update = Update(fetches: seq<FetchRun>, result: Result<ItpRecord, string>)

  /** Each fetch as a try of the scheduled wrapper: a success is done, a failure can be
      retried. */
  function FetchTries(fetches: seq<FetchRun>): (t: seq<Try<ItpRecord, string>>)
    ensures |t| == |fetches|
    ensures forall i :: 0 <= i < |t| ==> !t[i].Fatal?
    ensures forall i :: 0 <= i < |t| && t[i].Done? ==> fetches[i].result == Success(t[i].value)
    ensures forall i :: 0 <= i < |t| && t[i].Retryable? ==> fetches[i].result == Failure(t[i].reason)
  {
    seq(|fetches|, i requires 0 <= i < |fetches| =>
      if fetches[i].result.Success? then Done(fetches[i].result.value)
      else Retryable(fetches[i].result.error))
  }

  /** The scheduled wrapper around the fetch. Every failed fetch may be repeated, up to three
      fetches; the first success is returned, and when all three fail the third one's
      error is re-raised as it is, without a further prefix. */
  function UpdateLoop(fetches: seq<FetchRun>): (r: Update)
    requires |fetches| == MaxFetches
    ensures 1 <= |r.fetches| <= MaxFetches && r.fetches == fetches[..|r.fetches|]
    ensures forall i :: 0 <= i < |r.fetches| - 1 ==> fetches[i].result.Failure?
    ensures r.result == fetches[|r.fetches| - 1].result
    ensures r.result.Failure? ==> |r.fetches| == MaxFetches
  {
    var tries := FetchTries(fetches);
    match Drive(tries)
    case Succeeded(record, n) =>
      assert forall i :: 0 <= i < n - 1 ==> tries[..n - 1][i] == tries[i];
      Update(fetches[..n], Success(record))
    case Aborted(_, _) =>
      assert false;
      Update([], Failure(""))
    case Exhausted(message) =>
      assert fetches[..MaxFetches] == fetches;
      Update(fetches, Failure(message))
  }

  /** The fetches the scheduled update may make, one per script: each returns records for
      the VIN asked about only, and failures that carry the "ITP check failed: " prefix. */
  function Fetches(vin: string, ocrBase: string, scripts: seq<seq<Exchange>>): (r: seq<FetchRun>)
    requires forall i :: 0 <= i < |scripts| ==> |scripts[i]| == MaxAttempts
    ensures |r| == |scripts|
    ensures forall i :: 0 <= i < |r| && r[i].result.Success? ==> r[i].result.value.vin == vin
    ensures forall i :: 0 <= i < |r| && r[i].result.Failure? ==> StartsWith(r[i].result.error, CheckFailed)
  {
    seq(|scripts|, i requires 0 <= i < |scripts| => FetchItp(vin, ocrBase, scripts[i]))
  }

  /** The scheduled update, the exchanges of each fetch given in order. It makes one to
      three fetches, those of the first scripts; a record it returns is for the VIN asked
      about; a failure comes only after three fetches and is the third fetch's own failure,
      whose "ITP check failed: " prefix the wrapper does not repeat. */
  function UpdateData(vin: string, ocrBase: string, scripts: seq<seq<Exchange>>): (r: Update)
    requires |scripts| == MaxFetches
    requires forall i :: 0 <= i < |scripts| ==> |scripts[i]| == MaxAttempts
    ensures 1 <= |r.fetches| <= MaxFetches
    ensures r.fetches == Fetches(vin, ocrBase, scripts)[..|r.fetches|]
    ensures forall i :: 0 <= i < |r.fetches| - 1 ==> Fetches(vin, ocrBase, scripts)[i].result.Failure?
    ensures r.result == Fetches(vin, ocrBase, scripts)[|r.fetches| - 1].result
    ensures r.result.Success? ==> r.result.value.vin == vin
    ensures r.result.Failure? ==>
              && |r.fetches| == MaxFetches
              && r.result == Fetches(vin, ocrBase, scripts)[MaxFetches - 1].result
              && StartsWith(r.result.error, CheckFailed)
  {
    UpdateLoop(Fetches(vin, ocrBase, scripts))
  }

  /** The update's fetches are the fetches of the first scripts, in order; every one
      before the last failed, and the update returns the last one's result as it is. */
  lemma UpdateIsLastFetch(vin: string, ocrBase: string, scripts: seq<seq<Exchange>>)
    requires |scripts| == MaxFetches
    requires forall i :: 0 <= i < |scripts| ==> |scripts[i]| == MaxAttempts
    ensures var u := UpdateData(vin, ocrBase, scripts);
      && 1 <= |u.fetches| <= MaxFetches
      && (forall i :: 0 <= i < |u.fetches| ==> u.fetches[i] == FetchItp(vin, ocrBase, scripts[i]))
      && (forall i :: 0 <= i < |u.fetches| - 1 ==> FetchItp(vin, ocrBase, scripts[i]).result.Failure?)
      && u.result == FetchItp(vin, ocrBase, scripts[|u.fetches| - 1]).result
  {
    var u := UpdateData(vin, ocrBase, scripts);
    var n := |u.fetches|;
    UpdateFetches(vin, ocrBase, scripts);
    forall i | 0 <= i < n - 1 ensures FetchItp(vin, ocrBase, scripts[i]).result.Failure? {
      assert u.fetches[i] == FetchItp(vin, ocrBase, scripts[i]);
    }
    assert u.fetches[n - 1] == FetchItp(vin, ocrBase, scripts[n - 1]);
  }

  /** Fetch i of the update is the fetch of script i. */
  lemma UpdateFetches(vin: string, ocrBase: string, scripts: seq<seq<Exchange>>)
    requires |scripts| == MaxFetches
    requires forall i :: 0 <= i < |scripts| ==> |scripts[i]| == MaxAttempts
    ensures var u := UpdateData(vin, ocrBase, scripts);
      forall i :: 0 <= i < |u.fetches| ==> u.fetches[i] == FetchItp(vin, ocrBase, scripts[i])
  {
    var f := Fetches(vin, ocrBase, scripts);
    var u := UpdateData(vin, ocrBase, scripts);
    FetchOfScript(vin, ocrBase, scripts);
    forall i | 0 <= i < |u.fetches| ensures u.fetches[i] == FetchItp(vin, ocrBase, scripts[i]) {
      assert u.fetches[i] == f[i];
    }
  }

  /** Fetch i of the update is the fetch of script i. */
  lemma FetchOfScript(vin: string, ocrBase: string, scripts: seq<seq<Exchange>>)
    requires forall i :: 0 <= i < |scripts| ==> |scripts[i]| == MaxAttempts
    ensures forall i :: 0 <= i < |scripts| ==> Fetches(vin, ocrBase, scripts)[i] == FetchItp(vin, ocrBase, scripts[i])
  {
  }

  /** The update's third fetch is the fetch of the third script. */
  lemma ThirdFetch(vin: string, ocrBase: string, scripts: seq<seq<Exchange>>)
    requires |scripts| == MaxFetches
    requires forall i :: 0 <= i < |scripts| ==> |scripts[i]| == MaxAttempts
    ensures UpdateData(vin, ocrBase, scripts).result.Failure? ==>
              UpdateData(vin, ocrBase, scripts).result == FetchItp(vin, ocrBase, scripts[MaxFetches - 1]).result
  {
  }
}
