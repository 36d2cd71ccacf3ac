/** The bounded retry loop shared by the fetch and by its scheduled wrapper: tries run in
    order, the first success stops the loop, a fatal failure stops it at once, and a
    retryable failure moves on to the next try until none is left. */
module Retry {

  /** The outcome of one try. */
  datatype Try<+T, +E> = Done(value: T) | Retryable(reason: E) | Fatal(reason: E)

  /** The outcome of the loop, with the number of tries it used. */
  datatype Outcome<+T, +E> =
    | Succeeded(value: T, used: nat)
    | Aborted(reason: E, used: nat)
    | Exhausted(last: E)

  predicate AllRetryable<T, E>(tries: seq<Try<T, E>>) {
    forall i :: 0 <= i < |tries| ==> tries[i].Retryable?
  }

  /** The number of tries the loop made. */
  function Used<T, E>(o: Outcome<T, E>, bound: nat): nat {
    if o.Exhausted? then bound else o.used
  }

  /** The loop over a non-empty sequence of tries. It succeeds with the value of the first
      try that is not retryable when that try is `Done`, aborts with its reason when it is
      `Fatal`, and is exhausted, reporting the LAST try's reason, when every try is
      retryable. */
  function Drive<T, E>(tries: seq<Try<T, E>>): (o: Outcome<T, E>)
    requires |tries| > 0
    ensures o.Exhausted? <==> AllRetryable(tries)
    ensures o.Exhausted? ==> o.last == tries[|tries| - 1].reason
    ensures !o.Exhausted? ==> 1 <= o.used <= |tries| && AllRetryable(tries[..o.used - 1])
    ensures o.Succeeded? ==> tries[o.used - 1] == Done(o.value)
    ensures o.Aborted? ==> tries[o.used - 1] == Fatal(o.reason)
  {
    match tries[0]
    case Done(v) => Succeeded(v, 1)
    case Fatal(e) => Aborted(e, 1)
    case Retryable(e) =>
      if |tries| == 1 then Exhausted(e)
      else
        var rest := tries[1..];
        var o := Drive(rest);
        assert forall i :: 1 <= i < |tries| ==> tries[i] == rest[i - 1];
        match o
        case Succeeded(v, n) =>
          assert tries[..n] == [tries[0]] + rest[..n - 1];
          Succeeded(v, n + 1)
        case Aborted(r, n) =>
          assert tries[..n] == [tries[0]] + rest[..n - 1];
          Aborted(r, n + 1)
        case Exhausted(r) => Exhausted(r)
  }

  /** The first try that is not retryable decides the loop, however the later tries would
      have gone. */
  lemma {:induction false} FirstDecisiveTry<T, E>(tries: seq<Try<T, E>>, k: nat)
    requires k < |tries| && !tries[k].Retryable?
    requires AllRetryable(tries[..k])
    ensures Drive(tries) == if tries[k].Done? then Succeeded(tries[k].value, k + 1)
                            else Aborted(tries[k].reason, k + 1)
  {
    if k > 0 {
      assert tries[0] == tries[..k][0];
      assert tries[1..][..k - 1] == tries[1..k];
      assert forall i :: 0 <= i < k - 1 ==> tries[1..k][i] == tries[..k][i + 1];
      FirstDecisiveTry(tries[1..], k - 1);
    }
  }

  /** Every try before the last one the loop made was retryable. */
  lemma RetryableBeforeLast<T, E>(tries: seq<Try<T, E>>)
    requires |tries| > 0
    ensures forall i :: 0 <= i < Used(Drive(tries), |tries|) - 1 ==> tries[i].Retryable?
  {
    var o := Drive(tries);
    if !o.Exhausted? {
      assert forall i :: 0 <= i < o.used - 1 ==> tries[..o.used - 1][i] == tries[i];
    }
  }
}
