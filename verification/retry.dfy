/**
 * `retryOperation`: up to `maxRetries` sequential attempts of an asynchronous
 * operation, a growing wait after each failure, and the last error thrown when no
 * attempt succeeds. The operation's outcomes are a parameter: `attempt(i)` is how
 * the `i`-th call (from 0) ends, and the waits are returned instead of slept.
 */
module Retry {
  import opened Wrappers

  /** How one call of the operation ends. */
  datatype Outcome<T, E> = Resolved(value: T) | Rejected(error: E)

  /** How `retryOperation` ends: with a value, or by throwing (None is `undefined`). */
  datatype RetryResult<T, E> = Returned(value: T) | Threw(error: Option<E>)

  /** The wait after failed attempt `i`, in milliseconds. */
  function Wait(i: nat): nat {
    1000 * (i + 1)
  }

  /** The waits after the first `n` failed attempts, in order. */
  function Waits(n: nat): (waits: seq<nat>)
    ensures |waits| == n
  {
    if n == 0 then [] else Waits(n - 1) + [Wait(n - 1)]
  }

  function Total(waits: seq<nat>): nat {
    if waits == [] then 0 else Total(waits[..|waits| - 1]) + waits[|waits| - 1]
  }

  /** `n` failures wait 1000 + 2000 + ... + 1000·n milliseconds in all. */
  lemma {:induction false} TotalWait(n: nat)
    ensures Total(Waits(n)) == 500 * n * (n + 1)
  {
    if n > 0 {
      var waits := Waits(n);
      TotalWait(n - 1);
      assert waits[..n - 1] == Waits(n - 1);
      assert Total(waits) == 500 * (n - 1) * n + 1000 * n;
      calc {
        500 * (n - 1) * n + 1000 * n;
        500 * n * n - 500 * n + 1000 * n;
        500 * n * n + 500 * n;
        500 * n * (n + 1);
      }
    }
  }

  /** The outcome of the loop from attempt `i` on, having last failed with `lastError`. */
  function RetryFrom<T, E>(attempt: nat -> Outcome<T, E>, maxRetries: int, i: nat, lastError: Option<E>): RetryResult<T, E>
    decreases maxRetries - i
  {
    if i >= maxRetries then Threw(lastError)
    else match attempt(i)
      case Resolved(v) => Returned(v)
      case Rejected(e) => RetryFrom(attempt, maxRetries, i + 1, Some(e))
  }

  /** What `retryOperation(operation, maxRetries)` ends with. */
  function Retried<T, E>(attempt: nat -> Outcome<T, E>, maxRetries: int): RetryResult<T, E> {
    RetryFrom(attempt, maxRetries, 0, None)
  }

  /** `retryOperation(operation)`: `maxRetries` defaults to 3. */
  function RetriedByDefault<T, E>(attempt: nat -> Outcome<T, E>): RetryResult<T, E> {
    Retried(attempt, 3)
  }

  /**
   * Called without a bound, `retryOperation` returns the value of the first of three
   * attempts that resolves, and otherwise throws the third attempt's error.
   */
  lemma DefaultRetries<T, E>(attempt: nat -> Outcome<T, E>)
    ensures var r := RetriedByDefault(attempt);
      && (attempt(0).Resolved? ==> r == Returned(attempt(0).value))
      && (attempt(0).Rejected? && attempt(1).Resolved? ==> r == Returned(attempt(1).value))
      && (attempt(0).Rejected? && attempt(1).Rejected? && attempt(2).Resolved? ==> r == Returned(attempt(2).value))
      && (attempt(0).Rejected? && attempt(1).Rejected? && attempt(2).Rejected? ==> r == Threw(Some(attempt(2).error)))
  {
    RetryFromFirstSuccess(attempt, 3, 0, None);
  }

  /** The calls before attempt `n` all failed. */
  predicate FailedBefore<T, E>(attempt: nat -> Outcome<T, E>, n: nat) {
    forall k :: 0 <= k < n ==> attempt(k).Rejected?
  }

  /**
   * The loop returns the value of the first attempt, below `maxRetries`, that resolves;
   * when there is none it throws the last attempt's error, or `undefined` when it made
   * no attempt.
   */
  lemma {:induction false} RetryFromFirstSuccess<T, E>(attempt: nat -> Outcome<T, E>, maxRetries: int, i: nat, lastError: Option<E>)
    ensures var r := RetryFrom(attempt, maxRetries, i, lastError);
      (r.Returned? <==> exists k :: i <= k < maxRetries && attempt(k).Resolved?)
      && (forall k :: i <= k < maxRetries && attempt(k).Resolved? && (forall m :: i <= m < k ==> attempt(m).Rejected?)
            ==> r == Returned(attempt(k).value))
      && (r.Threw? && i < maxRetries ==> r.error == Some(attempt(maxRetries - 1).error))
      && (r.Threw? && i >= maxRetries ==> r.error == lastError)
    decreases maxRetries - i
  {
    if i < maxRetries {
      RetryFromFirstSuccess(attempt, maxRetries, i + 1, if attempt(i).Rejected? then Some(attempt(i).error) else lastError);
      if attempt(i).Rejected? {
        var r := RetryFrom(attempt, maxRetries, i, lastError);
        if r.Threw? && i + 1 >= maxRetries {
          assert i == maxRetries - 1;
        }
      }
    }
  }

  /** With no attempt allowed, `retryOperation` throws `undefined`. */
  lemma NoAttempts<T, E>(attempt: nat -> Outcome<T, E>, maxRetries: int)
    requires maxRetries <= 0
    ensures Retried(attempt, maxRetries) == Threw(None)
  {
  }

  /**
   * `retryOperation`: the attempts made, in order, stopping at the first that resolves,
   * and the wait after each failed one.
   */
  method RetryOperation<T, E>(attempt: nat -> Outcome<T, E>, maxRetries: int)
    returns (r: RetryResult<T, E>, attempts: nat, waits: seq<nat>)
    ensures r == Retried(attempt, maxRetries)
    ensures attempts <= if maxRetries < 0 then 0 else maxRetries
    ensures r.Returned? ==> attempts >= 1 && attempt(attempts - 1) == Resolved(r.value)
    ensures FailedBefore(attempt, if r.Returned? then attempts - 1 else attempts)
    ensures r.Threw? ==> attempts == (if maxRetries < 0 then 0 else maxRetries)
    ensures waits == Waits(if r.Returned? then attempts - 1 else attempts)
  {
    var lastError: Option<E> := None;
    waits := [];
    var i: nat := 0;
    while i < maxRetries
      invariant i <= maxRetries || i == 0
      invariant FailedBefore(attempt, i)
      invariant lastError == if i == 0 then None else Some(attempt(i - 1).error)
      invariant waits == Waits(i)
      invariant Retried(attempt, maxRetries) == RetryFrom(attempt, maxRetries, i, lastError)
      decreases maxRetries - i
    {
      var outcome := attempt(i);
      if outcome.Resolved? {
        return Returned(outcome.value), i + 1, waits;
      }
      lastError := Some(outcome.error);
      waits := waits + [Wait(i)];
      i := i + 1;
    }
    r, attempts := Threw(lastError), i;
  }
}
