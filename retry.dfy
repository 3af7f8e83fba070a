/** `retryOperation`: run an operation, and on a thrown error try again after a fixed delay,
    up to a fixed number of retries. The delay is not modelled. An operation is given by the
    outcome its k-th attempt produces (counting from 0). */
module Retry {
  import opened Outcomes

  /** The retry budget: three retries, so at most four attempts. */
  const MAX_RETRIES: nat := 3

  /** The outcome of retrying the attempts numbered `from`, `from + 1`, ... with `retries`
      retries left, and how many attempts were made. */
  function RetryOperation<T>(attempt: nat -> Outcome<T>, retries: nat, from: nat): (r: (Outcome<T>, nat))
    ensures 1 <= r.1 <= retries + 1
    ensures r.0 == attempt(from + r.1 - 1)
    decreases retries
  {
    var o := attempt(from);
    if o.Ok? || retries == 0 then (o, 1)
    else
      var r := RetryOperation(attempt, retries - 1, from + 1);
      (r.0, r.1 + 1)
  }

  /** A first attempt that succeeds, or one with no retries left, is the whole call. */
  lemma RetryStops<T>(attempt: nat -> Outcome<T>, retries: nat, from: nat)
    requires attempt(from).Ok? || retries == 0
    ensures RetryOperation(attempt, retries, from) == (attempt(from), 1)
  {
  }

  /** After a failed first attempt with retries left, the call is one more attempt than the call
      with one retry fewer that starts at the next attempt. */
  lemma RetryContinues<T>(attempt: nat -> Outcome<T>, retries: nat, from: nat)
    requires attempt(from).Fail? && retries > 0
    ensures var rest := RetryOperation(attempt, retries - 1, from + 1);
      RetryOperation(attempt, retries, from) == (rest.0, rest.1 + 1)
  {
  }

  /** Every attempt before the last one failed, and the last one is either the first success
      or the final attempt of the budget: the operation is never called again after a success. */
  lemma {:induction false} RetryStopsAtFirstSuccess<T>(attempt: nat -> Outcome<T>, retries: nat, from: nat)
    ensures var r := RetryOperation(attempt, retries, from);
      && (forall k :: from <= k < from + r.1 - 1 ==> attempt(k).Fail?)
      && (r.0.Ok? || r.1 == retries + 1)
    decreases retries
  {
    if attempt(from).Fail? && retries > 0 {
      RetryStopsAtFirstSuccess(attempt, retries - 1, from + 1);
    }
  }

  /** The three facts above determine the outcome: a run of `n` attempts that matches them is
      the one `RetryOperation` makes. */
  lemma {:induction false} RetryDeterminedBy<T>(attempt: nat -> Outcome<T>, retries: nat, from: nat, n: nat)
    requires 1 <= n <= retries + 1
    requires forall k :: from <= k < from + n - 1 ==> attempt(k).Fail?
    requires attempt(from + n - 1).Ok? || n == retries + 1
    ensures RetryOperation(attempt, retries, from) == (attempt(from + n - 1), n)
    decreases retries
  {
    if n > 1 {
      assert attempt(from).Fail?;
      RetryDeterminedBy(attempt, retries - 1, from + 1, n - 1);
    }
  }

  /** The call resolves exactly when one of the `retries + 1` attempts succeeds. */
  lemma RetrySucceedsIff<T>(attempt: nat -> Outcome<T>, retries: nat, from: nat)
    ensures RetryOperation(attempt, retries, from).0.Ok? <==>
            exists k :: from <= k <= from + retries && attempt(k).Ok?
  {
    RetryStopsAtFirstSuccess(attempt, retries, from);
  }

  /** When every attempt fails, all `retries + 1` attempts are made and the error of the last one
      is rethrown. */
  lemma RetryExhausted<T>(attempt: nat -> Outcome<T>, retries: nat, from: nat)
    requires forall k :: from <= k <= from + retries ==> attempt(k).Fail?
    ensures RetryOperation(attempt, retries, from) == (attempt(from + retries), retries + 1)
  {
    RetryStopsAtFirstSuccess(attempt, retries, from);
  }

  /** When attempt `from + k` is the first to succeed, with `k <= retries`, the call resolves with
      its value after exactly `k + 1` attempts. */
  lemma RetrySucceedsOnAttempt<T>(attempt: nat -> Outcome<T>, retries: nat, from: nat, k: nat)
    requires k <= retries
    requires forall j :: from <= j < from + k ==> attempt(j).Fail?
    requires attempt(from + k).Ok?
    ensures RetryOperation(attempt, retries, from) == (attempt(from + k), k + 1)
  {
    RetryDeterminedBy(attempt, retries, from, k + 1);
  }
}
