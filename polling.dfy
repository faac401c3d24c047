/**
 * Bounded polling. Both the browser client and the backend ask the speech-to-text
 * vendor for a transcript's status in a loop with an attempt bound. Each reply is
 * judged on its own: keep polling, stop with a value, or stop with an error. `Run` is
 * the specification both loops are proved against.
 */
module Polling {

  /** What one status reply tells the loop to do. */
  datatype Step<+T, +E> = Continue | Done(value: T) | Abort(error: E)

  /** How polling ended, and how many status requests it made. */
  datatype Outcome<+T, +E> =
    | Finished(value: T, requests: nat)
    | Aborted(error: E, requests: nat)
    | Exhausted(requests: nat)

  /**
   * The outcome of polling from attempt `k` on, with at most `max` requests in all,
   * when attempt `j` is judged `steps(j)`.
   */
  function Run<T, E>(steps: nat -> Step<T, E>, max: nat, k: nat): (o: Outcome<T, E>)
    requires k <= max
    ensures k <= o.requests <= max
    ensures o.Exhausted? ==> o.requests == max
    ensures !o.Exhausted? ==> k < o.requests
    decreases max - k
  {
    if k == max then Exhausted(max)
    else
      match steps(k)
      case Continue => Run(steps, max, k + 1)
      case Done(v) => Finished(v, k + 1)
      case Abort(e) => Aborted(e, k + 1)
  }

  /** Every attempt in `[from, to)` said to keep polling. */
  ghost predicate Undecided<T, E>(steps: nat -> Step<T, E>, from: nat, to: int) {
    forall j: nat :: from <= j < to ==> steps(j).Continue?
  }

  /**
   * Polling stops at the first decisive reply: it runs out of attempts exactly when no
   * reply in the window is decisive, and otherwise its last request is the first
   * decisive one, whose value or error it returns.
   */
  lemma {:induction false} RunStopsAtFirstDecisive<T, E>(steps: nat -> Step<T, E>, max: nat, k: nat)
    requires k <= max
    ensures Run(steps, max, k).Exhausted? <==> Undecided(steps, k, max)
    ensures Undecided(steps, k, Run(steps, max, k).requests - 1)
    ensures Run(steps, max, k).Finished? ==>
      steps(Run(steps, max, k).requests - 1) == Done(Run(steps, max, k).value)
    ensures Run(steps, max, k).Aborted? ==>
      steps(Run(steps, max, k).requests - 1) == Abort(Run(steps, max, k).error)
    decreases max - k
  {
    if k < max {
      if steps(k).Continue? {
        RunStopsAtFirstDecisive(steps, max, k + 1);
        assert Run(steps, max, k) == Run(steps, max, k + 1);
      } else {
        assert !Undecided(steps, k, max);
      }
    }
  }

  /**
   * Conversely, when the first `n` replies are undecided, polling from the start
   * is polling from attempt `n`: the undecided replies change nothing.
   */
  lemma {:induction false} UndecidedPrefixIsSkipped<T, E>(steps: nat -> Step<T, E>, max: nat, n: nat)
    requires n <= max && Undecided(steps, 0, n)
    ensures Run(steps, max, 0) == Run(steps, max, n)
    decreases n
  {
    if n > 0 {
      UndecidedPrefixIsSkipped(steps, max, n - 1);
      assert steps(n - 1).Continue?;
    }
  }
}
