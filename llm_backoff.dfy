/**
 * The retry wrapper around LLM calls: a failed call is retried, after a
 * capped exponential delay, only when its error text names a transient
 * condition, and at most `LLM_MAX_RETRIES` times.
 */
module LlmBackoff {
  import opened Text
  import opened Records

  /** The substrings that always make an error retryable. */
  const RetryableDefault: seq<string> := ["rate limit", "timeout", "overloaded", "429"]

  /** The non-blank strings among `ts`, in order. */
  function NonBlank(ts: seq<string>): (r: seq<string>)
    ensures forall t :: t in r <==> t in ts && t != []
    decreases |ts|
  {
    if ts == [] then []
    else
      var t := ts[|ts| - 1];
      var init := ts[..|ts| - 1];
      assert ts == init + [t];
      NonBlank(init) + (if t != [] then [t] else [])
  }

  /** Each string lower-cased. */
  function LowerAll(ts: seq<string>): (r: seq<string>)
    ensures |r| == |ts|
    ensures forall i :: 0 <= i < |ts| ==> r[i] == Lower(ts[i])
  {
    seq(|ts|, i requires 0 <= i < |ts| => Lower(ts[i]))
  }

  /**
   * The extra substrings of `LLM_RETRYABLE_ERROR_SUBSTRINGS`: the comma
   * separated parts, stripped and lower-cased, the blank ones dropped.
   */
  function ExtraTokens(extra: string): seq<string> {
    LowerAll(NonBlank(StripAll(Split(extra, ","))))
  }

  /** Every extra token is non-empty, stripped and lower-case. */
  lemma ExtraTokensShape(extra: string)
    ensures forall t :: t in ExtraTokens(extra) ==> t != [] && exists p :: p in Split(extra, ",") && t == Lower(Strip(p))
  {
    var parts := Split(extra, ",");
    var stripped := StripAll(parts);
    var kept := NonBlank(stripped);
    forall t | t in ExtraTokens(extra)
      ensures t != [] && exists p :: p in parts && t == Lower(Strip(p))
    {
      var i :| 0 <= i < |kept| && LowerAll(kept)[i] == t;
      assert kept[i] in stripped;
      var j :| 0 <= j < |stripped| && stripped[j] == kept[i];
      assert parts[j] in parts && t == Lower(Strip(parts[j]));
    }
  }

  /** An unset variable adds no token. */
  lemma NoExtraTokens()
    ensures ExtraTokens("") == []
  {
    assert FindFrom([], ",", 0).None?;
    assert Split([], ",") == [[]];
    assert StripAll([[]]) == [[]];
    assert NonBlank([[]]) == NonBlank([]) + [];
  }

  /** Some key occurs in the text (the `for key in …: if key in txt` loop). */
  predicate MentionsKey(txt: string, keys: seq<string>) {
    exists k :: k in keys && Contains(txt, k)
  }

  /** `_is_retryable_error`, given the error's text and the value of `LLM_RETRYABLE_ERROR_SUBSTRINGS`. */
  predicate IsRetryable(err: string, extra: string) {
    MentionsKey(Lower(err), RetryableDefault + ExtraTokens(extra))
  }

  /** A key of `a + b` occurs exactly when a key of `a` or one of `b` does. */
  lemma MentionsKeyAppend(txt: string, a: seq<string>, b: seq<string>)
    ensures MentionsKey(txt, a + b) <==> MentionsKey(txt, a) || MentionsKey(txt, b)
  {
    assert forall k :: k in a + b <==> k in a || k in b;
  }

  /** The four default keys, one by one. */
  lemma MentionsDefault(txt: string)
    ensures MentionsKey(txt, RetryableDefault) <==>
      Contains(txt, "rate limit") || Contains(txt, "timeout") || Contains(txt, "overloaded") || Contains(txt, "429")
  {
    if Contains(txt, "rate limit") {
      assert RetryableDefault[0] == "rate limit";
    } else if Contains(txt, "timeout") {
      assert RetryableDefault[1] == "timeout";
    } else if Contains(txt, "overloaded") {
      assert RetryableDefault[2] == "overloaded";
    } else if Contains(txt, "429") {
      assert RetryableDefault[3] == "429";
    }
  }

  /**
   * An error is retryable exactly when its lower-cased text contains one of
   * the four default substrings or one of the extra tokens.
   */
  lemma RetryableIff(err: string, extra: string)
    ensures IsRetryable(err, extra) <==>
      || Contains(Lower(err), "rate limit") || Contains(Lower(err), "timeout")
      || Contains(Lower(err), "overloaded") || Contains(Lower(err), "429")
      || MentionsKey(Lower(err), ExtraTokens(extra))
  {
    MentionsKeyAppend(Lower(err), RetryableDefault, ExtraTokens(extra));
    MentionsDefault(Lower(err));
  }

  /** The error text is matched without regard to case. */
  lemma RetryableIgnoresCase(err: string, extra: string)
    ensures IsRetryable(Lower(err), extra) == IsRetryable(err, extra)
  {
    LowerIdempotent(err);
  }

  /** `2 ** n` */
  function Pow2(n: nat): (r: real)
    ensures r >= 1.0
  {
    if n == 0 then 1.0 else 2.0 * Pow2(n - 1)
  }

  lemma {:induction false} Pow2Monotone(n: nat, m: nat)
    requires n <= m
    ensures Pow2(n) <= Pow2(m)
    decreases m
  {
    if n < m {
      Pow2Monotone(n, m - 1);
    }
  }

  /** The delay before retry number `attempt` (from 1), before the jitter: `min(max_backoff, base * 2 ** (attempt - 1))`. */
  function Delay(base: real, maxBackoff: real, attempt: nat): (r: real)
    requires attempt >= 1
    ensures r <= maxBackoff
  {
    var d := base * Pow2(attempt - 1);
    if maxBackoff < d then maxBackoff else d
  }

  /** With a non-negative base the delay never shrinks from one retry to the next. */
  lemma DelayMonotone(base: real, maxBackoff: real, n: nat, m: nat)
    requires base >= 0.0 && 1 <= n <= m
    ensures Delay(base, maxBackoff, n) <= Delay(base, maxBackoff, m)
  {
    Pow2Monotone(n - 1, m - 1);
    assert base * Pow2(n - 1) <= base * Pow2(m - 1);
  }

  /** The most calls a run may make: `max_retries + 1`, and one when `max_retries` is negative. */
  function MaxCalls(maxRetries: int): (r: nat)
    ensures r >= 1
  {
    if maxRetries < 0 then 1 else maxRetries + 1
  }

  /** `_is_retryable_error` as configured by `LLM_RETRYABLE_ERROR_SUBSTRINGS`. */
  function Policy(extra: string): string -> bool {
    err => IsRetryable(err, extra)
  }

  /**
   * What a run of the retry loop that made `calls` calls and returned `r`
   * guarantees: `r` is the last call's outcome, every earlier call failed
   * with an error `retryable` accepts, and a returned failure is either not
   * retryable or the last call allowed.
   */
  predicate RetryRun(invoke: nat -> Reply, maxRetries: int, retryable: string -> bool, r: Reply, calls: nat) {
    1 <= calls <= MaxCalls(maxRetries) && r == invoke(calls - 1)
    && (forall n :: 0 <= n < calls - 1 ==> invoke(n).Failure? && retryable(invoke(n).message))
    && (r.Failure? ==> calls == MaxCalls(maxRetries) || !retryable(r.message))
  }

  /**
   * The loop of `invoke_with_retry`.  `invoke(n)` is the outcome of the n-th
   * call (from 0).  Besides the result, the method reports how many calls
   * it made and the delays it slept before the jitter.
   */
  method RetryLoop(invoke: nat -> Reply, maxRetries: int, base: real, maxBackoff: real, retryable: string -> bool)
    returns (r: Reply, calls: nat, delays: seq<real>)
    ensures RetryRun(invoke, maxRetries, retryable, r, calls)
    ensures |delays| == calls - 1
    ensures forall i :: 0 <= i < |delays| ==> delays[i] == Delay(base, maxBackoff, i + 1)
  {
    var attempt: nat := 0;
    delays := [];
    while true
      invariant attempt < MaxCalls(maxRetries)
      invariant forall n :: 0 <= n < attempt ==> invoke(n).Failure? && retryable(invoke(n).message)
      invariant |delays| == attempt
      invariant forall i :: 0 <= i < attempt ==> delays[i] == Delay(base, maxBackoff, i + 1)
      decreases MaxCalls(maxRetries) - attempt
    {
      var outcome := invoke(attempt);
      if outcome.Answer? {
        return outcome, attempt + 1, delays;
      }
      attempt := attempt + 1;
      if attempt > maxRetries || !retryable(outcome.message) {
        return outcome, attempt, delays;
      }
      delays := delays + [Delay(base, maxBackoff, attempt)];
    }
  }

  /** `invoke_with_retry`, whose errors are judged by `_is_retryable_error`; `extra` is `LLM_RETRYABLE_ERROR_SUBSTRINGS`. */
  method InvokeWithRetry(invoke: nat -> Reply, maxRetries: int, base: real, maxBackoff: real, extra: string)
    returns (r: Reply, calls: nat, delays: seq<real>)
    ensures RetryRun(invoke, maxRetries, Policy(extra), r, calls)
    ensures |delays| == calls - 1
    ensures forall i :: 0 <= i < |delays| ==> delays[i] == Delay(base, maxBackoff, i + 1)
  {
    r, calls, delays := RetryLoop(invoke, maxRetries, base, maxBackoff, Policy(extra));
  }

  /**
   * The consequences for the caller: a first answer, or a first failure that
   * is not retryable, ends the run after one call; a backend that always
   * fails with a retryable error is called `max_retries + 1` times and the
   * run fails.
   */
  lemma RetryRunFacts(invoke: nat -> Reply, maxRetries: int, extra: string, r: Reply, calls: nat)
    requires RetryRun(invoke, maxRetries, Policy(extra), r, calls)
    ensures invoke(0).Answer? ==> calls == 1 && r == invoke(0)
    ensures invoke(0).Failure? && !IsRetryable(invoke(0).message, extra) ==> calls == 1 && r == invoke(0)
    ensures (forall n :: invoke(n).Failure? && IsRetryable(invoke(n).message, extra)) ==>
      calls == MaxCalls(maxRetries) && r.Failure?
  {
    if calls > 1 {
      assert invoke(0).Failure? && Policy(extra)(invoke(0).message);
    }
    if r.Failure? && IsRetryable(r.message, extra) {
      assert Policy(extra)(r.message);
    }
  }
}
