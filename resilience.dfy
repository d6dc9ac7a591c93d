/** Error classification, bounded retry, the circuit breaker and the error
    log with per-type statistics. Clock readings are passed in as `now`, in
    nanoseconds. */
module Resilience {
  import opened Strings
  import opened Wrappers
  import Tally

  // Error types are small integer codes, as the enumeration constants are.

  type ErrorType = int

  const SyntaxError: ErrorType := 0
  const ValidationError: ErrorType := 1
  const SystemError: ErrorType := 2
  const TransientError: ErrorType := 3

  function ErrorTypeName(t: ErrorType): string
  {
    if t == SyntaxError then "SYNTAX"
    else if t == ValidationError then "VALIDATION"
    else if t == SystemError then "SYSTEM"
    else if t == TransientError then "TRANSIENT"
    else "UNKNOWN"
  }

  datatype ProcessingError = ProcessingError(
    errorType: ErrorType,
    message: string,
    segment: string,
    position: int,
    retryable: bool)

  /** "[TYPE] segment at position n: message". */
  function ErrorText(e: ProcessingError): string
  {
    "[" + ErrorTypeName(e.errorType) + "] " + e.segment + " at position " + IntToString(e.position) + ": " + e.message
  }

  /** The text names the error type in brackets, then the segment, the
      position and the message, in that order. */
  lemma ErrorTextParts(e: ProcessingError)
    ensures HasPrefix(ErrorText(e), "[" + ErrorTypeName(e.errorType) + "] " + e.segment + " at position ")
    ensures HasSuffix(ErrorText(e), ": " + e.message)
  {
  }

  const ClassifierRules: map<string, ErrorType> := map["UNH" := SyntaxError, "BGM" := ValidationError, "DTM" := ValidationError, "UNT" := SyntaxError]

  predicate IsRetryable(t: ErrorType)
  {
    t == TransientError || t == SystemError
  }

  function Classify(err: string, segment: string): ProcessingError
  {
    var t := if segment in ClassifierRules then ClassifierRules[segment] else SystemError;
    ProcessingError(t, err, segment, 0, IsRetryable(t))
  }

  /** UNH and UNT errors are syntax errors, BGM and DTM errors validation
      errors, anything else a system error; only system errors among them
      are retried, and positions are 0. */
  lemma ClassifyBySegment(err: string, segment: string)
    ensures var e := Classify(err, segment);
      && e.message == err && e.segment == segment && e.position == 0
      && (e.errorType == SyntaxError <==> segment == "UNH" || segment == "UNT")
      && (e.errorType == ValidationError <==> segment == "BGM" || segment == "DTM")
      && (e.errorType == SystemError <==> segment !in {"UNH", "UNT", "BGM", "DTM"})
      && (e.retryable <==> e.errorType == SystemError)
  {
  }

  /** The four types have four different names; any other code is UNKNOWN. */
  lemma ErrorTypeNames(t: ErrorType, u: ErrorType)
    requires 0 <= t <= 3 && 0 <= u <= 3 && t != u
    ensures ErrorTypeName(t) != ErrorTypeName(u) && ErrorTypeName(t) != "UNKNOWN"
    ensures ErrorTypeName(4) == "UNKNOWN" && ErrorTypeName(-1) == "UNKNOWN"
  {
  }

  // Retry

  datatype RetryOutcome = RetryOutcome(error: Option<string>, attempts: nat)

  /** The text of the last error wrapped into the final message; a missing
      error prints the way the formatter prints a nil operand. */
  function Cause(lastErr: Option<string>): string
  {
    if lastErr.Some? then lastErr.value else "%!w(<nil>)"
  }

  /** Attempts from `attempt` on, `operation(k)` being the result of the k-th
      call (None for success). */
  function RetryFrom(operation: nat -> Option<string>, attempt: nat, maxRetries: int, lastErr: Option<string>): RetryOutcome
    decreases if attempt <= maxRetries then maxRetries + 1 - attempt else 0
  {
    if attempt > maxRetries then
      RetryOutcome(Some("operation failed after " + IntToString(maxRetries + 1) + " attempts: " + Cause(lastErr)), attempt)
    else if operation(attempt).None? then RetryOutcome(None, attempt + 1)
    else RetryFrom(operation, attempt + 1, maxRetries, operation(attempt))
  }

  function RetryOf(operation: nat -> Option<string>, maxRetries: int): RetryOutcome
  {
    RetryFrom(operation, 0, maxRetries, None)
  }

  /** Calls the operation until it succeeds or maxRetries + 1 calls have
      failed. The delay between attempts is not modelled. */
  method ExecuteWithRetry(operation: nat -> Option<string>, maxRetries: int) returns (outcome: RetryOutcome)
    ensures outcome == RetryOf(operation, maxRetries)
  {
    var lastErr: Option<string> := None;
    var attempt: nat := 0;
    while attempt <= maxRetries
      invariant RetryOf(operation, maxRetries) == RetryFrom(operation, attempt, maxRetries, lastErr)
      invariant attempt > 0 ==> attempt - 1 <= maxRetries
      decreases maxRetries + 1 - attempt
    {
      var err := operation(attempt);
      if err.None? {
        return RetryOutcome(None, attempt + 1);
      }
      lastErr := err;
      attempt := attempt + 1;
    }
    outcome := RetryOutcome(Some("operation failed after " + IntToString(maxRetries + 1) + " attempts: " + Cause(lastErr)), attempt);
  }

  lemma {:induction false} RetryFromFacts(operation: nat -> Option<string>, attempt: nat, maxRetries: int, lastErr: Option<string>)
    requires attempt <= maxRetries + 1 || attempt == 0
    requires attempt > 0 ==> lastErr == operation(attempt - 1) && lastErr.Some?
    ensures var r := RetryFrom(operation, attempt, maxRetries, lastErr);
      && attempt <= r.attempts
      && (r.error.None? ==>
            1 <= r.attempts <= maxRetries + 1 && operation(r.attempts - 1).None?
            && forall k :: attempt <= k < r.attempts - 1 ==> operation(k).Some?)
      && (r.error.Some? ==>
            r.attempts == (if maxRetries < 0 then 0 else maxRetries + 1)
            && (forall k :: attempt <= k < r.attempts ==> operation(k).Some?)
            && (maxRetries >= 0 ==>
                  r.error.value == "operation failed after " + IntToString(maxRetries + 1) + " attempts: " + operation(maxRetries).value))
    decreases if attempt <= maxRetries then maxRetries + 1 - attempt else 0
  {
    if attempt <= maxRetries && operation(attempt).Some? {
      RetryFromFacts(operation, attempt + 1, maxRetries, operation(attempt));
    }
  }

  /** At most maxRetries + 1 calls (none when maxRetries is negative); success
      exactly when some call within the bound succeeds, and then the calls
      stop at the first success; failure reports the last error. */
  lemma RetryBound(operation: nat -> Option<string>, maxRetries: int)
    ensures var r := RetryOf(operation, maxRetries);
      && r.attempts <= (if maxRetries < 0 then 0 else maxRetries + 1)
      && (r.error.None? <==> exists k :: 0 <= k <= maxRetries && operation(k).None?)
      && (r.error.None? ==> r.attempts >= 1 && operation(r.attempts - 1).None? && forall k :: 0 <= k < r.attempts - 1 ==> operation(k).Some?)
      && (r.error.Some? && maxRetries >= 0 ==>
            r.error.value == "operation failed after " + IntToString(maxRetries + 1) + " attempts: " + operation(maxRetries).value)
  {
    RetryFromFacts(operation, 0, maxRetries, None);
    var r := RetryOf(operation, maxRetries);
    if r.error.None? {
      assert 0 <= r.attempts - 1 <= maxRetries && operation(r.attempts - 1).None?;
    }
  }

  // Circuit breaker

  type CircuitState = int

  const Closed: CircuitState := 0
  const Open: CircuitState := 1
  const HalfOpen: CircuitState := 2

  function StateName(s: CircuitState): string
  {
    if s == Closed then "CLOSED" else if s == Open then "OPEN" else if s == HalfOpen then "HALF_OPEN" else "UNKNOWN"
  }

  /** The three states have three different names; any other value is UNKNOWN. */
  lemma StateNames(s: CircuitState, t: CircuitState)
    requires 0 <= s <= 2 && 0 <= t <= 2 && s != t
    ensures StateName(s) != StateName(t) && StateName(s) != "UNKNOWN"
    ensures StateName(3) == "UNKNOWN" && StateName(-1) == "UNKNOWN"
  {
  }

  /** The mutable part of a breaker. */
  datatype Breaker = Breaker(state: CircuitState, failureCount: int, lastFailureTime: int)

  /** Whether an operation may run, and the breaker afterwards: an open
      breaker whose timeout has passed since the last failure goes half-open
      and admits the call. */
  function Admit(b: Breaker, timeout: int, now: int): (bool, Breaker)
  {
    if b.state == Closed then (true, b)
    else if b.state == Open then
      if now - b.lastFailureTime > timeout then (true, b.(state := HalfOpen)) else (false, b)
    else if b.state == HalfOpen then (true, b)
    else (false, b)
  }

  /** A failure counts and opens a half-open breaker, or a closed one that
      reached the threshold; a success closes a half-open breaker and clears
      the count. */
  function Record(b: Breaker, failureThreshold: int, failed: bool, now: int): Breaker
  {
    if failed then
      var count := b.failureCount + 1;
      var state := if b.state == HalfOpen || (b.state == Closed && count >= failureThreshold) then Open else b.state;
      Breaker(state, count, now)
    else if b.state == HalfOpen then b.(state := Closed, failureCount := 0)
    else b
  }

  /** A breaker in a known state with a non-negative count, and at least one
      failure counted while open. */
  predicate Consistent(b: Breaker)
  {
    Closed <= b.state <= HalfOpen && b.failureCount >= 0 && (b.state == Open ==> b.failureCount >= 1)
  }

  lemma ConsistencyKept(b: Breaker, failureThreshold: int, timeout: int, failed: bool, now: int)
    requires Consistent(b)
    ensures Consistent(Admit(b, timeout, now).1)
    ensures Consistent(Record(b, failureThreshold, failed, now))
  {
  }

  /** Admission: closed and half-open always admit; open admits exactly
      after the timeout, switching to half-open; nothing else changes. */
  lemma AdmitIff(b: Breaker, timeout: int, now: int)
    requires Consistent(b)
    ensures var (ok, b') := Admit(b, timeout, now);
      && (ok <==> b.state != Open || now - b.lastFailureTime > timeout)
      && b'.failureCount == b.failureCount && b'.lastFailureTime == b.lastFailureTime
      && (b'.state != b.state <==> b.state == Open && ok)
      && (b'.state != b.state ==> b'.state == HalfOpen)
  {
  }

  /** Consecutive failures on a closed breaker with a clear count: it opens
      exactly once the count reaches the threshold (and at least one failure
      has happened). */
  function Failures(b: Breaker, failureThreshold: int, n: nat, now: int): Breaker
  {
    if n == 0 then b else Record(Failures(b, failureThreshold, n - 1, now), failureThreshold, true, now)
  }

  lemma {:induction false} OpensAtThreshold(failureThreshold: int, n: nat, now: int)
    ensures var b := Failures(Breaker(Closed, 0, now), failureThreshold, n, now);
      && b.failureCount == n
      && (b.state == Open <==> n >= 1 && n >= failureThreshold)
      && (b.state != Open ==> b.state == Closed)
  {
    if n > 0 {
      OpensAtThreshold(failureThreshold, n - 1, now);
    }
  }

  class CircuitBreaker {
    const failureThreshold: int
    const timeout: int
    var state: CircuitState
    var failureCount: int
    var lastFailureTime: int

    function Current(): Breaker
      reads this
    {
      Breaker(state, failureCount, lastFailureTime)
    }

    constructor(failureThreshold: int, timeout: int)
      ensures this.failureThreshold == failureThreshold && this.timeout == timeout
      ensures Current() == Breaker(Closed, 0, 0)
    {
      this.failureThreshold := failureThreshold;
      this.timeout := timeout;
      state := Closed;
      failureCount := 0;
      lastFailureTime := 0;
    }

    method CanExecute(now: int) returns (ok: bool)
      modifies this
      ensures (ok, Current()) == Admit(old(Current()), timeout, now)
    {
      if state == Closed {
        ok := true;
      } else if state == Open {
        if now - lastFailureTime > timeout {
          state := HalfOpen;
          ok := true;
        } else {
          ok := false;
        }
      } else if state == HalfOpen {
        ok := true;
      } else {
        ok := false;
      }
    }

    method RecordResult(err: Option<string>, now: int)
      modifies this
      ensures Current() == Record(old(Current()), failureThreshold, err.Some?, now)
    {
      if err.Some? {
        failureCount := failureCount + 1;
        lastFailureTime := now;
        if state == HalfOpen || (state == Closed && failureCount >= failureThreshold) {
          state := Open;
        }
      } else {
        if state == HalfOpen {
          state := Closed;
          failureCount := 0;
        }
      }
    }

    /** Runs the operation only when admitted; a rejected call reports the
      breaker's state and records nothing. `ran` tells whether the
      operation was called. */
    method Execute(operation: () -> Option<string>, now: int) returns (err: Option<string>, ran: bool)
      modifies this
      ensures var (ok, admitted) := Admit(old(Current()), timeout, now);
        && ran == ok
        && (!ok ==> Current() == old(Current()) && err == Some("circuit breaker is " + StateName(state)))
        && (ok ==> err == operation() && Current() == Record(admitted, failureThreshold, err.Some?, now))
    {
      var admitted := CanExecute(now);
      if !admitted {
        return Some("circuit breaker is " + StateName(state)), false;
      }
      err := operation();
      ran := true;
      RecordResult(err, now);
    }
  }

  // Error log

  function TypesOf(errors: seq<ProcessingError>): (r: seq<ErrorType>)
    ensures |r| == |errors|
  {
    seq(|errors|, i requires 0 <= i < |errors| => errors[i].errorType)
  }

  class ErrorLogger {
    var errors: seq<ProcessingError>

    constructor()
      ensures errors == []
    {
      errors := [];
    }

    method LogError(err: ProcessingError)
      modifies this
      ensures errors == old(errors) + [err]
    {
      errors := errors + [err];
    }

    method GetErrorStats() returns (stats: map<ErrorType, int>)
      ensures stats == Tally.TallyOf(TypesOf(errors))
    {
      stats := map[];
      var i := 0;
      while i < |errors|
        invariant 0 <= i <= |errors|
        invariant stats == Tally.TallyOf(TypesOf(errors[..i]))
      {
        assert TypesOf(errors[..i + 1])[..i] == TypesOf(errors[..i]);
        stats := Tally.Increment(stats, errors[i].errorType);
        i := i + 1;
      }
      assert errors[..i] == errors;
    }
  }

  lemma {:induction false} FourTypesCount(ts: seq<ErrorType>)
    requires forall i :: 0 <= i < |ts| ==> 0 <= ts[i] <= 3
    ensures Tally.Occurrences(ts, SyntaxError) + Tally.Occurrences(ts, ValidationError)
      + Tally.Occurrences(ts, SystemError) + Tally.Occurrences(ts, TransientError) == |ts|
  {
    if |ts| > 0 {
      var front := ts[..|ts| - 1];
      FourTypesCount(front);
      var last := ts[|ts| - 1];
      assert ts == front + [last];
      forall t: ErrorType
        ensures Tally.Occurrences(ts, t) == Tally.Occurrences(front, t) + (if last == t then 1 else 0)
      {
        Tally.OccurrencesSnoc(front, last, t);
      }
    }
  }

  /** The statistics hold each type's count; for errors from the classifier
      the four counts add up to the number logged. */
  lemma StatsCount(errors: seq<ProcessingError>, t: ErrorType)
    ensures var stats := Tally.TallyOf(TypesOf(errors));
      (t in stats <==> Tally.Occurrences(TypesOf(errors), t) > 0)
      && (t in stats ==> stats[t] == Tally.Occurrences(TypesOf(errors), t))
    ensures (forall i :: 0 <= i < |errors| ==> exists e, s :: errors[i] == Classify(e, s)) ==>
      Tally.Occurrences(TypesOf(errors), SyntaxError) + Tally.Occurrences(TypesOf(errors), ValidationError)
      + Tally.Occurrences(TypesOf(errors), SystemError) + Tally.Occurrences(TypesOf(errors), TransientError) == |errors|
  {
    Tally.TallyCounts(TypesOf(errors), t);
    if forall i :: 0 <= i < |errors| ==> exists e, s :: errors[i] == Classify(e, s) {
      forall i | 0 <= i < |errors|
        ensures 0 <= TypesOf(errors)[i] <= 3
      {
        var e, s :| errors[i] == Classify(e, s);
      }
      FourTypesCount(TypesOf(errors));
    }
  }
}
