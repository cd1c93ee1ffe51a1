/**
 * The bounded retry loop of 493785/ideal3/ideal3.go. ProcessItemWithRetry
 * calls the callback at most maxRetries + 1 times, retrying only while it
 * reports a timeout; ProcessItems runs it on every item in turn.
 *
 * The callback is a function of the item and of the number of the call
 * (counted over the whole run), so one that answers differently on each
 * call is covered too. None is a nil error.
 */
module Retry {
  import opened Wrappers
  import opened GoStrings

  /** The errors the program produces or handles. */
  datatype GoError =
    | TimeoutError(msg: string)
    | ProcessingError(message: string, cause: Option<GoError>)
    | Other(text: string)                 // errors.New
    | RetryLimitExceeded(item: string)    // the fmt.Errorf after the loop

  /** Error() of each kind. */
  function Message(e: GoError): (r: string)
    ensures e.TimeoutError? ==> HasPrefix(r, "Timeout error: ") && TrimPrefix(r, "Timeout error: ") == e.msg
    ensures e.ProcessingError? ==> HasPrefix(r, "ProcessingError: ")
    ensures e.ProcessingError? && e.cause.None? ==> TrimPrefix(r, "ProcessingError: ") == e.message
    ensures e.ProcessingError? && e.cause.Some? ==>
      var rest := TrimPrefix(r, "ProcessingError: ");
      HasPrefix(rest, e.message) && TrimPrefix(rest, e.message) == " (cause: " + Message(e.cause.value) + ")"
    ensures e.RetryLimitExceeded? ==>
      HasPrefix(r, "retry limit exceeded for item ") && TrimPrefix(r, "retry limit exceeded for item ") == e.item
    ensures e.Other? ==> r == e.text
  {
    match e
    case TimeoutError(msg) => "Timeout error: " + msg
    case ProcessingError(message, cause) =>
      if cause.Some? then "ProcessingError: " + message + " (cause: " + Message(cause.value) + ")"
      else "ProcessingError: " + message
    case Other(text) => text
    case RetryLimitExceeded(item) => "retry limit exceeded for item " + item
  }

  /** A timeout and a processing error never print alike. */
  lemma TimeoutAndProcessingDiffer(a: GoError, b: GoError)
    requires a.TimeoutError? && b.ProcessingError?
    ensures Message(a) != Message(b)
  {
    assert Message(a)[0] == 'T';
    assert Message(b)[0] == 'P';
  }

  /** isTransientError: only a TimeoutError itself, by its dynamic type. */
  predicate IsTransientError(e: GoError) {
    e.TimeoutError?
  }

  /** A timeout wrapped as the cause of a processing error is not retried. */
  lemma WrappedTimeoutIsPermanent(message: string, msg: string)
    ensures !IsTransientError(ProcessingError(message, Some(TimeoutError(msg))))
  {
  }

  /** A call whose outcome ends the loop: success or a permanent error. */
  predicate Settled(o: Option<GoError>) {
    o.None? || !IsTransientError(o.value)
  }

  /** Call number c on item timed out. */
  predicate TimedOut(callback: (string, nat) -> Option<GoError>, item: string, c: nat) {
    !Settled(callback(item, c))
  }

  /** How many times the loop header lets the callback run. */
  function Tries(maxRetries: int): nat {
    if maxRetries >= 0 then maxRetries + 1 else 0
  }

  /** The error returned and how many calls were made. */
  datatype Attempt = Attempt(err: Option<GoError>, calls: nat)

  /**
   * The loop from `attempt` on, after `attempt` transient failures; call
   * number i of this item is callback(item, start + i).
   */
  function RetryFrom(item: string, callback: (string, nat) -> Option<GoError>, start: nat,
                     attempt: nat, maxRetries: int): (r: Attempt)
    requires attempt <= Tries(maxRetries)
    requires forall c | start <= c < start + attempt :: TimedOut(callback, item, c)
    ensures attempt <= r.calls <= Tries(maxRetries)
    ensures forall c | start <= c < start + r.calls - 1 :: TimedOut(callback, item, c)
    ensures r.calls > 0 && Settled(callback(item, start + r.calls - 1)) ==>
      r.err == callback(item, start + r.calls - 1)
    ensures r.calls == 0 || !Settled(callback(item, start + r.calls - 1)) ==>
      r.calls == Tries(maxRetries) && r.err == Some(RetryLimitExceeded(item))
    decreases Tries(maxRetries) - attempt
  {
    if attempt == Tries(maxRetries) then
      assert attempt > 0 ==> TimedOut(callback, item, start + attempt - 1);
      Attempt(Some(RetryLimitExceeded(item)), attempt)
    else
      var o := callback(item, start + attempt);
      if Settled(o) then Attempt(o, attempt + 1)
      else RetryFrom(item, callback, start, attempt + 1, maxRetries)
  }

  /**
   * ProcessItemWithRetry: every call but the last was a timeout; the last
   * call's nil or permanent error is returned as it is; if even the last
   * allowed call timed out, the retry-limit error comes back.
   */
  function Retry(item: string, callback: (string, nat) -> Option<GoError>, start: nat, maxRetries: int): (r: Attempt)
    ensures r.calls <= Tries(maxRetries)
    ensures forall c | start <= c < start + r.calls - 1 :: TimedOut(callback, item, c)
    ensures r.calls > 0 && Settled(callback(item, start + r.calls - 1)) ==>
      r.err == callback(item, start + r.calls - 1)
    ensures r.calls == 0 || !Settled(callback(item, start + r.calls - 1)) ==>
      r.calls == Tries(maxRetries) && r.err == Some(RetryLimitExceeded(item))
  {
    RetryFrom(item, callback, start, 0, maxRetries)
  }

  /** A success on the first call is returned at once. */
  lemma FirstSuccessReturns(item: string, callback: (string, nat) -> Option<GoError>, start: nat, maxRetries: int)
    requires maxRetries >= 0 && callback(item, start) == None
    ensures Retry(item, callback, start, maxRetries) == Attempt(None, 1)
  {
    var r := Retry(item, callback, start, maxRetries);
    assert !TimedOut(callback, item, start);
  }

  /**
   * Unless the callback itself returns a retry-limit error, that error comes
   * back exactly when every allowed call timed out.
   */
  lemma LimitIffAllTimedOut(item: string, callback: (string, nat) -> Option<GoError>,
                            start: nat, maxRetries: int)
    requires forall c | start <= c < start + Tries(maxRetries) :: callback(item, c) != Some(RetryLimitExceeded(item))
    ensures Retry(item, callback, start, maxRetries).err == Some(RetryLimitExceeded(item))
        <==> forall c | start <= c < start + Tries(maxRetries) :: TimedOut(callback, item, c)
  {
    var r := Retry(item, callback, start, maxRetries);
    if r.err == Some(RetryLimitExceeded(item)) {
      if r.calls > 0 && Settled(callback(item, start + r.calls - 1)) {
        assert false;
      }
      assert r.calls == Tries(maxRetries);
      assert r.calls > 0 ==> TimedOut(callback, item, start + r.calls - 1);
    } else {
      assert r.calls > 0 && Settled(callback(item, start + r.calls - 1));
      assert !TimedOut(callback, item, start + r.calls - 1);
    }
  }

  method ProcessItemWithRetry(item: string, callback: (string, nat) -> Option<GoError>, start: nat, maxRetries: int)
    returns (err: Option<GoError>, calls: nat)
    ensures Attempt(err, calls) == Retry(item, callback, start, maxRetries)
  {
    var attempt := 0;
    while attempt <= maxRetries
      invariant 0 <= attempt <= Tries(maxRetries)
      invariant forall c | start <= c < start + attempt :: TimedOut(callback, item, c)
      invariant RetryFrom(item, callback, start, attempt, maxRetries) == Retry(item, callback, start, maxRetries)
      decreases maxRetries - attempt
    {
      err := callback(item, start + attempt);
      if err == None {
        return None, attempt + 1;
      }
      if IsTransientError(err.value) {
        attempt := attempt + 1;
        continue;
      }
      return err, attempt + 1;
    }
    return Some(RetryLimitExceeded(item)), attempt;
  }

  function Repeat(x: nat, n: nat): (r: seq<nat>)
    ensures |r| == n && forall i | 0 <= i < n :: r[i] == x
  {
    seq(n, _ => x)
  }

  /** Which item (by position) each callback call received, and how many calls were made. */
  datatype Progress = Progress(trace: seq<nat>, calls: nat)

  /** ProcessItems over a prefix of the items: each item retried in turn. */
  function Process(items: seq<string>, callback: (string, nat) -> Option<GoError>, start: nat, maxRetries: int): (r: Progress)
    ensures |r.trace| == r.calls
    ensures forall i | 0 <= i < |r.trace| :: r.trace[i] < |items|
    decreases |items|
  {
    if items == [] then Progress([], 0)
    else
      var n := |items| - 1;
      var p := Process(items[..n], callback, start, maxRetries);
      var a := Retry(items[n], callback, start + p.calls, maxRetries);
      Progress(p.trace + Repeat(n, a.calls), p.calls + a.calls)
  }

  predicate Ordered(t: seq<nat>) {
    forall i, j | 0 <= i < j < |t| :: t[i] <= t[j]
  }

  /** Items are handed to the callback in order: a later call never goes back to an earlier item. */
  lemma {:induction false} ProcessInOrder(items: seq<string>, callback: (string, nat) -> Option<GoError>, start: nat, maxRetries: int)
    ensures Ordered(Process(items, callback, start, maxRetries).trace)
    decreases |items|
  {
    if items != [] {
      var n := |items| - 1;
      var p := Process(items[..n], callback, start, maxRetries);
      ProcessInOrder(items[..n], callback, start, maxRetries);
      var a := Retry(items[n], callback, start + p.calls, maxRetries);
      var t := Process(items, callback, start, maxRetries).trace;
      assert t == p.trace + Repeat(n, a.calls);
      forall i, j | 0 <= i < j < |t|
        ensures t[i] <= t[j]
      {
        if j < |p.trace| {
          assert t[i] == p.trace[i] && t[j] == p.trace[j];
          assert p.trace[i] <= p.trace[j];
        } else if i < |p.trace| {
          assert t[i] == p.trace[i] < n;
          assert t[j] == n;
        } else {
          assert t[i] == n && t[j] == n;
        }
      }
    }
  }

  /**
   * With maxRetries >= 0 every item is tried, at least once and at most
   * maxRetries + 1 times, whatever the earlier items returned.
   */
  lemma ProcessTriesEvery(items: seq<string>, callback: (string, nat) -> Option<GoError>, start: nat, maxRetries: int)
    requires maxRetries >= 0
    ensures var r := Process(items, callback, start, maxRetries);
      && (forall k | 0 <= k < |items| :: k in r.trace)
      && (forall k | 0 <= k < |items| :: 1 <= multiset(r.trace)[k] <= maxRetries + 1)
      && |items| <= r.calls <= |items| * (maxRetries + 1)
  {
    ProcessCallsBounded(items, callback, start, maxRetries);
    ProcessCountsEach(items, callback, start, maxRetries);
  }

  /** Every item appears in the trace, and the run makes between one and maxRetries + 1 calls per item in total. */
  lemma {:induction false} ProcessCallsBounded(items: seq<string>, callback: (string, nat) -> Option<GoError>, start: nat, maxRetries: int)
    requires maxRetries >= 0
    ensures var r := Process(items, callback, start, maxRetries);
      && (forall k | 0 <= k < |items| :: k in r.trace)
      && |items| <= r.calls <= |items| * (maxRetries + 1)
    decreases |items|
  {
    if items != [] {
      var n := |items| - 1;
      var p := Process(items[..n], callback, start, maxRetries);
      ProcessCallsBounded(items[..n], callback, start, maxRetries);
      var a := Retry(items[n], callback, start + p.calls, maxRetries);
      assert 1 <= a.calls <= maxRetries + 1;
      var r := Process(items, callback, start, maxRetries);
      assert r.trace == p.trace + Repeat(n, a.calls);
      assert r.calls == p.calls + a.calls;
      MulStep(n, maxRetries + 1);
      HasAllItems(p.trace, Repeat(n, a.calls), n);
    }
  }

  /** Each item gets between one and maxRetries + 1 calls of its own. */
  lemma {:induction false} ProcessCountsEach(items: seq<string>, callback: (string, nat) -> Option<GoError>, start: nat, maxRetries: int)
    requires maxRetries >= 0
    ensures forall k | 0 <= k < |items| ::
      1 <= multiset(Process(items, callback, start, maxRetries).trace)[k] <= maxRetries + 1
    decreases |items|
  {
    if items != [] {
      var n := |items| - 1;
      var p := Process(items[..n], callback, start, maxRetries);
      ProcessCountsEach(items[..n], callback, start, maxRetries);
      var a := Retry(items[n], callback, start + p.calls, maxRetries);
      assert 1 <= a.calls <= maxRetries + 1;
      var r := Process(items, callback, start, maxRetries);
      assert r.trace == p.trace + Repeat(n, a.calls);
      forall k | 0 <= k < |items|
        ensures 1 <= multiset(r.trace)[k] <= maxRetries + 1
      {
        CountAfterRun(p.trace, n, a.calls, k);
        if k < n {
          assert k < |items[..n]|;
        }
      }
    }
  }

  /** Appending m calls on item n to a trace of earlier items gives n exactly m calls and changes no other count. */
  lemma CountAfterRun(t: seq<nat>, n: nat, m: nat, k: nat)
    requires forall i | 0 <= i < |t| :: t[i] < n
    ensures multiset(t + Repeat(n, m))[k] == if k == n then m else multiset(t)[k]
  {
    RepeatCount(n, m, k);
    assert multiset(t + Repeat(n, m)) == multiset(t) + multiset(Repeat(n, m));
    if k == n {
      assert n !in t;
    }
  }

  /** A run of m copies of x holds x m times and nothing else. */
  lemma {:induction false} RepeatCount(x: nat, m: nat, y: nat)
    ensures multiset(Repeat(x, m))[y] == if y == x then m else 0
  {
    if m > 0 {
      RepeatCount(x, m - 1, y);
      assert Repeat(x, m) == Repeat(x, m - 1) + [x];
    }
  }

  lemma MulStep(n: nat, m: nat)
    ensures (n + 1) * m == n * m + m
  {
  }

  /** Appending a non-empty run of n to a trace that holds 0 .. n-1 holds 0 .. n. */
  lemma HasAllItems(t: seq<nat>, run: seq<nat>, n: nat)
    requires forall k | 0 <= k < n :: k in t
    requires |run| > 0 && run[0] == n
    ensures forall k | 0 <= k < n + 1 :: k in t + run
  {
    assert (t + run)[|t|] == n;
    forall k | 0 <= k < n + 1
      ensures k in t + run
    {
      if k < n {
        assert k in t;
      }
    }
  }

  /** Processing one more item retries it from the calls made so far. */
  lemma ProcessNext(items: seq<string>, callback: (string, nat) -> Option<GoError>, start: nat, maxRetries: int,
                     i: nat, trace: seq<nat>, calls: nat, k: nat)
    requires i < |items|
    requires Progress(trace, calls) == Process(items[..i], callback, start, maxRetries)
    requires k == Retry(items[i], callback, start + calls, maxRetries).calls
    ensures Progress(trace + Repeat(i, k), calls + k) == Process(items[..i + 1], callback, start, maxRetries)
  {
    assert items[..i + 1][..i] == items[..i];
  }

  /** ProcessItems: every item is tried and nil is returned whatever happened. */
  method ProcessItems(items: seq<string>, callback: (string, nat) -> Option<GoError>, start: nat, maxRetries: int)
    returns (err: Option<GoError>, trace: seq<nat>)
    ensures err == None
    ensures trace == Process(items, callback, start, maxRetries).trace
  {
    trace := [];
    var calls := 0;
    var i := 0;
    while i < |items|
      invariant 0 <= i <= |items|
      invariant Progress(trace, calls) == Process(items[..i], callback, start, maxRetries)
    {
      var e, k := ProcessItemWithRetry(items[i], callback, start + calls, maxRetries);
      ProcessNext(items, callback, start, maxRetries, i, trace, calls, k);
      trace := trace + Repeat(i, k);
      calls := calls + k;
      i := i + 1;
    }
    assert items[..i] == items;
    return None, trace;
  }

  /** ExampleCallback for the items that do not panic. */
  function ExampleCallback(item: string, call: nat): Option<GoError> {
    if item == "timeout" then Some(TimeoutError("Request timed out"))
    else if item == "bad-format" then Some(Other("Item has bad format"))
    else None
  }

  /** With three retries: a timeout is tried four times, a bad format once, a good item once. */
  lemma ExampleOutcomes()
    ensures Retry("timeout", ExampleCallback, 0, 3) == Attempt(Some(RetryLimitExceeded("timeout")), 4)
    ensures Retry("bad-format", ExampleCallback, 0, 3) == Attempt(Some(Other("Item has bad format")), 1)
    ensures Retry("item1", ExampleCallback, 0, 3) == Attempt(None, 1)
  {
  }
}
