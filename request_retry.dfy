/**
 * The retrying request executor of rptrc/src/etc/request_retry.py.
 *
 * `RequestRetry` makes up to `MaxRetry(retry_timeout)` attempts. An attempt
 * that gets a 200 or 201 response ends the loop with that response; a 400 or a
 * 500 response raises a RequestException at once; every other outcome (no
 * response, another status, an exception from the call, an unsupported verb)
 * counts as a failed attempt, after the n-th of which the executor sleeps 5*n
 * seconds, unless it was the last one allowed, which raises a FatalException.
 *
 * The network is an oracle: `wire(i)` is what happens to the i-th call. What
 * the executor does to the outside world (calls sent, sleeps) is its trace.
 */
module RequestRetry {
  import opened Wrappers
  import opened Exceptions
  import opened Json
  import Dicts
  import Text

  const SleepTimeMultiplier: nat := 5

  const StatusOk: int := 200
  const StatusCreated: int := 201
  const StatusBadRequest: int := 400
  const StatusInternalServerError: int := 500

  const BadRequestMessage: string :=
    "Bad request detected. It is possible you may be missing required information in your request. Please see above."
  const ServerErrorMessage: string := "Error thrown by RPT. The request could not be processed."

  datatype Response = Response(status: int, reason: string, text: string)

  /** The `proxies` mapping handed to the `requests` library. */
  type Proxies = Dicts.Dict<string>

  /** What the network does with one call of a supported verb. */
  datatype Outcome =
    | Received(response: Response)
    /** ProxyError or AssertionError, which the dispatcher turns into `None` */
    | ProxyFailure
    /** any other exception of the `requests` library, which escapes the dispatcher */
    | Raised

  /** The outcome of each call one `request_retry` makes, by attempt number. */
  type Wire = nat -> Outcome

  /** The wire of each `request_retry` an operation runs, in the order it runs them. */
  type Network = nat -> Wire

  /** One HTTP call as the `requests` library receives it. */
  datatype HttpCall = HttpCall(verb: string, url: string, body: Option<Json>, timeout: nat,
                               proxy: Option<Proxies>, verify: bool)

  datatype Event = Sent(call: HttpCall) | Slept(seconds: nat)

  /** What an operation returns or raises, and what it did meanwhile. */
  datatype Effect<+T> = Effect(result: Result<T>, trace: seq<Event>)

  // ---------------------------------------------------------------------------
  // make_request_based_on_input

  /** The socket timeout of each supported verb; None for any other verb. */
  function VerbTimeout(verb: string): (t: Option<nat>)
    ensures t.Some? <==> verb in {"GET", "PATCH", "PUT", "POST", "DELETE"}
  {
    if verb == "GET" then Some(10)
    else if verb == "PATCH" then Some(20)
    else if verb == "PUT" then Some(5)
    else if verb == "POST" then Some(20)
    else if verb == "DELETE" then Some(10)
    else None
  }

  predicate Supported(verb: string)
  {
    VerbTimeout(verb).Some?
  }

  /** The verbs whose call carries the JSON body. */
  predicate SendsBody(verb: string)
  {
    verb == "PATCH" || verb == "PUT" || verb == "POST"
  }

  /** The call the dispatcher hands to the `requests` library; None when it makes none. */
  function Call(verb: string, url: string, body: Option<Json>, proxy: Option<Proxies>, ssl: bool): Option<HttpCall>
  {
    var t := VerbTimeout(verb);
    if t.None? then None
    else Some(HttpCall(verb, url, if SendsBody(verb) then body else None, t.value, proxy, ssl))
  }

  /** The dispatch table: every supported verb has its fixed timeout, and only PATCH, PUT and POST send a body. */
  lemma DispatchTable(url: string, body: Option<Json>, proxy: Option<Proxies>, ssl: bool)
    ensures Call("GET", url, body, proxy, ssl) == Some(HttpCall("GET", url, None, 10, proxy, ssl))
    ensures Call("PATCH", url, body, proxy, ssl) == Some(HttpCall("PATCH", url, body, 20, proxy, ssl))
    ensures Call("PUT", url, body, proxy, ssl) == Some(HttpCall("PUT", url, body, 5, proxy, ssl))
    ensures Call("POST", url, body, proxy, ssl) == Some(HttpCall("POST", url, body, 20, proxy, ssl))
    ensures Call("DELETE", url, body, proxy, ssl) == Some(HttpCall("DELETE", url, None, 10, proxy, ssl))
    ensures forall v :: v !in {"GET", "PATCH", "PUT", "POST", "DELETE"} ==> Call(v, url, body, proxy, ssl).None?
  {
  }

  datatype Dispatched = Returned(response: Option<Response>) | Threw(error: Error)

  function UnsupportedMessage(verb: string): string
  {
    "Unsupported type of request: " + verb
  }

  /** The dispatcher, given what the network does with the call it makes. */
  function MakeRequestBasedOnInput(verb: string, outcome: Outcome): (d: Dispatched)
    ensures !Supported(verb) ==> d == Threw(FatalError(UnsupportedMessage(verb)))
    ensures Supported(verb) ==> (d.Threw? <==> outcome.Raised?)
    ensures d == Returned(None) <==> Supported(verb) && outcome.ProxyFailure?
    ensures d.Returned? && d.response.Some? ==> outcome == Received(d.response.value)
  {
    if !Supported(verb) then Threw(FatalError(UnsupportedMessage(verb)))
    else
      match outcome
      case Received(r) => Returned(Some(r))
      case ProxyFailure => Returned(None)
      case Raised => Threw(TransportError)
  }

  // ---------------------------------------------------------------------------
  // handle_response_exception and the classification of an attempt

  /** The RequestException raised for a received response, if any. */
  function HandleResponseException(r: Response): (e: Option<Error>)
    ensures e.Some? <==> r.status == StatusBadRequest || r.status == StatusInternalServerError
    ensures r.status == StatusBadRequest ==> e == Some(RequestError(Some(BadRequestMessage)))
    ensures r.status == StatusInternalServerError ==> e == Some(RequestError(Some(ServerErrorMessage)))
  {
    if r.status == StatusBadRequest then Some(RequestError(Some(BadRequestMessage)))
    else if r.status == StatusInternalServerError then Some(RequestError(Some(ServerErrorMessage)))
    else None
  }

  predicate IsSuccess(r: Response)
  {
    r.status == StatusOk || r.status == StatusCreated
  }

  /** How one attempt ends the loop, or that it does not. */
  datatype Verdict = Succeeded(response: Response) | Aborted(error: Error) | Failed

  /**
   * The verdict on the attempt whose call meets `outcome`: success on a 200 or
   * 201 response, abort on a 400 or 500 response, failure otherwise.
   */
  function Classify(verb: string, outcome: Outcome): (v: Verdict)
    ensures v.Succeeded? <==> Supported(verb) && outcome.Received? && IsSuccess(outcome.response)
    ensures v.Succeeded? ==> v.response == outcome.response
    ensures v.Aborted? <==> Supported(verb) && outcome.Received?
                            && HandleResponseException(outcome.response).Some?
    ensures v.Aborted? ==> Some(v.error) == HandleResponseException(outcome.response)
  {
    if !Supported(verb) || !outcome.Received? then Failed
    else if IsSuccess(outcome.response) then Succeeded(outcome.response)
    else
      var e := HandleResponseException(outcome.response);
      if e.Some? then Aborted(e.value) else Failed
  }

  // ---------------------------------------------------------------------------
  // calculate_max_retry_based_on_retry_timeout

  /** Seconds slept after the first n failed attempts: 5 + 10 + ... + 5n. */
  function TotalSleep(n: nat): nat
  {
    if n == 0 then 0 else TotalSleep(n - 1) + SleepTimeMultiplier * n
  }

  lemma {:induction false} TotalSleepClosedForm(n: nat)
    ensures 2 * TotalSleep(n) == SleepTimeMultiplier * n * (n + 1)
  {
    if n > 0 {
      TotalSleepClosedForm(n - 1);
      calc {
        2 * TotalSleep(n);
        2 * TotalSleep(n - 1) + 2 * SleepTimeMultiplier * n;
        SleepTimeMultiplier * (n - 1) * n + 2 * SleepTimeMultiplier * n;
        SleepTimeMultiplier * n * (n + 1);
      }
    }
  }

  lemma {:induction false} TotalSleepMonotonic(m: nat, n: nat)
    requires m < n
    ensures TotalSleep(m) < TotalSleep(n)
    decreases n - m
  {
    if m + 1 < n {
      TotalSleepMonotonic(m + 1, n);
    }
  }

  /**
   * The retry budget: none for a negative timeout, otherwise the least number
   * of attempts k >= 1 whose k sleeps would exceed the timeout, so that the
   * k - 1 sleeps actually taken fit in it.
   */
  function MaxRetry(retryTimeout: int): (k: nat)
    ensures retryTimeout < 0 ==> k == 0
    ensures retryTimeout >= 0 ==> k >= 1 && TotalSleep(k - 1) <= retryTimeout < TotalSleep(k)
  {
    if retryTimeout < 0 then 0 else MaxRetryFrom(retryTimeout, 1)
  }

  function MaxRetryFrom(retryTimeout: nat, k: nat): (r: nat)
    requires k >= 1 && TotalSleep(k - 1) <= retryTimeout
    ensures r >= k && TotalSleep(r - 1) <= retryTimeout < TotalSleep(r)
    decreases retryTimeout - TotalSleep(k - 1)
  {
    if retryTimeout < TotalSleep(k) then k else MaxRetryFrom(retryTimeout, k + 1)
  }

  /** The bracketing `TotalSleep(k - 1) <= T < TotalSleep(k)` fixes k. */
  lemma MaxRetryUnique(retryTimeout: int, k: nat)
    requires k >= 1 && TotalSleep(k - 1) <= retryTimeout < TotalSleep(k)
    ensures MaxRetry(retryTimeout) == k
  {
    var m := MaxRetry(retryTimeout);
    if m < k {
      TotalSleepMonotonic(m, k - 1);
    } else if k < m {
      TotalSleepMonotonic(k, m - 1);
    }
  }

  /** No smaller number of attempts would already exceed the timeout. */
  lemma MaxRetryLeast(retryTimeout: int, j: nat)
    requires 1 <= j < MaxRetry(retryTimeout)
    ensures TotalSleep(j) <= retryTimeout
  {
    var m := MaxRetry(retryTimeout);
    if j < m - 1 {
      TotalSleepMonotonic(j, m - 1);
    }
  }

  /** A timeout of 0 to 4 seconds allows 1 attempt, 5 to 14 two, 15 to 29 three. */
  lemma MaxRetryBands(retryTimeout: int)
    ensures 0 <= retryTimeout <= 4 ==> MaxRetry(retryTimeout) == 1
    ensures 5 <= retryTimeout <= 14 ==> MaxRetry(retryTimeout) == 2
    ensures 15 <= retryTimeout <= 29 ==> MaxRetry(retryTimeout) == 3
  {
    assert TotalSleep(1) == 5 && TotalSleep(2) == 15 && TotalSleep(3) == 30;
    if 0 <= retryTimeout <= 4 {
      MaxRetryUnique(retryTimeout, 1);
    } else if 5 <= retryTimeout <= 14 {
      MaxRetryUnique(retryTimeout, 2);
    } else if 15 <= retryTimeout <= 29 {
      MaxRetryUnique(retryTimeout, 3);
    }
  }

  method CalculateMaxRetryBasedOnRetryTimeout(retryTimeout: int) returns (r: nat)
    ensures retryTimeout < 0 ==> r == 0
    ensures retryTimeout >= 0 ==> r >= 1 && TotalSleep(r - 1) <= retryTimeout < TotalSleep(r)
    ensures r == MaxRetry(retryTimeout)
  {
    var retryCount: nat := 1;
    var totalTimeSlept: nat := 0;
    while totalTimeSlept <= retryTimeout
      invariant retryCount >= 1
      invariant totalTimeSlept == TotalSleep(retryCount - 1)
      invariant retryCount >= 2 ==> TotalSleep(retryCount - 2) <= retryTimeout
      decreases retryTimeout - totalTimeSlept
    {
      totalTimeSlept := totalTimeSlept + SleepTimeMultiplier * retryCount;
      retryCount := retryCount + 1;
    }
    r := retryCount - 1;
    if retryTimeout >= 0 {
      MaxRetryUnique(retryTimeout, r);
    }
  }

  // ---------------------------------------------------------------------------
  // request_retry

  function CallEvents(c: Option<HttpCall>): seq<Event>
  {
    if c.Some? then [Sent(c.value)] else []
  }

  /** The trace of k failed attempts, each followed by its sleep. */
  function FailedAttempts(c: Option<HttpCall>, k: nat): seq<Event>
  {
    if k == 0 then [] else FailedAttempts(c, k - 1) + CallEvents(c) + [Slept(SleepTimeMultiplier * k)]
  }

  /** The first attempt from i on, below m, that ends the loop; m when none does. */
  function FirstDecisive(verb: string, wire: Wire, i: nat, m: nat): (r: nat)
    requires i <= m
    ensures i <= r <= m
    ensures forall j :: i <= j < r ==> Classify(verb, wire(j)).Failed?
    ensures r < m ==> !Classify(verb, wire(r)).Failed?
    decreases m - i
  {
    if i == m then m
    else if !Classify(verb, wire(i)).Failed? then i
    else FirstDecisive(verb, wire, i + 1, m)
  }

  function ExhaustedMessage(verb: string, maxRetry: nat): string
  {
    "Failed to execute " + verb + " request after " + Text.NatToString(maxRetry) + " tries."
  }

  /**
   * What `request_retry` returns or raises, and its trace: the first attempt
   * that succeeds or aborts decides; if none of the `MaxRetry` attempts does,
   * the retries are exhausted; with no attempt allowed, `None` is returned.
   */
  function RetryEffect(verb: string, url: string, retryTimeout: int, body: Option<Json>,
                       proxy: Option<Proxies>, ssl: bool, wire: Wire): Effect<Option<Response>>
  {
    var m := MaxRetry(retryTimeout);
    var c := Call(verb, url, body, proxy, ssl);
    if m == 0 then Effect(Ok(None), [])
    else
      var k := FirstDecisive(verb, wire, 0, m);
      if k < m then
        var v := Classify(verb, wire(k));
        Effect(if v.Succeeded? then Ok(Some(v.response)) else Err(v.error),
               FailedAttempts(c, k) + CallEvents(c))
      else
        Effect(Err(FatalError(ExhaustedMessage(verb, m))), FailedAttempts(c, m - 1) + CallEvents(c))
  }

  method RequestRetry(verb: string, url: string, retryTimeout: int, body: Option<Json>,
                      proxy: Option<Proxies>, ssl: bool, wire: Wire)
    returns (result: Result<Option<Response>>, trace: seq<Event>)
    ensures Effect(result, trace) == RetryEffect(verb, url, retryTimeout, body, proxy, ssl, wire)
  {
    var count: nat := 0;
    var response: Option<Response> := None;
    var maxRetry := CalculateMaxRetryBasedOnRetryTimeout(retryTimeout);
    var call := Call(verb, url, body, proxy, ssl);
    trace := [];
    while count < maxRetry
      invariant count == 0 || count < maxRetry
      invariant forall j :: 0 <= j < count ==> Classify(verb, wire(j)).Failed?
      invariant trace == FailedAttempts(call, count)
      // what an earlier attempt left in `response` never ends the loop
      invariant response.Some? ==> !IsSuccess(response.value)
                                   && HandleResponseException(response.value).None?
      invariant count == 0 ==> response.None?
      decreases maxRetry - count
    {
      // try: the call, then the raise when it did not succeed
      var dispatched := MakeRequestBasedOnInput(verb, wire(count));
      trace := trace + CallEvents(call);
      if dispatched.Returned? {
        response := dispatched.response;
        if response.Some? && IsSuccess(response.value) {
          // break, then return the response
          RetryDecidedAt(verb, url, retryTimeout, body, proxy, ssl, wire, count);
          result := Ok(response);
          return;
        }
      }
      // except: a 400 or a 500 response escapes the loop
      if response.Some? {
        var failure := HandleResponseException(response.value);
        if failure.Some? {
          RetryDecidedAt(verb, url, retryTimeout, body, proxy, ssl, wire, count);
          result := Err(failure.value);
          return;
        }
      }
      count := count + 1;
      if count == maxRetry {
        RetryRunsOut(verb, url, retryTimeout, body, proxy, ssl, wire);
        result := Err(FatalError(ExhaustedMessage(verb, maxRetry)));
        return;
      }
      trace := trace + [Slept(SleepTimeMultiplier * count)];
    }
    result := Ok(response);
  }

  /** An attempt that ends the loop after failed ones decides `request_retry`. */
  lemma RetryDecidedAt(verb: string, url: string, retryTimeout: int, body: Option<Json>,
                       proxy: Option<Proxies>, ssl: bool, wire: Wire, k: nat)
    requires k < MaxRetry(retryTimeout)
    requires forall j :: 0 <= j < k ==> Classify(verb, wire(j)).Failed?
    requires !Classify(verb, wire(k)).Failed?
    ensures var v, c := Classify(verb, wire(k)), Call(verb, url, body, proxy, ssl);
            RetryEffect(verb, url, retryTimeout, body, proxy, ssl, wire)
            == Effect(if v.Succeeded? then Ok(Some(v.response)) else Err(v.error),
                      FailedAttempts(c, k) + CallEvents(c))
  {
    FirstDecisiveIs(verb, wire, 0, k, MaxRetry(retryTimeout));
  }

  /** When every allowed attempt fails, the retries are exhausted. */
  lemma RetryRunsOut(verb: string, url: string, retryTimeout: int, body: Option<Json>,
                       proxy: Option<Proxies>, ssl: bool, wire: Wire)
    requires MaxRetry(retryTimeout) >= 1
    requires forall j :: 0 <= j < MaxRetry(retryTimeout) ==> Classify(verb, wire(j)).Failed?
    ensures var m, c := MaxRetry(retryTimeout), Call(verb, url, body, proxy, ssl);
            RetryEffect(verb, url, retryTimeout, body, proxy, ssl, wire)
            == Effect(Err(FatalError(ExhaustedMessage(verb, m))), FailedAttempts(c, m - 1) + CallEvents(c))
  {
    var m := MaxRetry(retryTimeout);
    FirstDecisiveIs(verb, wire, 0, m, m);
  }

  /** FirstDecisive is the attempt after the failed ones that does not fail. */
  lemma FirstDecisiveIs(verb: string, wire: Wire, i: nat, k: nat, m: nat)
    requires i <= k <= m
    requires forall j :: i <= j < k ==> Classify(verb, wire(j)).Failed?
    requires k < m ==> !Classify(verb, wire(k)).Failed?
    ensures FirstDecisive(verb, wire, i, m) == k
  {
  }

  // ---------------------------------------------------------------------------
  // What the trace of request_retry contains

  function CallsIn(t: seq<Event>): seq<HttpCall>
  {
    if t == [] then [] else (if t[0].Sent? then [t[0].call] else []) + CallsIn(t[1..])
  }

  function SleepsIn(t: seq<Event>): seq<nat>
  {
    if t == [] then [] else (if t[0].Slept? then [t[0].seconds] else []) + SleepsIn(t[1..])
  }

  lemma {:induction false} TraceAppend(a: seq<Event>, b: seq<Event>)
    ensures CallsIn(a + b) == CallsIn(a) + CallsIn(b)
    ensures SleepsIn(a + b) == SleepsIn(a) + SleepsIn(b)
  {
    if a != [] {
      assert (a + b)[1..] == a[1..] + b;
      TraceAppend(a[1..], b);
    } else {
      assert a + b == b;
    }
  }

  function Sum(s: seq<nat>): nat
  {
    if s == [] then 0 else Sum(s[..|s| - 1]) + s[|s| - 1]
  }

  /** The sleeps after k failed attempts: 5, 10, ..., 5k. */
  function Backoff(k: nat): (s: seq<nat>)
    ensures |s| == k
  {
    if k == 0 then [] else Backoff(k - 1) + [SleepTimeMultiplier * k]
  }

  lemma {:induction false} BackoffGeometric(k: nat)
    ensures forall i :: 0 <= i < k ==> Backoff(k)[i] == SleepTimeMultiplier * (i + 1)
    ensures Sum(Backoff(k)) == TotalSleep(k)
  {
    if k > 0 {
      BackoffGeometric(k - 1);
      assert Backoff(k)[..k - 1] == Backoff(k - 1);
    }
  }

  /** k failed attempts send k calls (none for an unsupported verb) and sleep the backoff. */
  lemma {:induction false} FailedAttemptsTrace(c: Option<HttpCall>, k: nat)
    ensures CallsIn(FailedAttempts(c, k)) == if c.Some? then seq(k, _ => c.value) else []
    ensures SleepsIn(FailedAttempts(c, k)) == Backoff(k)
  {
    if k > 0 {
      FailedAttemptsTrace(c, k - 1);
      FailedAttemptStep(c, k);
      if c.Some? {
        assert seq(k - 1, _ => c.value) + [c.value] == seq(k, _ => c.value);
      }
    }
  }

  /** The k-th failed attempt adds its call and then its sleep. */
  lemma FailedAttemptStep(c: Option<HttpCall>, k: nat)
    requires k > 0
    ensures CallsIn(FailedAttempts(c, k)) == CallsIn(FailedAttempts(c, k - 1)) + (if c.Some? then [c.value] else [])
    ensures SleepsIn(FailedAttempts(c, k)) == SleepsIn(FailedAttempts(c, k - 1)) + [SleepTimeMultiplier * k]
  {
    var before := FailedAttempts(c, k - 1);
    TraceAppend(before, CallEvents(c));
    TraceAppend(before + CallEvents(c), [Slept(SleepTimeMultiplier * k)]);
    assert CallsIn([Slept(SleepTimeMultiplier * k)]) == [];
    assert SleepsIn(CallEvents(c)) == [];
  }

  /** The number of attempts request_retry makes. */
  function Attempts(verb: string, retryTimeout: int, wire: Wire): (a: nat)
    ensures a <= MaxRetry(retryTimeout)
    ensures a == 0 <==> retryTimeout < 0
  {
    var m := MaxRetry(retryTimeout);
    if m == 0 then 0
    else
      var k := FirstDecisive(verb, wire, 0, m);
      if k < m then k + 1 else m
  }

  /**
   * The trace is the failed attempts with their sleeps, then the last attempt,
   * with no sleep after it.
   */
  lemma RetryTraceShape(verb: string, url: string, retryTimeout: int, body: Option<Json>,
                        proxy: Option<Proxies>, ssl: bool, wire: Wire)
    ensures var e := RetryEffect(verb, url, retryTimeout, body, proxy, ssl, wire);
            var a := Attempts(verb, retryTimeout, wire);
            var c := Call(verb, url, body, proxy, ssl);
            e.trace == if a == 0 then [] else FailedAttempts(c, a - 1) + CallEvents(c)
  {
  }

  /** The sleeps of n failed attempts followed by one more attempt. */
  lemma {:induction false} AttemptsSleeps(c: Option<HttpCall>, n: nat)
    ensures SleepsIn(FailedAttempts(c, n) + CallEvents(c)) == Backoff(n)
    ensures Sum(Backoff(n)) == TotalSleep(n)
  {
    FailedAttemptsTrace(c, n);
    TraceAppend(FailedAttempts(c, n), CallEvents(c));
    assert SleepsIn(CallEvents(c)) == [];
    BackoffGeometric(n);
  }

  /**
   * The sleeps are 5, 10, ..., one per failed attempt before the last, and
   * they add up to no more than the timeout.
   */
  lemma RetrySleeps(verb: string, url: string, retryTimeout: int, body: Option<Json>,
                    proxy: Option<Proxies>, ssl: bool, wire: Wire)
    ensures var e := RetryEffect(verb, url, retryTimeout, body, proxy, ssl, wire);
            var a := Attempts(verb, retryTimeout, wire);
            && SleepsIn(e.trace) == (if a == 0 then [] else Backoff(a - 1))
            && (retryTimeout >= 0 ==> Sum(SleepsIn(e.trace)) <= retryTimeout)
  {
    var a := Attempts(verb, retryTimeout, wire);
    RetryTraceShape(verb, url, retryTimeout, body, proxy, ssl, wire);
    if a > 0 {
      AttemptsWithinBudget(Call(verb, url, body, proxy, ssl), a, MaxRetry(retryTimeout), retryTimeout);
    }
  }

  /** a attempts out of at most m, whose m - 1 sleeps fit the budget, sleep within the budget. */
  lemma AttemptsWithinBudget(c: Option<HttpCall>, a: nat, m: nat, budget: int)
    requires 1 <= a <= m && TotalSleep(m - 1) <= budget
    ensures SleepsIn(FailedAttempts(c, a - 1) + CallEvents(c)) == Backoff(a - 1)
    ensures Sum(Backoff(a - 1)) <= budget
  {
    AttemptsSleeps(c, a - 1);
    TotalSleepBound(a - 1, m - 1, budget);
  }

  lemma TotalSleepBound(n: nat, last: nat, budget: int)
    requires n <= last && TotalSleep(last) <= budget
    ensures TotalSleep(n) <= budget
  {
    if n < last {
      TotalSleepMonotonic(n, last);
    }
  }

  /**
   * One call per attempt, at most MaxRetry of them, each the dispatcher's call
   * for the verb; none for an unsupported verb.
   */
  lemma RetryCalls(verb: string, url: string, retryTimeout: int, body: Option<Json>,
                   proxy: Option<Proxies>, ssl: bool, wire: Wire)
    ensures var e := RetryEffect(verb, url, retryTimeout, body, proxy, ssl, wire);
            var c := Call(verb, url, body, proxy, ssl);
            && CallsIn(e.trace) == (if c.Some? then seq(Attempts(verb, retryTimeout, wire), _ => c.value) else [])
            && |CallsIn(e.trace)| <= MaxRetry(retryTimeout)
            && (!Supported(verb) ==> CallsIn(e.trace) == [])
  {
    var a := Attempts(verb, retryTimeout, wire);
    RetryTraceShape(verb, url, retryTimeout, body, proxy, ssl, wire);
    if a > 0 {
      AttemptsCalls(Call(verb, url, body, proxy, ssl), a);
    }
  }

  /** a attempts send the call a times, or nothing when there is no call to send. */
  lemma AttemptsCalls(c: Option<HttpCall>, a: nat)
    requires a >= 1
    ensures CallsIn(FailedAttempts(c, a - 1) + CallEvents(c)) == if c.Some? then seq(a, _ => c.value) else []
  {
    FailedAttemptsTrace(c, a - 1);
    TraceAppend(FailedAttempts(c, a - 1), CallEvents(c));
    if c.Some? {
      assert CallsIn(CallEvents(c)) == [c.value];
      assert seq(a - 1, _ => c.value) + [c.value] == seq(a, _ => c.value);
    } else {
      assert CallsIn(CallEvents(c)) == [];
    }
  }

  /** Success only on a 200 or 201 response to the last attempt, which is returned. */
  lemma RetrySucceedsOnlyOnSuccessStatus(verb: string, url: string, retryTimeout: int, body: Option<Json>,
                                         proxy: Option<Proxies>, ssl: bool, wire: Wire, r: Response)
    requires RetryEffect(verb, url, retryTimeout, body, proxy, ssl, wire).result == Ok(Some(r))
    ensures IsSuccess(r) && Supported(verb)
    ensures var a := Attempts(verb, retryTimeout, wire);
            a >= 1 && wire(a - 1) == Received(r)
            && forall j :: 0 <= j < a - 1 ==> Classify(verb, wire(j)).Failed?
  {
  }

  /** None is returned exactly when the timeout is negative, and then nothing is sent. */
  lemma RetryReturnsNone(verb: string, url: string, retryTimeout: int, body: Option<Json>,
                         proxy: Option<Proxies>, ssl: bool, wire: Wire)
    ensures var e := RetryEffect(verb, url, retryTimeout, body, proxy, ssl, wire);
            (e.result == Ok(None) <==> retryTimeout < 0)
            && (retryTimeout < 0 ==> e.trace == [])
  {
  }

  /**
   * A 400 or 500 response, after only failed attempts, raises its
   * RequestException at once: no further attempt and no sleep.
   */
  lemma RetryAbortsOnErrorStatus(verb: string, url: string, retryTimeout: int, body: Option<Json>,
                                 proxy: Option<Proxies>, ssl: bool, wire: Wire, k: nat)
    requires Supported(verb) && k < MaxRetry(retryTimeout)
    requires forall j :: 0 <= j < k ==> Classify(verb, wire(j)).Failed?
    requires wire(k).Received? && wire(k).response.status in {StatusBadRequest, StatusInternalServerError}
    ensures var e := RetryEffect(verb, url, retryTimeout, body, proxy, ssl, wire);
            var c := Call(verb, url, body, proxy, ssl);
            && e.result == Err(RequestError(Some(if wire(k).response.status == StatusBadRequest
                                                 then BadRequestMessage else ServerErrorMessage)))
            && Attempts(verb, retryTimeout, wire) == k + 1
            && e.trace == FailedAttempts(c, k) + [Sent(c.value)]
  {
  }

  /**
   * The retries are exhausted exactly when every allowed attempt fails; the
   * FatalException names the verb and the budget.
   */
  lemma RetryExhausted(verb: string, url: string, retryTimeout: int, body: Option<Json>,
                       proxy: Option<Proxies>, ssl: bool, wire: Wire)
    ensures var e := RetryEffect(verb, url, retryTimeout, body, proxy, ssl, wire);
            var m := MaxRetry(retryTimeout);
            e.result == Err(FatalError(ExhaustedMessage(verb, m)))
            <==> m > 0 && forall j :: 0 <= j < m ==> Classify(verb, wire(j)).Failed?
  {
    var m := MaxRetry(retryTimeout);
    if m > 0 {
      var k := FirstDecisive(verb, wire, 0, m);
      if k < m {
        assert !Classify(verb, wire(k)).Failed?;
      }
    }
  }

  /**
   * An unsupported verb raises inside the dispatcher at every attempt; the
   * catch-all counts each as failed, so no call is sent and the retries run out.
   */
  lemma RetryUnsupportedVerb(verb: string, url: string, retryTimeout: int, body: Option<Json>,
                             proxy: Option<Proxies>, ssl: bool, wire: Wire)
    requires !Supported(verb) && retryTimeout >= 0
    ensures var e := RetryEffect(verb, url, retryTimeout, body, proxy, ssl, wire);
            && e.result == Err(FatalError(ExhaustedMessage(verb, MaxRetry(retryTimeout))))
            && CallsIn(e.trace) == []
            && SleepsIn(e.trace) == Backoff(MaxRetry(retryTimeout) - 1)
  {
    RetryExhausted(verb, url, retryTimeout, body, proxy, ssl, wire);
    RetrySleeps(verb, url, retryTimeout, body, proxy, ssl, wire);
    RetryCalls(verb, url, retryTimeout, body, proxy, ssl, wire);
  }

  /** A 200 or 201 response to the first call is returned after that call alone. */
  lemma RetryFirstTrySucceeds(verb: string, url: string, retryTimeout: int, body: Option<Json>,
                              proxy: Option<Proxies>, ssl: bool, wire: Wire)
    requires Supported(verb) && retryTimeout >= 0
    requires wire(0).Received? && IsSuccess(wire(0).response)
    ensures RetryEffect(verb, url, retryTimeout, body, proxy, ssl, wire)
            == Effect(Ok(Some(wire(0).response)), [Sent(Call(verb, url, body, proxy, ssl).value)])
  {
    assert FirstDecisive(verb, wire, 0, MaxRetry(retryTimeout)) == 0;
    assert FailedAttempts(Call(verb, url, body, proxy, ssl), 0) == [];
  }

  /**
   * A one-second budget allows one attempt; a 500 response to it raises the
   * server error after a single call and no sleep.
   */
  lemma ServerErrorWithOneSecondBudget(url: string, proxy: Option<Proxies>, wire: Wire)
    requires forall i :: wire(i) == Received(Response(StatusInternalServerError, "Internal Server Error", ""))
    ensures RetryEffect("GET", url, 1, None, proxy, false, wire)
            == Effect(Err(RequestError(Some(ServerErrorMessage))), [Sent(HttpCall("GET", url, None, 10, proxy, false))])
  {
    MaxRetryBands(1);
  }
}
