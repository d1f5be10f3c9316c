/**
 * The operator for the Requests service (rptrc/src/operators/requests.py):
 * fetching and aborting a Request entity, creating a queued one, and polling
 * a queued one until it leaves the 'Queued' status.
 */
module Requests {
  import opened Wrappers
  import opened Exceptions
  import opened Json
  import opened RequestRetry
  import opened Crud
  import Base
  import Text
  import Dicts

  const AbortFailedMessage: string := "Failed to abort request, please contact Thunderbee."
  const BadRequestBodyMessage: string := "Error found in the request body. Failed to create a new queued request!"
  const CreateFailedMessage: string := "Error found in the request response. Failed to create a new queued request!"
  const TimedOutMessage: string := "Request timed out, there are no available environments. Please try again"
  const AbortedMessage: string := "Request aborted."

  /** The index of the execution id among the '/'-separated parts of a pipeline execution URL. */
  const ExecutionIdSegment: nat := 8

  datatype Requests = Requests(crud: Crud, requestsUrl: string, rptFunctionsUrl: string, sleepDuration: nat)

  /** `Requests(dev_mode, retry_timeout)`: no proxy, a 10-second polling interval. */
  function NewRequests(config: Config, devMode: bool, retryTimeout: int): (r: Requests)
    ensures r.crud == NewCrud(config, devMode, retryTimeout)
    ensures r.requestsUrl == r.crud.targetHost + "/api/requests"
    ensures r.rptFunctionsUrl == r.crud.targetHost + "/api/pipeline-functions"
    ensures r.sleepDuration == 10
  {
    var crud := NewCrud(config, devMode, retryTimeout);
    Requests(crud, crud.targetHost + "/api/requests", crud.targetHost + "/api/pipeline-functions", 10)
  }

  function NotFoundMessage(requestId: string): string
  {
    "No Request entity with ID " + requestId + " was found in RPT"
  }

  /** GETs `{requests_url}/{id}`; an empty (falsy) result raises, otherwise its first element is returned. */
  function GetRequestWithId(req: Requests, requestId: string, codec: Codec, wire: Wire): Effect<Json>
  {
    var fetched := Get(req.crud, req.requestsUrl + "/" + requestId, codec, wire);
    if fetched.result.Err? then fetched
    else if !Truthy(fetched.result.value) then Effect(Err(FatalError(NotFoundMessage(requestId))), fetched.trace)
    else Effect(First(fetched.result.value), fetched.trace)
  }

  /**
   * A found Request is the first element of a non-empty list decoded from the
   * GET; an empty list raises the not-found error naming the id.
   */
  lemma GetRequestWithIdOutcomes(req: Requests, requestId: string, codec: Codec, wire: Wire)
    ensures var fetched := Get(req.crud, req.requestsUrl + "/" + requestId, codec, wire);
            var r := GetRequestWithId(req, requestId, codec, wire);
            && r.trace == fetched.trace
            && (fetched.result == Ok(Arr([])) ==> r.result == Err(FatalError(NotFoundMessage(requestId))))
            && (fetched.result.Ok? && fetched.result.value.Arr? && fetched.result.value.items != [] ==>
                  r.result == Ok(fetched.result.value.items[0]))
            && (r.result.Ok? ==> fetched.result.Ok? && Truthy(fetched.result.value)
                                 && (fetched.result.value.Arr? || fetched.result.value.Str?))
  {
  }

  /** PATCHes '{}' to the abort function for the id and rejects a response carrying 'error'. */
  function AbortRequestById(req: Requests, requestId: string, codec: Codec, wire: Wire): Effect<Json>
  {
    Base.Checked(Patch(req.crud, req.rptFunctionsUrl + "/request-from-queued-to-aborted/" + requestId, "{}", codec, wire),
                 AbortFailedMessage)
  }

  /**
   * Every call of an abort is a PATCH of the decoded '{}' to the abort path
   * of the id; the response comes back unchanged exactly when it holds no 'error'.
   */
  lemma AbortRequestByIdOutcomes(req: Requests, requestId: string, codec: Codec, wire: Wire)
    ensures var url := req.rptFunctionsUrl + "/request-from-queued-to-aborted/" + requestId;
            var a := AbortRequestById(req, requestId, codec, wire);
            forall x :: x in CallsIn(a.trace) ==> x == HttpCall("PATCH", url, codec.loads("{}"), 20, req.crud.proxy, false)
    ensures var url := req.rptFunctionsUrl + "/request-from-queued-to-aborted/" + requestId;
            var patched := Patch(req.crud, url, "{}", codec, wire);
            var a := AbortRequestById(req, requestId, codec, wire);
            && (patched.result.Ok? && Contains(patched.result.value, "error") == Ok(false) ==> a == patched)
            && (patched.result.Ok? && Contains(patched.result.value, "error") == Ok(true) ==>
                  a.result == Err(FatalError("Error found in the request response. " + AbortFailedMessage)))
  {
    var url := req.rptFunctionsUrl + "/request-from-queued-to-aborted/" + requestId;
    HelperCalls(req.crud, url, "{}", codec, wire);
    Base.CheckedOutcomes(Patch(req.crud, url, "{}", codec, wire), AbortFailedMessage);
  }

  // ---------------------------------------------------------------------------
  // create_queued_request

  /** `body['requestorDetails']['executionId']` */
  function ExecutionIdOf(body: Json): Result<Json>
  {
    var details :- Field(body, "requestorDetails");
    Field(details, "executionId")
  }

  /**
   * The body with `requestorDetails.executionId` replaced by part 8 of its
   * '/'-split: KeyError when a key is missing, IndexError when there are fewer
   * than 9 parts, TypeError or AttributeError when a value has the wrong type.
   */
  function WithExecutionId(body: Json): (r: Result<Json>)
    ensures r.Ok? ==> r.value.Obj? && body.Obj?
  {
    var executionId :- ExecutionIdOf(body);
    if !executionId.Str? then Err(AttributeErr)
    else
      var parts := Text.Split(executionId.s, '/');
      if |parts| <= ExecutionIdSegment then Err(IndexErr)
      else
        var details := Field(body, "requestorDetails").value;
        if !details.Obj? then Err(TypeErr)
        else
          Ok(Obj(Dicts.Set(body.members, "requestorDetails",
                           Obj(Dicts.Set(details.members, "executionId", Str(parts[ExecutionIdSegment]))))))
  }

  /**
   * An execution URL made of 9 or more '/'-separated parts is rewritten to
   * its part 8.
   */
  lemma WithExecutionIdTakesSegment(body: Json, parts: seq<string>)
    requires |parts| >= ExecutionIdSegment + 1
    requires forall i :: 0 <= i < |parts| ==> '/' !in parts[i]
    requires Field(body, "requestorDetails").Ok? && Field(body, "requestorDetails").value.Obj?
    requires ExecutionIdOf(body) == Ok(Str(Text.Join(parts, '/')))
    ensures WithExecutionId(body).Ok?
    ensures ExecutionIdOf(WithExecutionId(body).value) == Ok(Str(parts[ExecutionIdSegment]))
  {
    Text.JoinSplit(parts, '/');
    var details := Field(body, "requestorDetails").value;
    var newDetails := Dicts.Set(details.members, "executionId", Str(parts[ExecutionIdSegment]));
    var newBody := Obj(Dicts.Set(body.members, "requestorDetails", Obj(newDetails)));
    assert WithExecutionId(body) == Ok(newBody);
    assert Field(newBody, "requestorDetails") == Ok(Obj(newDetails));
  }

  /** The rewrite changes no key other than `requestorDetails.executionId`. */
  lemma WithExecutionIdChangesNothingElse(body: Json)
    requires WithExecutionId(body).Ok?
    ensures var r := WithExecutionId(body).value;
            var details := Field(body, "requestorDetails").value;
            && Dicts.Keys(r.members) == Dicts.Keys(body.members)
            && (forall k :: k != "requestorDetails" ==> Dicts.Get(r.members, k) == Dicts.Get(body.members, k))
            && Field(r, "requestorDetails").Ok? && Field(r, "requestorDetails").value.Obj?
            && Dicts.Keys(Field(r, "requestorDetails").value.members) == Dicts.Keys(details.members)
            && (forall k :: k != "executionId" ==>
                  Dicts.Get(Field(r, "requestorDetails").value.members, k) == Dicts.Get(details.members, k))
  {
    var details := Field(body, "requestorDetails").value;
    var executionId := Field(details, "executionId").value;
    var parts := Text.Split(executionId.s, '/');
    var newDetails := Dicts.Set(details.members, "executionId", Str(parts[ExecutionIdSegment]));
    var newMembers := Dicts.Set(body.members, "requestorDetails", Obj(newDetails));
    assert WithExecutionId(body) == Ok(Obj(newMembers));
    assert "executionId" in Dicts.Keys(details.members);
    assert "requestorDetails" in Dicts.Keys(body.members);
    assert Field(Obj(newMembers), "requestorDetails") == Ok(Obj(newDetails));
  }

  /** Without `executionId`, or with fewer than 9 parts, the rewrite fails with KeyError or IndexError. */
  lemma WithExecutionIdRejects(body: Json)
    requires Field(body, "requestorDetails").Ok? && Field(body, "requestorDetails").value.Obj?
    ensures var details := Field(body, "requestorDetails").value;
            && ("executionId" !in Dicts.Keys(details.members) ==> WithExecutionId(body) == Err(KeyErr))
            && (ExecutionIdOf(body).Ok? && ExecutionIdOf(body).value.Str?
                && Text.Count(ExecutionIdOf(body).value.s, '/') < ExecutionIdSegment
                ==> WithExecutionId(body) == Err(IndexErr))
  {
    var executionId := ExecutionIdOf(body);
    if executionId.Ok? && executionId.value.Str? {
      Text.SplitCount(executionId.value.s, '/');
    }
  }

  /** What the create does once the body has been rewritten: POST it and reject an 'error'. */
  function PostQueuedRequest(req: Requests, body: Json, codec: Codec, wire: Wire): Effect<Json>
  {
    var created := Post(req.crud, req.requestsUrl, codec.dumps(body), codec, wire);
    if created.result.Err? then created
    else
      var found := Contains(created.result.value, "error");
      if found.Err? then Effect(Err(found.error), created.trace)
      else if found.value then Effect(Err(FatalError(CreateFailedMessage)), created.trace)
      else created
  }

  /**
   * With a JSON library that round-trips, the POST sends the rewritten body
   * itself, and the response is returned exactly when it holds no 'error'.
   */
  lemma PostQueuedRequestOutcomes(req: Requests, body: Json, codec: Codec, wire: Wire)
    requires RoundTrips(codec) && WellFormed(body)
    ensures forall x :: x in CallsIn(PostQueuedRequest(req, body, codec, wire).trace) ==>
              x == HttpCall("POST", req.requestsUrl, Some(body), 20, req.crud.proxy, false)
    ensures var created := Post(req.crud, req.requestsUrl, codec.dumps(body), codec, wire);
            var p := PostQueuedRequest(req, body, codec, wire);
            && (p.result.Ok? ==> created.result == p.result && Contains(p.result.value, "error") == Ok(false))
            && (created.result.Ok? && Contains(created.result.value, "error") == Ok(true) ==>
                  p.result == Err(FatalError(CreateFailedMessage)))
  {
    HelperCalls(req.crud, req.requestsUrl, codec.dumps(body), codec, wire);
  }

  /**
   * `create_queued_request`: rewrites the caller's body in place, then POSTs it.
   * A missing key or a short URL raises the request-body error before anything
   * is sent, and leaves the body as it was.
   */
  method CreateQueuedRequest(req: Requests, requestBody: Ref, codec: Codec, wire: Wire)
    returns (result: Result<Json>, trace: seq<Event>)
    modifies requestBody
    ensures var rewritten := WithExecutionId(old(requestBody.value));
            && (rewritten.Err? ==> && requestBody.value == old(requestBody.value)
                                   && trace == []
                                   && result == Err(if rewritten.error == KeyErr || rewritten.error == IndexErr
                                                    then FatalError(BadRequestBodyMessage) else rewritten.error))
            && (rewritten.Ok? ==> && requestBody.value == rewritten.value
                                  && Effect(result, trace) == PostQueuedRequest(req, rewritten.value, codec, wire))
  {
    var rewritten := WithExecutionId(requestBody.value);
    if rewritten.Err? {
      trace := [];
      if rewritten.error == KeyErr || rewritten.error == IndexErr {
        result := Err(FatalError(BadRequestBodyMessage));
      } else {
        result := Err(rewritten.error);
      }
      return;
    }
    requestBody.value := rewritten.value;
    var created := PostQueuedRequest(req, requestBody.value, codec, wire);
    result, trace := created.result, created.trace;
  }

  // ---------------------------------------------------------------------------
  // wait_for_the_queued_request_be_resolved

  /** The poller's fetches: the i-th runs `get_request_with_id` on the i-th wire. */
  function Fetches(req: Requests, requestId: string, codec: Codec, net: Network): nat -> Effect<Json>
  {
    (i: nat) => GetRequestWithId(req, requestId, codec, net(i))
  }

  /** The poller fetches again after this fetch: it found the Request, with status 'Queued'. */
  predicate StillQueued(f: Effect<Json>)
  {
    f.result.Ok? && Field(f.result.value, "status") == Ok(Str("Queued"))
  }

  /** How the poller ends after its last fetch. */
  function Settle(f: Effect<Json>): (r: Result<Json>)
    ensures !StillQueued(f) && f.result.Ok? && Field(f.result.value, "status").Ok? ==>
              var status := Field(f.result.value, "status").value;
              && (status == Str("Timeout") ==> r == Err(FatalError(TimedOutMessage)))
              && (status == Str("Aborted") ==> r == Err(FatalError(AbortedMessage)))
              && (status != Str("Timeout") && status != Str("Aborted") ==> r == f.result)
    ensures f.result.Err? ==> r == f.result
  {
    if f.result.Err? then f.result
    else
      var status :- Field(f.result.value, "status");
      if status == Str("Timeout") then Err(FatalError(TimedOutMessage))
      else if status == Str("Aborted") then Err(FatalError(AbortedMessage))
      else f.result
  }

  /** The trace of the first n fetches, with one sleep of the polling interval between each two. */
  function PollTrace(fetch: nat -> Effect<Json>, sleepDuration: nat, n: nat): seq<Event>
    requires n >= 1
  {
    if n == 1 then fetch(0).trace
    else PollTrace(fetch, sleepDuration, n - 1) + [Slept(sleepDuration)] + fetch(n - 1).trace
  }

  /**
   * The polling loop: fetch, and while the Request is still queued sleep and
   * fetch again. The requires says some fetch eventually finds it otherwise.
   */
  method PollWhileQueued(fetch: nat -> Effect<Json>, sleepDuration: nat)
    returns (last: Effect<Json>, trace: seq<Event>, fetches: nat)
    requires exists k: nat :: !StillQueued(fetch(k))
    ensures fetches >= 1 && last == fetch(fetches - 1)
    ensures forall j :: 0 <= j < fetches - 1 ==> StillQueued(fetch(j))
    ensures !StillQueued(last)
    ensures trace == PollTrace(fetch, sleepDuration, fetches)
  {
    ghost var bound: nat :| !StillQueued(fetch(bound));
    last := fetch(0);
    trace := last.trace;
    fetches := 1;
    while StillQueued(last)
      invariant 1 <= fetches <= bound + 1
      invariant forall j :: 0 <= j < fetches - 1 ==> StillQueued(fetch(j))
      invariant last == fetch(fetches - 1)
      invariant trace == PollTrace(fetch, sleepDuration, fetches)
      decreases bound + 1 - fetches
    {
      trace := trace + [Slept(sleepDuration)];
      last := fetch(fetches);
      trace := trace + last.trace;
      fetches := fetches + 1;
    }
  }

  /**
   * `wait_for_the_queued_request_be_resolved`: polls the Request until a
   * fetch raises or finds it out of 'Queued', then resolves that status;
   * `fetches` counts the fetches made.
   */
  method WaitForTheQueuedRequestBeResolved(req: Requests, requestId: string, codec: Codec, net: Network)
    returns (result: Result<Json>, trace: seq<Event>, fetches: nat)
    requires exists k: nat :: !StillQueued(Fetches(req, requestId, codec, net)(k))
    ensures fetches >= 1
    ensures forall j :: 0 <= j < fetches - 1 ==> StillQueued(Fetches(req, requestId, codec, net)(j))
    ensures !StillQueued(Fetches(req, requestId, codec, net)(fetches - 1))
    ensures trace == PollTrace(Fetches(req, requestId, codec, net), req.sleepDuration, fetches)
    ensures result == Settle(Fetches(req, requestId, codec, net)(fetches - 1))
  {
    var last;
    last, trace, fetches := PollWhileQueued(Fetches(req, requestId, codec, net), req.sleepDuration);
    result := Settle(last);
  }

  /** A Request answered on the first try by a one-element list costs one GET and is that element. */
  lemma GetRequestFirstTry(req: Requests, requestId: string, codec: Codec, wire: Wire, response: Response, x: Json)
    requires req.crud.retryTimeout >= 0
    requires wire(0) == Received(response) && IsSuccess(response)
    requires codec.loads(response.text) == Some(Arr([x]))
    ensures GetRequestWithId(req, requestId, codec, wire)
            == Effect(Ok(x), [Sent(HttpCall("GET", req.requestsUrl + "/" + requestId, None, 10, req.crud.proxy, false))])
  {
    RetryFirstTrySucceeds("GET", req.requestsUrl + "/" + requestId, req.crud.retryTimeout, None, req.crud.proxy, false, wire);
  }

  /** Polling two 'Queued' fetches and then another: the fetches with one sleep between each two. */
  lemma PollTraceOfThree(fetch: nat -> Effect<Json>, sleepDuration: nat)
    ensures PollTrace(fetch, sleepDuration, 3)
            == fetch(0).trace + [Slept(sleepDuration)] + fetch(1).trace + [Slept(sleepDuration)] + fetch(2).trace
  {
    assert PollTrace(fetch, sleepDuration, 2) == fetch(0).trace + [Slept(sleepDuration)] + fetch(1).trace;
  }

  /**
   * Two 'Queued' answers and then a 'Reserved' one, each on the first try:
   * three GETs, two polling sleeps of 10 seconds between them, and the
   * reserved Request returned.
   */
  lemma PollQueuedQueuedReserved(config: Config, requestId: string, codec: Codec, net: Network,
                                 queued: Response, reserved: Response)
    requires IsSuccess(queued) && IsSuccess(reserved)
    requires codec.loads(queued.text) == Some(Arr([Obj([("status", Str("Queued"))])]))
    requires codec.loads(reserved.text) == Some(Arr([Obj([("status", Str("Reserved"))])]))
    requires net(0)(0) == Received(queued) && net(1)(0) == Received(queued) && net(2)(0) == Received(reserved)
    ensures var req := NewRequests(config, false, 7200);
            var fetch := Fetches(req, requestId, codec, net);
            var get := Sent(HttpCall("GET", req.requestsUrl + "/" + requestId, None, 10, None, false));
            && StillQueued(fetch(0)) && StillQueued(fetch(1)) && !StillQueued(fetch(2))
            && PollTrace(fetch, req.sleepDuration, 3) == [get, Slept(10), get, Slept(10), get]
            && Settle(fetch(2)) == Ok(Obj([("status", Str("Reserved"))]))
  {
    var req := NewRequests(config, false, 7200);
    PollQueuedQueuedReservedWith(req, requestId, codec, net, queued, reserved);
  }

  /** The same three fetches polled by any Requests operator with a retry budget. */
  lemma PollQueuedQueuedReservedWith(req: Requests, requestId: string, codec: Codec, net: Network,
                                     queued: Response, reserved: Response)
    requires req.crud.retryTimeout >= 0
    requires IsSuccess(queued) && IsSuccess(reserved)
    requires codec.loads(queued.text) == Some(Arr([Obj([("status", Str("Queued"))])]))
    requires codec.loads(reserved.text) == Some(Arr([Obj([("status", Str("Reserved"))])]))
    requires net(0)(0) == Received(queued) && net(1)(0) == Received(queued) && net(2)(0) == Received(reserved)
    ensures var fetch := Fetches(req, requestId, codec, net);
            var get := Sent(HttpCall("GET", req.requestsUrl + "/" + requestId, None, 10, req.crud.proxy, false));
            && StillQueued(fetch(0)) && StillQueued(fetch(1)) && !StillQueued(fetch(2))
            && PollTrace(fetch, req.sleepDuration, 3) == [get, Slept(req.sleepDuration), get, Slept(req.sleepDuration), get]
            && Settle(fetch(2)) == Ok(Obj([("status", Str("Reserved"))]))
  {
    var fetch := Fetches(req, requestId, codec, net);
    var q := Obj([("status", Str("Queued"))]);
    var r := Obj([("status", Str("Reserved"))]);
    FetchOnFirstTry(req, requestId, codec, net, 0, queued, q);
    FetchOnFirstTry(req, requestId, codec, net, 1, queued, q);
    FetchOnFirstTry(req, requestId, codec, net, 2, reserved, r);
    StatusField("Queued");
    StatusField("Reserved");
    var get := Sent(HttpCall("GET", req.requestsUrl + "/" + requestId, None, 10, req.crud.proxy, false));
    PollTraceOfSingleCalls(fetch, req.sleepDuration, get);
  }

  lemma PollTraceOfSingleCalls(fetch: nat -> Effect<Json>, sleepDuration: nat, e: Event)
    requires fetch(0).trace == [e] && fetch(1).trace == [e] && fetch(2).trace == [e]
    ensures PollTrace(fetch, sleepDuration, 3) == [e, Slept(sleepDuration), e, Slept(sleepDuration), e]
  {
    PollTraceOfThree(fetch, sleepDuration);
  }

  /** Fetch i answered on the first try by a one-element list. */
  lemma FetchOnFirstTry(req: Requests, requestId: string, codec: Codec, net: Network, i: nat, response: Response, x: Json)
    requires req.crud.retryTimeout >= 0
    requires net(i)(0) == Received(response) && IsSuccess(response)
    requires codec.loads(response.text) == Some(Arr([x]))
    ensures Fetches(req, requestId, codec, net)(i)
            == Effect(Ok(x), [Sent(HttpCall("GET", req.requestsUrl + "/" + requestId, None, 10, req.crud.proxy, false))])
  {
    GetRequestFirstTry(req, requestId, codec, net(i), response, x);
  }

  lemma StatusField(status: string)
    ensures Field(Obj([("status", Str(status))]), "status") == Ok(Str(status))
  {
  }
}
