/**
 * The CRUD helpers of rptrc/src/operators/crud.py. A `Crud` fixes, once, the
 * target host (chosen by dev mode), the proxy and the retry timeout; each
 * helper validates a string body as JSON, runs the retry executor with its own
 * verb and decodes the response as JSON.
 */
module Crud {
  import opened Wrappers
  import opened Exceptions
  import opened Json
  import opened RequestRetry

  /** The two URLs of the RPT_URLS section of the application configuration. */
  datatype Config = Config(prod: string, stag: string)

  const DefaultRetryTimeout: int := 7200

  const InvalidResponseMessage: string := "Got invalid response from request and could not convert it to JSON!"
  const InvalidBodyMessage: string := "When making request, an invalid request body was provided"

  datatype Crud = Crud(targetHost: string, proxy: Option<Proxies>, retryTimeout: int)

  function DetermineTargetHost(config: Config, devMode: bool): (host: string)
    ensures !devMode ==> host == config.prod
    ensures devMode ==> host == config.stag
  {
    if !devMode then config.prod else config.stag
  }

  /** `Crud(dev_mode, retry_timeout=7200, proxy=None)`. */
  function NewCrud(config: Config, devMode: bool, retryTimeout: int := DefaultRetryTimeout,
                   proxy: Option<Proxies> := None): (c: Crud)
    ensures c.targetHost == DetermineTargetHost(config, devMode)
    ensures c.proxy == proxy && c.retryTimeout == retryTimeout
  {
    Crud(DetermineTargetHost(config, devMode), proxy, retryTimeout)
  }

  /**
   * `response.json()`: the decoded body; a body that does not decode raises a
   * FatalException, and a missing response (`None`) raises AttributeError.
   */
  function ConvertResponseToJson(response: Option<Response>, codec: Codec): (r: Result<Json>)
    ensures response.None? ==> r == Err(AttributeErr)
    ensures response.Some? && codec.loads(response.value.text).None? ==> r == Err(FatalError(InvalidResponseMessage))
    ensures r.Ok? ==> response.Some? && codec.loads(response.value.text) == Some(r.value)
    ensures response.Some? && codec.loads(response.value.text).Some? ==> r.Ok?
  {
    if response.None? then Err(AttributeErr)
    else
      var j := codec.loads(response.value.text);
      if j.None? then Err(FatalError(InvalidResponseMessage)) else Ok(j.value)
  }

  function ConvertRequestBodyStringToDict(requestBody: string, codec: Codec): (r: Result<Json>)
    ensures r.Ok? ==> codec.loads(requestBody) == Some(r.value)
    ensures r.Err? <==> codec.loads(requestBody).None?
    ensures r.Err? ==> r == Err(FatalError(InvalidBodyMessage))
  {
    var j := codec.loads(requestBody);
    if j.None? then Err(FatalError(InvalidBodyMessage)) else Ok(j.value)
  }

  /** Runs the retry executor with the helper's verb and decodes what it returns. */
  function Fetch(crud: Crud, verb: string, targetUrl: string, body: Option<Json>, codec: Codec, wire: Wire): Effect<Json>
  {
    var e := RetryEffect(verb, targetUrl, crud.retryTimeout, body, crud.proxy, false, wire);
    if e.result.Err? then Effect(Err(e.result.error), e.trace)
    else Effect(ConvertResponseToJson(e.result.value, codec), e.trace)
  }

  /** PUT, PATCH and POST: the body is validated before anything is sent. */
  function SendBody(crud: Crud, verb: string, targetUrl: string, requestBody: string, codec: Codec, wire: Wire): Effect<Json>
  {
    var body := ConvertRequestBodyStringToDict(requestBody, codec);
    if body.Err? then Effect(Err(body.error), [])
    else Fetch(crud, verb, targetUrl, Some(body.value), codec, wire)
  }

  function Get(crud: Crud, targetUrl: string, codec: Codec, wire: Wire): Effect<Json>
  {
    Fetch(crud, "GET", targetUrl, None, codec, wire)
  }

  function Put(crud: Crud, targetUrl: string, requestBody: string, codec: Codec, wire: Wire): Effect<Json>
  {
    SendBody(crud, "PUT", targetUrl, requestBody, codec, wire)
  }

  function Patch(crud: Crud, targetUrl: string, requestBody: string, codec: Codec, wire: Wire): Effect<Json>
  {
    SendBody(crud, "PATCH", targetUrl, requestBody, codec, wire)
  }

  function Post(crud: Crud, targetUrl: string, requestBody: string, codec: Codec, wire: Wire): Effect<Json>
  {
    SendBody(crud, "POST", targetUrl, requestBody, codec, wire)
  }

  /** DELETE returns nothing: the response, if any, is dropped undecoded. */
  function Delete(crud: Crud, targetUrl: string, wire: Wire): Effect<()>
  {
    var e := RetryEffect("DELETE", targetUrl, crud.retryTimeout, None, crud.proxy, false, wire);
    Effect(if e.result.Err? then Err(e.result.error) else Ok(()), e.trace)
  }

  /** An invalid body raises before the retry executor runs: nothing is sent. */
  lemma InvalidBodySendsNothing(crud: Crud, targetUrl: string, requestBody: string, codec: Codec, wire: Wire)
    requires codec.loads(requestBody).None?
    ensures Put(crud, targetUrl, requestBody, codec, wire) == Effect(Err(FatalError(InvalidBodyMessage)), [])
    ensures Patch(crud, targetUrl, requestBody, codec, wire) == Effect(Err(FatalError(InvalidBodyMessage)), [])
    ensures Post(crud, targetUrl, requestBody, codec, wire) == Effect(Err(FatalError(InvalidBodyMessage)), [])
  {
  }

  /** The calls `Fetch` sends are the dispatcher's call for its verb, at most MaxRetry of them. */
  lemma FetchCalls(crud: Crud, verb: string, targetUrl: string, body: Option<Json>, codec: Codec, wire: Wire)
    ensures forall x :: x in CallsIn(Fetch(crud, verb, targetUrl, body, codec, wire).trace) ==>
              Some(x) == Call(verb, targetUrl, body, crud.proxy, false)
    ensures |CallsIn(Fetch(crud, verb, targetUrl, body, codec, wire).trace)| <= MaxRetry(crud.retryTimeout)
  {
    RetryCalls(verb, targetUrl, crud.retryTimeout, body, crud.proxy, false, wire);
  }

  lemma SendBodyCalls(crud: Crud, verb: string, targetUrl: string, requestBody: string, codec: Codec, wire: Wire)
    ensures forall x :: x in CallsIn(SendBody(crud, verb, targetUrl, requestBody, codec, wire).trace) ==>
              Some(x) == Call(verb, targetUrl, codec.loads(requestBody), crud.proxy, false)
  {
    var body := codec.loads(requestBody);
    if body.Some? {
      FetchCalls(crud, verb, targetUrl, body, codec, wire);
    }
  }

  /**
   * Every call a helper sends carries its verb, the decoded body for PUT,
   * PATCH and POST and none for GET and DELETE, the proxy fixed at
   * construction and verification off.
   */
  lemma HelperCalls(crud: Crud, targetUrl: string, requestBody: string, codec: Codec, wire: Wire)
    ensures forall x :: x in CallsIn(Get(crud, targetUrl, codec, wire).trace) ==>
              x == HttpCall("GET", targetUrl, None, 10, crud.proxy, false)
    ensures forall x :: x in CallsIn(Delete(crud, targetUrl, wire).trace) ==>
              x == HttpCall("DELETE", targetUrl, None, 10, crud.proxy, false)
    ensures forall x :: x in CallsIn(Put(crud, targetUrl, requestBody, codec, wire).trace) ==>
              x == HttpCall("PUT", targetUrl, codec.loads(requestBody), 5, crud.proxy, false)
    ensures forall x :: x in CallsIn(Patch(crud, targetUrl, requestBody, codec, wire).trace) ==>
              x == HttpCall("PATCH", targetUrl, codec.loads(requestBody), 20, crud.proxy, false)
    ensures forall x :: x in CallsIn(Post(crud, targetUrl, requestBody, codec, wire).trace) ==>
              x == HttpCall("POST", targetUrl, codec.loads(requestBody), 20, crud.proxy, false)
  {
    DispatchTable(targetUrl, codec.loads(requestBody), crud.proxy, false);
    FetchCalls(crud, "GET", targetUrl, None, codec, wire);
    RetryCalls("DELETE", targetUrl, crud.retryTimeout, None, crud.proxy, false, wire);
    SendBodyCalls(crud, "PUT", targetUrl, requestBody, codec, wire);
    SendBodyCalls(crud, "PATCH", targetUrl, requestBody, codec, wire);
    SendBodyCalls(crud, "POST", targetUrl, requestBody, codec, wire);
  }

  /**
   * A helper returns JSON only by decoding the body of a 200 or 201 response
   * to the last call it sent; with a negative retry timeout nothing is sent and
   * decoding the missing response raises AttributeError.
   */
  lemma FetchResults(crud: Crud, verb: string, targetUrl: string, body: Option<Json>, codec: Codec, wire: Wire)
    ensures var f := Fetch(crud, verb, targetUrl, body, codec, wire);
            f.result.Ok? ==>
              exists r: Response :: IsSuccess(r) && wire(Attempts(verb, crud.retryTimeout, wire) - 1) == Received(r)
                                    && codec.loads(r.text) == Some(f.result.value)
    ensures crud.retryTimeout < 0 ==> Fetch(crud, verb, targetUrl, body, codec, wire) == Effect(Err(AttributeErr), [])
  {
    var e := RetryEffect(verb, targetUrl, crud.retryTimeout, body, crud.proxy, false, wire);
    RetryReturnsNone(verb, targetUrl, crud.retryTimeout, body, crud.proxy, false, wire);
    if e.result.Ok? && e.result.value.Some? {
      RetrySucceedsOnlyOnSuccessStatus(verb, targetUrl, crud.retryTimeout, body, crud.proxy, false, wire, e.result.value.value);
    }
  }
}
