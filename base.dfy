/**
 * The check every operator applies to a decoded response
 * (rptrc/src/operators/base.py): the literal 'error' as a top-level member
 * raises a FatalException, whatever the HTTP status was.
 */
module Base {
  import opened Exceptions
  import opened Json
  import opened RequestRetry
  import Dicts

  function ErrorFoundMessage(errorMessage: string): string
  {
    "Error found in the request response. " + errorMessage
  }

  /**
   * Raises exactly when Python's `'error' in response` holds; a response that
   * `in` cannot search (None, a boolean, a number) raises TypeError instead.
   */
  function RaiseExceptionIfErrorInResponse(response: Json, errorMessage: string): (r: Result<()>)
    ensures r == Ok(()) <==> Contains(response, "error") == Ok(false)
    ensures r == Err(FatalError(ErrorFoundMessage(errorMessage))) <==> Contains(response, "error") == Ok(true)
    ensures r == Err(TypeErr) <==> Contains(response, "error").Err?
  {
    var found := Contains(response, "error");
    if found.Err? then Err(found.error)
    else if found.value then Err(FatalError(ErrorFoundMessage(errorMessage)))
    else Ok(())
  }

  /**
   * For a dict the check looks at its keys only, for a list at its elements
   * only: an 'error' key raises, and a dict without one passes whatever its
   * values hold.
   */
  lemma ErrorCheckOnCollections(response: Json, errorMessage: string)
    ensures response.Obj? ==>
              (RaiseExceptionIfErrorInResponse(response, errorMessage).Err?
               <==> "error" in Dicts.Keys(response.members))
    ensures response.Arr? ==>
              (RaiseExceptionIfErrorInResponse(response, errorMessage).Err?
               <==> Str("error") in response.items)
    ensures RaiseExceptionIfErrorInResponse(response, errorMessage).Err? && (response.Obj? || response.Arr?) ==>
              Render(RaiseExceptionIfErrorInResponse(response, errorMessage).error)
              == "Error found in the request response. " + errorMessage
  {
  }

  /** Any dict holding an 'error' key is rejected with the operator's message. */
  lemma ErrorKeyIsRejected(members: seq<(string, Json)>, errorMessage: string)
    requires "error" in Dicts.Keys(members)
    ensures RaiseExceptionIfErrorInResponse(Obj(members), errorMessage)
            == Err(FatalError(ErrorFoundMessage(errorMessage)))
  {
  }

  /** A concrete case: an error payload next to data is still rejected. */
  lemma ErrorBesideDataIsRejected()
    ensures RaiseExceptionIfErrorInResponse(
              Obj([("id", Str("123")), ("error", Str("Not found"))]), "Failed to abort request")
            == Err(FatalError("Error found in the request response. Failed to abort request"))
  {
    var members := [("id", Str("123")), ("error", Str("Not found"))];
    assert Dicts.Keys(members)[1] == "error";
    ErrorKeyIsRejected(members, "Failed to abort request");
    AbortFailureMessage();
  }

  lemma AbortFailureMessage()
    ensures ErrorFoundMessage("Failed to abort request")
            == "Error found in the request response. Failed to abort request"
  {
  }

  /** An operator's request followed by `raise_exception_if_error_in_response` with its failure message. */
  function Checked(e: Effect<Json>, failure: string): Effect<Json>
  {
    if e.result.Err? then e
    else
      var check := RaiseExceptionIfErrorInResponse(e.result.value, failure);
      if check.Err? then Effect(Err(check.error), e.trace) else e
  }

  /**
   * The check adds nothing to the trace, passes a response without 'error'
   * through unchanged, and otherwise raises with the operator's message.
   */
  lemma CheckedOutcomes(e: Effect<Json>, failure: string)
    ensures Checked(e, failure).trace == e.trace
    ensures e.result.Err? ==> Checked(e, failure) == e
    ensures e.result.Ok? && Contains(e.result.value, "error") == Ok(false) ==> Checked(e, failure) == e
    ensures e.result.Ok? && Contains(e.result.value, "error") == Ok(true) ==>
              Checked(e, failure).result == Err(FatalError(ErrorFoundMessage(failure)))
    ensures Checked(e, failure).result.Ok? ==>
              Checked(e, failure) == e && Contains(e.result.value, "error") == Ok(false)
  {
  }
}
