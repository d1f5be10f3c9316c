/**
 * The operator for the Test Environments service
 * (rptrc/src/operators/test_environments.py). The lookups, state changes and
 * updates are functions of the operator's state; the class holds that state,
 * whose name and id the caller and the Standby scan overwrite.
 */
module TestEnvironments {
  import opened Wrappers
  import opened Exceptions
  import opened Json
  import opened RequestRetry
  import opened Crud
  import opened Base

  const RetrieveFailedMessage: string := "Failed to retrieve test environment."
  const UnreserveFailedMessage: string := "Failed to unreserve Test Environment!"
  const QuarantineFailedMessage: string := "Failed to quarantine Test Environment!"
  const AvailableFailedMessage: string := "Failed to available Test Environment!"
  const StageFailedMessage: string := "Failed to update Test Environment stage!"
  const PoolsFailedMessage: string := "Failed to update Test Environment Pools!"
  const NoStandbyMessage: string := "There are no test environments with status \"Standby\"!"

  const ReservedToAvailable: string := "test-environment-from-reserved-to-available"
  const ReservedToQuarantined: string := "test-environment-from-reserved-to-quarantined"
  const StandbyToAvailable: string := "test-environment-from-standby-to-available"

  function NameNotFoundMessage(name: string): string
  {
    "Test environment \"" + name + "\" does not exist!"
  }

  function AmbiguousNameMessage(name: string): string
  {
    "More than one Test Environment exists with the name \"" + name + "\"!"
  }

  function IdNotFoundMessage(id: string): string
  {
    "Test environment with id \"" + id + "\" does not exist!"
  }

  function NoFreshestMessage(ids: string): string
  {
    "No test environments with ids \"" + ids + "\" found!"
  }

  // ---------------------------------------------------------------------------
  // Lookups

  /** What a by-name lookup makes of a checked response: exactly one match. */
  function SelectByName(response: Json, name: string): Result<Json>
  {
    var n :- Len(response);
    if n < 1 then Err(FatalError(NameNotFoundMessage(name)))
    else if n > 1 then Err(FatalError(AmbiguousNameMessage(name)))
    else First(response)
  }

  /** What a by-id lookup makes of a checked response: its first match, with no ambiguity check. */
  function SelectById(response: Json, id: string): Result<Json>
  {
    var n :- Len(response);
    if n < 1 then Err(FatalError(IdNotFoundMessage(id))) else First(response)
  }

  function LookupByName(crud: Crud, environmentsUrl: string, name: Json, codec: Codec, wire: Wire): Effect<Json>
  {
    var found := Checked(Get(crud, environmentsUrl + "//name/" + ToStr(name), codec, wire), RetrieveFailedMessage);
    if found.result.Err? then found else Effect(SelectByName(found.result.value, ToStr(name)), found.trace)
  }

  function LookupById(crud: Crud, environmentsUrl: string, id: Json, codec: Codec, wire: Wire): Effect<Json>
  {
    var found := Checked(Get(crud, environmentsUrl + "//" + ToStr(id), codec, wire), RetrieveFailedMessage);
    if found.result.Err? then found else Effect(SelectById(found.result.value, ToStr(id)), found.trace)
  }

  /**
   * A by-name lookup of a list returns its one element, and raises when it
   * has none or several; a by-id lookup returns the first of any number.
   */
  lemma SelectCardinality(items: seq<Json>, name: string, id: string)
    ensures |items| == 0 ==> SelectByName(Arr(items), name) == Err(FatalError(NameNotFoundMessage(name)))
    ensures |items| > 1 ==> SelectByName(Arr(items), name) == Err(FatalError(AmbiguousNameMessage(name)))
    ensures |items| == 1 ==> SelectByName(Arr(items), name) == Ok(items[0])
    ensures |items| == 0 ==> SelectById(Arr(items), id) == Err(FatalError(IdNotFoundMessage(id)))
    ensures |items| >= 1 ==> SelectById(Arr(items), id) == Ok(items[0])
    ensures SelectByName(Arr(items), name).Ok? <==> |items| == 1
  {
  }

  /**
   * Both lookups check for 'error' before counting: a response carrying it
   * raises the retrieval failure whatever its length.
   */
  lemma LookupsCheckErrorFirst(crud: Crud, environmentsUrl: string, key: Json, codec: Codec, wire: Wire)
    ensures var g := Get(crud, environmentsUrl + "//name/" + ToStr(key), codec, wire);
            g.result.Ok? && Contains(g.result.value, "error") == Ok(true) ==>
              LookupByName(crud, environmentsUrl, key, codec, wire).result
              == Err(FatalError(ErrorFoundMessage(RetrieveFailedMessage)))
    ensures var g := Get(crud, environmentsUrl + "//" + ToStr(key), codec, wire);
            g.result.Ok? && Contains(g.result.value, "error") == Ok(true) ==>
              LookupById(crud, environmentsUrl, key, codec, wire).result
              == Err(FatalError(ErrorFoundMessage(RetrieveFailedMessage)))
  {
    CheckedOutcomes(Get(crud, environmentsUrl + "//name/" + ToStr(key), codec, wire), RetrieveFailedMessage);
    CheckedOutcomes(Get(crud, environmentsUrl + "//" + ToStr(key), codec, wire), RetrieveFailedMessage);
  }

  // ---------------------------------------------------------------------------
  // State changes and updates

  /** PATCH '{}' to a pipeline function for the named environment, then the 'error' check. */
  function ChangeState(crud: Crud, functionsUrl: string, path: string, name: Json, failure: string,
                       codec: Codec, wire: Wire): Effect<Json>
  {
    Checked(Patch(crud, functionsUrl + "/" + path + "/" + ToStr(name), "{}", codec, wire), failure)
  }

  /**
   * Every call of a state change is a PATCH of the decoded '{}' to its own
   * pipeline function; a response with 'error' raises its own message.
   */
  lemma ChangeStateOutcomes(crud: Crud, functionsUrl: string, path: string, name: Json, failure: string,
                            codec: Codec, wire: Wire)
    ensures var url := functionsUrl + "/" + path + "/" + ToStr(name);
            forall x :: x in CallsIn(ChangeState(crud, functionsUrl, path, name, failure, codec, wire).trace) ==>
              x == HttpCall("PATCH", url, codec.loads("{}"), 20, crud.proxy, false)
    ensures var p := Patch(crud, functionsUrl + "/" + path + "/" + ToStr(name), "{}", codec, wire);
            p.result.Ok? && Contains(p.result.value, "error") == Ok(true) ==>
              ChangeState(crud, functionsUrl, path, name, failure, codec, wire).result
              == Err(FatalError(ErrorFoundMessage(failure)))
  {
    var url := functionsUrl + "/" + path + "/" + ToStr(name);
    HelperCalls(crud, url, "{}", codec, wire);
    CheckedOutcomes(Patch(crud, url, "{}", codec, wire), failure);
  }

  /** The three state changes target distinct functions and report distinct failures. */
  lemma StateChangesDistinct()
    ensures ReservedToAvailable != ReservedToQuarantined && ReservedToAvailable != StandbyToAvailable
            && ReservedToQuarantined != StandbyToAvailable
    ensures UnreserveFailedMessage != QuarantineFailedMessage && UnreserveFailedMessage != AvailableFailedMessage
            && QuarantineFailedMessage != AvailableFailedMessage
  {
    assert ReservedToAvailable[34] != ReservedToQuarantined[34];
    assert ReservedToAvailable[22] != StandbyToAvailable[22];
    assert ReservedToQuarantined[22] != StandbyToAvailable[22];
    assert UnreserveFailedMessage[10] != QuarantineFailedMessage[10];
    assert UnreserveFailedMessage[10] != AvailableFailedMessage[10];
    assert QuarantineFailedMessage[10] != AvailableFailedMessage[10];
  }

  /** PATCH a body with the one key to the environment with the id, then the 'error' check. */
  function PatchField(crud: Crud, environmentsUrl: string, id: Json, key: string, value: Json, failure: string,
                      codec: Codec, wire: Wire): Effect<Json>
  {
    Checked(Patch(crud, environmentsUrl + "/" + ToStr(id), codec.dumps(Obj([(key, value)])), codec, wire), failure)
  }

  /**
   * `update_test_environment_stage` and `update_test_environment_pool`: with
   * no id, the id of the by-name match (first invocation), then the PATCH.
   */
  function UpdateField(crud: Crud, environmentsUrl: string, name: Json, id: Json, key: string, value: Json,
                       failure: string, codec: Codec, net: Network): Effect<Json>
  {
    if id.Null? then
      var found := LookupByName(crud, environmentsUrl, name, codec, net(0));
      if found.result.Err? then found
      else
        var foundId := Field(found.result.value, "id");
        if foundId.Err? then Effect(Err(foundId.error), found.trace)
        else
          var patched := PatchField(crud, environmentsUrl, foundId.value, key, value, failure, codec, net(1));
          Effect(patched.result, found.trace + patched.trace)
    else PatchField(crud, environmentsUrl, id, key, value, failure, codec, net(0))
  }

  /**
   * With a JSON library that round-trips, every PATCH of an update carries a
   * body with exactly the one key; with an id given no lookup is made.
   */
  lemma PatchFieldBody(crud: Crud, environmentsUrl: string, id: Json, key: string, value: Json, failure: string,
                       codec: Codec, wire: Wire)
    requires RoundTrips(codec) && WellFormed(value)
    ensures forall x :: x in CallsIn(PatchField(crud, environmentsUrl, id, key, value, failure, codec, wire).trace) ==>
              x == HttpCall("PATCH", environmentsUrl + "/" + ToStr(id), Some(Obj([(key, value)])), 20, crud.proxy, false)
  {
    assert Dicts.Valid([(key, value)]) by {
      assert [(key, value)][1..] == [];
    }
    assert WellFormed(Obj([(key, value)]));
    HelperCalls(crud, environmentsUrl + "/" + ToStr(id), codec.dumps(Obj([(key, value)])), codec, wire);
  }

  lemma UpdateFieldLooksUpOnlyWithoutId(crud: Crud, environmentsUrl: string, name: Json, id: Json, key: string,
                                        value: Json, failure: string, codec: Codec, net: Network)
    ensures !id.Null? ==>
              UpdateField(crud, environmentsUrl, name, id, key, value, failure, codec, net)
              == PatchField(crud, environmentsUrl, id, key, value, failure, codec, net(0))
    ensures id.Null? ==>
              var found := LookupByName(crud, environmentsUrl, name, codec, net(0));
              var u := UpdateField(crud, environmentsUrl, name, id, key, value, failure, codec, net);
              && found.trace <= u.trace
              && (found.result.Err? ==> u == found)
              && (found.result.Ok? && Field(found.result.value, "id").Ok? ==>
                    u == Effect(PatchField(crud, environmentsUrl, Field(found.result.value, "id").value, key, value,
                                           failure, codec, net(1)).result,
                                found.trace + PatchField(crud, environmentsUrl, Field(found.result.value, "id").value,
                                                         key, value, failure, codec, net(1)).trace))
  {
  }

  // ---------------------------------------------------------------------------
  // Freshest environment and version check

  function RetrieveFreshest(crud: Crud, environmentsUrl: string, ids: string, codec: Codec, wire: Wire): Effect<Json>
  {
    var found := Checked(Get(crud, environmentsUrl + "//get-freshest-test-environment/" + ids, codec, wire),
                         RetrieveFailedMessage);
    if found.result.Err? then found
    else
      var n := Len(found.result.value);
      if n.Err? then Effect(Err(n.error), found.trace)
      else if n.value < 1 then Effect(Err(FatalError(NoFreshestMessage(ids))), found.trace)
      else found
  }

  /** The freshest lookup returns the checked response unchanged when it is non-empty, and raises when it is empty. */
  lemma RetrieveFreshestOutcomes(crud: Crud, environmentsUrl: string, ids: string, codec: Codec, wire: Wire)
    ensures var g := Get(crud, environmentsUrl + "//get-freshest-test-environment/" + ids, codec, wire);
            var f := RetrieveFreshest(crud, environmentsUrl, ids, codec, wire);
            && f.trace == g.trace
            && (f.result.Ok? ==> f.result == g.result && Len(f.result.value).Ok? && Len(f.result.value).value >= 1
                                 && Contains(f.result.value, "error") == Ok(false))
            && (g.result == Ok(Arr([])) ==> f.result == Err(FatalError(NoFreshestMessage(ids))))
  {
    CheckedOutcomes(Get(crud, environmentsUrl + "//get-freshest-test-environment/" + ids, codec, wire),
                    RetrieveFailedMessage);
  }

  /** "true" when the by-name match's `properties.version` is the given version, "false" otherwise. */
  function CheckVersion(crud: Crud, environmentsUrl: string, name: Json, versionForComparison: string,
                        codec: Codec, wire: Wire): Effect<string>
  {
    var found := LookupByName(crud, environmentsUrl, name, codec, wire);
    if found.result.Err? then Effect(Err(found.result.error), found.trace)
    else
      var version := VersionOf(found.result.value);
      if version.Err? then Effect(Err(version.error), found.trace)
      else Effect(Ok(if version.value == Str(versionForComparison) then "true" else "false"), found.trace)
  }

  /** `environment['properties']['version']` */
  function VersionOf(environment: Json): Result<Json>
  {
    var properties :- Field(environment, "properties");
    Field(properties, "version")
  }

  lemma CheckVersionOutcomes(crud: Crud, environmentsUrl: string, name: Json, versionForComparison: string,
                             codec: Codec, wire: Wire)
    ensures var found := LookupByName(crud, environmentsUrl, name, codec, wire);
            var c := CheckVersion(crud, environmentsUrl, name, versionForComparison, codec, wire);
            && (c.result == Ok("true") <==>
                  found.result.Ok? && VersionOf(found.result.value) == Ok(Str(versionForComparison)))
            && (c.result == Ok("false") <==>
                  found.result.Ok? && VersionOf(found.result.value).Ok?
                  && VersionOf(found.result.value) != Ok(Str(versionForComparison)))
  {
  }

  // ---------------------------------------------------------------------------
  // Standby scan

  /** Whether a by-id lookup found a Standby environment; the lookup's error, or the KeyError of `['status']`. */
  function IsStandby(looked: Effect<Json>): Result<bool>
  {
    var environment :- looked.result;
    var status :- Field(environment, "status");
    Ok(status == Str("Standby"))
  }

  /** The by-id lookup of each id, the i-th on the i-th invocation's wire. */
  function Lookups(crud: Crud, environmentsUrl: string, codec: Codec, net: Network): (nat, Json) -> Effect<Json>
  {
    (i: nat, id: Json) => LookupById(crud, environmentsUrl, id, codec, net(i))
  }

  lemma LookupsAt(crud: Crud, environmentsUrl: string, codec: Codec, net: Network, i: nat, id: Json)
    ensures Lookups(crud, environmentsUrl, codec, net)(i, id) == LookupById(crud, environmentsUrl, id, codec, net(i))
  {
  }

  /**
   * Scanning the ids in order with `lookup`: the Standby ids so far, or the
   * first error.
   */
  function Scan(ids: seq<Json>, lookup: (nat, Json) -> Effect<Json>): Effect<seq<Json>>
    decreases |ids|
  {
    if ids == [] then Effect(Ok([]), [])
    else
      var n := |ids| - 1;
      var before := Scan(ids[..n], lookup);
      if before.result.Err? then before
      else
        var looked := lookup(n, ids[n]);
        var standby := IsStandby(looked);
        if standby.Err? then Effect(Err(standby.error), before.trace + looked.trace)
        else Effect(Ok(before.result.value + (if standby.value then [ids[n]] else [])), before.trace + looked.trace)
  }

  /** The ids whose lookup finds a Standby environment, in input order. */
  function StandbyIds(ids: seq<Json>, lookup: (nat, Json) -> Effect<Json>): seq<Json>
    decreases |ids|
  {
    if ids == [] then []
    else
      var n := |ids| - 1;
      StandbyIds(ids[..n], lookup) + (if IsStandby(lookup(n, ids[n])) == Ok(true) then [ids[n]] else [])
  }

  /**
   * A scan succeeds exactly when every lookup yields a status, and then
   * returns exactly the Standby ids in input order.
   */
  lemma {:induction false} ScanFindsStandby(ids: seq<Json>, lookup: (nat, Json) -> Effect<Json>)
    ensures Scan(ids, lookup).result.Ok? <==> forall i :: 0 <= i < |ids| ==> IsStandby(lookup(i, ids[i])).Ok?
    ensures Scan(ids, lookup).result.Ok? ==> Scan(ids, lookup).result.value == StandbyIds(ids, lookup)
    decreases |ids|
  {
    if ids != [] {
      var n := |ids| - 1;
      ScanFindsStandby(ids[..n], lookup);
      assert forall i :: 0 <= i < n ==> ids[..n][i] == ids[i];
    }
  }

  /** The position of the first id from i on whose lookup yields no status; |ids| when every one does. */
  function FirstFailure(ids: seq<Json>, lookup: (nat, Json) -> Effect<Json>, i: nat): (r: nat)
    requires i <= |ids|
    ensures i <= r <= |ids|
    decreases |ids| - i
  {
    if i == |ids| then |ids|
    else if IsStandby(lookup(i, ids[i])).Err? then i
    else FirstFailure(ids, lookup, i + 1)
  }

  /** Every lookup before FirstFailure yields a status, and the one at it, if any, does not. */
  lemma {:induction false} FirstFailureSpec(ids: seq<Json>, lookup: (nat, Json) -> Effect<Json>, i: nat)
    requires i <= |ids|
    ensures var r := FirstFailure(ids, lookup, i);
            && (forall j :: i <= j < r ==> IsStandby(lookup(j, ids[j])).Ok?)
            && (r < |ids| ==> IsStandby(lookup(r, ids[r])).Err?)
    decreases |ids| - i
  {
    if i < |ids| && IsStandby(lookup(i, ids[i])).Ok? {
      FirstFailureSpec(ids, lookup, i + 1);
    }
  }

  /** FirstFailure is the failing lookup after the ones that yield a status. */
  lemma FirstFailureIs(ids: seq<Json>, lookup: (nat, Json) -> Effect<Json>, i: nat, k: nat)
    requires i <= k < |ids|
    requires forall j :: i <= j < k ==> IsStandby(lookup(j, ids[j])).Ok?
    requires IsStandby(lookup(k, ids[k])).Err?
    ensures FirstFailure(ids, lookup, i) == k
    decreases k - i
  {
    if i < k {
      FirstFailureIs(ids, lookup, i + 1, k);
    }
  }

  /** A lookup that yields no status after a prefix that scanned cleanly is the first failure. */
  lemma FailsAfterScannedPrefix(ids: seq<Json>, lookup: (nat, Json) -> Effect<Json>, i: nat)
    requires i < |ids|
    requires Scan(ids[..i], lookup).result.Ok?
    requires IsStandby(lookup(i, ids[i])).Err?
    ensures FirstFailure(ids, lookup, 0) == i
  {
    ScanFindsStandby(ids[..i], lookup);
    forall j | 0 <= j < i
      ensures IsStandby(lookup(j, ids[j])).Ok?
    {
      assert ids[..i][j] == ids[j];
    }
    FirstFailureIs(ids, lookup, 0, i);
  }

  /** A scan fails exactly when some lookup yields no status, that is when FirstFailure is a position. */
  lemma ScanFailsAtFirstFailure(ids: seq<Json>, lookup: (nat, Json) -> Effect<Json>)
    ensures Scan(ids, lookup).result.Err? <==> FirstFailure(ids, lookup, 0) < |ids|
  {
    ScanFindsStandby(ids, lookup);
    FirstFailureSpec(ids, lookup, 0);
  }

  /**
   * What `retrieve_standby_test_environments` returns or raises, and its
   * trace: the scan's outcome, except that a scan finding no Standby id raises.
   */
  function StandbyRetrieval(ids: seq<Json>, lookup: (nat, Json) -> Effect<Json>): Effect<seq<Json>>
  {
    var s := Scan(ids, lookup);
    if s.result.Ok? && s.result.value == [] then Effect(Err(FatalError(NoStandbyMessage)), s.trace) else s
  }

  /**
   * The id the loop leaves in `testEnvironmentId`: the one whose lookup
   * failed, else the last id, else (no ids) the id stored before.
   */
  function StoredId(ids: seq<Json>, lookup: (nat, Json) -> Effect<Json>, before: Json): Json
  {
    if ids == [] then before
    else
      var k := FirstFailure(ids, lookup, 0);
      if k < |ids| then ids[k] else ids[|ids| - 1]
  }

  /**
   * The retrieval fails with the first failed lookup's error, raises when
   * no id is Standby, and otherwise returns exactly the Standby ids; the
   * stored id is one of the ids, the failing one after an error and the
   * last one after a complete scan.
   */
  lemma StandbyRetrievalOutcomes(ids: seq<Json>, lookup: (nat, Json) -> Effect<Json>, before: Json)
    ensures var r, k := StandbyRetrieval(ids, lookup), FirstFailure(ids, lookup, 0);
            && r.trace == Scan(ids, lookup).trace
            && (k < |ids| <==> Scan(ids, lookup).result.Err?)
            && (k < |ids| ==> r == Scan(ids, lookup))
            && (k == |ids| && StandbyIds(ids, lookup) == [] ==> r.result == Err(FatalError(NoStandbyMessage)))
            && (k == |ids| && StandbyIds(ids, lookup) != [] ==> r.result == Ok(StandbyIds(ids, lookup)))
    ensures var id, k := StoredId(ids, lookup, before), FirstFailure(ids, lookup, 0);
            && (ids == [] ==> id == before)
            && (ids != [] ==> id in ids)
            && (k < |ids| ==> id == ids[k])
            && (k == |ids| && ids != [] ==> id == ids[|ids| - 1])
  {
    ScanFindsStandby(ids, lookup);
    ScanFailsAtFirstFailure(ids, lookup);
  }

  /** An id is among the Standby ids exactly when its lookup, at some position of it, finds Standby. */
  lemma {:induction false} StandbyIdsMembers(ids: seq<Json>, lookup: (nat, Json) -> Effect<Json>, x: Json)
    ensures x in StandbyIds(ids, lookup) <==>
              exists i :: 0 <= i < |ids| && ids[i] == x && IsStandby(lookup(i, ids[i])) == Ok(true)
    decreases |ids|
  {
    if ids != [] {
      var n := |ids| - 1;
      var pre := ids[..n];
      StandbyIdsMembers(pre, lookup, x);
      var last := IsStandby(lookup(n, ids[n])) == Ok(true) && ids[n] == x;
      InAppend(x, StandbyIds(pre, lookup), if IsStandby(lookup(n, ids[n])) == Ok(true) then [ids[n]] else []);
      if x in StandbyIds(pre, lookup) {
        var i :| 0 <= i < |pre| && pre[i] == x && IsStandby(lookup(i, pre[i])) == Ok(true);
        assert ids[i] == pre[i];
      } else if last {
        assert 0 <= n < |ids| && ids[n] == x;
      } else {
        forall i | 0 <= i < |ids| && ids[i] == x
          ensures IsStandby(lookup(i, ids[i])) != Ok(true)
        {
          if i < n {
            assert pre[i] == ids[i];
          }
        }
      }
    }
  }

  lemma InAppend(x: Json, a: seq<Json>, b: seq<Json>)
    ensures x in a + b <==> x in a || x in b
  {
  }

  /** Scanning one more id. */
  lemma ScanStep(ids: seq<Json>, lookup: (nat, Json) -> Effect<Json>, i: nat)
    requires i < |ids|
    requires Scan(ids[..i], lookup).result.Ok?
    ensures var before := Scan(ids[..i], lookup);
            var looked := lookup(i, ids[i]);
            Scan(ids[..i + 1], lookup)
            == if IsStandby(looked).Err? then Effect(Err(IsStandby(looked).error), before.trace + looked.trace)
               else Effect(Ok(before.result.value + (if IsStandby(looked).value then [ids[i]] else [])),
                           before.trace + looked.trace)
  {
    assert ids[..i + 1][..i] == ids[..i];
    assert ids[..i + 1][i] == ids[i];
  }

  /**
   * One more id in a scan that has not failed: a failed lookup or a missing
   * status ends the retrieval with that error and leaves that id stored,
   * otherwise the id is kept exactly when its status is Standby.
   */
  lemma ScanAdvance(ids: seq<Json>, lookup: (nat, Json) -> Effect<Json>, i: nat,
                    standby: seq<Json>, trace: seq<Event>, before: Json, looked: Effect<Json>)
    requires i < |ids|
    requires Scan(ids[..i], lookup) == Effect(Ok(standby), trace)
    requires lookup(i, ids[i]) == looked
    ensures && (looked.result.Err? ==>
                  && StandbyRetrieval(ids, lookup) == Effect(Err(looked.result.error), trace + looked.trace)
                  && StoredId(ids, lookup, before) == ids[i])
            && (looked.result.Ok? && Field(looked.result.value, "status").Err? ==>
                  && StandbyRetrieval(ids, lookup)
                     == Effect(Err(Field(looked.result.value, "status").error), trace + looked.trace)
                  && StoredId(ids, lookup, before) == ids[i])
            && (looked.result.Ok? && Field(looked.result.value, "status") == Ok(Str("Standby")) ==>
                  Scan(ids[..i + 1], lookup) == Effect(Ok(standby + [ids[i]]), trace + looked.trace))
            && (looked.result.Ok? && Field(looked.result.value, "status").Ok?
                && Field(looked.result.value, "status").value != Str("Standby") ==>
                  Scan(ids[..i + 1], lookup) == Effect(Ok(standby), trace + looked.trace))
  {
    ScanStep(ids, lookup, i);
    assert standby + [] == standby;
    if IsStandby(looked).Err? {
      ScanStopsAtError(ids, lookup, i + 1);
      FailsAfterScannedPrefix(ids, lookup, i);
    }
  }

  /** A scan that went through every id decides the retrieval and leaves the last id stored. */
  lemma ScanCompletes(ids: seq<Json>, lookup: (nat, Json) -> Effect<Json>,
                      standby: seq<Json>, trace: seq<Event>, before: Json)
    requires Scan(ids, lookup) == Effect(Ok(standby), trace)
    ensures StandbyRetrieval(ids, lookup)
            == if standby == [] then Effect(Err(FatalError(NoStandbyMessage)), trace) else Effect(Ok(standby), trace)
    ensures StoredId(ids, lookup, before) == if ids == [] then before else ids[|ids| - 1]
  {
    ScanFailsAtFirstFailure(ids, lookup);
  }

  /** Once a prefix of the scan fails, the whole scan has that outcome. */
  lemma {:induction false} ScanStopsAtError(ids: seq<Json>, lookup: (nat, Json) -> Effect<Json>, k: nat)
    requires k <= |ids|
    requires Scan(ids[..k], lookup).result.Err?
    ensures Scan(ids, lookup) == Scan(ids[..k], lookup)
    decreases |ids| - k
  {
    if k < |ids| {
      assert ids[..k + 1][..k] == ids[..k];
      ScanStopsAtError(ids, lookup, k + 1);
    } else {
      assert ids[..k] == ids;
    }
  }

  // ---------------------------------------------------------------------------
  // The operator

  class TestEnvironments {
    const crud: Crud
    const testEnvironmentUrl: string
    const rptFunctionsUrl: string
    /** The environment's name, or `Null` for Python's None. */
    var testEnvironmentName: Json
    /** The environment's id, or `Null` for Python's None. */
    var testEnvironmentId: Json

    constructor (config: Config, devMode: bool, retryTimeout: int, name: Json := Null, id: Json := Null)
      ensures crud == NewCrud(config, devMode, retryTimeout)
      ensures testEnvironmentUrl == crud.targetHost + "/api/test-environments"
      ensures rptFunctionsUrl == crud.targetHost + "/api/pipeline-functions"
      ensures testEnvironmentName == name && testEnvironmentId == id
    {
      crud := NewCrud(config, devMode, retryTimeout);
      testEnvironmentUrl := NewCrud(config, devMode, retryTimeout).targetHost + "/api/test-environments";
      rptFunctionsUrl := NewCrud(config, devMode, retryTimeout).targetHost + "/api/pipeline-functions";
      testEnvironmentName := name;
      testEnvironmentId := id;
    }

    function RetrieveTestEnvironmentByName(codec: Codec, wire: Wire): Effect<Json>
      reads this
    {
      LookupByName(crud, testEnvironmentUrl, testEnvironmentName, codec, wire)
    }

    function RetrieveTestEnvironmentById(codec: Codec, wire: Wire): Effect<Json>
      reads this
    {
      LookupById(crud, testEnvironmentUrl, testEnvironmentId, codec, wire)
    }

    function UnreserveTestEnvironment(codec: Codec, wire: Wire): Effect<Json>
      reads this
    {
      ChangeState(crud, rptFunctionsUrl, ReservedToAvailable, testEnvironmentName, UnreserveFailedMessage, codec, wire)
    }

    function QuarantineTestEnvironment(codec: Codec, wire: Wire): Effect<Json>
      reads this
    {
      ChangeState(crud, rptFunctionsUrl, ReservedToQuarantined, testEnvironmentName, QuarantineFailedMessage, codec, wire)
    }

    function SetStandbyTestEnvironmentToAvailable(codec: Codec, wire: Wire): Effect<Json>
      reads this
    {
      ChangeState(crud, rptFunctionsUrl, StandbyToAvailable, testEnvironmentName, AvailableFailedMessage, codec, wire)
    }

    /** `update_test_environment_stage(pipeline_stage, test_environment_id=None)` */
    function UpdateTestEnvironmentStage(pipelineStage: Json, id: Json, codec: Codec, net: Network): Effect<Json>
      reads this
    {
      UpdateField(crud, testEnvironmentUrl, testEnvironmentName, id, "stage", pipelineStage, StageFailedMessage, codec, net)
    }

    /** `update_test_environment_pool(new_list_of_pools, test_environment_id=None)` */
    function UpdateTestEnvironmentPool(newListOfPools: Json, id: Json, codec: Codec, net: Network): Effect<Json>
      reads this
    {
      UpdateField(crud, testEnvironmentUrl, testEnvironmentName, id, "pools", newListOfPools, PoolsFailedMessage, codec, net)
    }

    function RetrieveFreshestTestEnvironment(ids: string, codec: Codec, wire: Wire): Effect<Json>
      reads this
    {
      RetrieveFreshest(crud, testEnvironmentUrl, ids, codec, wire)
    }

    function CheckIfTestEnvironmentOnSpecifiedVersion(versionForComparison: string, codec: Codec, wire: Wire): Effect<string>
      reads this
    {
      CheckVersion(crud, testEnvironmentUrl, testEnvironmentName, versionForComparison, codec, wire)
    }

    /**
     * `retrieve_standby_test_environments`: looks up each id by id, keeping
     * the Standby ones; each lookup first stores its id in
     * `testEnvironmentId`. No Standby id raises.
     */
    method RetrieveStandbyTestEnvironments(ids: seq<Json>, codec: Codec, net: Network)
      returns (result: Result<seq<Json>>, trace: seq<Event>)
      modifies this
      ensures Effect(result, trace) == StandbyRetrieval(ids, Lookups(crud, testEnvironmentUrl, codec, net))
      ensures testEnvironmentId == StoredId(ids, Lookups(crud, testEnvironmentUrl, codec, net), old(testEnvironmentId))
      ensures testEnvironmentName == old(testEnvironmentName)
    {
      ghost var lookup := Lookups(crud, testEnvironmentUrl, codec, net);
      var standby: seq<Json> := [];
      trace := [];
      var i := 0;
      while i < |ids|
        invariant 0 <= i <= |ids|
        invariant lookup == Lookups(crud, testEnvironmentUrl, codec, net)
        invariant Scan(ids[..i], lookup) == Effect(Ok(standby), trace)
        invariant i == 0 ==> testEnvironmentId == old(testEnvironmentId)
        invariant i > 0 ==> testEnvironmentId == ids[i - 1]
        invariant testEnvironmentName == old(testEnvironmentName)
      {
        testEnvironmentId := ids[i];
        var retrieved := RetrieveTestEnvironmentById(codec, net(i));
        LookupsAt(crud, testEnvironmentUrl, codec, net, i, ids[i]);
        ScanAdvance(ids, lookup, i, standby, trace, old(testEnvironmentId), retrieved);
        trace := trace + retrieved.trace;
        if retrieved.result.Err? {
          return retrieved.result.PropagateFailure(), trace;
        }
        var status := Field(retrieved.result.value, "status");
        if status.Err? {
          return Err(status.error), trace;
        }
        if status.value == Str("Standby") {
          standby := standby + [ids[i]];
        }
        i := i + 1;
      }
      assert ids[..|ids|] == ids;
      ScanCompletes(ids, lookup, standby, trace, old(testEnvironmentId));
      if |standby| < 1 {
        return Err(FatalError(NoStandbyMessage)), trace;
      }
      result := Ok(standby);
    }
  }
}
