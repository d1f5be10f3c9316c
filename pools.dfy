/**
 * The operator for the Pools service (rptrc/src/operators/pools.py): the
 * test environments assigned to a pool, and the pool-list update that swaps
 * one pool for another in place.
 */
module Pools {
  import opened Wrappers
  import opened Exceptions
  import opened Json
  import opened RequestRetry
  import opened Crud
  import opened Base

  const RetrieveFailedMessage: string := "Failed to retrieve test environments."

  function PoolNotFoundMessage(poolName: string): string
  {
    "Pool \"" + poolName + "\" does not exist!"
  }

  function NoneAssignedMessage(poolName: string): string
  {
    "There are no test environments assigned to pool \"" + poolName + "\"!"
  }

  function RemoveFailedMessage(poolToRemove: string): string
  {
    "Unable to remove " + poolToRemove + " from list_of_pools as it is not currently in the list."
  }

  function AddFailedMessage(poolToAdd: string): string
  {
    "Unable to add " + poolToAdd + " to list_of_pools as it is already in the list."
  }

  /** The operator's state, fixed at construction. */
  datatype Pools = Pools(crud: Crud, poolName: string, poolUrl: string, rptFunctionsUrl: string)

  function NewPools(config: Config, devMode: bool, retryTimeout: int, poolName: string): (p: Pools)
    ensures p.crud == NewCrud(config, devMode, retryTimeout)
    ensures p.poolName == poolName
    ensures p.poolUrl == DetermineTargetHost(config, devMode) + "/api/pools"
    ensures p.rptFunctionsUrl == DetermineTargetHost(config, devMode) + "/api/pipeline-functions"
  {
    var crud := NewCrud(config, devMode, retryTimeout);
    Pools(crud, poolName, crud.targetHost + "/api/pools", crud.targetHost + "/api/pipeline-functions")
  }

  // ---------------------------------------------------------------------------
  // Test environments by pool

  /**
   * What `retrieve_test_environments_by_pool` makes of a checked response:
   * the first match's `assignedTestEnvironmentIds`, when there is a match and
   * the list is not empty. A missing pool is reported under the stored name,
   * an empty pool under the argument.
   */
  function SelectAssigned(response: Json, storedName: string, poolName: string): (r: Result<Json>)
    ensures r.Ok? <==>
              && Len(response).Ok? && Len(response).value >= 1
              && First(response).Ok?
              && Field(First(response).value, "assignedTestEnvironmentIds").Ok?
              && Len(Field(First(response).value, "assignedTestEnvironmentIds").value).Ok?
              && Len(Field(First(response).value, "assignedTestEnvironmentIds").value).value >= 1
    ensures r.Ok? ==> r.value == Field(First(response).value, "assignedTestEnvironmentIds").value
    ensures Len(response) == Ok(0) ==> r == Err(FatalError(PoolNotFoundMessage(storedName)))
    ensures && Len(response).Ok? && Len(response).value >= 1 && First(response).Ok?
            && Field(First(response).value, "assignedTestEnvironmentIds") == Ok(Arr([]))
            ==> r == Err(FatalError(NoneAssignedMessage(poolName)))
  {
    var n :- Len(response);
    if n < 1 then Err(FatalError(PoolNotFoundMessage(storedName)))
    else
      var first :- First(response);
      var ids :- Field(first, "assignedTestEnvironmentIds");
      var m :- Len(ids);
      if m < 1 then Err(FatalError(NoneAssignedMessage(poolName))) else Ok(ids)
  }

  function RetrieveTestEnvironmentsByPool(pools: Pools, poolName: string, codec: Codec, wire: Wire): Effect<Json>
  {
    var found := Checked(Get(pools.crud, pools.poolUrl + "//name/" + poolName, codec, wire), RetrieveFailedMessage);
    if found.result.Err? then found
    else Effect(SelectAssigned(found.result.value, pools.poolName, poolName), found.trace)
  }

  /**
   * One GET of `<pool url>//name/<pool name>`; the 'error' check comes
   * before the pool is inspected, and a retrieval that succeeds returns the
   * pool's assigned ids.
   */
  lemma RetrieveTestEnvironmentsByPoolOutcomes(pools: Pools, poolName: string, codec: Codec, wire: Wire)
    ensures var g := Get(pools.crud, pools.poolUrl + "//name/" + poolName, codec, wire);
            var r := RetrieveTestEnvironmentsByPool(pools, poolName, codec, wire);
            && r.trace == g.trace
            && (forall x :: x in CallsIn(r.trace) ==>
                  x == HttpCall("GET", pools.poolUrl + "//name/" + poolName, None, 10, pools.crud.proxy, false))
            && (g.result.Ok? && Contains(g.result.value, "error") == Ok(true) ==>
                  r.result == Err(FatalError(ErrorFoundMessage(RetrieveFailedMessage))))
            && (r.result.Ok? ==>
                  g.result.Ok? && Contains(g.result.value, "error") == Ok(false)
                  && r.result == SelectAssigned(g.result.value, pools.poolName, poolName))
  {
    var url := pools.poolUrl + "//name/" + poolName;
    HelperCalls(pools.crud, url, "", codec, wire);
    CheckedOutcomes(Get(pools.crud, url, codec, wire), RetrieveFailedMessage);
  }

  /** The three cases the pool tests exercise. */
  lemma SelectAssignedExamples()
    ensures SelectAssigned(Arr([Obj([("id", Str("876asd9fh")),
                                     ("assignedTestEnvironmentIds", Arr([Str("9876asrb12")])),
                                     ("poolName", Str("testPool"))])]), "testPool", "testPool")
            == Ok(Arr([Str("9876asrb12")]))
    ensures SelectAssigned(Arr([]), "testPool", "testPool") == Err(FatalError("Pool \"testPool\" does not exist!"))
    ensures SelectAssigned(Arr([Obj([("assignedTestEnvironmentIds", Arr([]))])]), "testPool", "testPool")
            == Err(FatalError("There are no test environments assigned to pool \"testPool\"!"))
  {
    SelectAssignedFound();
    SelectAssignedNoPool();
    SelectAssignedEmptyPool();
  }

  lemma SelectAssignedFound()
    ensures SelectAssigned(Arr([Obj([("id", Str("876asd9fh")),
                                     ("assignedTestEnvironmentIds", Arr([Str("9876asrb12")])),
                                     ("poolName", Str("testPool"))])]), "testPool", "testPool")
            == Ok(Arr([Str("9876asrb12")]))
  {
    var pool := Obj([("id", Str("876asd9fh")), ("assignedTestEnvironmentIds", Arr([Str("9876asrb12")])),
                     ("poolName", Str("testPool"))]);
    assert Field(pool, "assignedTestEnvironmentIds") == Ok(Arr([Str("9876asrb12")]));
  }

  lemma SelectAssignedNoPool()
    ensures SelectAssigned(Arr([]), "testPool", "testPool") == Err(FatalError("Pool \"testPool\" does not exist!"))
  {
    assert Len(Arr([])) == Ok(0);
    assert PoolNotFoundMessage("testPool") == "Pool \"testPool\" does not exist!";
  }

  lemma SelectAssignedEmptyPool()
    ensures SelectAssigned(Arr([Obj([("assignedTestEnvironmentIds", Arr([]))])]), "testPool", "testPool")
            == Err(FatalError("There are no test environments assigned to pool \"testPool\"!"))
  {
    assert Field(Obj([("assignedTestEnvironmentIds", Arr([]))]), "assignedTestEnvironmentIds") == Ok(Arr([]));
    assert NoneAssignedMessage("testPool") == "There are no test environments assigned to pool \"testPool\"!";
  }

  // ---------------------------------------------------------------------------
  // Pool-list update

  /** The position of the first occurrence of `x`. */
  function IndexOf(s: seq<string>, x: string): (i: nat)
    requires x in s
    ensures i < |s| && s[i] == x && x !in s[..i]
  {
    if s[0] == x then 0
    else
      var i := 1 + IndexOf(s[1..], x);
      assert s[..i] == [s[0]] + s[1..][..i - 1];
      i
  }

  /** `list.remove(x)`: the list without its first `x`. */
  function RemoveFirst(s: seq<string>, x: string): seq<string>
    requires x in s
  {
    s[..IndexOf(s, x)] + s[IndexOf(s, x) + 1..]
  }

  /**
   * `update_list_of_pools` on the list's contents: the remove check, then the
   * add check, then the first `poolToRemove` dropped and `poolToAdd` appended.
   */
  function UpdatedPools(s: seq<string>, poolToRemove: string, poolToAdd: string): Result<seq<string>>
  {
    if poolToRemove !in s then Err(FatalError(RemoveFailedMessage(poolToRemove)))
    else if poolToAdd in s then Err(FatalError(AddFailedMessage(poolToAdd)))
    else Ok(RemoveFirst(s, poolToRemove) + [poolToAdd])
  }

  /**
   * An update that succeeds keeps the length, exchanges one `poolToRemove`
   * for `poolToAdd` in the multiset of pools, ends with `poolToAdd` and keeps
   * the order of the other pools.
   */
  lemma UpdatedPoolsContents(s: seq<string>, poolToRemove: string, poolToAdd: string)
    requires UpdatedPools(s, poolToRemove, poolToAdd).Ok?
    ensures var t := UpdatedPools(s, poolToRemove, poolToAdd).value;
            && |t| == |s|
            && multiset(t) == multiset(s) - multiset{poolToRemove} + multiset{poolToAdd}
            && t[|t| - 1] == poolToAdd
            && t[..|t| - 1] == RemoveFirst(s, poolToRemove)
            && poolToAdd in t
  {
    var i := IndexOf(s, poolToRemove);
    assert s == s[..i] + [s[i]] + s[i + 1..];
    assert multiset(s) == multiset(s[..i]) + multiset{poolToRemove} + multiset(s[i + 1..]);
  }

  /** Removing a pool equal to the one added can never succeed. */
  lemma SamePoolFails(s: seq<string>, pool: string)
    ensures UpdatedPools(s, pool, pool)
            == if pool in s then Err(FatalError(AddFailedMessage(pool))) else Err(FatalError(RemoveFailedMessage(pool)))
  {
  }

  /**
   * Repeating an update that succeeded fails: with the remove error when no
   * `poolToRemove` is left, otherwise with the add error.
   */
  lemma RepeatedUpdateFails(s: seq<string>, poolToRemove: string, poolToAdd: string)
    requires UpdatedPools(s, poolToRemove, poolToAdd).Ok?
    ensures var t := UpdatedPools(s, poolToRemove, poolToAdd).value;
            UpdatedPools(t, poolToRemove, poolToAdd)
            == if poolToRemove in t then Err(FatalError(AddFailedMessage(poolToAdd)))
               else Err(FatalError(RemoveFailedMessage(poolToRemove)))
  {
    UpdatedPoolsContents(s, poolToRemove, poolToAdd);
  }

  /** The three cases the pool tests exercise. */
  lemma UpdatedPoolsExamples()
    ensures UpdatedPools(["a", "b", "c"], "a", "d") == Ok(["b", "c", "d"])
    ensures UpdatedPools(["a", "b", "c"], "not_in_pool", "d")
            == Err(FatalError(RemoveFailedMessage("not_in_pool")))
    ensures UpdatedPools(["i_already_exist_in_pool", "b", "c"], "b", "i_already_exist_in_pool")
            == Err(FatalError(AddFailedMessage("i_already_exist_in_pool")))
  {
    assert IndexOf(["a", "b", "c"], "a") == 0;
    assert "d" !in ["a", "b", "c"] by {
      assert "d"[0] != "a"[0] && "d"[0] != "b"[0] && "d"[0] != "c"[0];
    }
    assert ["a", "b", "c"][..0] + ["a", "b", "c"][1..] + ["d"] == ["b", "c", "d"];
    assert "not_in_pool" !in ["a", "b", "c"] by {
      assert "not_in_pool"[0] != "a"[0] && "not_in_pool"[0] != "b"[0] && "not_in_pool"[0] != "c"[0];
    }
    assert "b" in ["i_already_exist_in_pool", "b", "c"];
  }

  /**
   * `update_list_of_pools`: checks both pools before any change, then
   * removes the first `poolToRemove` by shifting the rest left and writes
   * `poolToAdd` into the freed last slot; the same list is returned.
   */
  method UpdateListOfPools(listOfPools: array<string>, poolToRemove: string, poolToAdd: string)
    returns (r: Result<array<string>>)
    modifies listOfPools
    ensures var u := UpdatedPools(old(listOfPools[..]), poolToRemove, poolToAdd);
            && (u.Err? ==> r == Err(u.error) && listOfPools[..] == old(listOfPools[..]))
            && (u.Ok? ==> r == Ok(listOfPools) && listOfPools[..] == u.value)
  {
    if poolToRemove !in listOfPools[..] {
      return Err(FatalError(RemoveFailedMessage(poolToRemove)));
    }
    if poolToAdd in listOfPools[..] {
      return Err(FatalError(AddFailedMessage(poolToAdd)));
    }
    ghost var s := listOfPools[..];
    var n := listOfPools.Length;
    var i := 0;
    while listOfPools[i] != poolToRemove
      invariant 0 <= i < n
      invariant poolToRemove !in s[..i]
      invariant poolToRemove in s[i..]
      decreases n - i
    {
      assert s[i + 1..] == s[i..][1..];
      assert s[..i + 1] == s[..i] + [s[i]];
      i := i + 1;
    }
    assert IndexOf(s, poolToRemove) == i;
    RemoveAtAndAppend(listOfPools, i, poolToAdd);
    r := Ok(listOfPools);
  }

  /**
   * `list.remove` of the element at i followed by `list.append(x)`, on a
   * buffer whose length the pair leaves unchanged: the later elements move
   * down one place and x takes the last one.
   */
  method RemoveAtAndAppend(a: array<string>, i: nat, x: string)
    requires i < a.Length
    modifies a
    ensures a[..] == old(a[..i]) + old(a[i + 1..]) + [x]
  {
    ghost var s := a[..];
    var n := a.Length;
    var j := i;
    while j < n - 1
      invariant i <= j <= n - 1 && |s| == n
      invariant forall k :: 0 <= k < i ==> a[k] == s[k]
      invariant forall k :: i <= k < j ==> a[k] == s[k + 1]
      invariant forall k :: j <= k < n ==> a[k] == s[k]
    {
      a[j] := a[j + 1];
      j := j + 1;
    }
    a[n - 1] := x;
    assert forall k :: 0 <= k < n ==> a[k] == (s[..i] + s[i + 1..] + [x])[k];
  }
}
