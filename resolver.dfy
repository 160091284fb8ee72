/**
 * The executor resolver of the executor service: the executors it has made,
 * one per cardinalities string, each with a client-visible id and a count of
 * the clients holding it. The state is a `Registry` value, each operation a
 * function from the old registry to its result and the new registry, and the
 * class `ExecutorResolver` keeps the registry in fields its methods update.
 */
module Resolver {
  import opened Wrappers
  import opened Decimal
  import opened StatusCodes
  import opened ServiceCodec

  /** An executor the factory made; only its identity matters here. */
  datatype Executor = Executor(handle: nat)

  /** An executor, how many clients hold it, and the id they know it by. */
  datatype ExecutorEntry = ExecutorEntry(executor: Executor, remoteRefcount: int, executorId: string)

  /**
   * `executors` maps a cardinalities string to its entry, `keysToCardinalities`
   * maps an executor id back to its cardinalities string, and `executorIndex`
   * counts the executors made so far.
   */
  datatype Registry = Registry(executors: map<string, ExecutorEntry>,
                               keysToCardinalities: map<string, string>,
                               executorIndex: nat)

  const EmptyRegistry: Registry := Registry(map[], map[], 0)

  /** The id of the executor made as number `index` for `cardinalities` by service `serviceId`. */
  function MintKey(cardinalities: string, serviceId: string, index: nat): string
  {
    cardinalities + "/" + serviceId + "/" + NatToString(index)
  }

  /**
   * A minted id is the two names, each followed by a `/`, and then decimal
   * digits that read back as the index.
   */
  lemma MintKeyReadsBack(cardinalities: string, serviceId: string, index: nat)
    ensures var key, n := MintKey(cardinalities, serviceId, index), |cardinalities| + |serviceId| + 2;
            && n < |key| && key[..n] == cardinalities + "/" + serviceId + "/"
            && AllDigits(key[n..]) && DigitsValue(key[n..]) == index
  {
    var prefix := cardinalities + "/" + serviceId + "/";
    DigitsValueOfNatToString(index);
    assert MintKey(cardinalities, serviceId, index)[|prefix|..] == NatToString(index);
  }

  /** The position of the last `c` in `s`. */
  function LastIndexOf(s: string, c: char): (i: nat)
    requires c in s
    ensures i < |s| && s[i] == c
  {
    if s[|s| - 1] == c then |s| - 1 else LastIndexOf(s[..|s| - 1], c)
  }

  lemma {:induction false} LastIndexOfSeparator(x: string, y: string, sep: char)
    requires sep !in y
    ensures sep in x + [sep] + y && LastIndexOf(x + [sep] + y, sep) == |x|
    decreases |y|
  {
    var s := x + [sep] + y;
    assert s[|x|] == sep;
    if |y| > 0 {
      assert s[..|s| - 1] == x + [sep] + y[..|y| - 1];
      LastIndexOfSeparator(x, y[..|y| - 1], sep);
    }
  }

  /** The index an executor id was minted with can be read back from its last component. */
  lemma MintKeyDeterminesIndex(c1: string, s1: string, i: nat, c2: string, s2: string, j: nat)
    requires MintKey(c1, s1, i) == MintKey(c2, s2, j)
    ensures i == j
  {
    var k := MintKey(c1, s1, i);
    var x1, x2 := c1 + "/" + s1, c2 + "/" + s2;
    var d1, d2 := NatToString(i), NatToString(j);
    assert '/' !in d1 && '/' !in d2;
    assert k == x1 + ['/'] + d1 == x2 + ['/'] + d2;
    LastIndexOfSeparator(x1, d1, '/');
    LastIndexOfSeparator(x2, d2, '/');
    assert d1 == k[|x1| + 1..] == d2;
    NatToStringInjective(i, j);
  }

  /** `key` is the id minted for `cardinalities` under some index below `index`. */
  predicate MintedBefore(key: string, cardinalities: string, serviceId: string, index: nat)
  {
    exists i: nat | i < index :: key == MintKey(cardinalities, serviceId, i)
  }

  /**
   * The two maps describe the same executors: every id leads to an entry that
   * carries that id, every entry's id leads back to it and is held by at
   * least one client, and every id was minted by this service earlier.
   */
  predicate Consistent(serviceId: string, r: Registry)
  {
    && (forall key | key in r.keysToCardinalities ::
          && r.keysToCardinalities[key] in r.executors
          && r.executors[r.keysToCardinalities[key]].executorId == key
          && MintedBefore(key, r.keysToCardinalities[key], serviceId, r.executorIndex))
    && (forall card | card in r.executors ::
          && r.executors[card].executorId in r.keysToCardinalities
          && r.keysToCardinalities[r.executors[card].executorId] == card
          && r.executors[card].remoteRefcount >= 1)
  }

  /** `std::map::insert`: adds the pair unless the key is already there. */
  function MapInsert<K, V>(m: map<K, V>, k: K, v: V): (r: map<K, V>)
    ensures k in m ==> r == m
    ensures k !in m ==> r == m[k := v]
  {
    if k in m then m else m[k := v]
  }

  function NoExecutorForId(methodName: string, key: string): string
  {
    "Error evaluating `ExecutorService::" + methodName + "`. No executor found for ID: '" + key + "'."
  }

  function NoExecutorForCardinalities(cardinalities: string, key: string): string
  {
    "No executor found for cardinalities string: " + cardinalities + ", referred to by executor id " + key
  }

  // ----- ExecutorForId -----

  /**
   * The entry an executor id names: `FAILED_PRECONDITION` when the id is
   * unknown (the client must get a new executor before retrying), `INTERNAL`
   * when the id is known but its cardinalities have no entry.
   */
  function Lookup(r: Registry, key: string, methodName: string): (res: StatusOr<ExecutorEntry>)
    ensures res.Success? <==> key in r.keysToCardinalities && r.keysToCardinalities[key] in r.executors
    ensures res.Success? ==> res.value == r.executors[r.keysToCardinalities[key]]
    ensures key !in r.keysToCardinalities ==> res == Failure(Status(FailedPrecondition, NoExecutorForId(methodName, key)))
    ensures res.Failure? && key in r.keysToCardinalities ==>
              res.error == Status(Internal, NoExecutorForCardinalities(r.keysToCardinalities[key], key))
  {
    if key !in r.keysToCardinalities then
      var e := Status(FailedPrecondition, NoExecutorForId(methodName, key));
      assert e.code == FailedPrecondition;
      Failure(e)
    else
      var card := r.keysToCardinalities[key];
      if card !in r.executors then
        var e := Status(Internal, NoExecutorForCardinalities(card, key));
        assert e.code == Internal;
        Failure(e)
      else Success(r.executors[card])
  }

  /** In a consistent registry an id resolves exactly when it is known, to the entry carrying it; `INTERNAL` never happens. */
  lemma LookupConsistent(serviceId: string, r: Registry, key: string, methodName: string)
    requires Consistent(serviceId, r)
    ensures var res := Lookup(r, key, methodName);
            && (res.Success? <==> key in r.keysToCardinalities)
            && (res.Success? ==> res.value.executorId == key && res.value.remoteRefcount >= 1)
            && (res.Failure? ==> res.error.code == FailedPrecondition)
  {
  }

  /**
   * `key` no longer names an executor and can never be minted again: if it
   * has the form of a minted id at all, its index is already behind the counter.
   */
  ghost predicate Retired(serviceId: string, r: Registry, key: string)
  {
    && key !in r.keysToCardinalities
    && forall c: string, j: nat | key == MintKey(c, serviceId, j) :: j < r.executorIndex
  }

  /** A retired id answers `FAILED_PRECONDITION`. */
  lemma RetiredUnresolvable(serviceId: string, r: Registry, key: string, methodName: string)
    requires Retired(serviceId, r, key)
    ensures Lookup(r, key, methodName).Failure? && Lookup(r, key, methodName).error.code == FailedPrecondition
  {
  }

  /** Every id of a consistent registry was minted behind the counter. */
  lemma KnownIdMintedBehind(serviceId: string, r: Registry, key: string, c: string, j: nat)
    requires Consistent(serviceId, r) && key in r.keysToCardinalities && key == MintKey(c, serviceId, j)
    ensures j < r.executorIndex
  {
    var i: nat :| i < r.executorIndex && key == MintKey(r.keysToCardinalities[key], serviceId, i);
    MintKeyDeterminesIndex(c, serviceId, j, r.keysToCardinalities[key], serviceId, i);
  }

  // ----- ExecutorForRequirements -----

  datatype Acquired = Acquired(result: StatusOr<ExecutorEntry>, registry: Registry)

  /**
   * `ExecutorForRequirements` for the cardinalities string `cardinalities`:
   * an existing executor gains one holder; otherwise the factory's outcome
   * `created` decides, and a new executor gets the next minted id and one
   * holder. The entry returned is the one registered afterwards.
   */
  function Acquire(serviceId: string, r: Registry, cardinalities: string, created: StatusOr<Executor>): (a: Acquired)
    ensures a.result.Success? ==> cardinalities in a.registry.executors && a.result.value == a.registry.executors[cardinalities]
    ensures a.result.Failure? <==> cardinalities !in r.executors && created.Failure?
    ensures a.result.Failure? ==> a.result.error == created.error && a.registry == r
    ensures cardinalities in r.executors ==>
              && a.registry.keysToCardinalities == r.keysToCardinalities
              && a.registry.executorIndex == r.executorIndex
              && a.result.value == r.executors[cardinalities].(remoteRefcount := r.executors[cardinalities].remoteRefcount + 1)
    ensures cardinalities !in r.executors && created.Success? ==>
              && a.registry.executorIndex == r.executorIndex + 1
              && a.result.value == ExecutorEntry(created.value, 1, MintKey(cardinalities, serviceId, r.executorIndex))
              && a.registry.keysToCardinalities
                 == MapInsert(r.keysToCardinalities, MintKey(cardinalities, serviceId, r.executorIndex), cardinalities)
    ensures a.result.Success? ==> a.registry.executors.Keys == r.executors.Keys + {cardinalities}
    ensures forall c | c in r.executors && c != cardinalities :: c in a.registry.executors && a.registry.executors[c] == r.executors[c]
  {
    if cardinalities in r.executors then
      var e := r.executors[cardinalities];
      var held := e.(remoteRefcount := e.remoteRefcount + 1);
      Acquired(Success(held), r.(executors := r.executors[cardinalities := held]))
    else if created.Failure? then
      Acquired(Failure(created.error), r)
    else
      var key := MintKey(cardinalities, serviceId, r.executorIndex);
      var entry := ExecutorEntry(created.value, 1, key);
      Acquired(Success(entry), Registry(MapInsert(r.executors, cardinalities, entry),
                                        MapInsert(r.keysToCardinalities, key, cardinalities),
                                        r.executorIndex + 1))
  }

  /** The next id a consistent registry mints is not in use. */
  lemma MintedKeyIsFresh(serviceId: string, r: Registry, cardinalities: string)
    requires Consistent(serviceId, r)
    ensures MintKey(cardinalities, serviceId, r.executorIndex) !in r.keysToCardinalities
  {
    var key := MintKey(cardinalities, serviceId, r.executorIndex);
    if key in r.keysToCardinalities {
      var i: nat :| i < r.executorIndex && key == MintKey(r.keysToCardinalities[key], serviceId, i);
      MintKeyDeterminesIndex(cardinalities, serviceId, r.executorIndex, r.keysToCardinalities[key], serviceId, i);
    }
  }

  /** Making or sharing an executor keeps the registry consistent. */
  lemma AcquireConsistent(serviceId: string, r: Registry, cardinalities: string, created: StatusOr<Executor>)
    requires Consistent(serviceId, r)
    ensures Consistent(serviceId, Acquire(serviceId, r, cardinalities, created).registry)
  {
    var a := Acquire(serviceId, r, cardinalities, created);
    if cardinalities !in r.executors && created.Success? {
      var key := MintKey(cardinalities, serviceId, r.executorIndex);
      MintedKeyIsFresh(serviceId, r, cardinalities);
      var n := a.registry;
      assert n.keysToCardinalities == r.keysToCardinalities[key := cardinalities];
      assert n.executors == r.executors[cardinalities := ExecutorEntry(created.value, 1, key)];
      forall k | k in n.keysToCardinalities
        ensures MintedBefore(k, n.keysToCardinalities[k], serviceId, n.executorIndex)
      {
        if k == key {
          assert k == MintKey(cardinalities, serviceId, r.executorIndex);
        } else {
          var i: nat :| i < r.executorIndex && k == MintKey(r.keysToCardinalities[k], serviceId, i);
          assert k == MintKey(n.keysToCardinalities[k], serviceId, i);
        }
      }
    }
  }

  /** The id handed out resolves, in the new registry, to the entry handed out. */
  lemma AcquiredIdResolves(serviceId: string, r: Registry, cardinalities: string, created: StatusOr<Executor>,
                           methodName: string)
    requires Consistent(serviceId, r)
    ensures var a := Acquire(serviceId, r, cardinalities, created);
            a.result.Success? ==> Lookup(a.registry, a.result.value.executorId, methodName) == a.result
  {
    var a := Acquire(serviceId, r, cardinalities, created);
    AcquireConsistent(serviceId, r, cardinalities, created);
    if a.result.Success? {
      var n := a.registry;
      assert n.executors[cardinalities].executorId == a.result.value.executorId;
      assert n.keysToCardinalities[a.result.value.executorId] == cardinalities;
    }
  }

  /** Asking twice for the same cardinalities gives the same id, held twice. */
  lemma AcquireTwiceShares(serviceId: string, r: Registry, cardinalities: string, created: StatusOr<Executor>,
                           again: StatusOr<Executor>)
    requires Consistent(serviceId, r)
    ensures var a := Acquire(serviceId, r, cardinalities, created);
            var b := Acquire(serviceId, a.registry, cardinalities, again);
            a.result.Success? ==>
              && b.result.Success?
              && b.result.value.executorId == a.result.value.executorId
              && b.result.value.remoteRefcount == a.result.value.remoteRefcount + 1
              && b.registry.executorIndex == a.registry.executorIndex
  {
  }

  // ----- DisposeExecutor and DestroyExecutor -----

  /** `DestroyExecutor`: forgets the executor an id names, and the id; an unknown id changes nothing. */
  function Destroy(r: Registry, key: string): (n: Registry)
    ensures key !in n.keysToCardinalities
    ensures key in r.keysToCardinalities ==> r.keysToCardinalities[key] !in n.executors
    ensures key !in r.keysToCardinalities ==> n == r
    ensures n.executorIndex == r.executorIndex
    ensures n.keysToCardinalities.Keys <= r.keysToCardinalities.Keys && n.executors.Keys <= r.executors.Keys
    ensures forall k | k in r.keysToCardinalities && k != key ::
              k in n.keysToCardinalities && n.keysToCardinalities[k] == r.keysToCardinalities[k]
    ensures forall c | c in r.executors && (key in r.keysToCardinalities ==> c != r.keysToCardinalities[key]) ::
              c in n.executors && n.executors[c] == r.executors[c]
  {
    if key in r.keysToCardinalities then
      Registry(r.executors - {r.keysToCardinalities[key]}, r.keysToCardinalities - {key}, r.executorIndex)
    else r
  }

  lemma DestroyConsistent(serviceId: string, r: Registry, key: string)
    requires Consistent(serviceId, r)
    ensures Consistent(serviceId, Destroy(r, key))
  {
    if key in r.keysToCardinalities {
      var n := Destroy(r, key);
      var card := r.keysToCardinalities[key];
      forall k | k in n.keysToCardinalities
        ensures n.keysToCardinalities[k] in n.executors
      {
        assert r.executors[r.keysToCardinalities[k]].executorId == k;
      }
    }
  }

  /** Destroying one executor leaves every other id resolving as before. */
  lemma DestroyKeepsOthers(serviceId: string, r: Registry, key: string, other: string, methodName: string)
    requires Consistent(serviceId, r) && other != key
    ensures Lookup(Destroy(r, key), other, methodName) == Lookup(r, other, methodName)
  {
    if key in r.keysToCardinalities && other in r.keysToCardinalities {
      assert r.executors[r.keysToCardinalities[other]].executorId == other;
      assert r.executors[r.keysToCardinalities[key]].executorId == key;
    }
  }

  datatype Released = Released(status: Status, registry: Registry)

  /**
   * `DisposeExecutor`: one holder lets go of the executor an id names; the
   * last one to do so destroys it. An unknown id is not an error (the
   * executor may already be gone); a known id without an entry is `INTERNAL`.
   */
  function Release(r: Registry, key: string): (d: Released)
    ensures key !in r.keysToCardinalities ==> d == Released(OkStatus, r)
    ensures key in r.keysToCardinalities && r.keysToCardinalities[key] !in r.executors ==>
              d == Released(Status(Internal, NoExecutorForCardinalities(r.keysToCardinalities[key], key)), r)
    ensures key in r.keysToCardinalities && r.keysToCardinalities[key] in r.executors ==>
              var card := r.keysToCardinalities[key];
              var left := r.executors[card].remoteRefcount - 1;
              && d.status == OkStatus
              && (left == 0 ==> card !in d.registry.executors && key !in d.registry.keysToCardinalities)
              && (left == 0 ==> d.registry.keysToCardinalities == r.keysToCardinalities - {key}
                                && d.registry.executors == r.executors - {card})
              && (left != 0 ==> d.registry.keysToCardinalities == r.keysToCardinalities
                                && d.registry.executors == r.executors[card := r.executors[card].(remoteRefcount := left)])
    ensures d.registry.executorIndex == r.executorIndex
  {
    if key !in r.keysToCardinalities then Released(OkStatus, r)
    else
      var card := r.keysToCardinalities[key];
      if card !in r.executors then
        Released(Status(Internal, NoExecutorForCardinalities(card, key)), r)
      else
        var e := r.executors[card];
        var left := e.remoteRefcount - 1;
        var decremented := r.(executors := r.executors[card := e.(remoteRefcount := left)]);
        Released(OkStatus, if left == 0 then Destroy(decremented, key) else decremented)
  }

  /** Letting go keeps a consistent registry consistent, and never reports an error. */
  lemma ReleaseConsistent(serviceId: string, r: Registry, key: string)
    requires Consistent(serviceId, r)
    ensures var d := Release(r, key);
            d.status == OkStatus && Consistent(serviceId, d.registry)
  {
    if key in r.keysToCardinalities {
      var card := r.keysToCardinalities[key];
      var e := r.executors[card];
      var left := e.remoteRefcount - 1;
      var decremented := r.(executors := r.executors[card := e.(remoteRefcount := left)]);
      if left == 0 {
        var n := Destroy(decremented, key);
        forall k | k in n.keysToCardinalities
          ensures n.keysToCardinalities[k] in n.executors
          ensures n.executors[n.keysToCardinalities[k]].executorId == k
        {
          assert r.executors[r.keysToCardinalities[k]].executorId == k;
        }
        forall c | c in n.executors
          ensures n.executors[c].executorId in n.keysToCardinalities
        {
          assert r.keysToCardinalities[r.executors[c].executorId] == c;
        }
      }
    }
  }

  /** Getting an executor that exists and disposing of it again leaves the registry as it was. */
  lemma AcquireThenReleaseShared(serviceId: string, r: Registry, cardinalities: string, created: StatusOr<Executor>)
    requires Consistent(serviceId, r) && cardinalities in r.executors
    ensures var a := Acquire(serviceId, r, cardinalities, created);
            Release(a.registry, a.result.value.executorId) == Released(OkStatus, r)
  {
    var a := Acquire(serviceId, r, cardinalities, created);
    var e := r.executors[cardinalities];
    assert r.keysToCardinalities[e.executorId] == cardinalities;
    assert a.registry.executors[cardinalities := e] == r.executors;
  }

  /** A new executor disposed of by its only holder is gone again, and its id no longer resolves. */
  lemma AcquireThenReleaseNew(serviceId: string, r: Registry, cardinalities: string, created: StatusOr<Executor>,
                              methodName: string)
    requires Consistent(serviceId, r) && cardinalities !in r.executors && created.Success?
    ensures var a := Acquire(serviceId, r, cardinalities, created);
            var d := Release(a.registry, a.result.value.executorId);
            && d.status == OkStatus
            && d.registry == r.(executorIndex := r.executorIndex + 1)
            && Lookup(d.registry, a.result.value.executorId, methodName).error.code == FailedPrecondition
  {
    var a := Acquire(serviceId, r, cardinalities, created);
    var key := a.result.value.executorId;
    MintedKeyIsFresh(serviceId, r, cardinalities);
    var d := Release(a.registry, key);
    assert d.registry.executors == r.executors;
    assert d.registry.keysToCardinalities == r.keysToCardinalities;
  }

  /** A retired id stays retired when an executor is got: a new executor's id has the counter's current index. */
  lemma RetiredAfterAcquire(serviceId: string, r: Registry, key: string, cardinalities: string, created: StatusOr<Executor>)
    requires Retired(serviceId, r, key)
    ensures Retired(serviceId, Acquire(serviceId, r, cardinalities, created).registry, key)
  {
    if cardinalities !in r.executors && created.Success? {
      assert key != MintKey(cardinalities, serviceId, r.executorIndex);
    }
  }

  /** A retired id stays retired when an executor is destroyed. */
  lemma RetiredAfterDestroy(serviceId: string, r: Registry, key: string, other: string)
    requires Retired(serviceId, r, key)
    ensures Retired(serviceId, Destroy(r, other), key)
  {
  }

  /** A retired id stays retired when an executor is disposed of. */
  lemma RetiredAfterRelease(serviceId: string, r: Registry, key: string, other: string)
    requires Retired(serviceId, r, key)
    ensures Retired(serviceId, Release(r, other).registry, key)
  {
  }

  /** The resolver's state, in fields that its methods update. */
  class ExecutorResolver {
    const serviceId: string
    var executors: map<string, ExecutorEntry>
    var keysToCardinalities: map<string, string>
    var executorIndex: nat

    function State(): Registry
      reads this
    {
      Registry(executors, keysToCardinalities, executorIndex)
    }

    predicate Valid()
      reads this
    {
      Consistent(serviceId, State())
    }

    constructor (serviceId: string)
      ensures this.serviceId == serviceId && State() == EmptyRegistry && Valid()
    {
      this.serviceId := serviceId;
      executors := map[];
      keysToCardinalities := map[];
      executorIndex := 0;
    }

    method ExecutorForRequirements(requirements: CardinalityMap, created: StatusOr<Executor>)
      returns (entry: StatusOr<ExecutorEntry>)
      modifies this
      ensures Acquired(entry, State()) == Acquire(serviceId, old(State()), CardinalitiesToString(requirements), created)
      ensures old(Valid()) ==> Valid()
    {
      ghost var before := State();
      var cardinalities := CardinalitiesToString(requirements);
      if cardinalities !in executors {
        if created.Failure? {
          return Failure(created.error);
        }
        var key := cardinalities + "/" + serviceId + "/" + NatToString(executorIndex);
        executorIndex := executorIndex + 1;
        keysToCardinalities := MapInsert(keysToCardinalities, key, cardinalities);
        var e := ExecutorEntry(created.value, 1, key);
        executors := MapInsert(executors, cardinalities, e);
        entry := Success(e);
      } else {
        var e := executors[cardinalities];
        executors := executors[cardinalities := e.(remoteRefcount := e.remoteRefcount + 1)];
        entry := Success(executors[cardinalities]);
      }
      if Consistent(serviceId, before) {
        AcquireConsistent(serviceId, before, cardinalities, created);
      }
    }

    /** The entry an id names in the current state; a consistent resolver answers only `FAILED_PRECONDITION` errors. */
    function ExecutorForId(key: string, methodName: string): (r: StatusOr<ExecutorEntry>)
      reads this
      ensures r == Lookup(State(), key, methodName)
      ensures Valid() ==> (r.Success? <==> key in keysToCardinalities)
      ensures Valid() && r.Success? ==> r.value.executorId == key && r.value.remoteRefcount >= 1
      ensures Valid() && r.Failure? ==> r.error.code == FailedPrecondition
    {
      Lookup(State(), key, methodName)
    }

    method DisposeExecutor(key: string) returns (status: Status)
      modifies this
      ensures Released(status, State()) == Release(old(State()), key)
      ensures old(Valid()) ==> Valid()
    {
      ghost var before := State();
      if key !in keysToCardinalities {
        return OkStatus;
      }
      var card := keysToCardinalities[key];
      if card !in executors {
        return Status(Internal, NoExecutorForCardinalities(card, key));
      }
      var e := executors[card];
      executors := executors[card := e.(remoteRefcount := e.remoteRefcount - 1)];
      var shouldDestroy := executors[card].remoteRefcount == 0;
      if shouldDestroy {
        DestroyExecutor(key);
      }
      status := OkStatus;
      if Consistent(serviceId, before) {
        ReleaseConsistent(serviceId, before, key);
      }
    }

    method DestroyExecutor(key: string)
      modifies this
      ensures State() == Destroy(old(State()), key)
      ensures old(Valid()) ==> Valid()
    {
      ghost var before := State();
      if key in keysToCardinalities {
        if Consistent(serviceId, before) {
          DestroyConsistent(serviceId, before, key);
        }
        executors := executors - {keysToCardinalities[key]};
        keysToCardinalities := keysToCardinalities - {key};
      }
    }
  }
}
