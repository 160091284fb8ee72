/**
 * The executor service's request handlers. Each finds the executor a
 * request names, turns value references into ids, asks the executor, and
 * turns the answer into a value reference or an error status; an executor
 * error of kind `FAILED_PRECONDITION` also retires the executor. The
 * executor's own operations are function parameters.
 */
module Service {
  import opened Wrappers
  import opened StatusCodes
  import opened ServiceCodec
  import opened Resolver

  /** The registry after an executor error on `key`: `FAILED_PRECONDITION` destroys the executor, nothing else does. */
  function AfterError(r: Registry, status: Status, key: string): (n: Registry)
    ensures status.code == FailedPrecondition ==> n == Destroy(r, key)
    ensures status.code != FailedPrecondition ==> n == r
  {
    if status.code == FailedPrecondition then Destroy(r, key) else r
  }

  lemma AfterErrorConsistent(serviceId: string, r: Registry, status: Status, key: string)
    requires Consistent(serviceId, r)
    ensures Consistent(serviceId, AfterError(r, status, key))
  {
    DestroyConsistent(serviceId, r, key);
  }

  /**
   * After an executor reports `FAILED_PRECONDITION`, the id it was reached by
   * no longer resolves: the client must get an executor again before retrying.
   */
  lemma FailedPreconditionRetiresId(r: Registry, status: Status, key: string, methodName: string)
    requires status.code == FailedPrecondition
    ensures Lookup(AfterError(r, status, key), key, methodName).Failure?
    ensures Lookup(AfterError(r, status, key), key, methodName).error.code == FailedPrecondition
  {
  }

  /**
   * A `FAILED_PRECONDITION` from the executor an id named retires that id for
   * good: with `RetiredAfterAcquire`, `RetiredAfterRelease` and
   * `RetiredAfterDestroy`, it answers `FAILED_PRECONDITION` from then on.
   */
  lemma FailedPreconditionRetires(serviceId: string, r: Registry, status: Status, key: string)
    requires Consistent(serviceId, r) && key in r.keysToCardinalities && status.code == FailedPrecondition
    ensures Retired(serviceId, AfterError(r, status, key), key)
  {
    forall c: string, j: nat | key == MintKey(c, serviceId, j) ensures j < r.executorIndex {
      KnownIdMintedBehind(serviceId, r, key, c, j);
    }
  }

  /** What a request answers: a status, the reference to a new value, and the registry afterwards. */
  datatype Reply = Reply(status: Status, valueRef: Option<string>, registry: Registry)

  /** The end of a `Create*` request once the executor has answered `produced`. */
  function Answer(r: Registry, key: string, produced: StatusOr<ValueId>): (a: Reply)
    ensures a.status.code == Ok <==> produced.Success?
    ensures produced.Success? ==> a == Reply(OkStatus, Some(IdToRemoteValue(produced.value)), r)
    ensures produced.Failure? ==> a.status == produced.error && a.valueRef.None?
                                  && a.registry == AfterError(r, produced.error, key)
  {
    match produced
    case Success(id) => Reply(OkStatus, Some(IdToRemoteValue(id)), r)
    case Failure(e) => Reply(e, None, AfterError(r, e, key))
  }

  /** A reference handed out by `Answer` names the id the executor produced. */
  lemma AnswerRefNamesId(r: Registry, key: string, id: ValueId)
    ensures RemoteValueToId(Answer(r, key, Success(id)).valueRef.value) == Success(id)
  {
    RemoteValueToIdOfIdToRemoteValue(id);
  }

  /** The ids of the function and of the optional argument of a call, parsed in that order. */
  function CallOperands(functionRef: string, argumentRef: Option<string>): (r: StatusOr<(ValueId, Option<ValueId>)>)
    ensures RemoteValueToId(functionRef).Failure? ==> r == Failure(RemoteValueToId(functionRef).error)
    ensures r.Success? <==>
              RemoteValueToId(functionRef).Success? && (argumentRef.Some? ==> RemoteValueToId(argumentRef.value).Success?)
    ensures r.Success? ==>
              && r.value.0 == RemoteValueToId(functionRef).value
              && (argumentRef.None? ==> r.value.1.None?)
              && (argumentRef.Some? ==> r.value.1 == Some(RemoteValueToId(argumentRef.value).value))
    ensures RemoteValueToId(functionRef).Success? && r.Failure? ==> r.error == RemoteValueToId(argumentRef.value).error
  {
    var fn :- RemoteValueToId(functionRef);
    match argumentRef
    case None => Success((fn, None))
    case Some(a) =>
      var arg :- RemoteValueToId(a);
      Success((fn, Some(arg)))
  }

  /*
   * The specifications below walk a request's references with the parser
   * `toId` as a parameter; the handlers pass `RemoteValueToId`.
   */

  /** The ids of a struct's element references, or the error of the first one that is not an id. */
  function ParseRefs(refs: seq<string>, toId: string -> StatusOr<ValueId>): (r: StatusOr<seq<ValueId>>)
    ensures r.Success? <==> forall i | 0 <= i < |refs| :: toId(refs[i]).Success?
    ensures r.Success? ==> |r.value| == |refs| && forall i | 0 <= i < |refs| :: toId(refs[i]) == Success(r.value[i])
    decreases |refs|
  {
    if refs == [] then Success([])
    else
      var id :- toId(refs[0]);
      var rest :- ParseRefs(refs[1..], toId);
      Success([id] + rest)
  }

  /** A malformed element reference whose predecessors are all ids decides the error. */
  lemma {:induction false} ParseRefsFirstError(refs: seq<string>, toId: string -> StatusOr<ValueId>, i: nat)
    requires i < |refs| && toId(refs[i]).Failure?
    requires forall j | 0 <= j < i :: toId(refs[j]).Success?
    ensures ParseRefs(refs, toId) == Failure(toId(refs[i]).error)
    decreases i
  {
    if i > 0 {
      assert toId(refs[0]).Success?;
      assert forall j | 0 <= j < i - 1 :: refs[1..][j] == refs[j + 1];
      ParseRefsFirstError(refs[1..], toId, i - 1);
    }
  }

  /** References the service handed out for some ids parse back to exactly those ids. */
  lemma ParseRefsOfIds(ids: seq<ValueId>)
    ensures ParseRefs(seq(|ids|, i requires 0 <= i < |ids| => IdToRemoteValue(ids[i])), RemoteValueToId) == Success(ids)
  {
    var refs := seq(|ids|, i requires 0 <= i < |ids| => IdToRemoteValue(ids[i]));
    forall i | 0 <= i < |ids| ensures RemoteValueToId(refs[i]) == Success(ids[i]) {
      RemoteValueToIdOfIdToRemoteValue(ids[i]);
    }
    var r := ParseRefs(refs, RemoteValueToId);
    assert r.Success?;
    assert r.value == ids;
  }

  /** `ParseRefs` of all references, given the ids of the first few and the parse of the rest. */
  function PrependIds(ids: seq<ValueId>, rest: StatusOr<seq<ValueId>>): StatusOr<seq<ValueId>>
  {
    match rest
    case Success(more) => Success(ids + more)
    case Failure(e) => Failure(e)
  }

  /** The ids among `refs` that parse, in order; the malformed ones are skipped. */
  function WellFormedIds(refs: seq<string>, toId: string -> StatusOr<ValueId>): (ids: seq<ValueId>)
    ensures |ids| <= |refs|
    decreases |refs|
  {
    if refs == [] then []
    else (match toId(refs[0]) case Success(id) => [id] case Failure(_) => []) + WellFormedIds(refs[1..], toId)
  }

  /** The status a `Dispose` request answers, and the ids it asked the executor to dispose of, in order. */
  datatype Disposal = Disposal(status: Status, disposed: seq<ValueId>)

  /**
   * `Dispose` on an executor: each well-formed reference is disposed of in
   * order, malformed ones are skipped, and the first failure ends the request
   * with its status.
   */
  function DisposeAll(ex: Executor, refs: seq<string>, toId: string -> StatusOr<ValueId>,
                      dispose: (Executor, ValueId) -> Status): (d: Disposal)
    ensures |d.disposed| <= |refs|
    ensures d.status.code != Ok ==> d.disposed != []
    decreases |refs|
  {
    if refs == [] then Disposal(OkStatus, [])
    else
      match toId(refs[0])
      case Failure(_) => DisposeAll(ex, refs[1..], toId, dispose)
      case Success(id) =>
        var s := dispose(ex, id);
        if s.code != Ok then Disposal(s, [id])
        else
          var rest := DisposeAll(ex, refs[1..], toId, dispose);
          Disposal(rest.status, [id] + rest.disposed)
  }

  /** The ids disposed of are the first few well-formed ones, in request order. */
  lemma {:induction false} DisposeAllInOrder(ex: Executor, refs: seq<string>, toId: string -> StatusOr<ValueId>,
                                             dispose: (Executor, ValueId) -> Status)
    ensures DisposeAll(ex, refs, toId, dispose).disposed <= WellFormedIds(refs, toId)
    decreases |refs|
  {
    if refs != [] {
      DisposeAllInOrder(ex, refs[1..], toId, dispose);
      if toId(refs[0]).Success? {
        var id := toId(refs[0]).value;
        var rest := DisposeAll(ex, refs[1..], toId, dispose);
        assert WellFormedIds(refs, toId) == [id] + WellFormedIds(refs[1..], toId);
        if dispose(ex, id).code == Ok {
          assert DisposeAll(ex, refs, toId, dispose).disposed == [id] + rest.disposed;
        } else {
          assert DisposeAll(ex, refs, toId, dispose).disposed == [id];
        }
      } else {
        assert WellFormedIds(refs, toId) == WellFormedIds(refs[1..], toId);
      }
    }
  }

  /** Every disposal before the last one asked for succeeded. */
  lemma {:induction false} DisposeAllEarlierSucceeded(ex: Executor, refs: seq<string>, toId: string -> StatusOr<ValueId>,
                                                      dispose: (Executor, ValueId) -> Status)
    ensures forall i | 0 <= i < |DisposeAll(ex, refs, toId, dispose).disposed| - 1 ::
              dispose(ex, DisposeAll(ex, refs, toId, dispose).disposed[i]).code == Ok
    decreases |refs|
  {
    if refs != [] {
      DisposeAllEarlierSucceeded(ex, refs[1..], toId, dispose);
      if toId(refs[0]).Success? {
        var id := toId(refs[0]).value;
        if dispose(ex, id).code == Ok {
          var rest := DisposeAll(ex, refs[1..], toId, dispose);
          var d := DisposeAll(ex, refs, toId, dispose);
          assert d.disposed == [id] + rest.disposed;
          forall i | 0 <= i < |d.disposed| - 1 ensures dispose(ex, d.disposed[i]).code == Ok {
            if i > 0 {
              assert d.disposed[i] == rest.disposed[i - 1];
              assert dispose(ex, rest.disposed[i - 1]).code == Ok;
            }
          }
        } else {
          assert DisposeAll(ex, refs, toId, dispose).disposed == [id];
        }
      }
    }
  }

  /** An OK answer means every well-formed reference was disposed of, each successfully. */
  lemma {:induction false} DisposeAllOk(ex: Executor, refs: seq<string>, toId: string -> StatusOr<ValueId>,
                                        dispose: (Executor, ValueId) -> Status)
    requires DisposeAll(ex, refs, toId, dispose).status.code == Ok
    ensures var d := DisposeAll(ex, refs, toId, dispose);
            && d.status == OkStatus && d.disposed == WellFormedIds(refs, toId)
            && forall i | 0 <= i < |d.disposed| :: dispose(ex, d.disposed[i]).code == Ok
    decreases |refs|
  {
    if refs != [] {
      DisposeAllOk(ex, refs[1..], toId, dispose);
      if toId(refs[0]).Success? {
        var id := toId(refs[0]).value;
        var rest := DisposeAll(ex, refs[1..], toId, dispose);
        assert DisposeAll(ex, refs, toId, dispose) == Disposal(rest.status, [id] + rest.disposed);
        assert forall i | 1 <= i < |[id] + rest.disposed| :: ([id] + rest.disposed)[i] == rest.disposed[i - 1];
      }
    }
  }

  /** An error answer is the status of the last disposal asked for. */
  lemma {:induction false} DisposeAllError(ex: Executor, refs: seq<string>, toId: string -> StatusOr<ValueId>,
                                           dispose: (Executor, ValueId) -> Status)
    requires DisposeAll(ex, refs, toId, dispose).status.code != Ok
    ensures var d := DisposeAll(ex, refs, toId, dispose);
            |d.disposed| > 0 && d.status == dispose(ex, d.disposed[|d.disposed| - 1])
    decreases |refs|
  {
    if refs != [] && toId(refs[0]).Failure? {
      DisposeAllError(ex, refs[1..], toId, dispose);
    } else if refs != [] && dispose(ex, toId(refs[0]).value).code == Ok {
      DisposeAllError(ex, refs[1..], toId, dispose);
      var rest := DisposeAll(ex, refs[1..], toId, dispose);
      assert ([toId(refs[0]).value] + rest.disposed)[|rest.disposed|] == rest.disposed[|rest.disposed| - 1];
    }
  }

  /** When every disposal succeeds, every well-formed reference is disposed of and the answer is OK. */
  lemma DisposeAllSucceeds(ex: Executor, refs: seq<string>, toId: string -> StatusOr<ValueId>,
                           dispose: (Executor, ValueId) -> Status)
    requires forall id: ValueId :: dispose(ex, id).code == Ok
    ensures DisposeAll(ex, refs, toId, dispose) == Disposal(OkStatus, WellFormedIds(refs, toId))
  {
  }

  /** The loop of `CreateStruct` that turns each element reference into an id with `toId`, stopping at the first malformed one. */
  method ParseElementRefs(elementRefs: seq<string>, toId: string -> StatusOr<ValueId>) returns (r: StatusOr<seq<ValueId>>)
    ensures r == ParseRefs(elementRefs, toId)
  {
    var requestedIds: seq<ValueId> := [];
    var i := 0;
    assert elementRefs[i..] == elementRefs;
    ghost var whole := ParseRefs(elementRefs, toId);
    assert whole.Success? ==> [] + whole.value == whole.value;
    while i < |elementRefs|
      invariant 0 <= i <= |elementRefs|
      invariant whole == PrependIds(requestedIds, ParseRefs(elementRefs[i..], toId))
    {
      assert elementRefs[i..][1..] == elementRefs[i + 1..];
      var id := toId(elementRefs[i]);
      if id.Failure? {
        return Failure(id.error);
      }
      ghost var rest := ParseRefs(elementRefs[i + 1..], toId);
      assert rest.Success? ==> requestedIds + ([id.value] + rest.value) == (requestedIds + [id.value]) + rest.value;
      requestedIds := requestedIds + [id.value];
      i := i + 1;
    }
    assert elementRefs[i..] == [];
    assert requestedIds + [] == requestedIds;
    return Success(requestedIds);
  }

  class ExecutorService {
    const resolver: ExecutorResolver

    constructor (serviceId: string)
      ensures fresh(resolver) && resolver.serviceId == serviceId && resolver.State() == EmptyRegistry
    {
      resolver := new ExecutorResolver(serviceId);
    }

    /** The executor a request names, or the resolver's error. */
    function RequireExecutor(methodName: string, executorId: string): (r: StatusOr<Executor>)
      reads resolver
      ensures r.Success? <==> resolver.ExecutorForId(executorId, methodName).Success?
      ensures r.Success? ==> r.value == resolver.ExecutorForId(executorId, methodName).value.executor
      ensures r.Failure? ==> r.error == resolver.ExecutorForId(executorId, methodName).error
    {
      match resolver.ExecutorForId(executorId, methodName)
      case Success(entry) => Success(entry.executor)
      case Failure(e) => Failure(e)
    }

    /** `GetExecutor`: the id of an executor for the requested cardinalities; `created` is what the factory gives if one is made. */
    method GetExecutor(cardinalities: CardinalityMap, created: StatusOr<Executor>) returns (status: Status, executorId: string)
      modifies resolver
      ensures var a := Acquire(resolver.serviceId, old(resolver.State()), CardinalitiesToString(cardinalities), created);
              && resolver.State() == a.registry
              && (a.result.Success? ==> status == OkStatus && executorId == a.result.value.executorId)
              && (a.result.Failure? ==> status == a.result.error && executorId == "")
      ensures old(resolver.Valid()) ==> resolver.Valid()
    {
      var entry := resolver.ExecutorForRequirements(cardinalities, created);
      if entry.Failure? {
        return entry.error, "";
      }
      return OkStatus, entry.value.executorId;
    }

    /** Passes an executor error on, and retires the executor when the error is `FAILED_PRECONDITION`. */
    method HandleNotOK(status: Status, executorId: string) returns (s: Status)
      modifies resolver
      ensures s == status
      ensures resolver.State() == AfterError(old(resolver.State()), status, executorId)
      ensures old(resolver.Valid()) ==> resolver.Valid()
    {
      if status.code == FailedPrecondition {
        resolver.DestroyExecutor(executorId);
      }
      return status;
    }

    method CreateValue(executorId: string, create: Executor -> StatusOr<ValueId>)
      returns (status: Status, valueRef: Option<string>)
      modifies resolver
      ensures Reply(status, valueRef, resolver.State()) ==
              match old(RequireExecutor("CreateValue", executorId))
              case Failure(e) => Reply(e, None, old(resolver.State()))
              case Success(ex) => Answer(old(resolver.State()), executorId, create(ex))
      ensures old(resolver.Valid()) ==> resolver.Valid()
    {
      var ex := RequireExecutor("CreateValue", executorId);
      if ex.Failure? {
        return ex.error, None;
      }
      var id := create(ex.value);
      if id.Failure? {
        status := HandleNotOK(id.error, executorId);
        return status, None;
      }
      return OkStatus, Some(IdToRemoteValue(id.value));
    }

    method CreateCall(executorId: string, functionRef: string, argumentRef: Option<string>,
                      call: (Executor, ValueId, Option<ValueId>) -> StatusOr<ValueId>)
      returns (status: Status, valueRef: Option<string>)
      modifies resolver
      ensures Reply(status, valueRef, resolver.State()) ==
              match old(RequireExecutor("CreateCall", executorId))
              case Failure(e) => Reply(e, None, old(resolver.State()))
              case Success(ex) =>
                match CallOperands(functionRef, argumentRef)
                case Failure(e) => Reply(e, None, old(resolver.State()))
                case Success(ops) => Answer(old(resolver.State()), executorId, call(ex, ops.0, ops.1))
      ensures old(resolver.Valid()) ==> resolver.Valid()
    {
      var ex := RequireExecutor("CreateCall", executorId);
      if ex.Failure? {
        return ex.error, None;
      }
      var fn := RemoteValueToId(functionRef);
      if fn.Failure? {
        return fn.error, None;
      }
      var arg: Option<ValueId> := None;
      if argumentRef.Some? {
        var parsed := RemoteValueToId(argumentRef.value);
        if parsed.Failure? {
          return parsed.error, None;
        }
        arg := Some(parsed.value);
      }
      var called := call(ex.value, fn.value, arg);
      if called.Failure? {
        status := HandleNotOK(called.error, executorId);
        return status, None;
      }
      return OkStatus, Some(IdToRemoteValue(called.value));
    }

    method CreateStruct(executorId: string, elementRefs: seq<string>,
                        create: (Executor, seq<ValueId>) -> StatusOr<ValueId>)
      returns (status: Status, valueRef: Option<string>)
      modifies resolver
      ensures Reply(status, valueRef, resolver.State()) ==
              match old(RequireExecutor("CreateStruct", executorId))
              case Failure(e) => Reply(e, None, old(resolver.State()))
              case Success(ex) =>
                match ParseRefs(elementRefs, RemoteValueToId)
                case Failure(e) => Reply(e, None, old(resolver.State()))
                case Success(ids) => Answer(old(resolver.State()), executorId, create(ex, ids))
      ensures old(resolver.Valid()) ==> resolver.Valid()
    {
      var ex := RequireExecutor("CreateStruct", executorId);
      if ex.Failure? {
        return ex.error, None;
      }
      var requested := ParseElementRefs(elementRefs, RemoteValueToId);
      if requested.Failure? {
        return requested.error, None;
      }
      var requestedIds := requested.value;
      var created := create(ex.value, requestedIds);
      if created.Failure? {
        status := HandleNotOK(created.error, executorId);
        return status, None;
      }
      return OkStatus, Some(IdToRemoteValue(created.value));
    }

    method CreateSelection(executorId: string, sourceRef: string, index: int,
                           select: (Executor, ValueId, int) -> StatusOr<ValueId>)
      returns (status: Status, valueRef: Option<string>)
      modifies resolver
      ensures Reply(status, valueRef, resolver.State()) ==
              match old(RequireExecutor("CreateSelection", executorId))
              case Failure(e) => Reply(e, None, old(resolver.State()))
              case Success(ex) =>
                match RemoteValueToId(sourceRef)
                case Failure(e) => Reply(e, None, old(resolver.State()))
                case Success(source) => Answer(old(resolver.State()), executorId, select(ex, source, index))
      ensures old(resolver.Valid()) ==> resolver.Valid()
    {
      var ex := RequireExecutor("CreateSelection", executorId);
      if ex.Failure? {
        return ex.error, None;
      }
      var source := RemoteValueToId(sourceRef);
      if source.Failure? {
        return source.error, None;
      }
      var selected := select(ex.value, source.value, index);
      if selected.Failure? {
        status := HandleNotOK(selected.error, executorId);
        return status, None;
      }
      return OkStatus, Some(IdToRemoteValue(selected.value));
    }

    /** `Compute`: the executor's materialization status is the answer; an error goes through `HandleNotOK`. */
    method Compute(executorId: string, valueRef: string, materialize: (Executor, ValueId) -> Status)
      returns (status: Status)
      modifies resolver
      ensures (status, resolver.State()) ==
              match old(RequireExecutor("Compute", executorId))
              case Failure(e) => (e, old(resolver.State()))
              case Success(ex) =>
                match RemoteValueToId(valueRef)
                case Failure(e) => (e, old(resolver.State()))
                case Success(id) =>
                  (materialize(ex, id), AfterError(old(resolver.State()), materialize(ex, id), executorId))
      ensures old(resolver.Valid()) ==> resolver.Valid()
    {
      var ex := RequireExecutor("Compute", executorId);
      if ex.Failure? {
        return ex.error;
      }
      var requested := RemoteValueToId(valueRef);
      if requested.Failure? {
        return requested.error;
      }
      var s := materialize(ex.value, requested.value);
      if s.code == Ok {
        return s;
      }
      status := HandleNotOK(s, executorId);
    }

    /**
     * `Dispose`: a request for an executor that is gone succeeds with nothing
     * to do; otherwise the values are disposed of as `DisposeAll` says.
     * `disposed` lists the ids passed to the executor, in order.
     */
    method Dispose(executorId: string, valueRefs: seq<string>, dispose: (Executor, ValueId) -> Status)
      returns (status: Status, disposed: seq<ValueId>)
      ensures RequireExecutor("Dispose", executorId).Failure? ==> status == OkStatus && disposed == []
      ensures RequireExecutor("Dispose", executorId).Success? ==>
                Disposal(status, disposed) == DisposeAll(RequireExecutor("Dispose", executorId).value, valueRefs, RemoteValueToId, dispose)
    {
      var ex := RequireExecutor("Dispose", executorId);
      if ex.Failure? {
        return OkStatus, [];
      }
      disposed := [];
      var i := 0;
      assert valueRefs[i..] == valueRefs;
      while i < |valueRefs|
        invariant 0 <= i <= |valueRefs|
        invariant var rest := DisposeAll(ex.value, valueRefs[i..], RemoteValueToId, dispose);
                  DisposeAll(ex.value, valueRefs, RemoteValueToId, dispose) == Disposal(rest.status, disposed + rest.disposed)
      {
        assert valueRefs[i..][1..] == valueRefs[i + 1..];
        var id := RemoteValueToId(valueRefs[i]);
        if id.Success? {
          var s := dispose(ex.value, id.value);
          disposed := disposed + [id.value];
          if s.code != Ok {
            return s, disposed;
          }
        }
        i := i + 1;
      }
      assert valueRefs[i..] == [];
      return OkStatus, disposed;
    }

    method DisposeExecutor(executorId: string) returns (status: Status)
      modifies resolver
      ensures Released(status, resolver.State()) == Release(old(resolver.State()), executorId)
      ensures old(resolver.Valid()) ==> resolver.Valid()
    {
      status := resolver.DisposeExecutor(executorId);
    }
  }
}
