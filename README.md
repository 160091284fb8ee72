# TensorFlow Federated intrinsics and executor service in Dafny

This project models two parts of TensorFlow Federated (TFF).

**Federated intrinsics.** These are the Python functions a federated computation is written with: `federated_aggregate`, `federated_broadcast`, `federated_map`, `federated_select`, `sequence_map` and the rest. Each one:

- checks the TFF types of its arguments;
- builds an intrinsic call with a building-block factory;
- binds the call to a fresh reference in the ambient symbol-binding context.

In the model, each intrinsic is a pure function. It takes the context explicitly and returns either the bound reference with the extended context, or the exception the Python code raises. The exception is a `TypeError`, an `IndexError` or an `AttributeError`, naming the intrinsic and the parameter at fault, or a `ContextError` when the context cannot bind. The contracts state the type each intrinsic produces at its placement. They also state exactly which arguments it accepts, and which violation each error reports.

**Executor service.** This is the C++ gRPC service through which a remote client gets executors and creates, computes and disposes of values on them. The model consists of:

- the `ExecutorResolver`, as a class that owns the two registry maps and the executor counter;
- the value-reference codec between executor value ids and their decimal text;
- the request handlers, including the path that destroys an executor when it reports `FAILED_PRECONDITION`.

Every resolver method is proved against a pure registry transition (`Acquire`, `Lookup`, `Release`, `Destroy`). A registry invariant (`Consistent`) is proved to be kept by each transition.

Files, one module each:

| file | module | contents |
|---|---|---|
| wrappers.dfy | Wrappers | `Option`, `Result`, `Outcome` |
| decimal.dfy | Decimal | decimal text of naturals and integers, and its inverse |
| types.dfy | Types | the TFF type language and assignability |
| type_analysis.dfy | TypeAnalysis | the type predicates the intrinsics use |
| building_blocks.dfy | BuildingBlocks | the computations the factories build |
| intrinsics.dfy | Intrinsics | the intrinsics |
| intrinsic_properties.dfy | IntrinsicProperties | lemmas relating the intrinsics |
| status.dfy | StatusCodes | canonical status codes |
| service_codec.dfy | ServiceCodec | cardinality strings and the value-reference codec |
| resolver.dfy | Resolver | the executor registry and `ExecutorResolver` |
| service.dfy | Service | `ExecutorService` and its request handlers |

## Model

| member | source | states |
|---|---|---|
| Intrinsics.BindCompAsReference | tensorflow_federated/python/core/impl/federated_context/intrinsics.py:36-42 | Binding succeeds exactly in a symbol-binding context, and fails with `ContextError` otherwise. It appends one binding of the computation under the next name, returns a reference of the computation's type, and keeps names distinct. |
| Intrinsics.NextNameIsFresh | tensorflow_federated/python/core/impl/federated_context/intrinsics.py:36-42 | In a context whose names are distinct and numbered, the next name is not yet bound. |
| Intrinsics.EnsureFederated | tensorflow_federated/python/core/impl/federated_context/intrinsics.py:96-97 | A value is accepted exactly when it is federated, or is a struct of federated values that can be zipped, at the required placement if one is given. A federated value is returned unchanged, and a struct is wrapped in a zip. Any other value is a `TypeError` naming the parameter. |
| Intrinsics.FirstParameter | tensorflow_federated/python/core/impl/federated_context/intrinsics.py:117-120 | The first element of the accumulator's parameter. An empty struct raises `IndexError`, and a missing or non-struct parameter raises `TypeError`. |
| Intrinsics.FederatedAggregate | tensorflow_federated/python/core/impl/federated_context/intrinsics.py:95-142 | Succeeds exactly when the context binds and `value` is at CLIENTS, `zero` fits accumulate's first parameter, and accumulate, merge and report have the expected reduction shapes. The result is report's result at SERVER. Each error name implies the violation it reports. |
| IntrinsicProperties.AggregateWellTyped | tensorflow_federated/python/core/impl/federated_context/intrinsics.py:95-142 | Arguments of the textbook shapes `{T}@CLIENTS`, `U`, `<U,T>->U`, `<U,U>->U` and `U->R` always aggregate to `R@SERVER`. |
| IntrinsicProperties.AggregateEmptyAccumulateParameter | tensorflow_federated/python/core/impl/federated_context/intrinsics.py:117-118 | An accumulator whose parameter is the empty struct is reported as `IndexError` on accumulate. |
| Intrinsics.FederatedBroadcast | tensorflow_federated/python/core/impl/federated_context/intrinsics.py:161-170 | Succeeds exactly for a SERVER value that is all-equal in a binding context, and gives the member at CLIENTS, all-equal. For a SERVER value, the `TypeError` happens exactly when it is not all-equal. |
| Intrinsics.FederatedCollect | tensorflow_federated/python/core/impl/federated_context/intrinsics.py:187-193 | Succeeds exactly for a CLIENTS value, and gives a sequence of the member at SERVER. |
| IntrinsicProperties.BroadcastThenCollect | tensorflow_federated/python/core/impl/federated_context/intrinsics.py:145-193 | Broadcasting a SERVER value and collecting it gives `T*@SERVER` and binds exactly two names. |
| Intrinsics.FederatedEval | tensorflow_federated/python/core/impl/federated_context/intrinsics.py:213-225 | Succeeds exactly for a function without a parameter. The result is placed with all-equal exactly at SERVER. For a function, the `TypeError` happens exactly when it has a parameter. |
| Intrinsics.FederatedMap | tensorflow_federated/python/core/impl/federated_context/intrinsics.py:258-289 | Succeeds exactly when `arg` is federated (possibly by zipping), is all-equal if at SERVER, is not elsewhere, and fits fn's parameter. SERVER picks the apply factory, and CLIENTS picks the map factory. Each error names its cause. A missing parameter raises `AttributeError`. |
| IntrinsicProperties.MapAtClients | tensorflow_federated/python/core/impl/federated_context/intrinsics.py:279-283 | Mapping `T->U` over `{T}@CLIENTS` gives `{U}@CLIENTS` through the map factory. |
| IntrinsicProperties.MapAtServer | tensorflow_federated/python/core/impl/federated_context/intrinsics.py:274-281 | Over an all-equal `T@SERVER`, map gives `U@SERVER` through the apply factory. A SERVER value that is not all-equal is rejected with `TypeError` on arg. |
| Intrinsics.FederatedMapAllEqual | tensorflow_federated/python/core/impl/federated_context/intrinsics.py:299-318 | Succeeds exactly for a CLIENTS argument that fits fn's parameter. The result is the function's result at CLIENTS, and all-equal. |
| Intrinsics.FederatedMean | tensorflow_federated/python/core/impl/federated_context/intrinsics.py:357-383 | Succeeds exactly for an average-compatible CLIENTS value whose optional weight is a CLIENTS scalar integer or float tensor. The result is the member at SERVER. The error says whether value or weight is at fault. |
| Intrinsics.FederatedSum | tensorflow_federated/python/core/impl/federated_context/intrinsics.py:403-409 | Succeeds exactly for a sum-compatible CLIENTS value, and gives the member at SERVER. |
| Intrinsics.FederatedValue | tensorflow_federated/python/core/impl/federated_context/intrinsics.py:437-445 | Succeeds exactly for a type without federated parts, and places it all-equal at the given placement. |
| IntrinsicProperties.ValueThenBroadcast | tensorflow_federated/python/core/impl/federated_context/intrinsics.py:412-445 | A value placed at SERVER can always be broadcast to `T@CLIENTS`, all-equal. |
| Intrinsics.FederatedZip | tensorflow_federated/python/core/impl/federated_context/intrinsics.py:471-477 | Succeeds exactly for a non-empty struct of values at one placement, SERVER or CLIENTS. It keeps field names and members; the result is all-equal exactly at SERVER. |
| IntrinsicProperties.ZipOfPair | tensorflow_federated/python/core/impl/federated_context/intrinsics.py:448-477 | Zipping two values placed alike gives the pair of their members at that placement. |
| Intrinsics.CheckSelectKeysType | tensorflow_federated/python/core/impl/federated_context/intrinsics.py:503-512 | The keys pass exactly when they are a CLIENTS rank-1 fixed-length int32 tensor. The error names `client_keys` when the keys are misplaced, and otherwise their member. |
| Intrinsics.CheckSelectKeysTypeAsWritten | tensorflow_federated/python/core/impl/federated_context/intrinsics.py:503-512 | The check as the code evaluates it: the same as the corrected check on federated keys, and an `AttributeError` on any other type. |
| IntrinsicProperties.SelectKeysAsWrittenMisreports | tensorflow_federated/python/core/impl/federated_context/intrinsics.py:503-507 | For non-federated int32 keys, the code raises `AttributeError` where the intended check raises `TypeError` on client_keys. |
| Intrinsics.Select | tensorflow_federated/python/core/impl/federated_context/intrinsics.py:575-619 | Succeeds exactly when keys, max key, server value and select function all fit. The result is a sequence of the function's result at CLIENTS, built by the select factory with the given secure flag. Each error names the parameter at fault. |
| IntrinsicProperties.SelectWellTyped | tensorflow_federated/python/core/impl/federated_context/intrinsics.py:575-619 | Well-shaped select arguments always give `{R*}@CLIENTS`. |
| IntrinsicProperties.SelectMaxKeyMustBeAllEqual | tensorflow_federated/python/core/impl/federated_context/intrinsics.py:579-587 | A SERVER max key that is not all-equal is rejected as `max_key`. |
| Intrinsics.FederatedSelect | tensorflow_federated/python/core/impl/federated_context/intrinsics.py:515-542 | Accepts the same arguments as `Select`, and every error it reports names `federated_select`. |
| Intrinsics.FederatedSecureSelect | tensorflow_federated/python/core/impl/federated_context/intrinsics.py:545-572 | Accepts the same arguments, and every error it reports names `federated_secure_select`. |
| Intrinsics.ExpandBitwidth | tensorflow_federated/python/core/impl/federated_context/intrinsics.py:684-686 | Expanding a single bitwidth over a struct keeps the struct's shape and names, field by field; a non-struct gets the bitwidth itself. |
| IntrinsicProperties.ExpandBitwidthLeaves | tensorflow_federated/python/core/impl/federated_context/intrinsics.py:684-686 | The expanded bitwidth has exactly one bitwidth leaf per leaf of the value's type. |
| IntrinsicProperties.ExpandBitwidthFits | tensorflow_federated/python/core/impl/federated_context/intrinsics.py:676-686 | A bitwidth expanded over a type is a valid bitwidth for it. |
| Intrinsics.FederatedSecureSumBitwidth | tensorflow_federated/python/core/impl/federated_context/intrinsics.py:671-691 | Succeeds exactly for a CLIENTS structure of integers with a matching bitwidth, and gives the member at SERVER. The operand is the expanded bitwidth. Each error says whether value or bitwidth is at fault. |
| IntrinsicProperties.SecureSumBitwidthExpands | tensorflow_federated/python/core/impl/federated_context/intrinsics.py:684-691 | With one scalar bitwidth for a struct of integers, the sum succeeds and passes one int32 bitwidth per leaf. |
| Intrinsics.LiftedSequenceFn | tensorflow_federated/python/core/impl/federated_context/intrinsics.py:740-749 | The function lifted for a federated sequence maps `T*` to `U*`. |
| Intrinsics.SequenceMap | tensorflow_federated/python/core/impl/federated_context/intrinsics.py:731-752 | A non-function fn is a `TypeError`. On a sequence it builds the sequence map with result `U*`. On a federated value it is exactly `FederatedMap` of the lifted function, so it succeeds exactly where that map does and keeps the placement; a parameterless fn is a `TypeError` on fn. Any other argument is a `TypeError` on arg. |
| IntrinsicProperties.SequenceMapDirect | tensorflow_federated/python/core/impl/federated_context/intrinsics.py:733-737 | `T->U` over `T*` gives `U*`. |
| IntrinsicProperties.SequenceMapLifts | tensorflow_federated/python/core/impl/federated_context/intrinsics.py:738-749 | On a federated sequence at any placement, sequence map is exactly the federated map of the lifted function. It succeeds exactly at CLIENTS, or at SERVER when the value is all-equal, and then gives `U*` at the same placement. |
| Intrinsics.ReducePairFn | tensorflow_federated/python/core/impl/federated_context/intrinsics.py:810-819 | The reducing lambda takes the pair of value and zero members, and returns the zero's member. |
| Intrinsics.SequenceReduce | tensorflow_federated/python/core/impl/federated_context/intrinsics.py:793-821 | A sequence reduces to the zero's type. A federated non-sequence is a `TypeError`. A non-federated zero beside a federated value is an `AttributeError`. A federated sequence and a federated zero give exactly `FederatedMap` of the reducing lambda over the pair `<value, zero>`; on success the value's placement is kept. |
| IntrinsicProperties.SequenceReduceLifts | tensorflow_federated/python/core/impl/federated_context/intrinsics.py:810-821 | A federated sequence beside a federated zero reduces exactly when both are at the same placement, SERVER or CLIENTS, and then gives the zero's member at that placement. |
| IntrinsicProperties.SequenceReducePlacementMismatch | tensorflow_federated/python/core/impl/federated_context/intrinsics.py:810-821 | A CLIENTS sequence with a SERVER zero is rejected by the inner federated map, with `TypeError` on arg. |
| Intrinsics.SequenceSum | tensorflow_federated/python/core/impl/federated_context/intrinsics.py:840-865 | A sequence of sum-compatible elements sums to the element type. A federated sequence of sum-compatible elements gives exactly `FederatedMap` of the local `sequence_sum` intrinsic, keeping its placement on success. Anything else is a `TypeError`. |
| IntrinsicProperties.SequenceSumLifts | tensorflow_federated/python/core/impl/federated_context/intrinsics.py:854-862 | A federated sequence sums exactly when its elements are summable and it is at CLIENTS, or all-equal at SERVER; it then gives the element at the same placement. |
| ServiceCodec.CardinalitiesToString | tensorflow_federated/cc/core/impl/executors/executor_service.cc:53-55 | The joined cardinality string is empty exactly for an empty requirement. |
| ServiceCodec.CardinalitiesToStringInjective | tensorflow_federated/cc/core/impl/executors/executor_service.cc:52-55 | Requirements whose placements contain neither `=` nor `,` give the same string only when they are equal, so the string is a sound map key. |
| ServiceCodec.IdToRemoteValue | tensorflow_federated/cc/core/impl/executors/executor_service.cc:57-61 | A value reference is a non-empty string of decimal digits. |
| ServiceCodec.SimpleAtoiOfDigits | tensorflow_federated/cc/core/impl/executors/executor_service.cc:66 | `SimpleAtoiU64`, the model of `absl::SimpleAtoi` into a `uint64`: a plain non-empty digit string parses exactly when its value is below 2^64, to that value. |
| ServiceCodec.SimpleAtoiHasNoMinus | tensorflow_federated/cc/core/impl/executors/executor_service.cc:66 | No text that `SimpleAtoiU64` accepts holds a minus sign once the surrounding white space is trimmed. |
| ServiceCodec.RemoteValueToId | tensorflow_federated/cc/core/impl/executors/executor_service.cc:63-73 | A reference parses exactly when it is an unsigned 64-bit decimal. Otherwise the answer is `INVALID_ARGUMENT` with the reference in the message. |
| ServiceCodec.RemoteValueToIdOfIdToRemoteValue | tensorflow_federated/cc/core/impl/executors/executor_service.cc:57-73 | Every reference the service hands out parses back to its id. |
| ServiceCodec.IdToRemoteValueInjective | tensorflow_federated/cc/core/impl/executors/executor_service.cc:57-61 | Distinct ids get distinct references. |
| ServiceCodec.SimpleAtoiOfDecimal | tensorflow_federated/cc/core/impl/executors/executor_service.cc:66 | The decimal text of a natural parses to it exactly when it is below 2^64. |
| ServiceCodec.NegativeRefRejected | tensorflow_federated/cc/core/impl/executors/executor_service.cc:66-72 | A reference with a minus sign never names an id. |
| ServiceCodec.OverflowRefRejected | tensorflow_federated/cc/core/impl/executors/executor_service.cc:66-72 | The decimal text of 2^64 is rejected with `INVALID_ARGUMENT`. |
| Resolver.MintKeyReadsBack | tensorflow_federated/cc/core/impl/executors/executor_service.cc:96-97 | `MintKey`, the `StrCat` of the executor key: the cardinalities string, a `/`, the service id, a `/`, and then decimal digits that read back as the counter's index. |
| Resolver.MintKeyDeterminesIndex | tensorflow_federated/cc/core/impl/executors/executor_service.cc:95-96 | Two executor keys are equal only when they were minted from the same counter value. |
| Resolver.MintedKeyIsFresh | tensorflow_federated/cc/core/impl/executors/executor_service.cc:95-97 | In a consistent registry, the next key minted is not yet in use. |
| Resolver.Lookup | tensorflow_federated/cc/core/impl/executors/executor_service.cc:117-140 | An id resolves exactly when it is known and its cardinalities have an entry. An unknown id answers `FAILED_PRECONDITION` naming the method and the id. A dangling id answers `INTERNAL`. |
| Resolver.LookupConsistent | tensorflow_federated/cc/core/impl/executors/executor_service.cc:117-140 | In a consistent registry, a known id always resolves to the entry with that id and a positive count, and every failure is `FAILED_PRECONDITION`. |
| Resolver.Acquire | tensorflow_federated/cc/core/impl/executors/executor_service.cc:77-115 | Existing cardinalities share their entry and bump its count, without minting. New cardinalities mint the next key, with count 1, when the factory succeeds; the key is inserted into the id map, and the executors gain exactly that one entry. A factory error is returned, and nothing changes. Other entries are untouched. |
| Resolver.AcquireConsistent | tensorflow_federated/cc/core/impl/executors/executor_service.cc:77-115 | Acquiring keeps the registry consistent. |
| Resolver.AcquiredIdResolves | tensorflow_federated/cc/core/impl/executors/executor_service.cc:77-140 | The id handed out resolves to the entry handed out. |
| Resolver.AcquireTwiceShares | tensorflow_federated/cc/core/impl/executors/executor_service.cc:108-113 | A second request for the same cardinalities gets the same id, and one more reference. |
| Resolver.Destroy | tensorflow_federated/cc/core/impl/executors/executor_service.cc:174-189 | Destroying removes the id and its executor, and nothing else: every other id keeps its cardinalities, every other executor its entry, and the counter its value. An unknown id changes nothing. |
| Resolver.DestroyKeepsOthers | tensorflow_federated/cc/core/impl/executors/executor_service.cc:174-189 | In a consistent registry, destroying one executor leaves every other id resolving exactly as before. |
| Resolver.DestroyConsistent | tensorflow_federated/cc/core/impl/executors/executor_service.cc:174-189 | Destroying keeps the registry consistent. |
| Resolver.Release | tensorflow_federated/cc/core/impl/executors/executor_service.cc:142-172 | An unknown id is OK and changes nothing. A dangling id is `INTERNAL`. Otherwise the count drops by one, and the executor is destroyed when it reaches zero; only its id and its entry are erased. The counter is never changed. |
| Resolver.ReleaseConsistent | tensorflow_federated/cc/core/impl/executors/executor_service.cc:142-172 | On a consistent registry, releasing answers OK and keeps it consistent. |
| Resolver.AcquireThenReleaseShared | tensorflow_federated/cc/core/impl/executors/executor_service.cc:108-172 | Acquiring an existing executor and releasing it restores the registry exactly. |
| Resolver.AcquireThenReleaseNew | tensorflow_federated/cc/core/impl/executors/executor_service.cc:77-189 | Creating an executor and releasing it leaves only the advanced counter behind. The id then answers `FAILED_PRECONDITION`. |
| Resolver.RetiredUnresolvable | tensorflow_federated/cc/core/impl/executors/executor_service.cc:117-130 | A retired id (unknown, and never to be minted again) answers `FAILED_PRECONDITION`. |
| Resolver.KnownIdMintedBehind | tensorflow_federated/cc/core/impl/executors/executor_service.cc:95-97 | Every id of a consistent registry was minted with an index behind the counter. |
| Resolver.RetiredAfterAcquire | tensorflow_federated/cc/core/impl/executors/executor_service.cc:77-115 | Getting an executor never revives a retired id, since a new id carries the counter's current index. |
| Resolver.RetiredAfterDestroy | tensorflow_federated/cc/core/impl/executors/executor_service.cc:174-189 | Destroying an executor keeps a retired id retired. |
| Resolver.RetiredAfterRelease | tensorflow_federated/cc/core/impl/executors/executor_service.cc:142-172 | Disposing of an executor keeps a retired id retired. |
| Resolver.ExecutorResolver.ExecutorForId | tensorflow_federated/cc/core/impl/executors/executor_service.cc:117-140 | The resolver's answer is `Lookup` of its current state, and reading it changes nothing. A consistent resolver resolves exactly the known ids, to the entry carrying the id with a positive count, and otherwise answers `FAILED_PRECONDITION`. |
| Resolver.ExecutorResolver.ExecutorForRequirements | tensorflow_federated/cc/core/impl/executors/executor_service.cc:77-115 | The resolver's state and answer follow `Acquire` on the requirement's cardinality string, and consistency is kept. |
| Resolver.ExecutorResolver.DisposeExecutor | tensorflow_federated/cc/core/impl/executors/executor_service.cc:142-172 | The resolver's state and answer follow `Release`, and consistency is kept. |
| Resolver.ExecutorResolver.DestroyExecutor | tensorflow_federated/cc/core/impl/executors/executor_service.cc:174-189 | The resolver's state follows `Destroy`, and consistency is kept. |
| Service.AfterError | tensorflow_federated/cc/core/impl/executors/executor_service.cc:222-230 | Only `FAILED_PRECONDITION` destroys the executor. |
| Service.AfterErrorConsistent | tensorflow_federated/cc/core/impl/executors/executor_service.cc:222-230 | Handling an executor error keeps the registry consistent. |
| Service.FailedPreconditionRetiresId | tensorflow_federated/cc/core/impl/executors/executor_service.cc:125-230 | Right after a `FAILED_PRECONDITION`, the executor's id answers `FAILED_PRECONDITION` to the next lookup. |
| Service.FailedPreconditionRetires | tensorflow_federated/cc/core/impl/executors/executor_service.cc:222-230 | A `FAILED_PRECONDITION` from the executor an id named leaves the id retired: unknown, and behind the counter, so it is never minted again. By `RetiredUnresolvable` and the `RetiredAfter…` lemmas, it keeps answering `FAILED_PRECONDITION` whatever executors are got, disposed of or destroyed afterwards. |
| Service.Answer | tensorflow_federated/cc/core/impl/executors/executor_service.cc:239-247 | A successful executor answer gives OK and the reference of the new id, with the registry unchanged. An error is returned as is, after error handling. |
| Service.AnswerRefNamesId | tensorflow_federated/cc/core/impl/executors/executor_service.cc:244-245 | The reference a handler returns names the id the executor produced. |
| Service.CallOperands | tensorflow_federated/cc/core/impl/executors/executor_service.cc:255-263 | The function reference is parsed first and the argument only when present. The first malformed one decides the error. |
| Service.ParseRefs | tensorflow_federated/cc/core/impl/executors/executor_service.cc:281-286 | The element references parse exactly when each does, giving their ids in order. |
| Service.ParseRefsFirstError | tensorflow_federated/cc/core/impl/executors/executor_service.cc:281-286 | The first malformed element reference decides the error. |
| Service.ParseRefsOfIds | tensorflow_federated/cc/core/impl/executors/executor_service.cc:57-286 | References the service handed out parse back to exactly their ids. |
| Service.ParseElementRefs | tensorflow_federated/cc/core/impl/executors/executor_service.cc:281-286 | The loop computes `ParseRefs`. |
| Service.DisposeAll | tensorflow_federated/cc/core/impl/executors/executor_service.cc:349-359 | The loop of `Dispose`: malformed references are skipped, each well-formed one is disposed of in order, and the first failure ends the loop. At most one disposal is asked per reference, and an error answer always comes from a disposal that was asked for. |
| Service.DisposeAllInOrder | tensorflow_federated/cc/core/impl/executors/executor_service.cc:345-358 | The ids disposed of are a prefix of the well-formed ones, in request order; malformed references are skipped. |
| Service.DisposeAllEarlierSucceeded | tensorflow_federated/cc/core/impl/executors/executor_service.cc:345-358 | Every disposal before the last one asked for succeeded. |
| Service.DisposeAllOk | tensorflow_federated/cc/core/impl/executors/executor_service.cc:345-359 | An OK answer means every well-formed reference was disposed of, each successfully. |
| Service.DisposeAllError | tensorflow_federated/cc/core/impl/executors/executor_service.cc:350-355 | An error answer is the status of the last disposal asked for. |
| Service.DisposeAllSucceeds | tensorflow_federated/cc/core/impl/executors/executor_service.cc:345-359 | If every disposal succeeds, the answer is OK and every well-formed reference was disposed of. |
| Service.ExecutorService.RequireExecutor | tensorflow_federated/cc/core/impl/executors/executor_service.cc:210-220 | The executor a request names, or the resolver's error. |
| Service.ExecutorService.GetExecutor | tensorflow_federated/cc/core/impl/executors/executor_service.cc:191-208 | The registry follows `Acquire`. On success the answer is OK with the executor id; otherwise the factory's error. |
| Service.ExecutorService.HandleNotOK | tensorflow_federated/cc/core/impl/executors/executor_service.cc:222-230 | The status is passed on unchanged, and the registry follows `AfterError`. |
| Service.ExecutorService.CreateValue | tensorflow_federated/cc/core/impl/executors/executor_service.cc:232-248 | An unknown executor is answered with its error and no change. Otherwise the reply is `Answer` of the executor's result. |
| Service.ExecutorService.CreateCall | tensorflow_federated/cc/core/impl/executors/executor_service.cc:250-272 | Executor, function reference and argument reference are checked in that order, each failure answered with its error and no change. Otherwise the reply is `Answer` of the call. |
| Service.ExecutorService.CreateStruct | tensorflow_federated/cc/core/impl/executors/executor_service.cc:274-296 | An unknown executor or the first malformed element is answered with no change. Otherwise the reply is `Answer` of the struct built from the ids in order. |
| Service.ExecutorService.CreateSelection | tensorflow_federated/cc/core/impl/executors/executor_service.cc:298-315 | An unknown executor or a malformed source is answered with no change. Otherwise the reply is `Answer` of the selection. |
| Service.ExecutorService.Compute | tensorflow_federated/cc/core/impl/executors/executor_service.cc:317-330 | An unknown executor or a malformed reference is answered with no change. Otherwise the materialization status is the answer, and the registry follows `AfterError`. |
| Service.ExecutorService.Dispose | tensorflow_federated/cc/core/impl/executors/executor_service.cc:332-360 | An unknown executor is answered OK, with nothing disposed of. Otherwise the answer and the disposals made are `DisposeAll`. |
| Service.ExecutorService.DisposeExecutor | tensorflow_federated/cc/core/impl/executors/executor_service.cc:362-367 | The answer and the registry follow `Release`. |
| Decimal.DigitsValueOfNatToString | tensorflow_federated/cc/core/impl/executors/executor_service.cc:57-61 | The decimal text of a natural reads back as that natural. |
| Decimal.IntValueOfIntToString | tensorflow_federated/cc/core/impl/executors/executor_service.cc:53-55 | The signed decimal text of a cardinality reads back as that integer. |
| Types.AssignableReflexive | tensorflow_federated/python/core/impl/federated_context/intrinsics.py:117-136 | Every type is assignable from itself, which the intrinsics rely on for exact-type arguments. |
| Types.AllEqualAssignability | tensorflow_federated/python/core/impl/federated_context/intrinsics.py:163-166 | Any federated type takes its all-equal form, but an all-equal type does not take the general form. |

## Left out

- Intrinsics.Select: it, and with it `FederatedSelect` and `FederatedSecureSelect`, uses the corrected keys check `CheckSelectKeysType`. For non-federated `client_keys`, it therefore reports a `TypeError` on client_keys where the code as written raises `AttributeError` (see Findings and `CheckSelectKeysTypeAsWritten`).
- Intrinsics.FederatedEval and Intrinsics.FederatedValue: accept any placement literal, as the Python code does, since neither checks `placement` itself. The documented restriction to SERVER or CLIENTS is left to the building-block factory, which is not part of this model.
- **Uncovered Python paths.** `value_impl.to_value` coercion of Python values and `parameter_type_hint` are not part of this model: every argument is already a typed value.
- **Factories.** The bodies of the building-block factories are not modelled: a built computation is the factory's name and its operands.
- **Warnings.** `warnings.warn` calls, and the exception message texts of the Python intrinsics, are left out. An error records its kind, the intrinsic and the parameter.
- **Helpers defined elsewhere.** The context's `bind_computation_to_reference`, `is_assignable_from`, `ensure_federated_value` and the `type_analysis` predicates are defined in files that are not part of this model. They are modelled structurally, to the rules they are documented to follow. In particular, `NextName` names a new binding as a fixed prefix followed by the number of earlier bindings; the context's actual naming scheme is not modelled.
- **`sequence_map` with a parameterless function.** On a federated argument, the source reads the missing parameter. The model reports this as a `TypeError` on fn, since the exact Python exception depends on code that is not part of this model.
- **`sequence_reduce` docstring.** It promises a `TypeError` for a non-federated zero beside a federated value, where the code reads `zero.type_signature.member`. The model follows the code, with an `AttributeError` on zero.
- **Concurrency.** The gRPC transport, logging, the mutex and its locking are left out. This includes the window in `DisposeExecutor` where the lock is released between the decrement and the destroy. Each call is modelled as atomic.
- **forget().** `OwnedValueId::forget()` only suppresses a destructor, and is left out.
- **Request conversion.** `GetExecutor` first converts the request's repeated cardinalities into a `CardinalityMap`: a sorted map, where a repeated placement keeps its first value. The model takes the map as a sequence in its iteration order.
- **Executor calls.** The executor's own operations (`CreateValue`, `CreateCall`, `CreateStruct`, `CreateSelection`, `Materialize` and `Dispose`) and the executor factory are parameters of the handlers, so their results are inputs.
- **Materialized value.** `Compute`'s materialized value, which is written into the response, is not modelled; only the status is.
- **Service.ExecutorService.Dispose.** The result `disposed` records the ids the executor was asked to dispose of, in order, so that the contract can state the calls made. The source has no such result.
- **Resolver.ExecutorResolver.** The executor counter is an unbounded natural starting at 0. The C++ counter's width and initial value are declared in a header that is not part of this model.
- **Selection index.** `CreateSelection`'s index is passed on as an unbounded integer; its 32-bit width is not modelled.
- **Status type.** gRPC and absl statuses are one `Status` here, and `absl_to_grpc` is the identity on it.

## Findings

| source | as written | input that shows it | evidently intended | confidence | as-written member | corrected member |
|---|---|---|---|---|---|---|
| tensorflow_federated/python/core/impl/federated_context/intrinsics.py:504 | `keys_type.is_federated` is a method reference without a call, so it is always true. For non-federated keys, reading `keys_type.placement` then raises `AttributeError`. | `client_keys` of type `int32[3]`, not federated | a `TypeError` saying `client_keys` must be a federated value placed at clients | not executed | Intrinsics.CheckSelectKeysTypeAsWritten (shown by IntrinsicProperties.SelectKeysAsWrittenMisreports) | Intrinsics.CheckSelectKeysType |
