/**
 * The federated and sequence intrinsics: each one checks the types of its
 * operands, builds the IR node for the intrinsic and binds it to a fresh
 * reference in the current context. The ambient context stack is an explicit
 * parameter, and every failure is a `Failure` naming the intrinsic and the
 * parameter at fault, the way the raised exception does.
 */
module Intrinsics {
  import opened Wrappers
  import opened Decimal
  import opened Types
  import opened TypeAnalysis
  import opened BuildingBlocks

  const AGGREGATE := "federated_aggregate"
  const BROADCAST := "federated_broadcast"
  const COLLECT := "federated_collect"
  const EVAL := "federated_eval"
  const MAP := "federated_map"
  const MAP_ALL_EQUAL := "federated_map_all_equal"
  const MEAN := "federated_mean"
  const SUM := "federated_sum"
  const VALUE := "federated_value"
  const ZIP := "federated_zip"
  const SECURE_SUM_BITWIDTH := "federated_secure_sum_bitwidth"
  const SEQUENCE_MAP := "sequence_map"
  const SEQUENCE_REDUCE := "sequence_reduce"
  const SEQUENCE_SUM := "sequence_sum"

  /** The exception an intrinsic raises; `parameter` names the operand it complains about. */
  datatype Error =
    | TypeError(intrinsic: string, parameter: string)
    | IndexError(intrinsic: string, parameter: string)
    | AttributeError(intrinsic: string, parameter: string)
    | ContextError

  datatype Binding = Binding(name: string, comp: Comp)

  /**
   * The current federated-computation context: one that binds computations to
   * fresh names (`prefix` followed by the number of earlier bindings), or one
   * that cannot bind at all.
   */
  datatype Context =
    | SymbolBinding(prefix: string, bindings: seq<Binding>)
    | NonBinding(description: string)

  /** An intrinsic's result: the reference it returns and the context after binding. */
  datatype Bound = Bound(value: Value, ctx: Context)

  /** The name the next binding in `ctx` receives. */
  function NextName(ctx: Context): string
    requires ctx.SymbolBinding?
  {
    ctx.prefix + NatToString(|ctx.bindings|)
  }

  /** Every binding carries the name it was given when it was made. */
  predicate WellNamed(ctx: Context)
  {
    ctx.SymbolBinding? ==>
      forall i | 0 <= i < |ctx.bindings| :: ctx.bindings[i].name == ctx.prefix + NatToString(i)
  }

  /**
   * `b` is `ctx` with exactly one binding appended, under the next fresh name,
   * and `b` returns a reference to that name carrying the bound type.
   */
  predicate Extends(ctx: Context, b: Bound)
  {
    && ctx.SymbolBinding? && b.ctx.SymbolBinding?
    && b.ctx.prefix == ctx.prefix
    && |b.ctx.bindings| == |ctx.bindings| + 1
    && b.ctx.bindings[..|ctx.bindings|] == ctx.bindings
    && b.ctx.bindings[|ctx.bindings|].name == NextName(ctx)
    && b.value.comp == Reference(NextName(ctx), b.value.ty)
  }

  /** `b` binds `comp` of type `ty` on top of `ctx`. */
  predicate Lowered(ctx: Context, b: Bound, comp: Comp, ty: Type)
  {
    Extends(ctx, b) && b.ctx.bindings[|ctx.bindings|].comp == comp && b.value.ty == ty
  }

  /**
   * Binds `comp` to a fresh reference of type `ty`; only a symbol-binding
   * context can do that.
   */
  function BindCompAsReference(ctx: Context, comp: Comp, ty: Type): (r: Result<Bound, Error>)
    ensures r.Success? <==> ctx.SymbolBinding?
    ensures r.Failure? ==> r.error == ContextError
    ensures r.Success? ==> Lowered(ctx, r.value, comp, ty)
    ensures r.Success? && WellNamed(ctx) ==> WellNamed(r.value.ctx)
  {
    if ctx.NonBinding? then Failure(ContextError)
    else
      var name := NextName(ctx);
      Success(Bound(Value(Reference(name, ty), ty),
                    SymbolBinding(ctx.prefix, ctx.bindings + [Binding(name, comp)])))
  }

  /** In a well-named context the next name is new. */
  lemma NextNameIsFresh(ctx: Context)
    requires ctx.SymbolBinding? && WellNamed(ctx)
    ensures forall i | 0 <= i < |ctx.bindings| :: ctx.bindings[i].name != NextName(ctx)
  {
    forall i | 0 <= i < |ctx.bindings|
      ensures ctx.bindings[i].name != NextName(ctx)
    {
      if ctx.bindings[i].name == NextName(ctx) {
        assert NatToString(i) == NatToString(|ctx.bindings|) by {
          var p := ctx.prefix;
          assert (p + NatToString(i))[|p|..] == NatToString(i);
          assert (p + NatToString(|ctx.bindings|))[|p|..] == NatToString(|ctx.bindings|);
        }
        NatToStringInjective(i, |ctx.bindings|);
      }
    }
  }

  // ----- federated values and the implicit zip of `ensure_federated_value` -----

  /** A non-empty struct of federated values that all sit at SERVER, or all at CLIENTS. */
  predicate Zippable(t: Type)
  {
    && t.StructT? && |t.fields| > 0
    && t.fields[0].ty.FederatedT?
    && (t.fields[0].ty.placement == Server || t.fields[0].ty.placement == Clients)
    && forall i | 0 <= i < |t.fields| ::
         t.fields[i].ty.FederatedT? && t.fields[i].ty.placement == t.fields[0].ty.placement
  }

  function MemberOf(t: Type): Type
  {
    if t.FederatedT? then t.member else t
  }

  /** The type of zipping a `Zippable` struct: the struct of members, at the common placement. */
  function ZippedType(t: Type): (r: Type)
    requires Zippable(t)
    ensures r.FederatedT? && r.placement == t.fields[0].ty.placement
    ensures r.allEqual <==> r.placement == Server
    ensures r.member.StructT? && |r.member.fields| == |t.fields|
    ensures forall i | 0 <= i < |t.fields| ::
              r.member.fields[i] == Field(t.fields[i].name, t.fields[i].ty.member)
  {
    var fs := t.fields;
    var p := fs[0].ty.placement;
    FederatedT(StructT(seq(|fs|, i requires 0 <= i < |fs| => Field(fs[i].name, MemberOf(fs[i].ty)))),
               p, p == Server)
  }

  /** The federated type a value has once `ensure_federated_value` has zipped it, if it can. */
  function AsFederated(t: Type): (r: Option<Type>)
    ensures r.Some? ==> r.value.FederatedT?
  {
    if t.FederatedT? then Some(t) else if Zippable(t) then Some(ZippedType(t)) else None
  }

  /** A value of type `t` is, possibly after zipping, federated at `p`. */
  predicate PlacedAt(t: Type, p: Placement)
  {
    AsFederated(t).Some? && AsFederated(t).value.placement == p
  }

  function FedOf(t: Type): (r: Type)
    requires AsFederated(t).Some?
    ensures r.FederatedT?
  {
    AsFederated(t).value
  }

  /**
   * `value_utils.ensure_federated_value`: a federated value passes through, a
   * zippable struct is zipped, anything else is a type error; when a
   * placement is asked for, the result must have it.
   */
  function EnsureFederated(intrinsic: string, parameter: string, v: Value, placement: Option<Placement>)
    : (r: Result<Value, Error>)
    ensures r.Success? <==> AsFederated(v.ty).Some? && (placement.Some? ==> PlacedAt(v.ty, placement.value))
    ensures r.Success? ==> r.value.ty == FedOf(v.ty)
    ensures r.Success? && v.ty.FederatedT? ==> r.value == v
    ensures r.Success? && !v.ty.FederatedT? ==> r.value.comp == Built(CreateFederatedZip, [v.comp])
    ensures r.Failure? ==> r.error == TypeError(intrinsic, parameter)
  {
    var fed :- if v.ty.FederatedT? then Success(v)
               else if Zippable(v.ty) then Success(Value(Built(CreateFederatedZip, [v.comp]), ZippedType(v.ty)))
               else Failure(TypeError(intrinsic, parameter));
    :- Need(placement.None? || fed.ty.placement == placement.value, TypeError(intrinsic, parameter));
    Success(fed)
  }

  // ----- federated_aggregate -----

  /** The type rule of `federated_aggregate`, `<{T}@CLIENTS, U, (<U,T>->U), (<U,U>->U), (U->R)> -> R@SERVER`. */
  predicate AggregateAccepts(value: Type, zero: Type, accumulate: Type, merge: Type, report: Type)
  {
    && PlacedAt(value, Clients)
    && accumulate.FunctionT? && merge.FunctionT? && report.FunctionT?
    && accumulate.parameter.Some? && accumulate.parameter.value.StructT?
    && |accumulate.parameter.value.fields| > 0
    && IsAssignableFrom(accumulate.parameter.value.fields[0].ty, zero)
    && IsAssignableFrom(ReductionOp(accumulate.result, FedOf(value).member), accumulate)
    && IsAssignableFrom(ReductionOp(accumulate.result, accumulate.result), merge)
    && IsAssignableFrom(FunctionT(Some(merge.result), report.result), report)
  }

  /** `parameter[0]` of a function type: a `TypeError` unless it is a struct, an `IndexError` if that is empty. */
  function FirstParameter(intrinsic: string, parameter: string, f: Type): (r: Result<Type, Error>)
    requires f.FunctionT?
    ensures r.Success? <==> f.parameter.Some? && f.parameter.value.StructT? && |f.parameter.value.fields| > 0
    ensures r.Success? ==> r.value == f.parameter.value.fields[0].ty
    ensures r.Failure? && f.parameter.Some? && f.parameter.value.StructT? ==> r.error == IndexError(intrinsic, parameter)
    ensures r.Failure? && !(f.parameter.Some? && f.parameter.value.StructT?) ==> r.error == TypeError(intrinsic, parameter)
  {
    match f.parameter
    case Some(StructT(fs)) =>
      if |fs| == 0 then Failure(IndexError(intrinsic, parameter)) else Success(fs[0].ty)
    case _ => Failure(TypeError(intrinsic, parameter))
  }

  function FederatedAggregate(ctx: Context, value: Value, zero: Value, accumulate: Value, merge: Value, report: Value)
    : (r: Result<Bound, Error>)
    ensures r.Success? <==> ctx.SymbolBinding? && AggregateAccepts(value.ty, zero.ty, accumulate.ty, merge.ty, report.ty)
    ensures r.Success? ==> Extends(ctx, r.value) && r.value.value.ty == AtServer(report.ty.result)
    ensures r.Failure? && r.error == ContextError ==> AggregateAccepts(value.ty, zero.ty, accumulate.ty, merge.ty, report.ty)
    ensures r.Failure? ==> r.error in {ContextError, TypeError(AGGREGATE, "value"), TypeError(AGGREGATE, "zero"),
                                       TypeError(AGGREGATE, "accumulate"), IndexError(AGGREGATE, "accumulate"),
                                       TypeError(AGGREGATE, "merge"), TypeError(AGGREGATE, "report")}
    ensures r.Failure? && r.error == TypeError(AGGREGATE, "value") ==> !PlacedAt(value.ty, Clients)
    ensures r.Failure? && r.error == IndexError(AGGREGATE, "accumulate") ==>
              accumulate.ty.FunctionT? && accumulate.ty.parameter == Some(StructT([]))
    ensures r.Failure? && r.error == TypeError(AGGREGATE, "zero") ==>
              accumulate.ty.FunctionT? && FirstParameter(AGGREGATE, "accumulate", accumulate.ty).Success?
              && !IsAssignableFrom(FirstParameter(AGGREGATE, "accumulate", accumulate.ty).value, zero.ty)
    ensures r.Failure? && r.error == TypeError(AGGREGATE, "accumulate") ==>
              || !accumulate.ty.FunctionT?
              || !(accumulate.ty.parameter.Some? && accumulate.ty.parameter.value.StructT?)
              || (PlacedAt(value.ty, Clients)
                  && !IsAssignableFrom(ReductionOp(accumulate.ty.result, FedOf(value.ty).member), accumulate.ty))
    ensures r.Failure? && r.error == TypeError(AGGREGATE, "merge") ==>
              || !merge.ty.FunctionT?
              || (accumulate.ty.FunctionT?
                  && !IsAssignableFrom(ReductionOp(accumulate.ty.result, accumulate.ty.result), merge.ty))
    ensures r.Failure? && r.error == TypeError(AGGREGATE, "report") ==>
              || !report.ty.FunctionT?
              || (merge.ty.FunctionT?
                  && !IsAssignableFrom(FunctionT(Some(merge.ty.result), report.ty.result), report.ty))
  {
    var fed :- EnsureFederated(AGGREGATE, "value", value, Some(Clients));
    :- Need(accumulate.ty.FunctionT?, TypeError(AGGREGATE, "accumulate"));
    :- Need(merge.ty.FunctionT?, TypeError(AGGREGATE, "merge"));
    :- Need(report.ty.FunctionT?, TypeError(AGGREGATE, "report"));
    var zeroTarget :- FirstParameter(AGGREGATE, "accumulate", accumulate.ty);
    :- Need(IsAssignableFrom(zeroTarget, zero.ty), TypeError(AGGREGATE, "zero"));
    var acc := accumulate.ty.result;
    :- Need(IsAssignableFrom(ReductionOp(acc, fed.ty.member), accumulate.ty), TypeError(AGGREGATE, "accumulate"));
    :- Need(IsAssignableFrom(ReductionOp(acc, acc), merge.ty), TypeError(AGGREGATE, "merge"));
    :- Need(IsAssignableFrom(FunctionT(Some(merge.ty.result), report.ty.result), report.ty),
            TypeError(AGGREGATE, "report"));
    BindCompAsReference(ctx, Built(CreateFederatedAggregate, [fed.comp, zero.comp, accumulate.comp, merge.comp, report.comp]),
                        AtServer(report.ty.result))
  }

  // ----- broadcast, collect, eval -----

  function FederatedBroadcast(ctx: Context, value: Value): (r: Result<Bound, Error>)
    ensures r.Success? <==> ctx.SymbolBinding? && PlacedAt(value.ty, Server) && FedOf(value.ty).allEqual
    ensures r.Success? ==> Extends(ctx, r.value) && r.value.value.ty == FederatedT(FedOf(value.ty).member, Clients, true)
    ensures r.Failure? ==> r.error == ContextError || r.error == TypeError(BROADCAST, "value")
    ensures r.Failure? && r.error == ContextError ==> PlacedAt(value.ty, Server) && FedOf(value.ty).allEqual
    ensures value.ty.FederatedT? && value.ty.placement == Server ==>
              (r.Failure? && r.error.TypeError? <==> !value.ty.allEqual)
  {
    var fed :- EnsureFederated(BROADCAST, "value", value, Some(Server));
    :- Need(fed.ty.allEqual, TypeError(BROADCAST, "value"));
    BindCompAsReference(ctx, Built(CreateFederatedBroadcast, [fed.comp]), FederatedT(fed.ty.member, Clients, true))
  }

  function FederatedCollect(ctx: Context, value: Value): (r: Result<Bound, Error>)
    ensures r.Success? <==> ctx.SymbolBinding? && PlacedAt(value.ty, Clients)
    ensures r.Success? ==> Extends(ctx, r.value) && r.value.value.ty == AtServer(SequenceT(FedOf(value.ty).member))
    ensures r.Failure? ==> r.error == ContextError || r.error == TypeError(COLLECT, "value")
    ensures r.Failure? && r.error == ContextError ==> PlacedAt(value.ty, Clients)
  {
    var fed :- EnsureFederated(COLLECT, "value", value, Some(Clients));
    BindCompAsReference(ctx, Built(CreateFederatedCollect, [fed.comp]), AtServer(SequenceT(fed.ty.member)))
  }

  function FederatedEval(ctx: Context, fn: Value, placement: Placement): (r: Result<Bound, Error>)
    ensures r.Success? <==> ctx.SymbolBinding? && fn.ty.FunctionT? && fn.ty.parameter.None?
    ensures r.Success? ==>
              Extends(ctx, r.value) && r.value.value.ty == FederatedT(fn.ty.result, placement, DefaultAllEqual(placement))
    ensures r.Failure? ==> r.error == ContextError || r.error == TypeError(EVAL, "fn")
    ensures r.Failure? && r.error == ContextError ==> fn.ty.FunctionT? && fn.ty.parameter.None?
    ensures fn.ty.FunctionT? ==> (r.Failure? && r.error.TypeError? <==> fn.ty.parameter.Some?)
  {
    if !(fn.ty.FunctionT? && fn.ty.parameter.None?) then Failure(TypeError(EVAL, "fn"))
    else BindCompAsReference(ctx, Built(CreateFederatedEval(placement), [fn.comp]),
                        FederatedT(fn.ty.result, placement, DefaultAllEqual(placement)))
  }

  // ----- federated_map and federated_map_all_equal -----

  /**
   * The type rule of `federated_map`: `fn` takes the member type, and the
   * argument is at CLIENTS, or at SERVER with all members equal.
   */
  predicate MapAccepts(fn: Type, arg: Type)
  {
    && AsFederated(arg).Some?
    && fn.FunctionT? && fn.parameter.Some?
    && IsAssignableFrom(fn.parameter.value, FedOf(arg).member)
    && ((FedOf(arg).placement == Server && FedOf(arg).allEqual) || FedOf(arg).placement == Clients)
  }

  /** The type `federated_map` gives its result: `fn`'s result at the argument's placement. */
  function MappedType(fn: Type, arg: Type): Type
    requires fn.FunctionT? && AsFederated(arg).Some?
  {
    var p := FedOf(arg).placement;
    FederatedT(fn.result, p, p == Server)
  }

  function FederatedMap(ctx: Context, fn: Value, arg: Value): (r: Result<Bound, Error>)
    ensures r.Success? <==> ctx.SymbolBinding? && MapAccepts(fn.ty, arg.ty)
    ensures r.Success? ==> Extends(ctx, r.value) && r.value.value.ty == MappedType(fn.ty, arg.ty)
    ensures r.Success? ==>
              var f := r.value.ctx.bindings[|ctx.bindings|].comp;
              f.Built? && f.factory == (if FedOf(arg.ty).placement == Server then CreateFederatedApply else CreateFederatedMap)
    ensures r.Failure? ==> r.error in {ContextError, TypeError(MAP, "arg"), TypeError(MAP, "fn"), AttributeError(MAP, "fn")}
    ensures r.Failure? && r.error == ContextError ==> MapAccepts(fn.ty, arg.ty)
    ensures r.Failure? && r.error == AttributeError(MAP, "fn") ==> fn.ty.FunctionT? && fn.ty.parameter.None?
    ensures r.Failure? && r.error == TypeError(MAP, "fn") ==>
              AsFederated(arg.ty).Some?
              && (!fn.ty.FunctionT? || (fn.ty.parameter.Some? && !IsAssignableFrom(fn.ty.parameter.value, FedOf(arg.ty).member)))
    ensures r.Failure? && r.error == TypeError(MAP, "arg") ==>
              || AsFederated(arg.ty).None?
              || (FedOf(arg.ty).placement == Server && !FedOf(arg.ty).allEqual)
              || FedOf(arg.ty).placement.OtherPlacement?
  {
    var fed :- EnsureFederated(MAP, "arg", arg, None);
    :- Need(fn.ty.FunctionT?, TypeError(MAP, "fn"));
    :- Need(fn.ty.parameter.Some?, AttributeError(MAP, "fn"));
    :- Need(IsAssignableFrom(fn.ty.parameter.value, fed.ty.member), TypeError(MAP, "fn"));
    var ty := FederatedT(fn.ty.result, fed.ty.placement, fed.ty.placement == Server);
    if fed.ty.placement == Server then
      :- Need(fed.ty.allEqual, TypeError(MAP, "arg"));
      BindCompAsReference(ctx, Built(CreateFederatedApply, [fn.comp, fed.comp]), ty)
    else if fed.ty.placement == Clients then
      BindCompAsReference(ctx, Built(CreateFederatedMap, [fn.comp, fed.comp]), ty)
    else
      Failure(TypeError(MAP, "arg"))
  }

  function FederatedMapAllEqual(ctx: Context, fn: Value, arg: Value): (r: Result<Bound, Error>)
    ensures r.Success? <==>
              && ctx.SymbolBinding? && PlacedAt(arg.ty, Clients)
              && fn.ty.FunctionT? && fn.ty.parameter.Some?
              && IsAssignableFrom(fn.ty.parameter.value, FedOf(arg.ty).member)
    ensures r.Success? ==> Extends(ctx, r.value) && r.value.value.ty == FederatedT(fn.ty.result, Clients, true)
    ensures r.Failure? ==>
              r.error in {ContextError, TypeError(MAP_ALL_EQUAL, "arg"), TypeError(MAP_ALL_EQUAL, "fn"),
                          AttributeError(MAP_ALL_EQUAL, "fn")}
    ensures r.Failure? && r.error == TypeError(MAP_ALL_EQUAL, "arg") ==> !PlacedAt(arg.ty, Clients)
    ensures r.Failure? && r.error == AttributeError(MAP_ALL_EQUAL, "fn") ==> fn.ty.FunctionT? && fn.ty.parameter.None?
    ensures r.Failure? && r.error == ContextError ==> PlacedAt(arg.ty, Clients) && fn.ty.FunctionT?
  {
    var fed :- EnsureFederated(MAP_ALL_EQUAL, "arg", arg, Some(Clients));
    :- Need(fn.ty.FunctionT?, TypeError(MAP_ALL_EQUAL, "fn"));
    :- Need(fn.ty.parameter.Some?, AttributeError(MAP_ALL_EQUAL, "fn"));
    :- Need(IsAssignableFrom(fn.ty.parameter.value, fed.ty.member), TypeError(MAP_ALL_EQUAL, "fn"));
    BindCompAsReference(ctx, Built(CreateFederatedMapAllEqual, [fn.comp, fed.comp]), FederatedT(fn.ty.result, Clients, true))
  }

  // ----- mean, sum, value, zip -----

  /** A weight for `federated_mean`: an integer or floating-point scalar at CLIENTS. */
  predicate IsMeanWeight(t: Type)
  {
    && PlacedAt(t, Clients)
    && FedOf(t).member.TensorT?
    && FedOf(t).member.shape == Scalar
    && (FedOf(t).member.dtype.IsInteger() || FedOf(t).member.dtype.IsFloating())
  }

  function FederatedMean(ctx: Context, value: Value, weight: Option<Value>): (r: Result<Bound, Error>)
    ensures r.Success? <==>
              && ctx.SymbolBinding? && PlacedAt(value.ty, Clients) && IsAverageCompatible(FedOf(value.ty))
              && (weight.Some? ==> IsMeanWeight(weight.value.ty))
    ensures r.Success? ==> Extends(ctx, r.value) && r.value.value.ty == AtServer(FedOf(value.ty).member)
    ensures r.Failure? ==> r.error in {ContextError, TypeError(MEAN, "value"), TypeError(MEAN, "weight")}
    ensures r.Failure? && r.error == TypeError(MEAN, "value") ==>
              !PlacedAt(value.ty, Clients) || !IsAverageCompatible(FedOf(value.ty))
    ensures r.Failure? && r.error == TypeError(MEAN, "weight") ==> weight.Some? && !IsMeanWeight(weight.value.ty)
    ensures r.Failure? && r.error == ContextError ==> PlacedAt(value.ty, Clients) && IsAverageCompatible(FedOf(value.ty))
  {
    var fed :- EnsureFederated(MEAN, "value", value, Some(Clients));
    :- Need(IsAverageCompatible(fed.ty), TypeError(MEAN, "value"));
    var weightComps :- match weight
      case None => Success([])
      case Some(w) =>
        var fw :- EnsureFederated(MEAN, "weight", w, Some(Clients));
        :- Need(fw.ty.member.TensorT?, TypeError(MEAN, "weight"));
        :- Need(fw.ty.member.shape == Scalar, TypeError(MEAN, "weight"));
        :- Need(fw.ty.member.dtype.IsInteger() || fw.ty.member.dtype.IsFloating(), TypeError(MEAN, "weight"));
        Success([fw.comp]);
    BindCompAsReference(ctx, Built(CreateFederatedMean, [fed.comp] + weightComps), AtServer(fed.ty.member))
  }

  function FederatedSum(ctx: Context, value: Value): (r: Result<Bound, Error>)
    ensures r.Success? <==> ctx.SymbolBinding? && PlacedAt(value.ty, Clients) && IsSumCompatible(FedOf(value.ty))
    ensures r.Success? ==> Extends(ctx, r.value) && r.value.value.ty == AtServer(FedOf(value.ty).member)
    ensures r.Failure? ==> r.error == ContextError || r.error == TypeError(SUM, "value")
    ensures r.Failure? && r.error == ContextError ==> PlacedAt(value.ty, Clients) && IsSumCompatible(FedOf(value.ty))
  {
    var fed :- EnsureFederated(SUM, "value", value, Some(Clients));
    :- Need(IsSumCompatible(fed.ty), TypeError(SUM, "value"));
    BindCompAsReference(ctx, Built(CreateFederatedSum, [fed.comp]), AtServer(fed.ty.member))
  }

  function FederatedValue(ctx: Context, value: Value, placement: Placement): (r: Result<Bound, Error>)
    ensures r.Success? <==> ctx.SymbolBinding? && !ContainsFederated(value.ty)
    ensures r.Success? ==> Extends(ctx, r.value) && r.value.value.ty == FederatedT(value.ty, placement, true)
    ensures r.Failure? ==> r.error == ContextError || r.error == TypeError(VALUE, "value")
    ensures r.Failure? && r.error == TypeError(VALUE, "value") ==> ContainsFederated(value.ty)
  {
    if ContainsFederated(value.ty) then Failure(TypeError(VALUE, "value"))
    else BindCompAsReference(ctx, Built(CreateFederatedValue(placement), [value.comp]), FederatedT(value.ty, placement, true))
  }

  function FederatedZip(ctx: Context, value: Value): (r: Result<Bound, Error>)
    ensures r.Success? <==> ctx.SymbolBinding? && Zippable(value.ty)
    ensures r.Success? ==> Extends(ctx, r.value) && r.value.value.ty == ZippedType(value.ty)
    ensures r.Failure? ==> r.error == ContextError || r.error == TypeError(ZIP, "value")
    ensures r.Failure? && r.error == TypeError(ZIP, "value") ==> !Zippable(value.ty)
  {
    if !Zippable(value.ty) then Failure(TypeError(ZIP, "value"))
    else BindCompAsReference(ctx, Built(CreateFederatedZip, [value.comp]), ZippedType(value.ty))
  }

  // ----- federated_select and federated_secure_select -----

  /** The intrinsic name a select error reports. */
  function SelectName(secure: bool): string
  {
    "federated" + (if secure then "_secure" else "") + "_select"
  }

  /** `{int32[N]}@CLIENTS` for a known `N`. */
  predicate IsClientKeysType(t: Type)
  {
    && t.FederatedT? && t.placement == Clients
    && t.member.TensorT? && t.member.dtype == Int32
    && t.member.shape.Known? && |t.member.shape.dims| == 1 && t.member.shape.dims[0].Some?
  }

  /**
   * The intended check on the keys: a keys value that is not federated at
   * CLIENTS is reported against `client_keys`, a wrong member type against
   * `client_keys.type_signature.member`.
   */
  function CheckSelectKeysType(keysType: Type, secure: bool): (r: Outcome<Error>)
    ensures r.Pass? <==> IsClientKeysType(keysType)
    ensures r.Fail? && keysType.FederatedT? && keysType.placement == Clients ==>
              r.error == TypeError(SelectName(secure), "client_keys.type_signature.member")
    ensures r.Fail? && !(keysType.FederatedT? && keysType.placement == Clients) ==>
              r.error == TypeError(SelectName(secure), "client_keys")
  {
    if !(keysType.FederatedT? && keysType.placement == Clients) then
      Fail(TypeError(SelectName(secure), "client_keys"))
    else if !IsClientKeysType(keysType) then
      Fail(TypeError(SelectName(secure), "client_keys.type_signature.member"))
    else Pass
  }

  /**
   * The check on the keys as the code states it: its federated test reads the
   * `is_federated` method without calling it, which is always true, so for a
   * value that is not federated the next step, reading `placement`, raises
   * `AttributeError` in place of the `TypeError` the check means to raise.
   */
  function CheckSelectKeysTypeAsWritten(keysType: Type, secure: bool): (r: Outcome<Error>)
    ensures keysType.FederatedT? ==> r == CheckSelectKeysType(keysType, secure)
    ensures !keysType.FederatedT? ==> r == Fail(AttributeError(SelectName(secure), "client_keys"))
  {
    if !keysType.FederatedT? then Fail(AttributeError(SelectName(secure), "client_keys"))
    else if keysType.placement != Clients then Fail(TypeError(SelectName(secure), "client_keys"))
    else if !IsClientKeysType(keysType) then
      Fail(TypeError(SelectName(secure), "client_keys.type_signature.member"))
    else Pass
  }

  /** The type `select_fn` must accept: `<S, int32>` for a server value of type `S@SERVER`. */
  function SelectFnParameter(serverVal: Type): Type
    requires serverVal.FederatedT?
  {
    Pair(serverVal.member, Int32Scalar)
  }

  /** The type rule of the select intrinsics. */
  predicate SelectAccepts(keys: Type, maxKey: Type, serverVal: Type, selectFn: Type)
  {
    && IsClientKeysType(keys)
    && IsAssignableFrom(AtServer(Int32Scalar), maxKey)
    && serverVal.FederatedT? && serverVal.placement == Server
    && selectFn.FunctionT? && selectFn.parameter.Some?
    && IsAssignableFrom(selectFn.parameter.value, SelectFnParameter(serverVal))
  }

  /** The shared body of both select intrinsics; `secure` picks the name used in errors and the factory flag. */
  function Select(ctx: Context, clientKeys: Value, maxKey: Value, serverVal: Value, selectFn: Value, secure: bool)
    : (r: Result<Bound, Error>)
    ensures r.Success? <==> ctx.SymbolBinding? && SelectAccepts(clientKeys.ty, maxKey.ty, serverVal.ty, selectFn.ty)
    ensures r.Success? ==>
              && Extends(ctx, r.value)
              && r.value.value.ty == FederatedT(SequenceT(selectFn.ty.result), Clients, false)
              && r.value.ctx.bindings[|ctx.bindings|].comp
                 == Built(CreateFederatedSelect(secure), [clientKeys.comp, maxKey.comp, serverVal.comp, selectFn.comp])
    ensures r.Failure? ==>
              r.error in {ContextError,
                          TypeError(SelectName(secure), "client_keys"),
                          TypeError(SelectName(secure), "client_keys.type_signature.member"),
                          TypeError(SelectName(secure), "max_key"),
                          TypeError(SelectName(secure), "server_val"),
                          TypeError(SelectName(secure), "select_fn"),
                          AttributeError(SelectName(secure), "select_fn")}
    ensures r.Failure? && r.error == TypeError(SelectName(secure), "max_key") ==>
              IsClientKeysType(clientKeys.ty) && !IsAssignableFrom(AtServer(Int32Scalar), maxKey.ty)
    ensures r.Failure? && r.error == TypeError(SelectName(secure), "server_val") ==>
              !(serverVal.ty.FederatedT? && serverVal.ty.placement == Server)
    ensures r.Failure? && r.error == AttributeError(SelectName(secure), "select_fn") ==>
              selectFn.ty.FunctionT? && selectFn.ty.parameter.None?
    ensures r.Failure? && r.error == ContextError ==> SelectAccepts(clientKeys.ty, maxKey.ty, serverVal.ty, selectFn.ty)
  {
    var name := SelectName(secure);
    :- CheckSelectKeysType(clientKeys.ty, secure);
    :- Need(IsAssignableFrom(AtServer(Int32Scalar), maxKey.ty), TypeError(name, "max_key"));
    :- Need(serverVal.ty.FederatedT? && serverVal.ty.placement == Server, TypeError(name, "server_val"));
    :- Need(selectFn.ty.FunctionT?, TypeError(name, "select_fn"));
    :- Need(selectFn.ty.parameter.Some?, AttributeError(name, "select_fn"));
    :- Need(IsAssignableFrom(selectFn.ty.parameter.value, SelectFnParameter(serverVal.ty)), TypeError(name, "select_fn"));
    BindCompAsReference(ctx, Built(CreateFederatedSelect(secure), [clientKeys.comp, maxKey.comp, serverVal.comp, selectFn.comp]),
                        FederatedT(SequenceT(selectFn.ty.result), Clients, false))
  }

  function FederatedSelect(ctx: Context, clientKeys: Value, maxKey: Value, serverVal: Value, selectFn: Value)
    : (r: Result<Bound, Error>)
    ensures r.Success? <==> ctx.SymbolBinding? && SelectAccepts(clientKeys.ty, maxKey.ty, serverVal.ty, selectFn.ty)
    ensures r.Failure? && r.error != ContextError ==> r.error.intrinsic == "federated_select"
  {
    Select(ctx, clientKeys, maxKey, serverVal, selectFn, false)
  }

  function FederatedSecureSelect(ctx: Context, clientKeys: Value, maxKey: Value, serverVal: Value, selectFn: Value)
    : (r: Result<Bound, Error>)
    ensures r.Success? <==> ctx.SymbolBinding? && SelectAccepts(clientKeys.ty, maxKey.ty, serverVal.ty, selectFn.ty)
    ensures r.Failure? && r.error != ContextError ==> r.error.intrinsic == "federated_secure_select"
  {
    Select(ctx, clientKeys, maxKey, serverVal, selectFn, true)
  }

  // ----- federated_secure_sum_bitwidth -----

  /**
   * `map_structure(lambda _: bitwidth, member)`: the struct of the shape of
   * `t`, same names, with the bitwidth value at every non-struct position.
   */
  function ExpandBitwidth(t: Type, b: Value): (r: Value)
    ensures !t.StructT? ==> r == b
    ensures t.StructT? ==> r.ty.StructT? && |r.ty.fields| == |t.fields|
    ensures t.StructT? ==> forall i | 0 <= i < |t.fields| ::
              r.ty.fields[i] == Field(t.fields[i].name, ExpandBitwidth(t.fields[i].ty, b).ty)
    decreases t, 1
  {
    if t.StructT? then
      var vs := ExpandFields(t, b, 0);
      Value(StructComp(seq(|vs|, i requires 0 <= i < |vs| => vs[i].comp)),
            StructT(seq(|vs|, i requires 0 <= i < |vs| => Field(t.fields[i].name, vs[i].ty))))
    else b
  }

  /** The expansions of the fields of struct `t` from position `k` on. */
  function ExpandFields(t: Type, b: Value, k: nat): (vs: seq<Value>)
    requires t.StructT? && k <= |t.fields|
    ensures |vs| == |t.fields| - k
    ensures forall i | 0 <= i < |vs| :: vs[i] == ExpandBitwidth(t.fields[k + i].ty, b)
    decreases t, 0, |t.fields| - k
  {
    if k == |t.fields| then [] else [ExpandBitwidth(t.fields[k].ty, b)] + ExpandFields(t, b, k + 1)
  }

  /** The bitwidth operand after expansion: a single bitwidth for a struct value becomes one per tensor. */
  function BitwidthOperand(member: Type, bitwidth: Value): Value
  {
    if bitwidth.ty.TensorT? && member.StructT? then ExpandBitwidth(member, bitwidth) else bitwidth
  }

  function FederatedSecureSumBitwidth(ctx: Context, value: Value, bitwidth: Value): (r: Result<Bound, Error>)
    ensures r.Success? <==>
              && ctx.SymbolBinding? && PlacedAt(value.ty, Clients) && IsStructureOfIntegers(FedOf(value.ty))
              && IsValidBitwidthTypeForValueType(bitwidth.ty, FedOf(value.ty).member)
    ensures r.Success? ==>
              && Extends(ctx, r.value) && r.value.value.ty == AtServer(FedOf(value.ty).member)
              && var c := r.value.ctx.bindings[|ctx.bindings|].comp;
                 c.Built? && |c.args| == 2 && c.args[1] == BitwidthOperand(FedOf(value.ty).member, bitwidth).comp
    ensures r.Failure? ==>
              r.error in {ContextError, TypeError(SECURE_SUM_BITWIDTH, "value"), TypeError(SECURE_SUM_BITWIDTH, "bitwidth")}
    ensures r.Failure? && r.error == TypeError(SECURE_SUM_BITWIDTH, "bitwidth") ==>
              PlacedAt(value.ty, Clients) && !IsValidBitwidthTypeForValueType(bitwidth.ty, FedOf(value.ty).member)
    ensures r.Failure? && r.error == TypeError(SECURE_SUM_BITWIDTH, "value") ==>
              !PlacedAt(value.ty, Clients) || !IsStructureOfIntegers(FedOf(value.ty))
  {
    var fed :- EnsureFederated(SECURE_SUM_BITWIDTH, "value", value, Some(Clients));
    :- Need(IsStructureOfIntegers(fed.ty), TypeError(SECURE_SUM_BITWIDTH, "value"));
    var member := fed.ty.member;
    :- Need(IsValidBitwidthTypeForValueType(bitwidth.ty, member), TypeError(SECURE_SUM_BITWIDTH, "bitwidth"));
    BindCompAsReference(ctx, Built(CreateFederatedSecureSumBitwidth, [fed.comp, BitwidthOperand(member, bitwidth).comp]),
                        AtServer(member))
  }

  // ----- sequence_map, sequence_reduce, sequence_sum -----

  /**
   * `get_curried(sequence_map intrinsic)(fn)`: the function from sequences of
   * `fn`'s parameter to sequences of its result that the lifted form maps
   * over the federated argument.
   */
  function LiftedSequenceFn(fn: Value): (r: Value)
    requires fn.ty.FunctionT? && fn.ty.parameter.Some?
    ensures r.ty == FunctionT(Some(SequenceT(fn.ty.parameter.value)), SequenceT(fn.ty.result))
  {
    var elementsIn := SequenceT(fn.ty.parameter.value);
    var elementsOut := SequenceT(fn.ty.result);
    var intrinsicType := FunctionT(Some(Pair(fn.ty, elementsIn)), elementsOut);
    Value(Built(Curried, [Intrinsic(SEQUENCE_MAP, intrinsicType), fn.comp]), FunctionT(Some(elementsIn), elementsOut))
  }

  function SequenceMap(ctx: Context, fn: Value, arg: Value): (r: Result<Bound, Error>)
    ensures !fn.ty.FunctionT? ==> r == Failure(TypeError(SEQUENCE_MAP, "fn"))
    ensures fn.ty.FunctionT? && arg.ty.SequenceT? ==> (r.Success? <==> ctx.SymbolBinding?)
    ensures arg.ty.SequenceT? && r.Success? ==>
              Lowered(ctx, r.value, Built(CreateSequenceMap, [fn.comp, arg.comp]), SequenceT(fn.ty.result))
    ensures arg.ty.FederatedT? && r.Success? ==>
              Extends(ctx, r.value)
              && r.value.value.ty == FederatedT(SequenceT(fn.ty.result), arg.ty.placement, arg.ty.placement == Server)
    ensures fn.ty.FunctionT? && !arg.ty.SequenceT? && !arg.ty.FederatedT? ==> r == Failure(TypeError(SEQUENCE_MAP, "arg"))
    ensures fn.ty.FunctionT? && fn.ty.parameter.None? && arg.ty.FederatedT? ==> r == Failure(TypeError(SEQUENCE_MAP, "fn"))
    ensures fn.ty.FunctionT? && fn.ty.parameter.Some? && arg.ty.FederatedT? ==> r == FederatedMap(ctx, LiftedSequenceFn(fn), arg)
  {
    if !fn.ty.FunctionT? then Failure(TypeError(SEQUENCE_MAP, "fn"))
    else if arg.ty.SequenceT? then
      BindCompAsReference(ctx, Built(CreateSequenceMap, [fn.comp, arg.comp]), SequenceT(fn.ty.result))
    else if arg.ty.FederatedT? then
      :- Need(fn.ty.parameter.Some?, TypeError(SEQUENCE_MAP, "fn"));
      FederatedMap(ctx, LiftedSequenceFn(fn), arg)
    else
      Failure(TypeError(SEQUENCE_MAP, "arg"))
  }

  /** The unnamed pair `<value, zero>` the lifted `sequence_reduce` maps over, and the function applied to it. */
  function ReducePairFn(vm: Type, zm: Type, op: Value): (r: Value)
    ensures r.ty == FunctionT(Some(Pair(vm, zm)), zm)
  {
    var refType := Pair(vm, zm);
    var ref := Reference("arg", refType);
    var call := Built(CreateSequenceReduce, [Selection(ref, 0), Selection(ref, 1), op.comp]);
    Value(Lambda("arg", refType, call), FunctionT(Some(refType), zm))
  }

  function SequenceReduce(ctx: Context, value: Value, zero: Value, op: Value): (r: Result<Bound, Error>)
    ensures !value.ty.SequenceT? && !value.ty.FederatedT? ==> r == Failure(TypeError(SEQUENCE_REDUCE, "value"))
    ensures value.ty.SequenceT? ==> (r.Success? <==> ctx.SymbolBinding?)
    ensures value.ty.SequenceT? && r.Success? ==>
              Lowered(ctx, r.value, Built(CreateSequenceReduce, [value.comp, zero.comp, op.comp]), zero.ty)
    ensures value.ty.FederatedT? && !value.ty.member.SequenceT? ==> r == Failure(TypeError(SEQUENCE_REDUCE, "value"))
    ensures value.ty.FederatedT? && value.ty.member.SequenceT? && !zero.ty.FederatedT? ==>
              r == Failure(AttributeError(SEQUENCE_REDUCE, "zero"))
    ensures value.ty.FederatedT? && r.Success? ==>
              zero.ty.FederatedT? && Extends(ctx, r.value)
              && r.value.value.ty == FederatedT(zero.ty.member, value.ty.placement, value.ty.placement == Server)
    ensures value.ty.FederatedT? && value.ty.member.SequenceT? && zero.ty.FederatedT? ==>
              r == FederatedMap(ctx, ReducePairFn(value.ty.member, zero.ty.member, op),
                                Value(StructComp([value.comp, zero.comp]), Pair(value.ty, zero.ty)))
  {
    if value.ty.FederatedT? then
      :- Need(value.ty.member.SequenceT?, TypeError(SEQUENCE_REDUCE, "value"));
      :- Need(zero.ty.FederatedT?, AttributeError(SEQUENCE_REDUCE, "zero"));
      var args := Value(StructComp([value.comp, zero.comp]), Pair(value.ty, zero.ty));
      FederatedMap(ctx, ReducePairFn(value.ty.member, zero.ty.member, op), args)
    else
      :- Need(value.ty.SequenceT?, TypeError(SEQUENCE_REDUCE, "value"));
      BindCompAsReference(ctx, Built(CreateSequenceReduce, [value.comp, zero.comp, op.comp]), zero.ty)
  }

  /** The element type `sequence_sum` adds up: of the sequence, or of the member sequence of a federated value. */
  function SummedElement(t: Type): Option<Type>
  {
    if t.SequenceT? then Some(t.element)
    else if t.FederatedT? && t.member.SequenceT? then Some(t.member.element)
    else None
  }

  function SequenceSum(ctx: Context, value: Value): (r: Result<Bound, Error>)
    ensures SummedElement(value.ty).None? ==> r == Failure(TypeError(SEQUENCE_SUM, "value"))
    ensures SummedElement(value.ty).Some? && !IsSumCompatible(SummedElement(value.ty).value) ==>
              r == Failure(TypeError(SEQUENCE_SUM, "value"))
    ensures value.ty.SequenceT? ==> (r.Success? <==> ctx.SymbolBinding? && IsSumCompatible(value.ty.element))
    ensures value.ty.SequenceT? && r.Success? ==>
              Lowered(ctx, r.value, Built(CreateSequenceSum, [value.comp]), value.ty.element)
    ensures value.ty.FederatedT? && r.Success? ==>
              Extends(ctx, r.value)
              && r.value.value.ty == FederatedT(value.ty.member.element, value.ty.placement, value.ty.placement == Server)
    ensures value.ty.FederatedT? && value.ty.member.SequenceT? && IsSumCompatible(value.ty.member.element) ==>
              var ity := FunctionT(Some(value.ty.member), value.ty.member.element);
              r == FederatedMap(ctx, Value(Intrinsic(SEQUENCE_SUM, ity), ity), value)
  {
    var element :- match SummedElement(value.ty)
      case Some(e) => Success(e)
      case None => Failure(TypeError(SEQUENCE_SUM, "value"));
    :- Need(IsSumCompatible(element), TypeError(SEQUENCE_SUM, "value"));
    if value.ty.SequenceT? then
      BindCompAsReference(ctx, Built(CreateSequenceSum, [value.comp]), element)
    else
      var ity := FunctionT(Some(value.ty.member), element);
      FederatedMap(ctx, Value(Intrinsic(SEQUENCE_SUM, ity), ity), value)
  }
}
