/**
 * Properties that relate several intrinsics, or that state what a well-typed
 * call returns: the canonical signatures succeed, the sequence intrinsics
 * lift pointwise over federated values, and the bitwidth expansion fits the
 * value it is for.
 */
module IntrinsicProperties {
  import opened Wrappers
  import opened Types
  import opened TypeAnalysis
  import opened BuildingBlocks
  import opened Intrinsics

  /** A call with the canonical types `<{T}@CLIENTS, U, (<U,T>->U), (<U,U>->U), (U->R)>` yields `R@SERVER`. */
  lemma AggregateWellTyped(ctx: Context, value: Value, zero: Value, accumulate: Value, merge: Value, report: Value,
                           t: Type, u: Type, res: Type)
    requires ctx.SymbolBinding?
    requires value.ty == AtClients(t) && zero.ty == u
    requires accumulate.ty == ReductionOp(u, t) && merge.ty == ReductionOp(u, u) && report.ty == FunctionT(Some(u), res)
    ensures var r := FederatedAggregate(ctx, value, zero, accumulate, merge, report);
            r.Success? && r.value.value.ty == AtServer(res)
  {
    AssignableReflexive(u);
    AssignableReflexive(res);
    AssignableReflexive(Pair(u, t));
    AssignableReflexive(Pair(u, u));
  }

  /** An accumulate whose parameter is the empty struct is an `IndexError`, never a `TypeError`. */
  lemma AggregateEmptyAccumulateParameter(ctx: Context, value: Value, zero: Value, merge: Value, report: Value,
                                          t: Type, res: Type)
    requires value.ty == AtClients(t) && merge.ty.FunctionT? && report.ty.FunctionT?
    ensures var accumulate := Value(Reference("accumulate", FunctionT(Some(StructT([])), res)), FunctionT(Some(StructT([])), res));
            FederatedAggregate(ctx, value, zero, accumulate, merge, report) == Failure(IndexError(AGGREGATE, "accumulate"))
  {
  }

  /** Broadcasting a server value and collecting it back gives a server sequence, two bindings later. */
  lemma BroadcastThenCollect(ctx: Context, v: Value, t: Type)
    requires ctx.SymbolBinding? && v.ty == AtServer(t)
    ensures var b := FederatedBroadcast(ctx, v);
            && b.Success? && b.value.value.ty == FederatedT(t, Clients, true)
            && var c := FederatedCollect(b.value.ctx, b.value.value);
               c.Success? && c.value.value.ty == AtServer(SequenceT(t))
               && |c.value.ctx.bindings| == |ctx.bindings| + 2
  {
  }

  /** A value placed at SERVER by `federated_value` is all-equal, so it can be broadcast. */
  lemma ValueThenBroadcast(ctx: Context, v: Value)
    requires ctx.SymbolBinding? && !ContainsFederated(v.ty)
    ensures var p := FederatedValue(ctx, v, Server);
            && p.Success?
            && var b := FederatedBroadcast(p.value.ctx, p.value.value);
               b.Success? && b.value.value.ty == FederatedT(v.ty, Clients, true)
  {
  }

  /** Mapping `T -> U` over `{T}@CLIENTS` gives `{U}@CLIENTS` through `federated_map`. */
  lemma MapAtClients(ctx: Context, fn: Value, arg: Value, t: Type, u: Type, allEqual: bool)
    requires ctx.SymbolBinding? && fn.ty == FunctionT(Some(t), u) && arg.ty == FederatedT(t, Clients, allEqual)
    ensures var r := FederatedMap(ctx, fn, arg);
            r.Success? && r.value.value.ty == AtClients(u)
            && r.value.ctx.bindings[|ctx.bindings|].comp == Built(CreateFederatedMap, [fn.comp, arg.comp])
  {
    AssignableReflexive(t);
  }

  /** Mapping `T -> U` over `T@SERVER` gives `U@SERVER` through `federated_apply`; without all-equal it fails on `arg`. */
  lemma MapAtServer(ctx: Context, fn: Value, arg: Value, t: Type, u: Type, allEqual: bool)
    requires ctx.SymbolBinding? && fn.ty == FunctionT(Some(t), u) && arg.ty == FederatedT(t, Server, allEqual)
    ensures var r := FederatedMap(ctx, fn, arg);
            && (allEqual ==> r.Success? && r.value.value.ty == AtServer(u)
                             && r.value.ctx.bindings[|ctx.bindings|].comp == Built(CreateFederatedApply, [fn.comp, arg.comp]))
            && (!allEqual ==> r == Failure(TypeError(MAP, "arg")))
  {
    AssignableReflexive(t);
  }

  /** Zipping two values at the same placement gives the federated pair of their members. */
  lemma ZipOfPair(ctx: Context, a: Value, b: Value, ta: Type, tb: Type, p: Placement, aeA: bool, aeB: bool)
    requires ctx.SymbolBinding? && (p == Server || p == Clients)
    requires a.ty == FederatedT(ta, p, aeA) && b.ty == FederatedT(tb, p, aeB)
    ensures var r := FederatedZip(ctx, Value(StructComp([a.comp, b.comp]), Pair(a.ty, b.ty)));
            r.Success? && r.value.value.ty == FederatedT(Pair(ta, tb), p, p == Server)
  {
    var z := ZippedType(Pair(a.ty, b.ty));
    assert z.member.fields == [Field(None, ta), Field(None, tb)];
  }

  /** Over a plain sequence, `sequence_map` of `T -> U` on `T*` gives `U*`. */
  lemma SequenceMapDirect(ctx: Context, fn: Value, arg: Value, t: Type, u: Type)
    requires ctx.SymbolBinding? && fn.ty == FunctionT(Some(t), u) && arg.ty == SequenceT(t)
    ensures var r := SequenceMap(ctx, fn, arg);
            r.Success? && r.value.value.ty == SequenceT(u)
  {
  }

  /**
   * Over a federated sequence, `sequence_map` is `federated_map` of the curried
   * `sequence_map`: `{T*}@CLIENTS` becomes `{U*}@CLIENTS`, and `T*@SERVER` becomes `U*@SERVER`;
   * any other placement, or a SERVER sequence that is not all-equal, is refused.
   */
  lemma SequenceMapLifts(ctx: Context, fn: Value, arg: Value, t: Type, u: Type, p: Placement, allEqual: bool)
    requires fn.ty == FunctionT(Some(t), u)
    requires arg.ty == FederatedT(SequenceT(t), p, allEqual)
    ensures SequenceMap(ctx, fn, arg) == FederatedMap(ctx, LiftedSequenceFn(fn), arg)
    ensures SequenceMap(ctx, fn, arg).Success? <==> ctx.SymbolBinding? && (p == Clients || (p == Server && allEqual))
    ensures SequenceMap(ctx, fn, arg).Success? ==>
              SequenceMap(ctx, fn, arg).value.value.ty == FederatedT(SequenceT(u), p, p == Server)
  {
    AssignableReflexive(SequenceT(t));
  }

  /**
   * Over a federated sequence and a federated zero, `sequence_reduce` succeeds exactly
   * when both sit at the same placement, SERVER or CLIENTS, and then yields the zero's member type there.
   */
  lemma SequenceReduceLifts(ctx: Context, value: Value, zero: Value, op: Value, t: Type, u: Type,
                            p: Placement, q: Placement, aeValue: bool, aeZero: bool)
    requires value.ty == FederatedT(SequenceT(t), p, aeValue) && zero.ty == FederatedT(u, q, aeZero)
    ensures SequenceReduce(ctx, value, zero, op).Success? <==>
              ctx.SymbolBinding? && p == q && (p == Server || p == Clients)
    ensures SequenceReduce(ctx, value, zero, op).Success? ==>
              SequenceReduce(ctx, value, zero, op).value.value.ty == FederatedT(u, p, p == Server)
  {
    var pair := Pair(value.ty, zero.ty);
    if p == q && (p == Server || p == Clients) {
      assert Zippable(pair);
      assert ZippedType(pair).member.fields == Pair(SequenceT(t), u).fields;
      AssignableReflexive(Pair(SequenceT(t), u));
    } else {
      assert !Zippable(pair);
    }
  }

  /** A federated sequence and a zero at different placements cannot be zipped, so the reduction fails on `arg`. */
  lemma SequenceReducePlacementMismatch(ctx: Context, value: Value, zero: Value, op: Value, t: Type, u: Type,
                                        aeValue: bool, aeZero: bool)
    requires value.ty == FederatedT(SequenceT(t), Clients, aeValue) && zero.ty == FederatedT(u, Server, aeZero)
    ensures SequenceReduce(ctx, value, zero, op) == Failure(TypeError(MAP, "arg"))
  {
    assert !Zippable(Pair(value.ty, zero.ty));
  }

  /**
   * `sequence_sum` over a federated sequence sums each member locally, keeping the placement. It succeeds
   * exactly for summable elements at CLIENTS or at an all-equal SERVER.
   */
  lemma SequenceSumLifts(ctx: Context, value: Value, t: Type, p: Placement, allEqual: bool)
    requires value.ty == FederatedT(SequenceT(t), p, allEqual)
    ensures SequenceSum(ctx, value).Success? <==>
              ctx.SymbolBinding? && IsSumCompatible(t) && (p == Clients || (p == Server && allEqual))
    ensures SequenceSum(ctx, value).Success? ==> SequenceSum(ctx, value).value.value.ty == FederatedT(t, p, p == Server)
  {
    AssignableReflexive(SequenceT(t));
  }

  /** A select with the types its documentation asks for yields `{R*}@CLIENTS`, in both variants. */
  lemma SelectWellTyped(ctx: Context, clientKeys: Value, maxKey: Value, serverVal: Value, selectFn: Value,
                        n: nat, s: Type, res: Type, secure: bool)
    requires ctx.SymbolBinding?
    requires clientKeys.ty == AtClients(TensorT(Int32, Known([Some(n)])))
    requires maxKey.ty == AtServer(Int32Scalar) && serverVal.ty == AtServer(s)
    requires selectFn.ty == FunctionT(Some(Pair(s, Int32Scalar)), res)
    ensures var r := Select(ctx, clientKeys, maxKey, serverVal, selectFn, secure);
            r.Success? && r.value.value.ty == AtClients(SequenceT(res))
  {
    AssignableReflexive(Int32Scalar);
    AssignableReflexive(Pair(s, Int32Scalar));
  }

  /** A max key that is not all-equal at SERVER is rejected: `int32@SERVER` does not accept `{int32}@SERVER`. */
  lemma SelectMaxKeyMustBeAllEqual(ctx: Context, clientKeys: Value, maxKey: Value, serverVal: Value, selectFn: Value,
                                   n: nat, secure: bool)
    requires clientKeys.ty == AtClients(TensorT(Int32, Known([Some(n)])))
    requires maxKey.ty == FederatedT(Int32Scalar, Server, false)
    ensures Select(ctx, clientKeys, maxKey, serverVal, selectFn, secure) == Failure(TypeError(SelectName(secure), "max_key"))
  {
    AllEqualAssignability(Int32Scalar, Server);
  }

  /** The keys check as written reports a keys vector that is not federated as an `AttributeError`; the intended check reports a `TypeError` on `client_keys`. */
  lemma SelectKeysAsWrittenMisreports(secure: bool)
    ensures var keys := TensorT(Int32, Known([Some(3)]));
            && CheckSelectKeysTypeAsWritten(keys, secure) == Fail(AttributeError(SelectName(secure), "client_keys"))
            && CheckSelectKeysType(keys, secure) == Fail(TypeError(SelectName(secure), "client_keys"))
  {
  }

  /** n copies of `x`. */
  function Repeat(x: Type, n: nat): (r: seq<Type>)
    ensures |r| == n && forall i | 0 <= i < n :: r[i] == x
  {
    if n == 0 then [] else [x] + Repeat(x, n - 1)
  }

  /** The expanded bitwidth puts one copy of the bitwidth type at every leaf of the value type. */
  lemma {:induction false} ExpandBitwidthLeaves(t: Type, b: Value)
    requires !b.ty.StructT?
    ensures Leaves(ExpandBitwidth(t, b).ty) == Repeat(b.ty, |Leaves(t)|)
    decreases t, 1
  {
    if t.StructT? {
      ExpandFieldLeaves(t, b, 0);
    }
  }

  lemma {:induction false} ExpandFieldLeaves(t: Type, b: Value, k: nat)
    requires !b.ty.StructT? && t.StructT? && k <= |t.fields|
    ensures ExpandBitwidth(t, b).ty.StructT? && |ExpandBitwidth(t, b).ty.fields| == |t.fields|
    ensures FieldLeaves(ExpandBitwidth(t, b).ty, k) == Repeat(b.ty, |FieldLeaves(t, k)|)
    decreases t, 0, |t.fields| - k
  {
    var e := ExpandBitwidth(t, b).ty;
    if k < |t.fields| {
      ExpandBitwidthLeaves(t.fields[k].ty, b);
      ExpandFieldLeaves(t, b, k + 1);
      assert e.fields[k].ty == ExpandBitwidth(t.fields[k].ty, b).ty;
      RepeatAppend(b.ty, |Leaves(t.fields[k].ty)|, |FieldLeaves(t, k + 1)|);
    }
  }

  lemma {:induction false} RepeatAppend(x: Type, m: nat, n: nat)
    ensures Repeat(x, m) + Repeat(x, n) == Repeat(x, m + n)
  {
    assert |Repeat(x, m) + Repeat(x, n)| == m + n;
  }

  /** The expanded bitwidth of a single integer bitwidth is a valid bitwidth type for the value type. */
  lemma {:induction false} ExpandBitwidthFits(t: Type, b: Value)
    requires b.ty.TensorT? && IsValidBitwidthTypeForValueType(b.ty, t)
    ensures IsValidBitwidthTypeForValueType(ExpandBitwidth(t, b).ty, t)
    decreases t
  {
    if t.StructT? {
      var e := ExpandBitwidth(t, b).ty;
      forall i | 0 <= i < |t.fields|
        ensures e.fields[i].name == t.fields[i].name
        ensures IsValidBitwidthTypeForValueType(e.fields[i].ty, t.fields[i].ty)
      {
        ExpandBitwidthFits(t.fields[i].ty, b);
      }
    }
  }

  /** A single integer bitwidth for a struct of integers is expanded, and the secure sum succeeds with an operand that fits. */
  lemma SecureSumBitwidthExpands(ctx: Context, value: Value, bitwidth: Value, member: Type)
    requires ctx.SymbolBinding? && value.ty == AtClients(member) && member.StructT?
    requires IsStructureOfIntegers(member) && bitwidth.ty == Int32Scalar
    ensures var r := FederatedSecureSumBitwidth(ctx, value, bitwidth);
            && r.Success? && r.value.value.ty == AtServer(member)
            && IsValidBitwidthTypeForValueType(BitwidthOperand(member, bitwidth).ty, member)
            && Leaves(BitwidthOperand(member, bitwidth).ty) == Repeat(Int32Scalar, |Leaves(member)|)
  {
    ExpandBitwidthFits(member, bitwidth);
    ExpandBitwidthLeaves(member, bitwidth);
  }
}
