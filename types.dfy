/**
 * The type language the intrinsics check their operands against: tensors,
 * structs, sequences, functions, federated values, abstract types and the
 * placement type, with the assignability relation every intrinsic uses.
 */
module Types {
  import opened Wrappers

  /** Tensor element types, with the TensorFlow classification the checks use. */
  datatype DType =
    | Bool | Int8 | Int16 | Int32 | Int64 | UInt8 | UInt16 | UInt32 | UInt64
    | Float16 | BFloat16 | Float32 | Float64 | Complex64 | Complex128 | Str
  {
    predicate IsInteger() {
      Int8? || Int16? || Int32? || Int64? || UInt8? || UInt16? || UInt32? || UInt64?
    }
    predicate IsFloating() { Float16? || BFloat16? || Float32? || Float64? }
    predicate IsComplex() { Complex64? || Complex128? }
    predicate IsNumeric() { IsInteger() || IsFloating() || IsComplex() }
  }

  /** A tensor shape: unknown rank, or a list of dimensions each known or unknown. */
  datatype Shape = UnknownRank | Known(dims: seq<Option<nat>>)
  {
    function Rank(): Option<nat> { if Known? then Some(|dims|) else None }
  }

  const Scalar: Shape := Known([])

  /** SERVER, CLIENTS, or any other placement literal. */
  datatype Placement = Server | Clients | OtherPlacement(uri: string)

  datatype Type =
    | TensorT(dtype: DType, shape: Shape)
    | StructT(fields: seq<Field>)
    | SequenceT(element: Type)
    | FunctionT(parameter: Option<Type>, result: Type)
    | FederatedT(member: Type, placement: Placement, allEqual: bool)
    | AbstractT(tag: string)
    | PlacementT

  /** One position of a struct: an optional name and the element type. */
  datatype Field = Field(name: Option<string>, ty: Type)

  /** The `all_equal` bit a federated type gets when none is given: true exactly at SERVER. */
  function DefaultAllEqual(p: Placement): bool { p == Server }

  /** `T@SERVER`, as `at_server` builds it. */
  function AtServer(member: Type): Type { FederatedT(member, Server, true) }

  /** `{T}@CLIENTS`, as `at_clients` builds it. */
  function AtClients(member: Type): Type { FederatedT(member, Clients, false) }

  /** The scalar `int32` tensor type. */
  const Int32Scalar: Type := TensorT(Int32, Scalar)

  /** An unnamed struct type `<a, b>`. */
  function Pair(a: Type, b: Type): (t: Type)
    ensures t.StructT? && |t.fields| == 2 && t.fields[0].ty == a && t.fields[1].ty == b
  {
    StructT([Field(None, a), Field(None, b)])
  }

  /** The reduction operator type `(<a, t> -> a)` of `type_factory.reduction_op`. */
  function ReductionOp(a: Type, t: Type): Type
  {
    FunctionT(Some(Pair(a, t)), a)
  }

  /** A target dimension that is unknown accepts any dimension; a known one only itself. */
  predicate DimAssignable(target: Option<nat>, source: Option<nat>)
  {
    target.None? || target == source
  }

  predicate ShapeAssignable(target: Shape, source: Shape)
  {
    match target
    case UnknownRank => true
    case Known(td) =>
      source.Known? && |source.dims| == |td|
      && forall i | 0 <= i < |td| :: DimAssignable(td[i], source.dims[i])
  }

  /** The number of type constructors in `t`; it bounds the recursion of `IsAssignableFrom`. */
  function Size(t: Type): (n: nat)
    ensures n >= 1
    ensures t.StructT? ==> forall i | 0 <= i < |t.fields| :: Size(t.fields[i].ty) < n
    decreases t, 1
  {
    match t
    case StructT(fs) => 1 + FieldsSize(t, 0)
    case SequenceT(e) => 1 + Size(e)
    case FunctionT(p, res) => 1 + (if p.Some? then Size(p.value) else 0) + Size(res)
    case FederatedT(m, _, _) => 1 + Size(m)
    case _ => 1
  }

  /** The sizes of the fields of struct `t` from position `k` on, added up. */
  function FieldsSize(t: Type, k: nat): (n: nat)
    requires t.StructT? && k <= |t.fields|
    ensures forall i | k <= i < |t.fields| :: Size(t.fields[i].ty) <= n
    decreases t, 0, |t.fields| - k
  {
    if k == |t.fields| then 0 else Size(t.fields[k].ty) + FieldsSize(t, k + 1)
  }

  /**
   * `target.is_assignable_from(source)`: a value of type `source` may be used
   * where `target` is expected. Structs compare position by position (names
   * are ignored), function parameters are contravariant, and a federated
   * target that promises all-equal members accepts only an all-equal source.
   */
  predicate IsAssignableFrom(target: Type, source: Type)
    decreases Size(target) + Size(source)
  {
    match target
    case TensorT(dt, sh) =>
      source.TensorT? && source.dtype == dt && ShapeAssignable(sh, source.shape)
    case StructT(fs) =>
      source.StructT? && |source.fields| == |fs|
      && forall i | 0 <= i < |fs| :: IsAssignableFrom(fs[i].ty, source.fields[i].ty)
    case SequenceT(e) =>
      source.SequenceT? && IsAssignableFrom(e, source.element)
    case FunctionT(p, res) =>
      source.FunctionT?
      && (match p
          case None => source.parameter.None?
          case Some(pt) => source.parameter.Some? && IsAssignableFrom(source.parameter.value, pt))
      && IsAssignableFrom(res, source.result)
    case FederatedT(m, pl, ae) =>
      source.FederatedT? && source.placement == pl && (ae ==> source.allEqual)
      && IsAssignableFrom(m, source.member)
    case AbstractT(l) => source == AbstractT(l)
    case PlacementT => source.PlacementT?
  }

  /** Every type is assignable from itself. */
  lemma {:induction false} AssignableReflexive(t: Type)
    ensures IsAssignableFrom(t, t)
    decreases t
  {
    match t
    case StructT(fs) =>
      forall i | 0 <= i < |fs| ensures IsAssignableFrom(fs[i].ty, fs[i].ty) {
        AssignableReflexive(fs[i].ty);
      }
    case SequenceT(e) => AssignableReflexive(e);
    case FunctionT(p, res) =>
      if p.Some? { AssignableReflexive(p.value); }
      AssignableReflexive(res);
    case FederatedT(m, _, _) => AssignableReflexive(m);
    case _ =>
  }

  /** A federated type that is all-equal may stand where one that is not is expected, but not the reverse. */
  lemma AllEqualAssignability(m: Type, p: Placement)
    ensures IsAssignableFrom(FederatedT(m, p, false), FederatedT(m, p, true))
    ensures !IsAssignableFrom(FederatedT(m, p, true), FederatedT(m, p, false))
  {
    AssignableReflexive(m);
  }
}
