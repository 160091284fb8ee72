/**
 * The structural type predicates the intrinsics consult (`type_analysis` in
 * the repository): sum-, average- and integer-compatibility, "contains a
 * federated type", and whether a bitwidth type fits a value type.
 */
module TypeAnalysis {
  import opened Wrappers
  import opened Types

  /** Every tensor in `t` has a numeric element type; federated types are looked through. */
  predicate IsSumCompatible(t: Type)
    decreases t
  {
    match t
    case TensorT(dt, _) => dt.IsNumeric()
    case StructT(fs) => forall i | 0 <= i < |fs| :: IsSumCompatible(fs[i].ty)
    case FederatedT(m, _, _) => IsSumCompatible(m)
    case _ => false
  }

  /** Every tensor in `t` is floating-point or complex; federated types are looked through. */
  predicate IsAverageCompatible(t: Type)
    decreases t
  {
    match t
    case TensorT(dt, _) => dt.IsFloating() || dt.IsComplex()
    case StructT(fs) => forall i | 0 <= i < |fs| :: IsAverageCompatible(fs[i].ty)
    case FederatedT(m, _, _) => IsAverageCompatible(m)
    case _ => false
  }

  /** Every tensor in `t` has an integer element type; federated types are looked through. */
  predicate IsStructureOfIntegers(t: Type)
    decreases t
  {
    match t
    case TensorT(dt, _) => dt.IsInteger()
    case StructT(fs) => forall i | 0 <= i < |fs| :: IsStructureOfIntegers(fs[i].ty)
    case FederatedT(m, _, _) => IsStructureOfIntegers(m)
    case _ => false
  }

  /** `t` is, or has anywhere inside it, a federated type. */
  predicate ContainsFederated(t: Type)
    decreases t
  {
    match t
    case FederatedT(_, _, _) => true
    case StructT(fs) => exists i | 0 <= i < |fs| :: ContainsFederated(fs[i].ty)
    case SequenceT(e) => ContainsFederated(e)
    case FunctionT(p, res) => (p.Some? && ContainsFederated(p.value)) || ContainsFederated(res)
    case _ => false
  }

  /** A shape with exactly one element: fully known, every dimension 1 (a scalar included). */
  predicate HasOneElement(s: Shape)
  {
    s.Known? && forall i | 0 <= i < |s.dims| :: s.dims[i] == Some(1)
  }

  /**
   * A bitwidth of type `b` fits values of type `v`: a single integer applies
   * to every tensor of `v`; a struct of bitwidths must follow the struct `v`
   * position by position, with the same names.
   */
  predicate IsValidBitwidthTypeForValueType(b: Type, v: Type)
    decreases b
  {
    match b
    case TensorT(dt, sh) => dt.IsInteger() && HasOneElement(sh)
    case StructT(bf) =>
      v.StructT? && |v.fields| == |bf|
      && forall i | 0 <= i < |bf| ::
           bf[i].name == v.fields[i].name && IsValidBitwidthTypeForValueType(bf[i].ty, v.fields[i].ty)
    case _ => false
  }

  /** The non-struct types of `t` from left to right: `t` itself unless it is a struct. */
  function Leaves(t: Type): (r: seq<Type>)
    ensures !t.StructT? ==> r == [t]
    ensures forall i | 0 <= i < |r| :: !r[i].StructT?
    decreases t, 1
  {
    if t.StructT? then FieldLeaves(t, 0) else [t]
  }

  /** The leaves of the fields of struct `t` from position `k` on. */
  function FieldLeaves(t: Type, k: nat): (r: seq<Type>)
    requires t.StructT? && k <= |t.fields|
    ensures forall i | 0 <= i < |r| :: !r[i].StructT?
    decreases t, 0, |t.fields| - k
  {
    if k == |t.fields| then [] else Leaves(t.fields[k].ty) + FieldLeaves(t, k + 1)
  }
}
