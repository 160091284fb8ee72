/**
 * The IR the intrinsics build. The factory functions that assemble the IR
 * for each intrinsic are opaque here: a `Built` node records which factory
 * was called and on which computations.
 */
module BuildingBlocks {
  import opened Types

  /** The `building_block_factory` constructors the intrinsics call (and `get_curried`). */
  datatype Factory =
    | CreateFederatedAggregate
    | CreateFederatedApply
    | CreateFederatedBroadcast
    | CreateFederatedCollect
    | CreateFederatedEval(at: Placement)
    | CreateFederatedMap
    | CreateFederatedMapAllEqual
    | CreateFederatedMean
    | CreateFederatedSum
    | CreateFederatedValue(at: Placement)
    | CreateFederatedZip
    | CreateFederatedSelect(secure: bool)
    | CreateFederatedSecureSumBitwidth
    | CreateSequenceMap
    | CreateSequenceReduce
    | CreateSequenceSum
    | Curried

  /** IR nodes; element names of a struct live in its type, not here. */
  datatype Comp =
    | Reference(name: string, ty: Type)
    | Selection(source: Comp, index: nat)
    | StructComp(elements: seq<Comp>)
    | Lambda(parameterName: string, parameterType: Type, body: Comp)
    | Intrinsic(uri: string, ty: Type)
    | Built(factory: Factory, args: seq<Comp>)

  /** A value of the computation being built: its IR and its type signature. */
  datatype Value = Value(comp: Comp, ty: Type)
}
