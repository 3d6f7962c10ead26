/** The operations a workload is made of, and how they access their keys. */
module Queries {

  datatype QueryKind =
    | PointLookup | RangeScan | Filter | PrefixSearch | GraphTraversal
    | InsertOp | UpdateOp | DeleteOp

  /** How the keys of an operation are spread. */
  datatype AccessKind = Uniform | Sequential | Hotspot | Zipf

  predicate IsMutation(kind: QueryKind) {
    kind == InsertOp || kind == UpdateOp || kind == DeleteOp
  }
}
