/** The generator's pass over a candidate's assignments
    (`generate_verified_header`): which physical route each query gets, and which
    maintenance lines keep that route current. */
module Codegen {
  import opened Wrappers
  import opened Keys
  import opened Queries
  import opened Containers
  import opened Routes

  datatype Primitive =
    | RobinHoodHash | OrderedTree | SortedArray | RadixTrie | BitmapFilter | CsrGraph
    | UnknownPrimitive(name: string)

  datatype FieldSpec = FieldSpec(name: string, fieldType: FieldType)

  datatype Assignment = Assignment(queryIndex: nat, kind: QueryKind, field: Option<string>, primitive: Primitive)

  /** Which of the four maintenance templates a route is given. */
  datatype Upkeep = BitmapUpkeep | TrieUpkeep | CompositeUpkeep | WinnerUpkeep

  datatype Plan =
    | GraphPlan(queryIndex: nat)
    | RecordPlan(queryIndex: nat, kind: QueryKind, field: nat, primitive: Primitive, upkeep: Upkeep)

  datatype CodegenError =
    | GraphNeedsCsr(queryIndex: nat)
    | MissingField(queryIndex: nat)
    | UnknownField(name: string)
    | UnsupportedPrimitive
    | UnsupportedRange
    | NoMembers

  /** `_field_type`: the first field of that name. */
  function FieldPosition(fields: seq<FieldSpec>, name: string): (at: nat)
    ensures at <= |fields|
    ensures at < |fields| ==> fields[at].name == name
    ensures forall i :: 0 <= i < at ==> fields[i].name != name
  {
    if fields == [] || fields[0].name == name then 0 else 1 + FieldPosition(fields[1..], name)
  }

  /** The maintenance branch: primitive first, then query kind, winner tracking last. */
  function UpkeepFor(kind: QueryKind, primitive: Primitive): Upkeep {
    if primitive == BitmapFilter then BitmapUpkeep
    else if primitive == RadixTrie then TrieUpkeep
    else if kind == RangeScan then CompositeUpkeep
    else WinnerUpkeep
  }

  /** One turn of the loop: nothing for a mutation, a plan, or the error raised. */
  function PlanFor(fields: seq<FieldSpec>, a: Assignment): Result<Option<Plan>, CodegenError> {
    if IsMutation(a.kind) then Success(None)
    else if a.kind == GraphTraversal then
      if a.primitive != CsrGraph then Failure(GraphNeedsCsr(a.queryIndex))
      else Success(Some(GraphPlan(a.queryIndex)))
    else if a.field.None? then Failure(MissingField(a.queryIndex))
    else
      var at := FieldPosition(fields, a.field.value);
      if at == |fields| then Failure(UnknownField(a.field.value))
      else if a.primitive.UnknownPrimitive? then Failure(UnsupportedPrimitive)
      else if a.kind == RangeScan && a.primitive != OrderedTree && a.primitive != SortedArray then
        Failure(UnsupportedRange)
      else Success(Some(RecordPlan(a.queryIndex, a.kind, at, a.primitive, UpkeepFor(a.kind, a.primitive))))
  }

  /** The plans of a list of assignments, in order. */
  function PlansOf(fields: seq<FieldSpec>, assignments: seq<Assignment>): seq<Plan> {
    if assignments == [] then []
    else
      var last := PlanFor(fields, assignments[|assignments| - 1]);
      PlansOf(fields, assignments[..|assignments| - 1]) +
      if last.Success? && last.value.Some? then [last.value.value] else []
  }

  /** The generator loop. It stops at the first assignment it cannot serve, and
      refuses a candidate without a single queryable route. */
  method Generate(fields: seq<FieldSpec>, assignments: seq<Assignment>)
    returns (res: Result<seq<Plan>, CodegenError>)
    ensures res.Success? <==>
              && (forall i :: 0 <= i < |assignments| ==> PlanFor(fields, assignments[i]).Success?)
              && (exists i :: 0 <= i < |assignments| && !IsMutation(assignments[i].kind))
    ensures res.Success? ==> res.value == PlansOf(fields, assignments)
    ensures res.Failure? && res.error != NoMembers ==>
              exists i :: 0 <= i < |assignments| && PlanFor(fields, assignments[i]) == Failure(res.error) &&
                          forall j :: 0 <= j < i ==> PlanFor(fields, assignments[j]).Success?
  {
    var plans: seq<Plan> := [];
    var i := 0;
    while i < |assignments|
      invariant i <= |assignments|
      invariant plans == PlansOf(fields, assignments[..i])
      invariant forall j :: 0 <= j < i ==> PlanFor(fields, assignments[j]).Success?
      invariant plans != [] <==> exists j :: 0 <= j < i && !IsMutation(assignments[j].kind)
    {
      assert assignments[..i + 1][..i] == assignments[..i];
      var planned := PlanFor(fields, assignments[i]);
      if planned.Failure? {
        return Failure(planned.error);
      }
      if planned.value.Some? {
        plans := plans + [planned.value.value];
      }
      i := i + 1;
    }
    assert assignments[..i] == assignments;
    if plans == [] {
      return Failure(NoMembers);
    }
    return Success(plans);
  }

  /** `PRIMITIVES[...].capabilities`, read queries only. */
  predicate Capable(primitive: Primitive, kind: QueryKind) {
    match primitive
    case RobinHoodHash => kind == PointLookup
    case SortedArray => kind == PointLookup || kind == RangeScan
    case OrderedTree => kind == PointLookup || kind == RangeScan
    case RadixTrie => kind == PrefixSearch || kind == PointLookup
    case BitmapFilter => kind == Filter
    case CsrGraph => kind == GraphTraversal
    case UnknownPrimitive(_) => false
  }

  /** The member the template declares has the method the query calls, at that key
      type: what the C++ compiler asks of a plan. */
  predicate Compiles(fields: seq<FieldSpec>, plan: Plan) {
    match plan
    case GraphPlan(_) => true
    case RecordPlan(_, kind, field, primitive, upkeep) =>
      && field < |fields|
      && upkeep == UpkeepFor(kind, primitive)
      && (match kind
          case PointLookup =>
            || primitive == RobinHoodHash || primitive == OrderedTree || primitive == SortedArray
            || (primitive == RadixTrie && fields[field].fieldType == TextType)
          case RangeScan => primitive == OrderedTree || primitive == SortedArray
          case Filter => primitive == BitmapFilter
          case PrefixSearch => primitive == RadixTrie && fields[field].fieldType == TextType
          case _ => false)
  }

  /** What the catalogue and the engine let through: a capable primitive on a known
      field, tries on text only. */
  predicate Supported(fields: seq<FieldSpec>, a: Assignment) {
    && Capable(a.primitive, a.kind)
    && (a.kind != GraphTraversal ==>
          && a.field.Some?
          && FieldPosition(fields, a.field.value) < |fields|
          && (a.primitive == RadixTrie ==> fields[FieldPosition(fields, a.field.value)].fieldType == TextType))
  }

  /** The generator never refuses what the catalogue supports, and what it emits for
      those assignments compiles; an emitted plan that compiles came from a supported
      assignment. */
  lemma SupportedIffCompiles(fields: seq<FieldSpec>, a: Assignment)
    requires !IsMutation(a.kind)
    ensures Supported(fields, a) <==>
              && PlanFor(fields, a).Success?
              && PlanFor(fields, a).value.Some?
              && Compiles(fields, PlanFor(fields, a).value.value)
  {
    match a.kind
    case PointLookup =>
    case RangeScan =>
    case Filter =>
    case PrefixSearch =>
    case GraphTraversal =>
  }

  /** Hence every list of mutations and supported queries yields a list of plans that all compile. */
  lemma {:induction false} SupportedPlansCompile(fields: seq<FieldSpec>, assignments: seq<Assignment>)
    requires forall i :: 0 <= i < |assignments| ==> IsMutation(assignments[i].kind) || Supported(fields, assignments[i])
    ensures forall i :: 0 <= i < |assignments| ==> PlanFor(fields, assignments[i]).Success?
    ensures forall p :: p in PlansOf(fields, assignments) ==> Compiles(fields, p)
  {
    if assignments != [] {
      var last := assignments[|assignments| - 1];
      SupportedPlansCompile(fields, assignments[..|assignments| - 1]);
      if !IsMutation(last.kind) {
        SupportedIffCompiles(fields, last);
      }
    }
  }

  /** The empty member declared for a plan. */
  function EmptyRoute(plan: Plan): Route {
    match plan
    case GraphPlan(_) => Graph
    case RecordPlan(_, _, field, _, upkeep) =>
      match upkeep
      case BitmapUpkeep => Bitmap(field, map[])
      case TrieUpkeep => Trie(field, map[], [])
      case CompositeUpkeep => Ranged(field, [])
      case WinnerUpkeep => Winner(field, map[], map[])
  }
}
