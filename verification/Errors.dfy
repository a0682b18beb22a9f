/** Converting internal errors into gRPC status errors. */
module Errors {
  import opened Kube

  datatype Code = NotFoundCode | InvalidArgumentCode | AlreadyExistsCode | PermissionDeniedCode
                | UnauthenticatedCode | UnimplementedCode | InternalCode | OtherCode(n: nat)

  /** Reasons of Kubernetes API errors that the converter knows, and the rest. */
  datatype Reason =
    | ApiNotFound | ApiAlreadyExists | ApiInvalid | ApiBadRequest
    | ApiForbidden | ApiUnauthorized | ApiOther

  datatype Leaf =
    | NotFound | InvalidArgument | AlreadyExists | PermissionDenied
    | NotImplemented | Unsupported | Internal
    | NotInstantiated | NotManaged
    | Api(reason: Reason)
    | Grpc(code: Code)
    | Plain(text: string)

  /** An error chain with one error wrapped at each level. */
  datatype Error = Base(leaf: Leaf) | Wrap(message: string, inner: Error)

  function LeafOf(e: Error): Leaf {
    match e
    case Base(l) => l
    case Wrap(_, i) => LeafOf(i)
  }

  /** errors.As and errors.Is: does the chain hold this error? */
  predicate Holds(e: Error, target: Leaf) {
    match e
    case Base(l) => l == target
    case Wrap(_, i) => Holds(i, target)
  }

  /** status.FromError: does the chain hold a gRPC status? */
  predicate HasStatus(e: Error) {
    match e
    case Base(l) => l.Grpc?
    case Wrap(_, i) => HasStatus(i)
  }

  datatype Converter = Common | K8s

  /** CommonErrorConverter: the first of its checks that matches the chain. */
  function ConvertCommon(e: Error): Option<Code> {
    if Holds(e, Leaf.NotFound) then Some(NotFoundCode)
    else if Holds(e, Leaf.InvalidArgument) then Some(InvalidArgumentCode)
    else if Holds(e, Leaf.AlreadyExists) then Some(AlreadyExistsCode)
    else if Holds(e, PermissionDenied) then Some(PermissionDeniedCode)
    else if Holds(e, NotImplemented) then Some(UnimplementedCode)
    else if Holds(e, Leaf.Unsupported) then Some(UnimplementedCode)
    else if Holds(e, Internal) then Some(InternalCode)
    else None
  }

  /** K8sErrorConverter likewise. */
  function ConvertK8s(e: Error): Option<Code> {
    if Holds(e, NotInstantiated) then Some(InvalidArgumentCode)
    else if Holds(e, Leaf.NotManaged) then Some(PermissionDeniedCode)
    else if Holds(e, Api(Reason.ApiNotFound)) then Some(NotFoundCode)
    else if Holds(e, Api(ApiAlreadyExists)) then Some(AlreadyExistsCode)
    else if Holds(e, Api(ApiInvalid)) || Holds(e, Api(ApiBadRequest)) then Some(InvalidArgumentCode)
    else if Holds(e, Api(ApiForbidden)) then Some(PermissionDeniedCode)
    else if Holds(e, Api(ApiUnauthorized)) then Some(UnauthenticatedCode)
    else None
  }

  function Convert(c: Converter, e: Error): Option<Code> {
    if c == Common then ConvertCommon(e) else ConvertK8s(e)
  }

  function Status(code: Code): Error {
    Base(Grpc(code))
  }

  /** ToGRPCError: nil stays nil, a chain that holds a gRPC status is returned as it is, then the
      first converter that answers, then Internal. */
  method ToGrpcError(converters: seq<Converter>, err: Option<Error>) returns (r: Option<Error>)
    ensures r == if err.None? then None else Some(Grpcified(converters, err.value))
  {
    if err.None? { return None; }
    if HasStatus(err.value) { return err; }
    for i := 0 to |converters|
      invariant FirstCode(converters, err.value) == FirstCode(converters[i..], err.value)
    {
      var code := Convert(converters[i], err.value);
      if code.Some? { return Some(Status(code.value)); }
      assert converters[i..][1..] == converters[i + 1..];
    }
    r := Some(Status(InternalCode));
  }

  function FirstCode(converters: seq<Converter>, e: Error): Option<Code> {
    if converters == [] then None
    else if Convert(converters[0], e).Some? then Convert(converters[0], e)
    else FirstCode(converters[1..], e)
  }

  function Grpcified(converters: seq<Converter>, e: Error): Error {
    if HasStatus(e) then e
    else
      var code := FirstCode(converters, e);
      Status(if code.Some? then code.value else InternalCode)
  }

  // ---------- the code a leaf means ----------

  function CodeOf(l: Leaf): Code {
    match l
    case NotFound => NotFoundCode
    case InvalidArgument => InvalidArgumentCode
    case AlreadyExists => AlreadyExistsCode
    case PermissionDenied => PermissionDeniedCode
    case NotImplemented => UnimplementedCode
    case Unsupported => UnimplementedCode
    case Internal => InternalCode
    case NotInstantiated => InvalidArgumentCode
    case NotManaged => PermissionDeniedCode
    case Api(ApiNotFound) => NotFoundCode
    case Api(ApiAlreadyExists) => AlreadyExistsCode
    case Api(ApiInvalid) => InvalidArgumentCode
    case Api(ApiBadRequest) => InvalidArgumentCode
    case Api(ApiForbidden) => PermissionDeniedCode
    case Api(ApiUnauthorized) => UnauthenticatedCode
    case Api(ApiOther) => InternalCode
    case Grpc(c) => c
    case Plain(_) => InternalCode
  }

  /** A chain of single wraps holds its leaf and nothing else, at any depth. */
  lemma {:induction false} HoldsOnlyLeaf(e: Error)
    ensures forall target :: Holds(e, target) <==> target == LeafOf(e)
    ensures HasStatus(e) <==> LeafOf(e).Grpc?
  {
    if e.Wrap? { HoldsOnlyLeaf(e.inner); }
  }

  /** Each converter answers with the leaf's code or not at all. */
  lemma ConverterAnswers(c: Converter, e: Error)
    ensures Convert(c, e).Some? ==> Convert(c, e).value == CodeOf(LeafOf(e))
    ensures Convert(Common, e).None? && Convert(K8s, e).None? && !LeafOf(e).Grpc? ==> CodeOf(LeafOf(e)) == InternalCode
  {
    HoldsOnlyLeaf(e);
  }

  lemma {:induction false} FirstCodeIsLeafCode(converters: seq<Converter>, e: Error)
    ensures FirstCode(converters, e).Some? ==> FirstCode(converters, e).value == CodeOf(LeafOf(e))
    ensures FirstCode(converters, e).None? ==> forall c :: c in converters ==> Convert(c, e).None?
  {
    if converters != [] {
      ConverterAnswers(converters[0], e);
      FirstCodeIsLeafCode(converters[1..], e);
    }
  }

  /** With both converters registered, in any order and any number of times, the code is the leaf's,
      whatever is wrapped around it. */
  lemma LeafDecidesCode(converters: seq<Converter>, e: Error)
    requires Common in converters && K8s in converters
    ensures LeafOf(Grpcified(converters, e)) == Grpc(CodeOf(LeafOf(e)))
    ensures LeafOf(e).Grpc? ==> Grpcified(converters, e) == e
  {
    HoldsOnlyLeaf(e);
    FirstCodeIsLeafCode(converters, e);
    ConverterAnswers(Common, e);
  }

  /** Converting twice, even with other registrations, changes nothing more. */
  lemma Idempotent(converters: seq<Converter>, others: seq<Converter>, e: Error)
    ensures Grpcified(others, Grpcified(converters, e)) == Grpcified(converters, e)
  {
    HoldsOnlyLeaf(Grpcified(converters, e));
    HoldsOnlyLeaf(e);
  }
}
