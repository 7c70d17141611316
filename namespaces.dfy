/**
  The namespace listing (src/kube/types/namespaces.rs and its copy in
  src/kube/tools/namespaces.rs): the names of the listed namespaces, in order,
  separated by ", ", and the tool that fetches the list from the API server.
 */
module Namespaces {
  import opened Wrappers
  import opened Text
  import opened KubeError

  datatype NamespaceMetadata = NamespaceMetadata(name: string)
  datatype NamespaceItem = NamespaceItem(metadata: NamespaceMetadata)

  const SEPARATOR := ", "
  const NAMESPACES_ENDPOINT := "/api/v1/namespaces"

  /** The names of the items, in item order. */
  function Names(items: seq<NamespaceItem>): (names: seq<string>)
    ensures |names| == |items|
    ensures forall i :: 0 <= i < |items| ==> names[i] == items[i].metadata.name
  {
    seq(|items|, i requires 0 <= i < |items| => items[i].metadata.name)
  }

  /**
    `as_string`: the names joined with ", ". An empty list prints nothing at
    all, and a single namespace prints as its bare name.
   */
  function AsString(items: seq<NamespaceItem>): (s: string)
    ensures items == [] ==> s == ""
    ensures |items| == 1 ==> s == items[0].metadata.name
  {
    Join(Names(items), SEPARATOR)
  }

  /** The namespace output lists exactly the item names, in order, whenever there is at least one item. */
  lemma AsStringRoundTrip(items: seq<NamespaceItem>)
    requires items != []
    requires forall i :: 0 <= i < |items| ==> ',' !in items[i].metadata.name
    ensures Split(AsString(items), SEPARATOR) == Names(items)
  {
    SplitJoin(Names(items), SEPARATOR);
  }

  /**
    `list_namespaces`: fetch the fixed endpoint, decode the list, print it. A
    transport error is passed on as it is; a body that does not decode is a
    JSON error, never an empty listing.
   */
  function ListNamespaces(fetch: Fetch, decode: Decode<seq<NamespaceItem>>): (r: Result<string, KubeAgentError>)
    ensures fetch(NAMESPACES_ENDPOINT).Failure? ==> r == Failure(fetch(NAMESPACES_ENDPOINT).error)
    ensures fetch(NAMESPACES_ENDPOINT).Success? && decode(fetch(NAMESPACES_ENDPOINT).value).Failure?
            ==> r == Failure(JsonParseError(decode(fetch(NAMESPACES_ENDPOINT).value).error))
    ensures r.Success? <==> fetch(NAMESPACES_ENDPOINT).Success? && decode(fetch(NAMESPACES_ENDPOINT).value).Success?
    ensures r.Success? ==> r.value == AsString(decode(fetch(NAMESPACES_ENDPOINT).value).value)
  {
    match DecodeResponse(fetch(NAMESPACES_ENDPOINT), decode)
    case Failure(e) => Failure(e)
    case Success(items) => Success(AsString(items))
  }

  /** Only the namespaces endpoint is ever requested: two servers that agree on it give the same result. */
  lemma OnlyNamespacesEndpoint(f: Fetch, g: Fetch, decode: Decode<seq<NamespaceItem>>)
    requires f(NAMESPACES_ENDPOINT) == g(NAMESPACES_ENDPOINT)
    ensures ListNamespaces(f, decode) == ListNamespaces(g, decode)
  {
  }
}
