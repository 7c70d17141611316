/**
  The pod-listing tool (src/kube/tools/pods.rs): the namespace and page limit
  start at their defaults and are replaced by whatever the caller gave, the
  endpoint is formatted from them, and the fetched list is decoded and printed.
 */
module PodTool {
  import opened Wrappers
  import opened Text
  import opened Numbers
  import opened KubeError
  import opened PodList

  const DEFAULT_NAMESPACE := "default"
  const DEFAULT_LIMIT: u32 := 500

  /** The pods endpoint for a namespace and a limit; the namespace is inserted as it is, unescaped. */
  function PodsEndpoint(namespace: string, limit: u32): string {
    "/api/v1/namespaces/" + namespace + "/pods?limit=" + DecimalString(limit as nat)
  }

  /** The endpoint `list_pods` requests. */
  method Endpoint(namespace: Option<string>, limit: Option<u32>) returns (endpoint: string)
    ensures endpoint == PodsEndpoint(namespace.GetOr(DEFAULT_NAMESPACE), limit.GetOr(DEFAULT_LIMIT))
  {
    var namespacePath := DEFAULT_NAMESPACE;
    var limitQuery := DEFAULT_LIMIT;
    if namespace.Some? {
      namespacePath := namespace.value;
    }
    if limit.Some? {
      limitQuery := limit.value;
    }
    endpoint := "/api/v1/namespaces/" + namespacePath + "/pods?limit=" + DecimalString(limitQuery as nat);
  }

  /** What `list_pods` returns: the printed pod list, or the first error on the way. */
  function PodsResult(namespace: Option<string>, limit: Option<u32>, fetch: Fetch, decode: Decode<seq<Pod>>): Result<string, KubeAgentError> {
    match DecodeResponse(fetch(PodsEndpoint(namespace.GetOr(DEFAULT_NAMESPACE), limit.GetOr(DEFAULT_LIMIT))), decode)
    case Failure(e) => Failure(e)
    case Success(pods) => Success(PodListText(pods))
  }

  /**
    `list_pods`: build the endpoint, fetch it, decode the list and print it. A
    transport error is passed on as it is; a body that does not decode is a
    JSON error.
   */
  method ListPods(namespace: Option<string>, limit: Option<u32>, fetch: Fetch, decode: Decode<seq<Pod>>)
    returns (r: Result<string, KubeAgentError>)
    ensures r == PodsResult(namespace, limit, fetch, decode)
    ensures var e := PodsEndpoint(namespace.GetOr(DEFAULT_NAMESPACE), limit.GetOr(DEFAULT_LIMIT));
            && (fetch(e).Failure? ==> r == Failure(fetch(e).error))
            && (fetch(e).Success? && decode(fetch(e).value).Failure? ==> r.Failure? && r.error.JsonParseError?)
  {
    var endpoint := Endpoint(namespace, limit);
    var response := fetch(endpoint);
    if response.Failure? {
      return Failure(response.error);
    }
    var decoded := decode(response.value);
    if decoded.Failure? {
      return Failure(JsonParseError(decoded.error));
    }
    var text := AsString(decoded.value);
    return Success(text);
  }

  // ---------------------------------------------------------------- properties

  /** Without arguments the tool lists up to 500 pods of the "default" namespace. */
  lemma Defaults()
    ensures PodsEndpoint(Option<string>.None.GetOr(DEFAULT_NAMESPACE), Option<u32>.None.GetOr(DEFAULT_LIMIT))
            == "/api/v1/namespaces/default/pods?limit=500"
  {
    DefaultLimitDigits();
  }

  lemma DefaultLimitDigits()
    ensures DecimalString(DEFAULT_LIMIT as nat) == "500"
  {
    assert DecimalString(5) == "5";
    assert DecimalString(50) == DecimalString(5) + "0";
    assert DecimalString(500) == DecimalString(50) + "0";
  }

  /** A given namespace and limit replace the defaults. */
  lemma GivenArgumentsWin(namespace: string, limit: u32)
    ensures PodsEndpoint(Some(namespace).GetOr(DEFAULT_NAMESPACE), Some(limit).GetOr(DEFAULT_LIMIT))
            == PodsEndpoint(namespace, limit)
  {
  }

  /** The endpoint is its path segments joined by "/". */
  lemma EndpointIsJoin(namespace: string, query: string)
    ensures "/api/v1/namespaces/" + namespace + "/" + query
            == Join(["", "api", "v1", "namespaces", namespace, query], "/")
  {
    var segs := ["", "api", "v1", "namespaces", namespace, query];
    var tail := namespace + "/" + query;
    JoinStep(segs, "/", 4);
    assert segs[5..] == [query];
    JoinStep(segs, "/", 3);
    JoinStep(segs, "/", 2);
    JoinStep(segs, "/", 1);
    JoinStep(segs, "/", 0);
    assert segs[0..] == segs;
    FixedSegments(tail);
    ConcatAssoc("/api/v1/namespaces/", namespace, "/" + query);
    ConcatAssoc("/api/v1/namespaces/" + namespace, "/", query);
  }

  /** The fixed segments joined in front of the rest of the endpoint. */
  lemma FixedSegments(tail: string)
    ensures "" + "/" + ("api" + "/" + ("v1" + "/" + ("namespaces" + "/" + tail))) == "/api/v1/namespaces/" + tail
  {
  }

  /**
    When the namespace holds no '/', the endpoint's path segments are the fixed
    ones, the namespace, and the query with the limit's decimal digits.
   */
  lemma EndpointSegments(namespace: string, limit: u32)
    requires '/' !in namespace
    ensures Split(PodsEndpoint(namespace, limit), "/")
            == ["", "api", "v1", "namespaces", namespace, "pods?limit=" + DecimalString(limit as nat)]
  {
    var digits := DecimalString(limit as nat);
    var query := "pods?limit=" + digits;
    DecimalStringDigits(limit as nat);
    assert '/' !in query by {
      forall k | 0 <= k < |query| ensures query[k] != '/' {
        if k >= 11 { assert query[k] == digits[k - 11]; assert digits[k - 11] in digits; }
      }
    }
    assert PodsEndpoint(namespace, limit) == "/api/v1/namespaces/" + namespace + "/" + query;
    EndpointIsJoin(namespace, query);
    SplitJoin(["", "api", "v1", "namespaces", namespace, query], "/");
  }

  /** Different namespaces (without '/') or limits always give different endpoints. */
  lemma EndpointInjective(a: string, m: u32, b: string, n: u32)
    requires '/' !in a && '/' !in b
    requires PodsEndpoint(a, m) == PodsEndpoint(b, n)
    ensures a == b && m == n
  {
    EndpointSegments(a, m);
    EndpointSegments(b, n);
    var qa := "pods?limit=" + DecimalString(m as nat);
    var qb := "pods?limit=" + DecimalString(n as nat);
    assert qa == qb;
    assert qa[11..] == DecimalString(m as nat);
    assert qb[11..] == DecimalString(n as nat);
    DecimalStringInjective(m as nat, n as nat);
  }

  /** Only the computed endpoint is requested: two servers that agree on it give the same result. */
  lemma OnlyPodsEndpoint(namespace: Option<string>, limit: Option<u32>, f: Fetch, g: Fetch, decode: Decode<seq<Pod>>)
    requires var e := PodsEndpoint(namespace.GetOr(DEFAULT_NAMESPACE), limit.GetOr(DEFAULT_LIMIT)); f(e) == g(e)
    ensures PodsResult(namespace, limit, f, decode) == PodsResult(namespace, limit, g, decode)
  {
  }
}
