# rust-agent, modelled in Dafny

This project models the logic core of `rust-agent`. The program is a small HTTP
server that fronts a chat agent. Its agent tools query a Kubernetes API server
and a portfolio web site. The model covers five parts:

- **The HTTP front end** (`src/server/types.rs`, `src/server/mod.rs`):
  - the request decoder (request line, `x-api-key` and `content-length` headers, body);
  - the API-key check;
  - the routing table;
  - the `/chat` handler, which converts the chat history and asks the agent;
  - the response framing `HTTP/1.1 <status>\r\nContent-Length: <n>\r\n\r\n<body>`.
- **The earlier server** (`src/server.rs`). It has no key check. It wraps the
  agent's reply as `{"response": "..."}` and escapes only the double quotes.
- **Node-metrics reconciliation** (`src/kube/types/metrics.rs`). It parses `Ki`
  and `n` quantities and joins each metrics entry to its node by name. The
  first failure fails the whole call.
- **The text builders of the Kubernetes tools**:
  - the pod listing (`src/kube/types/pod.rs`);
  - the namespace listing (`src/kube/types/namespaces.rs`, and its copy in
    `src/kube/tools/namespaces.rs`);
  - the pods endpoint with its defaults (`src/kube/tools/pods.rs`).
- **The portfolio URLs** (`src/agent/tools/web_search.rs`): the four sections,
  their URLs on either host, and the strict parser for those URLs.

## How the pieces are laid out

| file | module | what it holds |
|---|---|---|
| `wrappers.dfy` | `Wrappers` | `Option`, `Result` |
| `text.dfy` | `Text` | Rust's `lines`, `split`, `split_whitespace`, `trim`, `join`, lower-case prefix test |
| `numbers.dfy` | `Numbers` | decimal printing; the `u64`/`i32` parsers; `f64` literal syntax |
| `utf8.dfy` | `Utf8` | UTF-8 encoding (`str::len` counts bytes) |
| `http_wire.dfy` | `HttpWire` | status lines, response framing, the output stream |
| `http_types.dfy` | `HttpTypes` | `Method`, `Path`, `Request::parse`, role conversion, and a client-side request encoder it inverts |
| `chat.dfy` | `ChatHandling` | the `/chat` decision and history conversion that both servers share |
| `http_server.dfy` | `HttpServer` | the keyed server: routing, handlers, `handle_client` |
| `legacy_server.dfy` | `LegacyServer` | the earlier server |
| `kube_error.dfy` | `KubeError` | `KubeAgentError`; fetch-then-decode error mapping |
| `metrics.dfy` | `Metrics` | quantity parsing, `from_node_and_metrics`, `combine_with_nodes` |
| `pod_list.dfy` | `PodList` | the pod listing text |
| `namespaces.dfy` | `Namespaces` | the namespace listing and `list_namespaces` |
| `pod_tool.dfy` | `PodTool` | the pods endpoint and `list_pods` |
| `web_search.dfy` | `WebSearch` | `ProfileUrl`, `as_url`, `visit_str`, the URL list |

Code that updates state step by step is modelled by methods with loops, proved
against functions that state what they compute:

- the header loop of `Request::parse`;
- the history-conversion loop;
- the `combine_with_nodes` loop;
- the `push_str` loops of the pod listing;
- the defaults-then-overwrite endpoint builder;
- writes to the TCP stream. The stream is a `Stream` object whose `sent` field
  grows by the response bytes.

Outside collaborators are function-typed parameters:

- the JSON decoder of the chat body;
- the agent;
- the Kubernetes fetch;
- the list decoders.

So "the agent is never called" is stated as "the routing decision is a reply,
not a request to the agent", or "any two agents give the same response".

`/` answers `200 OK` with `{"healthy": true}` for any method
(`HttpServer.RootIgnoresMethod`).

## Model

| member | source | states |
|---|---|---|
| HttpTypes.ParseMethod | src/server/types.rs:11-17 | A method is recognised exactly for "GET" and "POST", case-sensitively, and printing it gives back the token |
| HttpTypes.ParsePath | src/server/types.rs:28-35 | A path is recognised exactly for "/chat", "/" and "/favicon.ico", and printing it gives back the token |
| HttpTypes.ParseMethodToken | src/server/types.rs:11-17 | Printing a method and parsing it back gives the same method |
| HttpTypes.ParsePathToken | src/server/types.rs:28-35 | Printing a path and parsing it back gives the same path |
| HttpTypes.RequestLine | src/server/types.rs:48-53 | The request line is accepted exactly when its first two whitespace tokens are a known method and a known path; later tokens are ignored |
| HttpTypes.ParsedRequest | src/server/types.rs:47-87 | None exactly when there is no first line or the request line is refused. Otherwise the method and path are those of the first line. The key comes from the header lines before the first empty line. A body exists exactly when the scanned length is positive, and it is all remaining lines joined with "\n" |
| HttpTypes.Parse | src/server/types.rs:47-87 | The line-by-line decoder, with its header loop, computes exactly `ParsedRequest` |
| HttpTypes.ScanKeepsKey | src/server/types.rs:61-65 | Header lines that do not start with `x-api-key:` leave the found key unchanged |
| HttpTypes.ScanKeepsLength | src/server/types.rs:67-71 | Header lines that do not start with `content-length:` leave the found length unchanged |
| HttpTypes.LastKeyLineWins | src/server/types.rs:61-65 | The last `x-api-key:` line (any letter case) decides the key: its trimmed second ':'-field |
| HttpTypes.LastLengthLineWins | src/server/types.rs:67-71 | The last `content-length:` line decides the length: its trimmed second field parsed as `i32`, or 0 when that fails |
| HttpTypes.ScannedKey | src/server/types.rs:61-65 | A key is found exactly when some header line names it; it never contains ':' and has no surrounding whitespace |
| HttpTypes.NoLengthLineMeansZero | src/server/types.rs:55-71 | Without a content-length line the length stays 0 |
| HttpTypes.HeadersEndAtFirstBlankLine | src/server/types.rs:57-60 | Two messages that agree up to the first empty line decode to the same method, path, key and body presence; nothing after that line is read as a header |
| HttpTypes.HeaderLineValue | src/server/types.rs:62-63 | The trimmed second field of a `name: value` line is the value, when neither holds ':' and the value has no edge whitespace |
| HttpTypes.LengthLineField | src/server/types.rs:67-69 | A printed content length reads back as itself when it fits an `i32`, and as 0 otherwise |
| HttpTypes.ParseRequestText | src/server/types.rs:47-87 | The decoder inverts a client's request (request line, optional key header, length header, blank line, body) and returns its method, path and key. The body is returned exactly when 0 < length <= i32 max |
| HttpTypes.ToMessage | src/server/types.rs:105-111 | A history entry converts exactly when its role is "user" or "assistant", and keeps its role and text; any other role is an error |
| HttpTypes.ToMessageOfMessage | src/server/types.rs:105-110 | A message turned into a JSON entry converts back to the same message |
| HttpTypes.AsHttpMessageInjective | src/server/types.rs:105-110 | Distinct messages have distinct JSON entries |
| Text.JoinLines | src/server/types.rs:74-79 | Joining the lines of a body with "\n" gives back the body when it has no "\r" and no final "\n" |
| Text.SplitThreeWords | src/server/types.rs:50-53 | Three words separated by single spaces split back into exactly those three tokens |
| Text.LinesOfCrlfText | src/server/types.rs:48-57 | Lines ended by CRLF are read back by `lines()` as those lines without the "\r", followed by the lines of whatever comes after them |
| Utf8.EncodeConcat | src/server/mod.rs:107-117 | The UTF-8 bytes of a concatenation are the bytes of the parts, in order |
| Utf8.EncodeAscii | src/server/mod.rs:112 | An ASCII text has as many bytes as characters |
| Numbers.DecimalString | src/server/mod.rs:112 | A printed count is a non-empty digit string with no leading zero, whose value is the count |
| Numbers.ParseU64Decimal | src/kube/types/metrics.rs:116-124 | A printed number below 2^64 parses back as a `u64` to itself |
| Numbers.ParseI32Decimal | src/server/types.rs:69 | A printed number parses as an `i32` to itself when it fits, and fails otherwise |
| Numbers.DecimalIsF64Literal | src/kube/types/metrics.rs:74-77 | A printed integer is valid `f64` syntax |
| HttpWire.ResponseBytes | src/server/mod.rs:107-117 | The response is the encoded head followed by the encoded body. The number in the head equals the body's byte count |
| HttpWire.SendResponse | src/server/mod.rs:107-117 | Writing a response appends exactly its bytes to the stream and nothing else |
| ChatHandling.ConvertAll | src/server/mod.rs:148-166 | The history converts exactly when every role is valid, with the same length and each entry's role and text kept in order; otherwise the error is the invalid-role error |
| ChatHandling.ConvertHistory | src/server/mod.rs:151-165 | The push loop with early return computes exactly `ConvertAll` |
| ChatHandling.ChatDecision | src/server/mod.rs:126-197 | The agent is asked only when the method is POST, a body is present, the body decodes and all roles are valid. It gets the decoded prompt and the whole history in order. GET gives 405. A POST without a body gives 400 "Missing request body"; one whose body does not decode gives 400 "Invalid JSON body"; every other refusal of a POST gives 400 |
| ChatHandling.ConvertAllOfMessages | src/server/mod.rs:148-166 | A history made from messages converts back to exactly those messages |
| ChatHandling.OneBadRoleRefuses | src/server/mod.rs:152-163 | A single invalid role anywhere in the history refuses the request with 400 before the agent is asked |
| HttpServer.Route | src/server/mod.rs:63-104 | A malformed request gives 400. A missing key gives 401 and a wrong key 403, both decided before the path. The agent is asked only for an authorized /chat request, and such a request gets exactly the chat checks' decision, with the decoded prompt and the converted history |
| HttpServer.Answer | src/server/mod.rs:168-183 | A ready reply passes through unchanged. Asking the agent gives 200 exactly when the agent succeeds, and then the body is its text verbatim |
| HttpServer.RootHandler | src/server/mod.rs:202-205 | Writes exactly the 200 health response |
| HttpServer.ChatHandler | src/server/mod.rs:120-199 | Writes exactly the response that the chat decision and the agent's answer call for |
| HttpServer.HandleClient | src/server/mod.rs:58-104 | Writes exactly the response for the received text: the routing decision for the parsed request, answered |
| HttpServer.AgentOnlyForValidChat | src/server/mod.rs:70-96 | The agent is asked iff the request is an authorized /chat that the chat checks accept. For every other request, any two agents give the same response |
| HttpServer.DecoderOnlyForAuthorizedChat | src/server/mod.rs:70-140 | The JSON decoder only sees the body of an authorized POST to /chat; for any other request two decoders give the same response |
| HttpServer.RootIgnoresMethod | src/server/mod.rs:91 | With a valid key, "/" answers 200 `{"healthy": true}` whatever the method |
| HttpServer.FaviconNotFound | src/server/mod.rs:92-95 | With a valid key, "/favicon.ico" answers 404 "Favicon not found" |
| HttpServer.MissingKeyIs401 | src/server/mod.rs:81-84 | A well-formed request without a key header gets 401 "Missing API key", whatever its path |
| HttpServer.WrongKeyIs403 | src/server/mod.rs:71-79 | A well-formed request with a different key gets 403 "Invalid API key", whatever its path |
| HttpServer.GetChatIs405 | src/server/mod.rs:194-197 | An authorized GET to /chat gets 405 "Invalid method for /chat" |
| HttpServer.HealthCheck | src/server/mod.rs:202-205 | An authorized GET to / gets the health response |
| HttpServer.InvalidRoleIs400 | src/server/mod.rs:152-163 | An authorized POST to /chat whose history has an invalid role gets 400, whatever the agent |
| HttpServer.ValidChatAsksAgent | src/server/mod.rs:168-183 | An authorized POST to /chat with a decodable body and valid roles asks the agent with the decoded prompt and the history the chat checks convert from the body, and answers 200 with its text or 500 |
| LegacyServer.LegacyParsed | src/server.rs:50-80 | The earlier decoder accepts the same request lines. Its body is present exactly when the scanned length is positive, and is then the remaining lines joined with "\n" |
| LegacyServer.LegacyParse | src/server.rs:50-80 | The earlier line-by-line decoder computes exactly `LegacyParsed` |
| LegacyServer.ScanLengthAgrees | src/server.rs:59-69 | The earlier header loop finds the same content length as the newer one |
| LegacyServer.LegacyParseAgrees | src/server.rs:50-80 | The earlier decoder gives the newer decoder's method, path and body, without the key |
| LegacyServer.EscapeQuotes | src/server.rs:235 | Escaping never shortens the text and leaves no '"' without a '\\' before it |
| LegacyServer.UnescapeEscapeQuotes | src/server.rs:235 | Undoing the quote escaping gives back the original text |
| LegacyServer.EnvelopeRoundTrip | src/server.rs:235 | The quote-only reader (`\"` to `"`, nothing else) recovers the agent's text from the `{"response": "..."}` envelope. It is not a JSON decoder |
| LegacyServer.BackslashQuoteEscape | src/server.rs:235 | Backslashes are not escaped: the text `a\"b` is written as `a\\"b`, where a JSON string would already end |
| LegacyServer.Route | src/server.rs:143-167 | A malformed request gives 400. A /chat request gets exactly the chat checks' decision, so the agent is asked exactly when they accept it, with the decoded prompt and converted history; no key is consulted |
| LegacyServer.Answer | src/server.rs:228-246 | A ready reply passes through unchanged. Asking the agent gives 200 exactly when the agent succeeds, and then the body is exactly `{"response": "` + the text with each '"' escaped + `"}`, which the quote-only reader (not a JSON decoder) reads back as the text |
| LegacyServer.RootHandler | src/server.rs:261-264 | Writes exactly the 200 health response |
| LegacyServer.ChatHandler | src/server.rs:182-259 | Writes exactly the response that the chat decision and the enveloped answer call for |
| LegacyServer.HandleClient | src/server.rs:138-168 | Writes exactly the earlier server's response for the received text: its routing decision for the parsed request, answered |
| LegacyServer.KeyIgnored | src/server.rs:143-160 | The earlier server answers a request the same with any key header or none |
| LegacyServer.SameDecisionWhenAuthorized | src/server.rs:143-167 | For a request carrying the right key, the newer server makes the same routing decision as the earlier one |
| Metrics.WrappingMulU64 | src/kube/types/metrics.rs:96 | The product stays below 2^64 and is exact when it fits |
| Metrics.ParseMemoryKi | src/kube/types/metrics.rs:116-124 | Success only for a "Ki" suffix, with a `u64` value; without the suffix the error is "Invalid memory format: " and the input |
| Metrics.ParseMemoryKiOf | src/kube/types/metrics.rs:116-124 | Whatever precedes "Ki" is read as a `u64`; if that fails the error is "Failed to parse memory Ki: " and the input |
| Metrics.ParseCpuNanoseconds | src/kube/types/metrics.rs:103-113 | Success only for an "n" suffix, giving a count divided by 10^9; without the suffix the error is "Invalid CPU format: " and the input |
| Metrics.ParseCpuNanosecondsOf | src/kube/types/metrics.rs:103-113 | Whatever precedes "n" must be `f64` syntax; the cores are that number over 10^9, else the error is "Failed to parse CPU nanoseconds: " and the input |
| Metrics.FromNodeAndMetrics | src/kube/types/metrics.rs:72-99 | Succeeds exactly when all four quantities parse. Otherwise the error is the first failure in the order CPU capacity, memory capacity, CPU usage, memory usage. On success: the node's name, usage bytes = usage KiB x 1024 (u64), and the percentages are usage over capacity x 100 |
| Metrics.FindNode | src/kube/types/metrics.rs:135-138 | Finds the first node with the entry's name, or reports that none has it |
| Metrics.Reconcile | src/kube/types/metrics.rs:133-147 | A missing node gives "No matching node found for metrics: " and the name; otherwise the result of that node's reconciliation, with a failure wrapped as a parse error; a success keeps the entry's name |
| Metrics.Combine | src/kube/types/metrics.rs:127-152 | Succeeds exactly when every entry reconciles, with one line per entry |
| Metrics.CombineElements | src/kube/types/metrics.rs:131-151 | Line i of the report is the reconciliation of metrics entry i |
| Metrics.CombineWithNodes | src/kube/types/metrics.rs:127-152 | The push loop with early return computes exactly `Combine` |
| Metrics.FirstFailureDecides | src/kube/types/metrics.rs:133-147 | When all entries before i reconcile and entry i fails, the whole call fails with entry i's error |
| Metrics.MissingNodeFailsAll | src/kube/types/metrics.rs:139-144 | One metrics entry without a node fails the whole call; no shortened report is returned |
| Metrics.CombineFollowsMetricsOrder | src/kube/types/metrics.rs:133-148 | Report line i carries the name of metrics entry i |
| Metrics.ParseMemoryKiDecimal | src/kube/types/metrics.rs:116-124 | A printed KiB count with "Ki" parses back to the count |
| Metrics.ParseCpuNanosecondsDecimal | src/kube/types/metrics.rs:103-113 | A printed nanosecond count with "n" parses to that count over 10^9 |
| Metrics.MemoryBytesExact | src/kube/types/metrics.rs:96 | The byte count is exactly usage x 1024 for every usage below 2^54 KiB |
| Metrics.MemoryExample | src/kube/types/metrics.rs:85-96 | "1879200Ki" is 1879200 KiB, that is 1924300800 bytes |
| PodList.AsString | src/kube/types/pod.rs:57-106 | The pushed text is exactly the listing: the count line, then each pod's block numbered by position |
| PodList.PushLabels | src/kube/types/pod.rs:68-73 | Appends the Labels section only when labels are present, one `    key: value` line per label |
| PodList.PushSpec | src/kube/types/pod.rs:75-84 | Appends the Node line (or "N/A") and one `    - name` line per container, in order, only when a spec is present |
| PodList.PushStatus | src/kube/types/pod.rs:86-100 | Appends Phase, Started only when known, and one `    type: status` line per condition, only when a status is present |
| PodList.EmptyList | src/kube/types/pod.rs:58-59 | An empty list prints exactly "Found 0 pods:\n\n" |
| PodList.BlocksPrefix | src/kube/types/pod.rs:61-103 | The blocks of the first k pods are a prefix of the blocks of all pods |
| PodList.PodBlockAt | src/kube/types/pod.rs:59-103 | Pod k's block, numbered k+1, follows the count line and the blocks of pods 0..k-1 |
| PodList.PodBlockShape | src/kube/types/pod.rs:62-102 | Every block opens with `Pod i:` and its Name line, and ends with a line break and a blank line |
| PodList.NodeNameDefault | src/kube/types/pod.rs:75-84 | A spec without a node name prints "  Node: N/A" and then its containers |
| Namespaces.AsString | src/kube/types/namespaces.rs:19-26 | No items print as the empty string; one item prints as its bare name (the same function is repeated at src/kube/tools/namespaces.rs:29-36) |
| Namespaces.AsStringRoundTrip | src/kube/tools/namespaces.rs:28-37 | For a non-empty list of comma-free names, splitting the output at ", " gives the names back in order |
| Text.SplitJoin | src/kube/types/namespaces.rs:25 | Joined pieces split back into themselves when no piece holds the separator's first character |
| KubeError.DecodeResponse | src/kube/tools/namespaces.rs:46-54 | A transport error passes through unchanged; an undecodable body becomes a JSON error; otherwise the decoded value |
| Namespaces.ListNamespaces | src/kube/tools/namespaces.rs:44-57 | A transport error from the namespaces endpoint passes through; an undecodable body is a JSON error carrying the decoder's message, never an empty listing; the result is a success exactly when the fetch and the decode both succeed, and it is then the printed list |
| Namespaces.OnlyNamespacesEndpoint | src/kube/tools/namespaces.rs:45-46 | Only "/api/v1/namespaces" is requested: two servers that agree on it give the same result |
| PodTool.Endpoint | src/kube/tools/pods.rs:24-37 | The endpoint uses the given namespace and limit, or "default" and 500 |
| PodTool.ListPods | src/kube/tools/pods.rs:19-49 | Fetches the computed endpoint. A transport error passes through; an undecodable body is a JSON error; success prints the pod listing |
| PodTool.Defaults | src/kube/tools/pods.rs:24-25 | With no arguments the endpoint is "/api/v1/namespaces/default/pods?limit=500" |
| PodTool.GivenArgumentsWin | src/kube/tools/pods.rs:27-32 | A given namespace and limit replace the defaults |
| PodTool.EndpointSegments | src/kube/tools/pods.rs:34-37 | For a namespace without '/', the endpoint's path segments are "", api, v1, namespaces, the namespace, and `pods?limit=` with the limit's digits |
| PodTool.EndpointInjective | src/kube/tools/pods.rs:34-37 | Different namespaces (without '/') or limits give different endpoints |
| PodTool.OnlyPodsEndpoint | src/kube/tools/pods.rs:34-39 | Only the computed endpoint is requested: two servers that agree on it give the same result |
| WebSearch.VisitStr | src/agent/tools/web_search.rs:56-87 | Accepts exactly the eight listed URLs; anything else is an unknown-variant error listing them |
| WebSearch.UrlTexts | src/agent/tools/web_search.rs:30-38 | The URLs `as_url` prints on both hosts are exactly the eight accepted ones |
| WebSearch.AsUrl | src/agent/tools/web_search.rs:20-38 | The URL printed for a section is the one the parser lists for it: among the first four ("https://about.calum.run/?tab=...") in production mode, among the last four ("http://localhost:3000/?tab=...") otherwise |
| WebSearch.VisitAsUrl | src/agent/tools/web_search.rs:30-72 | Every section's URL, on either host, parses back to that section |
| WebSearch.AcceptedAreUrls | src/agent/tools/web_search.rs:60-72 | Every accepted string is the URL of the section it parses to, on one of the hosts |
| WebSearch.EightAccepted | src/agent/tools/web_search.rs:73-85 | Exactly eight distinct strings are accepted |
| WebSearch.AsUrlInjective | src/agent/tools/web_search.rs:33-36 | Two different sections never share a URL, on any hosts |
| WebSearch.ProfileUrlList | src/agent/tools/web_search.rs:212-223 | The four URLs of the current mode's host (the first four accepted ones in production, the last four otherwise), parsing back to About, Work, Projects and Contact, in that order |

## Left out

- TCP I/O: `listen`, the accept loop, and the single `stream.read` into a 100 000-byte or 4096-byte buffer. That read truncates longer requests. The request is taken as the text already read, and `from_utf8_lossy` is not modelled.
- Errors from `write_all` and `flush`. A write always succeeds in the model, and the `io::Result` of the handlers is not modelled.
- `serde_json` decoding of the chat body and of the node, metrics, pod and namespace lists. Each decoder is a function parameter returning the decoded value or a failure.
- The agent (`src/agent/mod.rs`) is a function parameter. It is deterministic in the model, and its error text is not used because the source only logs it.
- `KubeAgent::make_request` (src/kube/mod.rs:30-90), with its HTTP client, bearer token and certificates, is a function parameter from endpoint to body or error. The fetches of `get_node_metrics_with_usage` and their concurrency are not part of this model.
- `f64` values are symbolic (`Metrics.F64`): the CPU cores and the two percentages record which numbers were divided and multiplied, not the rounded binary result. Division by zero is not guarded, as in the source.
- Metrics.FromNodeAndMetrics: the parse of the CPU capacity is modelled as the `f64` syntax check only, not its value.
- Metrics.WrappingMulU64: a release build wraps `memory_usage_ki * 1024` modulo 2^64, which is what is modelled. A debug build would panic instead.
- Metrics.Combine: a failure is characterised by `Metrics.FirstFailureDecides` rather than by Combine's own contract.
- PodList.AsString: labels are a sequence in the order the hash map yields them. That order is unspecified in the source and no order is claimed. The section pushes are split into helper methods.
- Namespaces.AsStringRoundTrip: holds only for names without ',' (Kubernetes names never contain one) and for a non-empty list. `[]` and `[""]` both print as "".
- Unicode lower-casing (`to_lowercase`) is modelled only as far as the header-prefix test needs it: ASCII letters and the Kelvin sign map to the letters of the prefix.
- Production mode is read from an environment variable in the source; here it is a boolean parameter of `WebSearch.PortfolioHost` and `WebSearch.AsUrl`. The `fetch` in `WebSearch::call`, the tool `definition` JSON, `Display` and `From` glue, logging, `main.rs` and `environment.rs` are not part of this model.
- LegacyServer.EnvelopeRoundTrip: the envelope is read back by the quote-only reader, not by a JSON decoder. The earlier server escapes only '"', so a text holding a backslash before a quote or a raw line break does not give valid JSON (`LegacyServer.BackslashQuoteEscape`).
- Server construction and configuration (host, key, agent fields of `Server`) are parameters of the routing functions.
