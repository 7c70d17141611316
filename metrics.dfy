/**
  Node-metrics reconciliation (src/kube/types/metrics.rs): quantity strings with
  the "Ki" and "n" suffixes are parsed, and every metrics entry is joined by
  name to a node of the inventory; one failure anywhere fails the whole call.
  Integer quantities are exact; `f64` values are kept symbolic (see `F64`).
 */
module Metrics {
  import opened Wrappers
  import opened Text
  import opened Numbers
  import opened KubeError

  /**
    An `f64` left symbolic: which text was parsed and which divisions and
    products were taken, not the binary value they round to.
   */
  datatype F64 =
    | Parsed(text: string)
    | Whole(n: nat)
    | Quotient(numerator: F64, denominator: F64)
    | Product(left: F64, right: F64)

  /** An inventory node: its name and its capacity quantities. */
  datatype Node = Node(name: string, cpuCapacity: string, memoryCapacity: string)

  /** A metrics entry: a node name and its usage quantities. */
  datatype NodeMetrics = NodeMetrics(name: string, cpuUsage: string, memoryUsage: string)

  /** One line of the combined report. `memoryBytes` is a `u64`. */
  datatype NodeMetricsInfo = NodeMetricsInfo(
    name: string, cpuCores: F64, cpuPercent: F64, memoryBytes: nat, memoryPercent: F64)

  const NANOS_PER_CORE: nat := 1_000_000_000
  const BYTES_PER_KI: nat := 1024

  /** `a * b` on `u64` as a release build computes it: modulo 2^64. */
  function WrappingMulU64(a: nat, b: nat): (r: nat)
    ensures r < U64_LIMIT
    ensures a * b < U64_LIMIT ==> r == a * b
  {
    (a * b) % U64_LIMIT
  }

  /** `s.strip_suffix(suffix)`. */
  function StripSuffix(s: string, suffix: string): (r: Option<string>)
    ensures r.Some? <==> EndsWith(s, suffix)
    ensures r.Some? ==> r.value + suffix == s
  {
    if EndsWith(s, suffix) then
      assert s[..|s| - |suffix|] + s[|s| - |suffix|..] == s;
      Some(s[..|s| - |suffix|])
    else None
  }

  /**
    `parse_memory_ki`: a `u64` followed by "Ki". Any other unit, or none, is an
    invalid format; a bad number before "Ki" is a parse failure.
   */
  function ParseMemoryKi(s: string): (r: Result<nat, string>)
    ensures r.Success? ==> EndsWith(s, "Ki") && r.value < U64_LIMIT
    ensures !EndsWith(s, "Ki") ==> r == Failure("Invalid memory format: " + s)
  {
    match StripSuffix(s, "Ki")
    case None => Failure("Invalid memory format: " + s)
    case Some(p) =>
      match ParseU64(p)
      case None => Failure("Failed to parse memory Ki: " + s)
      case Some(v) => Success(v)
  }

  /** Whatever precedes "Ki" is read as a `u64`; if it is not one, the number is the error. */
  lemma ParseMemoryKiOf(p: string)
    ensures ParseMemoryKi(p + "Ki") ==
              if ParseU64(p).Some? then Success(ParseU64(p).value)
              else Failure("Failed to parse memory Ki: " + (p + "Ki"))
  {
    StripSuffixUnique(p + "Ki", "Ki", p);
  }

  /**
    `parse_cpu_nanoseconds`: an `f64` literal followed by "n", divided by 10^9
    to give cores. Without the "n" the format is invalid.
   */
  function ParseCpuNanoseconds(s: string): (r: Result<F64, string>)
    ensures r.Success? ==> EndsWith(s, "n") && r.value.Quotient? && r.value.denominator == Whole(NANOS_PER_CORE)
    ensures !EndsWith(s, "n") ==> r == Failure("Invalid CPU format: " + s)
  {
    match StripSuffix(s, "n")
    case None => Failure("Invalid CPU format: " + s)
    case Some(p) =>
      if IsF64Literal(p) then Success(Quotient(Parsed(p), Whole(NANOS_PER_CORE)))
      else Failure("Failed to parse CPU nanoseconds: " + s)
  }

  /** Whatever precedes "n" must be an `f64` literal, and the cores are that count over 10^9. */
  lemma ParseCpuNanosecondsOf(p: string)
    ensures ParseCpuNanoseconds(p + "n") ==
              if IsF64Literal(p) then Success(Quotient(Parsed(p), Whole(NANOS_PER_CORE)))
              else Failure("Failed to parse CPU nanoseconds: " + (p + "n"))
  {
    StripSuffixUnique(p + "n", "n", p);
  }

  lemma StripSuffixUnique(s: string, suffix: string, p: string)
    requires p + suffix == s
    ensures forall q :: q + suffix == s ==> q == p
  {
    forall q | q + suffix == s ensures q == p {
      assert |q| == |p|;
      forall i | 0 <= i < |q| ensures q[i] == p[i] {
        assert q[i] == (q + suffix)[i] == (p + suffix)[i] == p[i];
      }
    }
  }

  /**
    `from_node_and_metrics`. The four quantities are parsed in a fixed order —
    CPU capacity, memory capacity, CPU usage, memory usage — and the first
    failure is the error. On success the name is the node's, the memory is the
    usage in bytes, and the percentages are usage over capacity times 100.
   */
  function FromNodeAndMetrics(node: Node, metrics: NodeMetrics): (r: Result<NodeMetricsInfo, string>)
    ensures r.Success? <==>
              && IsF64Literal(node.cpuCapacity)
              && ParseMemoryKi(node.memoryCapacity).Success?
              && ParseCpuNanoseconds(metrics.cpuUsage).Success?
              && ParseMemoryKi(metrics.memoryUsage).Success?
    ensures !IsF64Literal(node.cpuCapacity) ==> r.error == "Failed to parse CPU capacity: " + node.cpuCapacity
    ensures IsF64Literal(node.cpuCapacity) && ParseMemoryKi(node.memoryCapacity).Failure?
            ==> r.error == ParseMemoryKi(node.memoryCapacity).error
    ensures IsF64Literal(node.cpuCapacity) && ParseMemoryKi(node.memoryCapacity).Success?
            && ParseCpuNanoseconds(metrics.cpuUsage).Failure?
            ==> r.error == ParseCpuNanoseconds(metrics.cpuUsage).error
    ensures IsF64Literal(node.cpuCapacity) && ParseMemoryKi(node.memoryCapacity).Success?
            && ParseCpuNanoseconds(metrics.cpuUsage).Success? && ParseMemoryKi(metrics.memoryUsage).Failure?
            ==> r.error == ParseMemoryKi(metrics.memoryUsage).error
    ensures r.Success? ==>
              var usageKi := ParseMemoryKi(metrics.memoryUsage).value;
              var capacityKi := ParseMemoryKi(node.memoryCapacity).value;
              var cores := ParseCpuNanoseconds(metrics.cpuUsage).value;
              && r.value.name == node.name
              && r.value.cpuCores == cores
              && r.value.memoryBytes == WrappingMulU64(usageKi, BYTES_PER_KI)
              && r.value.cpuPercent == Product(Quotient(cores, Parsed(node.cpuCapacity)), Whole(100))
              && r.value.memoryPercent == Product(Quotient(Whole(usageKi), Whole(capacityKi)), Whole(100))
  {
    if !IsF64Literal(node.cpuCapacity) then Failure("Failed to parse CPU capacity: " + node.cpuCapacity)
    else
      match ParseMemoryKi(node.memoryCapacity)
      case Failure(e) => Failure(e)
      case Success(capacityKi) =>
        match ParseCpuNanoseconds(metrics.cpuUsage)
        case Failure(e) => Failure(e)
        case Success(cores) =>
          match ParseMemoryKi(metrics.memoryUsage)
          case Failure(e) => Failure(e)
          case Success(usageKi) =>
            Success(NodeMetricsInfo(
              node.name,
              cores,
              Product(Quotient(cores, Parsed(node.cpuCapacity)), Whole(100)),
              WrappingMulU64(usageKi, BYTES_PER_KI),
              Product(Quotient(Whole(usageKi), Whole(capacityKi)), Whole(100))))
  }

  // ---------------------------------------------------------------- the join

  /** `nodes.iter().find(..)` by name: the index of the first node called `name`. */
  function FindNode(nodes: seq<Node>, name: string): (r: Option<nat>)
    ensures r.Some? ==> r.value < |nodes| && nodes[r.value].name == name
    ensures r.Some? ==> forall j :: 0 <= j < r.value ==> nodes[j].name != name
    ensures r.None? ==> forall j :: 0 <= j < |nodes| ==> nodes[j].name != name
  {
    if nodes == [] then None
    else if nodes[0].name == name then Some(0)
    else
      match FindNode(nodes[1..], name)
      case None => None
      case Some(i) => Some(i + 1)
  }

  /** One turn of the join: the first node with the entry's name, then `from_node_and_metrics`. */
  function Reconcile(nodes: seq<Node>, metrics: NodeMetrics): (r: Result<NodeMetricsInfo, KubeAgentError>)
    ensures FindNode(nodes, metrics.name).None? ==>
              r == Failure(ParseError("No matching node found for metrics: " + metrics.name))
    ensures FindNode(nodes, metrics.name).Some? ==>
              var node := nodes[FindNode(nodes, metrics.name).value];
              && (r.Success? <==> FromNodeAndMetrics(node, metrics).Success?)
              && (r.Success? ==> r.value == FromNodeAndMetrics(node, metrics).value)
              && (r.Failure? ==> r.error == ParseError(FromNodeAndMetrics(node, metrics).error))
    ensures r.Success? ==> r.value.name == metrics.name
  {
    match FindNode(nodes, metrics.name)
    case None => Failure(ParseError("No matching node found for metrics: " + metrics.name))
    case Some(i) =>
      match FromNodeAndMetrics(nodes[i], metrics)
      case Failure(e) => Failure(ParseError(e))
      case Success(info) => Success(info)
  }

  /** True when the first `k` entries all reconcile. */
  predicate PrefixReconciles(nodes: seq<Node>, items: seq<NodeMetrics>, k: nat)
    requires k <= |items|
  {
    forall j :: 0 <= j < k ==> Reconcile(nodes, items[j]).Success?
  }

  /** The entries of a list reconcile exactly when those of all but its last do and its last does. */
  lemma PrefixOfInit(items: seq<NodeMetrics>, nodes: seq<Node>)
    requires items != []
    ensures PrefixReconciles(nodes, items, |items|) <==>
              PrefixReconciles(nodes, items[..|items| - 1], |items| - 1) && Reconcile(nodes, items[|items| - 1]).Success?
  {
    var init := items[..|items| - 1];
    assert forall j :: 0 <= j < |init| ==> init[j] == items[j];
  }

  /**
    `combine_with_nodes`: one report line per metrics entry, in the order of the
    metrics list, or the error of the first entry that does not reconcile.
   */
  function Combine(items: seq<NodeMetrics>, nodes: seq<Node>): (r: Result<seq<NodeMetricsInfo>, KubeAgentError>)
    ensures r.Success? <==> PrefixReconciles(nodes, items, |items|)
    ensures r.Success? ==> |r.value| == |items|
  {
    if items == [] then Success([])
    else
      var init, last := items[..|items| - 1], items[|items| - 1];
      match Combine(init, nodes)
      case Failure(e) =>
        PrefixOfInit(items, nodes);
        Failure(e)
      case Success(infos) =>
        PrefixOfInit(items, nodes);
        match Reconcile(nodes, last)
        case Failure(e) => Failure(e)
        case Success(info) => Success(infos + [info])
  }

  /** Each report line is the reconciliation of the metrics entry at the same position. */
  lemma {:induction false} CombineElements(items: seq<NodeMetrics>, nodes: seq<Node>)
    requires Combine(items, nodes).Success?
    ensures forall i :: 0 <= i < |items| ==> Combine(items, nodes).value[i] == Reconcile(nodes, items[i]).value
  {
    if items != [] {
      var init := items[..|items| - 1];
      CombineElements(init, nodes);
      forall i | 0 <= i < |items|
        ensures Combine(items, nodes).value[i] == Reconcile(nodes, items[i]).value
      {
        if i < |init| {
          assert init[i] == items[i];
        }
      }
    }
  }

  /** The loop of `combine_with_nodes`: push each reconciled entry, return at the first error. */
  method CombineWithNodes(items: seq<NodeMetrics>, nodes: seq<Node>) returns (r: Result<seq<NodeMetricsInfo>, KubeAgentError>)
    ensures r == Combine(items, nodes)
  {
    var infos: seq<NodeMetricsInfo> := [];
    var i := 0;
    while i < |items|
      invariant 0 <= i <= |items|
      invariant Combine(items[..i], nodes) == Success(infos)
    {
      var metrics := items[i];
      var found := FindNode(nodes, metrics.name);
      if found.None? {
        r := Failure(ParseError("No matching node found for metrics: " + metrics.name));
        FirstFailureDecides(items, nodes, i);
        return;
      }
      var info := FromNodeAndMetrics(nodes[found.value], metrics);
      if info.Failure? {
        r := Failure(ParseError(info.error));
        FirstFailureDecides(items, nodes, i);
        return;
      }
      assert items[..i + 1][..i] == items[..i];
      infos := infos + [info.value];
      i := i + 1;
    }
    assert items[..i] == items;
    r := Success(infos);
  }

  /** Once every entry before `i` reconciles, a failing entry `i` decides the result of the whole call. */
  lemma {:induction false} FirstFailureDecides(items: seq<NodeMetrics>, nodes: seq<Node>, i: nat)
    requires i < |items| && Combine(items[..i], nodes).Success? && Reconcile(nodes, items[i]).Failure?
    ensures Combine(items, nodes) == Failure(Reconcile(nodes, items[i]).error)
    decreases |items|
  {
    if i == |items| - 1 {
      assert items[..|items| - 1] == items[..i];
    } else {
      var init := items[..|items| - 1];
      assert init[..i] == items[..i];
      assert init[i] == items[i];
      FirstFailureDecides(init, nodes, i);
    }
  }

  // ---------------------------------------------------------------- properties

  /** A metrics entry without a node makes the whole call fail: a shortened list is never returned. */
  lemma MissingNodeFailsAll(items: seq<NodeMetrics>, nodes: seq<Node>, i: nat)
    requires i < |items| && FindNode(nodes, items[i].name).None?
    ensures Combine(items, nodes).Failure?
  {
  }

  /** The report lines carry the metrics names, in the order of the metrics list. */
  lemma CombineFollowsMetricsOrder(items: seq<NodeMetrics>, nodes: seq<Node>)
    requires Combine(items, nodes).Success?
    ensures forall i :: 0 <= i < |items| ==> Combine(items, nodes).value[i].name == items[i].name
  {
    CombineElements(items, nodes);
    forall i | 0 <= i < |items| ensures Combine(items, nodes).value[i].name == items[i].name {
      assert Reconcile(nodes, items[i]).Success?;
    }
  }

  /** A printed kibibyte count with "Ki" parses back to the count. */
  lemma ParseMemoryKiDecimal(n: nat)
    requires n < U64_LIMIT
    ensures ParseMemoryKi(DecimalString(n) + "Ki") == Success(n)
  {
    ParseU64Decimal(n);
    ParseMemoryKiOf(DecimalString(n));
  }

  /** A printed nanosecond count with "n" parses to that count over 10^9. */
  lemma ParseCpuNanosecondsDecimal(n: nat)
    ensures ParseCpuNanoseconds(DecimalString(n) + "n") == Success(Quotient(Parsed(DecimalString(n)), Whole(NANOS_PER_CORE)))
  {
    DecimalIsF64Literal(n);
    ParseCpuNanosecondsOf(DecimalString(n));
  }

  /** The byte count is exact (no wrap-around) for every usage below 2^54 KiB. */
  lemma MemoryBytesExact(usageKi: nat)
    requires usageKi < 0x40_0000_0000_0000
    ensures WrappingMulU64(usageKi, BYTES_PER_KI) == usageKi * 1024
  {
  }

  /** "1879200Ki" is 1879200 KiB, which is 1924300800 bytes. */
  lemma MemoryExample()
    ensures ParseMemoryKi("1879200Ki") == Success(1879200)
    ensures WrappingMulU64(1879200, BYTES_PER_KI) == 1924300800
  {
    ExampleDigits();
    assert "1879200" + "Ki" == "1879200Ki";
    ParseMemoryKiDecimal(1879200);
  }

  lemma ExampleDigits()
    ensures DecimalString(1879200) == "1879200"
  {
    assert DecimalString(1) == "1";
    assert DecimalString(18) == DecimalString(1) + "8";
    assert DecimalString(187) == DecimalString(18) + "7";
    assert DecimalString(1879) == DecimalString(187) + "9";
    assert DecimalString(18792) == DecimalString(1879) + "2";
    assert DecimalString(187920) == DecimalString(18792) + "0";
    assert DecimalString(1879200) == DecimalString(187920) + "0";
  }
}
