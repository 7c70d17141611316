/**
  The plain-text pod listing (src/kube/types/pod.rs): a count line, then one
  block per pod, numbered from 1, with the metadata fields, the optional labels,
  spec and status sections, and a blank line after every block.
 */
module PodList {
  import opened Wrappers
  import opened Text
  import opened Numbers

  /**
    A pod's labels. The source keeps them in a hash map, whose iteration order
    is unspecified; the sequence stands for whatever order it yields.
   */
  type Labels = seq<(string, string)>

  datatype PodMetadata = PodMetadata(
    name: string, namespace: string, uid: string, creationTimestamp: string, labels: Option<Labels>)

  datatype ContainerSpec = ContainerSpec(name: string)

  datatype PodCondition = PodCondition(
    typeField: string, status: string, lastProbeTime: Option<string>, lastTransitionTime: Option<string>)

  datatype PodSpecStatus = PodSpecStatus(
    phase: string, conditions: Option<seq<PodCondition>>, startTime: Option<string>)

  datatype PodSpec = PodSpec(containers: seq<ContainerSpec>, nodeName: Option<string>)

  datatype Pod = Pod(metadata: PodMetadata, spec: Option<PodSpec>, status: Option<PodSpecStatus>)

  // ---------------------------------------------------------------- the text, piece by piece

  /** The count line and the blank line after it. */
  function CountLine(n: nat): string {
    "Found " + DecimalString(n) + " pods:\n\n"
  }

  /** A two-space indented `name: value` line. */
  function Field(name: string, value: string): string {
    "  " + name + ": " + value + "\n"
  }

  /** A four-space indented `key: value` line, as labels and conditions print. */
  function Entry(key: string, value: string): string {
    "    " + key + ": " + value + "\n"
  }

  function LabelLines(labels: Labels): string {
    if labels == [] then ""
    else LabelLines(labels[..|labels| - 1]) + Entry(labels[|labels| - 1].0, labels[|labels| - 1].1)
  }

  function ContainerLine(c: ContainerSpec): string {
    "    - " + c.name + "\n"
  }

  function ContainerLines(cs: seq<ContainerSpec>): string {
    if cs == [] then ""
    else ContainerLines(cs[..|cs| - 1]) + ContainerLine(cs[|cs| - 1])
  }

  function ConditionLines(cs: seq<PodCondition>): string {
    if cs == [] then ""
    else ConditionLines(cs[..|cs| - 1]) + Entry(cs[|cs| - 1].typeField, cs[|cs| - 1].status)
  }

  /** The number line and the four metadata fields every pod prints. */
  function PodHeader(idx: nat, pod: Pod): string {
    "Pod " + DecimalString(idx + 1) + ":\n"
    + Field("Name", pod.metadata.name)
    + Field("Namespace", pod.metadata.namespace)
    + Field("UID", pod.metadata.uid)
    + Field("Created", pod.metadata.creationTimestamp)
  }

  function LabelsSection(labels: Option<Labels>): string {
    match labels
    case None => ""
    case Some(ls) => "  Labels:\n" + LabelLines(ls)
  }

  function SpecSection(spec: Option<PodSpec>): string {
    match spec
    case None => ""
    case Some(s) => Field("Node", s.nodeName.GetOr("N/A")) + "  Containers:\n" + ContainerLines(s.containers)
  }

  function StartedLine(startTime: Option<string>): string {
    match startTime
    case None => ""
    case Some(t) => Field("Started", t)
  }

  function ConditionsSection(conditions: Option<seq<PodCondition>>): string {
    match conditions
    case None => ""
    case Some(cs) => "  Conditions:\n" + ConditionLines(cs)
  }

  function StatusSection(status: Option<PodSpecStatus>): string {
    match status
    case None => ""
    case Some(st) => Field("Phase", st.phase) + StartedLine(st.startTime) + ConditionsSection(st.conditions)
  }

  /** The block of the pod at position `idx` (numbered `idx + 1`), blank line included. */
  function PodBlock(idx: nat, pod: Pod): string {
    PodHeader(idx, pod) + LabelsSection(pod.metadata.labels) + SpecSection(pod.spec)
    + StatusSection(pod.status) + "\n"
  }

  /** The blocks of all pods, each numbered by its position. */
  function Blocks(pods: seq<Pod>): string {
    if pods == [] then ""
    else Blocks(pods[..|pods| - 1]) + PodBlock(|pods| - 1, pods[|pods| - 1])
  }

  /** The whole listing. */
  function PodListText(pods: seq<Pod>): string {
    CountLine(|pods|) + Blocks(pods)
  }

  // ---------------------------------------------------------------- the method

  // The pushes of `AsString`, regrouped into the sections they make up.

  lemma PushedHeader(out: string, idx: nat, pod: Pod)
    ensures out + ("Pod " + DecimalString(idx + 1) + ":\n") + Field("Name", pod.metadata.name)
            + Field("Namespace", pod.metadata.namespace) + Field("UID", pod.metadata.uid)
            + Field("Created", pod.metadata.creationTimestamp)
            == out + PodHeader(idx, pod)
  {
    Regroup(out, "Pod " + DecimalString(idx + 1) + ":\n", Field("Name", pod.metadata.name),
            Field("Namespace", pod.metadata.namespace), Field("UID", pod.metadata.uid),
            Field("Created", pod.metadata.creationTimestamp));
  }

  lemma PushedSpec(out: string, spec: PodSpec)
    ensures out + Field("Node", spec.nodeName.GetOr("N/A")) + "  Containers:\n" + ContainerLines(spec.containers)
            == out + SpecSection(Some(spec))
  {
    Regroup3(out, Field("Node", spec.nodeName.GetOr("N/A")), "  Containers:\n", ContainerLines(spec.containers));
  }

  lemma PushedStatus(out: string, st: PodSpecStatus)
    ensures out + Field("Phase", st.phase) + StartedLine(st.startTime) + ConditionsSection(st.conditions)
            == out + StatusSection(Some(st))
  {
    Regroup3(out, Field("Phase", st.phase), StartedLine(st.startTime), ConditionsSection(st.conditions));
  }

  lemma PushedBlock(out: string, idx: nat, pod: Pod)
    ensures out + PodHeader(idx, pod) + LabelsSection(pod.metadata.labels) + SpecSection(pod.spec)
            + StatusSection(pod.status) + "\n"
            == out + PodBlock(idx, pod)
  {
    Regroup(out, PodHeader(idx, pod), LabelsSection(pod.metadata.labels), SpecSection(pod.spec),
            StatusSection(pod.status), "\n");
  }

  /** One more pod adds its block after the blocks of the pods before it. */
  lemma BlocksStep(pods: seq<Pod>, idx: nat)
    requires idx < |pods|
    ensures Blocks(pods[..idx + 1]) == Blocks(pods[..idx]) + PodBlock(idx, pods[idx])
  {
    assert pods[..idx + 1][..idx] == pods[..idx];
  }

  lemma Regroup3(a: string, b: string, c: string, d: string)
    ensures a + b + c + d == a + (b + c + d)
  {
  }

  lemma Regroup(a: string, b: string, c: string, d: string, e: string, f: string)
    ensures a + b + c + d + e + f == a + (b + c + d + e + f)
  {
  }

  /** The block of the pod at `idx` in `as_string`: its sections in order, then an empty line. */
  method PushBlock(output: string, idx: nat, pod: Pod) returns (o: string)
    ensures o == output + PodBlock(idx, pod)
  {
    o := PushHeader(output, idx, pod);
    o := PushLabels(o, pod.metadata.labels);
    o := PushSpec(o, pod.spec);
    o := PushStatus(o, pod.status);
    o := o + "\n";
    PushedBlock(output, idx, pod);
  }

  /** The opening of a pod's block in `as_string`: its number, then the four metadata lines. */
  method PushHeader(output: string, idx: nat, pod: Pod) returns (o: string)
    ensures o == output + PodHeader(idx, pod)
  {
    o := output + ("Pod " + DecimalString(idx + 1) + ":\n");
    o := o + Field("Name", pod.metadata.name);
    o := o + Field("Namespace", pod.metadata.namespace);
    o := o + Field("UID", pod.metadata.uid);
    o := o + Field("Created", pod.metadata.creationTimestamp);
    PushedHeader(output, idx, pod);
  }

  /** The labels section of `as_string`: one line per label, when there are labels. */
  method PushLabels(output: string, labels: Option<Labels>) returns (o: string)
    ensures o == output + LabelsSection(labels)
  {
    o := output;
    if labels.Some? {
      var ls := labels.value;
      o := o + "  Labels:\n";
      for j := 0 to |ls|
        invariant o == output + "  Labels:\n" + LabelLines(ls[..j])
      {
        assert ls[..j + 1][..j] == ls[..j];
        ConcatAssoc(output + "  Labels:\n", LabelLines(ls[..j]), Entry(ls[j].0, ls[j].1));
        o := o + Entry(ls[j].0, ls[j].1);
      }
      assert ls[..|ls|] == ls;
      ConcatAssoc(output, "  Labels:\n", LabelLines(ls));
    }
  }

  /** The spec section of `as_string`: the node (or "N/A") and one line per container, in order. */
  method PushSpec(output: string, spec: Option<PodSpec>) returns (o: string)
    ensures o == output + SpecSection(spec)
  {
    o := output;
    if spec.Some? {
      var sp := spec.value;
      o := o + Field("Node", sp.nodeName.GetOr("N/A"));
      o := o + "  Containers:\n";
      ghost var heading := o;
      for j := 0 to |sp.containers|
        invariant o == heading + ContainerLines(sp.containers[..j])
      {
        assert sp.containers[..j + 1][..j] == sp.containers[..j];
        ConcatAssoc(heading, ContainerLines(sp.containers[..j]), ContainerLine(sp.containers[j]));
        o := o + ContainerLine(sp.containers[j]);
      }
      assert sp.containers[..|sp.containers|] == sp.containers;
      PushedSpec(output, sp);
    }
  }

  /** The status section of `as_string`: the phase, the start time if known, and one line per condition. */
  method PushStatus(output: string, status: Option<PodSpecStatus>) returns (o: string)
    ensures o == output + StatusSection(status)
  {
    o := output;
    if status.Some? {
      var st := status.value;
      o := o + Field("Phase", st.phase);
      if st.startTime.Some? {
        o := o + Field("Started", st.startTime.value);
      }
      ghost var afterStarted := o;
      assert afterStarted == output + Field("Phase", st.phase) + StartedLine(st.startTime);
      if st.conditions.Some? {
        var conditions := st.conditions.value;
        o := o + "  Conditions:\n";
        ghost var heading := o;
        for j := 0 to |conditions|
          invariant o == heading + ConditionLines(conditions[..j])
        {
          assert conditions[..j + 1][..j] == conditions[..j];
          ConcatAssoc(heading, ConditionLines(conditions[..j]), Entry(conditions[j].typeField, conditions[j].status));
          o := o + Entry(conditions[j].typeField, conditions[j].status);
        }
        assert conditions[..|conditions|] == conditions;
        ConcatAssoc(afterStarted, "  Conditions:\n", ConditionLines(conditions));
      }
      assert o == afterStarted + ConditionsSection(st.conditions);
      PushedStatus(output, st);
    }
  }

  /**
    `as_string`: the count line, then for every pod its block pushed piece by
    piece, with inner loops over the labels, containers and conditions.
   */
  method AsString(items: seq<Pod>) returns (output: string)
    ensures output == PodListText(items)
  {
    var head := CountLine(|items|);
    output := "";
    output := output + head;
    assert output == head + Blocks(items[..0]);
    for idx := 0 to |items|
      invariant output == head + Blocks(items[..idx])
    {
      var pod := items[idx];
      output := PushBlock(output, idx, pod);
      BlocksStep(items, idx);
      ConcatAssoc(head, Blocks(items[..idx]), PodBlock(idx, pod));
    }
    assert items[..|items|] == items;
  }

  // ---------------------------------------------------------------- properties

  /** An empty list prints only the count line. */
  lemma EmptyList()
    ensures PodListText([]) == "Found 0 pods:\n\n"
  {
    assert DecimalString(0) == "0";
  }

  /** The blocks printed for a prefix of the pods are a prefix of the blocks for all of them. */
  lemma {:induction false} BlocksPrefix(pods: seq<Pod>, k: nat)
    requires k <= |pods|
    ensures Blocks(pods[..k]) <= Blocks(pods)
    decreases |pods|
  {
    if k < |pods| {
      var init := pods[..|pods| - 1];
      assert init[..k] == pods[..k];
      BlocksPrefix(init, k);
    } else {
      assert pods[..k] == pods;
    }
  }

  /**
    The pod at position `k` is printed, numbered `k + 1`, right after the count
    line and the blocks of the pods before it.
   */
  lemma PodBlockAt(pods: seq<Pod>, k: nat)
    requires k < |pods|
    ensures CountLine(|pods|) + Blocks(pods[..k]) + PodBlock(k, pods[k]) <= PodListText(pods)
  {
    var upTo := pods[..k + 1];
    assert upTo[..k] == pods[..k];
    BlocksPrefix(pods, k + 1);
    PrefixAfter(CountLine(|pods|), Blocks(pods[..k]) + PodBlock(k, pods[k]), Blocks(pods));
    ConcatAssoc(CountLine(|pods|), Blocks(pods[..k]), PodBlock(k, pods[k]));
  }

  lemma PrefixAfter(c: string, a: string, rest: string)
    requires a <= rest
    ensures c + a <= c + rest
  {
    assert (c + rest)[..|c + a|] == c + rest[..|a|];
  }

  /** Empty, or ending in a line break. */
  predicate WholeLines(s: string) {
    s == [] || s[|s| - 1] == '\n'
  }

  lemma AppendWholeLines(a: string, b: string)
    requires WholeLines(a) && WholeLines(b)
    ensures WholeLines(a + b)
  {
    if b != [] {
      assert (a + b)[|a + b| - 1] == b[|b| - 1];
    }
  }

  /** Every section of a block is made of whole lines. */
  lemma {:induction false} SectionsAreWholeLines(idx: nat, pod: Pod)
    ensures WholeLines(PodHeader(idx, pod))
    ensures WholeLines(LabelsSection(pod.metadata.labels))
    ensures WholeLines(SpecSection(pod.spec))
    ensures WholeLines(StatusSection(pod.status))
  {
    if pod.metadata.labels.Some? {
      LabelLinesWhole(pod.metadata.labels.value);
      AppendWholeLines("  Labels:\n", LabelLines(pod.metadata.labels.value));
    }
    if pod.spec.Some? {
      var sp := pod.spec.value;
      ContainerLinesWhole(sp.containers);
      AppendWholeLines(Field("Node", sp.nodeName.GetOr("N/A")) + "  Containers:\n", ContainerLines(sp.containers));
    }
    if pod.status.Some? {
      var st := pod.status.value;
      if st.conditions.Some? {
        ConditionLinesWhole(st.conditions.value);
        AppendWholeLines("  Conditions:\n", ConditionLines(st.conditions.value));
      }
      AppendWholeLines(Field("Phase", st.phase), StartedLine(st.startTime));
      AppendWholeLines(Field("Phase", st.phase) + StartedLine(st.startTime), ConditionsSection(st.conditions));
    }
  }

  lemma {:induction false} LabelLinesWhole(labels: Labels)
    ensures WholeLines(LabelLines(labels))
  {
    if labels != [] {
      var last := labels[|labels| - 1];
      LabelLinesWhole(labels[..|labels| - 1]);
      AppendWholeLines(LabelLines(labels[..|labels| - 1]), Entry(last.0, last.1));
    }
  }

  lemma {:induction false} ContainerLinesWhole(cs: seq<ContainerSpec>)
    ensures WholeLines(ContainerLines(cs))
  {
    if cs != [] {
      ContainerLinesWhole(cs[..|cs| - 1]);
      AppendWholeLines(ContainerLines(cs[..|cs| - 1]), ContainerLine(cs[|cs| - 1]));
    }
  }

  lemma {:induction false} ConditionLinesWhole(cs: seq<PodCondition>)
    ensures WholeLines(ConditionLines(cs))
  {
    if cs != [] {
      var last := cs[|cs| - 1];
      ConditionLinesWhole(cs[..|cs| - 1]);
      AppendWholeLines(ConditionLines(cs[..|cs| - 1]), Entry(last.typeField, last.status));
    }
  }

  lemma PrefixOfAppend(x: string, y: string, z: string)
    requires x <= y
    ensures x <= y + z
  {
    assert (y + z)[..|x|] == y[..|x|];
  }

  lemma BlankLineAfter(body: string)
    requires body != [] && WholeLines(body)
    ensures EndsWith(body + "\n", "\n\n")
  {
    var block := body + "\n";
    assert block[|block| - 2..] == [body[|body| - 1], '\n'];
  }

  /**
    A pod block opens with its number line and its name line, and ends with a
    line break followed by the blank line that separates it from the next block.
   */
  lemma PodBlockShape(idx: nat, pod: Pod)
    ensures "Pod " + DecimalString(idx + 1) + ":\n" + Field("Name", pod.metadata.name) <= PodBlock(idx, pod)
    ensures EndsWith(PodBlock(idx, pod), "\n\n")
  {
    var opening := "Pod " + DecimalString(idx + 1) + ":\n" + Field("Name", pod.metadata.name);
    var h1 := opening + Field("Namespace", pod.metadata.namespace);
    var h2 := h1 + Field("UID", pod.metadata.uid);
    var h := h2 + Field("Created", pod.metadata.creationTimestamp);
    var l := LabelsSection(pod.metadata.labels);
    var sp := SpecSection(pod.spec);
    var st := StatusSection(pod.status);
    assert h == PodHeader(idx, pod);
    PrefixOfAppend(opening, opening, Field("Namespace", pod.metadata.namespace));
    PrefixOfAppend(opening, h1, Field("UID", pod.metadata.uid));
    PrefixOfAppend(opening, h2, Field("Created", pod.metadata.creationTimestamp));
    PrefixOfAppend(opening, h, l);
    PrefixOfAppend(opening, h + l, sp);
    PrefixOfAppend(opening, h + l + sp, st);
    PrefixOfAppend(opening, h + l + sp + st, "\n");
    SectionsAreWholeLines(idx, pod);
    AppendWholeLines(h, l);
    AppendWholeLines(h + l, sp);
    AppendWholeLines(h + l + sp, st);
    BlankLineAfter(h + l + sp + st);
  }

  /** With a spec but no node name the Node line reads "N/A"; containers follow, one line each, in order. */
  lemma NodeNameDefault(containers: seq<ContainerSpec>)
    ensures SpecSection(Some(PodSpec(containers, None))) == "  Node: N/A\n  Containers:\n" + ContainerLines(containers)
  {
    NodeFieldDefault();
  }

  lemma NodeFieldDefault()
    ensures Field("Node", "N/A") + "  Containers:\n" == "  Node: N/A\n  Containers:\n"
  {
  }
}
