/**
 * The editor's isGraphEqual: both graphs are brought into canonical form, printed as JSON, and their
 * checksums compared.
 */
module GraphEquality {
  import opened Seqs
  import opened Json
  import opened Sorting
  import opened Checksum

  /** position and config stand for their JSON text; policies for the fields the canonical form drops. */
  datatype WorkflowNode = WorkflowNode(
    id: string,
    name: string,
    kind: Option<string>,
    nodeTypeId: Option<string>,
    category: Option<string>,
    position: string,
    config: Option<string>,
    inputHandles: Option<seq<string>>,
    outputHandles: Option<seq<string>>,
    policies: string
  )

  /** rest: the fields the canonical form drops. */
  datatype WorkflowEdge = WorkflowEdge(
    id: string,
    source: string,
    target: string,
    sourceHandle: Option<string>,
    targetHandle: Option<string>,
    caption: Option<string>,
    rest: string
  )

  datatype WorkflowGraph = WorkflowGraph(nodes: seq<WorkflowNode>, edges: seq<WorkflowEdge>)

  // ── The canonical form ───────────────────────────────────────────────────

  datatype CanonicalNode = CanonicalNode(
    id: string,
    kind: string,
    name: string,
    category: string,
    position: string,
    config: string,
    inputs: seq<string>,
    outputs: seq<string>
  )

  datatype CanonicalEdge = CanonicalEdge(
    id: string,
    source: string,
    target: string,
    sourceHandle: Option<string>,
    targetHandle: Option<string>,
    caption: Option<string>
  )

  function OrElse<T>(value: Option<T>, default: T): T {
    if value.Some? then value.value else default
  }

  function NodeForm(n: WorkflowNode): CanonicalNode {
    CanonicalNode(n.id, OrElse(n.kind, OrElse(n.nodeTypeId, "action")), n.name, OrElse(n.category, "action"),
                  n.position, OrElse(n.config, "{}"), OrElse(n.inputHandles, []), OrElse(n.outputHandles, []))
  }

  function EdgeForm(e: WorkflowEdge): CanonicalEdge {
    CanonicalEdge(e.id, e.source, e.target, e.sourceHandle, e.targetHandle, e.caption)
  }

  function NodeKey(n: CanonicalNode): string {
    n.id
  }

  function EdgeKey(e: CanonicalEdge): string {
    e.id
  }

  function CanonicalNodes(g: WorkflowGraph, leq: Leq): seq<CanonicalNode> {
    SortBy(Map(g.nodes, NodeForm), NodeKey, leq)
  }

  function CanonicalEdges(g: WorkflowGraph, leq: Leq): seq<CanonicalEdge> {
    SortBy(Map(g.edges, EdgeForm), EdgeKey, leq)
  }

  // ── JSON.stringify ───────────────────────────────────────────────────────

  function Escape(c: char): string {
    match c
    case '\"' => "\\\""
    case '\\' => "\\\\"
    case '\n' => "\\n"
    case '\r' => "\\r"
    case '\t' => "\\t"
    case _ =>
      if c as int == 8 then "\\b"
      else if c as int == 12 then "\\f"
      else if (c as int) < 32 then "\\u" + PadStart(Hex(c as int), 4)
      else [c]
  }

  function Escaped(s: string): string {
    if s == "" then "" else Escaped(s[..|s| - 1]) + Escape(s[|s| - 1])
  }

  function Quote(s: string): string {
    "\"" + Escaped(s) + "\""
  }

  function Join(parts: seq<string>): string {
    if parts == [] then ""
    else if |parts| == 1 then parts[0]
    else Join(parts[..|parts| - 1]) + "," + parts[|parts| - 1]
  }

  function StringsText(parts: seq<string>): string {
    "[" + Join(Map(parts, Quote)) + "]"
  }

  /** A member that is undefined is left out. */
  function Optional(name: string, value: Option<string>): string {
    if value.None? then "" else ",\"" + name + "\":" + Quote(value.value)
  }

  function BeforeName(n: CanonicalNode): string {
    "{\"id\":" + Quote(n.id) + ",\"type\":" + Quote(n.kind) + ",\"label\":"
  }

  function BehindName(n: CanonicalNode): string {
    ",\"category\":" + Quote(n.category) + ",\"position\":" + n.position + ",\"config\":" + n.config
    + ",\"inputs\":" + StringsText(n.inputs) + ",\"outputs\":" + StringsText(n.outputs) + "}"
  }

  function NodeText(n: CanonicalNode): string {
    BeforeName(n) + Quote(n.name) + BehindName(n)
  }

  function EdgeText(e: CanonicalEdge): string {
    "{\"id\":" + Quote(e.id) + ",\"source\":" + Quote(e.source) + ",\"target\":" + Quote(e.target)
    + Optional("sourceHandle", e.sourceHandle) + Optional("targetHandle", e.targetHandle)
    + Optional("label", e.caption) + "}"
  }

  function ContentText(nodes: seq<CanonicalNode>, edges: seq<CanonicalEdge>): string {
    "{\"nodes\":[" + Join(Map(nodes, NodeText)) + ("],\"edges\":[" + Join(Map(edges, EdgeText)) + "]}")
  }

  /** UTF-16, as charCodeAt sees it. */
  function UnitsOf(c: char): seq<CodeUnit> {
    var n := c as int;
    if n < 0x1_0000 then [n]
    else [0xD800 + ((n - 0x1_0000) / 0x400) % 0x400, 0xDC00 + (n - 0x1_0000) % 0x400]
  }

  function Units(s: string): seq<CodeUnit> {
    if s == "" then [] else Units(s[..|s| - 1]) + UnitsOf(s[|s| - 1])
  }

  function Content(g: WorkflowGraph, leq: Leq): seq<CodeUnit> {
    Units(ContentText(CanonicalNodes(g, leq), CanonicalEdges(g, leq)))
  }

  // ── isGraphEqual ─────────────────────────────────────────────────────────

  method NormalizedChecksum(g: WorkflowGraph, leq: Leq) returns (checksum: string)
    ensures checksum == Printed(ToInt32(Polynomial(Content(g, leq))), 8)
  {
    checksum := ComputeChecksum(Content(g, leq));
  }

  /** Two graphs count as equal exactly when the hashes of their texts agree up to sign. */
  method IsGraphEqual(a: WorkflowGraph, b: WorkflowGraph, leq: Leq) returns (equal: bool)
    ensures equal <==> Abs(ToInt32(Polynomial(Content(a, leq)))) == Abs(ToInt32(Polynomial(Content(b, leq))))
  {
    var left := NormalizedChecksum(a, leq);
    var right := NormalizedChecksum(b, leq);
    SameChecksumIff(Content(a, leq), Content(b, leq));
    equal := left == right;
  }

  /** What the canonical form does not carry cannot be told apart. */
  lemma DroppedFieldsAreInvisible(g: WorkflowGraph, leq: Leq, k: nat, policies: string)
    requires k < |g.nodes|
    ensures var h := g.(nodes := g.nodes[k := g.nodes[k].(policies := policies)]);
            Content(h, leq) == Content(g, leq) && (policies != g.nodes[k].policies ==> h != g)
  {
    var h := g.(nodes := g.nodes[k := g.nodes[k].(policies := policies)]);
    assert Map(h.nodes, NodeForm) == Map(g.nodes, NodeForm);
    assert h.nodes[k].policies == policies;
  }

  // ── Names that collide ───────────────────────────────────────────────────

  /** Texts that can stand for each other anywhere without changing the checksum. */
  ghost predicate Same(a: string, b: string) {
    Alike(Units(a), Units(b))
  }

  lemma {:induction false} UnitsConcat(a: string, b: string)
    ensures Units(a + b) == Units(a) + Units(b)
    decreases |b|
  {
    if b == "" {
      assert a + b == a;
    } else {
      var n := |b| - 1;
      UnitsConcat(a, b[..n]);
      assert (a + b)[..|a + b| - 1] == a + b[..n];
      Assoc(Units(a), Units(b[..n]), UnitsOf(b[n]));
    }
  }

  lemma SameConcat(a: string, b: string, c: string, d: string)
    requires Same(a, b) && Same(c, d)
    ensures Same(a + c, b + d)
  {
    UnitsConcat(a, c);
    UnitsConcat(b, d);
    AlikeConcat(Units(a), Units(b), Units(c), Units(d));
  }

  lemma SameSelf(a: string)
    ensures Same(a, a)
  {
  }

  /** A change in the middle. */
  lemma SameWithin(before: string, a: string, b: string, after: string)
    requires Same(a, b)
    ensures Same(before + a + after, before + b + after)
  {
    SameSelf(before);
    SameSelf(after);
    hide Same;
    SameConcat(before, before, a, b);
    SameConcat(before + a, before + b, after, after);
  }

  lemma {:induction false} EscapedConcat(a: string, b: string)
    ensures Escaped(a + b) == Escaped(a) + Escaped(b)
    decreases |b|
  {
    if b == "" {
      assert a + b == a;
    } else {
      var n := |b| - 1;
      EscapedConcat(a, b[..n]);
      assert (a + b)[..|a + b| - 1] == a + b[..n];
      Assoc(Escaped(a), Escaped(b[..n]), Escape(b[n]));
    }
  }

  lemma SamePair()
    ensures Escaped("Aa") == "Aa" && Escaped("BB") == "BB" && Same("Aa", "BB")
  {
    assert "Aa"[..1] == "A" && "BB"[..1] == "B" && "A"[..0] == "" && "B"[..0] == "";
    assert Units("Aa") == [65, 97] && Units("BB") == [66, 66];
    assert [] + [65, 97] + [] == [65, 97] && [] + [66, 66] + [] == [66, 66];
    ChecksumCollides([], []);
  }

  lemma QuotedPairIsSame(x: string, y: string)
    ensures Same(Quote(x + "Aa" + y), Quote(x + "BB" + y))
  {
    EscapedConcat(x, "Aa");
    EscapedConcat(x, "BB");
    EscapedConcat(x + "Aa", y);
    EscapedConcat(x + "BB", y);
    SamePair();
    hide Same;
    hide Escaped;
    SameWithin("\"" + Escaped(x), "Aa", "BB", Escaped(y) + "\"");
    assert Quote(x + "Aa" + y) == ("\"" + Escaped(x)) + "Aa" + (Escaped(y) + "\"");
    assert Quote(x + "BB" + y) == ("\"" + Escaped(x)) + "BB" + (Escaped(y) + "\"");
  }

  function Renamed(n: WorkflowNode, from: string, to: string): WorkflowNode {
    if n.name == from then n.(name := to) else n
  }

  function RenameAll(g: WorkflowGraph, from: string, to: string): WorkflowGraph {
    g.(nodes := Map(g.nodes, n => Renamed(n, from, to)))
  }

  function Relabel(from: string, to: string): CanonicalNode -> CanonicalNode {
    (n: CanonicalNode) => if n.name == from then n.(name := to) else n
  }

  lemma RenamedForms(g: WorkflowGraph, leq: Leq, from: string, to: string)
    ensures CanonicalNodes(RenameAll(g, from, to), leq) == Map(CanonicalNodes(g, leq), Relabel(from, to))
  {
    var forms := Map(g.nodes, NodeForm);
    assert Map(RenameAll(g, from, to).nodes, NodeForm) == Map(forms, Relabel(from, to));
    SortMap(forms, NodeKey, leq, Relabel(from, to));
  }

  lemma RelabelledTextIsSame(n: CanonicalNode, from: string, to: string)
    requires Same(Quote(from), Quote(to))
    ensures Same(NodeText(n), NodeText(Relabel(from, to)(n)))
  {
    var m := Relabel(from, to)(n);
    hide Quote;
    if n.name == from {
      assert BeforeName(m) == BeforeName(n) && BehindName(m) == BehindName(n);
      hide BeforeName;
      hide BehindName;
      hide Same;
      SameWithin(BeforeName(n), Quote(from), Quote(to), BehindName(n));
    } else {
      SameSelf(NodeText(n));
    }
  }

  lemma {:induction false} JoinedIsSame(a: seq<string>, b: seq<string>)
    requires |a| == |b| && forall i :: 0 <= i < |a| ==> Same(a[i], b[i])
    ensures Same(Join(a), Join(b))
  {
    if a == [] {
      SameSelf("");
    } else if |a| > 1 {
      var n := |a| - 1;
      JoinedIsSame(a[..n], b[..n]);
      SameSelf(",");
      hide Same;
      SameConcat(Join(a[..n]), Join(b[..n]), ",", ",");
      SameConcat(Join(a[..n]) + ",", Join(b[..n]) + ",", a[n], b[n]);
    }
  }

  lemma RelabelledContentIsSame(nodes: seq<CanonicalNode>, edges: seq<CanonicalEdge>, from: string, to: string)
    requires Same(Quote(from), Quote(to))
    ensures Same(ContentText(nodes, edges), ContentText(Map(nodes, Relabel(from, to)), edges))
  {
    var a, b := Map(nodes, NodeText), Map(Map(nodes, Relabel(from, to)), NodeText);
    forall i | 0 <= i < |nodes| ensures Same(a[i], b[i]) {
      RelabelledTextIsSame(nodes[i], from, to);
    }
    hide NodeText;
    hide Same;
    JoinedIsSame(a, b);
    SameWithin("{\"nodes\":[", Join(a), Join(b), "],\"edges\":[" + Join(Map(edges, EdgeText)) + "]}");
  }

  /**
   * In any graph, renaming the nodes called xAay to xBBy, for whatever x and y, gives a different graph
   * with the same checksum: isGraphEqual calls the two equal.
   */
  lemma DifferentGraphsCalledEqual(g: WorkflowGraph, leq: Leq, k: nat, x: string, y: string)
    requires k < |g.nodes| && g.nodes[k].name == x + "Aa" + y
    ensures var h := RenameAll(g, x + "Aa" + y, x + "BB" + y);
            && h != g && h.nodes[k].name == x + "BB" + y
            && Polynomial(Content(h, leq)) == Polynomial(Content(g, leq))
            && Abs(ToInt32(Polynomial(Content(h, leq)))) == Abs(ToInt32(Polynomial(Content(g, leq))))
  {
    var from, to := x + "Aa" + y, x + "BB" + y;
    assert from[|x|] != to[|x|];
    QuotedPairIsSame(x, y);
    RenamedForms(g, leq, from, to);
    hide Quote;
    hide CanonicalNodes;
    RelabelledContentIsSame(CanonicalNodes(g, leq), CanonicalEdges(g, leq), from, to);
    assert CanonicalEdges(RenameAll(g, from, to), leq) == CanonicalEdges(g, leq);
  }
}
