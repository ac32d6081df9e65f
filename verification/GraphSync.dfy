/**
 The push of a project's graph to Neo4j (push_graph_to_neo4j.py and `push_graph_payload_to_neo4j` in
 run_full_workflow.py): nodes and edges are merged batch by batch under a scan id, then everything of the
 project that the scan has not touched is swept away.

 The server is a map of nodes and a map of relationships; each Cypher statement of the program is a
 function on it. A node is identified by its tag, project and id, as in the `MERGE` of the program, so
 a node whose type has changed is a second node under the same id until the sweep.
 */
module GraphSync {
  import opened Common
  import opened Batching

  // ---------------------------------------------------------------- payload and store

  datatype NodeRow = NodeRow(id: string, kind: string, title: string, metadata: string)

  datatype EdgeRow = EdgeRow(from: string, to: string, kind: string, metadata: string)

  datatype Payload = Payload(project: string, scan: string, nodes: seq<NodeRow>, edges: seq<EdgeRow>)

  datatype NodeKey = NodeKey(tag: string, project: string, id: string)

  datatype Node = Node(title: string, nodeType: string, metadata: string, lastSeen: string)

  datatype EdgeKey = EdgeKey(from: NodeKey, to: NodeKey, kind: string)

  datatype Edge = Edge(project: string, metadata: string, lastSeen: string)

  datatype Graph = Graph(nodes: map<NodeKey, Node>, edges: map<EdgeKey, Edge>)

  const EMPTY := Graph(map[], map[])

  function NodeAt(g: Graph, k: NodeKey): Option<Node> {
    if k in g.nodes then Some(g.nodes[k]) else None
  }

  function EdgeAt(g: Graph, k: EdgeKey): Option<Edge> {
    if k in g.edges then Some(g.edges[k]) else None
  }

  /** What every statement keeps: relationships join stored nodes of the one project they belong to. */
  ghost predicate WellFormed(g: Graph) {
    forall k :: k in g.edges ==>
      && k.from in g.nodes && k.to in g.nodes
      && k.from.project == k.to.project == g.edges[k].project
  }

  // ---------------------------------------------------------------- labels

  predicate LabelChar(c: char) {
    'A' <= c <= 'Z' || 'a' <= c <= 'z' || '0' <= c <= '9' || c == '_'
  }

  function Cleaned(s: string): string {
    if s == "" then "" else Cleaned(s[..|s| - 1]) + [if LabelChar(s[|s| - 1]) then s[|s| - 1] else '_']
  }

  function SanitizeLabel(value: string): string {
    var cleaned := Cleaned(value);
    if cleaned == "" then "GraphNode"
    else if '0' <= cleaned[0] <= '9' then "_" + cleaned
    else cleaned
  }

  function LabelOf(n: NodeRow): string {
    SanitizeLabel(if n.kind == "" then "GraphNode" else n.kind)
  }

  function TypeOf(e: EdgeRow): string {
    SanitizeLabel(if e.kind == "" then "RELATED_TO" else e.kind)
  }

  /** Label characters by their codes. */
  lemma LabelChars(c: char)
    ensures LabelChar(c) <==>
              48 <= c as int <= 57 || 65 <= c as int <= 90 || c as int == 95 || 97 <= c as int <= 122
  {
  }

  /** A name that Cypher takes for a label as it is. */
  predicate IsLabel(s: string) {
    s != "" && !('0' <= s[0] <= '9') && forall i :: 0 <= i < |s| ==> LabelChar(s[i])
  }

  lemma {:induction false} CleanedAt(s: string)
    ensures |Cleaned(s)| == |s|
    ensures forall i :: 0 <= i < |s| ==> Cleaned(s)[i] == if LabelChar(s[i]) then s[i] else '_'
  {
    if s != "" {
      CleanedAt(s[..|s| - 1]);
    }
  }

  /**
   The result is a label; an empty text becomes "GraphNode", and any other keeps its length and its label
   characters, has `_` for the others, and another `_` in front of a leading digit.
   */
  lemma SanitizedIsLabel(v: string)
    ensures var r := SanitizeLabel(v);
            && IsLabel(r)
            && if v == "" then r == "GraphNode"
               else
                 var shift := if '0' <= v[0] <= '9' then 1 else 0;
                 && |r| == |v| + shift && (shift == 1 ==> r[0] == '_')
                 && forall i :: 0 <= i < |v| ==> r[i + shift] == if LabelChar(v[i]) then v[i] else '_'
  {
    CleanedAt(v);
    if v == "" {
      DefaultsAreLabels();
    } else {
      hide Cleaned, LabelChar;
      LabelChars(v[0]);
      LabelChars('_');
    }
  }

  lemma DefaultsAreLabels()
    ensures IsLabel("GraphNode") && IsLabel("RELATED_TO")
  {
  }

  /** And labels stay as they are. */
  lemma LabelsStay(v: string)
    requires IsLabel(v)
    ensures SanitizeLabel(v) == v
  {
    hide SanitizeLabel, LabelChar;
    SanitizedIsLabel(v);
  }

  /** Rows whose kind is a label are merged under it; rows without a kind under the names of the program. */
  lemma KindsAreLabels(n: NodeRow, e: EdgeRow)
    ensures IsLabel(n.kind) ==> LabelOf(n) == n.kind
    ensures IsLabel(e.kind) ==> TypeOf(e) == e.kind
    ensures n.kind == "" ==> LabelOf(n) == "GraphNode"
    ensures e.kind == "" ==> TypeOf(e) == "RELATED_TO"
  {
    hide SanitizeLabel, LabelChar;
    DefaultsAreLabels();
    if IsLabel(n.kind) {
      LabelsStay(n.kind);
    }
    if IsLabel(e.kind) {
      LabelsStay(e.kind);
    }
    hide IsLabel;
    LabelsStay("GraphNode");
    LabelsStay("RELATED_TO");
  }

  // ---------------------------------------------------------------- statements

  datatype Statement =
    | MergeNodes(project: string, scan: string, tag: string, nodeRows: seq<NodeRow>)
    | MergeEdges(project: string, scan: string, kind: string, edgeRows: seq<EdgeRow>)
    | SweepEdges(project: string, scan: string)
    | SweepNodes(project: string, scan: string)
    | Clear

  function StoredNode(row: NodeRow, scan: string): Node {
    Node(row.title, row.kind, row.metadata, scan)
  }

  function MergeNodeRows(g: Graph, tag: string, rows: seq<NodeRow>, project: string, scan: string): Graph {
    if rows == [] then g
    else
      var before := MergeNodeRows(g, tag, rows[..|rows| - 1], project, scan);
      var row := rows[|rows| - 1];
      before.(nodes := before.nodes[NodeKey(tag, project, row.id) := StoredNode(row, scan)])
  }

  /** The relationships a row merges: both ends match by project and id, under any label. */
  predicate Joins(g: Graph, kind: string, row: EdgeRow, project: string, k: EdgeKey) {
    && k.kind == kind
    && k.from in g.nodes && k.from.project == project && k.from.id == row.from
    && k.to in g.nodes && k.to.project == project && k.to.id == row.to
  }

  function MergeEdgeRow(g: Graph, kind: string, row: EdgeRow, project: string, scan: string): Graph {
    var merged := set f, t | f in g.nodes && t in g.nodes && Joins(g, kind, row, project, EdgeKey(f, t, kind))
                        :: EdgeKey(f, t, kind);
    g.(edges := g.edges + map k | k in merged :: Edge(project, row.metadata, scan))
  }

  function MergeEdgeRows(g: Graph, kind: string, rows: seq<EdgeRow>, project: string, scan: string): Graph {
    if rows == [] then g
    else MergeEdgeRow(MergeEdgeRows(g, kind, rows[..|rows| - 1], project, scan), kind, rows[|rows| - 1], project, scan)
  }

  predicate StaleNode(g: Graph, k: NodeKey, project: string, scan: string)
    requires k in g.nodes
  {
    k.project == project && g.nodes[k].lastSeen != scan
  }

  predicate StaleEdge(g: Graph, k: EdgeKey, project: string, scan: string)
    requires k in g.edges
  {
    g.edges[k].project == project && g.edges[k].lastSeen != scan
  }

  /** `DETACH DELETE`: a deleted node takes its relationships along. */
  function WithoutStaleNodes(g: Graph, project: string, scan: string): Graph {
    var nodes := map k | k in g.nodes && !StaleNode(g, k, project, scan) :: g.nodes[k];
    Graph(nodes, map k | k in g.edges && (k.from in g.nodes ==> k.from in nodes)
          && (k.to in g.nodes ==> k.to in nodes) :: g.edges[k])
  }

  function Exec(g: Graph, s: Statement): Graph {
    match s
    case MergeNodes(p, scan, tag, rows) => MergeNodeRows(g, tag, rows, p, scan)
    case MergeEdges(p, scan, kind, rows) => MergeEdgeRows(g, kind, rows, p, scan)
    case SweepEdges(p, scan) => g.(edges := map k | k in g.edges && !StaleEdge(g, k, p, scan) :: g.edges[k])
    case SweepNodes(p, scan) => WithoutStaleNodes(g, p, scan)
    case Clear => EMPTY
  }

  function Run(g: Graph, ss: seq<Statement>): Graph {
    if ss == [] then g else Exec(Run(g, ss[..|ss| - 1]), ss[|ss| - 1])
  }

  // ---------------------------------------------------------------- the script of a push

  function NodeBatches(tag: string, cs: seq<seq<NodeRow>>, project: string, scan: string): seq<Statement> {
    if cs == [] then [] else [MergeNodes(project, scan, tag, cs[0])] + NodeBatches(tag, cs[1..], project, scan)
  }

  function NodeGroups(tags: seq<string>, nodes: seq<NodeRow>, size: nat, project: string, scan: string): seq<Statement>
    requires size > 0
  {
    if tags == [] then []
    else
      var tag := tags[|tags| - 1];
      NodeGroups(tags[..|tags| - 1], nodes, size, project, scan)
      + NodeBatches(tag, Chunks(Members(nodes, LabelOf, tag), size), project, scan)
  }

  function EdgeBatches(kind: string, cs: seq<seq<EdgeRow>>, project: string, scan: string): seq<Statement> {
    if cs == [] then [] else [MergeEdges(project, scan, kind, cs[0])] + EdgeBatches(kind, cs[1..], project, scan)
  }

  function EdgeGroups(kinds: seq<string>, edges: seq<EdgeRow>, size: nat, project: string, scan: string): seq<Statement>
    requires size > 0
  {
    if kinds == [] then []
    else
      var kind := kinds[|kinds| - 1];
      EdgeGroups(kinds[..|kinds| - 1], edges, size, project, scan)
      + EdgeBatches(kind, Chunks(Members(edges, TypeOf, kind), size), project, scan)
  }

  /** The merges of a push: none at all when the batch size is negative. */
  function Merges(w: Payload, size: int): seq<Statement> {
    if size <= 0 then []
    else
      NodeGroups(FirstSeen(w.nodes, LabelOf), w.nodes, size, w.project, w.scan)
      + EdgeGroups(FirstSeen(w.edges, TypeOf), w.edges, size, w.project, w.scan)
  }

  function Sweeps(project: string, scan: string): seq<Statement> {
    [SweepEdges(project, scan), SweepNodes(project, scan)]
  }

  // ---------------------------------------------------------------- what the payload asks for

  function LastNode(nodes: seq<NodeRow>, tag: string, id: string): Option<NodeRow> {
    if nodes == [] then None
    else if LabelOf(nodes[|nodes| - 1]) == tag && nodes[|nodes| - 1].id == id then Some(nodes[|nodes| - 1])
    else LastNode(nodes[..|nodes| - 1], tag, id)
  }

  function LastEdge(edges: seq<EdgeRow>, kind: string, from: string, to: string): Option<EdgeRow> {
    if edges == [] then None
    else
      var e := edges[|edges| - 1];
      if TypeOf(e) == kind && e.from == from && e.to == to then Some(e)
      else LastEdge(edges[..|edges| - 1], kind, from, to)
  }

  function WantedNode(w: Payload, k: NodeKey): Option<Node> {
    if k.project != w.project then None
    else
      match LastNode(w.nodes, k.tag, k.id)
      case None => None
      case Some(row) => Some(StoredNode(row, w.scan))
  }

  function WantedEdge(w: Payload, k: EdgeKey): Option<Edge> {
    if WantedNode(w, k.from).None? || WantedNode(w, k.to).None? then None
    else
      match LastEdge(w.edges, k.kind, k.from.id, k.to.id)
      case None => None
      case Some(row) => Some(Edge(w.project, row.metadata, w.scan))
  }

  /** The project's part of the store is the payload: its nodes, and its edges between its nodes. */
  ghost predicate Mirrors(g: Graph, w: Payload) {
    && (forall k: NodeKey :: k.project == w.project ==> NodeAt(g, k) == WantedNode(w, k))
    && (forall k: EdgeKey :: k.from.project == w.project ==> EdgeAt(g, k) == WantedEdge(w, k))
  }

  /** A relationship of the project that carries the scan's id, between nodes the scan pushes. */
  predicate LeftEdge(g: Graph, w: Payload, k: EdgeKey)
    requires k in g.edges
  {
    && g.edges[k].project == w.project && g.edges[k].lastSeen == w.scan
    && WantedNode(w, k.from).Some? && WantedNode(w, k.to).Some?
  }

  /** Nothing of the project carries the scan's id already, except what the scan pushes again. */
  ghost predicate NoLeftovers(g: Graph, w: Payload) {
    && (forall k :: k in g.nodes && k.project == w.project && g.nodes[k].lastSeen == w.scan ==> WantedNode(w, k).Some?)
    && (forall k :: k in g.edges && LeftEdge(g, w, k) ==> WantedEdge(w, k).Some?)
  }

  // ---------------------------------------------------------------- runs

  lemma {:induction false} RunAppend(g: Graph, a: seq<Statement>, b: seq<Statement>)
    ensures Run(g, a + b) == Run(Run(g, a), b)
  {
    if b == [] {
      assert a + b == a;
    } else {
      assert (a + b)[..|a + b| - 1] == a + b[..|b| - 1];
      RunAppend(g, a, b[..|b| - 1]);
    }
  }

  lemma RunNext(g: Graph, ss: seq<Statement>, s: Statement)
    ensures Run(g, ss + [s]) == Exec(Run(g, ss), s)
    ensures Run(g, [s]) == Exec(g, s)
  {
    assert (ss + [s])[..|ss|] == ss;
    assert [s][..0] == [];
  }

  lemma {:induction false} MergeNodeRowsAppend(g: Graph, tag: string, a: seq<NodeRow>, b: seq<NodeRow>, p: string,
                                               scan: string)
    ensures MergeNodeRows(g, tag, a + b, p, scan) == MergeNodeRows(MergeNodeRows(g, tag, a, p, scan), tag, b, p, scan)
  {
    if b == [] {
      assert a + b == a;
    } else {
      assert (a + b)[..|a + b| - 1] == a + b[..|b| - 1];
      MergeNodeRowsAppend(g, tag, a, b[..|b| - 1], p, scan);
    }
  }

  lemma {:induction false} MergeEdgeRowsAppend(g: Graph, kind: string, a: seq<EdgeRow>, b: seq<EdgeRow>, p: string,
                                               scan: string)
    ensures MergeEdgeRows(g, kind, a + b, p, scan)
        == MergeEdgeRows(MergeEdgeRows(g, kind, a, p, scan), kind, b, p, scan)
  {
    hide MergeEdgeRow;
    if b == [] {
      assert a + b == a;
    } else {
      assert (a + b)[..|a + b| - 1] == a + b[..|b| - 1];
      MergeEdgeRowsAppend(g, kind, a, b[..|b| - 1], p, scan);
    }
  }

  /** Batches of one label act like one merge of all their rows. */
  lemma {:induction false} RunNodeBatches(g: Graph, tag: string, cs: seq<seq<NodeRow>>, p: string, scan: string)
    ensures Run(g, NodeBatches(tag, cs, p, scan)) == MergeNodeRows(g, tag, Concat(cs), p, scan)
    decreases |cs|
  {
    if cs != [] {
      var first := [MergeNodes(p, scan, tag, cs[0])];
      RunAppend(g, first, NodeBatches(tag, cs[1..], p, scan));
      assert Run(g, first) == MergeNodeRows(g, tag, cs[0], p, scan) by {
        assert first[..0] == [];
      }
      RunNodeBatches(Run(g, first), tag, cs[1..], p, scan);
      MergeNodeRowsAppend(g, tag, cs[0], Concat(cs[1..]), p, scan);
    }
  }

  lemma {:induction false} RunEdgeBatches(g: Graph, kind: string, cs: seq<seq<EdgeRow>>, p: string, scan: string)
    ensures Run(g, EdgeBatches(kind, cs, p, scan)) == MergeEdgeRows(g, kind, Concat(cs), p, scan)
    decreases |cs|
  {
    hide MergeEdgeRow;
    if cs != [] {
      var first := [MergeEdges(p, scan, kind, cs[0])];
      RunAppend(g, first, EdgeBatches(kind, cs[1..], p, scan));
      assert Run(g, first) == MergeEdgeRows(g, kind, cs[0], p, scan) by {
        assert first[..0] == [];
      }
      RunEdgeBatches(Run(g, first), kind, cs[1..], p, scan);
      MergeEdgeRowsAppend(g, kind, cs[0], Concat(cs[1..]), p, scan);
    }
  }

  // ---------------------------------------------------------------- one label, then all labels

  function LastRow(rows: seq<NodeRow>, id: string): Option<NodeRow> {
    if rows == [] then None
    else if rows[|rows| - 1].id == id then Some(rows[|rows| - 1])
    else LastRow(rows[..|rows| - 1], id)
  }

  lemma {:induction false} LastOfMembers(nodes: seq<NodeRow>, tag: string, id: string)
    ensures LastRow(Members(nodes, LabelOf, tag), id) == LastNode(nodes, tag, id)
  {
    if nodes != [] {
      var n := |nodes| - 1;
      var before := Members(nodes[..n], LabelOf, tag);
      LastOfMembers(nodes[..n], tag, id);
      assert (before + [nodes[n]])[..|before|] == before && before + [] == before;
    }
  }

  lemma {:induction false} MergedNodeAt(g: Graph, tag: string, rows: seq<NodeRow>, p: string, scan: string, k: NodeKey)
    ensures NodeAt(MergeNodeRows(g, tag, rows, p, scan), k)
         == if k.tag == tag && k.project == p
             && LastRow(rows, k.id).Some? then Some(StoredNode(LastRow(rows, k.id).value, scan))
            else NodeAt(g, k)
    ensures MergeNodeRows(g, tag, rows, p, scan).edges == g.edges
  {
    if rows != [] {
      MergedNodeAt(g, tag, rows[..|rows| - 1], p, scan, k);
    }
  }

  /** The batches of one label. */
  lemma NodeGroupAt(g: Graph, tag: string, nodes: seq<NodeRow>, size: nat, p: string, scan: string, k: NodeKey)
    requires size > 0
    ensures var after := Run(g, NodeBatches(tag, Chunks(Members(nodes, LabelOf, tag), size), p, scan));
            && NodeAt(after, k) == (if k.tag == tag && k.project == p && LastNode(nodes, tag, k.id).Some?
                                    then Some(StoredNode(LastNode(nodes, tag, k.id).value, scan)) else NodeAt(g, k))
            && after.edges == g.edges
  {
    var rows := Members(nodes, LabelOf, tag);
    RunNodeBatches(g, tag, Chunks(rows, size), p, scan);
    ConcatChunks(rows, size);
    MergedNodeAt(g, tag, rows, p, scan, k);
    LastOfMembers(nodes, tag, k.id);
  }

  lemma {:induction false} NodeGroupsAt(g: Graph, tags: seq<string>, nodes: seq<NodeRow>, size: nat, p: string,
                                        scan: string, k: NodeKey)
    requires size > 0 && Distinct(tags)
    ensures var after := Run(g, NodeGroups(tags, nodes, size, p, scan));
            && NodeAt(after, k) == (if k.tag in tags && k.project == p && LastNode(nodes, k.tag, k.id).Some?
                                    then Some(StoredNode(LastNode(nodes, k.tag, k.id).value, scan)) else NodeAt(g, k))
            && after.edges == g.edges
  {
    if tags != [] {
      var n := |tags| - 1;
      var rest := NodeGroups(tags[..n], nodes, size, p, scan);
      NodeGroupsAt(g, tags[..n], nodes, size, p, scan, k);
      RunAppend(g, rest, NodeBatches(tags[n], Chunks(Members(nodes, LabelOf, tags[n]), size), p, scan));
      NodeGroupAt(Run(g, rest), tags[n], nodes, size, p, scan, k);
      assert k.tag in tags <==> k.tag in tags[..n] || k.tag == tags[n];
      hide Run, NodeAt, LastNode, NodeBatches, Chunks, Members;
    }
  }

  lemma {:induction false} LastNodeLabel(nodes: seq<NodeRow>, tag: string, id: string)
    requires LastNode(nodes, tag, id).Some?
    ensures tag in FirstSeen(nodes, LabelOf)
  {
    if !(LabelOf(nodes[|nodes| - 1]) == tag && nodes[|nodes| - 1].id == id) {
      LastNodeLabel(nodes[..|nodes| - 1], tag, id);
    }
  }

  /** The node merges of a push overwrite exactly the payload's nodes, whatever the batch size. */
  lemma NodesPushed(g: Graph, w: Payload, size: nat, k: NodeKey)
    requires size > 0
    ensures var after := Run(g, NodeGroups(FirstSeen(w.nodes, LabelOf), w.nodes, size, w.project, w.scan));
            && NodeAt(after, k) == (if WantedNode(w, k).Some? then WantedNode(w, k) else NodeAt(g, k))
            && after.edges == g.edges
  {
    FirstSeenIsDistinct(w.nodes, LabelOf);
    NodeGroupsAt(g, FirstSeen(w.nodes, LabelOf), w.nodes, size, w.project, w.scan, k);
    if LastNode(w.nodes, k.tag, k.id).Some? {
      LastNodeLabel(w.nodes, k.tag, k.id);
    }
  }

  // ---------------------------------------------------------------- relationships

  function LastLink(rows: seq<EdgeRow>, from: string, to: string): Option<EdgeRow> {
    if rows == [] then None
    else if rows[|rows| - 1].from == from && rows[|rows| - 1].to == to then Some(rows[|rows| - 1])
    else LastLink(rows[..|rows| - 1], from, to)
  }

  lemma {:induction false} LastOfKind(edges: seq<EdgeRow>, kind: string, from: string, to: string)
    ensures LastLink(Members(edges, TypeOf, kind), from, to) == LastEdge(edges, kind, from, to)
  {
    if edges != [] {
      var n := |edges| - 1;
      var before := Members(edges[..n], TypeOf, kind);
      LastOfKind(edges[..n], kind, from, to);
      assert (before + [edges[n]])[..|before|] == before && before + [] == before;
    }
  }

  /** Both ends are stored nodes of the project. */
  predicate EndsStored(g: Graph, p: string, k: EdgeKey) {
    k.from in g.nodes && k.to in g.nodes && k.from.project == p == k.to.project
  }

  lemma MergedRowAt(g: Graph, kind: string, row: EdgeRow, p: string, scan: string, k: EdgeKey)
    ensures var after := MergeEdgeRow(g, kind, row, p, scan);
            && EdgeAt(after, k) == (if Joins(g, kind, row, p, k)
                                    then Some(Edge(p, row.metadata, scan)) else EdgeAt(g, k))
            && after.nodes == g.nodes
  {
    assert k == EdgeKey(k.from, k.to, k.kind);
  }

  lemma {:induction false} MergedEdgeAt(g: Graph, kind: string, rows: seq<EdgeRow>, p: string, scan: string, k: EdgeKey)
    ensures var after := MergeEdgeRows(g, kind, rows, p, scan);
            && EdgeAt(after, k) == (if k.kind == kind && EndsStored(g, p, k) && LastLink(rows, k.from.id, k.to.id).Some?
                                    then Some(Edge(p, LastLink(rows, k.from.id, k.to.id).value.metadata, scan))
                                        else EdgeAt(g, k))
            && after.nodes == g.nodes
  {
    if rows != [] {
      var n := |rows| - 1;
      MergedEdgeAt(g, kind, rows[..n], p, scan, k);
      MergedRowAt(MergeEdgeRows(g, kind, rows[..n], p, scan), kind, rows[n], p, scan, k);
      hide MergeEdgeRow;
    }
  }

  lemma EdgeGroupAt(g: Graph, kind: string, edges: seq<EdgeRow>, size: nat, p: string, scan: string, k: EdgeKey)
    requires size > 0
    ensures var after := Run(g, EdgeBatches(kind, Chunks(Members(edges, TypeOf, kind), size), p, scan));
            && EdgeAt(after, k) == (if k.kind == kind && EndsStored(g, p, k)
                                    && LastEdge(edges, kind, k.from.id, k.to.id).Some?
                                    then Some(Edge(p, LastEdge(edges, kind, k.from.id, k.to.id).value.metadata, scan))
                                        else EdgeAt(g, k))
            && after.nodes == g.nodes
  {
    var rows := Members(edges, TypeOf, kind);
    RunEdgeBatches(g, kind, Chunks(rows, size), p, scan);
    ConcatChunks(rows, size);
    MergedEdgeAt(g, kind, rows, p, scan, k);
    LastOfKind(edges, kind, k.from.id, k.to.id);
  }

  lemma {:induction false} EdgeGroupsAt(g: Graph, kinds: seq<string>, edges: seq<EdgeRow>, size: nat, p: string,
                                        scan: string, k: EdgeKey)
    requires size > 0 && Distinct(kinds)
    ensures var after := Run(g, EdgeGroups(kinds, edges, size, p, scan));
            && EdgeAt(after, k) == (if k.kind in kinds && EndsStored(g, p, k)
                                    && LastEdge(edges, k.kind, k.from.id, k.to.id).Some?
                                    then Some(Edge(p, LastEdge(edges, k.kind, k.from.id, k.to.id).value.metadata, scan))
                                        else EdgeAt(g, k))
            && after.nodes == g.nodes
  {
    if kinds != [] {
      var n := |kinds| - 1;
      var rest := EdgeGroups(kinds[..n], edges, size, p, scan);
      EdgeGroupsAt(g, kinds[..n], edges, size, p, scan, k);
      RunAppend(g, rest, EdgeBatches(kinds[n], Chunks(Members(edges, TypeOf, kinds[n]), size), p, scan));
      EdgeGroupAt(Run(g, rest), kinds[n], edges, size, p, scan, k);
      assert k.kind in kinds <==> k.kind in kinds[..n] || k.kind == kinds[n];
      hide Run, EdgeAt, LastEdge, EdgeBatches, Chunks, Members;
    }
  }

  lemma {:induction false} LastEdgeKind(edges: seq<EdgeRow>, kind: string, from: string, to: string)
    requires LastEdge(edges, kind, from, to).Some?
    ensures kind in FirstSeen(edges, TypeOf)
  {
    var e := edges[|edges| - 1];
    if !(TypeOf(e) == kind && e.from == from && e.to == to) {
      LastEdgeKind(edges[..|edges| - 1], kind, from, to);
    }
  }

  /** The store after the merges: the payload over what was there, and edges to whatever bears the ids. */
  lemma MergesMean(g: Graph, w: Payload, size: nat, n: NodeKey, k: EdgeKey)
    requires size > 0
    ensures var after := Run(g, Merges(w, size));
            && NodeAt(after, n) == (if WantedNode(w, n).Some? then WantedNode(w, n) else NodeAt(g, n))
            && EdgeAt(after, k) == (if EndsStored(after, w.project, k)
                                    && LastEdge(w.edges, k.kind, k.from.id, k.to.id).Some?
                                    then Some(Edge(w.project,
                                                   LastEdge(w.edges, k.kind, k.from.id, k.to.id).value.metadata,
                                                   w.scan))
                                    else EdgeAt(g, k))
  {
    var first := NodeGroups(FirstSeen(w.nodes, LabelOf), w.nodes, size, w.project, w.scan);
    var second := EdgeGroups(FirstSeen(w.edges, TypeOf), w.edges, size, w.project, w.scan);
    RunAppend(g, first, second);
    NodesPushed(g, w, size, n);
    FirstSeenIsDistinct(w.edges, TypeOf);
    EdgeGroupsAt(Run(g, first), FirstSeen(w.edges, TypeOf), w.edges, size, w.project, w.scan, k);
    if LastEdge(w.edges, k.kind, k.from.id, k.to.id).Some? {
      LastEdgeKind(w.edges, k.kind, k.from.id, k.to.id);
    }
  }

  // ---------------------------------------------------------------- well-formedness

  lemma {:induction false} MergeNodesKeeps(g: Graph, tag: string, rows: seq<NodeRow>, p: string, scan: string)
    requires WellFormed(g)
    ensures WellFormed(MergeNodeRows(g, tag, rows, p, scan))
  {
    if rows != [] {
      MergeNodesKeeps(g, tag, rows[..|rows| - 1], p, scan);
    }
  }

  lemma {:induction false} MergeEdgesKeeps(g: Graph, kind: string, rows: seq<EdgeRow>, p: string, scan: string)
    requires WellFormed(g)
    ensures WellFormed(MergeEdgeRows(g, kind, rows, p, scan))
  {
    if rows != [] {
      MergeEdgesKeeps(g, kind, rows[..|rows| - 1], p, scan);
    }
  }

  /** Every statement keeps the store well-formed, so a push that breaks off halfway leaves it so. */
  lemma {:induction false} RunKeepsWellFormed(g: Graph, ss: seq<Statement>)
    requires WellFormed(g)
    ensures WellFormed(Run(g, ss))
  {
    if ss != [] {
      var before := Run(g, ss[..|ss| - 1]);
      RunKeepsWellFormed(g, ss[..|ss| - 1]);
      match ss[|ss| - 1]
      case MergeNodes(p, scan, tag, rows) => MergeNodesKeeps(before, tag, rows, p, scan);
      case MergeEdges(p, scan, kind, rows) => MergeEdgesKeeps(before, kind, rows, p, scan);
      case _ =>
    }
  }

  // ---------------------------------------------------------------- the sweep

  predicate NodeSwept(g: Graph, k: NodeKey, p: string, scan: string) {
    k in g.nodes && StaleNode(g, k, p, scan)
  }

  lemma SweepsAfter(g: Graph, p: string, scan: string)
    ensures Run(g, Sweeps(p, scan)) == Exec(Exec(g, SweepEdges(p, scan)), SweepNodes(p, scan))
  {
    RunNext(g, [], SweepEdges(p, scan));
    RunNext(g, [SweepEdges(p, scan)], SweepNodes(p, scan));
    assert Sweeps(p, scan) == [SweepEdges(p, scan)] + [SweepNodes(p, scan)];
  }

  lemma SweptAt(g: Graph, p: string, scan: string, n: NodeKey, k: EdgeKey)
    requires WellFormed(g)
    ensures var after := Run(g, Sweeps(p, scan));
            && NodeAt(after, n) == (if NodeSwept(g, n, p, scan) then None else NodeAt(g, n))
            && EdgeAt(after, k) == (if k in g.edges && !StaleEdge(g, k, p, scan) && !NodeSwept(g, k.from, p, scan)
                                    && !NodeSwept(g, k.to, p, scan)
                                    then EdgeAt(g, k) else None)
  {
    SweepsAfter(g, p, scan);
  }

  /** What a push without `recreate` and with `delete_missing` does to one node and one relationship. */
  lemma PushedAndSwept(g: Graph, w: Payload, size: nat, n: NodeKey, k: EdgeKey)
    requires size > 0 && WellFormed(g) && n.project == w.project && k.from.project == w.project
    ensures var after := Run(g, Merges(w, size) + Sweeps(w.project, w.scan));
            && NodeAt(after, n) == (if WantedNode(w, n).Some? then WantedNode(w, n)
                                    else if n in g.nodes && g.nodes[n].lastSeen == w.scan then NodeAt(g, n) else None)
            && ((WantedNode(w, k.from).Some? && WantedNode(w, k.to).Some?) ==>
                  EdgeAt(after, k) == if WantedEdge(w, k).Some? then WantedEdge(w, k)
                                      else if k in g.edges && g.edges[k].lastSeen == w.scan then EdgeAt(g, k) else None)
            && WellFormed(after)
  {
    hide Merges, Sweeps, Run, MergeNodeRows, WantedNode, WantedEdge, NodeAt, EdgeAt;
    var merged := Run(g, Merges(w, size));
    RunAppend(g, Merges(w, size), Sweeps(w.project, w.scan));
    RunKeepsWellFormed(g, Merges(w, size));
    RunKeepsWellFormed(merged, Sweeps(w.project, w.scan));
    NodePushedAndSwept(g, w, size, n, k);
    if WantedNode(w, k.from).Some? && WantedNode(w, k.to).Some? {
      EdgePushedAndSwept(g, w, size, k);
    }
  }

  lemma NodePushedAndSwept(g: Graph, w: Payload, size: nat, n: NodeKey, k: EdgeKey)
    requires size > 0 && n.project == w.project && WellFormed(Run(g, Merges(w, size)))
    ensures NodeAt(Run(Run(g, Merges(w, size)), Sweeps(w.project, w.scan)), n)
         == if WantedNode(w, n).Some? then WantedNode(w, n)
            else if n in g.nodes && g.nodes[n].lastSeen == w.scan then NodeAt(g, n) else None
  {
    hide Merges, Sweeps, Run, WellFormed;
    MergesMean(g, w, size, n, k);
    SweptAt(Run(g, Merges(w, size)), w.project, w.scan, n, k);
  }

  lemma EdgePushedAndSwept(g: Graph, w: Payload, size: nat, k: EdgeKey)
    requires size > 0 && k.from.project == w.project && WellFormed(g) && WellFormed(Run(g, Merges(w, size)))
    requires WantedNode(w, k.from).Some? && WantedNode(w, k.to).Some?
    ensures EdgeAt(Run(Run(g, Merges(w, size)), Sweeps(w.project, w.scan)), k)
         == if WantedEdge(w, k).Some? then WantedEdge(w, k)
            else if k in g.edges && g.edges[k].lastSeen == w.scan then EdgeAt(g, k) else None
  {
    hide Merges, Sweeps, Run;
    MergesMean(g, w, size, k.from, k);
    MergesMean(g, w, size, k.to, k);
    SweptAt(Run(g, Merges(w, size)), w.project, w.scan, k.from, k);
  }

  /**
   The push mirrors the payload exactly when nothing left over carries the scan's id already. This holds
   for every batch size, when nodes have changed label, when an earlier push broke off, and it holds
   outright when the scan id is new; scan ids have a resolution of one second, so that two pushes within
   a second share one.
   */
  lemma MirrorsIffNoLeftovers(g: Graph, w: Payload, size: nat)
    requires size > 0 && WellFormed(g)
    ensures Mirrors(Run(g, Merges(w, size) + Sweeps(w.project, w.scan)), w) <==> NoLeftovers(g, w)
  {
    if NoLeftovers(g, w) {
      NoLeftoversSuffice(g, w, size);
    }
    if Mirrors(Run(g, Merges(w, size) + Sweeps(w.project, w.scan)), w) {
      MirrorsHasNoLeftovers(g, w, size);
    }
  }

  lemma NoLeftoversSuffice(g: Graph, w: Payload, size: nat)
    requires size > 0 && WellFormed(g) && NoLeftovers(g, w)
    ensures Mirrors(Run(g, Merges(w, size) + Sweeps(w.project, w.scan)), w)
  {
    var after := Run(g, Merges(w, size) + Sweeps(w.project, w.scan));
    forall k: NodeKey | k.project == w.project
      ensures NodeAt(after, k) == WantedNode(w, k)
    {
      PushedAndSwept(g, w, size, k, EdgeKey(k, k, ""));
    }
    forall k: EdgeKey | k.from.project == w.project
      ensures EdgeAt(after, k) == WantedEdge(w, k)
    {
      PushedAndSwept(g, w, size, k.from, k);
      assert NodeAt(after, k.from) == WantedNode(w, k.from);
      if k.to.project == w.project {
        assert NodeAt(after, k.to) == WantedNode(w, k.to);
      }
    }
  }

  lemma MirrorsHasNoLeftovers(g: Graph, w: Payload, size: nat)
    requires size > 0 && WellFormed(g) && Mirrors(Run(g, Merges(w, size) + Sweeps(w.project, w.scan)), w)
    ensures NoLeftovers(g, w)
  {
    forall k | k in g.nodes && k.project == w.project && g.nodes[k].lastSeen == w.scan
      ensures WantedNode(w, k).Some?
    {
      PushedAndSwept(g, w, size, k, EdgeKey(k, k, ""));
    }
    forall k | k in g.edges && LeftEdge(g, w, k)
      ensures WantedEdge(w, k).Some?
    {
      PushedAndSwept(g, w, size, k.from, k);
    }
  }

  /** Nothing of the project has been seen by the scan. */
  ghost predicate NewScan(g: Graph, project: string, scan: string) {
    && (forall k :: k in g.nodes && k.project == project ==> g.nodes[k].lastSeen != scan)
    && (forall k :: k in g.edges && g.edges[k].project == project ==> g.edges[k].lastSeen != scan)
  }

  lemma NewScanMirrors(history: seq<Statement>, w: Payload, size: nat)
    requires size > 0 && NewScan(Run(EMPTY, history), w.project, w.scan)
    ensures Mirrors(Run(EMPTY, history + Merges(w, size) + Sweeps(w.project, w.scan)), w)
  {
    var g := Run(EMPTY, history);
    RunKeepsWellFormed(EMPTY, history);
    MirrorsIffNoLeftovers(g, w, size);
    RunAppend(EMPTY, history, Merges(w, size) + Sweeps(w.project, w.scan));
    assert history + Merges(w, size) + Sweeps(w.project, w.scan)
        == history + (Merges(w, size) + Sweeps(w.project, w.scan));
  }

  /** Two pushes under one scan id: a node that the second one no longer has stays. */
  lemma SecondPushWithinASecond(g: Graph, project: string, scan: string, row: NodeRow, size: nat)
    requires size > 0 && WellFormed(g)
    ensures var w1, w2 := Payload(project, scan, [row], []), Payload(project, scan, [], []);
            var first := Run(g, Merges(w1, size) + Sweeps(project, scan));
            var second := Run(first, Merges(w2, size) + Sweeps(project, scan));
            && NodeAt(second, NodeKey(LabelOf(row), project, row.id)) == Some(StoredNode(row, scan))
            && !Mirrors(second, w2)
  {
    var w1, w2 := Payload(project, scan, [row], []), Payload(project, scan, [], []);
    var k := NodeKey(LabelOf(row), project, row.id);
    var first := Run(g, Merges(w1, size) + Sweeps(project, scan));
    assert WantedNode(w1, k) == Some(StoredNode(row, scan));
    NoNodesWanted(w2, EdgeKey(k, k, ""));
    hide Run, Merges, Sweeps, WantedNode, LabelOf;
    PushedAndSwept(g, w1, size, k, EdgeKey(k, k, ""));
    PushedAndSwept(first, w2, size, k, EdgeKey(k, k, ""));
  }

  // ---------------------------------------------------------------- other projects

  ghost predicate AgreeOn(p: string, a: Graph, b: Graph) {
    && (forall k: NodeKey :: k.project == p ==> NodeAt(a, k) == NodeAt(b, k))
    && (forall k: EdgeKey :: k.from.project == p ==> EdgeAt(a, k) == EdgeAt(b, k))
  }

  /** The statements of one project, in a run that other projects take part in. */
  function Own(ss: seq<Statement>, p: string): seq<Statement> {
    if ss == [] then []
    else
      var s := ss[|ss| - 1];
      Own(ss[..|ss| - 1], p) + if !s.Clear? && s.project == p then [s] else []
  }

  predicate NoClear(ss: seq<Statement>) {
    forall s :: s in ss ==> !s.Clear?
  }

  lemma ForeignStatementAt(g: Graph, s: Statement, p: string, k: NodeKey, e: EdgeKey)
    requires WellFormed(g) && !s.Clear? && s.project != p && k.project == p && e.from.project == p
    ensures NodeAt(g, k) == NodeAt(Exec(g, s), k) && EdgeAt(g, e) == EdgeAt(Exec(g, s), e)
  {
    match s
    case MergeNodes(_, scan, tag, rows) => MergedNodeAt(g, tag, rows, s.project, scan, k);
    case MergeEdges(_, scan, kind, rows) => MergedEdgeAt(g, kind, rows, s.project, scan, e);
    case _ =>
  }

  lemma ForeignStatement(g: Graph, s: Statement, p: string)
    requires WellFormed(g) && !s.Clear? && s.project != p
    ensures AgreeOn(p, g, Exec(g, s))
  {
    forall k: NodeKey | k.project == p
      ensures NodeAt(g, k) == NodeAt(Exec(g, s), k)
    {
      ForeignStatementAt(g, s, p, k, EdgeKey(k, k, ""));
    }
    forall e: EdgeKey | e.from.project == p
      ensures EdgeAt(g, e) == EdgeAt(Exec(g, s), e)
    {
      ForeignStatementAt(g, s, p, e.from, e);
    }
    hide Exec, NodeAt, EdgeAt, WellFormed;
  }

  lemma OwnStatementAt(a: Graph, b: Graph, s: Statement, p: string, k: NodeKey, e: EdgeKey)
    requires WellFormed(a) && WellFormed(b) && !s.Clear? && s.project == p && k.project == p && e.from.project == p
    requires NodeAt(a, k) == NodeAt(b, k) && EdgeAt(a, e) == EdgeAt(b, e) && NodeAt(a, e.from) == NodeAt(b, e.from)
    requires e.to.project == p ==> NodeAt(a, e.to) == NodeAt(b, e.to)
    ensures NodeAt(Exec(a, s), k) == NodeAt(Exec(b, s), k) && EdgeAt(Exec(a, s), e) == EdgeAt(Exec(b, s), e)
  {
    match s
    case MergeNodes(_, scan, tag, rows) =>
      MergedNodeAt(a, tag, rows, p, scan, k);
      MergedNodeAt(b, tag, rows, p, scan, k);
    case MergeEdges(_, scan, kind, rows) =>
      MergedEdgeAt(a, kind, rows, p, scan, e);
      MergedEdgeAt(b, kind, rows, p, scan, e);
    case _ =>
  }

  lemma OwnStatement(a: Graph, b: Graph, s: Statement, p: string)
    requires WellFormed(a) && WellFormed(b) && AgreeOn(p, a, b) && !s.Clear? && s.project == p
    ensures AgreeOn(p, Exec(a, s), Exec(b, s))
  {
    forall k: NodeKey | k.project == p
      ensures NodeAt(Exec(a, s), k) == NodeAt(Exec(b, s), k)
    {
      OwnStatementAt(a, b, s, p, k, EdgeKey(k, k, ""));
    }
    forall e: EdgeKey | e.from.project == p
      ensures EdgeAt(Exec(a, s), e) == EdgeAt(Exec(b, s), e)
    {
      OwnStatementAt(a, b, s, p, e.from, e);
    }
    hide Exec, NodeAt, EdgeAt, WellFormed;
  }

  /** Projects do not interfere: however their statements interleave, each project sees its own only. */
  lemma {:induction false} ProjectsAreIsolated(g: Graph, ss: seq<Statement>, p: string)
    requires WellFormed(g) && NoClear(ss)
    ensures AgreeOn(p, Run(g, ss), Run(g, Own(ss, p)))
  {
    if ss != [] {
      var s, before := ss[|ss| - 1], ss[..|ss| - 1];
      ProjectsAreIsolated(g, before, p);
      RunKeepsWellFormed(g, before);
      RunKeepsWellFormed(g, Own(before, p));
      if s.project == p {
        OwnStatement(Run(g, before), Run(g, Own(before, p)), s, p);
        assert Own(ss, p)[..|Own(ss, p)| - 1] == Own(before, p);
      } else {
        ForeignStatement(Run(g, before), s, p);
        assert Own(ss, p) == Own(before, p);
      }
    }
  }

  /** The main result, with pushes of other projects going on between the batches of this one. */
  lemma MirrorsAmongOthers(g: Graph, w: Payload, size: int, all: seq<Statement>)
    requires WellFormed(g) && NoClear(all)
    requires Own(all, w.project) == Merges(w, size) + Sweeps(w.project, w.scan)
    ensures Mirrors(Run(g, all), w) <==> if size > 0 then NoLeftovers(g, w) else AlreadyPushed(g, w)
  {
    var alone := Run(g, Own(all, w.project));
    ProjectsAreIsolated(g, all, w.project);
    MirrorsIff(g, w, size);
    assert Mirrors(Run(g, all), w) <==> Mirrors(alone, w) by {
      hide Run, Own, WantedEdge, WantedNode, NodeAt, EdgeAt;
    }
  }

  predicate AllOf(ss: seq<Statement>, p: string) {
    forall s :: s in ss ==> !s.Clear? && s.project == p
  }

  lemma {:induction false} BatchesOf(tag: string, ns: seq<seq<NodeRow>>, es: seq<seq<EdgeRow>>, p: string, scan: string)
    ensures AllOf(NodeBatches(tag, ns, p, scan), p) && AllOf(EdgeBatches(tag, es, p, scan), p)
    decreases |ns| + |es|
  {
    if ns != [] {
      BatchesOf(tag, ns[1..], es, p, scan);
    } else if es != [] {
      BatchesOf(tag, ns, es[1..], p, scan);
    }
  }

  lemma {:induction false} GroupsOf(tags: seq<string>, nodes: seq<NodeRow>, edges: seq<EdgeRow>, size: nat, p: string,
                                    scan: string)
    requires size > 0
    ensures AllOf(NodeGroups(tags, nodes, size, p, scan), p) && AllOf(EdgeGroups(tags, edges, size, p, scan), p)
  {
    if tags != [] {
      var tag := tags[|tags| - 1];
      GroupsOf(tags[..|tags| - 1], nodes, edges, size, p, scan);
      BatchesOf(tag, Chunks(Members(nodes, LabelOf, tag), size), Chunks(Members(edges, TypeOf, tag), size), p, scan);
    }
  }

  lemma {:induction false} OwnOfOne(ss: seq<Statement>, p: string, q: string)
    requires AllOf(ss, p)
    ensures Own(ss, q) == if p == q then ss else []
  {
    if ss != [] {
      OwnOfOne(ss[..|ss| - 1], p, q);
    }
  }

  lemma ScriptOf(w: Payload, size: int)
    ensures AllOf(Merges(w, size) + Sweeps(w.project, w.scan), w.project)
  {
    if size > 0 {
      GroupsOf(FirstSeen(w.nodes, LabelOf), w.nodes, w.edges, size, w.project, w.scan);
      GroupsOf(FirstSeen(w.edges, TypeOf), w.nodes, w.edges, size, w.project, w.scan);
    }
  }

  /** A push without `recreate`, complete or not, leaves every other project as it was. */
  lemma OthersUntouched(g: Graph, w: Payload, size: int, done: nat, q: string)
    requires WellFormed(g) && q != w.project
    requires done <= |Merges(w, size) + Sweeps(w.project, w.scan)|
    ensures AgreeOn(q, Run(g, (Merges(w, size) + Sweeps(w.project, w.scan))[..done]), g)
  {
    var ss := (Merges(w, size) + Sweeps(w.project, w.scan))[..done];
    ScriptOf(w, size);
    hide Merges, Sweeps, Run;
    assert AllOf(ss, w.project);
    assert NoClear(ss);
    OwnOfOne(ss, w.project, q);
    ProjectsAreIsolated(g, ss, q);
  }

  // ---------------------------------------------------------------- batch sizes that make no batch

  function SeenNode(g: Graph, scan: string, k: NodeKey): Option<Node> {
    if k in g.nodes && g.nodes[k].lastSeen == scan then Some(g.nodes[k]) else None
  }

  function SeenEdge(g: Graph, scan: string, k: EdgeKey): Option<Edge> {
    if k in g.edges && g.edges[k].lastSeen == scan && SeenNode(g, scan, k.from).Some?
        && SeenNode(g, scan, k.to).Some? then Some(g.edges[k])
    else None
  }

  /** The scan has been here before: what carries its id is the payload already. */
  ghost predicate AlreadyPushed(g: Graph, w: Payload) {
    && (forall k: NodeKey :: k.project == w.project ==> SeenNode(g, w.scan, k) == WantedNode(w, k))
    && (forall k: EdgeKey :: k.from.project == w.project ==> SeenEdge(g, w.scan, k) == WantedEdge(w, k))
  }

  /** Without a batch nothing is merged, and the sweep leaves what the scan has seen before. */
  lemma NoBatchesSweep(g: Graph, w: Payload, size: int, n: NodeKey, k: EdgeKey)
    requires size <= 0 && WellFormed(g) && n.project == w.project && k.from.project == w.project
    ensures var after := Run(g, Merges(w, size) + Sweeps(w.project, w.scan));
            NodeAt(after, n) == SeenNode(g, w.scan, n) && EdgeAt(after, k) == SeenEdge(g, w.scan, k)
  {
    assert Merges(w, size) + Sweeps(w.project, w.scan) == Sweeps(w.project, w.scan);
    SweptAt(g, w.project, w.scan, n, k);
  }

  /** So with a batch size that is not positive the push mirrors the payload only where it had been pushed before. */
  lemma MirrorsIffAlreadyPushed(g: Graph, w: Payload, size: int)
    requires size <= 0 && WellFormed(g)
    ensures Mirrors(Run(g, Merges(w, size) + Sweeps(w.project, w.scan)), w) <==> AlreadyPushed(g, w)
  {
    var after := Run(g, Merges(w, size) + Sweeps(w.project, w.scan));
    forall k: NodeKey | k.project == w.project
      ensures NodeAt(after, k) == SeenNode(g, w.scan, k)
    {
      NoBatchesSweep(g, w, size, k, EdgeKey(k, k, ""));
    }
    forall k: EdgeKey | k.from.project == w.project
      ensures EdgeAt(after, k) == SeenEdge(g, w.scan, k)
    {
      NoBatchesSweep(g, w, size, k.from, k);
    }
    hide Run, Merges, Sweeps, NodeAt, EdgeAt, SeenNode, SeenEdge, WantedNode, WantedEdge;
  }

  lemma {:induction false} NoNodesWanted(w: Payload, k: EdgeKey)
    requires w.nodes == []
    ensures WantedNode(w, k.from).None? && WantedEdge(w, k).None?
  {
  }

  lemma {:induction false} LastNodeFound(nodes: seq<NodeRow>, i: nat)
    requires i < |nodes|
    ensures LastNode(nodes, LabelOf(nodes[i]), nodes[i].id).Some?
  {
    if i < |nodes| - 1 {
      LastNodeFound(nodes[..|nodes| - 1], i);
    }
  }

  lemma SomeNodeWanted(w: Payload)
    requires w.nodes != []
    ensures exists k: NodeKey :: k.project == w.project && WantedNode(w, k).Some?
  {
    LastNodeFound(w.nodes, 0);
    assert WantedNode(w, NodeKey(LabelOf(w.nodes[0]), w.project, w.nodes[0].id)).Some?;
  }

  /**
   The sweep of a new scan that merges nothing takes the whole project: this is right for a payload without nodes only.
   */
  lemma NegativeBatchSizeEmptiesProject(g: Graph, w: Payload, size: int)
    requires size <= 0 && WellFormed(g) && NewScan(g, w.project, w.scan)
    ensures var after := Run(g, Merges(w, size) + Sweeps(w.project, w.scan));
            && (forall n: NodeKey :: n.project == w.project ==> NodeAt(after, n).None?)
            && (forall k: EdgeKey :: k.from.project == w.project ==> EdgeAt(after, k).None?)
            && (Mirrors(after, w) <==> w.nodes == [])
  {
    var after := Run(g, Merges(w, size) + Sweeps(w.project, w.scan));
    forall n: NodeKey | n.project == w.project
      ensures NodeAt(after, n).None?
    {
      NoBatchesSweep(g, w, size, n, EdgeKey(n, n, ""));
    }
    forall k: EdgeKey | k.from.project == w.project
      ensures EdgeAt(after, k).None?
    {
      NoBatchesSweep(g, w, size, k.from, k);
    }
    NothingMirrors(after, w);
  }

  /** A store that has nothing of the project mirrors the payloads without nodes. */
  lemma NothingMirrors(g: Graph, w: Payload)
    requires forall n: NodeKey :: n.project == w.project ==> NodeAt(g, n).None?
    requires forall k: EdgeKey :: k.from.project == w.project ==> EdgeAt(g, k).None?
    ensures Mirrors(g, w) <==> w.nodes == []
  {
    if w.nodes == [] {
      forall k: EdgeKey ensures WantedNode(w, k.from).None? && WantedEdge(w, k).None? {
        NoNodesWanted(w, k);
      }
      forall n: NodeKey ensures WantedNode(w, n).None? {
        NoNodesWanted(w, EdgeKey(n, n, ""));
      }
    } else {
      SomeNodeWanted(w);
    }
  }

  /** Into an empty store the payload goes as it is, without a sweep. */
  lemma EmptyStoreMirrors(w: Payload, size: nat)
    requires size > 0
    ensures Mirrors(Run(EMPTY, Merges(w, size)), w)
  {
    var after := Run(EMPTY, Merges(w, size));
    forall k: NodeKey | k.project == w.project
      ensures NodeAt(after, k) == WantedNode(w, k)
    {
      MergesMean(EMPTY, w, size, k, EdgeKey(k, k, ""));
    }
    forall k: EdgeKey | k.from.project == w.project
      ensures EdgeAt(after, k) == WantedEdge(w, k)
    {
      MergesMean(EMPTY, w, size, k.from, k);
      MergesMean(EMPTY, w, size, k.to, k);
    }
  }

  // ---------------------------------------------------------------- rows and what is stored for them

  /** Of a row whose kind is a label, the node under that label: as the row says, if no later row has its id. */
  predicate NodeRowStored(g: Graph, w: Payload, i: nat)
    requires i < |w.nodes|
  {
    var row := w.nodes[i];
    var k := NodeKey(row.kind, w.project, row.id);
    IsLabel(row.kind) ==>
      && k in g.nodes && g.nodes[k].lastSeen == w.scan
      && ((forall j :: i < j < |w.nodes| ==> w.nodes[j].id != row.id) ==>
            g.nodes[k] == Node(row.title, row.kind, row.metadata, w.scan))
  }

  /** Of a row that joins the nodes of two rows, the relationship of its kind between them. */
  predicate EdgeRowStored(g: Graph, w: Payload, i: nat, a: nat, b: nat)
    requires i < |w.edges| && a < |w.nodes| && b < |w.nodes|
  {
    var row := w.edges[i];
    var k := EdgeKey(NodeKey(w.nodes[a].kind, w.project, row.from), NodeKey(w.nodes[b].kind, w.project, row.to),
                     row.kind);
    IsLabel(row.kind) && IsLabel(w.nodes[a].kind) && IsLabel(w.nodes[b].kind)
    && w.nodes[a].id == row.from && w.nodes[b].id == row.to ==>
      && k in g.edges && g.edges[k].lastSeen == w.scan && g.edges[k].project == w.project
      && ((forall j :: i < j < |w.edges| ==> w.edges[j].from != row.from || w.edges[j].to != row.to) ==>
            g.edges[k] == Edge(w.project, row.metadata, w.scan))
  }

  /** Every row of the payload is in the store under its own names. */
  ghost predicate RowsStored(g: Graph, w: Payload) {
    && (forall i :: 0 <= i < |w.nodes| ==> NodeRowStored(g, w, i))
    && (forall i, a, b ::
        0 <= i < |w.edges| && 0 <= a < |w.nodes| && 0 <= b < |w.nodes| ==> EdgeRowStored(g, w, i, a, b))
  }

  lemma {:induction false} LastNodeIs(nodes: seq<NodeRow>, i: nat)
    requires i < |nodes| && forall j :: i < j < |nodes| ==> nodes[j].id != nodes[i].id
    ensures LastNode(nodes, LabelOf(nodes[i]), nodes[i].id) == Some(nodes[i])
    decreases |nodes|
  {
    if i < |nodes| - 1 {
      LastNodeIs(nodes[..|nodes| - 1], i);
    }
  }

  lemma {:induction false} LastEdgeFound(edges: seq<EdgeRow>, i: nat)
    requires i < |edges|
    ensures var found := LastEdge(edges, TypeOf(edges[i]), edges[i].from, edges[i].to);
            && found.Some?
            && ((forall j :: i < j < |edges| ==> edges[j].from != edges[i].from || edges[j].to != edges[i].to) ==>
                  found.value == edges[i])
    decreases |edges|
  {
    if i < |edges| - 1 {
      LastEdgeFound(edges[..|edges| - 1], i);
    }
  }

  lemma NodeRowAsked(w: Payload, i: nat)
    requires i < |w.nodes| && IsLabel(w.nodes[i].kind)
    ensures var row := w.nodes[i];
            var n := WantedNode(w, NodeKey(row.kind, w.project, row.id));
            && n.Some? && n.value.lastSeen == w.scan
            && ((forall j :: i < j < |w.nodes| ==> w.nodes[j].id != row.id) ==>
                  n.value == Node(row.title, row.kind, row.metadata, w.scan))
  {
    hide LabelOf, IsLabel, LastNode;
    KindsAreLabels(w.nodes[i], EdgeRow("", "", "", ""));
    LastNodeFound(w.nodes, i);
    if forall j :: i < j < |w.nodes| ==> w.nodes[j].id != w.nodes[i].id {
      LastNodeIs(w.nodes, i);
    }
  }

  /** What the payload asks for is there after a push in any of its modes. */
  lemma AskedIsStored(g: Graph, w: Payload, size: nat, sweep: bool, n: NodeKey, k: EdgeKey)
    requires size > 0 && WellFormed(g)
    ensures var after := Run(g, Script(w, size, sweep));
            && (WantedNode(w, n).Some? ==> NodeAt(after, n) == WantedNode(w, n))
            && (WantedEdge(w, k).Some? ==> EdgeAt(after, k) == WantedEdge(w, k))
  {
    hide Run, Merges, Sweeps, WellFormed, LastNode, LastEdge, StoredNode;
    assert Merges(w, size) + [] == Merges(w, size);
    if sweep {
      if WantedNode(w, n).Some? {
        PushedAndSwept(g, w, size, n, EdgeKey(n, n, ""));
      }
      if WantedEdge(w, k).Some? {
        PushedAndSwept(g, w, size, k.from, k);
      }
    } else {
      MergesMean(g, w, size, n, k);
      MergesMean(g, w, size, k.from, k);
      MergesMean(g, w, size, k.to, k);
    }
  }

  /** A push with a positive batch size stores every row, under its own kind, between its own ends. */
  lemma RowsAreStored(g: Graph, w: Payload, size: nat, sweep: bool)
    requires size > 0 && WellFormed(g)
    ensures RowsStored(Run(g, Script(w, size, sweep)), w)
  {
    var after := Run(g, Script(w, size, sweep));
    forall i | 0 <= i < |w.nodes| ensures NodeRowStored(after, w, i) {
      NodeRowIsStored(g, w, size, sweep, i);
    }
    forall i, a, b | 0 <= i < |w.edges| && 0 <= a < |w.nodes| && 0 <= b < |w.nodes|
      ensures EdgeRowStored(after, w, i, a, b)
    {
      EdgeRowIsStored(g, w, size, sweep, i, a, b);
    }
  }

  lemma NodeRowIsStored(g: Graph, w: Payload, size: nat, sweep: bool, i: nat)
    requires size > 0 && WellFormed(g) && i < |w.nodes|
    ensures NodeRowStored(Run(g, Script(w, size, sweep)), w, i)
  {
    hide Run, Script, WellFormed, WantedNode, WantedEdge, IsLabel;
    var row := w.nodes[i];
    if IsLabel(row.kind) {
      var n := NodeKey(row.kind, w.project, row.id);
      NodeRowAsked(w, i);
      AskedIsStored(g, w, size, sweep, n, EdgeKey(n, n, ""));
    }
  }

  lemma EdgeRowIsStored(g: Graph, w: Payload, size: nat, sweep: bool, i: nat, a: nat, b: nat)
    requires size > 0 && WellFormed(g) && i < |w.edges| && a < |w.nodes| && b < |w.nodes|
    ensures EdgeRowStored(Run(g, Script(w, size, sweep)), w, i, a, b)
  {
    hide Run, Script, WellFormed, WantedNode, IsLabel, LastEdge, TypeOf;
    var row, f, t := w.edges[i], w.nodes[a], w.nodes[b];
    if IsLabel(row.kind) && IsLabel(f.kind) && IsLabel(t.kind) && f.id == row.from && t.id == row.to {
      var k := EdgeKey(NodeKey(f.kind, w.project, row.from), NodeKey(t.kind, w.project, row.to), row.kind);
      NodeRowAsked(w, a);
      NodeRowAsked(w, b);
      KindsAreLabels(f, row);
      LastEdgeFound(w.edges, i);
      AskedIsStored(g, w, size, sweep, k.from, k);
    }
  }

  /** Two rows of different kinds between the same ends are two relationships. */
  lemma KindsKeptApart(g: Graph, w: Payload, i: nat, j: nat, a: nat, b: nat)
    requires RowsStored(g, w) && i < |w.edges| && j < |w.edges| && a < |w.nodes| && b < |w.nodes|
    requires IsLabel(w.edges[i].kind) && IsLabel(w.edges[j].kind) && w.edges[i].kind != w.edges[j].kind
    requires IsLabel(w.nodes[a].kind) && IsLabel(w.nodes[b].kind)
    requires w.edges[i].from == w.edges[j].from == w.nodes[a].id && w.edges[i].to == w.edges[j].to == w.nodes[b].id
    ensures exists k, m :: k in g.edges && m in g.edges && k != m
              && k.kind == w.edges[i].kind && m.kind == w.edges[j].kind && k.from == m.from && k.to == m.to
              && k.from == NodeKey(w.nodes[a].kind, w.project, w.nodes[a].id)
              && k.to == NodeKey(w.nodes[b].kind, w.project, w.nodes[b].id)
  {
    hide IsLabel;
    assert EdgeRowStored(g, w, i, a, b) && EdgeRowStored(g, w, j, a, b);
    var from := NodeKey(w.nodes[a].kind, w.project, w.nodes[a].id);
    var to := NodeKey(w.nodes[b].kind, w.project, w.nodes[b].id);
    assert EdgeKey(from, to, w.edges[i].kind) in g.edges && EdgeKey(from, to, w.edges[j].kind) in g.edges;
  }

  /** After the node merges alone. */
  lemma NodeMergesStore(g: Graph, nodes: seq<NodeRow>, size: nat, project: string, scan: string)
    requires size > 0
    ensures var after := Run(g, NodeGroups(FirstSeen(nodes, LabelOf), nodes, size, project, scan));
            forall i :: 0 <= i < |nodes| ==> NodeRowStored(after, Payload(project, scan, nodes, []), i)
  {
    hide Run, NodeGroups, WantedNode, IsLabel, FirstSeen;
    var w := Payload(project, scan, nodes, []);
    var after := Run(g, NodeGroups(FirstSeen(nodes, LabelOf), nodes, size, project, scan));
    forall i | 0 <= i < |nodes| ensures NodeRowStored(after, w, i) {
      var row := nodes[i];
      if IsLabel(row.kind) {
        NodeRowAsked(w, i);
        NodesPushed(g, w, size, NodeKey(row.kind, project, row.id));
      }
    }
  }

  /** Of a row whose kind is a label, the relationship of that kind between stored nodes that have its ids. */
  predicate LinkStored(g: Graph, edges: seq<EdgeRow>, project: string, scan: string, i: nat, f: NodeKey, t: NodeKey)
    requires i < |edges|
  {
    var row := edges[i];
    var k := EdgeKey(f, t, row.kind);
    IsLabel(row.kind) && f in g.nodes && t in g.nodes && f.project == t.project == project
    && f.id == row.from && t.id == row.to ==>
      && k in g.edges && g.edges[k].lastSeen == scan && g.edges[k].project == project
      && ((forall j :: i < j < |edges| ==> edges[j].from != row.from || edges[j].to != row.to) ==>
            g.edges[k] == Edge(project, row.metadata, scan))
  }

  /** After the relationship merges alone. */
  lemma EdgeMergesStore(g: Graph, edges: seq<EdgeRow>, size: nat, project: string, scan: string)
    requires size > 0
    ensures var after := Run(g, EdgeGroups(FirstSeen(edges, TypeOf), edges, size, project, scan));
            && after.nodes == g.nodes
            && forall i, f, t :: 0 <= i < |edges| ==> LinkStored(after, edges, project, scan, i, f, t)
  {
    hide *;
    var after := Run(g, EdgeGroups(FirstSeen(edges, TypeOf), edges, size, project, scan));
    FirstSeenIsDistinct(edges, TypeOf);
    var any := NodeKey("", "", "");
    EdgeGroupsAt(g, FirstSeen(edges, TypeOf), edges, size, project, scan, EdgeKey(any, any, ""));
    forall i, f, t | 0 <= i < |edges| ensures LinkStored(after, edges, project, scan, i, f, t) {
      LinkIsStored(g, edges, size, project, scan, i, f, t);
    }
  }

  lemma LinkIsStored(g: Graph, edges: seq<EdgeRow>, size: nat, project: string, scan: string, i: nat, f: NodeKey,
                     t: NodeKey)
    requires size > 0 && i < |edges|
    ensures LinkStored(Run(g, EdgeGroups(FirstSeen(edges, TypeOf), edges, size, project, scan)), edges, project, scan,
                       i, f, t)
  {
    hide Run, EdgeGroups, IsLabel, FirstSeen, LastEdge, TypeOf, Distinct;
    var row := edges[i];
    var k := EdgeKey(f, t, row.kind);
    if IsLabel(row.kind) && f.id == row.from && t.id == row.to {
      FirstSeenIsDistinct(edges, TypeOf);
      KindsAreLabels(NodeRow("", "", "", ""), row);
      LastEdgeFound(edges, i);
      LastEdgeKind(edges, row.kind, row.from, row.to);
      EdgeGroupsAt(g, FirstSeen(edges, TypeOf), edges, size, project, scan, k);
    }
  }

  // ---------------------------------------------------------------- the program

  /** The store as the program sees it: it takes one statement at a time. */
  class Neo4jClient {
    var graph: Graph

    constructor (g: Graph)
      ensures graph == g
    {
      graph := g;
    }

    method Execute(s: Statement)
      modifies this
      ensures graph == Exec(old(graph), s)
    {
      graph := Exec(graph, s);
    }
  }

  datatype Outcome = Pushed(pushedNodes: nat, pushedEdges: nat) | MissingProjectId | MissingScanId | ZeroStep

  method PushNodes(client: Neo4jClient, nodes: seq<NodeRow>, size: int, project: string, scan: string)
      returns (ok: bool)
    modifies client
    ensures ok <==> size != 0 || nodes == []
    ensures client.graph == if size <= 0 then old(client.graph)
                            else Run(old(client.graph),
                                     NodeGroups(FirstSeen(nodes, LabelOf), nodes, size, project, scan))
    ensures size > 0 ==>
        forall i :: 0 <= i < |nodes| ==> NodeRowStored(client.graph, Payload(project, scan, nodes, []), i)
  {
    hide *;
    ghost var start := client.graph;
    var tags, byTag := Gather(nodes, LabelOf);
    if size == 0 {
      return nodes == [];
    }
    FirstNodeGroup(start, nodes, size, project, scan);
    for i := 0 to |tags|
      invariant client.graph == if size < 0
          then start else Run(start, NodeGroups(tags[..i], nodes, size, project, scan))
    {
      ghost var before := client.graph;
      var batches := Chunked(byTag[tags[i]], size);
      FirstNodeBatch(before, tags[i], project, scan);
      for j := 0 to |batches|
        invariant client.graph == Run(before, NodeBatches(tags[i], batches[..j], project, scan))
      {
        client.Execute(MergeNodes(project, scan, tags[i], batches[j]));
        NextNodeBatch(before, tags[i], batches, j, project, scan);
      }
      assert batches[..|batches|] == batches;
      if size > 0 {
        NextNodeGroup(start, tags, i, nodes, size, project, scan);
      }
    }
    assert tags[..|tags|] == tags;
    if size > 0 {
      NodeMergesStore(start, nodes, size, project, scan);
    }
    ok := true;
  }

  lemma FirstNodeBatch(g: Graph, tag: string, p: string, scan: string)
    ensures Run(g, NodeBatches(tag, [], p, scan)) == g
  {
  }

  lemma FirstNodeGroup(g: Graph, nodes: seq<NodeRow>, size: int, p: string, scan: string)
    ensures size > 0 ==> Run(g, NodeGroups([], nodes, size, p, scan)) == g
  {
  }

  lemma NextNodeGroup(g: Graph, tags: seq<string>, i: nat, nodes: seq<NodeRow>, size: nat, p: string, scan: string)
    requires size > 0 && i < |tags|
    ensures Run(g, NodeGroups(tags[..i + 1], nodes, size, p, scan))
         == Run(Run(g, NodeGroups(tags[..i], nodes, size, p, scan)),
                NodeBatches(tags[i], Chunks(Members(nodes, LabelOf, tags[i]), size), p, scan))
  {
    assert tags[..i + 1][..i] == tags[..i];
    RunAppend(g, NodeGroups(tags[..i], nodes, size, p, scan),
              NodeBatches(tags[i], Chunks(Members(nodes, LabelOf, tags[i]), size), p, scan));
  }

  lemma NextNodeBatch(g: Graph, tag: string, cs: seq<seq<NodeRow>>, j: nat, p: string, scan: string)
    requires j < |cs|
    ensures Run(g, NodeBatches(tag, cs[..j + 1], p, scan))
         == Exec(Run(g, NodeBatches(tag, cs[..j], p, scan)), MergeNodes(p, scan, tag, cs[j]))
  {
    RunNodeBatches(g, tag, cs[..j + 1], p, scan);
    RunNodeBatches(g, tag, cs[..j], p, scan);
    ConcatNext(cs, j);
    MergeNodeRowsAppend(g, tag, Concat(cs[..j]), cs[j], p, scan);
  }

  lemma FirstEdgeBatch(g: Graph, kind: string, p: string, scan: string)
    ensures Run(g, EdgeBatches(kind, [], p, scan)) == g
  {
  }

  lemma FirstEdgeGroup(g: Graph, edges: seq<EdgeRow>, size: int, p: string, scan: string)
    ensures size > 0 ==> Run(g, EdgeGroups([], edges, size, p, scan)) == g
  {
  }

  lemma NextEdgeGroup(g: Graph, kinds: seq<string>, i: nat, edges: seq<EdgeRow>, size: nat, p: string, scan: string)
    requires size > 0 && i < |kinds|
    ensures Run(g, EdgeGroups(kinds[..i + 1], edges, size, p, scan))
         == Run(Run(g, EdgeGroups(kinds[..i], edges, size, p, scan)),
                EdgeBatches(kinds[i], Chunks(Members(edges, TypeOf, kinds[i]), size), p, scan))
  {
    assert kinds[..i + 1][..i] == kinds[..i];
    RunAppend(g, EdgeGroups(kinds[..i], edges, size, p, scan),
              EdgeBatches(kinds[i], Chunks(Members(edges, TypeOf, kinds[i]), size), p, scan));
  }

  lemma NextEdgeBatch(g: Graph, kind: string, cs: seq<seq<EdgeRow>>, j: nat, p: string, scan: string)
    requires j < |cs|
    ensures Run(g, EdgeBatches(kind, cs[..j + 1], p, scan))
         == Exec(Run(g, EdgeBatches(kind, cs[..j], p, scan)), MergeEdges(p, scan, kind, cs[j]))
  {
    RunEdgeBatches(g, kind, cs[..j + 1], p, scan);
    RunEdgeBatches(g, kind, cs[..j], p, scan);
    ConcatNext(cs, j);
    MergeEdgeRowsAppend(g, kind, Concat(cs[..j]), cs[j], p, scan);
  }

  method PushEdges(client: Neo4jClient, edges: seq<EdgeRow>, size: int, project: string, scan: string)
      returns (ok: bool)
    modifies client
    ensures ok <==> size != 0 || edges == []
    ensures client.graph == if size <= 0 then old(client.graph)
                            else Run(old(client.graph),
                                     EdgeGroups(FirstSeen(edges, TypeOf), edges, size, project, scan))
    ensures client.graph.nodes == old(client.graph.nodes)
    ensures size > 0 ==>
        forall i, f, t :: 0 <= i < |edges| ==> LinkStored(client.graph, edges, project, scan, i, f, t)
  {
    hide *;
    ghost var start := client.graph;
    var kinds, byKind := Gather(edges, TypeOf);
    if size == 0 {
      return edges == [];
    }
    FirstEdgeGroup(start, edges, size, project, scan);
    for i := 0 to |kinds|
      invariant client.graph == if size < 0
          then start else Run(start, EdgeGroups(kinds[..i], edges, size, project, scan))
    {
      ghost var before := client.graph;
      var batches := Chunked(byKind[kinds[i]], size);
      FirstEdgeBatch(before, kinds[i], project, scan);
      for j := 0 to |batches|
        invariant client.graph == Run(before, EdgeBatches(kinds[i], batches[..j], project, scan))
      {
        client.Execute(MergeEdges(project, scan, kinds[i], batches[j]));
        NextEdgeBatch(before, kinds[i], batches, j, project, scan);
      }
      assert batches[..|batches|] == batches;
      if size > 0 {
        NextEdgeGroup(start, kinds, i, edges, size, project, scan);
      }
    }
    assert kinds[..|kinds|] == kinds;
    if size > 0 {
      EdgeMergesStore(start, edges, size, project, scan);
    }
    ok := true;
  }

  lemma OthersUntouchedThroughout(g: Graph, w: Payload, size: int)
    requires WellFormed(g)
    ensures forall q :: q != w.project ==> AgreeOn(q, Run(g, Merges(w, size)), g)
    ensures forall q :: q != w.project ==> AgreeOn(q, Run(g, Merges(w, size) + Sweeps(w.project, w.scan)), g)
  {
    var all := Merges(w, size) + Sweeps(w.project, w.scan);
    assert all[..|all|] == all && all[..|Merges(w, size)|] == Merges(w, size);
    forall q | q != w.project
      ensures AgreeOn(q, Run(g, Merges(w, size)), g) && AgreeOn(q, Run(g, all), g)
    {
      OthersUntouched(g, w, size, |all|, q);
      OthersUntouched(g, w, size, |Merges(w, size)|, q);
    }
  }

  lemma MergesInTwo(g: Graph, w: Payload, size: nat)
    requires size > 0
    ensures Run(g, Merges(w, size))
        == Run(Run(g, NodeGroups(FirstSeen(w.nodes, LabelOf), w.nodes, size, w.project, w.scan)),
                                           EdgeGroups(FirstSeen(w.edges, TypeOf), w.edges, size, w.project, w.scan))
  {
    RunAppend(g, NodeGroups(FirstSeen(w.nodes, LabelOf), w.nodes, size, w.project, w.scan),
              EdgeGroups(FirstSeen(w.edges, TypeOf), w.edges, size, w.project, w.scan));
  }

  /** The statements of a push whose batch size is not refused. */
  function Script(w: Payload, size: int, sweep: bool): seq<Statement> {
    Merges(w, size) + if sweep then Sweeps(w.project, w.scan) else []
  }

  lemma EmptyMirrorsIff(w: Payload, size: int)
    ensures Mirrors(Run(EMPTY, Merges(w, size)), w) <==> size > 0 || w.nodes == []
  {
    if size > 0 {
      EmptyStoreMirrors(w, size);
    } else {
      NothingMirrors(EMPTY, w);
    }
  }

  lemma MirrorsIff(g: Graph, w: Payload, size: int)
    requires WellFormed(g)
    ensures Mirrors(Run(g, Script(w, size, true)), w) <==> if size > 0 then NoLeftovers(g, w) else AlreadyPushed(g, w)
  {
    if size > 0 {
      MirrorsIffNoLeftovers(g, w, size);
    } else {
      MirrorsIffAlreadyPushed(g, w, size);
    }
  }

  /** What a whole script leaves behind. */
  lemma ScriptMeans(g: Graph, w: Payload, size: int, recreate: bool, deleteMissing: bool)
    requires WellFormed(g)
    ensures var start := if recreate then EMPTY else g;
            var after := Run(start, Script(w, size, deleteMissing && !recreate));
            && WellFormed(start) && WellFormed(after)
            && (recreate ==> (Mirrors(after, w) <==> size > 0 || w.nodes == []))
            && (!recreate && deleteMissing ==>
                (Mirrors(after, w) <==> if size > 0 then NoLeftovers(g, w) else AlreadyPushed(g, w)))
            && (!recreate ==> forall q :: q != w.project ==> AgreeOn(q, after, g))
            && (size > 0 ==> RowsStored(after, w))
  {
    var start := if recreate then EMPTY else g;
    RunKeepsWellFormed(start, Script(w, size, deleteMissing && !recreate));
    EmptyMirrorsIff(w, size);
    MirrorsIff(g, w, size);
    OthersUntouchedThroughout(g, w, size);
    if size > 0 {
      RowsAreStored(start, w, size, deleteMissing && !recreate);
    }
    hide RowsStored, Merges, Run, Mirrors, NoLeftovers, AlreadyPushed, AgreeOn, WellFormed;
    assert Merges(w, size) + [] == Merges(w, size);
  }

  /** Both loops of merges. */
  method MergePayload(client: Neo4jClient, w: Payload, size: int) returns (ok: bool)
    modifies client
    ensures ok <==> size != 0 || (w.nodes == [] && w.edges == [])
    ensures client.graph == Run(old(client.graph), Merges(w, size))
  {
    ghost var start := client.graph;
    if size > 0 {
      MergesInTwo(start, w, size);
    }
    hide NodeGroups, EdgeGroups;
    ok := PushNodes(client, w.nodes, size, w.project, w.scan);
    if ok {
      ok := PushEdges(client, w.edges, size, w.project, w.scan);
    }
  }

  lemma ScriptEnds(g: Graph, w: Payload, size: int)
    ensures Run(g, Script(w, size, false)) == Run(g, Merges(w, size))
    ensures Run(g, Script(w, size, true))
         == Exec(Exec(Run(g, Merges(w, size)), SweepEdges(w.project, w.scan)), SweepNodes(w.project, w.scan))
    ensures size == 0 ==> Run(g, Merges(w, size)) == g
  {
    assert Merges(w, size) + [] == Merges(w, size);
    SweepsAfter(Run(g, Merges(w, size)), w.project, w.scan);
    RunAppend(g, Merges(w, size), Sweeps(w.project, w.scan));
    hide Exec;
  }

  /**
   The whole push. With `delete_missing` and without `recreate` it ends with the store mirroring the payload precisely
   when no leftover carries the scan id, and with a batch size that makes no batch precisely when the payload was there
   already; with `recreate`, which leaves the sweep out, precisely when the batch size is positive or there are no
   nodes.
   */
  method PushGraphPayload(client: Neo4jClient, w: Payload, size: int, recreate: bool, deleteMissing: bool)
    returns (outcome: Outcome)
    requires WellFormed(client.graph)
    modifies client
    ensures WellFormed(client.graph)
    ensures outcome.MissingProjectId? <==> w.project == ""
    ensures outcome.MissingScanId? <==> w.project != "" && w.scan == ""
    ensures outcome.ZeroStep? <==> w.project != "" && w.scan != "" && size == 0 && (w.nodes != [] || w.edges != [])
    ensures outcome.MissingProjectId? || outcome.MissingScanId? ==> client.graph == old(client.graph)
    ensures outcome.ZeroStep? ==> client.graph == if recreate then EMPTY else old(client.graph)
    ensures outcome.Pushed? ==> outcome == Pushed(|w.nodes|, |w.edges|)
    ensures outcome.Pushed? ==>
              client.graph == Run(if recreate then EMPTY else old(client.graph),
                                  Script(w, size, deleteMissing && !recreate))
    ensures outcome.Pushed? && size > 0 ==> RowsStored(client.graph, w)
    ensures outcome.Pushed? && recreate ==> (Mirrors(client.graph, w) <==> size > 0 || w.nodes == [])
    ensures outcome.Pushed? && !recreate && deleteMissing ==>
              (Mirrors(client.graph, w)
               <==> if size > 0 then NoLeftovers(old(client.graph), w) else AlreadyPushed(old(client.graph), w))
    ensures !recreate ==> forall q :: q != w.project ==> AgreeOn(q, client.graph, old(client.graph))
  {
    hide Run, Script, Merges, Mirrors, NoLeftovers, AlreadyPushed, WellFormed, AgreeOn, RowsStored;
    if w.project == "" {
      OthersThemselves(client.graph);
      return MissingProjectId;
    }
    if w.scan == "" {
      OthersThemselves(client.graph);
      return MissingScanId;
    }
    ScriptMeans(client.graph, w, size, recreate, deleteMissing);
    OthersThemselves(client.graph);
    if recreate {
      client.Execute(Clear);
    }
    ScriptEnds(client.graph, w, size);
    var ok := MergePayload(client, w, size);
    if !ok {
      return ZeroStep;
    }
    if !recreate && deleteMissing {
      client.Execute(SweepEdges(w.project, w.scan));
      client.Execute(SweepNodes(w.project, w.scan));
    }
    outcome := Pushed(|w.nodes|, |w.edges|);
  }

  lemma OthersThemselves(g: Graph)
    ensures forall q :: AgreeOn(q, g, g)
  {
  }
}
