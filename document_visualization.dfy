/**
 * The deterministic half of the document graph: the nodes and links built
 * from a list of documents, the clamp that keeps a drawn circle inside the
 * viewport, and the pin state that the drag handlers set on a node and on
 * the force simulation.
 */
module DocumentVisualization {
  import opened Common
  import opened Types

  datatype NodeKind = CategoryNode | DocumentNode | TagNode

  datatype VisualNode = VisualNode(id: string, caption: string, kind: NodeKind, radius: int, docData: Option<Document>)

  datatype LinkKind = CategoryDocument | DocumentTag

  datatype VisualLink = VisualLink(source: string, target: string, kind: LinkKind)

  datatype Graph = Graph(nodes: seq<VisualNode>, links: seq<VisualLink>)

  const CategoryRadius: int := 40
  const DocumentRadius: int := 25
  const TagRadius: int := 15
  const LabelLength: nat := 30

  function Radius(kind: NodeKind): int {
    match kind
    case CategoryNode => CategoryRadius
    case DocumentNode => DocumentRadius
    case TagNode => TagRadius
  }

  function Prefix(kind: NodeKind): string {
    match kind
    case CategoryNode => "category-"
    case DocumentNode => "document-"
    case TagNode => "tag-"
  }

  function NodeId(kind: NodeKind, name: string): string { Prefix(kind) + name }

  predicate StartsWith(s: string, p: string) {
    |p| <= |s| && s[..|p|] == p
  }

  /** `doc.document.substring(0, 30) + (doc.document.length > 30 ? "..." : "")` */
  function DocumentLabel(text: string): string { Truncate(text, LabelLength) }

  function CategoryNodes(categories: seq<string>): seq<VisualNode> {
    seq(|categories|, i requires 0 <= i < |categories| =>
      VisualNode(NodeId(CategoryNode, categories[i]), categories[i], CategoryNode, CategoryRadius, None))
  }

  function DocumentNodes(docs: seq<Document>): seq<VisualNode> {
    seq(|docs|, i requires 0 <= i < |docs| =>
      VisualNode(NodeId(DocumentNode, docs[i].id), DocumentLabel(docs[i].document), DocumentNode, DocumentRadius, Some(docs[i])))
  }

  function TagNodes(tags: seq<string>): seq<VisualNode> {
    seq(|tags|, i requires 0 <= i < |tags| =>
      VisualNode(NodeId(TagNode, tags[i]), tags[i], TagNode, TagRadius, None))
  }

  /** One category-document link per document, in document order. */
  function CategoryLinks(docs: seq<Document>): seq<VisualLink> {
    seq(|docs|, i requires 0 <= i < |docs| =>
      VisualLink(NodeId(CategoryNode, docs[i].category), NodeId(DocumentNode, docs[i].id), CategoryDocument))
  }

  /** `doc.tags.map(tag => ...)` */
  function TagLinksOf(d: Document): seq<VisualLink> {
    seq(|d.tags|, j requires 0 <= j < |d.tags| =>
      VisualLink(NodeId(DocumentNode, d.id), NodeId(TagNode, d.tags[j]), DocumentTag))
  }

  /** `documents.flatMap(doc => doc.tags.map(...))` */
  function TagLinks(docs: seq<Document>): seq<VisualLink>
    decreases |docs|
  {
    if docs == [] then [] else TagLinks(docs[..|docs| - 1]) + TagLinksOf(docs[|docs| - 1])
  }

  /** The graph for a list of documents; nothing is built for an empty list. */
  function BuildGraph(docs: seq<Document>): (g: Option<Graph>)
    ensures g.None? <==> docs == []
  {
    if docs == [] then None
    else
      Some(Graph(
        CategoryNodes(UniqueCategories(docs)) + DocumentNodes(docs) + TagNodes(UniqueTags(docs)),
        CategoryLinks(docs) + TagLinks(docs)))
  }

  ghost predicate HasNode(nodes: seq<VisualNode>, id: string) {
    exists n :: n in nodes && n.id == id
  }

  // ---------------------------------------------------------------------
  // Properties of the graph

  /** A node's radius and id prefix are the ones its kind prescribes. */
  predicate WellFormedNode(n: VisualNode) {
    n.radius == Radius(n.kind) && StartsWith(n.id, Prefix(n.kind))
  }

  lemma NodeIdStartsWith(kind: NodeKind, name: string)
    ensures StartsWith(NodeId(kind, name), Prefix(kind))
  {
    assert NodeId(kind, name)[..|Prefix(kind)|] == Prefix(kind);
  }

  lemma CategoryNodesWellFormed(categories: seq<string>)
    ensures forall n :: n in CategoryNodes(categories) ==> WellFormedNode(n) && n.kind == CategoryNode
  {
    forall i | 0 <= i < |categories| { NodeIdStartsWith(CategoryNode, categories[i]); }
  }

  lemma DocumentNodesWellFormed(docs: seq<Document>)
    ensures forall n :: n in DocumentNodes(docs) ==> WellFormedNode(n) && n.kind == DocumentNode
  {
    forall i | 0 <= i < |docs| { NodeIdStartsWith(DocumentNode, docs[i].id); }
  }

  lemma TagNodesWellFormed(tags: seq<string>)
    ensures forall n :: n in TagNodes(tags) ==> WellFormedNode(n) && n.kind == TagNode
  {
    forall i | 0 <= i < |tags| { NodeIdStartsWith(TagNode, tags[i]); }
  }

  /** Every node's radius (40, 25 or 15) and id prefix follow from its kind. */
  lemma NodesWellFormed(docs: seq<Document>)
    requires docs != []
    ensures forall n :: n in BuildGraph(docs).value.nodes ==> WellFormedNode(n)
  {
    CategoryNodesWellFormed(UniqueCategories(docs));
    DocumentNodesWellFormed(docs);
    TagNodesWellFormed(UniqueTags(docs));
  }

  /** There is one node per category, per document and per tag, and category nodes come first. */
  lemma CategoryNodesFirst(docs: seq<Document>)
    requires docs != []
    ensures var nodes := BuildGraph(docs).value.nodes;
      |nodes| == |UniqueCategories(docs)| + |docs| + |UniqueTags(docs)| &&
      forall i :: 0 <= i < |UniqueCategories(docs)| ==> nodes[i] == CategoryNodes(UniqueCategories(docs))[i]
  {
    ThreeParts(CategoryNodes(UniqueCategories(docs)), DocumentNodes(docs), TagNodes(UniqueTags(docs)));
  }

  /** The category nodes are followed by one node per document, in document order. */
  lemma DocumentNodesInOrder(docs: seq<Document>)
    requires docs != []
    ensures var nodes := BuildGraph(docs).value.nodes; var nc := |UniqueCategories(docs)|;
      |nodes| >= nc + |docs| &&
      forall i :: 0 <= i < |docs| ==>
        nodes[nc + i].kind == DocumentNode && nodes[nc + i].docData == Some(docs[i])
  {
    ThreeParts(CategoryNodes(UniqueCategories(docs)), DocumentNodes(docs), TagNodes(UniqueTags(docs)));
  }

  /** The tag nodes come last. */
  lemma TagNodesLast(docs: seq<Document>)
    requires docs != []
    ensures var nodes := BuildGraph(docs).value.nodes; var n := |UniqueCategories(docs)| + |docs|;
      forall i :: n <= i < |nodes| ==> nodes[i].kind == TagNode
  {
    var ts := TagNodes(UniqueTags(docs));
    TagNodesWellFormed(UniqueTags(docs));
    ThreeParts(CategoryNodes(UniqueCategories(docs)), DocumentNodes(docs), ts);
  }

  lemma ThreeParts<T>(a: seq<T>, b: seq<T>, c: seq<T>)
    ensures |a + b + c| == |a| + |b| + |c|
    ensures forall i :: 0 <= i < |a| ==> (a + b + c)[i] == a[i]
    ensures forall i :: 0 <= i < |b| ==> (a + b + c)[|a| + i] == b[i]
    ensures forall i :: |a| + |b| <= i < |a| + |b| + |c| ==> (a + b + c)[i] == c[i - |a| - |b|]
  {
  }

  /** A document node's caption is its text cut to 30 characters, followed by "..." when something was cut. */
  lemma DocumentNodeLabels(docs: seq<Document>, i: nat)
    requires i < |docs|
    ensures var caption := DocumentNodes(docs)[i].caption; var text := docs[i].document;
      (|text| <= LabelLength ==> caption == text) &&
      (|text| > LabelLength ==> caption == text[..LabelLength] + "...")
  {
  }

  /** Nodes of different kinds never share an id: the prefixes already differ in their first character. */
  lemma KindsHaveDistinctIds(n: VisualNode, m: VisualNode)
    requires WellFormedNode(n) && WellFormedNode(m) && n.kind != m.kind
    ensures n.id != m.id
  {
    assert n.id[0] == Prefix(n.kind)[0];
    assert m.id[0] == Prefix(m.kind)[0];
  }

  ghost predicate DistinctIds(nodes: seq<VisualNode>) {
    forall i, j :: 0 <= i < j < |nodes| ==> nodes[i].id != nodes[j].id
  }

  /** Within one kind, ids are distinct when the names they are built from are. */
  lemma NamesGiveDistinctIds(nodes: seq<VisualNode>, kind: NodeKind, names: seq<string>)
    requires |nodes| == |names|
    requires forall i :: 0 <= i < |nodes| ==> nodes[i].id == NodeId(kind, names[i])
    requires forall i, j :: 0 <= i < j < |names| ==> names[i] != names[j]
    ensures DistinctIds(nodes)
  {
    forall i, j | 0 <= i < j < |nodes| ensures nodes[i].id != nodes[j].id {
      assert nodes[i].id[|Prefix(kind)|..] == names[i];
      assert nodes[j].id[|Prefix(kind)|..] == names[j];
    }
  }

  lemma AppendDistinctIds(a: seq<VisualNode>, b: seq<VisualNode>)
    requires DistinctIds(a) && DistinctIds(b)
    requires forall n, m :: n in a && m in b ==> n.id != m.id
    ensures DistinctIds(a + b)
  {
    var ab := a + b;
    forall i, j | 0 <= i < j < |ab| ensures ab[i].id != ab[j].id {
      if j < |a| {
        assert ab[i] == a[i] && ab[j] == a[j];
      } else if i >= |a| {
        assert ab[i] == b[i - |a|] && ab[j] == b[j - |a|];
      } else {
        assert ab[i] in a && ab[j] in b;
      }
    }
  }

  /** Node ids are unique, provided the documents' ids are. */
  lemma NodeIdsUnique(docs: seq<Document>)
    requires docs != []
    requires forall i, j :: 0 <= i < j < |docs| ==> docs[i].id != docs[j].id
    ensures DistinctIds(BuildGraph(docs).value.nodes)
  {
    var cats, tags := UniqueCategories(docs), UniqueTags(docs);
    var cs, ds, ts := CategoryNodes(cats), DocumentNodes(docs), TagNodes(tags);
    NamesGiveDistinctIds(cs, CategoryNode, cats);
    NamesGiveDistinctIds(ds, DocumentNode, seq(|docs|, i requires 0 <= i < |docs| => docs[i].id));
    NamesGiveDistinctIds(ts, TagNode, tags);
    CategoryNodesWellFormed(cats);
    DocumentNodesWellFormed(docs);
    TagNodesWellFormed(tags);
    forall n, m | n in cs && m in ds ensures n.id != m.id {
      KindsHaveDistinctIds(n, m);
    }
    AppendDistinctIds(cs, ds);
    forall n: VisualNode, m: VisualNode | n in cs + ds && m in ts ensures n.id != m.id {
      KindsHaveDistinctIds(n, m);
    }
    AppendDistinctIds(cs + ds, ts);
  }

  /** `documents.flatMap(d => d.tags).length`: one document-tag link per tag occurrence. */
  lemma {:induction false} TagLinksCount(docs: seq<Document>)
    ensures |TagLinks(docs)| == TagCount(docs)
    decreases |docs|
  {
    if docs != [] {
      TagLinksCount(docs[..|docs| - 1]);
    }
  }

  /** Every document-tag link joins a document to one of that document's tags. */
  lemma {:induction false} TagLinksFrom(docs: seq<Document>, l: VisualLink)
    requires l in TagLinks(docs)
    ensures exists i, j :: (0 <= i < |docs| && 0 <= j < |docs[i].tags| &&
      l == VisualLink(NodeId(DocumentNode, docs[i].id), NodeId(TagNode, docs[i].tags[j]), DocumentTag))
    decreases |docs|
  {
    var front, last := docs[..|docs| - 1], docs[|docs| - 1];
    if l in TagLinks(front) {
      TagLinksFrom(front, l);
      var i, j :| 0 <= i < |front| && 0 <= j < |front[i].tags| &&
        l == VisualLink(NodeId(DocumentNode, front[i].id), NodeId(TagNode, front[i].tags[j]), DocumentTag);
      assert docs[i] == front[i];
    } else {
      var ls := TagLinksOf(last);
      assert l in ls;
      var j :| 0 <= j < |ls| && ls[j] == l;
      assert docs[|docs| - 1] == last;
    }
  }

  /**
   * The tag links follow the flatMap order: the links of document `i` start
   * after the tag occurrences of the documents before it, one per tag, in
   * the document's tag order.
   */
  lemma {:induction false} TagLinkAt(docs: seq<Document>, i: nat, j: nat)
    requires i < |docs| && j < |docs[i].tags|
    ensures TagCount(docs[..i]) + j < |TagLinks(docs)|
    ensures TagLinks(docs)[TagCount(docs[..i]) + j] ==
      VisualLink(NodeId(DocumentNode, docs[i].id), NodeId(TagNode, docs[i].tags[j]), DocumentTag)
    decreases |docs|
  {
    var front := docs[..|docs| - 1];
    TagLinksCount(front);
    if i == |docs| - 1 {
      assert docs[..i] == front;
    } else {
      TagLinkAt(front, i, j);
      assert front[..i] == docs[..i];
      assert front[i] == docs[i];
    }
  }

  /** The `i`-th link joins document `i` to its category. */
  lemma CategoryLinkAt(docs: seq<Document>, i: nat)
    requires i < |docs|
    ensures i < |BuildGraph(docs).value.links|
    ensures BuildGraph(docs).value.links[i] ==
      VisualLink(NodeId(CategoryNode, docs[i].category), NodeId(DocumentNode, docs[i].id), CategoryDocument)
  {
    var cl, tl := CategoryLinks(docs), TagLinks(docs);
    assert BuildGraph(docs).value.links == cl + tl;
    assert (cl + tl)[i] == cl[i];
  }

  /**
   * The category links are followed by the tag links in flatMap order; with
   * `CategoryLinkAt` and `LinkCount` this fixes the whole list.
   */
  lemma GraphTagLinkAt(docs: seq<Document>, i: nat, j: nat)
    requires i < |docs| && j < |docs[i].tags|
    ensures |docs| + TagCount(docs[..i]) + j < |BuildGraph(docs).value.links|
    ensures BuildGraph(docs).value.links[|docs| + TagCount(docs[..i]) + j] ==
      VisualLink(NodeId(DocumentNode, docs[i].id), NodeId(TagNode, docs[i].tags[j]), DocumentTag)
  {
    var cl, tl := CategoryLinks(docs), TagLinks(docs);
    assert BuildGraph(docs).value.links == cl + tl;
    TagLinkAt(docs, i, j);
    var k := TagCount(docs[..i]) + j;
    assert (cl + tl)[|cl| + k] == tl[k];
  }

  /** One link per document plus one per tag occurrence. */
  lemma LinkCount(docs: seq<Document>)
    requires docs != []
    ensures |BuildGraph(docs).value.links| == |docs| + TagCount(docs)
  {
    TagLinksCount(docs);
  }

  lemma CategoryNodeExists(docs: seq<Document>, i: nat)
    requires i < |docs|
    ensures HasNode(BuildGraph(docs).value.nodes, NodeId(CategoryNode, docs[i].category))
  {
    var cats := UniqueCategories(docs);
    assert CategoryOccurs(docs, docs[i].category);
    var k :| 0 <= k < |cats| && cats[k] == docs[i].category;
    var n := CategoryNodes(cats)[k];
    assert n in BuildGraph(docs).value.nodes;
  }

  lemma DocumentNodeExists(docs: seq<Document>, i: nat)
    requires i < |docs|
    ensures HasNode(BuildGraph(docs).value.nodes, NodeId(DocumentNode, docs[i].id))
  {
    var cs := CategoryNodes(UniqueCategories(docs));
    var n := DocumentNodes(docs)[i];
    assert BuildGraph(docs).value.nodes[|cs| + i] == n;
  }

  lemma TagNodeExists(docs: seq<Document>, i: nat, j: nat)
    requires i < |docs| && j < |docs[i].tags|
    ensures HasNode(BuildGraph(docs).value.nodes, NodeId(TagNode, docs[i].tags[j]))
  {
    var tags := UniqueTags(docs);
    assert TagOccurs(docs, docs[i].tags[j]);
    var k :| 0 <= k < |tags| && tags[k] == docs[i].tags[j];
    var n := TagNodes(tags)[k];
    assert n in BuildGraph(docs).value.nodes;
  }

  /** Every link's source and target is the id of a node of the graph. */
  lemma LinksResolve(docs: seq<Document>)
    requires docs != []
    ensures var g := BuildGraph(docs).value;
      forall l :: l in g.links ==> HasNode(g.nodes, l.source) && HasNode(g.nodes, l.target)
  {
    var g := BuildGraph(docs).value;
    var cl := CategoryLinks(docs);
    forall l | l in g.links ensures HasNode(g.nodes, l.source) && HasNode(g.nodes, l.target) {
      if l in cl {
        var i :| 0 <= i < |cl| && cl[i] == l;
        CategoryNodeExists(docs, i);
        DocumentNodeExists(docs, i);
      } else {
        assert l in TagLinks(docs);
        TagLinksFrom(docs, l);
        var i, j :| 0 <= i < |docs| && 0 <= j < |docs[i].tags| &&
          l == VisualLink(NodeId(DocumentNode, docs[i].id), NodeId(TagNode, docs[i].tags[j]), DocumentTag);
        DocumentNodeExists(docs, i);
        TagNodeExists(docs, i, j);
      }
    }
  }

  // ---------------------------------------------------------------------
  // The viewport clamp

  function Max(a: real, b: real): real { if a >= b then a else b }
  function MinReal(a: real, b: real): real { if a <= b then a else b }

  /** `Math.max(r, Math.min(extent - r, v))`: the drawn centre along one axis. */
  function ClampCentre(r: real, extent: real, v: real): (c: real)
    ensures c >= r
    ensures extent >= 2.0 * r ==> r <= c <= extent - r
    ensures r <= v <= extent - r ==> c == v
    ensures extent < 2.0 * r ==> c == r
  {
    Max(r, MinReal(extent - r, v))
  }

  /** Clamping a centre that is already drawn inside the viewport leaves it there. */
  lemma ClampIdempotent(r: real, extent: real, v: real)
    ensures ClampCentre(r, extent, ClampCentre(r, extent, v)) == ClampCentre(r, extent, v)
  {
  }

  // ---------------------------------------------------------------------
  // Drag handlers

  /** A simulated node: its position and its pin (`fx`, `fy`; absent is `null`). */
  class SimNode {
    var x: real
    var y: real
    var fx: Option<real>
    var fy: Option<real>

    constructor (x0: real, y0: real)
      ensures x == x0 && y == y0 && fx.None? && fy.None?
    {
      x, y := x0, y0;
      fx, fy := None, None;
    }
  }

  /** The parts of the force simulation the drag handlers touch. */
  class Simulation {
    var alphaTarget: real
    /** Set by `restart()`: the simulation timer is running again. */
    var running: bool

    constructor ()
      ensures alphaTarget == 0.0 && running
    {
      alphaTarget, running := 0.0, true;
    }

    /**
     * `dragstarted`: `active` is the number of other drag gestures in
     * progress. The first gesture reheats the simulation; the node is pinned
     * where it is.
     */
    method DragStarted(d: SimNode, active: nat)
      modifies this, d
      ensures d.fx == Some(old(d.x)) && d.fy == Some(old(d.y))
      ensures d.x == old(d.x) && d.y == old(d.y)
      ensures active == 0 ==> alphaTarget == 0.3 && running
      ensures active > 0 ==> alphaTarget == old(alphaTarget) && running == old(running)
    {
      if active == 0 {
        alphaTarget := 0.3;
        running := true;
      }
      d.fx := Some(d.x);
      d.fy := Some(d.y);
    }

    /** `dragged`: the pin follows the pointer. */
    method Dragged(d: SimNode, px: real, py: real)
      modifies d
      ensures d.fx == Some(px) && d.fy == Some(py)
      ensures d.x == old(d.x) && d.y == old(d.y)
    {
      d.fx := Some(px);
      d.fy := Some(py);
    }

    /** `dragended`: the node is released; the last gesture lets the simulation cool. */
    method DragEnded(d: SimNode, active: nat)
      modifies this, d
      ensures d.fx.None? && d.fy.None?
      ensures d.x == old(d.x) && d.y == old(d.y)
      ensures active == 0 ==> alphaTarget == 0.0
      ensures active > 0 ==> alphaTarget == old(alphaTarget)
      ensures running == old(running)
    {
      if active == 0 {
        alphaTarget := 0.0;
      }
      d.fx := None;
      d.fy := None;
    }
  }
}
