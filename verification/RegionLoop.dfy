/** A model that meets every rule of src/bpmn/regions.ts although a loop re-enters its region behind the split: accepted
    regions have a single exit, but a single entry only up to loops (RegionRules.SideEntryIsPastJoin). */
module RegionLoop {
  import opened Prelude
  import opened Graphs
  import opened RegionRules

  function NodeOf(id: string, kind: NodeType): Node {
    Node(id, kind, "", None, None, false)
  }

  /** start -> split; split -> merge, join; merge -> join; join -> after; after -> merge, end. */
  function Outgoing(): map<string, seq<string>> {
    map["start" := ["split"], "split" := ["merge", "join"], "merge" := ["join"], "join" := ["after"],
        "after" := ["merge", "end"], "end" := []]
  }

  function Incoming(): map<string, seq<string>> {
    map["start" := [], "split" := ["start"], "merge" := ["split", "after"], "join" := ["split", "merge"],
        "after" := ["join"], "end" := ["after"]]
  }

  function Nodes(): seq<Node> {
    [NodeOf("start", StartEvent), NodeOf("split", ParallelGateway), NodeOf("merge", ExclusiveGateway),
     NodeOf("join", ParallelGateway), NodeOf("after", ExclusiveGateway), NodeOf("end", EndEvent)]
  }

  function Model(): Input {
    Input("", Nodes(), Outgoing(), Incoming(),
          map["start" := Nodes()[0], "split" := Nodes()[1], "merge" := Nodes()[2], "join" := Nodes()[3],
              "after" := Nodes()[4], "end" := Nodes()[5]])
  }

  function At(id: string): Vertex {
    Element(id)
  }

  /** Where the sequence flows of a node lead, with the virtual sink behind the end event. */
  function Next(id: string): seq<Vertex> {
    match id
      case "start" => [At("split")]
      case "split" => [At("merge"), At("join")]
      case "merge" => [At("join")]
      case "join" => [At("after")]
      case "after" => [At("merge"), At("end")]
      case "end" => [Sink]
      case _ => []
  }

  lemma {:induction false} ScopedAll(input: Input, ids: seq<string>)
    requires forall id <- ids :: input.InScope(id)
    ensures input.Scoped(ids) == ids
  {
    if ids != [] { ScopedAll(input, ids[1..]); }
  }

  lemma Flows(id: string)
    requires id in Outgoing()
    ensures Model().Outs(id) == Outgoing()[id] && Model().Ins(id) == Incoming()[id]
  {
    ScopedAll(Model(), Outgoing()[id]);
    ScopedAll(Model(), Incoming()[id]);
  }

  lemma StartOf()
    ensures Model().StartIn(Nodes()) == Some(Nodes()[0])
  {
  }

  lemma NodeFor(id: string) returns (n: Node)
    requires id in Outgoing()
    ensures n in Nodes() && n.id == id
  {
    var i := if id == "start" then 0 else if id == "split" then 1 else if id == "merge" then 2
             else if id == "join" then 3 else if id == "after" then 4 else 5;
    n := Nodes()[i];
  }

  lemma NodeFacts(n: Node)
    requires n in Nodes()
    ensures n.id in Outgoing() && Model().IsToken(n) && !Model().IsRouting(n)
  {
  }

  lemma NextOf(id: string, b: Vertex)
    requires id in Outgoing()
    ensures b in Next(id) <==> (b == Sink && Outgoing()[id] == []) || (b.Element? && b.id in Outgoing()[id])
  {
  }

  lemma EndsHere(n: Node)
    requires n in Nodes()
    ensures n.id in Outgoing() && (n.kind.EndEvent? <==> Outgoing()[n.id] == [])
  {
  }

  lemma FlowEdges(n: Node, b: Vertex)
    requires n in Nodes()
    ensures Model().TokenEdge(n, At(n.id), b) <==> b in Next(n.id)
  {
    EndsHere(n);
    Flows(n.id);
    NextOf(n.id, b);
    assert Model().Outs(n.id) == Outgoing()[n.id];
  }

  lemma VertexOf(v: Vertex)
    ensures Model().IsVertex(v) <==> v == Source || v == Sink || v.id in Outgoing()
  {
  }

  /** The edges of the model's control-flow graph. */
  lemma EdgeOf(a: Vertex, b: Vertex)
    ensures Model().CfgEdge(a, b) <==> (a == Source && b == At("start")) || (a.Element? && b in Next(a.id))
  {
    StartOf();
    VertexOf(a);
    VertexOf(b);
    forall n | n in Nodes() ensures Model().IsToken(n) && !Model().IsRouting(n) { NodeFacts(n); }
    if a.Element? && a.id in Outgoing() {
      var n := NodeFor(a.id);
      FlowEdges(n, b);
    }
    forall n | n in Nodes() && Model().TokenEdge(n, a, b) ensures a.Element? && b in Next(a.id) { FlowEdges(n, b); }
  }

  // ---- Any graph that represents the model -----------------------------------------------------

  predicate Leads(a: Vertex, b: Vertex) {
    (a == Source && b == At("start")) || (a.Element? && b in Next(a.id))
  }

  /** The vertices and edges of the model, and no others. */
  ghost predicate Shape(g: Cfg) {
    && g.WellFormed()
    && (forall v :: v in g.verts <==>
          v == Source || v == Sink || v.id in {"start", "split", "merge", "join", "after", "end"})
    && forall a, b :: g.Edge(a, b) <==> Leads(a, b)
  }

  lemma HasShape(g: Cfg)
    requires Model().Represents(g)
    ensures Shape(g)
  {
    forall v
      ensures v in g.verts <==>
              v == Source || v == Sink || v.id in {"start", "split", "merge", "join", "after", "end"}
    {
      VertexOf(v);
      assert v in g.verts <==> Model().IsVertex(v);
    }
    forall a, b ensures g.Edge(a, b) <==> Leads(a, b) {
      EdgeOf(a, b);
      assert g.Edge(a, b) <==> Model().CfgEdge(a, b);
    }
  }

  /** A path that follows edges of the model. */
  ghost predicate Follows(p: seq<Vertex>) {
    |p| > 0 && forall i :: 0 <= i < |p| - 1 ==> Leads(p[i], p[i + 1])
  }

  lemma PathOf(g: Cfg, p: seq<Vertex>)
    requires Shape(g) && Follows(p)
    ensures g.PathBetween(p, p[0], p[|p| - 1])
  {
  }

  /** If the edges out of `inside` all leave from `d`, then `d` is on every path from the source to the outside. */
  lemma DominatedBy(g: Cfg, inside: set<Vertex>, d: Vertex, v: Vertex)
    requires Shape(g) && Source in inside && v !in inside
    requires forall x <- inside :: x != d ==>
               (x == Source && At("start") in inside) || (x.Element? && forall y <- Next(x.id) :: y in inside)
    ensures g.Dominates(Source, d, v)
  {
    forall x, y | x in inside && x != d && g.Edge(x, y) ensures y in inside { assert Leads(x, y); }
    forall p | g.PathBetween(p, Source, v) ensures d in p { LeavesThrough(g, inside, d, p, |p| - 1); }
  }

  function Route(): seq<Vertex> {
    [Source, At("start"), At("split"), At("merge"), At("join"), At("after"), At("end"), Sink]
  }

  lemma Prefix(g: Cfg, k: nat)
    requires Shape(g) && k < 8
    ensures g.PathBetween(Route()[..k + 1], Source, Route()[k])
  {
  }

  /** The split immediately dominates the join. */
  lemma SplitDominates(g: Cfg)
    requires Shape(g)
    ensures ImmediateDom(g, At("split"), At("join")) && Dom(g, At("split"), At("merge"))
    ensures !Dom(g, At("split"), At("start"))
  {
    Prefix(g, 1);
    Prefix(g, 3);
    Prefix(g, 4);
    DominatedBy(g, {Source, At("start"), At("split")}, At("split"), At("join"));
    DominatedBy(g, {Source, At("start"), At("split")}, At("split"), At("merge"));
    var p := [Source, At("start"), At("split"), At("join")];
    PathOf(g, p);
    forall d | d != At("join") && g.Dominates(Source, d, At("join")) ensures g.Dominates(Source, d, At("split")) {
      assert d in p;
      if d == At("start") { DominatedBy(g, {Source, At("start")}, At("start"), At("split")); }
    }
    assert Route()[..2] == [Source, At("start")];
  }

  /** If the edges out of `inside` all leave from `d`, then `d` is on every path from `v` inside to the sink. */
  lemma PostDominatedBy(g: Cfg, inside: set<Vertex>, d: Vertex, v: Vertex)
    requires Shape(g) && v in inside && Sink !in inside
    requires forall x <- inside :: x != d ==> x.Element? && forall y <- Next(x.id) :: y in inside
    ensures g.Reversed().Dominates(Sink, d, v)
  {
    forall x, y | x in inside && x != d && g.Edge(x, y) ensures y in inside { assert Leads(x, y); }
    forall p | g.PathBetween(p, v, Sink) ensures d in p { LeavesThrough(g, inside, d, p, |p| - 1); }
    PostDomination(g, Sink, d, v);
  }

  /** A way out that misses `d` shows that `d` does not post-dominate its start. */
  lemma WayOut(g: Cfg, p: seq<Vertex>, d: Vertex)
    requires Shape(g) && Follows(p) && p[|p| - 1] == Sink
    ensures g.Reversed().Reaches(Sink, p[0])
    ensures d !in p ==> !g.Reversed().Dominates(Sink, d, p[0])
  {
    PathOf(g, p);
    ReversePath(g, p, p[0], Sink);
    PostDomination(g, Sink, d, p[0]);
  }

  lemma JoinOnWayOut(g: Cfg)
    requires Shape(g)
    ensures PostDom(g, At("join"), At("merge")) && PostDom(g, At("join"), At("split"))
  {
    WayOut(g, [At("split"), At("join"), At("after"), At("end"), Sink], At("merge"));
    WayOut(g, [At("merge"), At("join"), At("after"), At("end"), Sink], At("split"));
    PostDominatedBy(g, {At("split"), At("merge"), At("join")}, At("join"), At("split"));
    PostDominatedBy(g, {At("merge"), At("join")}, At("join"), At("merge"));
  }

  lemma BehindJoin(g: Cfg, d: Vertex)
    requires Shape(g) && d in {At("join"), At("after"), At("end"), Sink}
    ensures g.Reversed().Dominates(Sink, d, At("join"))
  {
    PostDomination(g, Sink, d, At("join"));
    if d == At("after") { PostDominatedBy(g, {At("join"), At("after")}, d, At("join")); }
    if d == At("end") { PostDominatedBy(g, {At("join"), At("after"), At("merge"), At("end")}, d, At("join")); }
  }

  /** The join immediately post-dominates the split. */
  lemma JoinPostDominates(g: Cfg)
    requires Shape(g)
    ensures ImmediatePostDom(g, At("join"), At("split"))
    ensures PostDom(g, At("join"), At("merge"))
  {
    JoinOnWayOut(g);
    forall d | d != At("split") && g.Reversed().Dominates(Sink, d, At("split"))
      ensures g.Reversed().Dominates(Sink, d, At("join"))
    {
      WayOut(g, [At("split"), At("join"), At("after"), At("end"), Sink], d);
      BehindJoin(g, d);
    }
  }

  lemma Members(g: Cfg, x: Vertex)
    requires Shape(g)
    ensures Member(g, At("split"), At("join"), x) <==> x in {At("split"), At("merge"), At("join")}
  {
    SplitDominates(g);
    JoinPostDominates(g);
    WayOut(g, [At("after"), At("end"), Sink], At("join"));
    WayOut(g, [At("end"), Sink], At("join"));
  }

  /** What rules 1 to 6 look up about the region. */
  predicate Fits(input: Input) {
    && "join" in input.nodeById && input.nodeById["join"].kind == ParallelGateway && |input.Ins("join")| >= 2
    && "merge" in input.nodeById && input.nodeById["merge"].kind == ExclusiveGateway
    && input.Outs("split") == ["merge", "join"] && input.Outs("merge") == ["join"]
  }

  lemma ModelFits()
    ensures Fits(Model())
  {
    Flows("split");
    Flows("merge");
    Flows("join");
  }

  lemma RegionOk(input: Input, g: Cfg, s: Node)
    requires Shape(g) && s.id == "split" && s.kind == ParallelGateway && Fits(input)
    ensures SplitOk(input, g, s, "join")
  {
    SplitDominates(g);
    JoinPostDominates(g);
    Members(g, At("merge"));
    Members(g, At("join"));
    forall x ensures ConfinedAt(input, g, s, "join", x) && MergeSafeAt(input, g, s, "join", x) { Members(g, x); }
  }

  /** Only `split` forks and only `join` merges concurrently. */
  lemma Gateways(n: Node)
    requires n in Nodes()
    ensures Model().IsSplit(n) <==> n.id == "split"
    ensures IsSplitType(n.kind) && |Model().Ins(n.id)| > 1 ==> n.id == "join"
  {
    NodeFacts(n);
    GatewayTypes(n);
    Degrees(Model());
    GatewayBy(Model(), n);
  }

  lemma Degrees(input: Input)
    requires input == Model()
    ensures |input.Outs("split")| == 2 && |input.Ins("split")| == 1 && |input.Outs("join")| == 1
  {
    Flows("split");
    Flows("join");
  }

  lemma GatewayBy(input: Input, n: Node)
    requires |input.Outs("split")| == 2 && |input.Ins("split")| == 1 && |input.Outs("join")| == 1
    requires input.IsToken(n) && (IsSplitType(n.kind) <==> n.id == "split" || n.id == "join")
    ensures input.IsSplit(n) <==> n.id == "split"
    ensures IsSplitType(n.kind) && |input.Ins(n.id)| > 1 ==> n.id == "join"
  {
  }

  lemma GatewayTypes(n: Node)
    requires n in Nodes()
    ensures IsSplitType(n.kind) <==> n.id == "split" || n.id == "join"
  {
  }

  lemma {:induction false} NoSplits(input: Input, nodes: seq<Node>)
    requires forall n <- nodes :: !input.IsSplit(n)
    ensures SplitsIn(input, nodes) == []
  {
    if nodes != [] { NoSplits(input, nodes[1..]); }
  }

  lemma SecondSplits(input: Input, nodes: seq<Node>)
    requires |nodes| >= 2 && !input.IsSplit(nodes[0]) && input.IsSplit(nodes[1])
    requires forall i :: 2 <= i < |nodes| ==> !input.IsSplit(nodes[i])
    ensures SplitsIn(input, nodes) == [nodes[1]]
  {
    var rest := nodes[1..];
    forall n | n in rest[1..] ensures !input.IsSplit(n) {
      var i :| 0 <= i < |rest[1..]| && rest[1..][i] == n;
      assert nodes[i + 2] == n;
    }
    NoSplits(input, rest[1..]);
    assert SplitsIn(input, rest) == [nodes[1]];
  }

  lemma OneSplit()
    ensures SplitsIn(Model(), Nodes()) == [Nodes()[1]]
  {
    forall i | 0 <= i < 6 ensures Model().IsSplit(Nodes()[i]) <==> i == 1 { Gateways(Nodes()[i]); }
    SecondSplits(Model(), Nodes());
  }

  lemma OneRegion(input: Input, g: Cfg, s: Node)
    requires Shape(g) && s.id == "split" && s.kind == ParallelGateway && Fits(input)
    requires SplitsIn(input, input.scopeNodes) == [s] && JoinsComplete(input, ["join"])
    ensures Accepts(input, g, ["join"])
  {
    RegionOk(input, g, s);
  }

  lemma JoinClaimed()
    ensures JoinsComplete(Model(), ["join"])
  {
    forall n | n in Nodes() ensures IsSplitType(n.kind) && |Model().Ins(n.id)| > 1 ==> n.id in ["join"] { Gateways(n); }
  }

  /** All seven rules accept the model, and yet an edge from outside enters its region behind the split. */
  lemma AcceptedButReentered(g: Cfg)
    requires Model().Represents(g)
    ensures Model().Validated() && Accepts(Model(), g, ["join"]) && Reentered(g)
  {
    AllValidated();
    HasShape(g);
    Accepted(g);
    EntersBehindSplit(g);
  }

  ghost predicate Reentered(g: Cfg) {
    && Member(g, At("split"), At("join"), At("merge")) && !Member(g, At("split"), At("join"), At("after"))
    && g.Edge(At("after"), At("merge"))
  }

  lemma EntersBehindSplit(g: Cfg)
    requires Shape(g)
    ensures Reentered(g)
  {
    Members(g, At("merge"));
    Members(g, At("after"));
    assert Leads(At("after"), At("merge"));
  }

  lemma Accepted(g: Cfg)
    requires Shape(g)
    ensures Accepts(Model(), g, ["join"])
  {
    OneSplit();
    JoinClaimed();
    ModelFits();
    OneRegion(Model(), g, Nodes()[1]);
  }

  lemma NoBoundaryEvents(id: string)
    requires Model().InScope(id)
    ensures !Model().nodeById[id].kind.BoundaryEvent?
  {
  }

  lemma NodesById(n: Node)
    requires n in Nodes()
    ensures n.id in Model().nodeById && Model().nodeById[n.id] == n
  {
  }

  lemma AllValidated()
    ensures Model().Validated()
  {
    forall n | n in Nodes() ensures n.id in Model().nodeById && Model().nodeById[n.id] == n { NodesById(n); }
    forall id, t | t in Model().Outs(id) ensures !Model().nodeById[t].kind.BoundaryEvent? { NoBoundaryEvents(t); }
  }
}
