/** `validateRegions` of src/bpmn/regions.ts: build the control-flow graph, compute both dominator trees,
    match splits with joins and check the region rules. */
module Regions {
  import opened Prelude
  import opened Graphs
  import opened Dominators
  import opened RegionRules
  import opened RegionMeaning

  datatype Issue =
    | NoMatchingJoin(split: string)
    | NotSingleEntry(split: string, join: string)
    | JoinMatchedTwice(split: string, join: string)
    | UncontrolledMerge(element: string, split: string)
    | LeavesRegion(element: string, target: string)
    | UnmatchedJoin(element: string)
    | RegionsOverlap(split: string, other: string)

  datatype Region = Region(splitId: string, joinId: string, isAnd: bool, enclosingScopeId: string)

  // ---- The control-flow graph ------------------------------------------------------------

  /** The vertex set and the two adjacency maps that `addEdge` fills in place. */
  class CfgBuilder {
    var verts: set<Vertex>
    var vertexList: seq<Vertex>
    var succ: Adjacency
    var pred: Adjacency
    ghost var edges: set<(Vertex, Vertex)>

    ghost predicate Valid()
      reads this
    {
      && (forall v :: v in vertexList <==> v in verts)
      && (forall a, b :: (a, b) in edges ==> a in verts && b in verts)
      && (forall a, b {:trigger b in Neighbours(succ, a)} :: b in Neighbours(succ, a) <==> (a, b) in edges)
      && (forall a, b {:trigger a in Neighbours(pred, b)} :: a in Neighbours(pred, b) <==> (a, b) in edges)
    }

    constructor ()
      ensures Valid() && verts == {Source, Sink} && edges == {}
    {
      verts, vertexList := {Source, Sink}, [Source, Sink];
      succ, pred, edges := map[], map[], {};
    }

    method AddVertex(v: Vertex)
      requires Valid()
      modifies this
      ensures Valid() && verts == old(verts) + {v} && edges == old(edges)
    {
      if v !in verts {
        verts, vertexList := verts + {v}, vertexList + [v];
      }
    }

    method AddEdge(a: Vertex, b: Vertex)
      requires Valid()
      modifies this
      ensures Valid() && verts == old(verts)
      ensures edges == old(edges) + if a in verts && b in verts then {(a, b)} else {}
    {
      if a in verts && b in verts {
        var succ', pred' := succ[a := Neighbours(succ, a) + [b]], pred[b := Neighbours(pred, b) + [a]];
        ghost var edges' := edges + {(a, b)};
        forall x, y ensures y in Neighbours(succ', x) <==> (x, y) in edges' {
          assert y in Neighbours(succ, x) <==> (x, y) in edges;
        }
        forall x, y ensures x in Neighbours(pred', y) <==> (x, y) in edges' {
          assert x in Neighbours(pred, y) <==> (x, y) in edges;
        }
        succ, pred, edges := succ', pred', edges';
      }
    }

    /** The edges along the in-scope sequence flows of one node. */
    method AddFlows(input: Input, id: string, mayEnd: bool)
      requires Valid() && Sink in verts
      modifies this
      ensures Valid() && verts == old(verts)
      ensures forall a, b :: (a, b) in edges <==>
                (a, b) in old(edges) || (a in verts && b in verts && input.FlowEdge(id, mayEnd, a, b))
    {
      var outs := input.Outs(id);
      if mayEnd || |outs| == 0 {
        AddEdge(Element(id), Sink);
      }
      for k := 0 to |outs|
        invariant Valid() && verts == old(verts)
        invariant forall a, b :: (a, b) in edges <==>
                    || (a, b) in old(edges)
                    || (a in verts && b in verts && a == Element(id) && b == Sink && (mayEnd || outs == []))
                    || (a in verts && b in verts && a == Element(id) && b.Element? && b.id in outs[..k])
      {
        assert outs[..k + 1] == outs[..k] + [outs[k]];
        AddEdge(Element(id), Element(outs[k]));
      }
      assert outs[..|outs|] == outs;
    }
  }

  ghost predicate VertexOf(input: Input, nodes: seq<Node>, routing: bool, v: Vertex) {
    exists n :: n in nodes && (if routing then input.IsRouting(n) else input.IsToken(n)) && v == Element(n.id)
  }

  ghost predicate EdgeOf(input: Input, nodes: seq<Node>, routing: bool, a: Vertex, b: Vertex) {
    exists n :: n in nodes && (if routing then input.IsRouting(n) && input.BoundaryEdge(n, a, b)
                               else input.IsToken(n) && input.TokenEdge(n, a, b))
  }

  lemma VertexOfSnoc(input: Input, nodes: seq<Node>, i: nat, routing: bool, v: Vertex)
    requires i < |nodes|
    ensures VertexOf(input, nodes[..i + 1], routing, v) <==>
              || VertexOf(input, nodes[..i], routing, v)
              || ((if routing then input.IsRouting(nodes[i]) else input.IsToken(nodes[i])) && v == Element(nodes[i].id))
  {
  }

  lemma EdgeOfSnoc(input: Input, nodes: seq<Node>, i: nat, routing: bool, a: Vertex, b: Vertex)
    requires i < |nodes|
    ensures EdgeOf(input, nodes[..i + 1], routing, a, b) <==>
              || EdgeOf(input, nodes[..i], routing, a, b)
              || (if routing then input.IsRouting(nodes[i]) && input.BoundaryEdge(nodes[i], a, b)
                  else input.IsToken(nodes[i]) && input.TokenEdge(nodes[i], a, b))
  {
  }

  method AddVertices(input: Input, builder: CfgBuilder)
    requires builder.Valid() && builder.verts == {Source, Sink} && builder.edges == {}
    modifies builder
    ensures builder.Valid() && builder.edges == {}
    ensures forall v :: v in builder.verts <==> input.IsVertex(v)
  {
    var nodes := input.scopeNodes;
    for i := 0 to |nodes|
      invariant builder.Valid() && builder.edges == {}
      invariant forall v :: v in builder.verts <==> v == Source || v == Sink || VertexOf(input, nodes[..i], false, v)
    {
      forall v { VertexOfSnoc(input, nodes, i, false, v); }
      if input.IsToken(nodes[i]) { builder.AddVertex(Element(nodes[i].id)); }
    }
    for i := 0 to |nodes|
      invariant builder.Valid() && builder.edges == {}
      invariant forall v :: v in builder.verts <==>
                  || v == Source || v == Sink
                  || VertexOf(input, nodes, false, v) || VertexOf(input, nodes[..i], true, v)
    {
      forall v { VertexOfSnoc(input, nodes, i, true, v); }
      if input.IsRouting(nodes[i]) { builder.AddVertex(Element(nodes[i].id)); }
    }
    assert nodes[..|nodes|] == nodes;
  }

  ghost predicate Between(verts: set<Vertex>, a: Vertex, b: Vertex) {
    a in verts && b in verts
  }

  method AddTokenEdges(input: Input, builder: CfgBuilder)
    requires builder.Valid() && Sink in builder.verts
    modifies builder
    ensures builder.Valid() && builder.verts == old(builder.verts)
    ensures forall a, b :: (a, b) in builder.edges <==>
              (a, b) in old(builder.edges)
                  || (Between(builder.verts, a, b) && EdgeOf(input, input.scopeNodes, false, a, b))
  {
    var nodes := input.scopeNodes;
    for i := 0 to |nodes|
      invariant builder.Valid() && builder.verts == old(builder.verts)
      invariant forall a, b :: (a, b) in builder.edges <==>
                  (a, b) in old(builder.edges)
                      || (Between(builder.verts, a, b) && EdgeOf(input, nodes[..i], false, a, b))
    {
      forall a, b { EdgeOfSnoc(input, nodes, i, false, a, b); }
      if input.IsToken(nodes[i]) { builder.AddFlows(input, nodes[i].id, nodes[i].kind.EndEvent?); }
    }
    assert nodes[..|nodes|] == nodes;
  }

  method AddBoundaryEdges(input: Input, builder: CfgBuilder)
    requires builder.Valid() && Sink in builder.verts
    modifies builder
    ensures builder.Valid() && builder.verts == old(builder.verts)
    ensures forall a, b :: (a, b) in builder.edges <==>
              (a, b) in old(builder.edges)
                  || (Between(builder.verts, a, b) && EdgeOf(input, input.scopeNodes, true, a, b))
  {
    var nodes := input.scopeNodes;
    for i := 0 to |nodes|
      invariant builder.Valid() && builder.verts == old(builder.verts)
      invariant forall a, b :: (a, b) in builder.edges <==>
                  (a, b) in old(builder.edges)
                      || (Between(builder.verts, a, b) && EdgeOf(input, nodes[..i], true, a, b))
    {
      forall a, b { EdgeOfSnoc(input, nodes, i, true, a, b); }
      if input.IsRouting(nodes[i]) {
        if nodes[i].attachedTo.Some? && Element(nodes[i].attachedTo.value) in builder.verts {
          builder.AddEdge(Element(nodes[i].attachedTo.value), Element(nodes[i].id));
        }
        builder.AddFlows(input, nodes[i].id, false);
      }
    }
    assert nodes[..|nodes|] == nodes;
  }

  method BuildCfg(input: Input, start: Node) returns (g: Cfg, vertexList: seq<Vertex>)
    requires input.StartIn(input.scopeNodes) == Some(start)
    ensures input.Represents(g)
    ensures forall v :: v in vertexList <==> v in g.verts
  {
    var builder := new CfgBuilder();
    AddVertices(input, builder);
    builder.AddEdge(Source, Element(start.id));
    AddTokenEdges(input, builder);
    AddBoundaryEdges(input, builder);
    g := Cfg(builder.verts, builder.succ, builder.pred);
    vertexList := builder.vertexList;
    forall a, b ensures g.Edge(a, b) <==> input.CfgEdge(a, b) {
      assert b in Neighbours(builder.succ, a) <==> (a, b) in builder.edges;
      assert EdgeOf(input, input.scopeNodes, false, a, b) <==>
             exists n :: n in input.scopeNodes && input.IsToken(n) && input.TokenEdge(n, a, b);
      assert EdgeOf(input, input.scopeNodes, true, a, b) <==>
             exists n :: n in input.scopeNodes && input.IsRouting(n) && input.BoundaryEdge(n, a, b);
    }
  }

  // ---- Dominance queries -----------------------------------------------------------------

  lemma ParentIsImmediate(g: Cfg, n: Numbering, t: Tree, b: Vertex)
    requires n.Rooted(t) && b in t && b != n.entry
    requires forall a, c :: c in t ==> (a in n.Chain(t, c) <==> g.Dominates(n.entry, a, c))
    ensures t[b] in t && ImmediateDominator(g, n.entry, t[b], b)
  {
    var a := Parent(t, b);
    assert a in t && n.Rank(a) < n.Rank(b);
    assert a in n.Chain(t, a);
    forall d | d != b && g.Dominates(n.entry, d, b) ensures g.Dominates(n.entry, d, a) {
      assert d in n.Chain(t, b);
    }
  }

  /** The closures `dom` and `postdom`: climb from `b` until `a` or the root is met. */
  method Above(t: Tree, ghost n: Numbering, a: Vertex, b: Vertex) returns (r: bool)
    requires n.Rooted(t)
    ensures r <==> a == b || (b in t && a in n.Chain(t, b))
  {
    var x := b;
    while x in t
      invariant x in t <==> b in t
      invariant b in t ==> (a in n.Chain(t, b) <==> a in n.Chain(t, x))
      invariant b !in t ==> x == b
      decreases n.Rank(x)
    {
      assert Parent(t, x) in t;
      if x == a { return true; }
      if t[x] == x { break; }
      x := t[x];
    }
    r := a == b;
  }

  /** Both dominator trees of the graph. */
  datatype Trees = Trees(dom: Tree, post: Tree, ghost domNum: Numbering, ghost postNum: Numbering) {
    ghost predicate For(g: Cfg) {
      && domNum.entry == Source && domNum.Rooted(dom)
      && (forall v :: v in dom <==> g.Reaches(Source, v))
      && (forall a, b :: b in dom ==> (a in domNum.Chain(dom, b) <==> g.Dominates(Source, a, b)))
      && postNum.entry == Sink && postNum.Rooted(post)
      && (forall v :: v in post <==> g.Reversed().Reaches(Sink, v))
      && (forall a, b :: b in post ==> (a in postNum.Chain(post, b) <==> g.Reversed().Dominates(Sink, a, b)))
    }
  }

  method Dominated(g: Cfg, trees: Trees, a: Vertex, b: Vertex) returns (r: bool)
    requires trees.For(g)
    ensures r <==> b == a || Dom(g, a, b)
  {
    r := Above(trees.dom, trees.domNum, a, b);
  }

  method PostDominated(g: Cfg, trees: Trees, a: Vertex, b: Vertex) returns (r: bool)
    requires trees.For(g)
    ensures r <==> b == a || PostDom(g, a, b)
  {
    r := Above(trees.post, trees.postNum, a, b);
  }

  method IsMember(g: Cfg, trees: Trees, s: Vertex, j: Vertex, x: Vertex) returns (r: bool)
    requires trees.For(g)
    ensures r <==> Member(g, s, j, x)
  {
    var above := Dominated(g, trees, s, x);
    var below := PostDominated(g, trees, j, x);
    r := x in g.verts && x != Source && x != Sink && above && below;
  }

  /** The vertices of a region, in vertex order. */
  method Members(g: Cfg, trees: Trees, vertexList: seq<Vertex>, s: Vertex, j: Vertex) returns (members: seq<Vertex>)
    requires trees.For(g) && forall v :: v in vertexList <==> v in g.verts
    ensures forall x :: x in members <==> Member(g, s, j, x)
  {
    members := [];
    for i := 0 to |vertexList|
      invariant forall x :: x in members <==> x in vertexList[..i] && Member(g, s, j, x)
    {
      assert vertexList[..i + 1] == vertexList[..i] + [vertexList[i]];
      var r := IsMember(g, trees, s, j, vertexList[i]);
      if r { members := members + [vertexList[i]]; }
    }
    assert vertexList[..|vertexList|] == vertexList;
  }

  // ---- Split matching --------------------------------------------------------------------

  /** The join of a split, or the reason why it has none. */
  method MatchJoin(input: Input, g: Cfg, trees: Trees, s: Node) returns (join: Option<string>, issues: seq<Issue>)
    requires trees.For(g)
    ensures join.Some? ==> issues == [] && Matched(input, g, s, join.value)
    ensures join.None? ==> issues != [] && forall j :: !Matched(input, g, s, j)
  {
    var sv := Element(s.id);
    join, issues := None, [NoMatchingJoin(s.id)];
    if sv !in trees.post { return; }
    var jv := trees.post[sv];
    ParentIsImmediate(g.Reversed(), trees.postNum, trees.post, sv);
    forall j | Matched(input, g, s, j) ensures jv == Element(j) {
      ImmediateUnique(g.Reversed(), Sink, jv, Element(j), sv);
    }
    if !jv.Element? || jv.id !in input.nodeById { return; }
    if input.nodeById[jv.id].kind != s.kind || |input.Ins(jv.id)| < 2 { return; }
    issues := [NotSingleEntry(s.id, jv.id)];
    if jv !in trees.dom { return; }
    ParentIsImmediate(g, trees.domNum, trees.dom, jv);
    if trees.dom[jv] != sv {
      forall j ensures !Matched(input, g, s, j) {
        if Matched(input, g, s, j) { ImmediateUnique(g, Source, sv, trees.dom[jv], jv); }
      }
      return;
    }
    join, issues := Some(jv.id), [];
  }

  /** Rule 6: flag every uncontrolled merge inside the region. */
  method CheckMerges(input: Input, g: Cfg, s: Node, j: string, members: seq<Vertex>) returns (issues: seq<Issue>)
    requires forall x :: x in members <==> Member(g, Element(s.id), Element(j), x)
    ensures issues == [] <==> forall x {:trigger MergeSafeAt(input, g, s, j, x)} :: MergeSafeAt(input, g, s, j, x)
  {
    issues := [];
    for i := 0 to |members|
      invariant issues == [] <==> forall k :: 0 <= k < i ==> MergeSafeAt(input, g, s, j, members[k])
    {
      var x := members[i];
      assert Member(g, Element(s.id), Element(j), x);
      if x != Element(j) && x != Element(s.id) && !MergeSafe(input, x.id) {
        assert !MergeSafeAt(input, g, s, j, x);
        issues := issues + [UncontrolledMerge(x.id, s.id)];
      }
    }
    forall x | x !in members ensures MergeSafeAt(input, g, s, j, x) {}
  }

  /** Rule 5: flag every sequence flow that leaves the region other than to the join. */
  method CheckConfinement(input: Input, g: Cfg, s: Node, j: string, members: seq<Vertex>) returns (issues: seq<Issue>)
    requires forall x :: x in members <==> Member(g, Element(s.id), Element(j), x)
    ensures issues == [] <==> forall x {:trigger ConfinedAt(input, g, s, j, x)} :: ConfinedAt(input, g, s, j, x)
  {
    issues := [];
    for i := 0 to |members|
      invariant issues == [] <==> forall k :: 0 <= k < i ==> ConfinedAt(input, g, s, j, members[k])
    {
      var x := members[i];
      assert Member(g, Element(s.id), Element(j), x);
      if x != Element(j) {
        var outs := input.Outs(x.id);
        ghost var before := issues;
        for k := 0 to |outs|
          invariant issues == [] <==> before == [] && forall m :: 0 <= m < k ==>
                    Element(outs[m]) in members || outs[m] == j
        {
          if Element(outs[k]) !in members && outs[k] != j {
            issues := issues + [LeavesRegion(x.id, outs[k])];
          }
        }
        assert ConfinedAt(input, g, s, j, x) <==> forall m :: 0 <= m < |outs| ==>
            Element(outs[m]) in members || outs[m] == j;
      }
    }
    forall x | x !in members ensures ConfinedAt(input, g, s, j, x) {}
  }

  lemma JoinsUnique(input: Input, g: Cfg, splits: seq<Node>, joins: seq<string>, joins': seq<string>)
    requires JoinsOk(input, g, splits, joins) && JoinsOk(input, g, splits, joins')
    ensures joins == joins'
  {
    forall i | 0 <= i < |splits| ensures joins[i] == joins'[i] {
      assert SplitOk(input, g, splits[i], joins[i]) && SplitOk(input, g, splits[i], joins'[i]);
      ImmediateUnique(g.Reversed(), Sink, Element(joins[i]), Element(joins'[i]), Element(splits[i].id));
    }
  }

  lemma JoinsOkPrefix(input: Input, g: Cfg, splits: seq<Node>, joins: seq<string>, i: nat)
    requires i < |splits| && JoinsOk(input, g, splits[..i + 1], joins)
    ensures JoinsOk(input, g, splits[..i], joins[..i]) && SplitOk(input, g, splits[i], joins[i])
            && joins[i] !in joins[..i]
  {
  }

  lemma JoinsOkExtend(input: Input, g: Cfg, splits: seq<Node>, joins: seq<string>, i: nat, j: string)
    requires i < |splits| && JoinsOk(input, g, splits[..i], joins) && SplitOk(input, g, splits[i], j) && j !in joins
    ensures JoinsOk(input, g, splits[..i + 1], joins + [j])
  {
  }

  ghost predicate NoJoins(input: Input, g: Cfg, splits: seq<Node>) {
    forall joins :: !JoinsOk(input, g, splits, joins)
  }

  /** Once a prefix of the splits is rejected, or the next split is, no longer prefix is accepted. */
  lemma StaysRejected(input: Input, g: Cfg, splits: seq<Node>, i: nat)
    requires i < |splits|
    requires NoJoins(input, g, splits[..i]) || forall j :: !SplitOk(input, g, splits[i], j)
    ensures NoJoins(input, g, splits[..i + 1])
  {
    var longer := splits[..i + 1];
    forall joins ensures !JoinsOk(input, g, longer, joins) {
      if JoinsOk(input, g, longer, joins) { JoinsOkPrefix(input, g, splits, joins, i); }
    }
  }

  lemma TakenJoinRejected(input: Input, g: Cfg, splits: seq<Node>, joins: seq<string>, i: nat, j: string)
    requires i < |splits| && JoinsOk(input, g, splits[..i], joins) && j in joins && Matched(input, g, splits[i], j)
    ensures NoJoins(input, g, splits[..i + 1])
  {
    var longer := splits[..i + 1];
    forall joins' ensures !JoinsOk(input, g, longer, joins') {
      if JoinsOk(input, g, longer, joins') {
        JoinsOkPrefix(input, g, splits, joins', i);
        JoinsUnique(input, g, splits[..i], joins, joins'[..i]);
        ImmediateUnique(g.Reversed(), Sink, Element(j), Element(joins'[i]), Element(splits[i].id));
      }
    }
  }

  lemma BadJoinRejected(input: Input, g: Cfg, s: Node, j: string)
    requires Matched(input, g, s, j) && !SplitOk(input, g, s, j)
    ensures forall j' :: !SplitOk(input, g, s, j')
  {
    forall j' ensures !SplitOk(input, g, s, j') {
      if SplitOk(input, g, s, j') {
        ImmediateUnique(g.Reversed(), Sink, Element(j), Element(j'), Element(s.id));
      }
    }
  }

  /** One split: match it, claim its join, check the members. `claimed` maps a join to its split. */
  method CheckSplit(input: Input, g: Cfg, trees: Trees, vertexList: seq<Vertex>, s: Node, claimed: map<string, string>)
    returns (join: Option<string>, issues: seq<Issue>)
    requires trees.For(g) && forall v :: v in vertexList <==> v in g.verts
    ensures join.Some? ==> Matched(input, g, s, join.value) && join.value !in claimed
    ensures join.Some? ==> (issues == [] <==> SplitOk(input, g, s, join.value))
    ensures join.None? ==> issues != []
    ensures join.None? ==>
            (forall j :: !Matched(input, g, s, j)) || (exists j :: j in claimed && Matched(input, g, s, j))
  {
    join, issues := MatchJoin(input, g, trees, s);
    if join.Some? {
      var j := join.value;
      if j in claimed {
        return None, [JoinMatchedTwice(s.id, j)];
      }
      var members := Members(g, trees, vertexList, Element(s.id), Element(j));
      var merges := CheckMerges(input, g, s, j, members);
      var leaves := CheckConfinement(input, g, s, j, members);
      issues := merges + leaves;
    }
  }

  /** After `i` splits: either all of them are matched, or no assignment of joins works any more. */
  ghost predicate Matching(input: Input, g: Cfg, splits: seq<Node>, claimed: set<string>, regions: seq<Region>,
                           clean: bool) {
    if clean then
      && JoinsOk(input, g, splits, JoinsOf(regions)) && RegionsOf(input, splits, regions)
      && forall j :: j in claimed <==> j in JoinsOf(regions)
    else
      NoJoins(input, g, splits)
  }

  lemma RejectSplit(input: Input, g: Cfg, splits: seq<Node>, i: nat, claimed: set<string>, regions: seq<Region>,
                    clean: bool)
    requires i < |splits| && Matching(input, g, splits[..i], claimed, regions, clean)
    requires || !clean
             || (forall j :: !Matched(input, g, splits[i], j))
             || (exists j :: j in claimed && Matched(input, g, splits[i], j))
    ensures NoJoins(input, g, splits[..i + 1])
  {
    if clean && exists j :: j in claimed && Matched(input, g, splits[i], j) {
      var j :| j in claimed && Matched(input, g, splits[i], j);
      TakenJoinRejected(input, g, splits, JoinsOf(regions), i, j);
    } else {
      StaysRejected(input, g, splits, i);
    }
  }

  lemma AcceptSplit(input: Input, g: Cfg, splits: seq<Node>, i: nat, claimed: set<string>, regions: seq<Region>,
                    r: Region,
                    clean: bool, ok: bool)
    requires i < |splits| && Matching(input, g, splits[..i], claimed, regions, clean)
    requires r == Region(splits[i].id, r.joinId, splits[i].kind.ParallelGateway?, input.scopeId)
    requires Matched(input, g, splits[i], r.joinId) && r.joinId !in claimed
             && (ok <==> SplitOk(input, g, splits[i], r.joinId))
    ensures Matching(input, g, splits[..i + 1], claimed + {r.joinId}, regions + [r], clean && ok)
  {
    JoinsOfSnoc(regions, r);
    if clean && ok {
      JoinsOkExtend(input, g, splits, JoinsOf(regions), i, r.joinId);
      assert splits[..i + 1] == splits[..i] + [splits[i]];
    } else {
      if !ok { BadJoinRejected(input, g, splits[i], r.joinId); }
      StaysRejected(input, g, splits, i);
    }
  }

  method MatchSplits(input: Input, g: Cfg, trees: Trees, vertexList: seq<Vertex>, splits: seq<Node>)
    returns (claimed: map<string, string>, regions: seq<Region>, issues: seq<Issue>)
    requires trees.For(g) && forall v :: v in vertexList <==> v in g.verts
    ensures Matching(input, g, splits, claimed.Keys, regions, issues == [])
  {
    claimed, regions, issues := map[], [], [];
    ghost var clean := true;
    for i := 0 to |splits|
      invariant clean == (issues == [])
      invariant Matching(input, g, splits[..i], claimed.Keys, regions, clean)
    {
      var s := splits[i];
      var join, found := CheckSplit(input, g, trees, vertexList, s, claimed);
      if join.None? {
        RejectSplit(input, g, splits, i, claimed.Keys, regions, clean);
      } else {
        var region := Region(s.id, join.value, s.kind.ParallelGateway?, input.scopeId);
        AcceptSplit(input, g, splits, i, claimed.Keys, regions, region, clean, found == []);
        ghost var keys := claimed.Keys + {join.value};
        claimed, regions := claimed[join.value := s.id], regions + [region];
        assert claimed.Keys == keys;
      }
      clean := clean && found == [];
      issues := issues + found;
    }
    assert splits[..|splits|] == splits;
  }

  ghost function JoinsOf(regions: seq<Region>): seq<string> {
    seq(|regions|, i requires 0 <= i < |regions| => regions[i].joinId)
  }

  lemma JoinsOfSnoc(regions: seq<Region>, r: Region)
    ensures JoinsOf(regions + [r]) == JoinsOf(regions) + [r.joinId]
  {
  }

  /** The region record written for each split. */
  ghost predicate RegionsOf(input: Input, splits: seq<Node>, regions: seq<Region>) {
    && |regions| == |splits|
    && forall i {:trigger regions[i]} :: 0 <= i < |splits| ==>
         regions[i].splitId == splits[i].id && regions[i].isAnd == splits[i].kind.ParallelGateway?
         && regions[i].enclosingScopeId == input.scopeId
  }

  ghost predicate GatewayClaimed(input: Input, claimed: set<string>, n: Node) {
    input.IsToken(n) && IsSplitType(n.kind) && |input.Ins(n.id)| > 1 ==> n.id in claimed
  }

  method CheckJoins(input: Input, claimed: map<string, string>) returns (issues: seq<Issue>)
    ensures issues == [] <==> forall n :: n in input.scopeNodes ==> GatewayClaimed(input, claimed.Keys, n)
  {
    issues := [];
    var nodes := input.scopeNodes;
    for i := 0 to |nodes|
      invariant issues == [] <==> forall k :: 0 <= k < i ==> GatewayClaimed(input, claimed.Keys, nodes[k])
    {
      var n := nodes[i];
      if input.IsToken(n) && IsSplitType(n.kind) && |input.Ins(n.id)| > 1 && n.id !in claimed {
        issues := issues + [UnmatchedJoin(n.id)];
      }
    }
  }

  /** Whether two member lists partially overlap. */
  method ListsOverlap(g: Cfg, a: seq<Vertex>, b: seq<Vertex>, ghost s: Vertex, ghost j: Vertex, ghost s': Vertex,
                      ghost j': Vertex)
    returns (r: bool)
    requires forall x :: x in a <==> Member(g, s, j, x)
    requires forall x :: x in b <==> Member(g, s', j', x)
    ensures r <==> PartialOverlap(g, s, j, s', j')
  {
    var meets := AnyIn(a, b);
    var aInB := AllIn(a, b);
    var bInA := AllIn(b, a);
    r := meets && !aInB && !bInA;
    ListsMeet(g, a, b, s, j, s', j');
    ListsWithin(g, a, b, s, j, s', j');
    ListsWithin(g, b, a, s', j', s, j);
  }

  lemma ListsMeet(g: Cfg, a: seq<Vertex>, b: seq<Vertex>, s: Vertex, j: Vertex, s': Vertex, j': Vertex)
    requires forall x :: x in a <==> Member(g, s, j, x)
    requires forall x :: x in b <==> Member(g, s', j', x)
    ensures Overlapping(g, s, j, s', j') <==> exists x :: x in a && x in b
  {
  }

  lemma ListsWithin(g: Cfg, a: seq<Vertex>, b: seq<Vertex>, s: Vertex, j: Vertex, s': Vertex, j': Vertex)
    requires forall x :: x in a <==> Member(g, s, j, x)
    requires forall x :: x in b <==> Member(g, s', j', x)
    ensures Within(g, s, j, s', j') <==> forall x :: x in a ==> x in b
  {
  }

  method AnyIn(a: seq<Vertex>, b: seq<Vertex>) returns (r: bool)
    ensures r <==> exists x :: x in a && x in b
  {
    r := false;
    for i := 0 to |a|
      invariant r <==> exists k :: 0 <= k < i && a[k] in b
    {
      if a[i] in b { r := true; }
    }
  }

  method AllIn(a: seq<Vertex>, b: seq<Vertex>) returns (r: bool)
    ensures r <==> forall x :: x in a ==> x in b
  {
    r := true;
    for i := 0 to |a|
      invariant r <==> forall k :: 0 <= k < i ==> a[k] in b
    {
      if a[i] !in b { r := false; }
    }
  }

  ghost predicate NoClash(g: Cfg, regions: seq<Region>) {
    forall h, k {:trigger regions[h], regions[k]} :: 0 <= h < k < |regions| ==> !RegionsClash(g, regions[h], regions[k])
  }

  /** Rule 7 for one region against the later ones. */
  method CheckAgainstLater(g: Cfg, trees: Trees, vertexList: seq<Vertex>, regions: seq<Region>, i: nat)
    returns (issues: seq<Issue>)
    requires trees.For(g) && (forall v :: v in vertexList <==> v in g.verts) && i < |regions|
    ensures issues == [] <==> forall k :: i < k < |regions| ==> !RegionsClash(g, regions[i], regions[k])
  {
    issues := [];
    var r := regions[i];
    for k := i + 1 to |regions|
      invariant issues == [] <==> forall m :: i < m < k ==> !RegionsClash(g, r, regions[m])
    {
      var o := regions[k];
      var a := Members(g, trees, vertexList, Element(r.splitId), Element(r.joinId));
      var b := Members(g, trees, vertexList, Element(o.splitId), Element(o.joinId));
      var clash := ListsOverlap(g, a, b, Element(r.splitId), Element(r.joinId), Element(o.splitId), Element(o.joinId));
      if clash { issues := issues + [RegionsOverlap(r.splitId, o.splitId)]; }
    }
  }

  /** Rule 7 over all pairs of regions. */
  method CheckLaminar(g: Cfg, trees: Trees, vertexList: seq<Vertex>, regions: seq<Region>) returns (issues: seq<Issue>)
    requires trees.For(g) && forall v :: v in vertexList <==> v in g.verts
    ensures issues == [] <==> NoClash(g, regions)
  {
    issues := [];
    for i := 0 to |regions|
      invariant issues == [] <==> forall h, k {:trigger regions[h], regions[k]} :: 0 <= h < i && h < k < |regions| ==>
        !RegionsClash(g, regions[h], regions[k])
    {
      var found := CheckAgainstLater(g, trees, vertexList, regions, i);
      issues := issues + found;
    }
  }

  ghost predicate RegionsClash(g: Cfg, r: Region, r': Region) {
    PartialOverlap(g, Element(r.splitId), Element(r.joinId), Element(r'.splitId), Element(r'.joinId))
  }

  lemma LaminarRegions(g: Cfg, splits: seq<Node>, regions: seq<Region>)
    requires |splits| == |regions| && forall i {:trigger regions[i]} :: 0 <= i < |splits| ==>
             regions[i].splitId == splits[i].id
    ensures Laminar(g, splits, JoinsOf(regions)) <==> NoClash(g, regions)
  {
    var joins := JoinsOf(regions);
    if Laminar(g, splits, joins) {
      forall h, k | 0 <= h < k < |regions| ensures !RegionsClash(g, regions[h], regions[k]) {
        assert joins[h] == regions[h].joinId && joins[k] == regions[k].joinId;
      }
    }
  }

  lemma NothingAccepted(input: Input, g: Cfg)
    requires NoJoins(input, g, SplitsIn(input, input.scopeNodes))
    ensures !exists joins :: Accepts(input, g, joins)
  {
  }

  lemma OnlyTheseJoins(input: Input, g: Cfg, joins: seq<string>)
    requires JoinsOk(input, g, SplitsIn(input, input.scopeNodes), joins)
    ensures (exists joins' :: Accepts(input, g, joins')) <==> Accepts(input, g, joins)
  {
    if joins' :| Accepts(input, g, joins') {
      JoinsUnique(input, g, SplitsIn(input, input.scopeNodes), joins, joins');
    }
  }

  method BuildTrees(g: Cfg) returns (trees: Trees)
    requires g.WellFormed() && Source in g.verts && Sink in g.verts
    ensures trees.For(g)
  {
    ReversedWellFormed(g);
    var dom, domNum := Compute(g, Source);
    var post, postNum := Compute(g.Reversed(), Sink);
    trees := Trees(dom, post, domNum, postNum);
  }

  /** The whole analysis of one scope: it reports nothing exactly if the scope meets all region rules, and then
      records one region per split. */
  method ValidateRegions(input: Input) returns (regions: seq<Region>, issues: seq<Issue>, ghost g: Cfg)
    ensures input.StartIn(input.scopeNodes).None? ==> regions == [] && issues == []
    ensures input.StartIn(input.scopeNodes).Some? ==>
              input.Represents(g) && (issues == [] <==> exists joins :: Accepts(input, g, joins))
    ensures input.StartIn(input.scopeNodes).Some? && issues == [] ==>
              Accepts(input, g, JoinsOf(regions)) && RegionsOf(input, SplitsIn(input, input.scopeNodes), regions)
    ensures input.StartIn(input.scopeNodes).Some? && input.Validated() && DistinctNodes(input) ==>
              (issues == [] <==> Structured(input, g))
  {
    regions, issues, g := [], [], Cfg({}, map[], map[]);
    var start := input.StartIn(input.scopeNodes);
    if start.None? { return; }
    var cfg, vertexList := BuildCfg(input, start.value);
    g := cfg;
    var trees := BuildTrees(cfg);
    var splits := SplitsIn(input, input.scopeNodes);
    var claimed, found;
    claimed, regions, found := MatchSplits(input, cfg, trees, vertexList, splits);
    var unmatched := CheckJoins(input, claimed);
    var overlaps := CheckLaminar(cfg, trees, vertexList, regions);
    issues := found + unmatched + overlaps;
    if input.Validated() && DistinctNodes(input) { AcceptedExactly(input, cfg); }
    if found != [] {
      NothingAccepted(input, cfg);
    } else {
      OnlyTheseJoins(input, cfg, JoinsOf(regions));
      LaminarRegions(cfg, splits, regions);
      assert JoinsComplete(input, JoinsOf(regions)) <==> unmatched == [] by {
        assert forall n :: GatewayClaimed(input, claimed.Keys, n) <==>
          (input.IsToken(n) && IsSplitType(n.kind) && |input.Ins(n.id)| > 1 ==> n.id in JoinsOf(regions));
      }
    }
  }
}
