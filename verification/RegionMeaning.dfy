/** The region rules of src/bpmn/regions.ts:97-248 read off the sequence flows: what the graph is, and which scopes are
    accepted, in terms of node kinds, the incoming and outgoing flows, and paths. */
module RegionMeaning {
  import opened Prelude
  import opened Graphs
  import opened RegionRules

  // ---- The graph -------------------------------------------------------------------------------

  /** A token can stand on node `n` of the scope, or a boundary event catches one there. */
  ghost predicate Runs(input: Input, n: Node) {
    && n in input.scopeNodes && n.scopeId == input.scopeId
    && (n.kind.ServiceTask? ==> !n.isForCompensation)
    && (n.kind.BoundaryEvent? ==>
          n.boundaryKind == Some(ErrorBoundary) || n.boundaryKind == Some(CancelBoundary)
          || n.boundaryKind == Some(TimerBoundary))
  }

  lemma {:induction false} ScopedFlows(input: Input, ids: seq<string>)
    ensures Several(input, ids) <==> |input.Scoped(ids)| > 1
    ensures (exists k :: 0 <= k < |ids| && input.InScope(ids[k])) <==> input.Scoped(ids) != []
  {
    if ids != [] {
      ScopedFlows(input, ids[1..]);
      assert forall k :: 0 < k < |ids| ==> ids[k] == ids[1..][k - 1];
      if Several(input, ids[1..]) {
        var a, b :| 0 <= a < b < |ids[1..]| && input.InScope(ids[1..][a]) && input.InScope(ids[1..][b]);
        assert ids[a + 1] == ids[1..][a] && ids[b + 1] == ids[1..][b];
      }
      if k :| 0 <= k < |ids[1..]| && input.InScope(ids[1..][k]) { assert ids[k + 1] == ids[1..][k]; }
      if Several(input, ids) {
        var a, b :| 0 <= a < b < |ids| && input.InScope(ids[a]) && input.InScope(ids[b]);
        assert ids[b] == ids[1..][b - 1] && (a > 0 ==> ids[a] == ids[1..][a - 1]);
      }
    }
  }

  lemma VertexRuns(input: Input, n: Node)
    requires input.Validated() && n in input.scopeNodes
    ensures input.IsVertex(Element(n.id)) <==> Runs(input, n)
  {
    assert input.nodeById[n.id] == n;
    if input.IsVertex(Element(n.id)) {
      var m :| m in input.scopeNodes && (input.IsToken(m) || input.IsRouting(m)) && Element(n.id) == Element(m.id);
      assert input.nodeById[m.id] == m;
    }
    assert Runs(input, n) ==> input.IsToken(n) || input.IsRouting(n);
  }

  /** Between nodes the graph has exactly the sequence flows of the scope and the step from a host to its boundary
      events. */
  lemma GraphFollowsFlows(input: Input, g: Cfg, a: Node, b: Node)
    requires input.Represents(g) && input.Validated() && a in input.scopeNodes && b in input.scopeNodes
    ensures Element(a.id) in g.verts <==> Runs(input, a)
    ensures g.Edge(Element(a.id), Element(b.id)) <==>
              Runs(input, a) && Runs(input, b)
              && (b.id in Lookup(input.outgoing, a.id) || (b.kind.BoundaryEvent? && b.attachedTo == Some(a.id)))
  {
    VertexRuns(input, a);
    VertexRuns(input, b);
    assert input.nodeById[a.id] == a && input.nodeById[b.id] == b;
    var x, y := Element(a.id), Element(b.id);
    assert g.Edge(x, y) <==> input.CfgEdge(x, y);
    if g.Edge(x, y) {
      if n :| n in input.scopeNodes && input.IsToken(n) && input.TokenEdge(n, x, y) {
        assert input.nodeById[n.id] == n;
      } else {
        var n :| n in input.scopeNodes && input.IsRouting(n) && input.BoundaryEdge(n, x, y);
        assert input.nodeById[n.id] == n;
      }
    } else if Runs(input, a) && Runs(input, b) {
      if b.kind.BoundaryEvent? && b.attachedTo == Some(a.id) { assert input.BoundaryEdge(b, x, y); }
      if b.id in Lookup(input.outgoing, a.id) {
        assert b.id in input.Outs(a.id) && input.FlowEdge(a.id, false, x, y);
        assert if input.IsToken(a) then input.TokenEdge(a, x, y) else input.IsRouting(a) && input.BoundaryEdge(a, x, y);
      }
    }
  }

  /** A token leaves the scope where a node has no flow inside it, and at end events. */
  lemma GraphEnds(input: Input, g: Cfg, a: Node)
    requires input.Represents(g) && input.Validated() && a in input.scopeNodes
    ensures g.Edge(Element(a.id), Sink) <==>
              Runs(input, a) && (a.kind.EndEvent? || forall t <- Lookup(input.outgoing, a.id) :: !input.InScope(t))
  {
    VertexRuns(input, a);
    assert input.nodeById[a.id] == a;
    var x := Element(a.id);
    assert g.Edge(x, Sink) <==> input.CfgEdge(x, Sink);
    assert input.Outs(a.id) == [] <==> forall t <- Lookup(input.outgoing, a.id) :: !input.InScope(t) by {
      assert input.Outs(a.id) != [] ==> input.Outs(a.id)[0] in input.Outs(a.id);
    }
    if g.Edge(x, Sink) {
      if n :| n in input.scopeNodes && input.IsToken(n) && input.TokenEdge(n, x, Sink) {
        assert input.nodeById[n.id] == n;
      } else {
        var n :| n in input.scopeNodes && input.IsRouting(n) && input.BoundaryEdge(n, x, Sink);
        assert input.nodeById[n.id] == n;
      }
    } else if Runs(input, a) {
      assert input.IsVertex(Sink);
      assert if input.IsToken(a) then !input.TokenEdge(a, x, Sink) else !input.BoundaryEdge(a, x, Sink);
    }
  }

  /** The k-th node is the first start event of the scope. */
  ghost predicate FirstStart(input: Input, nodes: seq<Node>, k: nat) {
    && k < |nodes| && nodes[k].scopeId == input.scopeId && nodes[k].kind.StartEvent?
    && forall h :: 0 <= h < k ==> !(nodes[h].scopeId == input.scopeId && nodes[h].kind.StartEvent?)
  }

  lemma {:induction false} StartIsFirst(input: Input, nodes: seq<Node>)
    ensures match input.StartIn(nodes)
              case Some(n) => exists k: nat :: FirstStart(input, nodes, k) && nodes[k] == n
              case None => forall n <- nodes :: !(n.scopeId == input.scopeId && n.kind.StartEvent?)
  {
    if nodes != [] {
      if nodes[0].scopeId == input.scopeId && nodes[0].kind.StartEvent? {
        assert FirstStart(input, nodes, 0);
      } else {
        StartIsFirst(input, nodes[1..]);
        assert nodes == [nodes[0]] + nodes[1..];
        if input.StartIn(nodes).Some? {
          var k: nat :| FirstStart(input, nodes[1..], k) && nodes[1..][k] == input.StartIn(nodes).value;
          assert forall h :: 0 < h <= k ==> nodes[h] == nodes[1..][h - 1];
          assert FirstStart(input, nodes, k + 1);
        }
      }
    }
  }

  /** And it enters at the first start event only. */
  lemma GraphStarts(input: Input, g: Cfg, k: nat, y: Vertex)
    requires input.Represents(g) && input.Validated() && FirstStart(input, input.scopeNodes, k)
    ensures g.Edge(Source, y) <==> y == Element(input.scopeNodes[k].id)
  {
    var n := input.scopeNodes[k];
    StartIsFirst(input, input.scopeNodes);
    var m: nat :| FirstStart(input, input.scopeNodes, m)
                  && input.scopeNodes[m] == input.StartIn(input.scopeNodes).value;
    assert m == k;
    VertexRuns(input, n);
    assert g.Edge(Source, y) <==> input.CfgEdge(Source, y);
  }

  // ---- Splits, joins and regions ---------------------------------------------------------------

  /** At least two of the flows stay in the scope. */
  ghost predicate Several(input: Input, ids: seq<string>) {
    exists a, b :: 0 <= a < b < |ids| && input.InScope(ids[a]) && input.InScope(ids[b])
  }

  ghost predicate Concurrent(input: Input, n: Node) {
    n in input.scopeNodes && n.scopeId == input.scopeId && (n.kind.ParallelGateway? || n.kind.InclusiveGateway?)
  }

  ghost predicate Splitting(input: Input, n: Node) {
    Concurrent(input, n) && Several(input, Lookup(input.outgoing, n.id))
  }

  ghost predicate Joining(input: Input, n: Node) {
    Concurrent(input, n) && Several(input, Lookup(input.incoming, n.id))
  }

  /** `j` joins what `s` splits: of the same kind, the nearest vertex on every way from `s` to the end, and entered only
      past `s`, nearest of all. */
  ghost predicate Paired(input: Input, g: Cfg, s: Node, j: Node) {
    && Joining(input, j) && j.kind == s.kind
    && ImmediatePostDom(g, Element(j.id), Element(s.id)) && ImmediateDom(g, Element(s.id), Element(j.id))
  }

  /** No flow of the scope leads out of the region but through its join. */
  ghost predicate Confined(input: Input, g: Cfg, s: Node, j: Node) {
    forall x, t :: Member(g, Element(s.id), Element(j.id), Element(x)) && x != j.id
                   && t in Lookup(input.outgoing, x) && input.InScope(t) ==>
                     Member(g, Element(s.id), Element(j.id), Element(t))
  }

  /** Between split and join only gateways that take one token at a time, or join, have several incoming flows. */
  ghost predicate NoRace(input: Input, g: Cfg, s: Node, j: Node) {
    forall x :: x in input.scopeNodes && Member(g, Element(s.id), Element(j.id), Element(x.id))
                && x.id != s.id && x.id != j.id && Several(input, Lookup(input.incoming, x.id)) ==>
                  x.kind.BoundaryEvent? || x.kind.ExclusiveGateway? || x.kind.ParallelGateway?
                  || x.kind.InclusiveGateway?
  }

  ghost predicate Balanced(input: Input, g: Cfg, s: Node, j: Node) {
    Paired(input, g, s, j) && Confined(input, g, s, j) && NoRace(input, g, s, j)
  }

  ghost predicate SplitsJoin(input: Input, g: Cfg) {
    forall s :: Splitting(input, s) ==> exists j :: Balanced(input, g, s, j)
  }

  ghost predicate JoinsSplit(input: Input, g: Cfg) {
    forall j :: Joining(input, j) ==> exists s :: Splitting(input, s) && Paired(input, g, s, j)
  }

  ghost predicate NoJoinSplits(input: Input, g: Cfg) {
    forall s, j :: Splitting(input, s) && Paired(input, g, s, j) ==> !Splitting(input, j)
  }

  /** Splits and joins pair off, every region is confined and free of races, and no join splits again. */
  ghost predicate Structured(input: Input, g: Cfg) {
    SplitsJoin(input, g) && JoinsSplit(input, g) && NoJoinSplits(input, g)
  }

  ghost predicate DistinctNodes(input: Input) {
    forall i, k :: 0 <= i < k < |input.scopeNodes| ==> input.scopeNodes[i].id != input.scopeNodes[k].id
  }

  lemma {:induction false} SplitsInAre(input: Input, nodes: seq<Node>)
    requires forall n <- nodes :: n in input.scopeNodes
    ensures forall s :: s in SplitsIn(input, nodes) <==> s in nodes && Splitting(input, s)
  {
    if nodes != [] {
      SplitsInAre(input, nodes[1..]);
      assert nodes == [nodes[0]] + nodes[1..];
      ScopedFlows(input, Lookup(input.outgoing, nodes[0].id));
    }
  }

  lemma {:induction false} SplitsInDistinct(input: Input, nodes: seq<Node>)
    requires forall i, k :: 0 <= i < k < |nodes| ==> nodes[i].id != nodes[k].id
    ensures forall i, k :: 0 <= i < k < |SplitsIn(input, nodes)| ==>
              SplitsIn(input, nodes)[i].id != SplitsIn(input, nodes)[k].id
    ensures forall s <- SplitsIn(input, nodes) :: s in nodes
  {
    if nodes != [] {
      SplitsInDistinct(input, nodes[1..]);
      assert forall s <- nodes[1..] :: s.id != nodes[0].id;
    }
  }

  lemma PairedIsMatched(input: Input, g: Cfg, s: Node, j: Node)
    requires input.Represents(g) && input.Validated()
    requires j in input.scopeNodes && j.scopeId == input.scopeId
    requires s.kind.ParallelGateway? || s.kind.InclusiveGateway?
    ensures Paired(input, g, s, j) <==> Matched(input, g, s, j.id)
  {
    assert input.nodeById[j.id] == j;
    ScopedFlows(input, Lookup(input.incoming, j.id));
  }

  /** The matched join is a node of the scope. */
  lemma MatchedNode(input: Input, g: Cfg, s: Node, j: string) returns (n: Node)
    requires input.Represents(g) && input.Validated() && Matched(input, g, s, j)
    ensures n in input.scopeNodes && n.id == j && n.scopeId == input.scopeId
  {
    JoinIsVertex(input, g, s, j);
    assert input.IsVertex(Element(j));
    n :| n in input.scopeNodes && (input.IsToken(n) || input.IsRouting(n)) && Element(j) == Element(n.id);
  }

  lemma BalancedIsOk(input: Input, g: Cfg, s: Node, j: Node)
    requires input.Represents(g) && input.Validated() && Paired(input, g, s, j)
    requires Matched(input, g, s, j.id)
    ensures Balanced(input, g, s, j) <==> SplitOk(input, g, s, j.id)
  {
    ConfinedMeans(input, g, s, j);
    NoRaceMeans(input, g, s, j);
  }

  lemma ConfinedMeans(input: Input, g: Cfg, s: Node, j: Node)
    requires input.Represents(g) && Matched(input, g, s, j.id)
    ensures Confined(input, g, s, j) <==>
            forall x {:trigger ConfinedAt(input, g, s, j.id, x)} :: ConfinedAt(input, g, s, j.id, x)
  {
    JoinIsVertex(input, g, s, j.id);
    EndPoints(input, g, s, j.id);
    if Confined(input, g, s, j) {
      forall x ensures ConfinedAt(input, g, s, j.id, x) {
        if Member(g, Element(s.id), Element(j.id), x) && x != Element(j.id) {
          assert Element(x.id) == x;
        }
      }
    }
    if forall x {:trigger ConfinedAt(input, g, s, j.id, x)} :: ConfinedAt(input, g, s, j.id, x) {
      forall x, t | Member(g, Element(s.id), Element(j.id), Element(x)) && x != j.id
                    && t in Lookup(input.outgoing, x) && input.InScope(t)
        ensures Member(g, Element(s.id), Element(j.id), Element(t))
      {
        assert ConfinedAt(input, g, s, j.id, Element(x)) && t in input.Outs(x);
      }
    }
  }

  lemma SafeNode(input: Input, n: Node)
    requires input.Validated() && n in input.scopeNodes
    ensures MergeSafe(input, n.id) <==>
              (Several(input, Lookup(input.incoming, n.id)) ==>
                n.kind.BoundaryEvent? || n.kind.ExclusiveGateway? || n.kind.ParallelGateway?
                || n.kind.InclusiveGateway?)
  {
    assert input.nodeById[n.id] == n;
    ScopedFlows(input, Lookup(input.incoming, n.id));
  }

  lemma NoRaceMeans(input: Input, g: Cfg, s: Node, j: Node)
    requires input.Represents(g) && input.Validated()
    ensures NoRace(input, g, s, j) <==>
            forall x {:trigger MergeSafeAt(input, g, s, j.id, x)} :: MergeSafeAt(input, g, s, j.id, x)
  {
    forall n | n in input.scopeNodes
      ensures MergeSafe(input, n.id) <==>
                (Several(input, Lookup(input.incoming, n.id)) ==>
                   n.kind.BoundaryEvent? || n.kind.ExclusiveGateway? || n.kind.ParallelGateway?
                   || n.kind.InclusiveGateway?)
    {
      SafeNode(input, n);
    }
    if NoRace(input, g, s, j) {
      forall x ensures MergeSafeAt(input, g, s, j.id, x) {
        if Member(g, Element(s.id), Element(j.id), x) {
          assert input.IsVertex(x);
          var n :| n in input.scopeNodes && (input.IsToken(n) || input.IsRouting(n)) && x == Element(n.id);
        }
      }
    } else {
      RaceIsUnsafe(input, g, s, j);
    }
  }

  lemma RaceIsUnsafe(input: Input, g: Cfg, s: Node, j: Node)
    requires input.Validated() && !NoRace(input, g, s, j)
    ensures exists x {:trigger MergeSafeAt(input, g, s, j.id, x)} :: !MergeSafeAt(input, g, s, j.id, x)
  {
    var n :| n in input.scopeNodes && Member(g, Element(s.id), Element(j.id), Element(n.id))
             && n.id != s.id && n.id != j.id && Several(input, Lookup(input.incoming, n.id))
             && !(n.kind.BoundaryEvent? || n.kind.ExclusiveGateway? || n.kind.ParallelGateway?
                  || n.kind.InclusiveGateway?);
    SafeNode(input, n);
    assert !MergeSafeAt(input, g, s, j.id, Element(n.id));
  }

  // ---- Accepted scopes -------------------------------------------------------------------------

  lemma MatchedOnce(input: Input, g: Cfg, s: Node, j: string, j': string)
    requires Matched(input, g, s, j) && Matched(input, g, s, j')
    ensures j == j'
  {
    ImmediateUnique(g.Reversed(), Sink, Element(j), Element(j'), Element(s.id));
  }

  lemma SplitOnce(input: Input, g: Cfg, s: Node, s': Node, j: string)
    requires Matched(input, g, s, j) && Matched(input, g, s', j)
    ensures s.id == s'.id
  {
    ImmediateUnique(g, Source, Element(s.id), Element(s'.id), Element(j));
  }

  /** Whatever pairs with `s` is the join it is matched with. */
  lemma PairedJoin(input: Input, g: Cfg, s: Node, n: Node, j: string)
    requires input.Represents(g) && input.Validated() && Concurrent(input, s)
    requires Paired(input, g, s, n) && SplitOk(input, g, s, j)
    ensures n.id == j
  {
    PairedIsMatched(input, g, s, n);
    MatchedOnce(input, g, s, n.id, j);
  }

  ghost predicate HasJoin(input: Input, g: Cfg, s: Node) {
    exists j :: SplitOk(input, g, s, j)
  }

  lemma SplitHasJoin(input: Input, g: Cfg, s: Node)
    requires input.Represents(g) && input.Validated() && Splitting(input, s)
    ensures HasJoin(input, g, s) <==> exists j :: Balanced(input, g, s, j)
  {
    if j :| Balanced(input, g, s, j) {
      PairedIsMatched(input, g, s, j);
      BalancedIsOk(input, g, s, j);
    }
    if j :| SplitOk(input, g, s, j) {
      var n := MatchedNode(input, g, s, j);
      PairedIsMatched(input, g, s, n);
      BalancedIsOk(input, g, s, n);
    }
  }

  lemma {:induction false} JoinsFor(input: Input, g: Cfg, splits: seq<Node>) returns (joins: seq<string>)
    requires forall s <- splits :: HasJoin(input, g, s)
    ensures |joins| == |splits| && forall i :: 0 <= i < |splits| ==> SplitOk(input, g, splits[i], joins[i])
  {
    joins := [];
    if splits != [] {
      var n := |splits| - 1;
      assert HasJoin(input, g, splits[n]);
      var j :| SplitOk(input, g, splits[n], j);
      var before := JoinsFor(input, g, splits[..n]);
      joins := before + [j];
    }
  }

  lemma StructuredSplits(input: Input, g: Cfg) returns (joins: seq<string>)
    requires input.Represents(g) && input.Validated() && SplitsJoin(input, g)
    ensures AllOk(input, g, SplitsIn(input, input.scopeNodes), joins)
  {
    var splits := SplitsIn(input, input.scopeNodes);
    SplitsInAre(input, input.scopeNodes);
    forall s <- splits ensures HasJoin(input, g, s) { SplitHasJoin(input, g, s); }
    joins := JoinsFor(input, g, splits);
  }

  ghost predicate AllOk(input: Input, g: Cfg, splits: seq<Node>, joins: seq<string>) {
    |joins| == |splits| && forall i :: 0 <= i < |splits| ==> SplitOk(input, g, splits[i], joins[i])
  }

  lemma DistinctJoins(input: Input, g: Cfg, joins: seq<string>)
    requires DistinctNodes(input) && AllOk(input, g, SplitsIn(input, input.scopeNodes), joins)
    ensures JoinsOk(input, g, SplitsIn(input, input.scopeNodes), joins)
  {
    var splits := SplitsIn(input, input.scopeNodes);
    SplitsInDistinct(input, input.scopeNodes);
    forall i, k | 0 <= i < k < |joins| ensures joins[i] != joins[k] {
      if joins[i] == joins[k] { SplitOnce(input, g, splits[i], splits[k], joins[i]); }
    }
  }

  lemma StructuredComplete(input: Input, g: Cfg, joins: seq<string>)
    requires input.Represents(g) && input.Validated() && JoinsSplit(input, g)
    requires AllOk(input, g, SplitsIn(input, input.scopeNodes), joins)
    ensures JoinsComplete(input, joins)
  {
    SplitsInAre(input, input.scopeNodes);
    forall n | n in input.scopeNodes && input.IsToken(n) && IsSplitType(n.kind) && |input.Ins(n.id)| > 1
      ensures n.id in joins
    {
      ScopedFlows(input, Lookup(input.incoming, n.id));
      assert Joining(input, n);
      var s :| Splitting(input, s) && Paired(input, g, s, n);
      PairIsListed(input, g, SplitsIn(input, input.scopeNodes), joins, s, n);
    }
  }

  lemma PairIsListed(input: Input, g: Cfg, splits: seq<Node>, joins: seq<string>, s: Node, n: Node)
    requires input.Represents(g) && input.Validated() && AllOk(input, g, splits, joins)
    requires s in splits && Splitting(input, s) && Paired(input, g, s, n)
    ensures n.id in joins
  {
    var k :| 0 <= k < |splits| && splits[k] == s;
    PairedJoin(input, g, s, n, joins[k]);
  }

  /** Where the join of `s` is the node `other`, that node pairs with `s`. */
  lemma JoinIsNode(input: Input, g: Cfg, s: Node, j: string, other: Node)
    requires input.Represents(g) && input.Validated() && Concurrent(input, s) && SplitOk(input, g, s, j)
    requires other in input.scopeNodes && other.id == j
    ensures Paired(input, g, s, other)
  {
    var n := MatchedNode(input, g, s, j);
    PairedIsMatched(input, g, s, n);
    SameNode(input, n, other);
  }

  ghost predicate JoinsAreNoSplits(splits: seq<Node>, joins: seq<string>) {
    forall i, k :: 0 <= i < |joins| && 0 <= k < |splits| ==> joins[i] != splits[k].id
  }

  lemma NoSecondSplits(input: Input, g: Cfg, joins: seq<string>)
    requires input.Represents(g) && input.Validated() && AllOk(input, g, SplitsIn(input, input.scopeNodes), joins)
    ensures NoJoinSplits(input, g) <==> JoinsAreNoSplits(SplitsIn(input, input.scopeNodes), joins)
  {
    var splits := SplitsIn(input, input.scopeNodes);
    SplitsInAre(input, input.scopeNodes);
    if i, k :| 0 <= i < |joins| && 0 <= k < |splits| && joins[i] == splits[k].id {
      assert splits[i] in splits && splits[k] in splits && SplitOk(input, g, splits[i], joins[i]);
      JoinIsNode(input, g, splits[i], joins[i], splits[k]);
    }
    if s, j :| Splitting(input, s) && Paired(input, g, s, j) && Splitting(input, j) {
      PairIsListed(input, g, splits, joins, s, j);
      var i :| 0 <= i < |joins| && joins[i] == j.id;
      var k :| 0 <= k < |splits| && splits[k] == j;
      assert joins[i] == splits[k].id;
    }
  }

  lemma StructuredAccepted(input: Input, g: Cfg)
    requires input.Represents(g) && input.Validated() && DistinctNodes(input) && Structured(input, g)
    ensures exists joins :: Accepts(input, g, joins)
  {
    var joins := StructuredSplits(input, g);
    DistinctJoins(input, g, joins);
    StructuredComplete(input, g, joins);
    NoSecondSplits(input, g, joins);
    LaminarExactly(input, g, joins);
    assert Accepts(input, g, joins);
  }

  lemma SameNode(input: Input, n: Node, m: Node)
    requires input.Validated() && n in input.scopeNodes && m in input.scopeNodes && n.id == m.id
    ensures n == m
  {
    assert input.nodeById[n.id] == n && input.nodeById[m.id] == m;
  }

  lemma AcceptedSplits(input: Input, g: Cfg, joins: seq<string>)
    requires input.Represents(g) && input.Validated() && AllOk(input, g, SplitsIn(input, input.scopeNodes), joins)
    ensures SplitsJoin(input, g)
  {
    var splits := SplitsIn(input, input.scopeNodes);
    SplitsInAre(input, input.scopeNodes);
    forall s | Splitting(input, s) ensures exists j :: Balanced(input, g, s, j) {
      var k :| 0 <= k < |splits| && splits[k] == s;
      assert SplitOk(input, g, s, joins[k]);
      SplitHasJoin(input, g, s);
    }
  }

  lemma JoinIsListed(input: Input, joins: seq<string>, j: Node)
    requires JoinsComplete(input, joins) && Joining(input, j)
    ensures j.id in joins
  {
    ScopedFlows(input, Lookup(input.incoming, j.id));
  }

  lemma ListedIsPaired(input: Input, g: Cfg, splits: seq<Node>, joins: seq<string>, j: Node) returns (s: Node)
    requires input.Represents(g) && input.Validated() && AllOk(input, g, splits, joins)
    requires Joining(input, j) && j.id in joins && forall s <- splits :: Splitting(input, s)
    ensures Splitting(input, s) && Paired(input, g, s, j)
  {
    var k :| 0 <= k < |joins| && joins[k] == j.id;
    s := splits[k];
    assert s in splits && SplitOk(input, g, s, joins[k]);
    PairedIsMatched(input, g, s, j);
  }

  lemma AcceptedJoins(input: Input, g: Cfg, joins: seq<string>)
    requires input.Represents(g) && input.Validated() && AllOk(input, g, SplitsIn(input, input.scopeNodes), joins)
    requires JoinsComplete(input, joins)
    ensures JoinsSplit(input, g)
  {
    SplitsInAre(input, input.scopeNodes);
    forall j | Joining(input, j) ensures exists s :: Splitting(input, s) && Paired(input, g, s, j) {
      JoinIsListed(input, joins, j);
      var s := ListedIsPaired(input, g, SplitsIn(input, input.scopeNodes), joins, j);
    }
  }

  lemma AcceptedStructured(input: Input, g: Cfg, joins: seq<string>)
    requires input.Represents(g) && input.Validated() && Accepts(input, g, joins)
    ensures Structured(input, g)
  {
    AcceptedSplits(input, g, joins);
    AcceptedJoins(input, g, joins);
    NoSecondSplits(input, g, joins);
    LaminarExactly(input, g, joins);
  }

  /** The seven rules accept a scope exactly if its concurrent gateways pair off, its regions are confined and free of
      races, and no join splits again. */
  lemma AcceptedExactly(input: Input, g: Cfg)
    requires input.Represents(g) && input.Validated() && DistinctNodes(input)
    ensures (exists joins :: Accepts(input, g, joins)) <==> Structured(input, g)
  {
    if joins :| Accepts(input, g, joins) { AcceptedStructured(input, g, joins); }
    if Structured(input, g) { StructuredAccepted(input, g); }
  }

  /** In particular a task in a region on which two flows of the scope meet is never accepted. */
  lemma RacingTaskRejected(input: Input, g: Cfg, s: Node, j: Node, x: Node)
    requires input.Represents(g) && input.Validated() && x in input.scopeNodes
    requires Splitting(input, s) && Paired(input, g, s, j) && Member(g, Element(s.id), Element(j.id), Element(x.id))
    requires Several(input, Lookup(input.incoming, x.id))
    requires x.kind.ServiceTask? || x.kind.OtherNode? || x.kind.StartEvent? || x.kind.EndEvent?
    ensures forall joins :: !Accepts(input, g, joins)
  {
    forall joins ensures !Accepts(input, g, joins) {
      if Accepts(input, g, joins) {
        AcceptedSplits(input, g, joins);
        var j' :| Balanced(input, g, s, j');
        SameJoin(input, g, s, j, j');
        RacerIsNoGateway(input, s, j, x);
      }
    }
  }

  lemma SameJoin(input: Input, g: Cfg, s: Node, j: Node, j': Node)
    requires input.Represents(g) && input.Validated() && Concurrent(input, s)
    requires Paired(input, g, s, j) && Paired(input, g, s, j')
    ensures j == j'
  {
    PairedIsMatched(input, g, s, j);
    PairedIsMatched(input, g, s, j');
    MatchedOnce(input, g, s, j.id, j'.id);
    SameNode(input, j, j');
  }

  /** Node ids are distinct, so a task is neither the split nor the join. */
  lemma RacerIsNoGateway(input: Input, s: Node, j: Node, x: Node)
    requires input.Validated() && x in input.scopeNodes && Concurrent(input, s) && Concurrent(input, j)
    requires x.kind.ServiceTask? || x.kind.OtherNode? || x.kind.StartEvent? || x.kind.EndEvent?
    ensures x.id != s.id && x.id != j.id
  {
    if x.id == s.id { SameNode(input, x, s); }
    if x.id == j.id { SameNode(input, x, j); }
  }
}
