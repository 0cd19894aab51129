/** What src/bpmn/regions.ts demands of the concurrent regions of one scope, stated over paths of the
    control-flow graph, and what a model that meets these rules guarantees. */
module RegionRules {
  import opened Prelude
  import opened Graphs

  datatype NodeType =
    | StartEvent | EndEvent | ServiceTask | BoundaryEvent
    | ParallelGateway | InclusiveGateway | ExclusiveGateway | OtherNode

  datatype BoundaryKind = ErrorBoundary | CancelBoundary | CompensateBoundary | TimerBoundary

  datatype Node = Node(id: string, kind: NodeType, scopeId: string, boundaryKind: Option<BoundaryKind>,
                       attachedTo: Option<string>, isForCompensation: bool)

  predicate IsSplitType(t: NodeType) {
    t.ParallelGateway? || t.InclusiveGateway?
  }

  function Lookup(m: map<string, seq<string>>, id: string): seq<string> {
    if id in m then m[id] else []
  }

  /** The classification of one scope that the validator hands over. */
  datatype Input = Input(scopeId: string, scopeNodes: seq<Node>, outgoing: map<string, seq<string>>,
                         incoming: map<string, seq<string>>, nodeById: map<string, Node>) {

    predicate InScope(id: string) {
      id in nodeById && nodeById[id].scopeId == scopeId
    }

    function Scoped(ids: seq<string>): (r: seq<string>)
      ensures forall id :: id in r <==> id in ids && InScope(id)
    {
      if ids == [] then []
      else (if InScope(ids[0]) then [ids[0]] else []) + Scoped(ids[1..])
    }

    function Outs(id: string): seq<string> {
      Scoped(Lookup(outgoing, id))
    }

    function Ins(id: string): seq<string> {
      Scoped(Lookup(incoming, id))
    }

    predicate IsToken(n: Node) {
      n.scopeId == scopeId && !n.kind.BoundaryEvent? && !(n.kind.ServiceTask? && n.isForCompensation)
    }

    predicate IsRouting(n: Node) {
      && n.scopeId == scopeId && n.kind.BoundaryEvent?
      && n.boundaryKind in {Some(ErrorBoundary), Some(CancelBoundary), Some(TimerBoundary)}
    }

    predicate IsSplit(n: Node) {
      IsToken(n) && IsSplitType(n.kind) && |Outs(n.id)| > 1
    }

    /** The first start event among the token-path nodes. */
    function StartIn(nodes: seq<Node>): Option<Node> {
      if nodes == [] then None
      else if IsToken(nodes[0]) && nodes[0].kind.StartEvent? then Some(nodes[0])
      else StartIn(nodes[1..])
    }

    ghost predicate IsVertex(v: Vertex) {
      v == Source || v == Sink || exists n :: n in scopeNodes && (IsToken(n) || IsRouting(n)) && v == Element(n.id)
    }

    /** Sequence flows of `id`, or the edge to the virtual sink that replaces them. */
    predicate FlowEdge(id: string, mayEnd: bool, a: Vertex, b: Vertex) {
      && a == Element(id)
      && ((b == Sink && (mayEnd || Outs(id) == [])) || (b.Element? && b.id in Outs(id)))
    }

    predicate TokenEdge(n: Node, a: Vertex, b: Vertex) {
      FlowEdge(n.id, n.kind.EndEvent?, a, b)
    }

    predicate BoundaryEdge(n: Node, a: Vertex, b: Vertex) {
      || FlowEdge(n.id, false, a, b)
      || (n.attachedTo.Some? && a == Element(n.attachedTo.value) && b == Element(n.id))
    }

    ghost predicate CfgEdge(a: Vertex, b: Vertex) {
      && IsVertex(a) && IsVertex(b)
      && ( || (a == Source && StartIn(scopeNodes).Some? && b == Element(StartIn(scopeNodes).value.id))
           || (exists n :: n in scopeNodes && IsToken(n) && TokenEdge(n, a, b))
           || (exists n :: n in scopeNodes && IsRouting(n) && BoundaryEdge(n, a, b)))
    }

    ghost predicate Represents(g: Cfg) {
      && g.WellFormed()
      && (forall v :: v in g.verts <==> IsVertex(v))
      && (forall a, b :: g.Edge(a, b) <==> CfgEdge(a, b))
    }

    /** The validator builds `nodeById` from the same nodes, and rejects sequence flows into a boundary event
        or a start event (src/bpmn/validator.ts:1296-1312). */
    ghost predicate Validated() {
      && (forall n :: n in scopeNodes ==> n.id in nodeById && nodeById[n.id] == n)
      && (forall id, t :: t in Outs(id) ==> !nodeById[t].kind.BoundaryEvent?)
    }
  }

  // ---- The rules, over paths -------------------------------------------------------------

  ghost predicate Dom(g: Cfg, a: Vertex, b: Vertex) {
    g.Reaches(Source, b) && g.Dominates(Source, a, b)
  }

  ghost predicate PostDom(g: Cfg, a: Vertex, b: Vertex) {
    g.Reversed().Reaches(Sink, b) && g.Reversed().Dominates(Sink, a, b)
  }

  ghost predicate ImmediateDom(g: Cfg, a: Vertex, b: Vertex) {
    g.Reaches(Source, b) && ImmediateDominator(g, Source, a, b)
  }

  ghost predicate ImmediatePostDom(g: Cfg, a: Vertex, b: Vertex) {
    g.Reversed().Reaches(Sink, b) && ImmediateDominator(g.Reversed(), Sink, a, b)
  }

  /** `x` belongs to the region of split `s` and join `j`. */
  ghost predicate Member(g: Cfg, s: Vertex, j: Vertex, x: Vertex) {
    x in g.verts && x.Element? && (x == s || Dom(g, s, x)) && (x == j || PostDom(g, j, x))
  }

  /** `j` is the immediate post-dominator of `s`, of the same type, and `s` its immediate dominator. */
  ghost predicate Matched(input: Input, g: Cfg, s: Node, j: string) {
    && ImmediatePostDom(g, Element(j), Element(s.id))
    && j in input.nodeById && input.nodeById[j].kind == s.kind && |input.Ins(j)| >= 2
    && ImmediateDom(g, Element(s.id), Element(j))
  }

  /** Rule 5: no sequence flow of a member leaves the region other than to the join. */
  ghost predicate ConfinedAt(input: Input, g: Cfg, s: Node, j: string, x: Vertex) {
    Member(g, Element(s.id), Element(j), x) && x != Element(j) ==>
      forall t :: t in input.Outs(x.id) ==> Member(g, Element(s.id), Element(j), Element(t)) || t == j
  }

  /** Rule 6: inside the region only a gateway merges flows. */
  ghost predicate MergeSafeAt(input: Input, g: Cfg, s: Node, j: string, x: Vertex) {
    Member(g, Element(s.id), Element(j), x) && x != Element(j) && x != Element(s.id) ==>
      MergeSafe(input, x.id)
  }

  predicate MergeSafe(input: Input, id: string) {
    var kind := if id in input.nodeById then Some(input.nodeById[id].kind) else None;
    || kind == Some(BoundaryEvent)
    || |input.Ins(id)| <= 1
    || kind in {Some(ExclusiveGateway), Some(ParallelGateway), Some(InclusiveGateway)}
  }

  ghost predicate SplitOk(input: Input, g: Cfg, s: Node, j: string) {
    && Matched(input, g, s, j)
    && (forall x {:trigger ConfinedAt(input, g, s, j, x)} :: ConfinedAt(input, g, s, j, x))
    && (forall x {:trigger MergeSafeAt(input, g, s, j, x)} :: MergeSafeAt(input, g, s, j, x))
  }

  ghost predicate Overlapping(g: Cfg, s: Vertex, j: Vertex, s': Vertex, j': Vertex) {
    exists x :: Member(g, s, j, x) && Member(g, s', j', x)
  }

  ghost predicate Within(g: Cfg, s: Vertex, j: Vertex, s': Vertex, j': Vertex) {
    forall x :: Member(g, s, j, x) ==> Member(g, s', j', x)
  }

  /** Rule 7 fails: the two regions overlap and neither contains the other. */
  ghost predicate PartialOverlap(g: Cfg, s: Vertex, j: Vertex, s': Vertex, j': Vertex) {
    Overlapping(g, s, j, s', j') && !Within(g, s, j, s', j') && !Within(g, s', j', s, j)
  }

  function SplitsIn(input: Input, nodes: seq<Node>): seq<Node> {
    if nodes == [] then []
    else (if input.IsSplit(nodes[0]) then [nodes[0]] else []) + SplitsIn(input, nodes[1..])
  }

  /** `joins` matches the splits one to one and every region obeys rules 5 and 6. */
  ghost predicate JoinsOk(input: Input, g: Cfg, splits: seq<Node>, joins: seq<string>) {
    && |joins| == |splits|
    && (forall i :: 0 <= i < |splits| ==> SplitOk(input, g, splits[i], joins[i]))
    && (forall i, k {:trigger joins[i], joins[k]} :: 0 <= i < k < |joins| ==> joins[i] != joins[k])
  }

  /** Every concurrent gateway with several incoming flows is the join of some split. */
  ghost predicate JoinsComplete(input: Input, joins: seq<string>) {
    forall n :: n in input.scopeNodes && input.IsToken(n) && IsSplitType(n.kind) && |input.Ins(n.id)| > 1 ==>
      n.id in joins
  }

  ghost predicate Laminar(g: Cfg, splits: seq<Node>, joins: seq<string>)
    requires |splits| == |joins|
  {
    forall i, k {:trigger joins[i], joins[k]} :: 0 <= i < k < |joins| ==>
      !PartialOverlap(g, Element(splits[i].id), Element(joins[i]), Element(splits[k].id), Element(joins[k]))
  }

  /** All seven rules. */
  ghost predicate Accepts(input: Input, g: Cfg, joins: seq<string>) {
    var splits := SplitsIn(input, input.scopeNodes);
    JoinsOk(input, g, splits, joins) && JoinsComplete(input, joins) && Laminar(g, splits, joins)
  }

  // ---- What an accepted region guarantees ------------------------------------------------

  /** A path of the graph stays among vertices that reach the sink if its end does. */
  lemma {:induction false} ReachesSink(g: Cfg, p: seq<Vertex>, i: nat)
    requires g.WellFormed() && g.Path(p) && i < |p| && g.Reversed().Reaches(Sink, p[|p| - 1])
    ensures g.Reversed().Reaches(Sink, p[i])
    decreases |p| - i
  {
    if i < |p| - 1 {
      ReachesSink(g, p, i + 1);
      assert g.Step(p, i);
      assert g.Reversed().Edge(p[i + 1], p[i]);
      ReachesEdge(g.Reversed(), Sink, p[i + 1], p[i]);
    }
  }

  lemma EndPoints(input: Input, g: Cfg, s: Node, j: string)
    requires input.Represents(g) && Matched(input, g, s, j)
    ensures Dom(g, Element(s.id), Element(s.id)) && Dom(g, Element(s.id), Element(j))
    ensures PostDom(g, Element(j), Element(j)) && PostDom(g, Element(j), Element(s.id))
    ensures s.id != j
    ensures Element(s.id) in g.verts ==> Member(g, Element(s.id), Element(j), Element(s.id))
    ensures Element(j) in g.verts ==> Member(g, Element(s.id), Element(j), Element(j))
  {
    OnReachablePath(g, Source, Element(s.id), Element(j));
    OnReachablePath(g.Reversed(), Sink, Element(j), Element(s.id));
  }

  /** A boundary event is entered from its host alone, so what dominates the host dominates the event. */
  lemma DominatesAttached(input: Input, g: Cfg, s: Vertex, x: Vertex, b: Node)
    requires input.Represents(g) && input.Validated() && b in input.scopeNodes && input.IsRouting(b)
    requires b.attachedTo.Some? && x == Element(b.attachedTo.value) && g.Edge(x, Element(b.id)) && Dom(g, s, x)
    ensures Dom(g, s, Element(b.id))
  {
    var y := Element(b.id);
    ReachesEdge(g, Source, x, y);
    forall p | g.PathBetween(p, Source, y) ensures s in p {
      var q := p[..|p| - 1];
      SubPath(g, p, 0, |p| - 1);
      assert p[0..|p| - 1] == q;
      assert g.Step(p, |p| - 2);
      OnlyFromHost(input, g, p[|p| - 2], b);
      assert s in q;
    }
  }

  lemma OnlyFromHost(input: Input, g: Cfg, z: Vertex, b: Node)
    requires input.Represents(g) && input.Validated() && b in input.scopeNodes && input.IsRouting(b)
    requires g.Edge(z, Element(b.id)) && b.attachedTo.Some?
    ensures z == Element(b.attachedTo.value)
  {
    var y := Element(b.id);
    assert input.nodeById[b.id] == b;
    assert input.CfgEdge(z, y);
    StartIsToken(input, input.scopeNodes);
    if n :| n in input.scopeNodes && input.IsRouting(n) && input.BoundaryEdge(n, z, y) {
      assert input.nodeById[n.id] == n;
    }
  }

  lemma StartIsToken(input: Input, nodes: seq<Node>)
    ensures input.StartIn(nodes).Some? ==>
              input.StartIn(nodes).value in nodes && input.StartIn(nodes).value.kind.StartEvent?
  {
  }

  /** One edge from a member other than the join leads to a member. */
  lemma MemberStep(input: Input, g: Cfg, s: Node, j: string, x: Vertex, y: Vertex)
    requires input.Represents(g) && input.Validated() && SplitOk(input, g, s, j)
    requires Member(g, Element(s.id), Element(j), x) && x != Element(j)
    requires g.Edge(x, y) && g.Reversed().Reaches(Sink, y)
    ensures Member(g, Element(s.id), Element(j), y)
  {
    var sv, jv := Element(s.id), Element(j);
    EndPoints(input, g, s, j);
    assert input.CfgEdge(x, y);
    assert g.Reversed().Edge(y, x);
    DominatesPredecessor(g.Reversed(), Sink, jv, y, x);
    assert PostDom(g, jv, y);
    if y == Sink {
      assert g.Reversed().PathBetween([Sink], Sink, Sink);
      assert false;
    }
    if n :| n in input.scopeNodes && input.IsRouting(n) && input.BoundaryEdge(n, x, y)
            && !input.FlowEdge(n.id, false, x, y) {
      DominatesAttached(input, g, sv, x, n);
    } else {
      assert y.Element? && y.id in input.Outs(x.id);
      assert ConfinedAt(input, g, s, j, x);
    }
  }

  /** A walk that starts in the region and has not met the join yet is in the region. */
  lemma {:induction false} WalkStaysInside(input: Input, g: Cfg, s: Node, j: string, p: seq<Vertex>, i: nat)
    requires input.Represents(g) && input.Validated() && SplitOk(input, g, s, j)
    requires g.Path(p) && i < |p| && Element(j) !in p[..i] && Member(g, Element(s.id), Element(j), p[0])
    requires g.Reversed().Reaches(Sink, p[|p| - 1])
    ensures Member(g, Element(s.id), Element(j), p[i])
  {
    if i > 0 {
      assert p[..i - 1] <= p[..i];
      assert p[i - 1] in p[..i];
      WalkStaysInside(input, g, s, j, p, i - 1);
      assert g.Step(p, i - 1);
      ReachesSink(g, p, i);
      MemberStep(input, g, s, j, p[i - 1], p[i]);
    }
  }

  /** Single exit: on every path from an accepted split to the sink, each vertex before the first occurrence of
      the join is dominated by the split and post-dominated by the join, and the join does occur. */
  lemma RegionExitsThroughJoin(input: Input, g: Cfg, s: Node, j: string, p: seq<Vertex>, i: nat)
    requires input.Represents(g) && input.Validated() && SplitOk(input, g, s, j)
    requires g.PathBetween(p, Element(s.id), Sink) && i < |p| && Element(j) !in p[..i + 1]
    ensures Element(j) in p
    ensures Dom(g, Element(s.id), p[i]) && PostDom(g, Element(j), p[i])
    ensures p[i] in g.verts && p[i].Element?
  {
    EndPoints(input, g, s, j);
    PostDomination(g, Sink, Element(j), Element(s.id));
    SplitIsVertex(input, g, p);
    assert p[..i + 1][..i] == p[..i];
    assert p[i] in p[..i + 1];
    assert g.Reversed().PathBetween([Sink], Sink, Sink);
    WalkStaysInside(input, g, s, j, p, i);
  }

  /** Accepted regions as a whole: no two splits share a join, and every way from a split to the sink stays among
      vertices between split and join until it meets the join. */
  lemma AcceptedRegions(input: Input, g: Cfg, joins: seq<string>, k: nat, p: seq<Vertex>, i: nat)
    requires input.Represents(g) && input.Validated() && Accepts(input, g, joins) && k < |joins|
    requires g.PathBetween(p, Element(SplitsIn(input, input.scopeNodes)[k].id), Sink)
    requires i < |p| && Element(joins[k]) !in p[..i + 1]
    ensures forall h :: 0 <= h < |joins| && h != k ==> joins[h] != joins[k]
    ensures Element(joins[k]) in p
    ensures Dom(g, Element(SplitsIn(input, input.scopeNodes)[k].id), p[i]) && PostDom(g, Element(joins[k]), p[i])
  {
    var s := SplitsIn(input, input.scopeNodes)[k];
    assert SplitOk(input, g, s, joins[k]);
    RegionExitsThroughJoin(input, g, s, joins[k], p, i);
    forall h | 0 <= h < |joins| && h != k ensures joins[h] != joins[k] {
      assert if h < k then joins[h] != joins[k] else joins[k] != joins[h];
    }
  }

  lemma SplitIsVertex(input: Input, g: Cfg, p: seq<Vertex>)
    requires input.Represents(g) && |p| > 0 && g.PathBetween(p, p[0], Sink) && p[0] != Sink
    ensures p[0] in g.verts
  {
    assert |p| > 1;
    assert g.Step(p, 0);
  }

  /** Single entry, up to loops: an edge into the interior of a region from outside starts at a vertex that
      cannot be reached from the split without passing the join. */
  lemma SideEntryIsPastJoin(input: Input, g: Cfg, s: Node, j: string, x: Vertex, y: Vertex, p: seq<Vertex>)
    requires input.Represents(g) && input.Validated() && SplitOk(input, g, s, j)
    requires g.Edge(x, y) && Member(g, Element(s.id), Element(j), y) && y != Element(s.id)
    requires !Member(g, Element(s.id), Element(j), x)
    requires g.PathBetween(p, Element(s.id), x) && Element(s.id) in g.verts
    ensures Element(j) in p
  {
    if Element(j) !in p {
      EndPoints(input, g, s, j);
      assert g.Reversed().Edge(y, x);
      ReachesEdge(g.Reversed(), Sink, y, x);
      WalkStaysInside(input, g, s, j, p, |p| - 1);
      assert false;
    }
  }

  /** An edge that enters the region behind the split, from a reachable vertex outside it or from the join. */
  ghost predicate SideEntry(g: Cfg, s: Vertex, j: Vertex, x: Vertex, y: Vertex) {
    && g.Edge(x, y) && g.Reaches(Source, x) && (x == j || !Member(g, s, j, x))
    && Member(g, s, j, y) && y != s
  }

  /** A path from the join to a member that misses the split. */
  ghost predicate LoopsBack(g: Cfg, s: Vertex, j: Vertex, q: seq<Vertex>) {
    |q| > 1 && g.PathBetween(q, j, q[|q| - 1]) && s !in q && Member(g, s, j, q[|q| - 1])
  }

  lemma EntryLoopsBack(input: Input, g: Cfg, s: Node, j: string, x: Vertex, y: Vertex)
    requires input.Represents(g) && input.Validated() && SplitOk(input, g, s, j) && Element(s.id) in g.verts
    requires SideEntry(g, Element(s.id), Element(j), x, y)
    ensures exists q :: LoopsBack(g, Element(s.id), Element(j), q)
  {
    var sv, jv := Element(s.id), Element(j);
    EndPoints(input, g, s, j);
    if x == jv {
      assert g.Step([jv, y], 0);
      assert LoopsBack(g, sv, jv, [jv, y]);
    } else {
      var p :| g.PathBetween(p, Source, x);
      ExtendPath(g, p, Source, x, y);
      assert sv in p by { assert sv in p + [y]; }
      var k := LastOccurrence(p, sv);
      SubPath(g, p, k, |p|);
      SideEntryIsPastJoin(input, g, s, j, x, y, p[k..|p|]);
      AfterSplitLoops(g, sv, jv, p, k, y);
    }
  }

  lemma AfterSplitLoops(g: Cfg, s: Vertex, j: Vertex, p: seq<Vertex>, k: nat, y: Vertex)
    requires g.Path(p) && k < |p| && p[k] == s && s !in p[k + 1..] && j in p[k..|p|] && j != s
    requires g.Edge(p[|p| - 1], y) && y != s && Member(g, s, j, y)
    ensures exists q :: LoopsBack(g, s, j, q)
  {
    var m :| 0 <= m < |p[k..|p|]| && p[k..|p|][m] == j;
    assert p[k + m] == j && m > 0;
    SubPath(g, p, k + m, |p|);
    var q := p[k + m..|p|];
    assert q == p[k + 1..][m - 1..];
    ExtendPath(g, q, j, p[|p| - 1], y);
    assert s !in q + [y] && (q + [y])[|q|] == y;
    assert LoopsBack(g, s, j, q + [y]);
  }

  lemma LoopEnters(g: Cfg, s: Vertex, j: Vertex, q: seq<Vertex>) returns (i: nat)
    requires LoopsBack(g, s, j, q) && g.Reaches(Source, j)
    ensures i + 1 < |q| && SideEntry(g, s, j, q[i], q[i + 1])
  {
    i := |q| - 2;
    while i > 0 && q[i] != j && Member(g, s, j, q[i])
      invariant i + 1 < |q| && Member(g, s, j, q[i + 1])
    {
      i := i - 1;
    }
    SubPath(g, q, 0, i + 1);
    var p :| g.PathBetween(p, Source, j);
    JoinPaths(g, p, q[0..i + 1], Source, j, q[i]);
    assert g.Step(q, i);
  }

  /** Accepted regions are strictly single-entry exactly if no loop leads from the join back behind the split. */
  lemma SingleEntryExactly(input: Input, g: Cfg, s: Node, j: string)
    requires input.Represents(g) && input.Validated() && SplitOk(input, g, s, j) && Element(s.id) in g.verts
    ensures (forall x, y :: !SideEntry(g, Element(s.id), Element(j), x, y)) <==>
            (forall q :: !LoopsBack(g, Element(s.id), Element(j), q))
  {
    var sv, jv := Element(s.id), Element(j);
    EndPoints(input, g, s, j);
    if x, y :| SideEntry(g, sv, jv, x, y) { EntryLoopsBack(input, g, s, j, x, y); }
    if q :| LoopsBack(g, sv, jv, q) { var i := LoopEnters(g, sv, jv, q); }
  }

  // ---- Nesting ---------------------------------------------------------------------------

  /** From a vertex that both joins post-dominate there is a walk to the inner join that avoids the outer one. */
  lemma WalkToInnerJoin(g: Cfg, x: Vertex, near: Vertex, far: Vertex) returns (p: seq<Vertex>)
    requires g.WellFormed() && PostDom(g, near, x) && PostDom(g, far, near) && near != far
    ensures g.PathBetween(p, x, near) && far !in p[..|p| - 1]
  {
    var r := g.Reversed();
    ReversedWellFormed(g);
    var q :| r.PathBetween(q, Sink, x);
    ReversePath(r, q, Sink, x);
    var w := Backwards(q);
    assert near in w by { PostDomination(g, Sink, near, x); }
    FirstOccurrence(w, near);
    var k :| 0 <= k < |w| && w[k] == near && near !in w[..k];
    SubPath(g, w, 0, k + 1);
    p := w[0..k + 1];
    assert p[..|p| - 1] == w[..k];
    NearComesFirst(g, x, near, far, w, k);
  }

  lemma NearComesFirst(g: Cfg, x: Vertex, near: Vertex, far: Vertex, w: seq<Vertex>, k: nat)
    requires g.WellFormed() && PostDom(g, near, x) && PostDom(g, far, near) && near != far
    requires g.PathBetween(w, x, Sink) && k < |w| && near !in w[..k]
    ensures far !in w[..k]
  {
    var r := g.Reversed();
    OnReachablePath(r, Sink, far, near);
    if r.Dominates(Sink, near, far) {
      var z :| r.PathBetween(z, Sink, near);
      DominatesAntisymmetric(r, Sink, near, far, z);
    }
    PostDomination(g, Sink, near, far);
    PostDomination(g, Sink, near, x);
    var e :| g.PathBetween(e, far, Sink) && near !in e;
    if far in w[..k] {
      var h :| 0 <= h < k && w[h] == far;
      SubPath(g, w, 0, h + 1);
      assert w[0..h + 1] == w[..k][..h + 1];
      assert near !in w[0..h + 1] + e[1..];
      JoinPaths(g, w[0..h + 1], e, x, far, Sink);
      assert false;
    }
  }

  lemma {:induction false} FirstOccurrence(p: seq<Vertex>, v: Vertex)
    requires v in p
    ensures exists k :: 0 <= k < |p| && p[k] == v && v !in p[..k]
    decreases |p|
  {
    var q := p[..|p| - 1];
    if v in q {
      FirstOccurrence(q, v);
      var k :| 0 <= k < |q| && q[k] == v && v !in q[..k];
      assert p[k] == v && p[..k] == q[..k];
    } else {
      assert p[|p| - 1] == v && p[..|p| - 1] == q;
    }
  }

  /** Two overlapping regions whose splits are ordered by domination are nested, unless the outer join is the
      inner split. */
  lemma OverlapIsNested(input: Input, g: Cfg, s: Node, j: string, s': Node, j': string, x: Vertex)
    requires input.Represents(g) && input.Validated() && SplitOk(input, g, s, j) && SplitOk(input, g, s', j')
    requires Member(g, Element(s.id), Element(j), x) && Member(g, Element(s'.id), Element(j'), x)
    requires g.Dominates(Source, Element(s.id), Element(s'.id)) && s.id != s'.id && s'.id != j
    ensures Within(g, Element(s'.id), Element(j'), Element(s.id), Element(j))
  {
    var sv, jv, sv', jv' := Element(s.id), Element(j), Element(s'.id), Element(j');
    var r := g.Reversed();
    EndPoints(input, g, s, j);
    EndPoints(input, g, s', j');
    DominatesLinear(r, Sink, jv, jv', x);
    if !r.Dominates(Sink, jv, jv') {
      OnReachablePath(r, Sink, jv', jv);
      var p := WalkToInnerJoin(g, x, jv, jv');
      ReversePath(g, p, x, jv);
      WalkStaysInside(input, g, s', j', p, |p| - 1);
      assert g.Dominates(Source, sv', jv);
      assert g.Dominates(Source, sv', sv);
      var q :| g.PathBetween(q, Source, sv);
      DominatesAntisymmetric(g, Source, sv, sv', q);
      assert false;
    }
    forall y | Member(g, sv', jv', y) ensures Member(g, sv, jv, y) {
      NestedMember(g, sv, jv, sv', jv', y);
    }
  }

  lemma NestedMember(g: Cfg, s: Vertex, j: Vertex, s': Vertex, j': Vertex, y: Vertex)
    requires Dom(g, s', s') && PostDom(g, j', j')
    requires g.Dominates(Source, s, s') && g.Reversed().Dominates(Sink, j, j') && Member(g, s', j', y)
    ensures Member(g, s, j, y)
  {
    DominatesTransitive(g, Source, s, s', y);
    DominatesTransitive(g.Reversed(), Sink, j, j', y);
  }

  /** A join that splits again belongs to both regions, and neither contains the other. */
  lemma SharedJoinOverlaps(input: Input, g: Cfg, s: Node, j: string, s': Node, j': string)
    requires input.Represents(g) && SplitOk(input, g, s, j) && SplitOk(input, g, s', j')
    requires s'.id == j && Element(s.id) in g.verts && Element(j) in g.verts && Element(j') in g.verts
    ensures PartialOverlap(g, Element(s.id), Element(j), Element(s'.id), Element(j'))
  {
    var sv, jv, jv' := Element(s.id), Element(j), Element(j');
    EndPoints(input, g, s, j);
    EndPoints(input, g, s', j');
    assert Member(g, sv, jv, jv) && Member(g, jv, jv', jv);
    if Member(g, jv, jv', sv) {
      var p :| g.PathBetween(p, Source, sv);
      DominatesAntisymmetric(g, Source, sv, jv, p);
    }
    if Member(g, sv, jv, jv') {
      var p :| g.Reversed().PathBetween(p, Sink, jv);
      DominatesAntisymmetric(g.Reversed(), Sink, jv, jv', p);
    }
  }

  /** Rule 7 is implied by the other rules with one exception: it fires exactly when the join of one matched
      split is the other split. */
  lemma OverlapExactly(input: Input, g: Cfg, s: Node, j: string, s': Node, j': string)
    requires input.Represents(g) && input.Validated() && SplitOk(input, g, s, j) && SplitOk(input, g, s', j')
    requires s.id != s'.id
    requires Element(s.id) in g.verts && Element(j) in g.verts && Element(s'.id) in g.verts && Element(j') in g.verts
    ensures PartialOverlap(g, Element(s.id), Element(j), Element(s'.id), Element(j')) <==> s'.id == j || s.id == j'
  {
    var sv, jv, sv', jv' := Element(s.id), Element(j), Element(s'.id), Element(j');
    EndPoints(input, g, s, j);
    EndPoints(input, g, s', j');
    if s'.id == j {
      SharedJoinOverlaps(input, g, s, j, s', j');
    } else if s.id == j' {
      SharedJoinOverlaps(input, g, s', j', s, j);
      assert PartialOverlap(g, sv, jv, sv', jv') by { var x :| Member(g, sv', jv', x) && Member(g, sv, jv, x); }
    } else if Overlapping(g, sv, jv, sv', jv') {
      var x :| Member(g, sv, jv, x) && Member(g, sv', jv', x);
      DominatesLinear(g, Source, sv, sv', x);
      if g.Dominates(Source, sv, sv') {
        OverlapIsNested(input, g, s, j, s', j', x);
      } else {
        OverlapIsNested(input, g, s', j', s, j, x);
      }
    }
  }

  lemma SplitsAreTokens(input: Input, nodes: seq<Node>)
    ensures forall s :: s in SplitsIn(input, nodes) ==> s in nodes && input.IsSplit(s)
  {
  }

  lemma JoinIsVertex(input: Input, g: Cfg, s: Node, j: string)
    requires input.Represents(g) && Matched(input, g, s, j)
    ensures Element(j) in g.verts
  {
    var p :| g.PathBetween(p, Source, Element(j));
    assert g.Step(p, |p| - 2);
  }

  /** Rule 7 as a whole: given rules 1 to 6, the regions are laminar exactly if no matched join splits again. */
  lemma LaminarExactly(input: Input, g: Cfg, joins: seq<string>)
    requires input.Represents(g) && input.Validated()
    requires JoinsOk(input, g, SplitsIn(input, input.scopeNodes), joins)
    ensures Laminar(g, SplitsIn(input, input.scopeNodes), joins) <==>
              forall i, k :: 0 <= i < |joins| && 0 <= k < |joins| ==>
                  joins[i] != SplitsIn(input, input.scopeNodes)[k].id
  {
    var splits := SplitsIn(input, input.scopeNodes);
    SplitsAreTokens(input, input.scopeNodes);
    forall i, k | 0 <= i < |joins| && 0 <= k < |joins| && i != k
      ensures PartialOverlap(g, Element(splits[i].id), Element(joins[i]), Element(splits[k].id), Element(joins[k]))
         <==> splits[k].id == joins[i] || splits[i].id == joins[k]
    {
      assert SplitOk(input, g, splits[i], joins[i]) && SplitOk(input, g, splits[k], joins[k]);
      assert splits[i] in splits && splits[k] in splits;
      JoinIsVertex(input, g, splits[i], joins[i]);
      JoinIsVertex(input, g, splits[k], joins[k]);
      if splits[i].id == splits[k].id {
        ImmediateUnique(g.Reversed(), Sink, Element(joins[i]), Element(joins[k]), Element(splits[i].id));
      }
      OverlapExactly(input, g, splits[i], joins[i], splits[k], joins[k]);
    }
    forall i | 0 <= i < |joins| ensures joins[i] != splits[i].id {
      assert SplitOk(input, g, splits[i], joins[i]);
    }
  }
}
