/** Iterative dominators (Cooper, Harvey and Kennedy), src/bpmn/regions.ts:52-95. The fixpoint loop
    rewrites a partial map in place; the result is specified by paths, which the code never mentions. */
module Dominators {
  import opened Prelude
  import opened Graphs
  import opened Postorder

  /** The partial `idom` map while it is being computed. */
  type Tree = map<Vertex, Vertex>

  /** The reverse postorder `ord` of the vertices reachable from `entry`, with its inverse `rpo`. */
  datatype Numbering = Numbering(entry: Vertex, ord: seq<Vertex>, rpo: map<Vertex, nat>) {

    ghost predicate Inverse() {
      && |ord| > 0 && ord[0] == entry && entry in rpo
      && (forall i {:trigger ord[i]} :: 0 <= i < |ord| ==> ord[i] in rpo && rpo[ord[i]] == i)
      && (forall v {:trigger rpo[v]} :: v in rpo ==> rpo[v] < |ord| && ord[rpo[v]] == v)
    }

    /** Every vertex but the entry has a predecessor with a smaller number. */
    ghost predicate Valid(g: Cfg) {
      && Inverse()
      && (forall v :: v in rpo <==> g.Reaches(entry, v))
      && (forall v {:trigger HasForwardEdge(g, v)} :: v in rpo && v != entry ==> HasForwardEdge(g, v))
    }

    ghost predicate ForwardEdge(g: Cfg, u: Vertex, v: Vertex) {
      u in rpo && v in rpo && g.Edge(u, v) && rpo[u] < rpo[v]
    }

    ghost predicate HasForwardEdge(g: Cfg, v: Vertex) {
      exists u :: ForwardEdge(g, u, v)
    }

    ghost function Rank(v: Vertex): nat {
      if v in rpo then rpo[v] else 0
    }

    /** Parent links go strictly up the numbering and end at the entry. */
    ghost predicate Rooted(t: Tree) {
      && Inverse()
      && entry in t && t[entry] == entry
      && t.Keys <= rpo.Keys
      && (forall v {:trigger Parent(t, v)} :: v in t ==> Parent(t, v) in t)
      && (forall v {:trigger Parent(t, v)} :: v in t && v != entry ==> Rank(Parent(t, v)) < Rank(v))
    }

    /** The vertices met when following parent links from `x`. */
    ghost function Chain(t: Tree, x: Vertex): set<Vertex>
      decreases Rank(x)
    {
      if Rank(Parent(t, x)) < Rank(x) then {x} + Chain(t, Parent(t, x)) else {x}
    }
  }

  ghost function Parent(t: Tree, v: Vertex): Vertex {
    if v in t then t[v] else v
  }

  // ---- Chains of parent links ---------------------------------------------------------

  lemma {:induction false} ChainRank(n: Numbering, t: Tree, a: Vertex, b: Vertex)
    requires n.Rooted(t) && b in t && a in n.Chain(t, b)
    ensures a in t && n.Rank(a) <= n.Rank(b)
    ensures a != b ==> n.Rank(a) < n.Rank(b)
    decreases n.Rank(b)
  {
    if a != b { ChainRank(n, t, a, Parent(t, b)); }
  }

  lemma {:induction false} ChainTrans(n: Numbering, t: Tree, b: Vertex, c: Vertex)
    requires n.Rooted(t) && c in t && b in n.Chain(t, c)
    ensures b in t && n.Chain(t, b) <= n.Chain(t, c)
    decreases n.Rank(c)
  {
    if b != c { ChainTrans(n, t, b, Parent(t, c)); }
  }

  /** Two trees that agree on every vertex up to a rank have the same chains there. */
  lemma {:induction false} ChainAgree(n: Numbering, t: Tree, t': Tree, x: Vertex)
    requires n.Rooted(t) && n.Rooted(t') && x in t
    requires forall y :: y in t && n.Rank(y) <= n.Rank(x) ==> Parent(t', y) == Parent(t, y)
    ensures n.Chain(t, x) == n.Chain(t', x)
    decreases n.Rank(x)
  {
    if x != n.entry { ChainAgree(n, t, t', Parent(t, x)); }
  }

  // ---- Nearest common ancestor -----------------------------------------------------------

  lemma StepUp(n: Numbering, t: Tree, x: Vertex, y: Vertex)
    requires n.Rooted(t) && x in t && y in t && n.Rank(x) > n.Rank(y)
    ensures x != n.entry && Parent(t, x) in t && n.Rank(Parent(t, x)) < n.Rank(x)
    ensures n.Chain(t, x) * n.Chain(t, y) == n.Chain(t, Parent(t, x)) * n.Chain(t, y)
    ensures n.Chain(t, y) * n.Chain(t, x) == n.Chain(t, y) * n.Chain(t, Parent(t, x))
  {
    if x in n.Chain(t, y) { ChainRank(n, t, x, y); }
  }

  /** Two fingers climb until they meet: the result has exactly the common ancestors as its chain. */
  method Intersect(n: Numbering, t: Tree, a: Vertex, b: Vertex) returns (r: Vertex)
    requires n.Rooted(t) && a in t && b in t
    ensures r in t && n.Chain(t, r) == n.Chain(t, a) * n.Chain(t, b)
  {
    var x, y := a, b;
    while x != y
      invariant x in t && y in t
      invariant n.Chain(t, x) * n.Chain(t, y) == n.Chain(t, a) * n.Chain(t, b)
      decreases n.rpo[x] + n.rpo[y]
    {
      ghost var x0, y0 := x, y;
      assert n.rpo[x] != n.rpo[y];
      while n.rpo[x] > n.rpo[y]
        invariant x in t && n.rpo[x] <= n.rpo[x0] && (x == x0 || n.rpo[x] < n.rpo[x0])
        invariant n.Chain(t, x) * n.Chain(t, y) == n.Chain(t, a) * n.Chain(t, b)
        decreases n.rpo[x]
      {
        StepUp(n, t, x, y);
        x := t[x];
      }
      while n.rpo[y] > n.rpo[x]
        invariant y in t && n.rpo[y] <= n.rpo[y0] && (y == y0 || n.rpo[y] < n.rpo[y0])
        invariant n.Chain(t, x) * n.Chain(t, y) == n.Chain(t, a) * n.Chain(t, b)
        decreases n.rpo[y]
      {
        StepUp(n, t, y, x);
        y := t[y];
      }
    }
    r := x;
  }

  // ---- Invariants of the fixpoint loop ---------------------------------------------------

  /** `d` is on the chain of every vertex of `ps` that already has a parent. */
  ghost predicate Common(n: Numbering, t: Tree, ps: seq<Vertex>, d: Vertex) {
    forall p {:trigger p in ps} :: p in ps && p in t ==> d in n.Chain(t, p)
  }

  ghost predicate SomeDefined(t: Tree, ps: seq<Vertex>) {
    exists p :: p in ps && p in t
  }

  /** `u` is the nearest common ancestor of the vertices of `ps` that already have a parent. */
  ghost predicate Meet(n: Numbering, t: Tree, ps: seq<Vertex>, u: Vertex) {
    && u in t && SomeDefined(t, ps)
    && (forall d {:trigger Common(n, t, ps, d)} {:trigger d in n.Chain(t, u)} ::
          d in n.Chain(t, u) <==> Common(n, t, ps, d))
  }

  /** No common ancestor of the predecessors of `v` lies below the parent of `v`. */
  ghost predicate BoundedAt(g: Cfg, n: Numbering, t: Tree, v: Vertex) {
    forall d {:trigger Common(n, t, Neighbours(g.pred, v), d)} :: Common(n, t, Neighbours(g.pred, v), d) ==>
      n.Rank(d) <= n.Rank(Parent(t, v))
  }

  ghost predicate Bounded(g: Cfg, n: Numbering, t: Tree) {
    forall v {:trigger BoundedAt(g, n, t, v)} :: v in t && v != n.entry ==> BoundedAt(g, n, t, v)
  }

  /** Every strict dominator of `v` dominates the parent of `v`. */
  ghost predicate KeepsAt(g: Cfg, n: Numbering, t: Tree, v: Vertex) {
    forall d :: d != v && g.Dominates(n.entry, d, v) ==> g.Dominates(n.entry, d, Parent(t, v))
  }

  ghost predicate Keeps(g: Cfg, n: Numbering, t: Tree) {
    forall v {:trigger KeepsAt(g, n, t, v)} :: v in t && v != n.entry ==> KeepsAt(g, n, t, v)
  }

  /** Below rank `m` the parent of a vertex is on the chain of each of its forward predecessors. */
  ghost predicate Supported(g: Cfg, n: Numbering, t: Tree, m: nat) {
    forall p, v {:trigger n.ForwardEdge(g, p, v)} :: n.ForwardEdge(g, p, v) && v in t && p in t && n.Rank(v) < m ==>
      Parent(t, v) in n.Chain(t, p)
  }

  /** Below rank `m` every parent is the nearest common ancestor of all predecessors. */
  ghost predicate Fixed(g: Cfg, n: Numbering, t: Tree, m: nat) {
    forall i :: 0 < i < m && i < |n.ord| ==> Meet(n, t, Neighbours(g.pred, n.ord[i]), Parent(t, n.ord[i]))
  }

  /** From rank `m` on, `t` is still the tree `prev` of the start of the pass. */
  ghost predicate SameFrom(n: Numbering, prev: Tree, t: Tree, m: nat) {
    forall x {:trigger Parent(t, x)} :: x in n.rpo && n.Rank(x) >= m ==>
        (x in t <==> x in prev) && Parent(t, x) == Parent(prev, x)
  }

  ghost predicate DefinedUpTo(n: Numbering, t: Tree, m: nat) {
    forall i :: 0 <= i < m && i < |n.ord| ==> n.ord[i] in t
  }

  /** What holds when a pass that started from `prev` has treated the ranks below `m`. */
  ghost predicate Pass(g: Cfg, n: Numbering, prev: Tree, t: Tree, m: nat) {
    && g.WellFormed() && n.Valid(g) && n.Rooted(prev) && n.Rooted(t) && m <= |n.ord|
    && (prev.Keys == {n.entry} || prev.Keys == n.rpo.Keys)
    && prev.Keys <= t.Keys
    && DefinedUpTo(n, t, m)
    && SameFrom(n, prev, t, m)
    && Supported(g, n, prev, |n.ord|) && Supported(g, n, t, m)
    && Bounded(g, n, t)
    && Keeps(g, n, t)
  }

  // ---- One update of the tree ------------------------------------------------------------

  lemma {:induction false} ChainShrinks(n: Numbering, t: Tree, t': Tree, v: Vertex, u: Vertex, x: Vertex)
    requires n.Rooted(t) && v in n.rpo && v != n.entry && u in t && t' == t[v := u] && n.Rooted(t')
    requires v in t ==> u in n.Chain(t, Parent(t, v))
    requires x in t
    ensures n.Chain(t', x) <= n.Chain(t, x)
    decreases n.Rank(x)
  {
    if x == n.entry {
    } else if x == v {
      assert Parent(t', v) == u;
      ChainShrinks(n, t, t', v, u, u);
      ChainTrans(n, t, u, Parent(t, v));
    } else {
      assert Parent(t', x) == Parent(t, x);
      ChainShrinks(n, t, t', v, u, Parent(t, x));
    }
  }

  lemma SetParentRooted(n: Numbering, t: Tree, v: Vertex, u: Vertex)
    requires n.Rooted(t) && v in n.rpo && v != n.entry && u in t && n.Rank(u) < n.Rank(v)
    ensures n.Rooted(t[v := u])
  {
    var t' := t[v := u];
    forall x | x in t' ensures Parent(t', x) in t' && (x != n.entry ==> n.Rank(Parent(t', x)) < n.Rank(x)) {
      if x != v { assert Parent(t', x) == Parent(t, x); }
    }
  }

  lemma SetParentBelow(n: Numbering, t: Tree, v: Vertex, u: Vertex, x: Vertex)
    requires n.Rooted(t) && n.Rooted(t[v := u]) && x in t && n.Rank(x) < n.Rank(v)
    ensures n.Chain(t[v := u], x) == n.Chain(t, x)
  {
    ChainAgree(n, t, t[v := u], x);
  }

  ghost predicate Shrinks(n: Numbering, t: Tree, t': Tree) {
    t.Keys <= t'.Keys && forall x {:trigger n.Chain(t', x)} :: x in t ==> n.Chain(t', x) <= n.Chain(t, x)
  }

  lemma SetParent(n: Numbering, t: Tree, v: Vertex, u: Vertex)
    requires n.Rooted(t) && v in n.rpo && v != n.entry && u in t && n.Rank(u) < n.Rank(v)
    requires v in t ==> u in n.Chain(t, Parent(t, v))
    ensures n.Rooted(t[v := u]) && Shrinks(n, t, t[v := u])
    ensures forall x {:trigger n.Chain(t[v := u], x)} :: x in t && n.Rank(x) < n.Rank(v) ==>
            n.Chain(t[v := u], x) == n.Chain(t, x)
  {
    SetParentRooted(n, t, v, u);
    forall x {:trigger n.Chain(t[v := u], x)} | x in t ensures n.Chain(t[v := u], x) <= n.Chain(t, x) {
      ChainShrinks(n, t, t[v := u], v, u, x);
    }
    forall x {:trigger n.Chain(t[v := u], x)} | x in t && n.Rank(x) < n.Rank(v)
      ensures n.Chain(t[v := u], x) == n.Chain(t, x)
    {
      SetParentBelow(n, t, v, u, x);
    }
  }

  /** Why a pass only ever moves parents up: an ancestor `u` in the new tree that ranks above an old ancestor
      `w` of the same vertex is an ancestor of `w` as well. Follows forward predecessors down to `w`. */
  lemma {:induction false} Descend(g: Cfg, n: Numbering, prev: Tree, t: Tree, m: nat, p: Vertex, w: Vertex, u: Vertex)
    requires n.Valid(g) && n.Rooted(prev) && n.Rooted(t) && prev.Keys == n.rpo.Keys && t.Keys == n.rpo.Keys
    requires Supported(g, n, prev, |n.ord|) && Supported(g, n, t, m)
    requires p in t && n.Rank(p) < m && w in n.Chain(prev, p) && u in n.Chain(t, p)
    requires n.Rank(u) <= n.Rank(w)
    ensures u in n.Chain(t, w)
    decreases n.Rank(p)
  {
    if p != w {
      ChainRank(n, prev, w, p);
      ChainRank(n, t, u, p);
      assert n.HasForwardEdge(g, p);
      var h :| n.ForwardEdge(g, h, p);
      assert n.Rank(p) < |n.ord|;
      ChainTrans(n, prev, Parent(prev, p), h);
      ChainTrans(n, t, Parent(t, p), h);
      Descend(g, n, prev, t, m, h, w, u);
    }
  }

  // ---- Dominators are never dropped ------------------------------------------------------

  lemma {:induction false} DominatorOnChain(g: Cfg, n: Numbering, t: Tree, d: Vertex, v: Vertex)
    requires n.Rooted(t) && Keeps(g, n, t) && v in t && g.Dominates(n.entry, d, v)
    ensures d in n.Chain(t, v)
    decreases n.Rank(v)
  {
    if v == n.entry {
      assert g.PathBetween([v], v, v);
    } else if d != v {
      assert KeepsAt(g, n, t, v);
      DominatorOnChain(g, n, t, d, Parent(t, v));
    }
  }

  lemma {:induction false} DominatesAncestor(g: Cfg, n: Numbering, t: Tree, d: Vertex, p: Vertex, u: Vertex)
    requires n.Rooted(t) && Keeps(g, n, t) && p in t && g.Dominates(n.entry, d, p)
    requires u in n.Chain(t, p) && d in n.Chain(t, u)
    ensures g.Dominates(n.entry, d, u)
    decreases n.Rank(p)
  {
    if p != u {
      ChainRank(n, t, u, p);
      ChainRank(n, t, d, u);
      assert KeepsAt(g, n, t, p);
      DominatesAncestor(g, n, t, d, Parent(t, p), u);
    }
  }

  lemma MeetKeeps(g: Cfg, n: Numbering, t: Tree, v: Vertex, u: Vertex)
    requires g.WellFormed() && n.Rooted(t) && Keeps(g, n, t) && Meet(n, t, Neighbours(g.pred, v), u)
    ensures forall d :: d != v && g.Dominates(n.entry, d, v) ==> g.Dominates(n.entry, d, u)
  {
    var ps := Neighbours(g.pred, v);
    var p :| p in ps && p in t;
    assert u in n.Chain(t, u);
    assert Common(n, t, ps, u);
    forall d | d != v && g.Dominates(n.entry, d, v) ensures g.Dominates(n.entry, d, u) {
      forall q | q in ps && q in t ensures d in n.Chain(t, q) && g.Dominates(n.entry, d, q) {
        assert g.Edge(q, v);
        DominatesPredecessor(g, n.entry, d, q, v);
        DominatorOnChain(g, n, t, d, q);
      }
      assert Common(n, t, ps, d);
      DominatesAncestor(g, n, t, d, p, u);
    }
  }

  // ---- One evaluation of the fixpoint equation -------------------------------------------

  /** The vertex at rank `m` has a forward predecessor with a parent, which bounds any common ancestor. */
  lemma MeetIsAbove(g: Cfg, n: Numbering, prev: Tree, t: Tree, m: nat, u: Vertex) returns (p: Vertex)
    requires Pass(g, n, prev, t, m) && 0 < m < |n.ord| && Meet(n, t, Neighbours(g.pred, n.ord[m]), u)
    ensures n.ForwardEdge(g, p, n.ord[m]) && p in t && n.Rank(p) < m && u in n.Chain(t, p)
    ensures n.Rank(u) < m && n.Rank(n.ord[m]) == m && n.ord[m] != n.entry && n.ord[m] in n.rpo
  {
    var v := n.ord[m];
    assert v in n.rpo && n.rpo[v] == m;
    assert n.HasForwardEdge(g, v);
    p :| n.ForwardEdge(g, p, v);
    assert n.ord[n.rpo[p]] == p;
    assert u in n.Chain(t, u);
    assert Common(n, t, Neighbours(g.pred, v), u);
    assert p in Neighbours(g.pred, v);
    ChainRank(n, t, u, p);
  }

  /** The new parent is an ancestor of the old one: chains only ever lose vertices. */
  lemma MovesUp(g: Cfg, n: Numbering, prev: Tree, t: Tree, m: nat, u: Vertex)
    requires Pass(g, n, prev, t, m) && 0 < m < |n.ord| && Meet(n, t, Neighbours(g.pred, n.ord[m]), u)
    requires n.ord[m] in t
    ensures u in n.Chain(t, Parent(t, n.ord[m])) && n.Rank(u) <= n.Rank(Parent(t, n.ord[m]))
  {
    var v := n.ord[m];
    var p := MeetIsAbove(g, n, prev, t, m, u);
    assert BoundedAt(g, n, t, v);
    assert u in n.Chain(t, u);
    assert Common(n, t, Neighbours(g.pred, v), u);
    assert v in prev && Parent(t, v) == Parent(prev, v);
    assert prev.Keys == n.rpo.Keys;
    Descend(g, n, prev, t, m, p, Parent(prev, v), u);
  }

  lemma CommonShrinks(n: Numbering, t: Tree, t': Tree, ps: seq<Vertex>, d: Vertex)
    requires Shrinks(n, t, t') && Common(n, t', ps, d)
    ensures Common(n, t, ps, d)
  {
  }

  lemma StepBounded(g: Cfg, n: Numbering, t: Tree, t': Tree, v: Vertex, u: Vertex)
    requires n.Rooted(t) && Bounded(g, n, t) && Meet(n, t, Neighbours(g.pred, v), u) && t' == t[v := u]
    requires Shrinks(n, t, t')
    ensures Bounded(g, n, t')
  {
    forall x | x in t' && x != n.entry ensures BoundedAt(g, n, t', x) {
      var ps := Neighbours(g.pred, x);
      forall d | Common(n, t', ps, d) ensures n.Rank(d) <= n.Rank(Parent(t', x)) {
        CommonShrinks(n, t, t', ps, d);
        if x == v {
          ChainRank(n, t, d, u);
        } else {
          assert BoundedAt(g, n, t, x) && Parent(t', x) == Parent(t, x);
        }
      }
    }
  }

  lemma StepKeeps(g: Cfg, n: Numbering, t: Tree, t': Tree, v: Vertex, u: Vertex)
    requires g.WellFormed() && n.Rooted(t) && Keeps(g, n, t) && Meet(n, t, Neighbours(g.pred, v), u) && t' == t[v := u]
    ensures Keeps(g, n, t')
  {
    forall x | x in t' && x != n.entry ensures KeepsAt(g, n, t', x) {
      if x == v {
        MeetKeeps(g, n, t, v, u);
      } else {
        assert KeepsAt(g, n, t, x) && Parent(t', x) == Parent(t, x);
      }
    }
  }

  lemma StepSupported(g: Cfg, n: Numbering, t: Tree, t': Tree, m: nat, u: Vertex)
    requires g.WellFormed() && n.Valid(g) && n.Rooted(t) && 0 < m < |n.ord| && Supported(g, n, t, m)
    requires Meet(n, t, Neighbours(g.pred, n.ord[m]), u) && t' == t[n.ord[m] := u] && DefinedUpTo(n, t, m)
    requires forall x {:trigger n.Chain(t', x)} :: x in t && n.Rank(x) < m ==> n.Chain(t', x) == n.Chain(t, x)
    ensures Supported(g, n, t', m + 1)
  {
    var v := n.ord[m];
    assert v in n.rpo && n.rpo[v] == m;
    assert u in n.Chain(t, u);
    assert Common(n, t, Neighbours(g.pred, v), u);
    forall p, x | n.ForwardEdge(g, p, x) && x in t' && p in t' && n.Rank(x) < m + 1
      ensures Parent(t', x) in n.Chain(t', p)
    {
      assert n.ord[n.rpo[p]] == p && p in t;
      assert n.Rank(p) < m;
      if n.Rank(x) == m {
        assert n.ord[n.rpo[x]] == x;
        assert p in Neighbours(g.pred, v);
      } else {
        assert x != v && Parent(t', x) == Parent(t, x);
      }
    }
  }

  lemma StepSame(n: Numbering, prev: Tree, t: Tree, m: nat, u: Vertex)
    requires n.Inverse() && m < |n.ord| && SameFrom(n, prev, t, m) && DefinedUpTo(n, t, m)
    ensures SameFrom(n, prev, t[n.ord[m] := u], m + 1) && DefinedUpTo(n, t[n.ord[m] := u], m + 1)
  {
    var v := n.ord[m];
    var t' := t[v := u];
    assert n.rpo[v] == m;
    forall x | x in n.rpo && n.Rank(x) >= m + 1
      ensures (x in t' <==> x in prev) && Parent(t', x) == Parent(prev, x)
    {
      assert x != v && Parent(t', x) == Parent(t, x);
    }
  }

  lemma UpdateTree(g: Cfg, n: Numbering, prev: Tree, t: Tree, m: nat, u: Vertex)
    requires Pass(g, n, prev, t, m) && 0 < m < |n.ord| && Meet(n, t, Neighbours(g.pred, n.ord[m]), u)
    ensures n.Rooted(t[n.ord[m] := u]) && Shrinks(n, t, t[n.ord[m] := u])
    ensures forall x {:trigger n.Chain(t[n.ord[m] := u], x)} :: x in t && n.Rank(x) < m ==>
              n.Chain(t[n.ord[m] := u], x) == n.Chain(t, x)
  {
    var p := MeetIsAbove(g, n, prev, t, m, u);
    if n.ord[m] in t { MovesUp(g, n, prev, t, m, u); }
    SetParent(n, t, n.ord[m], u);
  }

  lemma PassStep(g: Cfg, n: Numbering, prev: Tree, t: Tree, m: nat, u: Vertex)
    requires Pass(g, n, prev, t, m) && 0 < m < |n.ord| && Meet(n, t, Neighbours(g.pred, n.ord[m]), u)
    ensures Pass(g, n, prev, t[n.ord[m] := u], m + 1)
  {
    var t' := t[n.ord[m] := u];
    UpdateTree(g, n, prev, t, m, u);
    StepBounded(g, n, t, t', n.ord[m], u);
    StepKeeps(g, n, t, t', n.ord[m], u);
    StepSupported(g, n, t, t', m, u);
    StepSame(n, prev, t, m, u);
  }

  // ---- Termination -----------------------------------------------------------------------

  /** Summed ranks of all parents, a missing parent counting as much as the largest rank plus one. */
  ghost function Potential(n: Numbering, t: Tree, k: nat): nat {
    if k == 0 || k > |n.ord| then 0
    else Potential(n, t, k - 1) + (if n.ord[k - 1] in t then n.Rank(t[n.ord[k - 1]]) else |n.ord|)
  }

  lemma {:induction false} PotentialDrops(n: Numbering, t: Tree, m: nat, u: Vertex, k: nat)
    requires n.Inverse() && m < |n.ord| && k <= |n.ord|
    requires if n.ord[m] in t then n.Rank(u) < n.Rank(t[n.ord[m]]) else n.Rank(u) < |n.ord|
    ensures Potential(n, t[n.ord[m] := u], k) + (if k > m then 1 else 0) <= Potential(n, t, k)
  {
    if k > 0 {
      PotentialDrops(n, t, m, u, k - 1);
      assert n.rpo[n.ord[k - 1]] == k - 1 && n.rpo[n.ord[m]] == m;
    }
  }

  // ---- The fixpoint is exact -------------------------------------------------------------

  /** At the fixpoint an ancestor in the tree lies on every path. */
  lemma {:induction false} ChainOnPath(g: Cfg, n: Numbering, t: Tree, a: Vertex, b: Vertex, p: seq<Vertex>)
    requires g.WellFormed() && n.Valid(g) && n.Rooted(t) && t.Keys == n.rpo.Keys && Fixed(g, n, t, |n.ord|)
    requires g.PathBetween(p, n.entry, b) && b in t && a in n.Chain(t, b)
    ensures a in p
    decreases |p|
  {
    if a == b {
    } else if |p| > 1 {
      var q := p[..|p| - 1];
      var c := p[|p| - 2];
      SubPath(g, p, 0, |p| - 1);
      assert p[0..|p| - 1] == q;
      assert g.Step(p, |p| - 2);
      assert g.Reaches(n.entry, c);
      if b != n.entry {
        var u := Parent(t, b);
        assert n.ord[n.rpo[b]] == b && n.rpo[b] > 0;
        assert Meet(n, t, Neighbours(g.pred, b), u);
        assert u in n.Chain(t, u);
        assert Common(n, t, Neighbours(g.pred, b), u);
        assert c in Neighbours(g.pred, b);
        ChainTrans(n, t, u, c);
        ChainOnPath(g, n, t, a, c, q);
      }
    }
  }

  lemma FixpointExact(g: Cfg, n: Numbering, t: Tree)
    requires g.WellFormed() && n.Valid(g) && n.Rooted(t) && t.Keys == n.rpo.Keys && Fixed(g, n, t, |n.ord|)
    requires Keeps(g, n, t)
    ensures forall a, b :: b in t ==> (a in n.Chain(t, b) <==> g.Dominates(n.entry, a, b))
  {
    forall a, b | b in t ensures a in n.Chain(t, b) <==> g.Dominates(n.entry, a, b) {
      if g.Dominates(n.entry, a, b) { DominatorOnChain(g, n, t, a, b); }
      if a in n.Chain(t, b) {
        forall p | g.PathBetween(p, n.entry, b) ensures a in p { ChainOnPath(g, n, t, a, b, p); }
      }
    }
  }

  // ---- Numbering the reachable vertices --------------------------------------------------

  lemma {:induction false} StaysInside(g: Cfg, s: set<Vertex>, p: seq<Vertex>, k: nat)
    requires g.Path(p) && p[0] in s && k < |p|
    requires forall x, y :: x in s && g.Edge(x, y) ==> y in s
    ensures p[k] in s
  {
    if k > 0 {
      StaysInside(g, s, p, k - 1);
      assert g.Step(p, k - 1);
    }
  }

  lemma NumberingValid(g: Cfg, entry: Vertex, seen: set<Vertex>, post: seq<Vertex>, n: Numbering)
    requires Finished(g, entry, {}, seen, post, entry)
    requires n.entry == entry && |n.ord| == |post|
    requires forall i {:trigger n.ord[i]} :: 0 <= i < |post| ==> n.ord[i] == post[|post| - 1 - i]
    requires n.Inverse()
    ensures n.Valid(g)
  {
    forall v ensures v in n.rpo <==> g.Reaches(entry, v) {
      if v in n.rpo { assert n.ord[n.rpo[v]] in post; }
      if g.Reaches(entry, v) {
        var p :| g.PathBetween(p, entry, v);
        StaysInside(g, seen, p, |p| - 1);
        var i :| 0 <= i < |post| && post[i] == v;
        assert n.ord[|post| - 1 - i] == v;
      }
    }
    forall v | v in n.rpo && v != entry ensures n.HasForwardEdge(g, v) {
      var i := n.rpo[v];
      assert n.ord[i] == v;
      var j := |post| - 1 - i;
      assert HasLaterPredecessor(g, post, j);
      var k :| j < k < |post| && g.Edge(post[k], post[j]);
      assert n.ord[|post| - 1 - k] == post[k];
      assert n.ForwardEdge(g, post[k], v);
    }
  }

  method NumberVertices(g: Cfg, entry: Vertex) returns (n: Numbering)
    requires g.WellFormed() && entry in g.verts
    ensures n.entry == entry && n.Valid(g)
  {
    var search := new DepthFirst();
    assert g.PathBetween([entry], entry, entry);
    search.Visit(g, entry, entry);
    var post := search.order;
    var len := |post|;
    var ord := seq(len, i requires 0 <= i < len => post[len - 1 - i]);
    assert Distinct(post) && post[len - 1] == entry;
    var rpo := map i | 0 <= i < len :: ord[i] := i as nat;
    n := Numbering(entry, ord, rpo);
    NumberingValid(g, entry, search.seen, post, n);
  }

  // ---- The fixpoint loop -----------------------------------------------------------------

  lemma MeetExtend(n: Numbering, t: Tree, ps: seq<Vertex>, p: Vertex, u: Vertex, u': Vertex)
    requires Meet(n, t, ps, u) && p in t && u' in t
    requires n.Chain(t, u') == n.Chain(t, u) * n.Chain(t, p)
    ensures Meet(n, t, ps + [p], u')
  {
    var q :| q in ps && q in t;
    assert q in ps + [p];
    forall d ensures d in n.Chain(t, u') <==> Common(n, t, ps + [p], d) {
      if Common(n, t, ps + [p], d) {
        assert p in ps + [p];
        assert Common(n, t, ps, d) by {
          forall r | r in ps && r in t ensures d in n.Chain(t, r) { assert r in ps + [p]; }
        }
      }
    }
  }

  lemma MeetFirst(n: Numbering, t: Tree, ps: seq<Vertex>, p: Vertex)
    requires !SomeDefined(t, ps) && p in t
    ensures Meet(n, t, ps + [p], p)
  {
  }

  lemma MeetSkip(n: Numbering, t: Tree, ps: seq<Vertex>, p: Vertex)
    requires p !in t
    ensures SomeDefined(t, ps + [p]) <==> SomeDefined(t, ps)
    ensures forall u :: Meet(n, t, ps, u) ==> Meet(n, t, ps + [p], u)
  {
    if SomeDefined(t, ps) {
      var q :| q in ps && q in t;
      assert q in ps + [p];
    }
    forall d ensures Common(n, t, ps, d) <==> Common(n, t, ps + [p], d) {
      if Common(n, t, ps + [p], d) {
        forall r | r in ps && r in t ensures d in n.Chain(t, r) { assert r in ps + [p]; }
      }
    }
  }

  /** The inner loop: fold `Intersect` over the predecessors that already have a parent. */
  method NewParent(n: Numbering, t: Tree, ps: seq<Vertex>) returns (u: Option<Vertex>)
    requires n.Rooted(t)
    ensures u.Some? <==> SomeDefined(t, ps)
    ensures u.Some? ==> Meet(n, t, ps, u.value)
  {
    u := None;
    for i := 0 to |ps|
      invariant u.Some? <==> SomeDefined(t, ps[..i])
      invariant u.Some? ==> Meet(n, t, ps[..i], u.value)
    {
      assert ps[..i + 1] == ps[..i] + [ps[i]];
      if ps[i] !in t {
        MeetSkip(n, t, ps[..i], ps[i]);
      } else if u.None? {
        MeetFirst(n, t, ps[..i], ps[i]);
        u := Some(ps[i]);
      } else {
        var r := Intersect(n, t, u.value, ps[i]);
        MeetExtend(n, t, ps[..i], ps[i], u.value, r);
        u := Some(r);
      }
    }
    assert ps[..|ps|] == ps;
  }

  lemma FirstPass(g: Cfg, n: Numbering)
    requires g.WellFormed() && n.Valid(g)
    ensures Pass(g, n, map[n.entry := n.entry], map[n.entry := n.entry], 0)
  {
  }

  lemma NextPass(g: Cfg, n: Numbering, prev: Tree, t: Tree)
    requires Pass(g, n, prev, t, |n.ord|)
    ensures Pass(g, n, t, t, 0) && t.Keys == n.rpo.Keys
  {
  }

  lemma SkipEntry(g: Cfg, n: Numbering, prev: Tree, t: Tree)
    requires Pass(g, n, prev, t, 0)
    ensures Pass(g, n, prev, t, 1)
  {
    assert DefinedUpTo(n, t, 1);
    forall x | x in n.rpo && n.Rank(x) >= 1
      ensures (x in t <==> x in prev) && Parent(t, x) == Parent(prev, x)
    {
      var p := Parent(t, x);
      assert p == Parent(prev, x);
    }
    assert SameFrom(n, prev, t, 1);
    forall p, v | n.ForwardEdge(g, p, v) ensures n.Rank(v) >= 1 {
      assert n.Rank(p) < n.Rank(v);
    }
    assert Supported(g, n, t, 1);
  }

  lemma ForwardDefined(g: Cfg, n: Numbering, prev: Tree, t: Tree, m: nat)
    requires Pass(g, n, prev, t, m) && 0 < m < |n.ord|
    ensures SomeDefined(t, Neighbours(g.pred, n.ord[m])) && n.ord[m] != n.entry && n.Rank(n.ord[m]) == m
  {
    var v := n.ord[m];
    assert n.rpo[v] == m;
    assert n.HasForwardEdge(g, v);
    var p :| n.ForwardEdge(g, p, v);
    assert n.ord[n.rpo[p]] == p;
    assert p in Neighbours(g.pred, v);
  }

  /** Storing a changed parent keeps the pass invariant and lowers the potential. */
  lemma StoreParent(g: Cfg, n: Numbering, prev: Tree, t: Tree, m: nat, u: Vertex)
    requires Pass(g, n, prev, t, m) && 0 < m < |n.ord| && Meet(n, t, Neighbours(g.pred, n.ord[m]), u)
    ensures Pass(g, n, prev, t[n.ord[m] := u], m + 1)
    ensures t[n.ord[m] := u] != t ==> Potential(n, t[n.ord[m] := u], |n.ord|) < Potential(n, t, |n.ord|)
  {
    PassStep(g, n, prev, t, m, u);
    var v := n.ord[m];
    var p := MeetIsAbove(g, n, prev, t, m, u);
    if v in t { MovesUp(g, n, prev, t, m, u); }
    if t[v := u] != t {
      assert v in t ==> n.Rank(u) != n.Rank(t[v]) by {
        if v in t { assert Parent(t, v) in t; assert n.ord[n.rpo[u]] == u && n.ord[n.rpo[t[v]]] == t[v]; }
      }
      PotentialDrops(n, t, m, u, |n.ord|);
    }
  }

  lemma StoreFixed(g: Cfg, n: Numbering, t: Tree, m: nat, u: Vertex)
    requires Fixed(g, n, t, m) && m < |n.ord| && n.ord[m] in t && t[n.ord[m]] == u
    requires Meet(n, t, Neighbours(g.pred, n.ord[m]), u)
    ensures Fixed(g, n, t, m + 1)
  {
  }

  /** One pass over the reverse postorder. */
  method RunPass(g: Cfg, n: Numbering, prev: Tree) returns (t: Tree, changed: bool)
    requires Pass(g, n, prev, prev, 0)
    ensures Pass(g, n, prev, t, |n.ord|)
    ensures changed ==> Potential(n, t, |n.ord|) < Potential(n, prev, |n.ord|)
    ensures !changed ==> t == prev && Fixed(g, n, t, |n.ord|)
  {
    t, changed := prev, false;
    for i := 0 to |n.ord|
      invariant Pass(g, n, prev, t, i)
      invariant changed ==> Potential(n, t, |n.ord|) < Potential(n, prev, |n.ord|)
      invariant !changed ==> t == prev && Fixed(g, n, t, i)
    {
      var v := n.ord[i];
      if v == n.entry {
        assert i == 0;
        SkipEntry(g, n, prev, t);
        continue;
      }
      ForwardDefined(g, n, prev, t, i);
      var u := NewParent(n, t, Neighbours(g.pred, v));
      if u.Some? {
        StoreParent(g, n, prev, t, i, u.value);
        if v !in t || t[v] != u.value {
          t := t[v := u.value];
          changed := true;
        } else {
          assert t[v := u.value] == t;
          if !changed { StoreFixed(g, n, t, i, u.value); }
        }
      }
    }
  }

  /** The dominator tree of the vertices reachable from `entry`: `a` is met when climbing from `b` exactly
      if `a` lies on every path from `entry` to `b`. */
  method Compute(g: Cfg, entry: Vertex) returns (t: Tree, ghost n: Numbering)
    requires g.WellFormed() && entry in g.verts
    ensures n.entry == entry && n.Valid(g) && n.Rooted(t)
    ensures forall v :: v in t <==> g.Reaches(entry, v)
    ensures forall a, b :: b in t ==> (a in n.Chain(t, b) <==> g.Dominates(entry, a, b))
  {
    var num := NumberVertices(g, entry);
    n := num;
    t := map[entry := entry];
    FirstPass(g, n);
    var changed := true;
    while changed
      invariant Pass(g, n, t, t, 0)
      invariant !changed ==> Fixed(g, n, t, |n.ord|) && t.Keys == n.rpo.Keys
      decreases Potential(n, t, |n.ord|) + if changed then 1 else 0
    {
      ghost var prev := t;
      t, changed := RunPass(g, num, t);
      NextPass(g, n, prev, t);
    }
    FixpointExact(g, n, t);
  }
}
