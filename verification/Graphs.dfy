/** Control-flow graphs, paths and path-based domination: the vocabulary in which the dominator
    computation and the region rules of src/bpmn/regions.ts are specified. */
module Graphs {

  /** A vertex of the graph: a BPMN element, or one of the two virtual end points. */
  datatype Vertex = Source | Sink | Element(id: string)

  type Adjacency = map<Vertex, seq<Vertex>>

  function Neighbours(adj: Adjacency, v: Vertex): seq<Vertex> {
    if v in adj then adj[v] else []
  }

  datatype Cfg = Cfg(verts: set<Vertex>, succ: Adjacency, pred: Adjacency) {

    ghost predicate Edge(a: Vertex, b: Vertex) {
      b in Neighbours(succ, a)
    }

    /** The two adjacency maps describe the same edges, all of them between vertices. */
    ghost predicate WellFormed() {
      && (forall a, b {:trigger b in Neighbours(succ, a)} :: b in Neighbours(succ, a) ==> a in verts && b in verts)
      && (forall a, b {:trigger a in Neighbours(pred, b)} {:trigger b in Neighbours(succ, a)} ::
            a in Neighbours(pred, b) <==> b in Neighbours(succ, a))
    }

    function Reversed(): Cfg {
      Cfg(verts, pred, succ)
    }

    ghost predicate Step(p: seq<Vertex>, i: int)
      requires 0 <= i < |p| - 1
    {
      Edge(p[i], p[i + 1])
    }

    ghost predicate Path(p: seq<Vertex>) {
      |p| > 0 && forall i :: 0 <= i < |p| - 1 ==> Step(p, i)
    }

    ghost predicate PathBetween(p: seq<Vertex>, a: Vertex, b: Vertex) {
      Path(p) && p[0] == a && p[|p| - 1] == b
    }

    ghost predicate Reaches(a: Vertex, b: Vertex) {
      exists p :: PathBetween(p, a, b)
    }

    /** `a` lies on every path from `entry` to `b`. */
    ghost predicate Dominates(entry: Vertex, a: Vertex, b: Vertex) {
      forall p :: PathBetween(p, entry, b) ==> a in p
    }
  }

  /** `a` is a strict dominator of `b` that every other strict dominator of `b` dominates. */
  ghost predicate ImmediateDominator(g: Cfg, entry: Vertex, a: Vertex, b: Vertex) {
    && a != b
    && g.Dominates(entry, a, b)
    && forall d :: d != b && g.Dominates(entry, d, b) ==> g.Dominates(entry, d, a)
  }

  lemma ExtendPath(g: Cfg, p: seq<Vertex>, a: Vertex, b: Vertex, c: Vertex)
    requires g.PathBetween(p, a, b) && g.Edge(b, c)
    ensures g.PathBetween(p + [c], a, c)
    ensures g.Reaches(a, c)
  {
    var q := p + [c];
    assert q[0] == a && q[|q| - 1] == c;
    forall i | 0 <= i < |q| - 1 ensures g.Step(q, i) {
      if i < |p| - 1 { assert g.Step(p, i); }
    }
    assert g.PathBetween(q, a, c);
  }

  lemma ReachesEdge(g: Cfg, a: Vertex, b: Vertex, c: Vertex)
    requires g.Reaches(a, b) && g.Edge(b, c)
    ensures g.Reaches(a, c)
  {
    var p :| g.PathBetween(p, a, b);
    ExtendPath(g, p, a, b, c);
  }

  lemma JoinPaths(g: Cfg, p: seq<Vertex>, q: seq<Vertex>, a: Vertex, b: Vertex, c: Vertex)
    requires g.PathBetween(p, a, b) && g.PathBetween(q, b, c)
    ensures g.PathBetween(p + q[1..], a, c)
  {
    var r := p + q[1..];
    forall i | 0 <= i < |r| - 1 ensures g.Step(r, i) {
      if i < |p| - 1 {
        assert g.Step(p, i);
      } else {
        assert g.Step(q, i + 1 - |p|);
      }
    }
  }

  lemma SubPath(g: Cfg, p: seq<Vertex>, lo: nat, hi: nat)
    requires g.Path(p) && lo < hi <= |p|
    ensures g.PathBetween(p[lo..hi], p[lo], p[hi - 1])
  {
    var q := p[lo..hi];
    forall i | 0 <= i < |q| - 1 ensures g.Step(q, i) {
      assert g.Step(p, lo + i);
    }
  }

  /** A strict dominator of `b` dominates every predecessor of `b`. */
  lemma DominatesPredecessor(g: Cfg, entry: Vertex, d: Vertex, p: Vertex, b: Vertex)
    requires g.Dominates(entry, d, b) && d != b && g.Edge(p, b)
    ensures g.Dominates(entry, d, p)
  {
    forall q | g.PathBetween(q, entry, p) ensures d in q {
      ExtendPath(g, q, entry, p, b);
      assert d in q + [b];
    }
  }

  // ---- Domination is a tree order --------------------------------------------------------

  lemma DominatesTransitive(g: Cfg, entry: Vertex, a: Vertex, b: Vertex, c: Vertex)
    requires g.Dominates(entry, a, b) && g.Dominates(entry, b, c)
    ensures g.Dominates(entry, a, c)
  {
    forall p | g.PathBetween(p, entry, c) ensures a in p {
      var k :| 0 <= k < |p| && p[k] == b;
      SubPath(g, p, 0, k + 1);
      assert a in p[0..k + 1];
    }
  }

  /** Two different vertices cannot dominate each other: a path to one would have ever shorter prefixes. */
  lemma {:induction false} DominatesAntisymmetric(g: Cfg, entry: Vertex, a: Vertex, b: Vertex, p: seq<Vertex>)
    requires g.PathBetween(p, entry, a) && g.Dominates(entry, a, b) && g.Dominates(entry, b, a)
    ensures a == b
    decreases |p|
  {
    if a != b {
      var k :| 0 <= k < |p| && p[k] == b;
      SubPath(g, p, 0, k + 1);
      assert a in p[0..k + 1];
      var m :| 0 <= m < k + 1 && p[m] == a;
      SubPath(g, p, 0, m + 1);
      DominatesAntisymmetric(g, entry, a, b, p[0..m + 1]);
    }
  }

  lemma {:induction false} LastOccurrence(p: seq<Vertex>, v: Vertex) returns (k: nat)
    requires v in p
    ensures k < |p| && p[k] == v && v !in p[k + 1..]
    decreases |p|
  {
    k := |p| - 1;
    if p[k] != v {
      k := LastOccurrence(p[..|p| - 1], v);
      assert p[k + 1..] == p[..|p| - 1][k + 1..] + [p[|p| - 1]];
    }
  }

  /** The dominators of one reachable vertex are totally ordered. */
  lemma DominatesLinear(g: Cfg, entry: Vertex, a: Vertex, b: Vertex, c: Vertex)
    requires g.Reaches(entry, c) && g.Dominates(entry, a, c) && g.Dominates(entry, b, c)
    ensures g.Dominates(entry, a, b) || g.Dominates(entry, b, a)
  {
    if a != b && !g.Dominates(entry, a, b) && !g.Dominates(entry, b, a) {
      var p :| g.PathBetween(p, entry, c);
      var i := LastOccurrence(p, a);
      var j := LastOccurrence(p, b);
      if i < j { Bypass(g, entry, a, b, c, p, j); } else { Bypass(g, entry, b, a, c, p, i); }
      assert false;
    }
  }

  /** If `a` does not dominate `b` and does not follow `b` on a path to `c`, it does not dominate `c`. */
  lemma Bypass(g: Cfg, entry: Vertex, a: Vertex, b: Vertex, c: Vertex, p: seq<Vertex>, j: nat)
    requires g.PathBetween(p, entry, c) && j < |p| && p[j] == b && a !in p[j + 1..]
    requires !g.Dominates(entry, a, b)
    ensures !g.Dominates(entry, a, c)
  {
    var q :| g.PathBetween(q, entry, b) && a !in q;
    SubPath(g, p, j, |p|);
    JoinPaths(g, q, p[j..|p|], entry, b, c);
    assert p[j..|p|][1..] == p[j + 1..];
    assert a !in q + p[j + 1..];
  }

  lemma OnReachablePath(g: Cfg, entry: Vertex, a: Vertex, b: Vertex)
    requires g.Reaches(entry, b) && g.Dominates(entry, a, b)
    ensures g.Reaches(entry, a) && g.Dominates(entry, a, a)
  {
    var p :| g.PathBetween(p, entry, b);
    var k :| 0 <= k < |p| && p[k] == a;
    SubPath(g, p, 0, k + 1);
    forall q | g.PathBetween(q, entry, a) ensures a in q { assert q[|q| - 1] in q; }
  }

  lemma ImmediateUnique(g: Cfg, entry: Vertex, a: Vertex, a': Vertex, b: Vertex)
    requires g.Reaches(entry, b) && ImmediateDominator(g, entry, a, b) && ImmediateDominator(g, entry, a', b)
    ensures a == a'
  {
    OnReachablePath(g, entry, a, b);
    var p :| g.PathBetween(p, entry, a);
    DominatesAntisymmetric(g, entry, a, a', p);
  }

  /** Every path that leaves a set through `d` alone contains `d`. */
  lemma {:induction false} LeavesThrough(g: Cfg, inside: set<Vertex>, d: Vertex, p: seq<Vertex>, k: nat)
    requires g.Path(p) && p[0] in inside && k < |p| && p[k] !in inside
    requires forall x, y :: x in inside && x != d && g.Edge(x, y) ==> y in inside
    ensures d in p
    decreases k
  {
    if p[k - 1] !in inside {
      LeavesThrough(g, inside, d, p, k - 1);
    } else {
      assert g.Step(p, k - 1);
    }
  }

  // ---- Reversal --------------------------------------------------------------------------

  ghost function Backwards(p: seq<Vertex>): (q: seq<Vertex>)
    ensures |q| == |p| && forall i :: 0 <= i < |p| ==> q[i] == p[|p| - 1 - i]
  {
    seq(|p|, i requires 0 <= i < |p| => p[|p| - 1 - i])
  }

  lemma ReversePath(g: Cfg, p: seq<Vertex>, a: Vertex, b: Vertex)
    requires g.WellFormed() && g.PathBetween(p, a, b)
    ensures g.Reversed().PathBetween(Backwards(p), b, a)
    ensures g.Reversed().Reaches(b, a)
  {
    var q := Backwards(p);
    var r := g.Reversed();
    forall i | 0 <= i < |q| - 1 ensures r.Step(q, i) {
      assert g.Step(p, |p| - 2 - i);
    }
    assert r.PathBetween(q, b, a);
  }

  lemma ReversedWellFormed(g: Cfg)
    requires g.WellFormed()
    ensures g.Reversed().WellFormed() && g.Reversed().Reversed() == g
  {
  }

  /** Domination in the reversed graph is post-domination: `a` lies on every path from `b` to `exit`. */
  lemma PostDomination(g: Cfg, exit: Vertex, a: Vertex, b: Vertex)
    requires g.WellFormed()
    ensures g.Reversed().Dominates(exit, a, b) <==> forall p :: g.PathBetween(p, b, exit) ==> a in p
  {
    var r := g.Reversed();
    ReversedWellFormed(g);
    if r.Dominates(exit, a, b) {
      forall p | g.PathBetween(p, b, exit) ensures a in p {
        ReversePath(g, p, b, exit);
        assert a in Backwards(p);
      }
    }
    if forall p :: g.PathBetween(p, b, exit) ==> a in p {
      forall q | r.PathBetween(q, exit, b) ensures a in q {
        ReversePath(r, q, exit, b);
        assert a in Backwards(q);
      }
    }
  }
}
