/** Reverse postorder by depth-first search, src/bpmn/regions.ts:58-67. */
module Postorder {
  import opened Graphs

  ghost predicate HasLaterPredecessor(g: Cfg, order: seq<Vertex>, j: nat)
    requires j < |order|
  {
    exists k :: j < k < |order| && g.Edge(order[k], order[j])
  }

  ghost predicate Distinct(s: seq<Vertex>) {
    forall i, j {:trigger s[i], s[j]} :: 0 <= i < j < |s| ==> s[i] != s[j]
  }

  lemma DistinctAppend(s: seq<Vertex>, t: seq<Vertex>)
    requires Distinct(s) && Distinct(t) && forall x :: x in t ==> x !in s
    ensures Distinct(s + t)
  {
    var all := s + t;
    forall i, j | 0 <= i < j < |all| ensures all[i] != all[j] {
      if i < |s| <= j { assert all[j] in t; }
    }
  }

  /** What one completed visit of `v` appended to the postorder. */
  ghost predicate Finished(g: Cfg, entry: Vertex, before: set<Vertex>, after: set<Vertex>, part: seq<Vertex>,
                           v: Vertex) {
    && Gathered(g, entry, before, after, part)
    && |part| > 0 && part[|part| - 1] == v
    && forall j {:trigger HasLaterPredecessor(g, part, j)} :: 0 <= j < |part| - 1 ==> HasLaterPredecessor(g, part, j)
  }

  /** `part` lists exactly the newly seen vertices, each reachable and with all successors seen. */
  ghost predicate Gathered(g: Cfg, entry: Vertex, before: set<Vertex>, after: set<Vertex>, part: seq<Vertex>) {
    && Distinct(part)
    && (forall x :: x in after <==> x in before || x in part)
    && (forall x :: x in part ==> x !in before && g.Reaches(entry, x))
    && (forall x, y :: x in part && g.Edge(x, y) ==> y in after)
  }

  /** Elements of a subtree still under construction hang below its root or a later element. */
  ghost predicate Hangs(g: Cfg, root: Vertex, part: seq<Vertex>) {
    forall j {:trigger HasLaterPredecessor(g, part, j)} :: 0 <= j < |part| ==>
      HasLaterPredecessor(g, part, j) || g.Edge(root, part[j])
  }

  lemma AppendSubtree(g: Cfg, entry: Vertex, root: Vertex, b0: set<Vertex>, b1: set<Vertex>, b2: set<Vertex>,
                      part: seq<Vertex>, sub: seq<Vertex>, w: Vertex)
    requires Gathered(g, entry, b0, b1, part) && Hangs(g, root, part)
    requires Finished(g, entry, b1, b2, sub, w) && g.Edge(root, w)
    ensures Gathered(g, entry, b0, b2, part + sub) && Hangs(g, root, part + sub)
  {
    var all := part + sub;
    DistinctAppend(part, sub);
    forall j | 0 <= j < |all| ensures HasLaterPredecessor(g, all, j) || g.Edge(root, all[j]) {
      if j < |part| {
        if HasLaterPredecessor(g, part, j) {
          var k :| j < k < |part| && g.Edge(part[k], part[j]);
          assert all[k] == part[k];
        }
      } else if j < |all| - 1 {
        assert HasLaterPredecessor(g, sub, j - |part|);
        var k :| j - |part| < k < |sub| && g.Edge(sub[k], sub[j - |part|]);
        assert all[k + |part|] == sub[k];
      }
    }
  }

  lemma CloseSubtree(g: Cfg, entry: Vertex, v: Vertex, before: set<Vertex>, after: set<Vertex>, part: seq<Vertex>)
    requires Gathered(g, entry, before + {v}, after, part) && Hangs(g, v, part)
    requires v !in before && g.Reaches(entry, v)
    requires forall w :: w in Neighbours(g.succ, v) ==> w in after
    ensures Finished(g, entry, before, after, part + [v], v)
  {
    var all := part + [v];
    DistinctAppend(part, [v]);
    forall j | 0 <= j < |all| - 1 ensures HasLaterPredecessor(g, all, j) {
      assert all[j] == part[j];
      if HasLaterPredecessor(g, part, j) {
        var k :| j < k < |part| && g.Edge(part[k], part[j]);
        assert all[k] == part[k];
      } else {
        assert g.Edge(all[|part|], all[j]);
      }
    }
  }

  /** A visit of `v` that began with `start` and `before` has appended `part` so far. */
  ghost predicate Visiting(g: Cfg, entry: Vertex, v: Vertex, start: seq<Vertex>, before: set<Vertex>,
                           order: seq<Vertex>, seen: set<Vertex>, part: seq<Vertex>) {
    order == start + part && Gathered(g, entry, before + {v}, seen, part) && Hangs(g, v, part)
  }

  /** A completed visit of a successor `w` adds its subtree. */
  lemma SubtreeAdded(g: Cfg, entry: Vertex, v: Vertex, start: seq<Vertex>, before: set<Vertex>, order: seq<Vertex>,
                     seen: set<Vertex>, part: seq<Vertex>, longer: seq<Vertex>, more: set<Vertex>, w: Vertex)
    requires Visiting(g, entry, v, start, before, order, seen, part) && g.Edge(v, w)
    requires |order| <= |longer| && longer[..|order|] == order && Finished(g, entry, seen, more, longer[|order|..], w)
    ensures Visiting(g, entry, v, start, before, longer, more, part + longer[|order|..])
    ensures seen <= more && w in more
  {
    AppendSubtree(g, entry, v, before + {v}, seen, more, part, longer[|order|..], w);
    assert longer == order + longer[|order|..];
    assert longer[|order|..][|longer| - |order| - 1] == w;
  }

  ghost predicate SeenUpTo(ws: seq<Vertex>, i: nat, seen: set<Vertex>) {
    forall k :: 0 <= k < i && k < |ws| ==> ws[k] in seen
  }

  lemma SeenMore(ws: seq<Vertex>, i: nat, seen: set<Vertex>, more: set<Vertex>)
    requires SeenUpTo(ws, i, seen) && seen <= more && i < |ws| && ws[i] in more
    ensures SeenUpTo(ws, i + 1, more)
  {
  }

  /** With all successors seen the visit is finished by appending `v`. */
  lemma VisitClosed(g: Cfg, entry: Vertex, v: Vertex, start: seq<Vertex>, before: set<Vertex>, order: seq<Vertex>,
                    seen: set<Vertex>, part: seq<Vertex>)
    requires Visiting(g, entry, v, start, before, order, seen, part) && v !in before && g.Reaches(entry, v)
    requires SeenUpTo(Neighbours(g.succ, v), |Neighbours(g.succ, v)|, seen)
    ensures (order + [v])[..|start|] == start && Finished(g, entry, before, seen, (order + [v])[|start|..], v)
  {
    CloseSubtree(g, entry, v, before, seen, part);
    assert (order + [v])[|start|..] == part + [v];
  }

  /** The closure `dfs` with the `seen` and `order` it captures. */
  class DepthFirst {
    var seen: set<Vertex>
    var order: seq<Vertex>

    constructor ()
      ensures seen == {} && order == []
    {
      seen, order := {}, [];
    }

    method Visit(g: Cfg, entry: Vertex, v: Vertex)
      requires g.WellFormed() && v in g.verts && v !in seen && seen <= g.verts && g.Reaches(entry, v)
      modifies this
      ensures seen <= g.verts
      ensures |old(order)| <= |order| && order[..|old(order)|] == old(order)
      ensures Finished(g, entry, old(seen), seen, order[|old(order)|..], v)
      decreases g.verts - seen
    {
      ghost var start, before, part := order, seen, [];
      seen := seen + {v};
      var ws := Neighbours(g.succ, v);
      for i := 0 to |ws|
        invariant seen <= g.verts && before + {v} <= seen
        invariant Visiting(g, entry, v, start, before, order, seen, part)
        invariant SeenUpTo(ws, i, seen)
      {
        if ws[i] !in seen {
          ReachesEdge(g, entry, v, ws[i]);
          ghost var order0, seen0 := order, seen;
          Visit(g, entry, ws[i]);
          SubtreeAdded(g, entry, v, start, before, order0, seen0, part, order, seen, ws[i]);
          part := part + order[|order0|..];
          SeenMore(ws, i, seen0, seen);
        } else {
          SeenMore(ws, i, seen, seen);
        }
      }
      VisitClosed(g, entry, v, start, before, order, seen, part);
      order := order + [v];
    }
  }
}
