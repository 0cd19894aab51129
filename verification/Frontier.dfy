/** A token's variable scope (src/runtime/frontier.ts:42-59): root variables with the overlays of the token's ancestors
    layered on, the nearest one on top. */
module Frontier {
  import opened Prelude
  import Tokens

  type Id = string

  type Vars = map<string, string>

  datatype Token = Token(parent: Option<Id>, overlay: Vars)

  type Table = map<Id, Token>

  /** The tokens from `cur` towards the root: up to the last one in the table, and never one twice. */
  function Lineage(tokens: Table, cur: Option<Id>, guard: set<Id>): seq<Id>
    decreases tokens.Keys - guard
  {
    match cur
      case None => []
      case Some(id) =>
        if id == "" || id in guard || id !in tokens then []
        else
          assert id in tokens.Keys - guard;
          [id] + Lineage(tokens, tokens[id].parent, guard + {id})
  }

  /** Overlays applied from the far end of the lineage to its near end. */
  function Layered(root: Vars, overlays: seq<Vars>): Vars {
    if overlays == [] then root else Layered(root, overlays[1..]) + overlays[0]
  }

  function OverlayOf(tokens: Table, id: Id): Vars {
    if id in tokens then tokens[id].overlay else map[]
  }

  function Overlays(tokens: Table, lineage: seq<Id>): (os: seq<Vars>)
    ensures |os| == |lineage| && forall i :: 0 <= i < |lineage| ==> os[i] == OverlayOf(tokens, lineage[i])
  {
    seq(|lineage|, i requires 0 <= i < |lineage| => OverlayOf(tokens, lineage[i]))
  }

  /** The specification of the resolved scope. */
  function Scope(tokens: Table, instanceId: Id, root: Vars, tokenId: Id): Vars {
    if tokenId == Tokens.RootTokenId(instanceId) then root
    else Layered(root, Overlays(tokens, Lineage(tokens, Some(tokenId), {})))
  }

  // ---- The lineage -----------------------------------------------------------------------------

  /** Each lineage token is the parent of the one before it, no token comes twice, and the lineage is as long as the
      table allows: it ends at a token without a parent row, or where a cycle closes. */
  lemma {:induction false} LineageIsChain(tokens: Table, cur: Option<Id>, guard: set<Id>)
    ensures var l := Lineage(tokens, cur, guard);
            && (forall id <- l :: id in tokens && id !in guard)
            && (l != [] ==> cur == Some(l[0]))
            && (forall i :: 0 <= i < |l| - 1 ==> tokens[l[i]].parent == Some(l[i + 1]))
            && (forall i, j :: 0 <= i < j < |l| ==> l[i] != l[j])
            && var last := if l == [] then cur else tokens[l[|l| - 1]].parent;
               last.None? || last.value == "" || last.value !in tokens || last.value in guard || last.value in l
    decreases tokens.Keys - guard
  {
    if cur.Some? && cur.value != "" && cur.value !in guard && cur.value in tokens {
      var id := cur.value;
      assert id in tokens.Keys - guard;
      LineageIsChain(tokens, tokens[id].parent, guard + {id});
    }
  }

  /** The nearest layer that defines a variable decides its value; without one the root's value stands. */
  ghost predicate Decides(overlays: seq<Vars>, x: string, i: nat) {
    i < |overlays| && x in overlays[i] && forall j :: 0 <= j < i ==> x !in overlays[j]
  }

  lemma {:induction false} NearestWins(root: Vars, overlays: seq<Vars>, x: string)
    ensures (forall i: nat :: Decides(overlays, x, i) ==>
               x in Layered(root, overlays) && Layered(root, overlays)[x] == overlays[i][x])
    ensures (forall o <- overlays :: x !in o) ==> (x in Layered(root, overlays) <==> x in root)
    ensures (forall o <- overlays :: x !in o) && x in root ==> Layered(root, overlays)[x] == root[x]
  {
    if overlays != [] {
      NearestWins(root, overlays[1..], x);
      forall i: nat | Decides(overlays, x, i)
        ensures x in Layered(root, overlays) && Layered(root, overlays)[x] == overlays[i][x]
      {
        if i > 0 {
          assert x !in overlays[0];
          forall j | 0 <= j < i - 1 ensures x !in overlays[1..][j] { assert overlays[1..][j] == overlays[j + 1]; }
          assert Decides(overlays[1..], x, i - 1);
        }
      }
      assert forall o <- overlays[1..] :: o in overlays;
    }
  }

  /** A variable some lineage token defines has the value of the nearest one that does. */
  lemma ScopeIsNearest(tokens: Table, instanceId: Id, root: Vars, tokenId: Id, x: string, i: nat)
    requires tokenId != Tokens.RootTokenId(instanceId) && i < |Lineage(tokens, Some(tokenId), {})|
    requires x in OverlayOf(tokens, Lineage(tokens, Some(tokenId), {})[i])
    requires forall j :: 0 <= j < i ==> x !in OverlayOf(tokens, Lineage(tokens, Some(tokenId), {})[j])
    ensures x in Scope(tokens, instanceId, root, tokenId)
    ensures Scope(tokens, instanceId, root, tokenId)[x] == OverlayOf(tokens, Lineage(tokens, Some(tokenId), {})[i])[x]
  {
    var overlays := Overlays(tokens, Lineage(tokens, Some(tokenId), {}));
    assert Decides(overlays, x, i);
    NearestWins(root, overlays, x);
  }

  /** A variable no lineage token defines has the root's value, if any. */
  lemma ScopeElseRoot(tokens: Table, instanceId: Id, root: Vars, tokenId: Id, x: string)
    requires forall id <- Lineage(tokens, Some(tokenId), {}) :: x !in OverlayOf(tokens, id)
    ensures x in Scope(tokens, instanceId, root, tokenId) <==> x in root
    ensures x in root ==> Scope(tokens, instanceId, root, tokenId)[x] == root[x]
  {
    var lineage := Lineage(tokens, Some(tokenId), {});
    var overlays := Overlays(tokens, lineage);
    forall o <- overlays ensures x !in o {
      var i :| 0 <= i < |lineage| && overlays[i] == o;
      assert lineage[i] in lineage;
    }
    NearestWins(root, overlays, x);
  }

  // ---- The function of the source --------------------------------------------------------------

  /** The overlays from the token towards the root; the guard bounds a malformed parent chain. */
  method CollectOverlays(tokens: Table, tokenId: Id) returns (chain: seq<Vars>)
    ensures chain == Overlays(tokens, Lineage(tokens, Some(tokenId), {}))
  {
    ghost var seen := [];
    chain := [];
    var cur := Some(tokenId);
    var guard: set<Id> := {};
    while cur.Some? && cur.value != "" && cur.value !in guard && cur.value in tokens
      invariant seen + Lineage(tokens, cur, guard) == Lineage(tokens, Some(tokenId), {})
      invariant chain == Overlays(tokens, seen)
      decreases tokens.Keys - guard
    {
      var id := cur.value;
      assert id in tokens.Keys - guard;
      LineageStep(tokens, seen, id, guard);
      guard := guard + {id};
      chain, seen := chain + [tokens[id].overlay], seen + [id];
      cur := tokens[id].parent;
    }
  }

  lemma LineageStep(tokens: Table, seen: seq<Id>, id: Id, guard: set<Id>)
    requires id != "" && id !in guard && id in tokens
    ensures seen + Lineage(tokens, Some(id), guard) == seen + [id] + Lineage(tokens, tokens[id].parent, guard + {id})
  {
  }

  method ResolveScope(tokens: Table, instanceId: Id, rootVars: Vars, tokenId: Id) returns (scope: Vars)
    ensures scope == Scope(tokens, instanceId, rootVars, tokenId)
    ensures tokenId == instanceId + ":#root" ==> scope == rootVars
  {
    if tokenId == Tokens.RootTokenId(instanceId) { return rootVars; }
    var chain := CollectOverlays(tokens, tokenId);
    scope := rootVars;
    var i := |chain|;
    while i > 0
      invariant 0 <= i <= |chain| && scope == Layered(rootVars, chain[i..])
    {
      i := i - 1;
      assert chain[i..][1..] == chain[i + 1..];
      scope := scope + chain[i];
    }
    assert chain[0..] == chain;
  }
}
