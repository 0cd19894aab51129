/** Static scope hierarchy of a compiled graph (src/bpmn/scope-tree.ts). */
module ScopeTree {
  import opened Prelude

  type Id = string

  datatype ScopeMeta = ScopeMeta(transaction: bool, parent: Option<Id>, depth: nat)

  type Scopes = map<Id, ScopeMeta>

  /** Depth grows along parent links, so parent chains are finite. */
  predicate Nested(scopes: Scopes) {
    forall id <- scopes :: scopes[id].parent.Some? && scopes[id].parent.value in scopes ==>
      scopes[scopes[id].parent.value].depth < scopes[id].depth
  }

  type Tree = scopes: Scopes | Nested(scopes)

  /** The parent of a scope; an unknown scope has none. */
  function Parent(t: Tree, id: Id): Option<Id> {
    if id in t then t[id].parent else None
  }

  function Rank(t: Tree, s: Option<Id>): nat {
    match s
      case None => 0
      case Some(id) => if id in t then t[id].depth + 2 else 1
  }

  lemma ParentRank(t: Tree, id: Id)
    ensures Rank(t, Parent(t, id)) < Rank(t, Some(id))
  {
  }

  /** The scopes from `s` outwards. */
  function Chain(t: Tree, s: Option<Id>): seq<Id>
    decreases Rank(t, s)
  {
    match s
      case None => []
      case Some(id) =>
        ParentRank(t, id);
        [id] + Chain(t, Parent(t, id))
  }

  predicate IsTransaction(t: Tree, id: Id) {
    id in t && t[id].transaction
  }

  /** The innermost transaction among `chain`. */
  function FirstTransaction(t: Tree, chain: seq<Id>): Option<Id> {
    if chain == [] then None
    else if IsTransaction(t, chain[0]) then Some(chain[0])
    else FirstTransaction(t, chain[1..])
  }

  function NearestTx(t: Tree, s: Option<Id>): Option<Id> {
    FirstTransaction(t, Chain(t, s))
  }

  function Subtree(t: Tree, root: Option<Id>): set<Id> {
    set id | id in t && (root.None? || root.value in Chain(t, Some(id)))
  }

  /** `a` strictly encloses `b`; the process (None) encloses every scope. */
  predicate StrictAncestor(t: Tree, a: Option<Id>, b: Id) {
    match a
      case None => b in t
      case Some(id) => id != b && id in Chain(t, Parent(t, b))
  }

  function Owned(t: Tree, tx: Id): set<Id> {
    set id | id in Subtree(t, Some(tx)) && NearestTx(t, Some(id)) == Some(tx)
  }

  predicate EligibleAt(t: Tree, root: Option<Id>, id: Id) {
    match NearestTx(t, Some(id))
      case Some(tx) => StrictAncestor(t, root, tx)
      case None => root.None?
  }

  function Eligible(t: Tree, root: Option<Id>): set<Id> {
    set id | id in Subtree(t, root) && EligibleAt(t, root, id)
  }

  // ---- The functions of the source -----------------------------------------------------------

  method SubtreeScopeIds(t: Tree, root: Option<Id>) returns (out: set<Id>)
    ensures out == Subtree(t, root)
  {
    if root.None? { return t.Keys; }
    out := {};
    var rest := t.Keys;
    while rest != {}
      invariant rest <= t.Keys
      invariant out == Subtree(t, root) - rest
      decreases |rest|
    {
      var id :| id in rest;
      var encloses := OnChain(t, Some(id), root.value);
      if encloses { out := out + {id}; }
      rest := rest - {id};
    }
  }

  /** The inner loop shared by the ancestor questions. */
  method OnChain(t: Tree, from: Option<Id>, root: Id) returns (found: bool)
    ensures found == (root in Chain(t, from))
  {
    var s := from;
    while s.Some?
      invariant root in Chain(t, from) <==> root in Chain(t, s)
      decreases Rank(t, s)
    {
      if s.value == root { return true; }
      ParentRank(t, s.value);
      s := Parent(t, s.value);
    }
    found := false;
  }

  method AncestorScopeIds(t: Tree, scopeId: Id) returns (out: seq<Id>)
    ensures out == Chain(t, Parent(t, scopeId))
  {
    out := [];
    var s := Parent(t, scopeId);
    while s.Some?
      invariant out + Chain(t, s) == Chain(t, Parent(t, scopeId))
      decreases Rank(t, s)
    {
      out := out + [s.value];
      ParentRank(t, s.value);
      s := Parent(t, s.value);
    }
  }

  method NearestEnclosingTx(t: Tree, scopeId: Option<Id>) returns (tx: Option<Id>)
    ensures tx == NearestTx(t, scopeId)
  {
    var s := scopeId;
    while s.Some?
      invariant NearestTx(t, s) == NearestTx(t, scopeId)
      decreases Rank(t, s)
    {
      if IsTransaction(t, s.value) { return s; }
      ParentRank(t, s.value);
      assert Chain(t, s)[1..] == Chain(t, Parent(t, s.value));
      s := Parent(t, s.value);
    }
    tx := None;
  }

  lemma OwnedOn(t: Tree, tx: Id, rest: set<Id>, id: Id)
    requires id in rest && rest <= Subtree(t, Some(tx))
    ensures Owned(t, tx) - (rest - {id}) ==
              if NearestTx(t, Some(id)) == Some(tx) then Owned(t, tx) - rest + {id} else Owned(t, tx) - rest
  {
  }

  lemma EligibleOn(t: Tree, root: Option<Id>, rest: set<Id>, id: Id)
    requires id in rest && rest <= Subtree(t, root)
    ensures Eligible(t, root) - (rest - {id}) ==
              if EligibleAt(t, root, id) then Eligible(t, root) - rest + {id} else Eligible(t, root) - rest
  {
  }

  method OwnedScopeIds(t: Tree, txId: Id) returns (out: set<Id>)
    ensures out == Owned(t, txId)
  {
    var rest := SubtreeScopeIds(t, Some(txId));
    out := {};
    while rest != {}
      invariant rest <= Subtree(t, Some(txId))
      invariant out == Owned(t, txId) - rest
      decreases |rest|
    {
      var id :| id in rest;
      var tx := NearestEnclosingTx(t, Some(id));
      OwnedOn(t, txId, rest, id);
      if tx == Some(txId) { out := out + {id}; }
      rest := rest - {id};
    }
  }

  method IsStrictAncestor(t: Tree, a: Option<Id>, b: Id) returns (r: bool)
    ensures r == StrictAncestor(t, a, b)
  {
    if a == Some(b) { return false; }
    if a.None? { return b in t; }
    r := OnChain(t, Parent(t, b), a.value);
  }

  method EligibleCommittedLocalScopeIds(t: Tree, root: Option<Id>) returns (out: set<Id>)
    ensures out == Eligible(t, root)
  {
    var rest := SubtreeScopeIds(t, root);
    out := {};
    while rest != {}
      invariant rest <= Subtree(t, root)
      invariant out == Eligible(t, root) - rest
      decreases |rest|
    {
      var id :| id in rest;
      var tx := NearestEnclosingTx(t, Some(id));
      var below := tx.None? && root.None?;
      if tx.Some? { below := IsStrictAncestor(t, root, tx.value); }
      EligibleOn(t, root, rest, id);
      if below { out := out + {id}; }
      rest := rest - {id};
    }
  }

  // ---- What they mean --------------------------------------------------------------------------

  /** Following a chain from one of its members gives the rest of it. */
  lemma {:induction false} ChainTail(t: Tree, s: Option<Id>, i: nat)
    requires i < |Chain(t, s)|
    ensures Chain(t, s)[i..] == Chain(t, Some(Chain(t, s)[i]))
    decreases Rank(t, s)
  {
    ParentRank(t, s.value);
    if i > 0 {
      ChainTail(t, Parent(t, s.value), i - 1);
      assert Chain(t, s)[i..] == Chain(t, Parent(t, s.value))[i - 1..];
    }
  }

  lemma {:induction false} ChainRanks(t: Tree, s: Option<Id>, x: Id)
    requires s.Some? && x in Chain(t, Parent(t, s.value))
    ensures Rank(t, Some(x)) < Rank(t, s)
    decreases Rank(t, s)
  {
    ParentRank(t, s.value);
    var p := Parent(t, s.value);
    if p.value != x { ChainRanks(t, p, x); }
  }

  lemma {:induction false} ChainTransitive(t: Tree, s: Option<Id>, a: Id, b: Id)
    requires a in Chain(t, s) && b in Chain(t, Some(a))
    ensures b in Chain(t, s)
  {
    var i :| 0 <= i < |Chain(t, s)| && Chain(t, s)[i] == a;
    ChainTail(t, s, i);
  }

  /** Two members of one chain: one encloses the other. */
  lemma ChainLinear(t: Tree, s: Option<Id>, a: Id, b: Id)
    requires a in Chain(t, s) && b in Chain(t, s)
    ensures b in Chain(t, Some(a)) || a in Chain(t, Some(b))
  {
    var i :| 0 <= i < |Chain(t, s)| && Chain(t, s)[i] == a;
    var j :| 0 <= j < |Chain(t, s)| && Chain(t, s)[j] == b;
    ChainTail(t, s, i);
    ChainTail(t, s, j);
    if i <= j { assert Chain(t, s)[i..][j - i] == b; } else { assert Chain(t, s)[j..][i - j] == a; }
  }

  lemma {:induction false} FirstTransactionIsFirst(t: Tree, chain: seq<Id>)
    ensures match FirstTransaction(t, chain)
              case None => forall x <- chain :: !IsTransaction(t, x)
              case Some(tx) => exists i :: 0 <= i < |chain| && chain[i] == tx && IsTransaction(t, tx)
                                           && forall x <- chain[..i] :: !IsTransaction(t, x)
  {
    if chain != [] && !IsTransaction(t, chain[0]) {
      FirstTransactionIsFirst(t, chain[1..]);
      if FirstTransaction(t, chain[1..]).Some? {
        var tx := FirstTransaction(t, chain).value;
        var i :| 0 <= i < |chain[1..]| && chain[1..][i] == tx && forall x <- chain[1..][..i] :: !IsTransaction(t, x);
        assert chain[..i + 1] == [chain[0]] + chain[1..][..i];
        assert chain[i + 1] == tx;
      }
    } else if chain != [] {
      assert chain[..0] == [];
    }
  }

  /** The nearest transaction lies inside every other transaction of the chain. */
  lemma NearestIsInnermost(t: Tree, s: Option<Id>, root: Id)
    requires root in Chain(t, s) && IsTransaction(t, root)
    ensures NearestTx(t, s).Some? && NearestTx(t, s).value in Chain(t, s)
    ensures IsTransaction(t, NearestTx(t, s).value)
    ensures NearestTx(t, s) == Some(root) || StrictAncestor(t, Some(root), NearestTx(t, s).value)
  {
    var chain := Chain(t, s);
    FirstTransactionIsFirst(t, chain);
    var j :| 0 <= j < |chain| && chain[j] == root;
    var tx := NearestTx(t, s).value;
    var i :| 0 <= i < |chain| && chain[i] == tx && forall x <- chain[..i] :: !IsTransaction(t, x);
    forall k | 0 <= k < i ensures !IsTransaction(t, chain[k]) { assert chain[..i][k] == chain[k]; }
    if i < j {
      ChainTail(t, s, i);
      assert chain[i..][j - i] == root;
      assert Chain(t, Some(tx))[j - i] == root;
    }
  }

  /** For a transaction, its subtree splits into the scopes it owns and the ones whose committed rows it may reverse. */
  lemma SubtreePartition(t: Tree, root: Id)
    requires IsTransaction(t, root)
    ensures Subtree(t, Some(root)) == Owned(t, root) + Eligible(t, Some(root))
    ensures Owned(t, root) !! Eligible(t, Some(root))
  {
    forall id | id in Subtree(t, Some(root))
      ensures id in Owned(t, root) || id in Eligible(t, Some(root))
    {
      NearestIsInnermost(t, Some(id), root);
    }
  }

  lemma ProcessEligible(t: Tree)
    ensures Eligible(t, None) == Subtree(t, None) == t.Keys
  {
    forall id | id in t ensures EligibleAt(t, None, id) {
      FirstTransactionIsFirst(t, Chain(t, Some(id)));
    }
  }

  /** A scope owned by `tx` is eligible for exactly the roots that strictly enclose `tx`. */
  lemma OwnedEligible(t: Tree, tx: Id, id: Id, root: Option<Id>)
    requires id in Owned(t, tx)
    ensures id in Eligible(t, root) <==> StrictAncestor(t, root, tx)
  {
    if root.Some? && StrictAncestor(t, root, tx) {
      assert root.value in Chain(t, Some(tx));
      ChainTransitive(t, Some(id), tx, root.value);
    }
    FirstTransactionIsFirst(t, Chain(t, Some(id)));
  }

  /** Strict enclosure is a strict partial order, so no transaction is a strict ancestor of itself or its ancestors. */
  lemma StrictAncestorAsymmetric(t: Tree, a: Id, b: Id)
    requires StrictAncestor(t, Some(a), b)
    ensures !StrictAncestor(t, Some(b), a)
  {
    ChainRanks(t, Some(b), a);
    if b in Chain(t, Parent(t, a)) { ChainRanks(t, Some(a), b); }
  }

  /** Subtrees are laminar: two scopes enclose disjoint subtrees, or one encloses the other's. */
  lemma SubtreesLaminar(t: Tree, a: Id, b: Id)
    requires Subtree(t, Some(a)) * Subtree(t, Some(b)) != {}
    ensures Subtree(t, Some(a)) <= Subtree(t, Some(b)) || Subtree(t, Some(b)) <= Subtree(t, Some(a))
  {
    var id :| id in Subtree(t, Some(a)) && id in Subtree(t, Some(b));
    ChainLinear(t, Some(id), a, b);
    if b in Chain(t, Some(a)) {
      forall x | x in Subtree(t, Some(a)) ensures x in Subtree(t, Some(b)) { ChainTransitive(t, Some(x), a, b); }
    } else {
      forall x | x in Subtree(t, Some(b)) ensures x in Subtree(t, Some(a)) { ChainTransitive(t, Some(x), b, a); }
    }
  }
}
