/** Hierarchical error catch (src/runtime/forward-task.ts:72-110): the throwing element's own error boundaries first,
    then those of each enclosing scope outwards; on one host an exact code beats the catch-all. */
module ErrorRouting {
  import opened Prelude
  import opened ScopeTree

  /** An error boundary event: the host it is attached to, its code (None catches all) and its outgoing target. */
  datatype Boundary = Boundary(id: Id, host: Id, code: Option<string>, next: Option<Id>)

  datatype Catch = Catch(boundaryId: Id, next: Id)

  datatype Target = Target(caught: Catch, hostId: Id, hostIsScope: bool)

  // ---- One host --------------------------------------------------------------------------------

  predicate Exact(b: Boundary, host: Id, code: Option<string>) {
    b.host == host && b.next.Some? && b.code.Some? && b.code == code
  }

  predicate CatchAll(b: Boundary, host: Id) {
    b.host == host && b.next.Some? && b.code.None?
  }

  /** First exact boundary in node order, else the last catch-all. */
  function FirstExact(boundaries: seq<Boundary>, host: Id, code: Option<string>): Option<Catch> {
    if boundaries == [] then None
    else if Exact(boundaries[0], host, code) then Some(Catch(boundaries[0].id, boundaries[0].next.value))
    else FirstExact(boundaries[1..], host, code)
  }

  function LastCatchAll(boundaries: seq<Boundary>, host: Id): Option<Catch> {
    if boundaries == [] then None
    else
      var b := boundaries[|boundaries| - 1];
      if CatchAll(b, host) then Some(Catch(b.id, b.next.value)) else LastCatchAll(boundaries[..|boundaries| - 1], host)
  }

  function MatchOn(boundaries: seq<Boundary>, host: Id, code: Option<string>): Option<Catch> {
    if FirstExact(boundaries, host, code).Some? then FirstExact(boundaries, host, code)
    else LastCatchAll(boundaries, host)
  }

  method MatchErrorBoundaryOn(boundaries: seq<Boundary>, host: Id, code: Option<string>) returns (m: Option<Catch>)
    ensures m == MatchOn(boundaries, host, code)
  {
    m := None;
    for i := 0 to |boundaries|
      invariant m == LastCatchAll(boundaries[..i], host)
      invariant FirstExact(boundaries, host, code) == FirstExact(boundaries[i..], host, code)
    {
      var b := boundaries[i];
      assert boundaries[i..][0] == b && boundaries[i..][1..] == boundaries[i + 1..];
      assert boundaries[..i + 1][..i] == boundaries[..i];
      if b.host == host {
        if b.code.Some? && b.code == code && b.next.Some? { return Some(Catch(b.id, b.next.value)); }
        if b.code.None? && b.next.Some? { m := Some(Catch(b.id, b.next.value)); }
      }
    }
    assert boundaries[..|boundaries|] == boundaries;
  }

  // ---- The climb -------------------------------------------------------------------------------

  function CatchInScopes(t: Tree, boundaries: seq<Boundary>, scope: Option<Id>, code: Option<string>): Option<Target>
    decreases Rank(t, scope)
  {
    if scope.None? then None
    else match MatchOn(boundaries, scope.value, code)
      case Some(m) => Some(Target(m, scope.value, true))
      case None =>
        ParentRank(t, scope.value);
        CatchInScopes(t, boundaries, Parent(t, scope.value), code)
  }

  function CatchTarget(t: Tree, boundaries: seq<Boundary>, element: Id, scope: Option<Id>,
                       code: Option<string>): Option<Target> {
    match MatchOn(boundaries, element, code)
      case Some(m) => Some(Target(m, element, false))
      case None => CatchInScopes(t, boundaries, scope, code)
  }

  method ErrorCatchTarget(t: Tree, boundaries: seq<Boundary>, element: Id, scope: Option<Id>, code: Option<string>)
    returns (target: Option<Target>)
    ensures target == CatchTarget(t, boundaries, element, scope, code)
  {
    var own := MatchErrorBoundaryOn(boundaries, element, code);
    if own.Some? { return Some(Target(own.value, element, false)); }
    var s := scope;
    while s.Some?
      invariant CatchInScopes(t, boundaries, s, code) == CatchInScopes(t, boundaries, scope, code)
      decreases Rank(t, s)
    {
      var m := MatchErrorBoundaryOn(boundaries, s.value, code);
      if m.Some? { return Some(Target(m.value, s.value, true)); }
      ParentRank(t, s.value);
      s := Parent(t, s.value);
    }
    target := None;
  }

  // ---- What is caught, and where ---------------------------------------------------------------

  predicate Catches(b: Boundary, host: Id, code: Option<string>) {
    Exact(b, host, code) || CatchAll(b, host)
  }

  lemma {:induction false} FirstExactIs(boundaries: seq<Boundary>, host: Id, code: Option<string>)
    ensures match FirstExact(boundaries, host, code)
              case Some(m) => exists b <- boundaries :: Exact(b, host, code) && m == Catch(b.id, b.next.value)
              case None => forall b <- boundaries :: !Exact(b, host, code)
  {
    if boundaries != [] && !Exact(boundaries[0], host, code) {
      FirstExactIs(boundaries[1..], host, code);
      assert forall b <- boundaries[1..] :: b in boundaries;
      assert boundaries == [boundaries[0]] + boundaries[1..];
    }
  }

  lemma {:induction false} LastCatchAllIs(boundaries: seq<Boundary>, host: Id)
    ensures match LastCatchAll(boundaries, host)
              case Some(m) => exists b <- boundaries :: CatchAll(b, host) && m == Catch(b.id, b.next.value)
              case None => forall b <- boundaries :: !CatchAll(b, host)
  {
    var n := |boundaries| - 1;
    if boundaries != [] && !CatchAll(boundaries[n], host) {
      LastCatchAllIs(boundaries[..n], host);
      assert forall b <- boundaries[..n] :: b in boundaries;
      assert boundaries == boundaries[..n] + [boundaries[n]];
    }
  }

  /** A host catches a code exactly if it has a boundary for it, and by an exact one if it has any. */
  lemma MatchOnIs(boundaries: seq<Boundary>, host: Id, code: Option<string>)
    ensures MatchOn(boundaries, host, code).Some? <==> exists b <- boundaries :: Catches(b, host, code)
    ensures MatchOn(boundaries, host, code).Some? ==>
              exists b <- boundaries :: Catches(b, host, code)
                && MatchOn(boundaries, host, code).value == Catch(b.id, b.next.value)
                && (Exact(b, host, code) || forall x <- boundaries :: !Exact(x, host, code))
  {
    FirstExactIs(boundaries, host, code);
    LastCatchAllIs(boundaries, host);
  }

  /** At most one boundary of a host has a given code, and at most one catches all (the validator's rule). */
  ghost predicate DistinctCodes(boundaries: seq<Boundary>) {
    forall b <- boundaries, x <- boundaries :: b.host == x.host && b.code == x.code ==> b == x
  }

  /** Then the order of the nodes does not matter: the boundary that catches is determined by the set of boundaries. */
  lemma MatchIgnoresOrder(boundaries: seq<Boundary>, other: seq<Boundary>, host: Id, code: Option<string>)
    requires DistinctCodes(boundaries) && forall b :: b in boundaries <==> b in other
    ensures MatchOn(boundaries, host, code) == MatchOn(other, host, code)
  {
    MatchOnIs(boundaries, host, code);
    MatchOnIs(other, host, code);
  }

  /** The first scope outwards that catches the code takes it; none does exactly if nobody on the chain has a
      boundary. */
  lemma {:induction false} CaughtByInnermost(t: Tree, boundaries: seq<Boundary>, scope: Option<Id>,
                                             code: Option<string>)
    ensures match CatchInScopes(t, boundaries, scope, code)
              case None => forall s <- Chain(t, scope) :: MatchOn(boundaries, s, code).None?
              case Some(target) =>
                exists i :: 0 <= i < |Chain(t, scope)| && Chain(t, scope)[i] == target.hostId
                  && MatchOn(boundaries, target.hostId, code) == Some(target.caught)
                  && forall s <- Chain(t, scope)[..i] :: MatchOn(boundaries, s, code).None?
    decreases Rank(t, scope)
  {
    if scope.Some? {
      ParentRank(t, scope.value);
      if MatchOn(boundaries, scope.value, code).None? {
        var outer := Parent(t, scope.value);
        CaughtByInnermost(t, boundaries, outer, code);
        if CatchInScopes(t, boundaries, outer, code).Some? {
          var target := CatchInScopes(t, boundaries, outer, code).value;
          var i :| 0 <= i < |Chain(t, outer)| && Chain(t, outer)[i] == target.hostId
                   && MatchOn(boundaries, target.hostId, code) == Some(target.caught)
                   && forall s <- Chain(t, outer)[..i] :: MatchOn(boundaries, s, code).None?;
          assert Chain(t, scope)[i + 1] == target.hostId;
          assert Chain(t, scope)[..i + 1] == [scope.value] + Chain(t, outer)[..i];
        }
      } else {
        assert Chain(t, scope)[..0] == [];
      }
    }
  }

  // ---- The catching boundary -------------------------------------------------------------------

  /** Boundary `b` can catch the code on `host`: it leads somewhere and has this code or none. */
  ghost predicate Catching(b: Boundary, host: Id, code: Option<string>) {
    b.host == host && b.next.Some? && (b.code.None? || b.code == code)
  }

  /** The i-th boundary catches the code on `host`: it is the first one with the code, or the last one without any code
      if none has it. */
  ghost predicate CaughtBy(boundaries: seq<Boundary>, host: Id, code: Option<string>, i: nat) {
    && i < |boundaries| && Catching(boundaries[i], host, code)
    && forall j :: 0 <= j < |boundaries| && j != i && Catching(boundaries[j], host, code) ==>
         if boundaries[i].code.Some? then boundaries[j].code.None? || i < j
         else boundaries[j].code.None? && j < i
  }

  lemma {:induction false} FirstExactAt(boundaries: seq<Boundary>, host: Id, code: Option<string>) returns (i: nat)
    requires FirstExact(boundaries, host, code).Some?
    ensures i < |boundaries| && Exact(boundaries[i], host, code)
    ensures FirstExact(boundaries, host, code) == Some(Catch(boundaries[i].id, boundaries[i].next.value))
    ensures forall j :: 0 <= j < i ==> !Exact(boundaries[j], host, code)
  {
    i := 0;
    if !Exact(boundaries[0], host, code) {
      var k := FirstExactAt(boundaries[1..], host, code);
      i := k + 1;
      assert forall j :: 0 < j < i ==> boundaries[j] == boundaries[1..][j - 1];
    }
  }

  lemma {:induction false} LastCatchAllAt(boundaries: seq<Boundary>, host: Id) returns (i: nat)
    requires LastCatchAll(boundaries, host).Some?
    ensures i < |boundaries| && CatchAll(boundaries[i], host)
    ensures LastCatchAll(boundaries, host) == Some(Catch(boundaries[i].id, boundaries[i].next.value))
    ensures forall j :: i < j < |boundaries| ==> !CatchAll(boundaries[j], host)
  {
    i := |boundaries| - 1;
    if !CatchAll(boundaries[i], host) {
      var n := i;
      i := LastCatchAllAt(boundaries[..n], host);
      assert forall j :: 0 <= j < n ==> boundaries[j] == boundaries[..n][j];
    }
  }

  /** What one host does with a code. */
  lemma MatchOnExactly(boundaries: seq<Boundary>, host: Id, code: Option<string>)
    ensures match MatchOn(boundaries, host, code)
              case None => forall b <- boundaries :: !Catching(b, host, code)
              case Some(m) => exists i: nat :: CaughtBy(boundaries, host, code, i)
                                               && m == Catch(boundaries[i].id, boundaries[i].next.value)
  {
    FirstExactIs(boundaries, host, code);
    LastCatchAllIs(boundaries, host);
    assert forall b :: Catching(b, host, code) <==> Exact(b, host, code) || CatchAll(b, host);
    if FirstExact(boundaries, host, code).Some? {
      var i := FirstExactAt(boundaries, host, code);
      assert CaughtBy(boundaries, host, code, i);
    } else if LastCatchAll(boundaries, host).Some? {
      var i := LastCatchAllAt(boundaries, host);
      assert forall j :: 0 <= j < |boundaries| ==> boundaries[j] in boundaries;
      assert CaughtBy(boundaries, host, code, i);
    }
  }

  /** The hosts a code is offered to: the throwing element, then its scopes from inner to outer. */
  function Hosts(t: Tree, element: Id, scope: Option<Id>): seq<Id> {
    [element] + Chain(t, scope)
  }

  /** The n-th host is the first one with a boundary that can catch the code, and its i-th boundary catches it. */
  ghost predicate CaughtAt(t: Tree, boundaries: seq<Boundary>, element: Id, scope: Option<Id>, code: Option<string>,
                           n: nat, i: nat) {
    var hosts := Hosts(t, element, scope);
    && n < |hosts| && CaughtBy(boundaries, hosts[n], code, i)
    && forall m, b :: 0 <= m < n && b in boundaries ==> !Catching(b, hosts[m], code)
  }

  /** An error is caught on the first host, from the throwing element outwards, that has a boundary for it; there the
      first boundary with its code beats one without a code; and nobody catches it exactly if no host has one. */
  lemma CaughtExactly(t: Tree, boundaries: seq<Boundary>, element: Id, scope: Option<Id>, code: Option<string>)
    ensures match CatchTarget(t, boundaries, element, scope, code)
              case None =>
                forall h <- Hosts(t, element, scope), b <- boundaries :: !Catching(b, h, code)
              case Some(target) =>
                exists n: nat, i: nat :: CaughtAt(t, boundaries, element, scope, code, n, i)
                  && target == Target(Catch(boundaries[i].id, boundaries[i].next.value),
                                      Hosts(t, element, scope)[n], n > 0)
  {
    var hosts := Hosts(t, element, scope);
    MatchOnExactly(boundaries, element, code);
    if MatchOn(boundaries, element, code).Some? {
      var i: nat :| CaughtBy(boundaries, hosts[0], code, i)
                    && MatchOn(boundaries, element, code).value == Catch(boundaries[i].id, boundaries[i].next.value);
      assert CaughtAt(t, boundaries, element, scope, code, 0, i);
    } else {
      CaughtByInnermost(t, boundaries, scope, code);
      match CatchInScopes(t, boundaries, scope, code) {
        case None =>
          forall h <- Chain(t, scope), b <- boundaries ensures !Catching(b, h, code) {
            MatchOnExactly(boundaries, h, code);
          }
        case Some(target) => CaughtInScope(t, boundaries, element, scope, code, target);
      }
    }
  }

  lemma {:induction false} InScopes(t: Tree, boundaries: seq<Boundary>, scope: Option<Id>, code: Option<string>)
    ensures CatchInScopes(t, boundaries, scope, code).Some? ==>
              CatchInScopes(t, boundaries, scope, code).value.hostIsScope
    decreases Rank(t, scope)
  {
    if scope.Some? && MatchOn(boundaries, scope.value, code).None? {
      ParentRank(t, scope.value);
      InScopes(t, boundaries, Parent(t, scope.value), code);
    }
  }

  lemma CaughtInScope(t: Tree, boundaries: seq<Boundary>, element: Id, scope: Option<Id>, code: Option<string>,
                      target: Target)
    requires MatchOn(boundaries, element, code).None?
    requires CatchInScopes(t, boundaries, scope, code) == Some(target)
    ensures exists n: nat, i: nat :: CaughtAt(t, boundaries, element, scope, code, n, i)
              && target == Target(Catch(boundaries[i].id, boundaries[i].next.value), Hosts(t, element, scope)[n], n > 0)
  {
    var chain, hosts := Chain(t, scope), Hosts(t, element, scope);
    CaughtByInnermost(t, boundaries, scope, code);
    InScopes(t, boundaries, scope, code);
    var k :| 0 <= k < |chain| && chain[k] == target.hostId
             && MatchOn(boundaries, target.hostId, code) == Some(target.caught)
             && forall s <- chain[..k] :: MatchOn(boundaries, s, code).None?;
    MatchOnExactly(boundaries, target.hostId, code);
    var i: nat :| CaughtBy(boundaries, target.hostId, code, i)
                  && target.caught == Catch(boundaries[i].id, boundaries[i].next.value);
    forall m, b | 0 <= m < k + 1 && b in boundaries ensures !Catching(b, hosts[m], code) {
      if m > 0 { assert hosts[m] == chain[..k][m - 1]; }
      MatchOnExactly(boundaries, hosts[m], code);
    }
    assert hosts[k + 1] == target.hostId;
    assert CaughtAt(t, boundaries, element, scope, code, k + 1, i);
  }
}
