/** Where the causal order of the reverse pass ends: which rows can be overtaken, and on which live tokens every pass
    keeps the order (src/persistence/saga.ts:118-135, src/runtime/compensation.ts:139-339). */
module OrderLimits {
  import opened Prelude
  import opened ScopeTree
  import opened Ledger
  import opened ReversePass

  // ---- Where the order ends --------------------------------------------------------------------

  ghost predicate Open(w: World, s: State, k: int) {
    0 <= k < |s.rows| && Selectable(w.tree, w.root, s.rows[k])
  }

  /** A live cohort token stands on the row's token or directly below it. */
  ghost predicate Held(w: World, s: State, k: int) {
    0 <= k < |s.rows| && s.rows[k].token.Some? && Near(w, LiveCohort(w, s), s.rows[k].token.value)
  }

  lemma {:induction false} HighestFree(w: World, s: State, k: nat, m: nat) returns (h: nat)
    requires k < m <= |s.rows| && Open(w, s, k) && !Held(w, s, k)
    ensures k <= h < m && Open(w, s, h) && !Held(w, s, h)
    ensures forall i :: h < i < m && Open(w, s, i) ==> Held(w, s, i)
    decreases m
  {
    if Open(w, s, m - 1) && !Held(w, s, m - 1) {
      h := m - 1;
    } else {
      h := HighestFree(w, s, k, m - 1);
    }
  }

  lemma PickedMeans(w: World, s: State, k: nat)
    ensures Picked(w, s, k) <==> Open(w, s, k) && !Held(w, s, k) && forall i :: k < i && Open(w, s, i) ==> Held(w, s, i)
  {
    forall i | 0 <= i < |s.rows| ensures Quiesced(w, LiveCohort(w, s), s.rows[i]) <==> !Held(w, s, i) {
      if s.rows[i].token.Some? { BlockedIsNear(w, LiveCohort(w, s), s.rows[i].token.value); }
    }
  }

  /** An open row is overtaken by an earlier one exactly if it and every later open row are held by live tokens while
      some earlier open row is not. */
  lemma OvertakenExactly(w: World, s: State, m: nat)
    requires Open(w, s, m)
    ensures (exists k: nat :: k < m && Picked(w, s, k)) <==>
            (forall i :: m <= i && Open(w, s, i) ==> Held(w, s, i))
            && exists k: nat :: k < m && Open(w, s, k) && !Held(w, s, k)
  {
    if k: nat :| k < m && Picked(w, s, k) { PickedMeans(w, s, k); }
    if k: nat :| k < m && Open(w, s, k) && !Held(w, s, k) {
      var h := HighestFree(w, s, k, m);
      PickedMeans(w, s, h);
    }
  }

  // ---- The exact condition on the tokens -------------------------------------------------------

  /** The same root and token table; jobs, handlers and their scopes may differ. */
  ghost predicate SameTokens(w: World, v: World) {
    v.tree == w.tree && v.root == w.root && v.parent == w.parent && v.position == w.position
  }

  /** From `s` the pass comes to a state whose rows of one lineage were begun out of order. */
  ghost predicate OrderFails(w: World, both: bool, s: State, s': State) {
    Initial(s) && Reaches(Moving(w), s, s') && !BegunInOrder(w, both, s')
  }

  /** A world in which `u` alone has a job, in flight and compensatable in the cohort's own scope. */
  function OneJob(w: World, u: Id): World
    requires u in w.position
  {
    w.(job := map[u := StepKey("late", 0, 0)], scopeOf := (key: StepKey) => w.position[u],
        compensatable := (key: StepKey) => true)
  }

  /** The scan drops every token without a job, here all but `u`. */
  lemma {:induction false} ScanOthers(w: World, s: State, u: Id, rest: set<Id>)
    requires s.result.Running? && w.job.Keys == {u} && u !in rest && rest <= LiveCohort(w, s)
    ensures Reaches(Moving(w), s, s.(live := s.live - rest))
    decreases rest
  {
    if rest == {} {
      assert s.live - rest == s.live;
      ReachesSelf(Moving(w), s);
    } else {
      var v :| v in rest;
      var t := s.(live := s.live - {v});
      assert Step(w, s, Scan(v), t);
      ReachesOne(Moving(w), s, t);
      ScanOthers(w, t, u, rest - {v});
      assert t.live - (rest - {v}) == s.live - rest;
      ReachesOn(Moving(w), s, t, s.(live := s.live - rest));
    }
  }

  lemma TwoSteps(w: World, s: State, e: Event, t: State, f: Event, s': State)
    requires Step(w, s, e, t) && Step(w, t, f, s')
    ensures Reaches(Moving(w), s, s')
  {
    ReachesOne(Moving(w), s, t);
    ReachesOne(Moving(w), t, s');
    ReachesOn(Moving(w), s, t, s');
  }

  /** The world `v` has the job `key` for `u` alone, in flight on a compensatable element of the cohort. */
  ghost predicate Lone(v: World, u: Id, key: StepKey) {
    InCohort(v, u) && v.job == map[u := key] && v.compensatable(key) && v.scopeOf(key) == v.position[u]
  }

  function Late(): StepKey {
    StepKey("late", 0, 0)
  }

  function Early(): StepKey {
    StepKey("early", 0, 0)
  }

  function NoComp(): map<StepKey, JobStatus> {
    map[]
  }

  function EarlyComp(): map<StepKey, JobStatus> {
    map[Early() := InFlight]
  }

  /** The states of a pass that knows one forward job, in the given status. */
  function Scene(live: set<Id>, status: JobStatus, rows: Rows, comp: map<StepKey, JobStatus>, begun: seq<nat>): State {
    State(live, map[Late() := status], rows, comp, begun, Running)
  }

  lemma ScanToScene(w: World, v: World, live: set<Id>, u: Id, rows: Rows)
    requires u in w.position && v == OneJob(w, u) && u in live && forall x <- live :: InCohort(v, x)
    ensures Reaches(Moving(v), Scene(live, InFlight, rows, NoComp(), []), Scene({u}, InFlight, rows, NoComp(), []))
  {
    var s := Scene(live, InFlight, rows, NoComp(), []);
    assert LiveCohort(v, s) == live;
    ScanOthers(v, s, u, live - {u});
    assert s.live - (live - {u}) == {u};
  }

  /** Row 0 on a token above the parent of `u` begins while `u` is in flight. */
  lemma EarlyBegins(v: World, u: Id, b: Id, row: Row)
    requires Lone(v, u, Late()) && b != u && ParentOf(v, u) != Some(b)
             && row == Row(Early(), 1, v.position[u], Some(b), Pending)
    ensures Step(v, Scene({u}, InFlight, [row], NoComp(), []), Begin(0),
                 Scene({u}, InFlight, [row.(status := Compensating)], EarlyComp(), [0]))
  {
    var t := Scene({u}, InFlight, [row], NoComp(), []);
    assert LiveCohort(v, t) == {u};
    BlockedIsNear(v, {u}, b);
    assert Picked(v, t, 0);
  }

  /** Then the job of `u` completes and its row is ledgered. */
  lemma LateArrives(v: World, u: Id, row: Row, late: Row)
    requires Lone(v, u, Late()) && row.key == Early() && row.seqNo == 1
    requires late == Row(Late(), 2, v.position[u], Some(u), Pending)
    ensures Reaches(Moving(v), Scene({u}, InFlight, [row], EarlyComp(), [0]),
                    Scene({}, Done, [row, late], EarlyComp(), [0]))
  {
    var t, t' := Scene({u}, InFlight, [row], EarlyComp(), [0]), Scene({u}, Done, [row], EarlyComp(), [0]);
    assert LiveCohort(v, t') == {u};
    StragglerLedgered(v, t', u, Scene({}, Done, [row, late], EarlyComp(), [0]));
    TwoSteps(v, t, JobReport(Late(), true), t', Scan(u), Scene({}, Done, [row, late], EarlyComp(), [0]));
  }

  /** With no token left a second, open row begins. */
  lemma SecondBegins(v: World, status: JobStatus, row: Row, last: Row)
    requires Selectable(v.tree, v.root, last) && row.key == Early() != last.key
    ensures Step(v, Scene({}, status, [row, last], EarlyComp(), [0]), Begin(1),
                 Scene({}, status, [row, last.(status := Compensating)], EarlyComp()[last.key := InFlight], [0, 1]))
  {
    var t := Scene({}, status, [row, last], EarlyComp(), [0]);
    assert LiveCohort(v, t) == {};
    if last.token.Some? { BlockedIsNear(v, {}, last.token.value); }
    assert Picked(v, t, 1);
  }

  lemma OutOfOrder(v: World, both: bool, status: JobStatus, row: Row, last: Row)
    requires OnLineage(v, both, last, row) && row.seqNo < last.seqNo
    ensures !BegunInOrder(v, both, Scene({}, status, [row, last], EarlyComp()[last.key := InFlight], [0, 1]))
  {
    var s := Scene({}, status, [row, last], EarlyComp()[last.key := InFlight], [0, 1]);
    assert !InOrder(v, both, s, s.begun[0], s.begun[1]);
  }

  /** A row on a token above the parent of `u` begins while `u` is in flight, and the straggler of `u` begins after
      it. */
  lemma StragglerTooLate(w: World, both: bool, live: set<Id>, u: Id, b: Id) returns (v: World, s: State, s': State)
    requires u in live && (forall x <- live :: InCohort(w, x)) && Descends(w, u, b) && b != u
             && ParentOf(w, u) != Some(b)
    ensures SameTokens(w, v) && LiveCohort(v, s) == live && OrderFails(v, both, s, s')
  {
    v := OneJob(w, u);
    var row := Row(Early(), 1, w.position[u], Some(b), Pending);
    var late := Row(Late(), 2, w.position[u], Some(u), Pending);
    var begun := row.(status := Compensating);
    s := Scene(live, InFlight, [row], NoComp(), []);
    s' := Scene({}, Done, [begun, late.(status := Compensating)], EarlyComp()[late.key := InFlight], [0, 1]);
    ScanToScene(w, v, live, u, [row]);
    LateRun(v, u, b, row, late);
    ReachesOn(Moving(v), s, Scene({u}, InFlight, [row], NoComp(), []), s');
    SameDescends(w, v, u, b);
    OutOfOrder(v, both, Done, begun, late.(status := Compensating));
    assert LiveCohort(v, s) == live;
  }

  lemma LateRun(v: World, u: Id, b: Id, row: Row, late: Row)
    requires Lone(v, u, Late()) && b != u && ParentOf(v, u) != Some(b)
    requires row == Row(Early(), 1, v.position[u], Some(b), Pending)
             && late == Row(Late(), 2, v.position[u], Some(u), Pending)
    ensures Reaches(Moving(v), Scene({u}, InFlight, [row], NoComp(), []),
                    Scene({}, Done, [row.(status := Compensating), late.(status := Compensating)],
                          EarlyComp()[late.key := InFlight], [0, 1]))
  {
    var begun := row.(status := Compensating);
    EarlyBegins(v, u, b, row);
    LateArrives(v, u, begun, late);
    SecondBegins(v, Done, begun, late);
    Chained(v, Scene({u}, InFlight, [row], NoComp(), []), Begin(0), Scene({u}, InFlight, [begun], EarlyComp(), [0]),
            Scene({}, Done, [begun, late], EarlyComp(), [0]), Begin(1),
            Scene({}, Done, [begun, late.(status := Compensating)], EarlyComp()[late.key := InFlight], [0, 1]));
  }

  lemma Chained(v: World, s1: State, e: Event, s2: State, s3: State, f: Event, s4: State)
    requires Step(v, s1, e, s2) && Reaches(Moving(v), s2, s3) && Step(v, s3, f, s4)
    ensures Reaches(Moving(v), s1, s4)
  {
    ReachesOne(Moving(v), s1, s2);
    ReachesOne(Moving(v), s3, s4);
    ReachesOn(Moving(v), s1, s2, s3);
    ReachesOn(Moving(v), s1, s3, s4);
  }

  lemma SameDescends(w: World, v: World, u: Id, a: Id)
    requires SameTokens(w, v) && Descends(w, u, a)
    ensures Descends(v, u, a)
  {
    var p :| Climb(w, w.parent.Keys, p, u, a);
    forall i | 0 <= i < |p| - 1 ensures p[i] in v.parent.Keys && ParentOf(v, p[i]) == Some(p[i + 1]) {
      assert p[i] in w.parent.Keys && ParentOf(w, p[i]) == Some(p[i + 1]);
    }
    assert Climb(v, v.parent.Keys, p, u, a);
  }

  lemma StragglerLedgered(v: World, t: State, u: Id, t': State)
    requires u in LiveCohort(v, t) && u in v.job && v.job[u] in t.jobs && t.jobs[v.job[u]].Done?
    requires |t.rows| == 1 && t.rows[0].seqNo == 1 && t.rows[0].key != v.job[u] && v.compensatable(v.job[u])
    requires t' == t.(live := t.live - {u}, rows := t.rows + [Row(v.job[u], 2, v.scopeOf(v.job[u]), Some(u), Pending)])
    ensures Scanned(v, t, u) == t'
  {
    assert MaxSeq(t.rows) == 1;
  }

  /** Row 0 on a token below `a` begins while `u` holds back row 1, which stands on `a`, the token of `u` or its
      parent. */
  lemma BelowBegins(v: World, u: Id, a: Id, b: Id, row: Row, last: Row)
    requires Lone(v, u, Late()) && (a == u || ParentOf(v, u) == Some(a)) && b != u && ParentOf(v, u) != Some(b)
    requires row == Row(Early(), 1, v.position[u], Some(b), Pending) && last.token == Some(a)
    ensures Step(v, Scene({u}, InFlight, [row, last], NoComp(), []), Begin(0),
                 Scene({u}, InFlight, [row.(status := Compensating), last], EarlyComp(), [0]))
  {
    var t := Scene({u}, InFlight, [row, last], NoComp(), []);
    assert LiveCohort(v, t) == {u};
    BlockedIsNear(v, {u}, b);
    BlockedIsNear(v, {u}, a);
    assert Picked(v, t, 0);
  }

  /** Then the job of `u` fails and its token is dropped. */
  lemma HolderDropped(v: World, u: Id, row: Row, last: Row)
    requires Lone(v, u, Late())
    ensures Reaches(Moving(v), Scene({u}, InFlight, [row, last], EarlyComp(), [0]),
                    Scene({}, Broken, [row, last], EarlyComp(), [0]))
  {
    var t, t' := Scene({u}, InFlight, [row, last], EarlyComp(), [0]), Scene({u}, Broken, [row, last], EarlyComp(), [0]);
    assert LiveCohort(v, t') == {u};
    assert Scanned(v, t', u) == Scene({}, Broken, [row, last], EarlyComp(), [0]);
    TwoSteps(v, t, JobReport(Late(), false), t', Scan(u), Scene({}, Broken, [row, last], EarlyComp(), [0]));
  }

  lemma AncestorRowLast(w: World, live: set<Id>, u: Id, a: Id, b: Id) returns (v: World, s: State, s': State)
    requires u in live && (forall x <- live :: InCohort(w, x)) && Descends(w, b, a) && b != u
             && ParentOf(w, u) != Some(b)
    requires a == u || ParentOf(w, u) == Some(a)
    ensures SameTokens(w, v) && LiveCohort(v, s) == live && OrderFails(v, true, s, s')
  {
    v := OneJob(w, u);
    var row := Row(Early(), 1, w.position[u], Some(b), Pending);
    var last := Row(StepKey("last", 0, 0), 2, w.position[u], Some(a), Pending);
    var begun := row.(status := Compensating);
    s := Scene(live, InFlight, [row, last], NoComp(), []);
    s' := Scene({}, Broken, [begun, last.(status := Compensating)], EarlyComp()[last.key := InFlight], [0, 1]);
    ScanToScene(w, v, live, u, [row, last]);
    HolderRun(v, u, a, b, row, last);
    ReachesOn(Moving(v), s, Scene({u}, InFlight, [row, last], NoComp(), []), s');
    SameDescends(w, v, b, a);
    OutOfOrder(v, true, Broken, begun, last.(status := Compensating));
    assert LiveCohort(v, s) == live;
  }

  lemma HolderRun(v: World, u: Id, a: Id, b: Id, row: Row, last: Row)
    requires Lone(v, u, Late()) && (a == u || ParentOf(v, u) == Some(a)) && b != u && ParentOf(v, u) != Some(b)
    requires row == Row(Early(), 1, v.position[u], Some(b), Pending)
    requires last == Row(StepKey("last", 0, 0), 2, v.position[u], Some(a), Pending)
    ensures Reaches(Moving(v), Scene({u}, InFlight, [row, last], NoComp(), []),
                    Scene({}, Broken, [row.(status := Compensating), last.(status := Compensating)],
                          EarlyComp()[last.key := InFlight], [0, 1]))
  {
    var begun := row.(status := Compensating);
    BelowBegins(v, u, a, b, row, last);
    HolderDropped(v, u, begun, last);
    SecondBegins(v, Broken, begun, last);
    Chained(v, Scene({u}, InFlight, [row, last], NoComp(), []), Begin(0),
            Scene({u}, InFlight, [begun, last], EarlyComp(), [0]),
            Scene({}, Broken, [begun, last], EarlyComp(), [0]), Begin(1),
            Scene({}, Broken, [begun, last.(status := Compensating)], EarlyComp()[last.key := InFlight], [0, 1]));
  }

  /** No pass that starts on these live tokens, whatever their jobs and the ledger, begins a lineage out of order. */
  ghost predicate KeepsOrder(w: World, both: bool, live: set<Id>) {
    forall v, s, s' :: SameTokens(w, v) && LiveCohort(v, s) == live ==> !OrderFails(v, both, s, s')
  }

  lemma ShallowKeepsOrder(w: World, both: bool, live: set<Id>)
    requires Shallow(w, both, live)
    ensures KeepsOrder(w, both, live)
  {
    forall v, s, s' | SameTokens(w, v) && LiveCohort(v, s) == live ensures !OrderFails(v, both, s, s') {
      if Initial(s) && Reaches(Moving(v), s, s') {
        var run :| Leads(Moving(v), run, s, s');
        ShallowSame(w, v, both, live);
        ReverseOrder(v, both, run, |run| - 1);
      }
    }
  }

  lemma ShallowSame(w: World, v: World, both: bool, live: set<Id>)
    requires SameTokens(w, v) && Shallow(w, both, live)
    ensures Shallow(v, both, live)
  {
    forall u, a, b | u in live && (a == u || ParentOf(v, u) == Some(a)) && Tied(v, both, a, b)
      ensures b == u || ParentOf(v, u) == Some(b)
    {
      if Descends(v, a, b) { SameDescends(v, w, a, b); } else { SameDescends(v, w, b, a); }
      assert ParentOf(w, u) == ParentOf(v, u) && Tied(w, both, a, b);
    }
  }

  /** The exact condition for the reverse order, over every run of every pass on these live cohort tokens: they are
      shallow. For later rows on the same or a descendant token (`both` false) and for rows related either way. */
  lemma OrderExactly(w: World, both: bool, live: set<Id>)
    requires forall u <- live :: InCohort(w, u)
    ensures Shallow(w, both, live) <==> KeepsOrder(w, both, live)
  {
    if Shallow(w, both, live) {
      ShallowKeepsOrder(w, both, live);
    } else {
      var u, a, b :| u in live && (a == u || ParentOf(w, u) == Some(a)) && Tied(w, both, a, b)
                     && b != u && ParentOf(w, u) != Some(b);
      if Descends(w, a, b) {
        KnownParent(w, u);
        OneLink(w, w.parent.Keys, u, a);
        AboveTransitive(w, w.parent.Keys, u, a, b);
        var v, s, s' := StragglerTooLate(w, both, live, u, b);
      } else {
        var v, s, s' := AncestorRowLast(w, live, u, a, b);
      }
    }
  }

  /** Every ancestor of a live cohort token is live too, except possibly the topmost one. */
  ghost predicate LinkClosed(w: World, live: set<Id>) {
    forall u <- live :: ParentOf(w, u).Some? && ParentOf(w, ParentOf(w, u).value).Some? ==> ParentOf(w, u).value in live
  }

  /** Link closure is enough for the filter at one moment. */
  lemma LinkClosedFilters(w: World, live: set<Id>)
    requires LinkClosed(w, live)
    ensures forall a :: Blocked(w, live, a) <==> LiveBelow(w, live, a)
  {
    FilterExactly(w, live);
  }

  /** A pass that starts on link-closed tokens and comes to begin a lineage out of order. */
  ghost predicate ClosureLost(w: World, s: State, s': State) {
    LinkClosed(w, LiveCohort(w, s)) && GrandparentsNear(w, LiveCohort(w, s)) && OrderFails(w, false, s, s')
  }

  function Tokens(parent: map<Id, Option<Id>>): World {
    World(map["tx" := ScopeMeta(true, None, 1)], Some("tx"), parent, map u | u in parent :: "tx", map[], [],
          (key: StepKey) => "tx", (key: StepKey) => true)
  }

  lemma TokensInCohort(parent: map<Id, Option<Id>>, u: Id)
    requires u in parent
    ensures InCohort(Tokens(parent), u)
  {
    assert Chain(Tokens(parent).tree, Some("tx")) == ["tx"];
  }

  /** In nested regions the scan itself destroys link closure: it drops the token `p` of the outer branch while its
      inner branch `c` is in flight, and then nothing holds back the rows of the token above `p`. */
  lemma ScanBreaksOrder()
    ensures exists w, s, s' :: ClosureLost(w, s, s')
  {
    var parent: map<Id, Option<Id>> := map["root" := None, "p" := Some("root"), "c" := Some("p")];
    var w := Tokens(parent);
    TokensInCohort(parent, "p");
    TokensInCohort(parent, "c");
    var live := {"p", "c"};
    assert LinkClosed(w, live) && GrandparentsNear(w, live);
    assert Climb(w, w.parent.Keys, ["c", "p", "root"], "c", "root");
    var v, s, s' := StragglerTooLate(w, false, live, "c", "root");
    assert ParentOf(v, "p") == ParentOf(w, "p") && ParentOf(v, "c") == ParentOf(w, "c");
    assert ClosureLost(v, s, s');
  }

  /** A pass that starts on tokens shallow below and comes to begin a child's row before a later row of the parent. */
  ghost predicate ParentOvertaken(w: World, s: State, s': State) {
    Shallow(w, false, LiveCohort(w, s)) && OrderFails(w, true, s, s')
  }

  /** Rows of a parent token can be overtaken even in a region that is not nested: while a branch `d` of a second
      activation is in flight, the row of an earlier branch `c` begins before a later row of `root`. */
  lemma ParentRowOvertaken()
    ensures exists w, s, s' :: ParentOvertaken(w, s, s')
  {
    var parent: map<Id, Option<Id>> := map["root" := None, "c" := Some("root"), "d" := Some("root")];
    var w := Tokens(parent);
    TokensInCohort(parent, "d");
    assert Climb(w, w.parent.Keys, ["c", "root"], "c", "root");
    var v, s, s' := AncestorRowLast(w, {"d"}, "d", "root", "c");
    assert Shallow(w, false, {"d"}) by {
      forall a, b | (a == "d" || ParentOf(w, "d") == Some(a)) && Descends(w, a, b)
        ensures b == "d" || ParentOf(w, "d") == Some(b)
      {
        LastLink(w, w.parent.Keys, a, b);
      }
    }
    ShallowSame(w, v, false, {"d"});
    assert ParentOvertaken(v, s, s');
  }
}
