/** The reverse pass over one compensation root (src/runtime/compensation.ts:139-339): stragglers are ledgered while it
    runs, and a step starts only when its token lineage has gone quiet. */
module ReversePass {
  import opened Prelude
  import opened ScopeTree
  import opened Ledger

  /** What the pass does not change: the root, the token tree and the graph. `order` lists the tokens by row id. */
  datatype World = World(tree: Tree, root: Option<Id>, parent: map<Id, Option<Id>>, position: map<Id, Id>,
                         job: map<Id, StepKey>, order: seq<Id>, scopeOf: StepKey -> Id, compensatable: StepKey -> bool)

  datatype JobStatus = InFlight | Done | Broken

  datatype Result = Running | Settled | GivenUp

  /** Live tokens, forward jobs, ledger, compensation jobs, and the rows in the order their compensation began. */
  datatype State = State(live: set<Id>, jobs: map<StepKey, JobStatus>, rows: Rows, comp: map<StepKey, JobStatus>,
                         begun: seq<nat>, result: Result)

  // ---- Cohort and lineage ----------------------------------------------------------------------

  predicate InCohort(w: World, u: Id) {
    u in w.position && (w.position[u] in Subtree(w.tree, w.root) || (w.root.None? && w.position[u] == ROOT_SCOPE))
  }

  function LiveCohort(w: World, s: State): set<Id> {
    set u | u in s.live && InCohort(w, u)
  }

  function ParentOf(w: World, u: Id): Option<Id> {
    if u in w.parent then w.parent[u] else None
  }

  /** A path of parent links from `u` up to `a` that leaves only members of `known`. */
  ghost predicate Climb(w: World, known: set<Id>, p: seq<Id>, u: Id, a: Id) {
    && |p| > 0 && p[0] == u && p[|p| - 1] == a
    && forall i :: 0 <= i < |p| - 1 ==> p[i] in known && ParentOf(w, p[i]) == Some(p[i + 1])
  }

  ghost predicate Above(w: World, known: set<Id>, u: Id, a: Id) {
    exists p :: Climb(w, known, p, u, a)
  }

  /** `u` is `a` or descends from it in the token tree. */
  ghost predicate Descends(w: World, u: Id, a: Id) {
    Above(w, w.parent.Keys, u, a)
  }

  /** The lineage filter: `a` is on the chain of a live cohort token, as far as links of live cohort tokens lead. */
  ghost predicate Blocked(w: World, live: set<Id>, a: Id) {
    exists u :: u in live && Above(w, live, u, a)
  }

  ghost predicate Quiesced(w: World, live: set<Id>, row: Row) {
    row.token.None? || !Blocked(w, live, row.token.value)
  }

  /** The row the pass takes up next: the highest sequence number among the selected and unblocked ones. */
  ghost predicate Picked(w: World, s: State, k: nat) {
    && k < |s.rows| && Selectable(w.tree, w.root, s.rows[k]) && Quiesced(w, LiveCohort(w, s), s.rows[k])
    && forall m {:trigger s.rows[m]} :: k < m < |s.rows| && Selectable(w.tree, w.root, s.rows[m]) ==>
         !Quiesced(w, LiveCohort(w, s), s.rows[m])
  }

  // ---- Steps -----------------------------------------------------------------------------------

  /** A straggler's row waits for compensation if its element has a handler. */
  function FirstStatus(w: World, key: StepKey): StepStatus {
    if w.compensatable(key) then Pending else NotRequired
  }

  /** Settle one live cohort token against its forward job (compensation.ts:317-338). */
  function Scanned(w: World, s: State, u: Id): State {
    if u !in LiveCohort(w, s) then s
    else if u !in w.job || w.job[u] !in s.jobs || s.jobs[w.job[u]].Broken? then s.(live := s.live - {u})
    else if s.jobs[w.job[u]].Done? then
      var key := w.job[u];
      s.(live := s.live - {u},
         rows := Inserted(s.rows, key, w.scopeOf(key), Some(u), FirstStatus(w, key)))
    else s
  }

  function Reported(jobs: map<StepKey, JobStatus>, key: StepKey, ok: bool): map<StepKey, JobStatus> {
    if key in jobs && jobs[key].InFlight? then jobs[key := if ok then Done else Broken] else jobs
  }

  datatype Event =
    | JobReport(key: StepKey, ok: bool)
    | CompReport(key: StepKey, ok: bool)
    | Scan(u: Id)
    | Begin(k: nat)
    | Finish(k: nat)
    | GiveUp(k: nat)
    | Settle

  ghost predicate Step(w: World, s: State, e: Event, s': State) {
    match e
      case JobReport(key, ok) => s' == s.(jobs := Reported(s.jobs, key, ok))
      case CompReport(key, ok) => s' == s.(comp := Reported(s.comp, key, ok))
      case Scan(u) => s.result.Running? && s' == Scanned(w, s, u)
      case Begin(k) =>
        && s.result.Running? && Picked(w, s, k) && s.rows[k].key !in s.comp
        && s' == s.(rows := WithStatus(s.rows, k, Compensating), comp := s.comp[s.rows[k].key := InFlight],
                    begun := s.begun + [k])
      case Finish(k) =>
        && s.result.Running? && Picked(w, s, k) && s.rows[k].key in s.comp && s.comp[s.rows[k].key].Done?
        && s' == s.(rows := WithStatus(s.rows, k, Compensated))
      case GiveUp(k) =>
        && s.result.Running? && Picked(w, s, k) && s.rows[k].key in s.comp && s.comp[s.rows[k].key].Broken?
        && s' == s.(rows := WithStatus(s.rows, k, StepStatus.Failed), result := GivenUp)
      case Settle =>
        && s.result.Running? && LiveCohort(w, s) == {} && Selected(w.tree, w.root, s.rows) == []
        && s' == s.(result := Settled)
  }

  ghost predicate Moves(w: World, s: State, s': State) {
    exists e :: Step(w, s, e, s')
  }

  /** A pass begins on a well-numbered ledger with nothing of it in compensation. */
  ghost predicate Initial(s: State) {
    && SeqNumbers(s.rows) && s.comp == map[] && s.begun == [] && s.result.Running?
    && forall r <- s.rows :: !r.status.Compensating? && !r.status.Failed?
  }

  // ---- Lineage facts ---------------------------------------------------------------------------

  lemma AboveTransitive(w: World, known: set<Id>, a: Id, b: Id, c: Id)
    requires Above(w, known, a, b) && Above(w, known, b, c)
    ensures Above(w, known, a, c)
  {
    var p :| Climb(w, known, p, a, b);
    var q :| Climb(w, known, q, b, c);
    var r := p + q[1..];
    forall i | 0 <= i < |r| - 1 ensures r[i] in known && ParentOf(w, r[i]) == Some(r[i + 1]) {
      if i < |p| - 1 {
        assert p[i] in known && r[i] == p[i] && r[i + 1] == p[i + 1];
      } else {
        var j := i - (|p| - 1);
        assert q[j] in known && r[i] == q[j] && r[i + 1] == q[j + 1];
      }
    }
    assert Climb(w, known, r, a, c);
  }

  lemma LastLink(w: World, known: set<Id>, u: Id, a: Id)
    ensures Above(w, known, u, a) ==> u == a || exists x <- known :: ParentOf(w, x) == Some(a)
  {
    if p :| Climb(w, known, p, u, a) {
      assert |p| > 1 ==> p[|p| - 2] in known && ParentOf(w, p[|p| - 2]) == Some(p[|p| - 2 + 1]);
    }
  }

  lemma OneLink(w: World, known: set<Id>, u: Id, a: Id)
    requires u == a || (u in known && ParentOf(w, u) == Some(a))
    ensures Above(w, known, u, a)
  {
    assert u == a ==> Climb(w, known, [u], u, a);
    assert u != a ==> Climb(w, known, [u, a], u, a);
  }

  /** `a` is live or the parent of a live token. */
  ghost predicate Near(w: World, live: set<Id>, a: Id) {
    a in live || exists u <- live :: ParentOf(w, u) == Some(a)
  }

  /** Since the filter follows links of live tokens only, it blocks the live tokens and their parents, and no others. */
  lemma BlockedIsNear(w: World, live: set<Id>, a: Id)
    ensures Blocked(w, live, a) <==> Near(w, live, a)
  {
    if u :| u in live && Above(w, live, u, a) { LastLink(w, live, u, a); }
    if u :| u in live && (u == a || ParentOf(w, u) == Some(a)) { OneLink(w, live, u, a); }
  }

  /** Above a dead parent of a live token stands a token that is live or has a live child itself. */
  ghost predicate GrandparentsNear(w: World, live: set<Id>) {
    forall u <- live ::
      match ParentOf(w, u)
      case Some(p) => p !in live && ParentOf(w, p).Some? ==> Near(w, live, ParentOf(w, p).value)
      case None => true
  }

  lemma NearClimbs(w: World, live: set<Id>, p: Id)
    requires GrandparentsNear(w, live) && Near(w, live, p) && ParentOf(w, p).Some?
    ensures Near(w, live, ParentOf(w, p).value)
  {
  }

  lemma {:induction false} ClimbStaysNear(w: World, live: set<Id>, p: seq<Id>, u: Id, a: Id)
    requires GrandparentsNear(w, live) && Near(w, live, u) && Climb(w, w.parent.Keys, p, u, a)
    ensures Near(w, live, a)
    decreases |p|
  {
    if |p| > 1 {
      assert ParentOf(w, p[0]) == Some(p[0 + 1]);
      NearClimbs(w, live, p[0]);
      var rest := p[1..];
      forall i | 0 <= i < |rest| - 1 ensures rest[i] in w.parent && ParentOf(w, rest[i]) == Some(rest[i + 1]) {
        assert p[i + 1] in w.parent && ParentOf(w, p[i + 1]) == Some(p[i + 1 + 1]);
      }
      ClimbStaysNear(w, live, rest, p[1], a);
    }
  }

  /** A live cohort token descends from `a`. */
  ghost predicate LiveBelow(w: World, live: set<Id>, a: Id) {
    exists u :: u in live && Descends(w, u, a)
  }

  lemma KnownParent(w: World, u: Id)
    ensures ParentOf(w, u).Some? ==> u in w.parent.Keys
  {
  }

  lemma NearIsAbove(w: World, live: set<Id>, a: Id)
    requires Near(w, live, a)
    ensures LiveBelow(w, live, a)
  {
    var u :| u in live && (u == a || ParentOf(w, u) == Some(a));
    KnownParent(w, u);
    OneLink(w, w.parent.Keys, u, a);
  }

  /** The filter blocks exactly the tokens with a live cohort descendant if and only if every live token with a dead
      parent has a grandparent that is live or has a live child, or none. */
  lemma FilterExactly(w: World, live: set<Id>)
    ensures GrandparentsNear(w, live) <==> forall a :: Blocked(w, live, a) <==> LiveBelow(w, live, a)
  {
    if GrandparentsNear(w, live) {
      forall a ensures Blocked(w, live, a) <==> LiveBelow(w, live, a) {
        BlockedIsNear(w, live, a);
        if Near(w, live, a) { NearIsAbove(w, live, a); }
        if u :| u in live && Descends(w, u, a) {
          var p :| Climb(w, w.parent.Keys, p, u, a);
          ClimbStaysNear(w, live, p, u, a);
        }
      }
    }
    if forall a :: Blocked(w, live, a) <==> LiveBelow(w, live, a) {
      forall u | u in live && ParentOf(w, u).Some? && ParentOf(w, ParentOf(w, u).value).Some?
        ensures Near(w, live, ParentOf(w, ParentOf(w, u).value).value)
      {
        var p := ParentOf(w, u).value;
        var g := ParentOf(w, p).value;
        OneLink(w, w.parent.Keys, u, p);
        OneLink(w, w.parent.Keys, p, g);
        AboveTransitive(w, w.parent.Keys, u, p, g);
        assert LiveBelow(w, live, g);
        BlockedIsNear(w, live, g);
      }
    }
  }

  // ---- Order -----------------------------------------------------------------------------------

  /** `x` is `y` or descends from it; with `both`, `y` may also descend from `x`. */
  ghost predicate Tied(w: World, both: bool, x: Id, y: Id) {
    Descends(w, x, y) || (both && Descends(w, y, x))
  }

  /** Rows `r` and `q` are of one lineage: `r` on the token of `q` or on a descendant, or with `both` on an ancestor. */
  ghost predicate OnLineage(w: World, both: bool, r: Row, q: Row) {
    r.token.Some? && q.token.Some? && Tied(w, both, r.token.value, q.token.value)
  }

  ghost predicate QuietAround(w: World, both: bool, s: State, row: Row) {
    forall u <- LiveCohort(w, s) :: row.token.Some? ==> !Tied(w, both, u, row.token.value)
  }

  /** Row `k` has begun: its lineage is quiet, and every later row of its lineage is out of the pass's hands. */
  ghost predicate Begun(w: World, both: bool, s: State, k: nat) {
    && k < |s.rows| && s.rows[k].key in s.comp && QuietAround(w, both, s, s.rows[k])
    && forall m {:trigger s.rows[m]} :: k < m < |s.rows| && OnLineage(w, both, s.rows[m], s.rows[k]) ==>
         !Selectable(w.tree, w.root, s.rows[m])
  }

  /** Of two rows begun in this order, the second is not a later row of the first one's lineage. */
  ghost predicate InOrder(w: World, both: bool, s: State, first: nat, second: nat) {
    first < |s.rows| && second < |s.rows| && first != second
    && (OnLineage(w, both, s.rows[second], s.rows[first]) ==> s.rows[second].seqNo < s.rows[first].seqNo)
  }

  /** Any two rows of one lineage were begun in decreasing order of their sequence numbers. */
  ghost predicate BegunInOrder(w: World, both: bool, s: State) {
    forall i, j :: 0 <= i < j < |s.begun| ==> InOrder(w, both, s, s.begun[i], s.begun[j])
  }

  ghost predicate Ordered(w: World, both: bool, s: State) {
    SeqNumbers(s.rows) && (forall k <- s.begun :: Begun(w, both, s, k)) && BegunInOrder(w, both, s)
  }

  /** Whatever is of one lineage with a live token or its parent is that token or its parent. For descendants this says
      that no live token has an ancestor beyond its parent, as for the branches of a region that is not nested. */
  ghost predicate Shallow(w: World, both: bool, live: set<Id>) {
    forall u <- live, a, b ::
      (a == u || ParentOf(w, u) == Some(a)) && Tied(w, both, a, b) ==> b == u || ParentOf(w, u) == Some(b)
  }

  /** A change that only settles statuses, drops live tokens and adds rows of live cohort tokens. */
  ghost predicate Narrows(w: World, s: State, s': State) {
    && LiveCohort(w, s') <= LiveCohort(w, s) && s.comp.Keys <= s'.comp.Keys && |s.rows| <= |s'.rows|
    && (forall k {:trigger s'.rows[k]} :: 0 <= k < |s.rows| ==>
          && s'.rows[k] == s.rows[k].(status := s'.rows[k].status)
          && (Selectable(w.tree, w.root, s'.rows[k]) ==> Selectable(w.tree, w.root, s.rows[k])))
    && (forall k {:trigger s'.rows[k]} :: |s.rows| <= k < |s'.rows| ==>
          s'.rows[k].token.Some? && s'.rows[k].token.value in LiveCohort(w, s))
  }

  lemma NarrowsBegun(w: World, both: bool, s: State, s': State, k: nat)
    requires Narrows(w, s, s') && Begun(w, both, s, k)
    ensures Begun(w, both, s', k)
  {
  }

  lemma StepNarrows(w: World, s: State, e: Event, s': State)
    requires Step(w, s, e, s')
    ensures Narrows(w, s, s')
  {
  }

  lemma StepSeq(w: World, s: State, e: Event, s': State)
    requires Step(w, s, e, s') && SeqNumbers(s.rows)
    ensures SeqNumbers(s'.rows)
  {
    if e.Scan? && e.u in LiveCohort(w, s) && e.u in w.job {
      var key := w.job[e.u];
      InsertKeepsSeqNumbers(s.rows, key, w.scopeOf(key), Some(e.u), FirstStatus(w, key));
    }
  }

  /** When a row begins, its lineage is quiet and no later row of it is left to the pass. */
  lemma PickedBegins(w: World, both: bool, s: State, k: nat)
    requires Shallow(w, both, LiveCohort(w, s)) && Picked(w, s, k)
    ensures QuietAround(w, both, s, s.rows[k])
    ensures forall m {:trigger s.rows[m]} :: k < m < |s.rows| && OnLineage(w, both, s.rows[m], s.rows[k]) ==>
              !Selectable(w.tree, w.root, s.rows[m])
  {
    if s.rows[k].token.Some? {
      var live := LiveCohort(w, s);
      BlockedIsNear(w, live, s.rows[k].token.value);
      forall m | k < m < |s.rows| && OnLineage(w, both, s.rows[m], s.rows[k])
        ensures !Selectable(w.tree, w.root, s.rows[m])
      {
        BlockedIsNear(w, live, s.rows[m].token.value);
      }
    }
  }

  /** One step at a time the weaker condition of the filter is enough: no live token descends from the row that
      begins. */
  lemma PickedIsQuiet(w: World, s: State, k: nat)
    requires GrandparentsNear(w, LiveCohort(w, s)) && Picked(w, s, k)
    ensures s.rows[k].token.Some? ==> !LiveBelow(w, LiveCohort(w, s), s.rows[k].token.value)
  {
    FilterExactly(w, LiveCohort(w, s));
  }

  lemma BeginOrdered(w: World, both: bool, s: State, k: nat, s': State)
    requires Shallow(w, both, LiveCohort(w, s)) && Ordered(w, both, s) && Step(w, s, Begin(k), s')
    ensures Ordered(w, both, s')
  {
    StepNarrows(w, s, Begin(k), s');
    StepSeq(w, s, Begin(k), s');
    PickedBegins(w, both, s, k);
    forall m <- s'.begun ensures Begun(w, both, s', m) {
      if m in s.begun { NarrowsBegun(w, both, s, s', m); } else { assert m == k; }
    }
    forall i, j | 0 <= i < j < |s'.begun| ensures InOrder(w, both, s', s'.begun[i], s'.begun[j]) {
      var first := s.begun[i];
      assert Begun(w, both, s, first);
      if j < |s.begun| { assert InOrder(w, both, s, first, s.begun[j]); }
    }
  }

  ghost predicate ShallowOrdered(w: World, both: bool, s: State) {
    Shallow(w, both, LiveCohort(w, s)) && Ordered(w, both, s)
  }

  lemma MoveOrdered(w: World, both: bool, s: State, s': State)
    requires ShallowOrdered(w, both, s) && Moves(w, s, s')
    ensures ShallowOrdered(w, both, s')
  {
    var e :| Step(w, s, e, s');
    StepNarrows(w, s, e, s');
    if e.Begin? {
      BeginOrdered(w, both, s, e.k, s');
    } else {
      StepSeq(w, s, e, s');
      assert s'.begun == s.begun;
      forall k <- s'.begun ensures Begun(w, both, s', k) { NarrowsBegun(w, both, s, s', k); }
      forall i, j | 0 <= i < j < |s'.begun| ensures InOrder(w, both, s', s'.begun[i], s'.begun[j]) {
        assert InOrder(w, both, s, s.begun[i], s.begun[j]);
      }
    }
  }

  // ---- Runs ------------------------------------------------------------------------------------

  ghost function Moving(w: World): (State, State) -> bool {
    (s, s') => Moves(w, s, s')
  }

  /** Straggler-safe reverse order, over every interleaving of worker results, token terminations and pass steps that
      starts on shallow tokens. */
  lemma ReverseOrder(w: World, both: bool, run: seq<State>, n: nat)
    requires |run| > 0 && Initial(run[0]) && Shallow(w, both, LiveCohort(w, run[0])) && Steps(Moving(w), run)
             && n < |run|
    ensures Ordered(w, both, run[n])
  {
    forall s, s' | ShallowOrdered(w, both, s) && Moving(w)(s, s') ensures ShallowOrdered(w, both, s') {
      MoveOrdered(w, both, s, s');
    }
    Invariance(Moving(w), s => ShallowOrdered(w, both, s), run, 0, n);
  }

  ghost predicate NothingLeft(w: World, s: State) {
    && LiveCohort(w, s) == {}
    && forall k {:trigger s.rows[k]} :: 0 <= k < |s.rows| ==> !Selectable(w.tree, w.root, s.rows[k])
  }

  /** A begun row lies under the root and is in or past compensation. */
  ghost predicate InPass(w: World, s: State, k: nat) {
    && k < |s.rows|
    && (s.rows[k].scope in Subtree(w.tree, w.root) || (w.root.None? && s.rows[k].scope == ROOT_SCOPE))
    && (s.rows[k].status.Compensating? || s.rows[k].status.Compensated? || s.rows[k].status.Failed?)
  }

  ghost predicate Accounted(w: World, s: State) {
    SeqNumbers(s.rows) && (forall k <- s.begun :: InPass(w, s, k)) && (s.result.Settled? ==> NothingLeft(w, s))
  }

  lemma MoveLeavesNothing(w: World, s: State, e: Event, s': State)
    requires SeqNumbers(s.rows) && (s.result.Settled? ==> NothingLeft(w, s)) && Step(w, s, e, s')
    ensures s'.result.Settled? ==> NothingLeft(w, s')
  {
    StepNarrows(w, s, e, s');
    if e.Settle? {
      SelectedExactly(w.tree, w.root, s.rows);
      forall k | 0 <= k < |s.rows| ensures !Selectable(w.tree, w.root, s.rows[k]) {
        assert s.rows[k] !in Selected(w.tree, w.root, s.rows);
      }
    }
  }

  lemma MoveAccounted(w: World, s: State, s': State)
    requires Accounted(w, s) && Moves(w, s, s')
    ensures Accounted(w, s')
  {
    var e :| Step(w, s, e, s');
    StepSeq(w, s, e, s');
    MoveLeavesNothing(w, s, e, s');
    forall k <- s'.begun ensures InPass(w, s', k) { MoveInPass(w, s, e, s', k); }
  }

  lemma MoveInPass(w: World, s: State, e: Event, s': State, k: nat)
    requires (k in s.begun ==> InPass(w, s, k)) && k in s'.begun && Step(w, s, e, s')
    ensures InPass(w, s', k)
  {
  }

  /** Nothing that ran is forgotten: a token live at the start is still live, or owes nothing, or is in the ledger. */
  ghost predicate Retained(w: World, u: Id, s: State) {
    || u in s.live
    || u !in w.job || w.job[u] !in s.jobs || s.jobs[w.job[u]].Broken?
    || (s.jobs[w.job[u]].Done? && HasKey(s.rows, w.job[u]))
  }

  lemma KeyStays(rows: Rows, rows': Rows, key: StepKey)
    requires HasKey(rows, key) && |rows| <= |rows'|
    requires forall k {:trigger rows'[k]} :: 0 <= k < |rows| ==> rows'[k].key == rows[k].key
    ensures HasKey(rows', key)
  {
    var k :| 0 <= k < |rows| && rows[k].key == key;
    assert rows'[k] in rows' && rows'[k].key == key;
  }

  lemma MoveRetained(w: World, u: Id, s: State, s': State)
    requires Retained(w, u, s) && Moves(w, s, s')
    ensures Retained(w, u, s')
  {
    var e :| Step(w, s, e, s');
    StepNarrows(w, s, e, s');
    if u in w.job && HasKey(s.rows, w.job[u]) { KeyStays(s.rows, s'.rows, w.job[u]); }
    if e.Scan? && e.u == u && s' != s && u in w.job && w.job[u] in s.jobs && s.jobs[w.job[u]].Done? {
      assert HasKey(s'.rows, w.job[u]) by {
        if !HasKey(s.rows, w.job[u]) { assert s'.rows[|s.rows|] in s'.rows; }
      }
    }
  }

  /** The quiescence barrier: the pass reports "compensated" only when nothing selected and no live cohort token is
      left, every row it began is compensated, and every forward job that completed on a cohort token is in the
      ledger. */
  lemma SettledMeansDone(w: World, run: seq<State>, n: nat)
    requires |run| > 0 && Initial(run[0]) && Steps(Moving(w), run) && n < |run| && run[n].result.Settled?
    ensures LiveCohort(w, run[n]) == {}
    ensures forall r <- run[n].rows :: !Selectable(w.tree, w.root, r)
    ensures forall k <- run[n].begun :: k < |run[n].rows| && run[n].rows[k].status.Compensated?
    ensures forall u <- LiveCohort(w, run[0]) ::
              u in w.job && w.job[u] in run[n].jobs && run[n].jobs[w.job[u]].Done? ==>
              HasKey(run[n].rows, w.job[u])
  {
    forall s, s' | Accounted(w, s) && Moving(w)(s, s') ensures Accounted(w, s') { MoveAccounted(w, s, s'); }
    Invariance(Moving(w), s => Accounted(w, s), run, 0, n);
    forall k <- run[n].begun ensures run[n].rows[k].status.Compensated? {
      assert !Selectable(w.tree, w.root, run[n].rows[k]);
    }
    forall u <- LiveCohort(w, run[0]) ensures InCohort(w, u) && Retained(w, u, run[n]) && u !in run[n].live {
      assert u !in LiveCohort(w, run[n]);
      forall s, s' | Retained(w, u, s) && Moving(w)(s, s') ensures Retained(w, u, s') { MoveRetained(w, u, s, s'); }
      Invariance(Moving(w), s => Retained(w, u, s), run, 0, n);
    }
  }

  // ---- Stragglers ------------------------------------------------------------------------------

  /** Scope `s` lies under the root of the pass; the process is over every scope and over the steps outside all. */
  ghost predicate UnderRoot(w: World, s: Id) {
    match w.root
    case None => s in w.tree || s == ROOT_SCOPE
    case Some(root) => s in w.tree && root in Chain(w.tree, Some(s))
  }

  /** The row of a job that had none when the pass began. */
  ghost predicate LateRow(w: World, row: Row, key: StepKey) {
    && row.key == key && row.scope == w.scopeOf(key)
    && if w.compensatable(key)
       then row.status.Pending? || row.status.Compensating? || row.status.Compensated? || row.status.Failed?
       else row.status.NotRequired?
  }

  ghost predicate LedgeredSince(w: World, s: State, key: StepKey) {
    HasKey(s.rows, key) ==> exists r <- s.rows :: LateRow(w, r, key)
  }

  ghost predicate Keeping(w: World, s: State, key: StepKey) {
    SeqNumbers(s.rows) && LedgeredSince(w, s, key)
  }

  lemma LateRowStays(w: World, s: State, e: Event, s': State, k: nat, key: StepKey)
    requires Step(w, s, e, s') && k < |s.rows| && LateRow(w, s.rows[k], key)
    ensures k < |s'.rows| && LateRow(w, s'.rows[k], key)
  {
  }

  lemma LateRowAdded(w: World, s: State, e: Event, s': State, key: StepKey)
    requires Step(w, s, e, s') && !HasKey(s.rows, key) && HasKey(s'.rows, key)
    ensures exists r <- s'.rows :: LateRow(w, r, key)
  {
    StepNarrows(w, s, e, s');
    forall i | 0 <= i < |s.rows| ensures s'.rows[i].key != key { assert s.rows[i] in s.rows; }
    var k :| 0 <= k < |s'.rows| && s'.rows[k].key == key;
    assert LateRow(w, s'.rows[k], key);
  }

  lemma MoveLedgered(w: World, s: State, e: Event, s': State, key: StepKey)
    requires LedgeredSince(w, s, key) && Step(w, s, e, s')
    ensures LedgeredSince(w, s', key)
  {
    if HasKey(s.rows, key) {
      var k :| 0 <= k < |s.rows| && LateRow(w, s.rows[k], key);
      LateRowStays(w, s, e, s', k, key);
      assert s'.rows[k] in s'.rows;
    } else if HasKey(s'.rows, key) {
      LateRowAdded(w, s, e, s', key);
    }
  }

  /** No straggler is lost: the job of a token live under the root when the pass began, if it completed before the pass
      reports "compensated", has its row, and the row is compensated if its element has a handler under the root. */
  lemma StragglersSettled(w: World, run: seq<State>, n: nat, u: Id)
    requires |run| > 0 && Initial(run[0]) && Steps(Moving(w), run) && n < |run| && run[n].result.Settled?
    requires u in run[0].live && u in w.position && UnderRoot(w, w.position[u]) && u in w.job
    requires (forall r <- run[0].rows :: r.key != w.job[u])
    requires w.job[u] in run[n].jobs && run[n].jobs[w.job[u]] == Done
    ensures u !in run[n].live
    ensures exists r <- run[n].rows :: r.key == w.job[u] && r.scope == w.scopeOf(w.job[u])
              && (!w.compensatable(r.key) ==> r.status == NotRequired)
              && (w.compensatable(r.key) && UnderRoot(w, r.scope) ==> r.status == Compensated)
  {
    var key := w.job[u];
    assert u in LiveCohort(w, run[0]);
    SettledMeansDone(w, run, n);
    forall s, s' | Keeping(w, s, key) && Moving(w)(s, s') ensures Keeping(w, s', key) {
      var e :| Step(w, s, e, s');
      StepSeq(w, s, e, s');
      MoveLedgered(w, s, e, s', key);
    }
    Invariance(Moving(w), s => Keeping(w, s, key), run, 0, n);
    assert u !in LiveCohort(w, run[n]);
    var r :| r in run[n].rows && LateRow(w, r, key);
  }
}
