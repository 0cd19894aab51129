/** Publish-time resolution of call activities (src/bpmn/call-resolution.ts:60-141): bind the direct calls, then walk
    the pinned call tree once, memoised, for depth, cycles, missing versions and message waits. */
module CallResolution {
  import opened Prelude

  type Id = string

  /** Call-tree depth cap (src/runtime/engine.ts:200-206); a process without calls has depth 1. */
  const MAX_CALL_DEPTH: nat := 4

  datatype Call = Call(elementId: Id, child: Id)

  /** A published version: its call activities with their pinned child versions, and its message waits. */
  datatype Version = Version(calls: seq<Call>, waits: seq<Id>)

  type Db = map<Id, Version>

  datatype Issue =
    | Unresolved(elementId: Id)
    | Cycle(via: Id)
    | MessageWait(via: Id, wait: Id)
    | Missing(elementId: Id, version: Id)
    | TooDeep(elementId: Id, depth: nat)

  // ---- Call paths ------------------------------------------------------------------------------

  ghost predicate Invokes(db: Db, v: Id, c: Id) {
    v in db && exists call <- db[v].calls :: call.child == c
  }

  /** A chain of calls through published versions. */
  ghost predicate CallPath(db: Db, p: seq<Id>) {
    && |p| > 0 && (forall i :: 0 <= i < |p| ==> p[i] in db)
    && forall i :: 0 <= i < |p| - 1 ==> Invokes(db, p[i], p[i + 1])
  }

  ghost predicate PathFrom(db: Db, p: seq<Id>, v: Id) {
    CallPath(db, p) && p[0] == v
  }

  ghost predicate HasDepth(db: Db, v: Id, n: nat) {
    exists p :: PathFrom(db, p, v) && |p| == n
  }

  ghost predicate Connects(db: Db, p: seq<Id>, v: Id, w: Id) {
    PathFrom(db, p, v) && p[|p| - 1] == w
  }

  ghost predicate ReachedFrom(db: Db, roots: set<Id>, w: Id) {
    exists p, v :: v in roots && Connects(db, p, v, w)
  }

  ghost predicate OnCycle(db: Db, v: Id) {
    exists p :: Connects(db, p, v, v) && |p| > 1
  }

  ghost predicate CycleReached(db: Db, roots: set<Id>) {
    exists v :: ReachedFrom(db, roots, v) && OnCycle(db, v)
  }

  /** A version of the tree is acceptable: it waits for no message and its pinned children exist. */
  ghost predicate Clean(db: Db, v: Id) {
    v in db && db[v].waits == [] && forall call <- db[v].calls :: call.child in db
  }

  /** The whole call tree under `roots`: within the depth cap, and every version reached is clean. */
  ghost predicate Acceptable(db: Db, roots: set<Id>) {
    forall p, v :: v in roots && PathFrom(db, p, v) ==> 1 + |p| <= MAX_CALL_DEPTH && Clean(db, p[|p| - 1])
  }

  lemma PathGrows(db: Db, p: seq<Id>, c: Id)
    requires CallPath(db, p) && Invokes(db, p[|p| - 1], c) && c in db
    ensures CallPath(db, p + [c])
  {
  }

  lemma PathPrepend(db: Db, v: Id, p: seq<Id>)
    requires CallPath(db, p) && Invokes(db, v, p[0])
    ensures CallPath(db, [v] + p)
  {
  }

  lemma PathJoin(db: Db, p: seq<Id>, q: seq<Id>)
    requires CallPath(db, p) && CallPath(db, q) && p[|p| - 1] == q[0]
    ensures CallPath(db, p + q[1..])
  {
  }

  /** Around a cycle a path of any length can be found. */
  lemma {:induction false} CyclePumps(db: Db, p: seq<Id>, cycle: seq<Id>, n: nat) returns (long: seq<Id>)
    requires CallPath(db, p) && CallPath(db, cycle) && |cycle| > 1 && p[|p| - 1] == cycle[0] == cycle[|cycle| - 1]
    ensures CallPath(db, long) && |long| >= n && long[0] == p[0]
    decreases n - |p|
  {
    if |p| >= n { return p; }
    PathJoin(db, p, cycle);
    long := CyclePumps(db, p + cycle[1..], cycle, n);
  }

  lemma CycleNotAcceptable(db: Db, roots: set<Id>)
    requires CycleReached(db, roots)
    ensures !Acceptable(db, roots)
  {
    var w :| ReachedFrom(db, roots, w) && OnCycle(db, w);
    var p, v :| v in roots && Connects(db, p, v, w);
    var cycle :| Connects(db, cycle, w, w) && |cycle| > 1;
    var long := CyclePumps(db, p, cycle, MAX_CALL_DEPTH);
    assert PathFrom(db, long, v);
  }

  // ---- The memo --------------------------------------------------------------------------------

  ghost predicate NoCycle(issues: seq<Issue>) {
    forall i <- issues :: !i.Cycle?
  }

  ghost predicate NoWait(issues: seq<Issue>) {
    forall i <- issues :: !i.MessageWait?
  }

  ghost predicate NoneMissing(issues: seq<Issue>) {
    forall i <- issues :: !i.Missing?
  }

  ghost predicate Ranked(db: Db, memo: map<Id, nat>, v: Id) {
    && v in memo && v in db && memo[v] >= 1
    && forall call <- db[v].calls :: call.child in db ==> call.child in memo && memo[v] > memo[call.child]
  }

  /** A finished version: its depth is attained by some path, and issues tell all that is wrong below it. */
  ghost predicate Finished(db: Db, memo: map<Id, nat>, issues: seq<Issue>, v: Id) {
    && v in db && v in memo && HasDepth(db, v, memo[v])
    && (NoCycle(issues) ==> Ranked(db, memo, v))
    && (NoWait(issues) ==> db[v].waits == [])
    && (NoneMissing(issues) ==> forall call <- db[v].calls :: call.child in db)
  }

  /** Each issue is about something reached from the roots. */
  ghost predicate Witnessed(db: Db, roots: set<Id>, i: Issue) {
    match i
      case Unresolved(_) => false
      case Cycle(_) => CycleReached(db, roots)
      case MessageWait(_, m) => exists v :: ReachedFrom(db, roots, v) && m in db[v].waits
      case Missing(_, c) => exists v :: ReachedFrom(db, roots, v) && Invokes(db, v, c) && c !in db
      case TooDeep(_, d) => d > MAX_CALL_DEPTH && exists v :: v in roots && HasDepth(db, v, d - 1)
  }

  ghost predicate Consistent(db: Db, roots: set<Id>, memo: map<Id, nat>, issues: seq<Issue>) {
    && (forall v <- memo :: Finished(db, memo, issues, v))
    && forall i <- issues :: Witnessed(db, roots, i)
  }

  lemma {:induction false} RankedPath(db: Db, memo: map<Id, nat>, p: seq<Id>)
    requires CallPath(db, p) && p[0] in memo && forall v <- memo :: Ranked(db, memo, v)
    ensures |p| <= memo[p[0]] && p[|p| - 1] in memo
    decreases |p|
  {
    if |p| > 1 {
      assert Invokes(db, p[0], p[0 + 1]);
      assert CallPath(db, p[1..]) by {
        forall i | 0 <= i < |p[1..]| - 1 ensures Invokes(db, p[1..][i], p[1..][i + 1]) {
          assert Invokes(db, p[i + 1], p[i + 1 + 1]);
        }
      }
      RankedPath(db, memo, p[1..]);
    }
  }

  // ---- Keeping the memo consistent -------------------------------------------------------------

  /** Issues are only added, finished versions keep their depth, and no version of `chain` gets finished. */
  ghost predicate Extends(memo: map<Id, nat>, issues: seq<Issue>, memo': map<Id, nat>, issues': seq<Issue>,
                          chain: seq<Id>) {
    && issues <= issues' && (forall v <- memo :: v in memo' && memo'[v] == memo[v])
    && forall v <- chain :: v in memo' ==> v in memo
  }

  lemma ExtendsOn(memo: map<Id, nat>, issues: seq<Issue>, memo': map<Id, nat>, issues': seq<Issue>,
                  memo'': map<Id, nat>, issues'': seq<Issue>, chain: seq<Id>)
    requires Extends(memo, issues, memo', issues', chain) && Extends(memo', issues', memo'', issues'', chain)
    ensures Extends(memo, issues, memo'', issues'', chain)
  {
  }

  lemma WitnessedByMore(db: Db, roots: set<Id>, more: set<Id>, i: Issue)
    requires Witnessed(db, roots, i) && roots <= more
    ensures Witnessed(db, more, i)
  {
    forall w | ReachedFrom(db, roots, w) ensures ReachedFrom(db, more, w) {
      var p, v :| v in roots && Connects(db, p, v, w);
    }
  }

  lemma IssueAdded(db: Db, roots: set<Id>, memo: map<Id, nat>, issues: seq<Issue>, i: Issue)
    requires Consistent(db, roots, memo, issues) && Witnessed(db, roots, i)
    ensures Consistent(db, roots, memo, issues + [i])
  {
  }

  lemma FewerIssues(issues: seq<Issue>, more: seq<Issue>)
    requires issues <= more
    ensures NoCycle(more) ==> NoCycle(issues)
    ensures NoWait(more) ==> NoWait(issues)
    ensures NoneMissing(more) ==> NoneMissing(issues)
  {
  }

  /** The walked calls that lead to published versions are memoised with depth at most `max`; the others are issues. */
  ghost predicate Covered(db: Db, memo: map<Id, nat>, issues: seq<Issue>, calls: seq<Call>, max: nat) {
    && (NoneMissing(issues) ==> forall call <- calls :: call.child in db)
    && (NoCycle(issues) ==> forall call <- calls :: call.child in db ==> call.child in memo && memo[call.child] <= max)
  }

  lemma CoveredOn(db: Db, memo: map<Id, nat>, issues: seq<Issue>, memo': map<Id, nat>, issues': seq<Issue>,
                  calls: seq<Call>, k: nat, max: nat, below: nat)
    requires k < |calls| && Covered(db, memo, issues, calls[..k], max)
    requires issues <= issues' && forall v <- memo :: v in memo' && memo'[v] == memo[v]
    requires NoneMissing(issues') ==> calls[k].child in db
    requires NoCycle(issues') && calls[k].child in db ==> calls[k].child in memo' && memo'[calls[k].child] == below
    ensures Covered(db, memo', issues', calls[..k + 1], if below > max then below else max)
  {
  }

  /** The first `k` calls of `v` have been walked, with `max` the greatest depth below them. */
  ghost predicate CallsWalked(db: Db, memo0: map<Id, nat>, issues0: seq<Issue>, memo: map<Id, nat>, issues: seq<Issue>,
                              chain: seq<Id>, v: Id, k: nat, max: nat) {
    && Extends(memo0, issues0, memo, issues, chain + [v])
    && v in db && (NoWait(issues) ==> db[v].waits == []) && HasDepth(db, v, 1 + max)
    && k <= |db[v].calls| && Covered(db, memo, issues, db[v].calls[..k], max)
  }

  lemma CallsWalkedNone(db: Db, memo: map<Id, nat>, issues: seq<Issue>, chain: seq<Id>, v: Id)
    requires v in db && (NoWait(issues) ==> db[v].waits == [])
    ensures CallsWalked(db, memo, issues, memo, issues, chain, v, 0, 0)
  {
    assert PathFrom(db, [v], v);
  }

  lemma CallsWalkedOn(db: Db, memo0: map<Id, nat>, issues0: seq<Issue>, memo: map<Id, nat>, issues: seq<Issue>,
                      memo': map<Id, nat>, issues': seq<Issue>, chain: seq<Id>, v: Id, k: nat, max: nat, below: nat)
    requires CallsWalked(db, memo0, issues0, memo, issues, chain, v, k, max) && k < |db[v].calls|
    requires Extends(memo, issues, memo', issues', chain + [v]) && (below == 0 || HasDepth(db, v, 1 + below))
    requires NoneMissing(issues') ==> db[v].calls[k].child in db
    requires NoCycle(issues') && db[v].calls[k].child in db ==>
               db[v].calls[k].child in memo' && memo'[db[v].calls[k].child] == below
    ensures CallsWalked(db, memo0, issues0, memo', issues', chain, v, k + 1, if below > max then below else max)
  {
    ExtendsOn(memo0, issues0, memo, issues, memo', issues', chain + [v]);
    FewerIssues(issues, issues');
    CoveredOn(db, memo, issues, memo', issues', db[v].calls, k, max, below);
  }

  /** Once all its calls are covered, a version can be entered into the memo. */
  lemma Finish(db: Db, roots: set<Id>, memo0: map<Id, nat>, issues0: seq<Issue>, memo: map<Id, nat>, issues: seq<Issue>,
               chain: seq<Id>, v: Id, max: nat)
    requires v in db && v !in memo0 && v !in chain && Consistent(db, roots, memo, issues)
    requires CallsWalked(db, memo0, issues0, memo, issues, chain, v, |db[v].calls|, max)
    ensures Consistent(db, roots, memo[v := 1 + max], issues)
    ensures Extends(memo0, issues0, memo[v := 1 + max], issues, chain)
  {
    assert db[v].calls[..|db[v].calls|] == db[v].calls;
  }

  /** The chain of a walk that stands at `v`: a call path from a root. */
  ghost predicate Standing(db: Db, roots: set<Id>, chain: seq<Id>, v: Id) {
    CallPath(db, chain + [v]) && (chain + [v])[0] in roots
  }

  lemma StandingReached(db: Db, roots: set<Id>, chain: seq<Id>, v: Id)
    requires Standing(db, roots, chain, v)
    ensures ReachedFrom(db, roots, v)
  {
    assert Connects(db, chain + [v], (chain + [v])[0], v);
  }

  lemma ChainCycle(db: Db, roots: set<Id>, chain: seq<Id>, v: Id)
    requires Standing(db, roots, chain, v) && v in chain
    ensures CycleReached(db, roots)
  {
    StandingReached(db, roots, chain, v);
    var i :| 0 <= i < |chain| && chain[i] == v;
    var p := (chain + [v])[i..];
    forall j | 0 <= j < |p| - 1 ensures Invokes(db, p[j], p[j + 1]) {
      assert Invokes(db, (chain + [v])[i + j], (chain + [v])[i + j + 1]);
    }
    assert Connects(db, p, v, v);
  }

  lemma DepthAbove(db: Db, v: Id, c: Id, n: nat)
    requires Invokes(db, v, c) && HasDepth(db, c, n)
    ensures HasDepth(db, v, n + 1)
  {
    var p :| PathFrom(db, p, c) && |p| == n;
    PathPrepend(db, v, p);
    assert PathFrom(db, [v] + p, v);
  }

  // ---- The resolver ----------------------------------------------------------------------------

  class Resolver {
    const db: Db
    /** The versions walked from so far. */
    ghost var roots: set<Id>
    var depthMemo: map<Id, nat>
    var childGraphs: map<Id, Version>
    var issues: seq<Issue>

    constructor (db: Db)
      ensures this.db == db && roots == {} && depthMemo == map[] && childGraphs == map[] && issues == []
    {
      this.db, roots := db, {};
      depthMemo, childGraphs, issues := map[], map[], [];
    }

    ghost predicate Valid()
      reads this
    {
      && Consistent(db, roots, depthMemo, issues)
      && forall v <- childGraphs :: v in db && childGraphs[v] == db[v]
    }

    method Report(i: Issue)
      requires Valid() && Witnessed(db, roots, i)
      modifies this`issues
      ensures Valid() && issues == old(issues) + [i]
    {
      IssueAdded(db, roots, depthMemo, issues, i);
      issues := issues + [i];
    }

    ghost method AddRoot(v: Id)
      requires Valid()
      modifies this`roots
      ensures Valid() && roots == old(roots) + {v}
    {
      forall i <- issues ensures Witnessed(db, roots + {v}, i) { WitnessedByMore(db, roots, roots + {v}, i); }
      roots := roots + {v};
    }

    /** Report every message wait of `v`. */
    method ReportWaits(v: Id, via: Id)
      requires Valid() && v in db && ReachedFrom(db, roots, v)
      modifies this`issues
      ensures Valid() && old(issues) <= issues && (NoWait(issues) ==> db[v].waits == [])
      ensures db[v].waits == [] ==> issues == old(issues)
    {
      for k := 0 to |db[v].waits|
        invariant Valid() && old(issues) <= issues && (k > 0 ==> !NoWait(issues)) && (k == 0 ==> issues == old(issues))
      {
        Report(MessageWait(via, db[v].waits[k]));
        assert issues[|issues| - 1] in issues;
      }
    }

    /** The cached graph of a pinned child version, or an issue if it is missing. */
    method LoadChild(v: Id, call: Call) returns (found: bool)
      requires Valid() && ReachedFrom(db, roots, v) && v in db && call in db[v].calls
      modifies this`issues, this`childGraphs
      ensures Valid() && found == (call.child in db) && (found ==> call.child in childGraphs && issues == old(issues))
      ensures old(issues) <= issues && (!found ==> !NoneMissing(issues))
    {
      if call.child in childGraphs { return true; }
      if call.child !in db {
        assert Invokes(db, v, call.child);
        Report(Missing(call.elementId, call.child));
        assert issues[|issues| - 1] in issues;
        return false;
      }
      childGraphs := childGraphs[call.child := db[call.child]];
      found := true;
    }

    /** Walk the tree below the k-th root. */
    method WalkRoot(versions: seq<Id>, k: nat, via: Id) returns (d: nat)
      requires k < |versions| && versions[k] in db && Valid() && roots == Roots(versions[..k])
      requires RootsDone(db, versions, k, depthMemo, issues)
      modifies this
      ensures Valid() && roots == Roots(versions[..k + 1]) && HasDepth(db, versions[k], d)
      ensures 1 + d <= MAX_CALL_DEPTH ==> RootsDone(db, versions, k + 1, depthMemo, issues)
      ensures NoCycle(issues) ==> forall j :: 0 <= j <= k ==> versions[j] in depthMemo
      ensures NoCycle(issues) || exists i :: ReportsCycle(db, versions, i)
    {
      var v := versions[k];
      AddRoot(v);
      assert versions[..k + 1] == versions[..k] + [v];
      assert roots == Roots(versions[..k + 1]);
      assert Standing(db, roots, [], v);
      ghost var memo, before := depthMemo, issues;
      d := Walk(v, [], via);
      FewerIssues(before, issues);
      if NoCycle(before) && !NoCycle(issues) { FirstCycle(db, versions, k, memo, before, roots, issues); }
    }

    /** Depth of the call tree under `v`, memoised; terminates because the chain holds distinct versions. */
    method Walk(v: Id, chain: seq<Id>, via: Id) returns (d: nat)
      requires Valid() && Standing(db, roots, chain, v)
      modifies this`depthMemo, this`childGraphs, this`issues
      ensures Valid() && Extends(old(depthMemo), old(issues), depthMemo, issues, chain)
      ensures HasDepth(db, v, d)
      ensures NoCycle(issues) ==> v in depthMemo && depthMemo[v] == d
      decreases db.Keys - (set x | x in chain), 2
    {
      assert (chain + [v])[|chain|] == v;
      assert PathFrom(db, [v], v);
      if v in chain {
        ChainCycle(db, roots, chain, v);
        Report(Cycle(via));
        assert issues[|issues| - 1] in issues;
        return 1;
      }
      if v in depthMemo { return depthMemo[v]; }
      StandingReached(db, roots, chain, v);
      ReportWaits(v, via);
      d := WalkCalls(v, chain);
    }

    /** The calls of `v`, once its own waits are reported. */
    method WalkCalls(v: Id, chain: seq<Id>) returns (d: nat)
      requires Valid() && Standing(db, roots, chain, v) && v in db && v !in chain && v !in depthMemo
      requires NoWait(issues) ==> db[v].waits == []
      modifies this`depthMemo, this`childGraphs, this`issues
      ensures Valid() && Extends(old(depthMemo), old(issues), depthMemo, issues, chain)
      ensures HasDepth(db, v, d) && v in depthMemo && depthMemo[v] == d
      decreases db.Keys - (set x | x in chain), 1
    {
      var max := 0;
      CallsWalkedNone(db, depthMemo, issues, chain, v);
      for k := 0 to |db[v].calls|
        invariant Valid() && CallsWalked(db, old(depthMemo), old(issues), depthMemo, issues, chain, v, k, max)
      {
        ghost var memo0, issues0 := depthMemo, issues;
        var below := WalkCall(v, chain, db[v].calls[k]);
        CallsWalkedOn(db, old(depthMemo), old(issues), memo0, issues0, depthMemo, issues, chain, v, k, max, below);
        if below > max { max := below; }
      }
      d := 1 + max;
      Finish(db, roots, old(depthMemo), old(issues), depthMemo, issues, chain, v, max);
      depthMemo := depthMemo[v := d];
    }

    /** One call of `v`: the depth below it, or 0 if the pinned version is missing. */
    method WalkCall(v: Id, chain: seq<Id>, call: Call) returns (below: nat)
      requires Valid() && Standing(db, roots, chain, v) && v in db && v !in chain && call in db[v].calls
      modifies this`depthMemo, this`childGraphs, this`issues
      ensures Valid() && Extends(old(depthMemo), old(issues), depthMemo, issues, chain + [v])
      ensures below == 0 || HasDepth(db, v, 1 + below)
      ensures NoneMissing(issues) ==> call.child in db
      ensures NoCycle(issues) && call.child in db ==> call.child in depthMemo && depthMemo[call.child] == below
      decreases db.Keys - (set x | x in chain), 0
    {
      StandingReached(db, roots, chain, v);
      assert Invokes(db, v, call.child);
      var found := LoadChild(v, call);
      if !found { return 0; }
      PathGrows(db, chain + [v], call.child);
      ChainShrinks(db, chain, v);
      ghost var issues0 := issues;
      below := Walk(call.child, chain + [v], call.elementId);
      FewerIssues(issues0, issues);
      DepthAbove(db, v, call.child, below);
    }
  }

  lemma ChainShrinks(db: Db, chain: seq<Id>, v: Id)
    requires v in db && v !in chain
    ensures db.Keys - (set x | x in chain + [v]) < db.Keys - (set x | x in chain)
  {
    var open := db.Keys - set x | x in chain;
    assert db.Keys - (set x | x in chain + [v]) == open - {v};
    assert v in open;
  }

  // ---- The verdict -----------------------------------------------------------------------------

  /** With no issue and all roots memoised within the cap, the whole tree is acceptable. */
  lemma NoIssueAcceptable(db: Db, roots: set<Id>, memo: map<Id, nat>, issues: seq<Issue>)
    requires Consistent(db, roots, memo, issues) && issues == []
    requires forall v <- roots :: v in memo && 1 + memo[v] <= MAX_CALL_DEPTH
    ensures Acceptable(db, roots)
  {
    forall v <- memo ensures Ranked(db, memo, v) { assert Finished(db, memo, issues, v); }
    forall p, v | v in roots && PathFrom(db, p, v) ensures 1 + |p| <= MAX_CALL_DEPTH && Clean(db, p[|p| - 1]) {
      RankedPath(db, memo, p);
      assert Finished(db, memo, issues, p[|p| - 1]);
    }
  }

  /** Every issue about the tree refutes that it is acceptable. */
  lemma IssueRefutes(db: Db, roots: set<Id>, i: Issue)
    requires Witnessed(db, roots, i)
    ensures !Acceptable(db, roots)
  {
    match i {
      case Cycle(_) => CycleNotAcceptable(db, roots);
      case MessageWait(_, m) =>
        var w :| ReachedFrom(db, roots, w) && m in db[w].waits;
        var p, v :| v in roots && Connects(db, p, v, w);
        assert PathFrom(db, p, v) && !Clean(db, p[|p| - 1]);
      case Missing(_, c) =>
        var w :| ReachedFrom(db, roots, w) && Invokes(db, w, c) && c !in db;
        var p, v :| v in roots && Connects(db, p, v, w);
        assert PathFrom(db, p, v) && !Clean(db, p[|p| - 1]);
      case TooDeep(_, d) =>
        var v :| v in roots && HasDepth(db, v, d - 1);
        var p :| PathFrom(db, p, v) && |p| == d - 1;
    }
  }

  ghost function Roots(versions: seq<Id>): set<Id> {
    set v | v in versions
  }

  /** Every call path from `v` is within the depth cap. */
  ghost predicate WithinCap(db: Db, v: Id) {
    forall p :: PathFrom(db, p, v) ==> 1 + |p| <= MAX_CALL_DEPTH
  }

  /** Without a cycle issue a memoised version reaches no cycle, and its memo bounds its call paths. */
  lemma MemoHasNoCycle(db: Db, roots: set<Id>, memo: map<Id, nat>, issues: seq<Issue>, v: Id)
    requires Consistent(db, roots, memo, issues) && NoCycle(issues) && v in memo
    ensures !CycleReached(db, {v})
    ensures 1 + memo[v] <= MAX_CALL_DEPTH ==> WithinCap(db, v)
  {
    forall x <- memo ensures Ranked(db, memo, x) { assert Finished(db, memo, issues, x); }
    forall p | PathFrom(db, p, v) ensures |p| <= memo[v] { RankedPath(db, memo, p); }
    if CycleReached(db, {v}) {
      var w :| ReachedFrom(db, {v}, w) && OnCycle(db, w);
      var p, x :| x in {v} && Connects(db, p, x, w);
      var cycle :| Connects(db, cycle, w, w) && |cycle| > 1;
      var long := CyclePumps(db, p, cycle, memo[v] + 1);
      assert PathFrom(db, long, v);
      assert false;
    }
  }

  /** The roots are walked in order up to the first one beyond the cap: the i-th is walked and reaches a cycle. */
  ghost predicate ReportsCycle(db: Db, versions: seq<Id>, i: int) {
    0 <= i < |versions| && CycleReached(db, {versions[i]}) && forall j :: 0 <= j < i ==> WithinCap(db, versions[j])
  }

  /** The first `k` roots have been walked within the cap. */
  ghost predicate RootsDone(db: Db, versions: seq<Id>, k: nat, memo: map<Id, nat>, issues: seq<Issue>) {
    && (NoCycle(issues) ==> forall j :: 0 <= j < k && j < |versions| ==>
          versions[j] in memo && 1 + memo[versions[j]] <= MAX_CALL_DEPTH)
    && (NoCycle(issues) || exists i :: ReportsCycle(db, versions, i))
  }

  lemma CycleHasRoot(db: Db, roots: set<Id>)
    requires CycleReached(db, roots)
    ensures exists v <- roots :: CycleReached(db, {v})
  {
    var w :| ReachedFrom(db, roots, w) && OnCycle(db, w);
    var p, v :| v in roots && Connects(db, p, v, w);
    assert ReachedFrom(db, {v}, w);
  }

  /** The first cycle issue comes from the k-th root, and no root before it exceeds the cap. */
  lemma FirstCycle(db: Db, versions: seq<Id>, k: nat, memo: map<Id, nat>, issues: seq<Issue>, roots: set<Id>,
                   found: seq<Issue>)
    requires k < |versions| && Consistent(db, roots, memo, issues) && NoCycle(issues) && !NoCycle(found)
    requires forall j :: 0 <= j < k ==> versions[j] in memo && 1 + memo[versions[j]] <= MAX_CALL_DEPTH
    requires forall i <- found :: Witnessed(db, Roots(versions[..k + 1]), i)
    ensures ReportsCycle(db, versions, k)
  {
    forall j | 0 <= j < k ensures WithinCap(db, versions[j]) && !CycleReached(db, {versions[j]}) {
      MemoHasNoCycle(db, roots, memo, issues, versions[j]);
    }
    var i :| i in found && i.Cycle?;
    assert Witnessed(db, Roots(versions[..k + 1]), i);
    CycleHasRoot(db, Roots(versions[..k + 1]));
  }

  /** The version each direct call is bound to, where the lookup finds one. */
  ghost function Bound(calls: seq<Id>, latest: Id -> Option<Id>): set<Id> {
    set c | c in calls && latest(c).Some? :: latest(c).value
  }

  function Versions(calls: seq<Id>, latest: Id -> Option<Id>): (vs: seq<Id>)
    requires forall c <- calls :: latest(c).Some?
    ensures |vs| == |calls| && forall i :: 0 <= i < |calls| ==> vs[i] == latest(calls[i]).value
  {
    seq(|calls|, i requires 0 <= i < |calls| => latest(calls[i]).value)
  }

  /** Bind each direct call, given by element id and called process, to the latest published version. */
  method BindCalls(elements: seq<Id>, called: seq<Id>, latest: Id -> Option<Id>) returns (issues: seq<Issue>)
    requires |elements| == |called|
    ensures issues == [] <==> forall c <- called :: latest(c).Some?
    ensures forall i <- issues :: i.Unresolved?
  {
    issues := [];
    for k := 0 to |called|
      invariant issues == [] <==> forall j :: 0 <= j < k ==> latest(called[j]).Some?
      invariant forall i <- issues :: i.Unresolved?
    {
      if latest(called[k]).None? { issues := issues + [Unresolved(elements[k])]; }
    }
  }

  /** Resolve the direct calls: bind them, then walk the tree below each until the depth cap is exceeded. */
  method ResolveCallActivities(db: Db, elements: seq<Id>, called: seq<Id>, latest: Id -> Option<Id>)
    returns (issues: seq<Issue>)
    requires |elements| == |called| && forall c :: latest(c).Some? ==> latest(c).value in db
    ensures issues == [] <==> (forall c <- called :: latest(c).Some?) && Acceptable(db, Bound(called, latest))
    ensures (forall c <- called :: latest(c).Some?) ==>
              ((exists i <- issues :: i.Cycle?) <==> exists i :: ReportsCycle(db, Versions(called, latest), i))
  {
    issues := BindCalls(elements, called, latest);
    if issues != [] { return; }
    var versions := Versions(called, latest);
    assert Bound(called, latest) == Roots(versions) by {
      forall v ensures v in Bound(called, latest) <==> v in versions {
        if v in Bound(called, latest) {
          var c :| c in called && latest(c).Some? && latest(c).value == v;
          var i :| 0 <= i < |called| && called[i] == c;
          assert versions[i] == v;
        }
      }
    }
    issues := WalkTree(db, elements, versions);
  }

  method WalkTree(db: Db, elements: seq<Id>, versions: seq<Id>) returns (issues: seq<Issue>)
    requires |elements| == |versions| && forall v <- versions :: v in db
    ensures issues == [] <==> Acceptable(db, Roots(versions))
    ensures (exists i <- issues :: i.Cycle?) <==> exists i :: ReportsCycle(db, versions, i)
  {
    var resolver := new Resolver(db);
    var depth: nat := 0;
    for k := 0 to |versions|
      invariant fresh(resolver) && resolver.db == db && resolver.Valid()
      invariant resolver.roots == Roots(versions[..k])
      invariant depth <= MAX_CALL_DEPTH && RootsDone(db, versions, k, resolver.depthMemo, resolver.issues)
    {
      var d := resolver.WalkRoot(versions, k, elements[k]);
      if 1 + d > depth { depth := 1 + d; }
      if depth > MAX_CALL_DEPTH {
        assert depth == 1 + d;
        CycleDecided(db, versions, k + 1, resolver.roots, resolver.depthMemo, resolver.issues, d);
        DeepDecided(db, versions, k, d, resolver.issues, TooDeep(elements[k], depth));
        resolver.Report(TooDeep(elements[k], depth));
        return resolver.issues;
      }
    }
    Verdict(db, versions, resolver.depthMemo, resolver.issues);
    issues := resolver.issues;
  }

  /** After `n` roots, all of them or the last one too deep, a cycle issue is there exactly if it had to be. */
  lemma CycleDecided(db: Db, versions: seq<Id>, n: nat, roots: set<Id>, memo: map<Id, nat>, issues: seq<Issue>, d: nat)
    requires n <= |versions| && Consistent(db, roots, memo, issues)
    requires NoCycle(issues) ==> forall j :: 0 <= j < n ==> versions[j] in memo
    requires NoCycle(issues) || exists i :: ReportsCycle(db, versions, i)
    requires n == |versions| || (n > 0 && HasDepth(db, versions[n - 1], d) && 1 + d > MAX_CALL_DEPTH)
    ensures (exists i <- issues :: i.Cycle?) <==> exists i :: ReportsCycle(db, versions, i)
  {
    if NoCycle(issues) {
      forall i ensures !ReportsCycle(db, versions, i) {
        if 0 <= i < n { MemoHasNoCycle(db, roots, memo, issues, versions[i]); }
        if n <= i < |versions| {
          var p :| PathFrom(db, p, versions[n - 1]) && |p| == d;
        }
      }
    }
  }

  lemma DeepDecided(db: Db, versions: seq<Id>, k: nat, d: nat, issues: seq<Issue>, i: Issue)
    requires k < |versions| && HasDepth(db, versions[k], d) && 1 + d > MAX_CALL_DEPTH && i.TooDeep? && i.depth == 1 + d
    ensures Witnessed(db, Roots(versions[..k + 1]), i)
    ensures issues + [i] != [] && !Acceptable(db, Roots(versions))
    ensures (exists c <- issues :: c.Cycle?) <==> exists c <- issues + [i] :: c.Cycle?
  {
    assert versions[k] == versions[..k + 1][k] && versions[k] in Roots(versions[..k + 1]);
    WitnessedByMore(db, Roots(versions[..k + 1]), Roots(versions), i);
    IssueRefutes(db, Roots(versions), i);
  }

  /** What the finished walk says about the tree. */
  lemma Verdict(db: Db, versions: seq<Id>, memo: map<Id, nat>, issues: seq<Issue>)
    requires Consistent(db, Roots(versions[..|versions|]), memo, issues)
             && RootsDone(db, versions, |versions|, memo, issues)
    ensures issues == [] <==> Acceptable(db, Roots(versions))
    ensures (exists i <- issues :: i.Cycle?) <==> exists i :: ReportsCycle(db, versions, i)
  {
    assert versions[..|versions|] == versions;
    CycleDecided(db, versions, |versions|, Roots(versions), memo, issues, 0);
    if issues == [] {
      NoIssueAcceptable(db, Roots(versions), memo, issues);
    } else {
      assert issues[0] in issues;
      IssueRefutes(db, Roots(versions), issues[0]);
    }
  }

  // ---- A cycle that goes unreported ------------------------------------------------------------

  /** A chain of four versions, and one that calls itself. */
  function DeepAndCyclic(): Db {
    map["a" := Version([Call("toB", "b")], []), "b" := Version([Call("toC", "c")], []),
        "c" := Version([Call("toD", "d")], []),
        "d" := Version([], []), "x" := Version([Call("toX", "x")], [])]
  }

  /** Called in this order, the first call ends the walk at the depth cap and the cycle of the second is never seen. */
  lemma DeepCallHidesCycle()
    ensures CycleReached(DeepAndCyclic(), {"x"}) && forall i :: !ReportsCycle(DeepAndCyclic(), ["a", "x"], i)
  {
    var db := DeepAndCyclic();
    assert Call("toX", "x") in db["x"].calls && Call("toB", "b") in db["a"].calls;
    assert Call("toC", "c") in db["b"].calls && Call("toD", "d") in db["c"].calls;
    assert Connects(db, ["x"], "x", "x") && Connects(db, ["x", "x"], "x", "x");
    assert ReachedFrom(db, {"x"}, "x") && OnCycle(db, "x");
    assert PathFrom(db, ["a", "b", "c", "d"], "a");
    assert !WithinCap(db, "a");
    DeepIsAcyclic(db);
    forall i ensures !ReportsCycle(db, ["a", "x"], i) {
      assert 0 <= i < 2 ==> ["a", "x"][0] == "a" && (i == 0 || i == 1);
    }
  }

  lemma DeepIsAcyclic(db: Db)
    requires db == DeepAndCyclic()
    ensures !CycleReached(db, {"a"})
  {
    var memo: map<Id, nat> := map["a" := 4, "b" := 3, "c" := 2, "d" := 1];
    ChainDepths(db);
    forall x <- memo ensures Ranked(db, memo, x) {}
    MemoHasNoCycle(db, {"a"}, memo, [], "a");
  }

  lemma ChainDepths(db: Db)
    requires db == DeepAndCyclic()
    ensures HasDepth(db, "d", 1) && HasDepth(db, "c", 2) && HasDepth(db, "b", 3) && HasDepth(db, "a", 4)
  {
    assert PathFrom(db, ["d"], "d");
    assert Call("toD", "d") in db["c"].calls && Call("toC", "c") in db["b"].calls && Call("toB", "b") in db["a"].calls;
    DepthAbove(db, "c", "d", 1);
    DepthAbove(db, "b", "c", 2);
    DepthAbove(db, "a", "b", 3);
  }
}
