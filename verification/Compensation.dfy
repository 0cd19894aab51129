/** The reverse pass as the source runs it (src/runtime/compensation.ts:139-339, src/persistence/saga.ts:118-135): one
    object over the ledger, token and job rows, each method proved to be a run of ReversePass steps. */
module Compensation {
  import opened Prelude
  import opened ScopeTree
  import opened Ledger
  import opened ReversePass

  // ---- The lineage filter ----------------------------------------------------------------------

  /** `out` holds tokens above `tid`, and is closed under the links of `live` but for the step to `cur`. */
  ghost predicate ClimbedTo(w: World, live: set<Id>, tid: Id, out: set<Id>, cur: Option<Id>) {
    && (forall a <- out :: Above(w, live, tid, a))
    && (cur.Some? ==> Above(w, live, tid, cur.value))
    && (tid in out || cur == Some(tid))
    && forall a <- out :: a in live && ParentOf(w, a).Some? ==> ParentOf(w, a).value in out || cur == ParentOf(w, a)
  }

  lemma ClimbOn(w: World, live: set<Id>, tid: Id, out: set<Id>, id: Id)
    requires ClimbedTo(w, live, tid, out, Some(id))
    ensures ClimbedTo(w, live, tid, out + {id}, if id in live then ParentOf(w, id) else None)
  {
    if id in live && ParentOf(w, id).Some? { AboveNext(w, live, tid, id, ParentOf(w, id).value); }
  }

  /** The chain of `tid` as far as links of `live` tokens lead; the guard stops on a cycle. */
  method AncestorsOf(w: World, live: set<Id>, tid: Id) returns (out: set<Id>)
    ensures forall a :: a in out <==> Above(w, live, tid, a)
  {
    out := {};
    var cur := Some(tid);
    AboveSelf(w, live, tid);
    ghost var universe := {tid} + set u | u in live && ParentOf(w, u).Some? :: ParentOf(w, u).value;
    while cur.Some? && cur.value !in out
      invariant out <= universe && (cur.Some? ==> cur.value in universe)
      invariant ClimbedTo(w, live, tid, out, cur)
      decreases universe - out
    {
      var id := cur.value;
      ClimbOn(w, live, tid, out, id);
      out := out + {id};
      cur := if id in live then ParentOf(w, id) else None;
    }
    ClosedHoldsAll(w, live, tid, out);
  }

  lemma AboveSelf(w: World, live: set<Id>, u: Id)
    ensures Above(w, live, u, u)
  {
    assert Climb(w, live, [u], u, u);
  }

  lemma AboveNext(w: World, live: set<Id>, u: Id, a: Id, b: Id)
    requires Above(w, live, u, a) && a in live && ParentOf(w, a) == Some(b)
    ensures Above(w, live, u, b)
  {
    assert Climb(w, live, [a, b], a, b);
    AboveTransitive(w, live, u, a, b);
  }

  /** A set closed under the links of `live` holds everything above its members. */
  lemma ClosedHoldsAll(w: World, live: set<Id>, u: Id, closed: set<Id>)
    requires u in closed
    requires forall x <- closed :: x in live && ParentOf(w, x).Some? ==> ParentOf(w, x).value in closed
    ensures forall a :: Above(w, live, u, a) ==> a in closed
  {
    forall a | Above(w, live, u, a) ensures a in closed {
      var p :| Climb(w, live, p, u, a);
      ClimbStaysIn(w, live, p, u, a, closed);
    }
  }

  lemma {:induction false} ClimbStaysIn(w: World, live: set<Id>, p: seq<Id>, u: Id, a: Id, closed: set<Id>)
    requires Climb(w, live, p, u, a) && u in closed
    requires forall x <- closed :: x in live && ParentOf(w, x).Some? ==> ParentOf(w, x).value in closed
    ensures a in closed
    decreases |p|
  {
    if |p| > 1 {
      assert p[0] in live && ParentOf(w, p[0]) == Some(p[0 + 1]);
      var rest := p[1..];
      forall i | 0 <= i < |rest| - 1 ensures rest[i] in live && ParentOf(w, rest[i]) == Some(rest[i + 1]) {
        assert p[i + 1] in live && ParentOf(w, p[i + 1]) == Some(p[i + 1 + 1]);
      }
      ClimbStaysIn(w, live, rest, p[1], a, closed);
    }
  }

  /** The steps whose token lineage has gone quiet, in their order. */
  ghost function Unblocked(w: World, live: set<Id>, steps: Rows): Rows {
    if steps == [] then []
    else Unblocked(w, live, steps[..|steps| - 1])
         + if Quiesced(w, live, steps[|steps| - 1]) then [steps[|steps| - 1]] else []
  }

  method FilterLineageQuiesced(w: World, steps: Rows, live: set<Id>) returns (eligible: Rows)
    ensures eligible == Unblocked(w, live, steps)
  {
    var blocked: set<Id> := {};
    var rest := live;
    while rest != {}
      invariant rest <= live
      invariant forall a :: a in blocked <==> exists u :: u in live && u !in rest && Above(w, live, u, a)
      decreases |rest|
    {
      var u :| u in rest;
      var chain := AncestorsOf(w, live, u);
      blocked := blocked + chain;
      rest := rest - {u};
    }
    assert forall a :: a in blocked <==> Blocked(w, live, a);
    eligible := [];
    for i := 0 to |steps|
      invariant eligible == Unblocked(w, live, steps[..i])
    {
      assert steps[..i + 1][..i] == steps[..i];
      if steps[i].token.None? || steps[i].token.value !in blocked { eligible := eligible + [steps[i]]; }
    }
    assert steps[..|steps|] == steps;
  }

  lemma {:induction false} UnblockedExactly(w: World, live: set<Id>, steps: Rows)
    requires forall i, j :: 0 <= i < j < |steps| ==> steps[i].seqNo > steps[j].seqNo
    ensures forall r :: r in Unblocked(w, live, steps) <==> r in steps && Quiesced(w, live, r)
    ensures forall i, j :: 0 <= i < j < |Unblocked(w, live, steps)| ==>
              Unblocked(w, live, steps)[i].seqNo > Unblocked(w, live, steps)[j].seqNo
  {
    if steps != [] {
      var n := |steps| - 1;
      UnblockedExactly(w, live, steps[..n]);
      assert steps == steps[..n] + [steps[n]];
      forall r | r in Unblocked(w, live, steps[..n]) ensures r.seqNo > steps[n].seqNo {
        var i :| 0 <= i < n && steps[..n][i] == r;
        assert steps[i] == r;
      }
    }
  }

  lemma FirstIsHighest(w: World, s: State, eligible: Rows)
    requires SeqNumbers(s.rows) && eligible != []
    requires eligible == Unblocked(w, LiveCohort(w, s), Selected(w.tree, w.root, s.rows))
    ensures forall r :: r in eligible <==>
            r in s.rows && Selectable(w.tree, w.root, r) && Quiesced(w, LiveCohort(w, s), r)
    ensures forall r <- eligible :: r.seqNo <= eligible[0].seqNo
  {
    SelectedExactly(w.tree, w.root, s.rows);
    UnblockedExactly(w, LiveCohort(w, s), Selected(w.tree, w.root, s.rows));
  }

  /** The first of the filtered cursor is the row ReversePass picks. */
  lemma FirstIsPicked(w: World, s: State, eligible: Rows)
    requires SeqNumbers(s.rows) && eligible != []
    requires eligible == Unblocked(w, LiveCohort(w, s), Selected(w.tree, w.root, s.rows))
    ensures var step := eligible[0];
            && 1 <= step.seqNo <= |s.rows| && s.rows[step.seqNo - 1] == step && Picked(w, s, step.seqNo - 1)
  {
    FirstIsHighest(w, s, eligible);
    var step := eligible[0];
    assert step in eligible;
    var k :| 0 <= k < |s.rows| && s.rows[k] == step;
    forall m | k < m < |s.rows| && Selectable(w.tree, w.root, s.rows[m])
      ensures !Quiesced(w, LiveCohort(w, s), s.rows[m])
    {
      assert s.rows[m].seqNo == m + 1 && s.rows[k].seqNo == k + 1;
      assert s.rows[m] !in eligible;
    }
  }

  // ---- The straggler scan ----------------------------------------------------------------------

  ghost function ScannedAll(w: World, s: State, tokens: seq<Id>): State {
    if tokens == [] then s else Scanned(w, ScannedAll(w, s, tokens[..|tokens| - 1]), tokens[|tokens| - 1])
  }

  lemma {:induction false} ScannedAllReached(w: World, s: State, tokens: seq<Id>)
    requires s.result.Running?
    ensures Reaches(Moving(w), s, ScannedAll(w, s, tokens)) && ScannedAll(w, s, tokens).result.Running?
  {
    if tokens == [] {
      ReachesSelf(Moving(w), s);
    } else {
      var n := |tokens| - 1;
      ScannedAllReached(w, s, tokens[..n]);
      var mid := ScannedAll(w, s, tokens[..n]);
      assert Step(w, mid, Scan(tokens[n]), Scanned(w, mid, tokens[n]));
      ReachesOne(Moving(w), mid, Scanned(w, mid, tokens[n]));
      ReachesOn(Moving(w), s, mid, Scanned(w, mid, tokens[n]));
    }
  }

  /** No live cohort token could be settled: each still waits for its forward job. */
  ghost predicate AllScanned(w: World, s: State) {
    forall u <- w.order :: u in s.live && InCohort(w, u) ==>
      u in w.job && w.job[u] in s.jobs && s.jobs[w.job[u]].InFlight?
  }

  lemma ScannedMeans(w: World, s: State, u: Id)
    requires Scanned(w, s, u) == s && u in s.live && InCohort(w, u)
    ensures u in w.job && w.job[u] in s.jobs && s.jobs[w.job[u]].InFlight?
  {
    assert u in s.live - {u} <==> false;
  }

  lemma {:induction false} ScannedAllDone(w: World, s: State, tokens: seq<Id>, u: Id)
    requires u in tokens
    ensures Scanned(w, ScannedAll(w, s, tokens), u) == ScannedAll(w, s, tokens)
  {
    var n := |tokens| - 1;
    if u in tokens[..n] {
      ScannedAllDone(w, s, tokens[..n], u);
      assert tokens == tokens[..n] + [tokens[n]];
    }
  }

  lemma AllScannedAtEnd(w: World, s: State)
    ensures AllScanned(w, ScannedAll(w, s, w.order))
  {
    var s' := ScannedAll(w, s, w.order);
    forall u | u in w.order && u in s'.live && InCohort(w, u)
      ensures u in w.job && w.job[u] in s'.jobs && s'.jobs[w.job[u]].InFlight?
    {
      ScannedAllDone(w, s, w.order, u);
      ScannedMeans(w, s', u);
    }
  }

  /** The rows a pass still selects, by index. */
  ghost function Open(w: World, s: State): set<int> {
    set k | 0 <= k < |s.rows| && Selectable(w.tree, w.root, s.rows[k])
  }

  /** A scan takes live tokens away or changes nothing. */
  lemma {:induction false} ScannedAllShrinks(w: World, s: State, tokens: seq<Id>)
    ensures var s' := ScannedAll(w, s, tokens);
            LiveCohort(w, s') <= LiveCohort(w, s) && (LiveCohort(w, s') == LiveCohort(w, s) ==> s' == s)
            && s'.jobs == s.jobs && s'.comp == s.comp && s'.result == s.result
    ensures SeqNumbers(s.rows) ==> SeqNumbers(ScannedAll(w, s, tokens).rows)
  {
    if tokens != [] {
      var n := |tokens| - 1;
      ScannedAllShrinks(w, s, tokens[..n]);
      var mid := ScannedAll(w, s, tokens[..n]);
      var u := tokens[n];
      if u in LiveCohort(w, mid) && Scanned(w, mid, u) != mid {
        assert u !in LiveCohort(w, Scanned(w, mid, u));
      }
      if SeqNumbers(s.rows) && u in w.job {
        var key := w.job[u];
        InsertKeepsSeqNumbers(mid.rows, key, w.scopeOf(key), Some(u), FirstStatus(w, key));
      }
    }
  }

  // ---- The pass --------------------------------------------------------------------------------

  datatype Outcome = Compensated | Waiting | Failed

  class Pass {
    const w: World
    const ledger: LedgerTable
    var live: set<Id>
    var jobs: map<StepKey, JobStatus>
    var comp: map<StepKey, JobStatus>
    var result: Result
    ghost var begun: seq<nat>

    constructor (w: World, ledger: LedgerTable, live: set<Id>, jobs: map<StepKey, JobStatus>)
      ensures this.w == w && this.ledger == ledger && St() == State(live, jobs, ledger.rows, map[], [], Running)
    {
      this.w, this.ledger, this.live, this.jobs := w, ledger, live, jobs;
      comp, result, begun := map[], Running, [];
    }

    ghost function St(): State
      reads this, ledger
    {
      State(live, jobs, ledger.rows, comp, begun, result)
    }

    /** Whether token `u` stands in the subtree of the compensation root. */
    method OfCohort(u: Id, subtree: set<Id>) returns (r: bool)
      requires subtree == Subtree(w.tree, w.root)
      ensures r == InCohort(w, u)
    {
      r := u in w.position && (w.position[u] in subtree || (w.root.None? && w.position[u] == ROOT_SCOPE));
    }

    method RetainStraggler(u: Id, key: StepKey)
      requires u in LiveCohort(w, St()) && u in w.job && w.job[u] == key && key in jobs && jobs[key].Done?
      modifies this, ledger
      ensures St() == Scanned(w, old(St()), u)
    {
      ledger.InsertSagaStep(key, w.scopeOf(key), Some(u), FirstStatus(w, key));
      live := live - {u};
    }

    method LedgerStragglers(subtree: set<Id>)
      requires subtree == Subtree(w.tree, w.root)
      modifies this, ledger
      ensures St() == ScannedAll(w, old(St()), w.order)
    {
      for i := 0 to |w.order|
        invariant St() == ScannedAll(w, old(St()), w.order[..i])
      {
        assert w.order[..i + 1][..i] == w.order[..i];
        var u := w.order[i];
        var inside := OfCohort(u, subtree);
        if u in live && inside {
          if u in w.job && w.job[u] in jobs && jobs[w.job[u]].Done? {
            RetainStraggler(u, w.job[u]);
          } else if u !in w.job || w.job[u] !in jobs || jobs[w.job[u]].Broken? {
            live := live - {u};
          }
        }
      }
      assert w.order[..|w.order|] == w.order;
    }

    method LiveTokens(subtree: set<Id>) returns (cohort: set<Id>)
      requires subtree == Subtree(w.tree, w.root)
      ensures cohort == LiveCohort(w, St())
    {
      cohort := {};
      var rest := live;
      while rest != {}
        invariant rest <= live && cohort == LiveCohort(w, St()) - rest
        decreases |rest|
      {
        var u :| u in rest;
        var inside := OfCohort(u, subtree);
        if inside { cohort := cohort + {u}; }
        rest := rest - {u};
      }
    }

    method CreateCompensationJob(step: Row)
      requires 1 <= step.seqNo <= |ledger.rows| && ledger.rows[step.seqNo - 1] == step && step.key !in comp
      requires result.Running? && Picked(w, St(), step.seqNo - 1)
      modifies this, ledger
      ensures Step(w, old(St()), Begin(step.seqNo - 1), St())
    {
      ledger.UpdateCompensationStatus(step.seqNo - 1, Compensating);
      comp := comp[step.key := InFlight];
      begun := begun + [step.seqNo - 1];
    }

    method MarkStepCompensated(step: Row)
      requires 1 <= step.seqNo <= |ledger.rows| && ledger.rows[step.seqNo - 1] == step && step.key in comp
               && comp[step.key].Done?
      requires result.Running? && Picked(w, St(), step.seqNo - 1)
      modifies ledger
      ensures Step(w, old(St()), Finish(step.seqNo - 1), St())
    {
      ledger.UpdateCompensationStatus(step.seqNo - 1, StepStatus.Compensated);
    }

    method MarkStepCompensationFailed(step: Row)
      requires 1 <= step.seqNo <= |ledger.rows| && ledger.rows[step.seqNo - 1] == step && step.key in comp
               && comp[step.key].Broken?
      requires result.Running? && Picked(w, St(), step.seqNo - 1)
      modifies this, ledger
      ensures Step(w, old(St()), GiveUp(step.seqNo - 1), St())
    {
      ledger.UpdateCompensationStatus(step.seqNo - 1, StepStatus.Failed);
      result := GivenUp;
    }

    /** One turn of the pass; None says the ledger is to be read again. */
    method Turn(subtree: set<Id>) returns (outcome: Option<Outcome>)
      requires result.Running? && SeqNumbers(ledger.rows) && subtree == Subtree(w.tree, w.root)
      modifies this, ledger
      ensures Reaches(Moving(w), old(St()), St()) && SeqNumbers(ledger.rows)
      ensures match outcome
                case None => result.Running? && Smaller(w, St(), old(St()))
                case Some(o) => Ends(w, St(), o)
    {
      ScannedAllReached(w, St(), w.order);
      ScannedAllShrinks(w, St(), w.order);
      AllScannedAtEnd(w, St());
      LedgerStragglers(subtree);
      ghost var scanned := St();
      var steps := ledger.SelectSubtreeSteps(w.tree, w.root);
      var cohort := LiveTokens(subtree);
      if steps == [] {
        if cohort != {} { return Some(Waiting); }
        result := Settled;
        Carried(w, old(St()), scanned, Settle, St());
        return Some(Outcome.Compensated);
      }
      var eligible := FilterLineageQuiesced(w, steps, cohort);
      if eligible == [] { return Some(Waiting); }
      var step := eligible[0];
      FirstIsPicked(w, scanned, eligible);
      outcome := TakeUp(eligible[0]);
      if outcome.None? { assert LiveCohort(w, St()) <= LiveCohort(w, old(St())); }
      ReachesOn(Moving(w), old(St()), scanned, St());
    }

    /** Dispatch on the compensation job of the row the pass picked. */
    method TakeUp(step: Row) returns (outcome: Option<Outcome>)
      requires 1 <= step.seqNo <= |ledger.rows| && ledger.rows[step.seqNo - 1] == step
      requires result.Running? && SeqNumbers(ledger.rows) && Picked(w, St(), step.seqNo - 1) && AllScanned(w, St())
      modifies this, ledger
      ensures Reaches(Moving(w), old(St()), St()) && SeqNumbers(ledger.rows)
      ensures match outcome
                case None =>
                  result.Running? && LiveCohort(w, St()) == LiveCohort(w, old(St()))
                  && Open(w, St()) < Open(w, old(St()))
                case Some(o) => Ends(w, St(), o)
    {
      var k := step.seqNo - 1;
      ReachesSelf(Moving(w), St());
      if step.key !in comp {
        CreateCompensationJob(step);
        Carried(w, old(St()), old(St()), Begin(k), St());
        StillPicked(w, old(St()), k, St());
        return Some(Waiting);
      }
      match comp[step.key] {
        case InFlight => return Some(Waiting);
        case Done =>
          MarkStepCompensated(step);
          Carried(w, old(St()), old(St()), Finish(k), St());
          FinishShrinks(w, old(St()), k, St());
          return None;
        case Broken =>
          MarkStepCompensationFailed(step);
          Carried(w, old(St()), old(St()), GiveUp(k), St());
          assert ledger.rows[k].status.Failed? && HasComp(St(), k, Broken);
          return Some(Outcome.Failed);
      }
    }

    /** The pass without a wake channel: it runs until it settles, fails or has to wait. */
    method RunCompensation() returns (outcome: Outcome)
      requires result.Running? && SeqNumbers(ledger.rows)
      modifies this, ledger
      ensures Reaches(Moving(w), old(St()), St()) && Ends(w, St(), outcome)
    {
      var subtree := SubtreeScopeIds(w.tree, w.root);
      ReachesSelf(Moving(w), St());
      while true
        invariant result.Running? && SeqNumbers(ledger.rows) && Reaches(Moving(w), old(St()), St())
        decreases LiveCohort(w, St()), Open(w, St())
      {
        ghost var before := St();
        var ended := Turn(subtree);
        ReachesOn(Moving(w), old(St()), before, St());
        if ended.Some? { return ended.value; }
      }
    }
  }

  ghost predicate Smaller(w: World, s: State, before: State) {
    || LiveCohort(w, s) < LiveCohort(w, before)
    || (LiveCohort(w, s) == LiveCohort(w, before) && Open(w, s) < Open(w, before))
  }

  /** What each answer of the pass says about the rows. */
  ghost predicate Ends(w: World, s: State, outcome: Outcome) {
    match outcome
      case Compensated => s.result.Settled? && LiveCohort(w, s) == {} && Selected(w.tree, w.root, s.rows) == []
      case Failed =>
        s.result.GivenUp? && exists k: nat :: k < |s.rows| && s.rows[k].status.Failed? && HasComp(s, k, Broken)
      case Waiting =>
        var steps := Selected(w.tree, w.root, s.rows);
        && s.result.Running?
        && AllScanned(w, s)
        && (|| (steps == [] && LiveCohort(w, s) != {})
            || (steps != [] && Unblocked(w, LiveCohort(w, s), steps) == [])
            || exists k: nat :: Picked(w, s, k) && HasComp(s, k, InFlight))
  }

  ghost predicate HasComp(s: State, k: nat, status: JobStatus) {
    k < |s.rows| && s.rows[k].key in s.comp && s.comp[s.rows[k].key] == status
  }

  /** The row whose compensation has just begun stays the one to wait for. */
  lemma StillPicked(w: World, s: State, k: nat, s': State)
    requires Step(w, s, Begin(k), s') && AllScanned(w, s)
    ensures Picked(w, s', k) && HasComp(s', k, InFlight) && AllScanned(w, s')
  {
  }

  lemma Carried(w: World, before: State, scanned: State, e: Event, after: State)
    requires Reaches(Moving(w), before, scanned) && Step(w, scanned, e, after)
    ensures Reaches(Moving(w), before, after)
    ensures SeqNumbers(scanned.rows) ==> SeqNumbers(after.rows)
  {
    ReachesOne(Moving(w), scanned, after);
    ReachesOn(Moving(w), before, scanned, after);
    if SeqNumbers(scanned.rows) { StepSeq(w, scanned, e, after); }
  }

  lemma FinishShrinks(w: World, s: State, k: nat, s': State)
    requires Step(w, s, Finish(k), s')
    ensures LiveCohort(w, s') == LiveCohort(w, s) && Open(w, s') < Open(w, s)
  {
    assert k in Open(w, s) && k !in Open(w, s');
  }
}
