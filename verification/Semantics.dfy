/** What the crash-recovering walk computes, said of the graph and its workers alone: every reachable database is that
    of a genuine execution of the process, whatever crashed on the way (src/runtime/engine.ts:796-835). */
module Semantics {
  import opened Prelude
  import opened Rewalk
  import opened Refinement

  // ---- Executions ------------------------------------------------------------------------------

  /** The first `n` answers of the worker at `v` were outputs too large to be merged into `vars`. */
  ghost predicate TooLargeUpTo(w: World, v: Visit, vars: Vars, n: nat) {
    forall r: nat :: r < n ==> TooLarge(w, vars, w.worker(v, r))
  }

  ghost predicate TooLarge(w: World, vars: Vars, report: Report) {
    report.Output? && exists merged :: Overlaid(vars, report.output, merged)
                                       && w.size(merged) > MAX_EVENT_PAYLOAD_BYTES
  }

  /** The job of a visit entered with `vars`: its worker saw these, and the row holds its latest answer. */
  ghost predicate Worked(w: World, job: Job, v: Visit, vars: Vars) {
    && job.input == vars && w.size(vars) <= MAX_EVENT_PAYLOAD_BYTES
    && match job.status
       case JobOpen => TooLargeUpTo(w, v, vars, job.reports)
       case JobCompleted =>
         && job.reports > 0 && TooLargeUpTo(w, v, vars, job.reports - 1)
         && w.worker(v, job.reports - 1) == Output(job.output)
       case JobFailed =>
         && job.reports > 0 && TooLargeUpTo(w, v, vars, job.reports - 1)
         && match w.worker(v, job.reports - 1)
            case Output(_) => false
            case BusinessError(code) => job.errorCode == Some(code)
            case Exhausted => job.errorCode.None?
  }

  /** The worker's last answer takes the token from a service task on to `next`. */
  ghost predicate Served(w: World, v: Visit, onward: Id, vars: Vars, vars': Vars, next: Id, answer: Report) {
    match answer
      case Output(out) => next == onward && Overlaid(vars, out, vars') && w.size(vars') <= MAX_EVENT_PAYLOAD_BYTES
      case BusinessError(code) => w.route(v.el, code) == Some(next) && vars' == vars
      case Exhausted => false
  }

  /** Visit `v` was entered with `vars` and left with `vars'` towards `next`, as the graph and the worker have it. */
  ghost predicate Performed(w: World, db: Db, v: Visit, vars: Vars, vars': Vars, next: Id) {
    && v.el in w.nodes && v.occ < MAX_ELEMENT_OCCURRENCES
    && match w.nodes[v.el]
       case Start(onward) => next == onward && vars' == vars
       case Gateway(flows) =>
         && vars' == vars
         && exists i: nat :: Takes(w, flows, vars, i) && flows[i].targetId == next
       case Service(onward) =>
         && v in db.jobs && Worked(w, db.jobs[v], v, vars) && db.jobs[v].reports > 0
         && Served(w, v, onward, vars, vars', next, w.worker(v, db.jobs[v].reports - 1))
       case End => false
  }

  /** `trail` and then `cur` are the elements of one execution, and `vs` the variables before each of them. */
  ghost predicate Execution(w: World, db: Db, trail: seq<Id>, cur: Id, vs: seq<Vars>) {
    && |vs| == |trail| + 1 && vs[0] == w.initial && vs[|trail|] == db.vars && (trail + [cur])[0] == w.start
    && forall i: nat {:trigger VisitAt(trail, i)} :: i < |trail| ==>
         Performed(w, db, VisitAt(trail, i), vs[i], vs[i + 1], (trail + [cur])[i + 1])
  }

  // ---- Why an execution stops ------------------------------------------------------------------

  /** No flow can be taken at an undecided gateway: none matches, or the one that decides cannot be evaluated. */
  ghost predicate GatewayFault(w: World, flows: seq<Flow>, vars: Vars, kind: IncidentKind) {
    match kind
      case NoPath => |flows| != 1 && AllUntaken(w, flows, vars) && forall f <- flows :: !f.isDefault
      case ConditionFailure =>
        |flows| != 1 && exists i: nat :: Decides(w, flows, vars, i) && flows[i].condition.Some?
                                         && w.evaluate(flows[i].condition.value, vars) == HardError
      case _ => false
  }

  /** A service task is stuck: its input is too large, its failure is caught by no error boundary, or an output has been
      too large for the third time. */
  ghost predicate ServiceFault(w: World, db: Db, v: Visit, kind: IncidentKind) {
    match kind
      case ServiceTaskFailure =>
        if v !in db.jobs then w.size(db.vars) > MAX_EVENT_PAYLOAD_BYTES
        else
          var job := db.jobs[v];
          !job.applied && job.status.JobFailed?
          && (job.errorCode.None? || w.route(v.el, job.errorCode.value).None?)
      case Poison =>
        && v in db.jobs && !db.jobs[v].applied && db.jobs[v].status.JobCompleted?
        && TooLarge(w, db.vars, Output(db.jobs[v].output)) && Count(db.rejections, v.el) + 1 >= POISON_THRESHOLD
      case _ => false
  }

  ghost predicate Fault(w: World, db: Db, v: Visit, kind: IncidentKind) {
    && v.el in w.nodes
    && if v.occ >= MAX_ELEMENT_OCCURRENCES then kind == LoopLimit
       else match w.nodes[v.el]
         case Gateway(flows) => v !in db.decisions && GatewayFault(w, flows, db.vars, kind)
         case Service(_) => ServiceFault(w, db, v, kind)
         case _ => false
  }

  /** An incident is raised exactly for these reasons, and an instance completes exactly at an end event. */
  lemma StopsExactly(w: World, db: Db, v: Visit, kind: IncidentKind)
    requires !Terminal(db.status)
    ensures DriveLeaf(w, db, v).0.status == Incident(kind) <==> Fault(w, db, v, kind)
    ensures DriveLeaf(w, db, v).0.status == Completed <==>
              v.el in w.nodes && v.occ < MAX_ELEMENT_OCCURRENCES && w.nodes[v.el].End?
  {
    if v.el in w.nodes && v.occ < MAX_ELEMENT_OCCURRENCES {
      match w.nodes[v.el] {
        case Gateway(flows) => GatewayStops(w, db, v, flows, kind);
        case Service(next) => ServiceStops(w, db, v, next, kind);
        case _ =>
      }
    }
  }

  lemma GatewayStops(w: World, db: Db, v: Visit, flows: seq<Flow>, kind: IncidentKind)
    requires !Terminal(db.status)
    ensures Decide(w, db, v, flows).0.status == Incident(kind) <==>
              v !in db.decisions && GatewayFault(w, flows, db.vars, kind)
    ensures Decide(w, db, v, flows).0.status != Completed
  {
    ChooseExactly(w, flows, db.vars, NoMatch);
    ChooseExactly(w, flows, db.vars, ConditionError);
  }

  lemma ServiceStops(w: World, db: Db, v: Visit, next: Id, kind: IncidentKind)
    requires !Terminal(db.status)
    ensures DriveService(w, db, v, next).0.status == Incident(kind) <==> ServiceFault(w, db, v, kind)
    ensures DriveService(w, db, v, next).0.status != Completed
  {
    if v in db.jobs && !db.jobs[v].applied && db.jobs[v].status.JobCompleted? {
      MergeOverlays(db.vars, db.jobs[v].output);
    }
  }

  // ---- The uninterrupted run is an execution ---------------------------------------------------

  /** The uninterrupted run as an execution, with the job of the visit it stands at. */
  ghost predicate Executed(w: World, a: Ideal, vs: seq<Vars>) {
    && Execution(w, a.db, a.trail, a.cur, vs) && a.db.cursor == a.cur
    && (Frontier(a) in a.db.jobs ==> Worked(w, a.db.jobs[Frontier(a)], Frontier(a), a.db.vars))
  }

  lemma TooLargeOn(w: World, v: Visit, vars: Vars, n: nat)
    requires TooLargeUpTo(w, v, vars, n) && TooLarge(w, vars, w.worker(v, n))
    ensures TooLargeUpTo(w, v, vars, n + 1)
  {
  }

  lemma PerformedFrame(w: World, p: Db, q: Db, v: Visit, vars: Vars, vars': Vars, next: Id)
    requires SameAt(p, q, v) && Performed(w, p, v, vars, vars', next)
    ensures Performed(w, q, v, vars, vars', next)
  {
  }

  /** A change confined to the frontier's rows and away from the variables leaves the execution as it is. */
  lemma ExecutionFrame(w: World, a: Ideal, db: Db, vs: seq<Vars>)
    requires Execution(w, a.db, a.trail, a.cur, vs) && SameElsewhere(a.db, db, Frontier(a)) && db.vars == a.db.vars
    ensures Execution(w, db, a.trail, a.cur, vs)
  {
    forall i: nat | i < |a.trail|
      ensures Performed(w, db, VisitAt(a.trail, i), vs[i], vs[i + 1], (a.trail + [a.cur])[i + 1])
    {
      VisitPassed(a.trail, i);
      PerformedFrame(w, a.db, db, VisitAt(a.trail, i), vs[i], vs[i + 1], (a.trail + [a.cur])[i + 1]);
    }
  }

  lemma ExecutionGrows(w: World, a: Ideal, db: Db, next: Id, vs: seq<Vars>)
    requires Execution(w, a.db, a.trail, a.cur, vs) && SameElsewhere(a.db, db, Frontier(a))
    requires Performed(w, db, Frontier(a), a.db.vars, db.vars, next)
    ensures Execution(w, db, a.trail + [a.cur], next, vs + [db.vars])
  {
    var longer, vs' := a.trail + [a.cur], vs + [db.vars];
    TrailExtended(a.trail, a.cur);
    forall i: nat | i < |longer|
      ensures Performed(w, db, VisitAt(longer, i), vs'[i], vs'[i + 1], (longer + [next])[i + 1])
    {
      if i < |a.trail| {
        VisitPassed(a.trail, i);
        assert VisitAt(longer, i) == VisitAt(a.trail, i) && (longer + [next])[i + 1] == (a.trail + [a.cur])[i + 1];
        PerformedFrame(w, a.db, db, VisitAt(a.trail, i), vs[i], vs[i + 1], (a.trail + [a.cur])[i + 1]);
      }
    }
  }

  /** Moving on performs the visit. */
  lemma GoPerforms(w: World, db: Db, v: Visit)
    requires DriveLeaf(w, db, v).1.Go? && v !in db.decisions && (v in db.jobs ==> !db.jobs[v].applied)
    requires v in db.jobs ==> Worked(w, db.jobs[v], v, db.vars)
    ensures Performed(w, DriveLeaf(w, db, v).0, v, db.vars, DriveLeaf(w, db, v).0.vars, DriveLeaf(w, db, v).1.next)
  {
    match w.nodes[v.el] {
      case Gateway(flows) => ChoiceIsRight(w, flows, db.vars);
      case Service(_) => MergeOverlays(db.vars, db.jobs[v].output);
      case _ =>
    }
  }

  /** Staying keeps the job in step with its worker. */
  lemma StayWorks(w: World, db: Db, v: Visit)
    requires !DriveLeaf(w, db, v).1.Go? && (v in db.jobs ==> !db.jobs[v].applied && Worked(w, db.jobs[v], v, db.vars))
    ensures var d := DriveLeaf(w, db, v).0;
            v in d.jobs ==> Worked(w, d.jobs[v], v, db.vars)
  {
    if v.el in w.nodes && v.occ < MAX_ELEMENT_OCCURRENCES && w.nodes[v.el].Service? {
      if v in db.jobs && db.jobs[v].status.JobCompleted? {
        StayCompleted(w, db, v, w.nodes[v.el].next);
      }
    }
  }

  lemma StayCompleted(w: World, db: Db, v: Visit, next: Id)
    requires v in db.jobs && db.jobs[v].status.JobCompleted? && Worked(w, db.jobs[v], v, db.vars)
    requires !ApplyCompletion(w, db, v, db.jobs[v], next).1.Go?
    ensures var d := ApplyCompletion(w, db, v, db.jobs[v], next).0;
            v in d.jobs && Worked(w, d.jobs[v], v, db.vars)
  {
    var job := db.jobs[v];
    MergeOverlays(db.vars, job.output);
    assert Overlaid(db.vars, job.output, Merge(db.vars, job.output));
    assert TooLarge(w, db.vars, Output(job.output));
    TooLargeOn(w, v, db.vars, job.reports - 1);
  }

  lemma ReportExecutes(w: World, a: Ideal, vs: seq<Vars>)
    requires Sound(w, a) && Executed(w, a, vs) && !Terminal(a.db.status) && OpenAt(a.db, Frontier(a))
    ensures Executed(w, IdealStep(w, a), vs)
  {
    ExecutionFrame(w, a, IdealStep(w, a).db, vs);
  }

  /** No job has been created for the visit the run comes to. */
  lemma NoJobAhead(a: Ideal, db: Db, next: Id)
    requires NothingAhead(a) && SameElsewhere(a.db, db, Frontier(a))
    requires forall u <- a.db.jobs :: u != Frontier(a) ==> a.db.jobs[u].applied
    ensures Frontier(Ideal(db, a.trail + [a.cur], next)) !in db.jobs
  {
    var b := Ideal(db, a.trail + [a.cur], next);
    TrailExtended(a.trail, a.cur);
    forall u <- db.jobs ensures Passed(b, u) {
      if u != Frontier(a) {
        assert SameAt(a.db, db, u);
        assert Passed(a, u);
      }
    }
  }

  lemma GoExecutes(w: World, a: Ideal, vs: seq<Vars>)
    requires Sound(w, a) && Executed(w, a, vs) && !Terminal(a.db.status) && !OpenAt(a.db, Frontier(a))
    requires DriveLeaf(w, a.db, Frontier(a)).1.Go?
    ensures Executed(w, IdealStep(w, a), vs + [IdealStep(w, a).db.vars])
  {
    var v := Frontier(a);
    var db := DriveLeaf(w, a.db, v).0;
    LeafFrame(w, a.db, v);
    GoPerforms(w, a.db, v);
    GoLeaf(w, a.db, v);
    assert Quiet(db) == db;
    ExecutionGrows(w, a, db, DriveLeaf(w, a.db, v).1.next, vs);
    NoJobAhead(a, db, DriveLeaf(w, a.db, v).1.next);
  }

  lemma StayExecutes(w: World, a: Ideal, vs: seq<Vars>)
    requires Sound(w, a) && Executed(w, a, vs) && !Terminal(a.db.status) && !OpenAt(a.db, Frontier(a))
    requires !DriveLeaf(w, a.db, Frontier(a)).1.Go?
    ensures Executed(w, IdealStep(w, a), vs)
  {
    var v := Frontier(a);
    var db := DriveLeaf(w, a.db, v).0;
    LeafFrame(w, a.db, v);
    StayLeaf(w, a.db, v);
    StayWorks(w, a.db, v);
    ExecutionFrame(w, a, db, vs);
    QuietExecution(w, db, a.trail, a.cur, vs);
  }

  lemma QuietExecution(w: World, db: Db, trail: seq<Id>, cur: Id, vs: seq<Vars>)
    ensures Execution(w, Quiet(db), trail, cur, vs) <==> Execution(w, db, trail, cur, vs)
  {
    forall i: nat | i < |trail| && |vs| == |trail| + 1
      ensures Performed(w, Quiet(db), VisitAt(trail, i), vs[i], vs[i + 1], (trail + [cur])[i + 1]) <==>
              Performed(w, db, VisitAt(trail, i), vs[i], vs[i + 1], (trail + [cur])[i + 1])
    {
    }
  }

  lemma StepExecutes(w: World, a: Ideal, vs: seq<Vars>) returns (vs': seq<Vars>)
    requires WellFormed(w) && Sound(w, a) && Executed(w, a, vs)
    ensures Executed(w, IdealStep(w, a), vs')
  {
    vs' := vs;
    if Terminal(a.db.status) {
    } else if OpenAt(a.db, Frontier(a)) {
      ReportExecutes(w, a, vs);
    } else if DriveLeaf(w, a.db, Frontier(a)).1.Go? {
      vs' := vs + [IdealStep(w, a).db.vars];
      GoExecutes(w, a, vs);
    } else {
      StayExecutes(w, a, vs);
    }
  }

  ghost predicate HasExecution(w: World, a: Ideal) {
    exists vs :: Executed(w, a, vs)
  }

  lemma StartExecutes(w: World)
    ensures HasExecution(w, IdealAt(w, 0))
  {
    assert Executed(w, IdealAt(w, 0), [w.initial]);
  }

  lemma IdealExecutes(w: World, k: nat) returns (vs: seq<Vars>)
    requires WellFormed(w)
    ensures Executed(w, IdealAt(w, k), vs)
  {
    StartExecutes(w);
    forall a | Sound(w, a) && HasExecution(w, a) ensures HasExecution(w, IdealStep(w, a)) {
      var before :| Executed(w, a, before);
      var after := StepExecutes(w, a, before);
    }
    IdealInvariance(w, (a: Ideal) => HasExecution(w, a), k);
    vs :| Executed(w, IdealAt(w, k), vs);
  }

  // ---- Every run is an execution ---------------------------------------------------------------

  /** Where an execution has come to, and why it does not go on if it has ended. */
  ghost predicate Standing(w: World, db: Db, trail: seq<Id>, cur: Id) {
    && db.cursor == cur
    && match db.status
       case Completed => cur in w.nodes && w.nodes[cur].End?
       case Incident(kind) => Fault(w, db, Visit(cur, multiset(trail)[cur]), kind)
       case _ => true
  }

  lemma GatewayFaultStays(w: World, db: Db, v: Visit, flows: seq<Flow>, kind: IncidentKind)
    requires GatewayFault(w, flows, db.vars, kind) && v !in db.decisions
    ensures var d := Decide(w, db, v, flows).0;
            v !in d.decisions && GatewayFault(w, flows, d.vars, kind)
  {
    ChooseExactly(w, flows, db.vars, NoMatch);
    ChooseExactly(w, flows, db.vars, ConditionError);
  }

  lemma ServiceFaultStays(w: World, db: Db, v: Visit, next: Id, kind: IncidentKind)
    requires ServiceFault(w, db, v, kind) && !Terminal(db.status)
    ensures ServiceFault(w, DriveService(w, db, v, next).0, v, kind)
  {
    if v in db.jobs && db.jobs[v].status.JobCompleted? { MergeOverlays(db.vars, db.jobs[v].output); }
  }

  /** An incident changes nothing the reason for it depends on. */
  lemma FaultStays(w: World, db: Db, v: Visit, kind: IncidentKind)
    requires Fault(w, db, v, kind) && !Terminal(db.status)
    ensures Fault(w, DriveLeaf(w, db, v).0, v, kind)
  {
    if v.occ < MAX_ELEMENT_OCCURRENCES {
      match w.nodes[v.el] {
        case Gateway(flows) => GatewayFaultStays(w, db, v, flows, kind);
        case Service(next) => ServiceFaultStays(w, db, v, next, kind);
        case _ =>
      }
    }
  }

  ghost predicate Stands(w: World, a: Ideal) {
    HasExecution(w, a) && Standing(w, a.db, a.trail, a.cur)
  }

  lemma StepStands(w: World, a: Ideal)
    requires WellFormed(w) && Sound(w, a) && Stands(w, a)
    ensures Stands(w, IdealStep(w, a))
  {
    var before :| Executed(w, a, before);
    var after := StepExecutes(w, a, before);
    if !Terminal(a.db.status) && Terminal(IdealStep(w, a).db.status) { LeafStands(w, a); }
  }

  lemma IdealStands(w: World, k: nat)
    requires WellFormed(w)
    ensures var a := IdealAt(w, k); Standing(w, a.db, a.trail, a.cur)
  {
    StartExecutes(w);
    forall a | Sound(w, a) && Stands(w, a) ensures Stands(w, IdealStep(w, a)) { StepStands(w, a); }
    IdealInvariance(w, (a: Ideal) => Stands(w, a), k);
  }

  lemma LeafStands(w: World, a: Ideal)
    requires !Terminal(a.db.status) && Terminal(IdealStep(w, a).db.status)
    ensures var b := IdealStep(w, a); b.db.cursor == b.cur ==> Standing(w, b.db, b.trail, b.cur)
  {
    var v := Frontier(a);
    var d := DriveLeaf(w, a.db, v).0;
    if !OpenAt(a.db, v) {
      StaysLive(w, a.db, v);
      match d.status {
        case Incident(kind) =>
          StopsExactly(w, a.db, v, kind);
          FaultStays(w, a.db, v, kind);
        case _ => StopsExactly(w, a.db, v, NoPath);
      }
    }
  }

  /** Every reachable database, however often the run crashed and re-walked, is that of one execution of the process,
      and a run that has ended has ended for a reason its rows show. */
  lemma RunIsExecution(w: World, run: seq<Config>) returns (trail: seq<Id>, cur: Id, vs: seq<Vars>)
    requires WellFormed(w) && Run(w, run)
    ensures Execution(w, Last(run).db, trail, cur, vs) && Standing(w, Last(run).db, trail, cur)
  {
    RunRefines(w, run);
    var k: nat :| Refines(Last(run), IdealAt(w, k));
    var a := IdealAt(w, k);
    trail, cur := a.trail, a.cur;
    vs := IdealExecutes(w, k);
    IdealStands(w, k);
    QuietExecution(w, Last(run).db, trail, cur, vs);
  }

  // ---- The variables ---------------------------------------------------------------------------

  ghost predicate LastDefines(snapshots: seq<Snapshot>, x: string, i: nat) {
    i < |snapshots| && x in snapshots[i].output
    && forall j :: i < j < |snapshots| ==> x !in snapshots[j].output
  }

  ghost predicate DefinesNone(snapshots: seq<Snapshot>, x: string) {
    forall i :: 0 <= i < |snapshots| ==> x !in snapshots[i].output
  }

  lemma {:induction false} LastWins(base: Vars, snapshots: seq<Snapshot>, x: string)
    ensures var vars := MergeAll(base, snapshots);
            && (DefinesNone(snapshots, x) ==> (x in vars <==> x in base) && (x in base ==> vars[x] == base[x]))
            && (forall i: nat :: LastDefines(snapshots, x, i) ==> x in vars && vars[x] == snapshots[i].output[x])
  {
    if snapshots != [] {
      var n := |snapshots| - 1;
      var before := MergeAll(base, snapshots[..n]);
      LastWins(base, snapshots[..n], x);
      MergeOverlays(before, snapshots[n].output);
      assert Overlaid(before, snapshots[n].output, MergeAll(base, snapshots));
      forall i: nat | LastDefines(snapshots, x, i)
        ensures x in MergeAll(base, snapshots) && MergeAll(base, snapshots)[x] == snapshots[i].output[x]
      {
        if i < n { assert LastDefines(snapshots[..n], x, i); }
      }
    }
  }

  /** After any run a variable has the value of the last merged output that defines it, and its initial value, if any,
      without one. */
  lemma LastOutputDecides(w: World, run: seq<Config>, x: string)
    requires WellFormed(w) && Run(w, run)
    ensures var db := Last(run).db;
            && (DefinesNone(db.snapshots, x) ==>
                  (x in db.vars <==> x in w.initial) && (x in w.initial ==> db.vars[x] == w.initial[x]))
            && (forall i: nat :: LastDefines(db.snapshots, x, i) ==>
                  x in db.vars && db.vars[x] == db.snapshots[i].output[x])
  {
    MergedInWalkOrder(w, run);
    LastWins(w.initial, Last(run).db.snapshots, x);
  }

  // ---- Refused outputs -------------------------------------------------------------------------

  /** How many answers to a job were refused: all that reopened it. */
  function Refused(job: Job): nat {
    if job.status.JobOpen? || job.reports == 0 then job.reports else job.reports - 1
  }

  /** The answers refused at the visits of `el` on the trail. */
  function RefusedOn(jobs: map<Visit, Job>, trail: seq<Id>, el: Id): nat {
    if trail == [] then 0
    else
      var v := VisitAt(trail, |trail| - 1);
      RefusedOn(jobs, trail[..|trail| - 1], el) + if v.el == el && v in jobs then Refused(jobs[v]) else 0
  }

  /** The strikes against an element are its refused answers, fewer than make a job poison. */
  ghost predicate StrikesCounted(a: Ideal) {
    && (forall v <- a.db.jobs :: a.db.jobs[v].status.JobOpen? || a.db.jobs[v].reports > 0)
    && forall el {:trigger Count(a.db.rejections, el)} ::
         Count(a.db.rejections, el) == RefusedOn(a.db.jobs, a.trail + [a.cur], el)
         && Count(a.db.rejections, el) < POISON_THRESHOLD
  }

  lemma {:induction false} RefusedFrame(p: Db, q: Db, trail: seq<Id>, full: seq<Id>, v: Visit, el: Id)
    requires |trail| <= |full| && trail == full[..|trail|] && SameElsewhere(p, q, v) && v.occ >= multiset(full)[v.el]
    ensures RefusedOn(p.jobs, trail, el) == RefusedOn(q.jobs, trail, el)
  {
    if trail != [] {
      var n := |trail| - 1;
      assert full[..n] == trail[..n];
      RefusedFrame(p, q, trail[..n], full, v, el);
      VisitPassed(full, n);
      assert VisitAt(trail, n) == VisitAt(full, n);
      assert SameAt(p, q, VisitAt(full, n));
    }
  }

  lemma RefusedHere(jobs: map<Visit, Job>, trail: seq<Id>, cur: Id, el: Id)
    ensures var v := Visit(cur, multiset(trail)[cur]);
            RefusedOn(jobs, trail + [cur], el) ==
              RefusedOn(jobs, trail, el) + if cur == el && v in jobs then Refused(jobs[v]) else 0
  {
    assert (trail + [cur])[..|trail|] == trail;
  }

  /** The refused answers at the frontier before and after a change of the frontier's rows. */
  lemma RefusedChange(a: Ideal, db: Db, el: Id)
    requires SameElsewhere(a.db, db, Frontier(a))
    ensures var v := Frontier(a);
            RefusedOn(db.jobs, a.trail + [a.cur], el)
            + (if el == a.cur && v in a.db.jobs then Refused(a.db.jobs[v]) else 0)
            == RefusedOn(a.db.jobs, a.trail + [a.cur], el)
               + if el == a.cur && v in db.jobs then Refused(db.jobs[v]) else 0
  {
    RefusedFrame(a.db, db, a.trail, a.trail, Frontier(a), el);
    RefusedHere(a.db.jobs, a.trail, a.cur, el);
    RefusedHere(db.jobs, a.trail, a.cur, el);
  }

  /** What one step at visit `v` does to the strikes against `el`. */
  ghost predicate StrikeStep(db: Db, d: Db, v: Visit, el: Id) {
    && (v in d.jobs ==> d.jobs[v].status.JobOpen? || d.jobs[v].reports > 0)
    && Count(d.rejections, el) < POISON_THRESHOLD
    && Count(d.rejections, el) + (if el == v.el && v in db.jobs then Refused(db.jobs[v]) else 0)
       == Count(db.rejections, el) + if el == v.el && v in d.jobs then Refused(d.jobs[v]) else 0
  }

  /** A leaf counts a strike exactly when it refuses an answer. */
  lemma LeafStrikes(w: World, db: Db, v: Visit, el: Id)
    requires v in db.jobs ==> !db.jobs[v].applied && db.jobs[v].status != JobOpen && db.jobs[v].reports > 0
    requires Count(db.rejections, el) < POISON_THRESHOLD
    ensures StrikeStep(db, DriveLeaf(w, db, v).0, v, el)
  {
    if v.el in w.nodes && v.occ < MAX_ELEMENT_OCCURRENCES {
      match w.nodes[v.el] {
        case Service(next) => ServiceStrikes(w, db, v, next, el);
        case _ =>
      }
    }
  }

  lemma ServiceStrikes(w: World, db: Db, v: Visit, next: Id, el: Id)
    requires v in db.jobs ==> !db.jobs[v].applied && db.jobs[v].status != JobOpen && db.jobs[v].reports > 0
    requires Count(db.rejections, el) < POISON_THRESHOLD
    ensures StrikeStep(db, DriveService(w, db, v, next).0, v, el)
  {
  }

  lemma IdealFrame(w: World, a: Ideal)
    requires JobsOfServices(w, a.db) && !Terminal(a.db.status)
    ensures SameElsewhere(a.db, IdealStep(w, a).db, Frontier(a))
  {
    var v := Frontier(a);
    if !OpenAt(a.db, v) {
      var d := DriveLeaf(w, a.db, v).0;
      LeafFrame(w, a.db, v);
      forall u | u != v ensures SameAt(a.db, Quiet(d), u) { assert SameAt(a.db, d, u); }
    }
  }

  lemma IdealStrikes(w: World, a: Ideal, el: Id)
    requires !Terminal(a.db.status) && Count(a.db.rejections, el) < POISON_THRESHOLD
    requires var v := Frontier(a);
             v in a.db.jobs ==>
               !a.db.jobs[v].applied && (a.db.jobs[v].status.JobOpen? || a.db.jobs[v].reports > 0)
    ensures StrikeStep(a.db, IdealStep(w, a).db, Frontier(a), el)
  {
    if !OpenAt(a.db, Frontier(a)) { LeafStrikes(w, a.db, Frontier(a), el); }
  }

  lemma IdealTrail(w: World, a: Ideal)
    requires NothingAhead(a) && JobsOfServices(w, a.db) && !Terminal(a.db.status)
    ensures var b := IdealStep(w, a);
            if b.trail == a.trail then b.cur == a.cur
            else b.trail == a.trail + [a.cur] && Frontier(b) !in b.db.jobs
  {
    var b := IdealStep(w, a);
    IdealFrame(w, a);
    if b.trail != a.trail { NoJobAhead(a, b.db, b.cur); }
  }

  /** Strikes stay counted over a step with these effects. */
  lemma StrikesOn(a: Ideal, b: Ideal)
    requires StrikesCounted(a) && SameElsewhere(a.db, b.db, Frontier(a))
    requires forall el :: StrikeStep(a.db, b.db, Frontier(a), el)
    requires if b.trail == a.trail then b.cur == a.cur
             else b.trail == a.trail + [a.cur] && Frontier(b) !in b.db.jobs
    ensures StrikesCounted(b)
  {
    forall u <- b.db.jobs ensures b.db.jobs[u].status.JobOpen? || b.db.jobs[u].reports > 0 {
      if u == Frontier(a) { assert StrikeStep(a.db, b.db, u, ""); } else { assert SameAt(a.db, b.db, u); }
    }
    forall el ensures Count(b.db.rejections, el) == RefusedOn(b.db.jobs, b.trail + [b.cur], el)
                      && Count(b.db.rejections, el) < POISON_THRESHOLD
    {
      assert StrikeStep(a.db, b.db, Frontier(a), el);
      RefusedChange(a, b.db, el);
      assert Count(a.db.rejections, el) == RefusedOn(a.db.jobs, a.trail + [a.cur], el);
      if b.trail != a.trail { RefusedHere(b.db.jobs, b.trail, b.cur, el); }
    }
  }

  lemma StepStrikes(w: World, a: Ideal)
    requires Sound(w, a) && StrikesCounted(a)
    ensures StrikesCounted(IdealStep(w, a))
  {
    if !Terminal(a.db.status) {
      forall el ensures StrikeStep(a.db, IdealStep(w, a).db, Frontier(a), el) {
        assert Count(a.db.rejections, el) < POISON_THRESHOLD;
        IdealStrikes(w, a, el);
      }
      IdealFrame(w, a);
      IdealTrail(w, a);
      StrikesOn(a, IdealStep(w, a));
    }
  }

  /** Over any run the strikes against an element are exactly the outputs refused at its visits, and there are never
      more than two of them: the third refusal ends the run. */
  lemma RefusalsBounded(w: World, run: seq<Config>, el: Id)
    requires WellFormed(w) && Run(w, run)
    ensures exists k: nat :: Quiet(Last(run).db) == IdealAt(w, k).db
              && Count(Last(run).db.rejections, el) ==
                 RefusedOn(Last(run).db.jobs, IdealAt(w, k).trail + [IdealAt(w, k).cur], el) <= 2
  {
    RunRefines(w, run);
    var k: nat :| Refines(Last(run), IdealAt(w, k));
    forall a | Sound(w, a) && StrikesCounted(a) ensures StrikesCounted(IdealStep(w, a)) { StepStrikes(w, a); }
    var start := Ideal(InitialDb(w), [], w.start);
    forall x ensures Count(start.db.rejections, x) == RefusedOn(start.db.jobs, start.trail + [start.cur], x) {
      RefusedHere(start.db.jobs, start.trail, start.cur, x);
    }
    IdealInvariance(w, (a: Ideal) => StrikesCounted(a), k);
    assert StrikesCounted(IdealAt(w, k));
    assert Count(Last(run).db.rejections, el) == Count(IdealAt(w, k).db.rejections, el);
  }
}
