/** Crash refinement: any run of src/runtime/engine.ts with crashes and rewalks keeps the database of one
    uninterrupted run. */
module Refinement {
  import opened Prelude
  import opened Rewalk

  // ---- The uninterrupted run -------------------------------------------------------------

  /** The state of one drive that never crashes and never re-walks: the elements visited so far and the next one. */
  datatype Ideal = Ideal(db: Db, trail: seq<Id>, cur: Id)

  /** A waiting instance and a running one differ only in whether a drive is parked on it. */
  function Quiet(db: Db): Db {
    if Terminal(db.status) then db else db.(status := Running)
  }

  function VisitAt(trail: seq<Id>, i: nat): Visit {
    if i < |trail| then Visit(trail[i], multiset(trail[..i])[trail[i]]) else Visit("", 0)
  }

  function Frontier(a: Ideal): Visit {
    Visit(a.cur, multiset(a.trail)[a.cur])
  }

  function OpenAt(db: Db, v: Visit): bool {
    v in db.jobs && db.jobs[v].status.JobOpen? && !db.jobs[v].applied
  }

  /** The next step of the uninterrupted run: the open job's worker answers, or the element under the cursor is
      driven. */
  function IdealStep(w: World, a: Ideal): Ideal {
    var v := Frontier(a);
    if Terminal(a.db.status) then a
    else if OpenAt(a.db, v) then a.(db := a.db.(jobs := a.db.jobs[v := ReportOn(w, a.db.jobs[v], v)]))
    else match DriveLeaf(w, a.db, v)
      case (db', Go(next)) => Ideal(Quiet(db'), a.trail + [a.cur], next)
      case (db', _) => a.(db := Quiet(db'))
  }

  function IdealAt(w: World, k: nat): Ideal {
    if k == 0 then Ideal(InitialDb(w), [], w.start) else IdealStep(w, IdealAt(w, k - 1))
  }

  // ---- What the uninterrupted run keeps --------------------------------------------------

  /** Where the trail went after its i-th visit. */
  function After(a: Ideal, i: nat): Id {
    if i + 1 < |a.trail| then a.trail[i + 1] else a.cur
  }

  /** Every visit on the trail is recorded together with the successor the run took. */
  ghost predicate TrailRecorded(w: World, a: Ideal) {
    forall i: nat {:trigger VisitAt(a.trail, i)} :: i < |a.trail| ==>
      && VisitAt(a.trail, i).occ < MAX_ELEMENT_OCCURRENCES
      && Recorded(w, a.db, VisitAt(a.trail, i)) == Some(After(a, i))
  }

  ghost predicate Passed(a: Ideal, v: Visit) {
    v.occ < multiset(a.trail)[v.el]
  }

  /** Nothing is recorded for visits that lie ahead; only the frontier's job may still be unapplied. */
  ghost predicate NothingAhead(a: Ideal) {
    && (forall v <- a.db.started :: Passed(a, v))
    && (forall v <- a.db.decisions :: Passed(a, v))
    && (forall v <- a.db.jobs :: if a.db.jobs[v].applied then Passed(a, v) else v == Frontier(a))
  }

  /** The completed and applied outputs along the trail, in walk order. */
  function MergedAlong(jobs: map<Visit, Job>, trail: seq<Id>): seq<Snapshot> {
    if trail == [] then []
    else
      var v := VisitAt(trail, |trail| - 1);
      MergedAlong(jobs, trail[..|trail| - 1])
      + if v in jobs && jobs[v].applied && jobs[v].status.JobCompleted? then [Snapshot(v, jobs[v].output)] else []
  }

  function MergeAll(base: Vars, snapshots: seq<Snapshot>): Vars {
    if snapshots == [] then base
    else Merge(MergeAll(base, snapshots[..|snapshots| - 1]), snapshots[|snapshots| - 1].output)
  }

  /** Each output on the trail has been merged exactly once, in walk order, and nothing else has. */
  ghost predicate MergedOnce(w: World, a: Ideal) {
    && a.db.snapshots == MergedAlong(a.db.jobs, a.trail)
    && a.db.vars == MergeAll(w.initial, a.db.snapshots)
  }

  ghost predicate JobsOfServices(w: World, db: Db) {
    forall v <- db.jobs ::
      && v.el in w.nodes && w.nodes[v.el].Service? && v.occ < MAX_ELEMENT_OCCURRENCES
      && (db.jobs[v].applied ==> !db.jobs[v].status.JobOpen?)
  }

  ghost predicate Sound(w: World, a: Ideal) {
    && (a.trail + [a.cur])[0] == w.start
    && Quiet(a.db) == a.db
    && (Terminal(a.db.status) || a.db.cursor == a.cur)
    && JobsOfServices(w, a.db)
    && TrailRecorded(w, a) && NothingAhead(a) && MergedOnce(w, a)
  }

  lemma TrailExtended(trail: seq<Id>, cur: Id)
    ensures forall i {:trigger VisitAt(trail, i)} :: 0 <= i < |trail| ==> VisitAt(trail + [cur], i) == VisitAt(trail, i)
    ensures VisitAt(trail + [cur], |trail|) == Visit(cur, multiset(trail)[cur])
    ensures multiset(trail + [cur]) == multiset(trail)[cur := multiset(trail)[cur] + 1]
  {
    forall i | 0 <= i < |trail| ensures VisitAt(trail + [cur], i) == VisitAt(trail, i) {
      assert (trail + [cur])[..i] == trail[..i];
    }
    assert (trail + [cur])[..|trail|] == trail;
  }

  /** The i-th visit's occurrence number lies below the number of visits its element has had. */
  lemma VisitPassed(trail: seq<Id>, i: nat)
    requires i < |trail|
    ensures VisitAt(trail, i).occ < multiset(trail)[VisitAt(trail, i).el]
  {
    assert trail == trail[..i] + [trail[i]] + trail[i + 1..];
  }

  ghost predicate SameAt(p: Db, q: Db, v: Visit) {
    && (v in p.started <==> v in q.started)
    && (v in p.decisions <==> v in q.decisions) && (v in p.decisions ==> p.decisions[v] == q.decisions[v])
    && (v in p.jobs <==> v in q.jobs) && (v in p.jobs ==> p.jobs[v] == q.jobs[v])
  }

  ghost predicate SameElsewhere(p: Db, q: Db, v: Visit) {
    forall u {:trigger SameAt(p, q, u)} :: u != v ==> SameAt(p, q, u)
  }

  /** Driving one visit leaves every row of every other visit alone. */
  lemma LeafFrame(w: World, db: Db, v: Visit)
    requires JobsOfServices(w, db)
    ensures SameElsewhere(db, DriveLeaf(w, db, v).0, v) && JobsOfServices(w, DriveLeaf(w, db, v).0)
  {
    LeafJobs(w, db, v);
    forall u | u != v ensures SameAt(db, DriveLeaf(w, db, v).0, u) {
      LeafFrameAt(w, db, v, u);
    }
  }

  lemma LeafJobs(w: World, db: Db, v: Visit)
    requires JobsOfServices(w, db)
    ensures JobsOfServices(w, DriveLeaf(w, db, v).0)
  {
    if v.el in w.nodes && v.occ < MAX_ELEMENT_OCCURRENCES {
      match w.nodes[v.el] {
        case Service(next) => ServiceJobs(w, db, v, next);
        case Gateway(outgoing) =>
        case _ =>
      }
    }
  }

  lemma ServiceJobs(w: World, db: Db, v: Visit, next: Id)
    requires JobsOfServices(w, db) && v.el in w.nodes && w.nodes[v.el].Service? && v.occ < MAX_ELEMENT_OCCURRENCES
    ensures JobsOfServices(w, DriveService(w, db, v, next).0)
  {
    if v !in db.jobs {
      CreatedJobs(w, db, v);
    } else if !db.jobs[v].applied {
      if db.jobs[v].status.JobCompleted? { CompletedJobs(w, db, v, next); }
      if db.jobs[v].status.JobFailed? { FailedJobs(w, db, v); }
    }
  }

  /** One job put at a service visit keeps the job table in shape. */
  lemma PutJob(w: World, db: Db, d: Db, v: Visit, job: Job)
    requires JobsOfServices(w, db) && v.el in w.nodes && w.nodes[v.el].Service? && v.occ < MAX_ELEMENT_OCCURRENCES
    requires d.jobs == db.jobs[v := job] && (job.applied ==> !job.status.JobOpen?)
    ensures JobsOfServices(w, d)
  {
  }

  lemma CreatedJobs(w: World, db: Db, v: Visit)
    requires JobsOfServices(w, db) && v.el in w.nodes && w.nodes[v.el].Service? && v.occ < MAX_ELEMENT_OCCURRENCES
    ensures JobsOfServices(w, CreateJob(w, db, v).0)
  {
    PutJob(w, db, db.(jobs := db.jobs[v := Job(JobOpen, db.vars, map[], None, false, 0)]), v,
           Job(JobOpen, db.vars, map[], None, false, 0));
  }

  lemma CompletedJobs(w: World, db: Db, v: Visit, next: Id)
    requires JobsOfServices(w, db) && v in db.jobs && db.jobs[v].status.JobCompleted? && !db.jobs[v].applied
    ensures JobsOfServices(w, ApplyCompletion(w, db, v, db.jobs[v], next).0)
  {
    var job := db.jobs[v];
    var d := ApplyCompletion(w, db, v, job, next).0;
    if d.jobs == db.jobs[v := job.(applied := true)] { PutJob(w, db, d, v, job.(applied := true)); }
    if d.jobs == db.jobs[v := job.(status := JobOpen, output := map[])] {
      PutJob(w, db, d, v, job.(status := JobOpen, output := map[]));
    }
  }

  lemma FailedJobs(w: World, db: Db, v: Visit)
    requires JobsOfServices(w, db) && v in db.jobs && db.jobs[v].status.JobFailed?
    ensures JobsOfServices(w, HandleFailure(w, db, v, db.jobs[v]).0)
  {
    var job := db.jobs[v];
    var d := HandleFailure(w, db, v, job).0;
    if d.jobs == db.jobs[v := job.(applied := true)] { PutJob(w, db, d, v, job.(applied := true)); }
  }

  lemma LeafFrameAt(w: World, db: Db, v: Visit, u: Visit)
    requires u != v
    ensures SameAt(db, DriveLeaf(w, db, v).0, u)
  {
    if v.el in w.nodes && v.occ < MAX_ELEMENT_OCCURRENCES {
      match w.nodes[v.el] {
        case Service(next) => ServiceFrameAt(w, db, v, next, u);
        case Gateway(outgoing) =>
        case _ =>
      }
    }
  }

  lemma ServiceFrameAt(w: World, db: Db, v: Visit, next: Id, u: Visit)
    requires u != v
    ensures SameAt(db, DriveService(w, db, v, next).0, u)
  {
    if v in db.jobs && !db.jobs[v].applied {
      match db.jobs[v].status {
        case JobOpen =>
        case JobCompleted => assert ApplyCompletion(w, db, v, db.jobs[v], next) == DriveService(w, db, v, next);
        case JobFailed => assert HandleFailure(w, db, v, db.jobs[v]) == DriveService(w, db, v, next);
      }
    }
  }

  lemma RecordedFrame(w: World, p: Db, q: Db, v: Visit)
    requires SameAt(p, q, v)
    ensures Recorded(w, p, v) == Recorded(w, q, v)
  {
  }

  // ---- Flow ids ----------------------------------------------------------------------------

  ghost predicate DistinctIds(flows: seq<Flow>) {
    forall i, j :: 0 <= i < j < |flows| ==> flows[i].flowId != flows[j].flowId
  }

  /** Flow ids are unique in a BPMN document. */
  ghost predicate WellFormed(w: World) {
    forall id <- w.nodes :: w.nodes[id].Gateway? ==> DistinctIds(w.nodes[id].outgoing)
  }

  lemma {:induction false} TargetOf(flows: seq<Flow>, i: nat)
    requires DistinctIds(flows) && i < |flows|
    ensures Target(flows, flows[i].flowId) == Some(flows[i].targetId)
  {
    if i > 0 { TargetOf(flows[1..], i - 1); }
  }

  lemma {:induction false} TargetIs(flows: seq<Flow>, flowId: Id)
    ensures match Target(flows, flowId)
              case Some(t) => exists f <- flows :: f.flowId == flowId && f.targetId == t
              case None => forall f <- flows :: f.flowId != flowId
  {
    if flows != [] && flows[0].flowId != flowId {
      TargetIs(flows[1..], flowId);
      assert flows == [flows[0]] + flows[1..];
    }
  }

  lemma {:induction false} FirstMatchTakesOne(w: World, rest: seq<Flow>, all: seq<Flow>, vars: Vars)
    requires forall f <- rest :: f in all
    ensures FirstMatch(w, rest, all, vars).Take? ==> FirstMatch(w, rest, all, vars).flow in all
  {
    if rest == [] {
      FallbackIsFirstDefault(all);
    } else {
      FirstMatchTakesOne(w, rest[1..], all, vars);
    }
  }

  lemma ChosenTarget(w: World, outgoing: seq<Flow>, vars: Vars)
    requires DistinctIds(outgoing) && Choose(w, outgoing, vars).Take?
    ensures var f := Choose(w, outgoing, vars).flow; Target(outgoing, f.flowId) == Some(f.targetId)
  {
    if |outgoing| != 1 { FirstMatchTakesOne(w, outgoing, outgoing, vars); }
    var f := Choose(w, outgoing, vars).flow;
    var i :| 0 <= i < |outgoing| && outgoing[i] == f;
    TargetOf(outgoing, i);
  }

  // ---- Every step of the uninterrupted run keeps Sound ---------------------------------------

  /** Moving on from a visit records it with the successor taken. */
  lemma GoRecords(w: World, db: Db, v: Visit)
    requires WellFormed(w) && DriveLeaf(w, db, v).1.Go?
    ensures Recorded(w, DriveLeaf(w, db, v).0, v) == Some(DriveLeaf(w, db, v).1.next)
    ensures v.occ < MAX_ELEMENT_OCCURRENCES
  {
    var node := w.nodes[v.el];
    if node.Gateway? && v !in db.decisions {
      ChosenTarget(w, node.outgoing, db.vars);
    }
  }

  /** A change confined to the frontier's rows keeps the trail recorded. */
  lemma TrailFrame(w: World, a: Ideal, b: Ideal)
    requires TrailRecorded(w, a) && b.trail == a.trail && b.cur == a.cur
    requires SameElsewhere(a.db, b.db, Frontier(a))
    ensures TrailRecorded(w, b)
  {
    forall i: nat | i < |b.trail|
      ensures VisitAt(b.trail, i).occ < MAX_ELEMENT_OCCURRENCES
              && Recorded(w, b.db, VisitAt(b.trail, i)) == Some(After(b, i))
    {
      VisitPassed(a.trail, i);
      assert SameAt(a.db, b.db, VisitAt(a.trail, i));
      RecordedFrame(w, a.db, b.db, VisitAt(a.trail, i));
      assert After(a, i) == After(b, i);
    }
  }

  lemma TrailGrows(w: World, a: Ideal, next: Id)
    requires TrailRecorded(w, a) && Frontier(a).occ < MAX_ELEMENT_OCCURRENCES
    requires Recorded(w, a.db, Frontier(a)) == Some(next)
    ensures TrailRecorded(w, Ideal(a.db, a.trail + [a.cur], next))
  {
    var b := Ideal(a.db, a.trail + [a.cur], next);
    TrailExtended(a.trail, a.cur);
    forall i: nat | i < |b.trail|
      ensures VisitAt(b.trail, i).occ < MAX_ELEMENT_OCCURRENCES
              && Recorded(w, b.db, VisitAt(b.trail, i)) == Some(After(b, i))
    {
      if i < |a.trail| {
        assert After(b, i) == After(a, i);
        assert VisitAt(a.trail, i) == VisitAt(b.trail, i);
      }
    }
  }

  lemma {:induction false} MergedFrame(p: Db, q: Db, trail: seq<Id>, full: seq<Id>, v: Visit)
    requires |trail| <= |full| && trail == full[..|trail|]
    requires SameElsewhere(p, q, v)
    requires v.occ >= multiset(full)[v.el]
    ensures MergedAlong(p.jobs, trail) == MergedAlong(q.jobs, trail)
  {
    if trail != [] {
      var n := |trail| - 1;
      assert full[..n] == trail[..n];
      MergedFrame(p, q, trail[..n], full, v);
      VisitPassed(full, n);
      assert VisitAt(trail, n) == VisitAt(full, n);
      assert SameAt(p, q, VisitAt(full, n));
    }
  }

  lemma MergeOneMore(base: Vars, snapshots: seq<Snapshot>, s: Snapshot)
    ensures MergeAll(base, snapshots + [s]) == Merge(MergeAll(base, snapshots), s.output)
  {
  }

  lemma MergedOneMore(jobs: map<Visit, Job>, trail: seq<Id>, cur: Id)
    ensures var v := Visit(cur, multiset(trail)[cur]);
            MergedAlong(jobs, trail + [cur]) ==
              MergedAlong(jobs, trail)
              + if v in jobs && jobs[v].applied && jobs[v].status.JobCompleted? then [Snapshot(v, jobs[v].output)]
                else []
  {
  }

  /** The shared part of every step: rows change only at the frontier and the frontier is not passed yet. */
  lemma StaySound(w: World, a: Ideal, db: Db)
    requires Sound(w, a) && !Terminal(a.db.status)
    requires SameElsewhere(a.db, db, Frontier(a))
    requires Frontier(a) !in db.started && Frontier(a) !in db.decisions
    requires Frontier(a) in db.jobs ==> !db.jobs[Frontier(a)].applied
    requires db.vars == a.db.vars && db.snapshots == a.db.snapshots
    requires (Terminal(db.status) || db.cursor == a.cur) && JobsOfServices(w, db)
    ensures Sound(w, a.(db := Quiet(db)))
  {
    var b := a.(db := Quiet(db));
    var v := Frontier(a);
    assert SameElsewhere(a.db, b.db, v) by {
      forall u | u != v ensures SameAt(a.db, b.db, u) { assert SameAt(a.db, db, u); }
    }
    TrailFrame(w, a, b);
    MergedFrame(a.db, db, a.trail, a.trail, v);
    forall u <- b.db.started ensures Passed(b, u) { assert SameAt(a.db, db, u); }
    forall u <- b.db.decisions ensures Passed(b, u) { assert SameAt(a.db, db, u); }
    forall u <- b.db.jobs ensures if b.db.jobs[u].applied then Passed(b, u) else u == Frontier(b) {
      if u != v { assert SameAt(a.db, db, u); }
    }
  }

  lemma GoAhead(a: Ideal, db: Db, b: Ideal)
    requires NothingAhead(a) && SameElsewhere(a.db, db, Frontier(a))
    requires Frontier(a) in db.jobs ==> db.jobs[Frontier(a)].applied
    requires b.trail == a.trail + [a.cur] && b.db == db
    ensures NothingAhead(b)
  {
    var v := Frontier(a);
    TrailExtended(a.trail, a.cur);
    assert forall u :: Passed(a, u) || u == v ==> Passed(b, u);
    forall u <- b.db.started ensures Passed(b, u) { assert u == v || SameAt(a.db, db, u); }
    forall u <- b.db.decisions ensures Passed(b, u) { assert u == v || SameAt(a.db, db, u); }
    forall u <- b.db.jobs ensures if b.db.jobs[u].applied then Passed(b, u) else u == Frontier(b) {
      if u != v { assert SameAt(a.db, db, u); }
    }
  }

  /** What moving on does to the frontier's own rows. */
  lemma GoLeaf(w: World, db: Db, v: Visit)
    requires DriveLeaf(w, db, v).1.Go? && (v in db.jobs ==> !db.jobs[v].applied)
    requires v !in db.started && v !in db.decisions && JobsOfServices(w, db)
    ensures var d := DriveLeaf(w, db, v).0;
            && d.status == Running && d.cursor == DriveLeaf(w, db, v).1.next
            && (v in d.jobs ==> d.jobs[v].applied)
            && if v in d.jobs && d.jobs[v].status.JobCompleted?
               then d.snapshots == db.snapshots + [Snapshot(v, d.jobs[v].output)]
                    && d.vars == Merge(db.vars, d.jobs[v].output)
               else d.snapshots == db.snapshots && d.vars == db.vars
  {
  }

  /** A step that moves on: the frontier's visit becomes the last one on the trail. */
  lemma GoSound(w: World, a: Ideal)
    requires WellFormed(w) && Sound(w, a) && !Terminal(a.db.status) && !OpenAt(a.db, Frontier(a))
    requires DriveLeaf(w, a.db, Frontier(a)).1.Go?
    ensures Sound(w, IdealStep(w, a))
  {
    var v := Frontier(a);
    var db := DriveLeaf(w, a.db, v).0;
    var b := IdealStep(w, a);
    GoRecords(w, a.db, v);
    GoLeaf(w, a.db, v);
    LeafFrame(w, a.db, v);
    TrailFrame(w, a, a.(db := db));
    TrailGrows(w, a.(db := db), b.cur);
    GoAhead(a, db, b);
    MergedFrame(a.db, db, a.trail, a.trail, v);
    MergedOneMore(db.jobs, a.trail, a.cur);
    if v in db.jobs { MergeOneMore(w.initial, a.db.snapshots, Snapshot(v, db.jobs[v].output)); }
  }

  /** What not moving on does to the frontier's own rows. */
  lemma StayLeaf(w: World, db: Db, v: Visit)
    requires !DriveLeaf(w, db, v).1.Go? && !OpenAt(db, v) && (v in db.jobs ==> !db.jobs[v].applied)
    requires v !in db.started && v !in db.decisions && db.cursor == v.el
    ensures var d := DriveLeaf(w, db, v).0;
            && v !in d.started && v !in d.decisions && (v in d.jobs ==> !d.jobs[v].applied)
            && d.vars == db.vars && d.snapshots == db.snapshots && d.cursor == v.el
  {
    if v.el in w.nodes && v.occ < MAX_ELEMENT_OCCURRENCES {
      match w.nodes[v.el] {
        case Service(next) => StayService(w, db, v, next);
        case Gateway(outgoing) =>
        case _ =>
      }
    }
  }

  lemma StayService(w: World, db: Db, v: Visit, next: Id)
    requires !DriveService(w, db, v, next).1.Go? && (v in db.jobs ==> !db.jobs[v].applied)
    requires v !in db.started && v !in db.decisions && db.cursor == v.el
    ensures var d := DriveService(w, db, v, next).0;
            && v !in d.started && v !in d.decisions && (v in d.jobs ==> !d.jobs[v].applied)
            && d.vars == db.vars && d.snapshots == db.snapshots && d.cursor == v.el
  {
    if v in db.jobs && !db.jobs[v].applied {
      match db.jobs[v].status {
        case JobOpen =>
        case JobCompleted => assert ApplyCompletion(w, db, v, db.jobs[v], next) == DriveService(w, db, v, next);
        case JobFailed => assert HandleFailure(w, db, v, db.jobs[v]) == DriveService(w, db, v, next);
      }
    }
  }

  lemma ReportSound(w: World, a: Ideal)
    requires Sound(w, a) && !Terminal(a.db.status) && OpenAt(a.db, Frontier(a))
    ensures Sound(w, IdealStep(w, a))
  {
    StaySound(w, a, IdealStep(w, a).db);
  }

  lemma StepSound(w: World, a: Ideal)
    requires WellFormed(w) && Sound(w, a)
    ensures Sound(w, IdealStep(w, a))
  {
    var v := Frontier(a);
    if Terminal(a.db.status) {
    } else if OpenAt(a.db, v) {
      ReportSound(w, a);
    } else if DriveLeaf(w, a.db, v).1.Go? {
      GoSound(w, a);
    } else {
      LeafFrame(w, a.db, v);
      StayLeaf(w, a.db, v);
      StaySound(w, a, DriveLeaf(w, a.db, v).0);
    }
  }

  lemma IdealNext(w: World, k: nat)
    ensures IdealAt(w, k + 1) == IdealStep(w, IdealAt(w, k))
  {
  }

  /** What holds at the start and is kept by every step from a sound state holds of the uninterrupted run. */
  lemma IdealInvariance(w: World, inv: Ideal -> bool, k: nat)
    requires WellFormed(w) && inv(IdealAt(w, 0))
    requires forall a :: Sound(w, a) && inv(a) ==> inv(IdealStep(w, a))
    ensures Sound(w, IdealAt(w, k)) && inv(IdealAt(w, k))
  {
    forall j: nat ensures IdealAt(w, j + 1) == IdealStep(w, IdealAt(w, j)) { IdealNext(w, j); }
    forall a | Sound(w, a) && inv(a) ensures Sound(w, IdealStep(w, a)) { StepSound(w, a); }
    StartSound(w);
    Iterated((j: nat) => IdealAt(w, j), (a: Ideal) => IdealStep(w, a), (a: Ideal) => Sound(w, a) && inv(a), k);
  }

  lemma StartSound(w: World)
    ensures Sound(w, IdealAt(w, 0))
  {
  }

  /** The uninterrupted run is sound at every step: recorded along its trail, nothing ahead, merged exactly once. */
  lemma IdealSound(w: World, k: nat)
    requires WellFormed(w)
    ensures Sound(w, IdealAt(w, k))
  {
    IdealInvariance(w, a => true, k);
  }

  // ---- Crashes and rewalks -------------------------------------------------------------------

  ghost predicate CountsOf(visits: map<Id, nat>, trail: seq<Id>) {
    forall id {:trigger Count(visits, id)} :: Count(visits, id) == multiset(trail)[id]
  }

  /** The walk has re-walked the first `i` visits of the trail. */
  ghost predicate OnTrail(walk: Walk, a: Ideal, i: nat) {
    && i <= |a.trail| && walk.cur == (a.trail + [a.cur])[i] && CountsOf(walk.visits, a.trail[..i])
    && (walk.parking ==> i == |a.trail| && Frontier(a) in a.db.jobs)
  }

  /** The database is that of the uninterrupted run up to parking, and any walk in progress is somewhere on its
      trail. */
  ghost predicate Refines(c: Config, a: Ideal) {
    && Quiet(c.db) == a.db
    && (c.walk.Some? ==> !Terminal(c.db.status) && exists i: nat :: OnTrail(c.walk.value, a, i))
  }

  lemma RecordedIsWriteFree(w: World, db: Db, v: Visit)
    requires Recorded(w, db, v).Some? && v.occ < MAX_ELEMENT_OCCURRENCES
    ensures DriveLeaf(w, db, v) == (db, Go(Recorded(w, db, v).value))
  {
  }

  lemma QuietRecorded(w: World, db: Db, v: Visit)
    ensures Recorded(w, Quiet(db), v) == Recorded(w, db, v)
  {
  }

  /** Whether an earlier drive is parked makes no difference to what driving a visit does. */
  lemma QuietLeaf(w: World, db: Db, v: Visit)
    requires !Terminal(db.status) && !OpenAt(db, v) && JobsOfServices(w, db)
    ensures Quiet(DriveLeaf(w, db, v).0) == Quiet(DriveLeaf(w, Quiet(db), v).0)
    ensures DriveLeaf(w, db, v).1 == DriveLeaf(w, Quiet(db), v).1
  {
    if v.el in w.nodes && v.occ < MAX_ELEMENT_OCCURRENCES {
      match w.nodes[v.el] {
        case Service(next) => QuietService(w, db, v, next);
        case Gateway(outgoing) =>
        case _ =>
      }
    }
  }

  lemma QuietService(w: World, db: Db, v: Visit, next: Id)
    requires !Terminal(db.status) && !OpenAt(db, v) && JobsOfServices(w, db)
    ensures Quiet(DriveService(w, db, v, next).0) == Quiet(DriveService(w, Quiet(db), v, next).0)
    ensures DriveService(w, db, v, next).1 == DriveService(w, Quiet(db), v, next).1
  {
    if v in db.jobs && db.jobs[v].applied { QuietRecorded(w, db, v); }
  }

  lemma WalkVisit(walk: Walk, a: Ideal, i: nat)
    requires OnTrail(walk, a, i)
    ensures AtVisit(walk) == if i < |a.trail| then VisitAt(a.trail, i) else Frontier(a)
  {
    assert a.trail[..|a.trail|] == a.trail;
  }

  lemma WalkMovesOn(walk: Walk, a: Ideal, i: nat, b: Ideal)
    requires OnTrail(walk, a, i) && i < |b.trail|
    requires b == a || (b.trail == a.trail + [a.cur] && i == |a.trail|)
    ensures OnTrail(Walk(walk.visits[walk.cur := AtVisit(walk).occ + 1], (b.trail + [b.cur])[i + 1], false), b, i + 1)
  {
    assert b.trail[..i + 1] == a.trail[..i] + [walk.cur];
    var visits := walk.visits[walk.cur := AtVisit(walk).occ + 1];
    forall id ensures Count(visits, id) == multiset(b.trail[..i + 1])[id] {
      assert Count(walk.visits, id) == multiset(a.trail[..i])[id];
    }
  }

  /** Before the frontier a rewalk writes nothing and repeats the step the uninterrupted run took. */
  lemma RewalkIsWriteFree(w: World, c: Config, a: Ideal, i: nat)
    requires Sound(w, a) && Quiet(c.db) == a.db && c.walk.Some? && OnTrail(c.walk.value, a, i) && i < |a.trail|
    ensures var c' := DriveStep(w, c.db, c.walk.value);
            c'.db == c.db && c'.walk.Some? && OnTrail(c'.walk.value, a, i + 1) && !c'.walk.value.parking
  {
    var walk := c.walk.value;
    WalkVisit(walk, a, i);
    var v := VisitAt(a.trail, i);
    assert Recorded(w, a.db, v) == Some(After(a, i));
    QuietRecorded(w, c.db, v);
    RecordedIsWriteFree(w, c.db, v);
    WalkMovesOn(walk, a, i, a);
  }

  lemma ParkRefines(c: Config, a: Ideal)
    requires Quiet(c.db) == a.db && !Terminal(c.db.status) && c.db.cursor == a.cur
    ensures Refines(Config(Park(c.db, Frontier(a)), None), a)
  {
  }

  lemma StaysLive(w: World, db: Db, v: Visit)
    requires !Terminal(db.status)
    ensures !DriveLeaf(w, db, v).1.Stop? ==> !Terminal(DriveLeaf(w, db, v).0.status)
    ensures DriveLeaf(w, db, v).1.ToPark? ==> v in DriveLeaf(w, db, v).0.jobs
  {
  }

  /** At the frontier a drive parks or takes exactly the next step of the uninterrupted run. */
  lemma FrontierStep(w: World, c: Config, a: Ideal)
    requires Sound(w, a) && Quiet(c.db) == a.db && !Terminal(c.db.status)
    requires c.walk.Some? && OnTrail(c.walk.value, a, |a.trail|)
    ensures var c' := DriveStep(w, c.db, c.walk.value);
            if c.walk.value.parking || OpenAt(c.db, Frontier(a)) then Refines(c', a) else Refines(c', IdealStep(w, a))
  {
    var walk := c.walk.value;
    var v := Frontier(a);
    WalkVisit(walk, a, |a.trail|);
    if walk.parking {
      ParkRefines(c, a);
    } else if OpenAt(c.db, v) {
      ParkRefines(c, a);
    } else {
      QuietLeaf(w, c.db, v);
      var c' := DriveStep(w, c.db, walk);
      var b := IdealStep(w, a);
      match DriveLeaf(w, c.db, v).1 {
        case Go(next) =>
          WalkMovesOn(walk, a, |a.trail|, b);
          StaysLive(w, c.db, v);
        case ToPark =>
          StaysLive(w, c.db, v);
          StaysLive(w, a.db, v);
          assert OnTrail(walk.(parking := true), b, |a.trail|);
        case Stop =>
      }
    }
  }

  lemma ReportRefines(w: World, c: Config, a: Ideal, v: Visit, c': Config)
    requires Sound(w, a) && Refines(c, a) && Step(w, c, WorkerReport(v), c')
    ensures Refines(c', IdealStep(w, a))
  {
    assert v in a.db.jobs;
    assert v == Frontier(a) && OpenAt(a.db, v);
    if c.walk.Some? {
      var i :| OnTrail(c.walk.value, a, i);
      assert OnTrail(c'.walk.value, IdealStep(w, a), i);
    }
  }

  /** Every step of a run with crashes is one step of the uninterrupted run or none. */
  lemma StepRefines(w: World, c: Config, a: Ideal, e: Event, c': Config)
    requires Sound(w, a) && Refines(c, a) && Step(w, c, e, c')
    ensures Refines(c', a) || Refines(c', IdealStep(w, a))
  {
    match e {
      case Begin =>
        assert OnTrail(c'.walk.value, a, 0);
      case Crash =>
      case WorkerReport(v) => ReportRefines(w, c, a, v, c');
      case Drive =>
        var i: nat :| OnTrail(c.walk.value, a, i);
        if i < |a.trail| {
          RewalkIsWriteFree(w, c, a, i);
        } else {
          FrontierStep(w, c, a);
        }
    }
  }

  ghost function Last(run: seq<Config>): Config
    requires |run| > 0
  {
    run[|run| - 1]
  }

  /** `c` refines the uninterrupted run at step `k` or later. */
  ghost predicate RefinesFrom(w: World, c: Config, k: nat) {
    exists m: nat :: m >= k && Refines(c, IdealAt(w, m))
  }

  lemma MoveRefines(w: World, c: Config, k: nat, c': Config)
    requires WellFormed(w) && RefinesFrom(w, c, k) && Stepping(w)(c, c')
    ensures RefinesFrom(w, c', k)
  {
    var m: nat :| m >= k && Refines(c, IdealAt(w, m));
    var e :| Step(w, c, e, c');
    IdealSound(w, m);
    StepRefines(w, c, IdealAt(w, m), e, c');
    assert IdealAt(w, m + 1) == IdealStep(w, IdealAt(w, m));
  }

  lemma PathRefines(w: World, path: seq<Config>, k: nat, n: nat)
    requires WellFormed(w) && n < |path| && RefinesFrom(w, path[0], k) && Steps(Stepping(w), path)
    ensures RefinesFrom(w, path[n], k)
  {
    forall c, c' | RefinesFrom(w, c, k) && Stepping(w)(c, c') ensures RefinesFrom(w, c', k) {
      MoveRefines(w, c, k, c');
    }
    Invariance(Stepping(w), c => RefinesFrom(w, c, k), path, 0, n);
  }

  /** Crash refinement: after any run the database is, up to parking, that of the uninterrupted run at some step. */
  lemma RunRefines(w: World, run: seq<Config>)
    requires WellFormed(w) && Run(w, run)
    ensures exists k: nat :: Refines(Last(run), IdealAt(w, k))
  {
    assert Refines(run[0], IdealAt(w, 0));
    PathRefines(w, run, 0, |run| - 1);
  }

  /** The uninterrupted run never leaves a terminal state. */
  lemma {:induction false} IdealSettles(w: World, k: nat, m: nat)
    requires k <= m && Terminal(IdealAt(w, k).db.status)
    ensures IdealAt(w, m) == IdealAt(w, k)
    decreases m
  {
    if k < m { IdealSettles(w, k, m - 1); }
  }

  /** Any two settled runs, however often either crashed, end with the same rows. */
  lemma SettledRunsAgree(w: World, run: seq<Config>, other: seq<Config>)
    requires WellFormed(w) && Run(w, run) && Run(w, other)
    requires Terminal(Last(run).db.status) && Terminal(Last(other).db.status)
    ensures Last(run).db == Last(other).db
  {
    RunRefines(w, run);
    RunRefines(w, other);
    var k: nat :| Refines(Last(run), IdealAt(w, k));
    var m: nat :| Refines(Last(other), IdealAt(w, m));
    if k <= m { IdealSettles(w, k, m); } else { IdealSettles(w, m, k); }
  }

  /** The rows of a database are the effects of walking `trail` once: each applied visit lies on it, and its output
      was merged exactly once, in walk order. */
  ghost predicate MergedAlongOnce(w: World, db: Db, trail: seq<Id>) {
    && db.snapshots == MergedAlong(db.jobs, trail)
    && db.vars == MergeAll(w.initial, db.snapshots)
    && forall v <- db.jobs :: db.jobs[v].applied ==> v.occ < multiset(trail)[v.el]
  }

  /** In every reachable database each applied output has been merged exactly once, in the order of the one walk the
      uninterrupted run has taken so far, each of whose visits is recorded with the successor taken. */
  lemma MergedInWalkOrder(w: World, run: seq<Config>)
    requires WellFormed(w) && Run(w, run)
    ensures exists k: nat :: Quiet(Last(run).db) == IdealAt(w, k).db && TrailRecorded(w, IdealAt(w, k))
                             && MergedAlongOnce(w, Last(run).db, IdealAt(w, k).trail)
  {
    RunRefines(w, run);
    var k: nat :| Refines(Last(run), IdealAt(w, k));
    IdealSound(w, k);
    assert MergedAlongOnce(w, Last(run).db, IdealAt(w, k).trail);
  }

  lemma {:induction false} MergedDistinct(jobs: map<Visit, Job>, trail: seq<Id>, i: nat, j: nat)
    requires i < j < |MergedAlong(jobs, trail)|
    ensures MergedAlong(jobs, trail)[i].visit != MergedAlong(jobs, trail)[j].visit
  {
    var n := |trail| - 1;
    var before := MergedAlong(jobs, trail[..n]);
    if j < |before| {
      MergedDistinct(jobs, trail[..n], i, j);
    } else {
      MergedPassed(jobs, trail[..n], i);
      TrailExtended(trail[..n], trail[n]);
      assert trail == trail[..n] + [trail[n]];
    }
  }

  lemma {:induction false} MergedPassed(jobs: map<Visit, Job>, trail: seq<Id>, i: nat)
    requires i < |MergedAlong(jobs, trail)|
    ensures MergedAlong(jobs, trail)[i].visit.occ < multiset(trail)[MergedAlong(jobs, trail)[i].visit.el]
  {
    var n := |trail| - 1;
    if i < |MergedAlong(jobs, trail[..n])| {
      MergedPassed(jobs, trail[..n], i);
      assert trail == trail[..n] + [trail[n]];
    } else {
      VisitPassed(trail, n);
    }
  }

  // ---- No progress is lost -------------------------------------------------------------------

  /** A rewalk reaches the frontier with the database untouched. */
  lemma {:induction false} CatchUp(w: World, c: Config, a: Ideal, i: nat) returns (c': Config)
    requires Sound(w, a) && Quiet(c.db) == a.db && c.walk.Some? && OnTrail(c.walk.value, a, i) && !c.walk.value.parking
    ensures c'.db == c.db && c'.walk.Some? && OnTrail(c'.walk.value, a, |a.trail|) && !c'.walk.value.parking
    ensures Reaches(Stepping(w), c, c')
    decreases |a.trail| - i
  {
    if i == |a.trail| {
      c' := c;
      ReachesSelf(Stepping(w), c);
    } else {
      RewalkIsWriteFree(w, c, a, i);
      var d := DriveStep(w, c.db, c.walk.value);
      assert Step(w, c, Drive, d);
      ReachesOne(Stepping(w), c, d);
      c' := CatchUp(w, d, a, i + 1);
      ReachesOn(Stepping(w), c, d, c');
    }
  }

  /** From any crashed or parked state a fresh drive can take the next step of the uninterrupted run. */
  lemma ResumeAdvances(w: World, c: Config, a: Ideal) returns (c': Config)
    requires Sound(w, a) && Refines(c, a)
    ensures Reaches(Stepping(w), c, c') && Refines(c', IdealStep(w, a))
  {
    var v := Frontier(a);
    if Terminal(c.db.status) {
      c' := c;
      ReachesSelf(Stepping(w), c);
    } else if OpenAt(c.db, v) {
      c' := Config(c.db.(jobs := c.db.jobs[v := ReportOn(w, c.db.jobs[v], v)]), c.walk);
      assert Step(w, c, WorkerReport(v), c');
      ReachesOne(Stepping(w), c, c');
      ReportRefines(w, c, a, v, c');
    } else {
      var crashed := Config(c.db, None);
      assert Step(w, c, Crash, crashed);
      ReachesOne(Stepping(w), c, crashed);
      var begun := Config(c.db, Some(Walk(map[], w.start, false)));
      assert Step(w, crashed, Begin, begun);
      ReachesOne(Stepping(w), crashed, begun);
      ReachesOn(Stepping(w), c, crashed, begun);
      assert OnTrail(begun.walk.value, a, 0);
      var caught := CatchUp(w, begun, a, 0);
      ReachesOn(Stepping(w), c, begun, caught);
      FrontierStep(w, caught, a);
      c' := DriveStep(w, caught.db, caught.walk.value);
      assert Step(w, caught, Drive, c');
      ReachesOne(Stepping(w), caught, c');
      ReachesOn(Stepping(w), c, caught, c');
    }
  }

  /** From `c` a run can go on to a configuration that refines step `m` of the uninterrupted run. */
  ghost predicate CanMatch(w: World, c: Config, m: nat) {
    exists c' :: Reaches(Stepping(w), c, c') && Refines(c', IdealAt(w, m))
  }

  lemma MatchNext(w: World, c: Config, m: nat)
    requires WellFormed(w) && CanMatch(w, c, m)
    ensures CanMatch(w, c, m + 1)
  {
    var d :| Reaches(Stepping(w), c, d) && Refines(d, IdealAt(w, m));
    IdealSound(w, m);
    var c' := ResumeAdvances(w, d, IdealAt(w, m));
    ReachesOn(Stepping(w), c, d, c');
    assert IdealAt(w, m + 1) == IdealStep(w, IdealAt(w, m));
  }

  /** Every later state of the uninterrupted run can still be reached: no crash loses or forks the run. */
  lemma {:induction false} NothingIsLost(w: World, c: Config, k: nat, m: nat)
    requires WellFormed(w) && Refines(c, IdealAt(w, k)) && k <= m
    ensures CanMatch(w, c, m)
    decreases m
  {
    if k == m {
      ReachesSelf(Stepping(w), c);
    } else {
      NothingIsLost(w, c, k, m - 1);
      MatchNext(w, c, m - 1);
    }
  }
}
