/** The engine's methods on the rows of one instance (src/runtime/engine.ts, src/runtime/forward-task.ts), each proved
    against the row functions of Rewalk, and the termination of one walk pass. */
module Engine {
  import opened Prelude
  import opened Rewalk
  import opened Refinement

  // ---- One pass as a function --------------------------------------------------------------

  /** The visits the loop cap still admits. */
  ghost function Remaining(w: World, visits: map<Id, nat>): set<(Id, nat)> {
    set id, occ: nat | id in w.nodes && Count(visits, id) <= occ < MAX_ELEMENT_OCCURRENCES :: (id, occ)
  }

  lemma RemainingDrops(w: World, visits: map<Id, nat>, id: Id)
    requires id in w.nodes && Count(visits, id) < MAX_ELEMENT_OCCURRENCES
    ensures |Remaining(w, visits[id := Count(visits, id) + 1])| < |Remaining(w, visits)|
  {
    var more := visits[id := Count(visits, id) + 1];
    var last := (id, Count(visits, id));
    forall p: (Id, nat) ensures p in Remaining(w, more) <==> p in Remaining(w, visits) && p != last {
      assert Count(more, p.0) == if p.0 == id then last.1 + 1 else Count(visits, p.0);
    }
    assert Remaining(w, more) == Remaining(w, visits) - {last};
  }

  /** The rows after one drive that is not interrupted: the walk goes on until a leaf stops it. */
  ghost function Pass(w: World, db: Db, visits: map<Id, nat>, cur: Id): Db
    decreases |Remaining(w, visits)|
  {
    var v := Visit(cur, Count(visits, cur));
    match DriveLeaf(w, db, v)
      case (db', Go(next)) =>
        RemainingDrops(w, visits, cur);
        Pass(w, db', visits[cur := v.occ + 1], next)
      case (db', ToPark) => Park(db', v)
      case (db', Stop) => db'
  }

  /** A leaf together with the park that follows the creation of its job. */
  ghost function Driven(w: World, db: Db, v: Visit): (Db, Outcome) {
    var step := DriveLeaf(w, db, v);
    if step.1.ToPark? then (Park(step.0, v), Stop) else step
  }

  lemma PassUnfolds(w: World, db: Db, visits: map<Id, nat>, cur: Id)
    ensures var v := Visit(cur, Count(visits, cur));
            match Driven(w, db, v).1
              case Go(next) =>
                && Pass(w, db, visits, cur) == Pass(w, Driven(w, db, v).0, visits[cur := v.occ + 1], next)
                && |Remaining(w, visits[cur := v.occ + 1])| < |Remaining(w, visits)|
              case _ => Pass(w, db, visits, cur) == Driven(w, db, v).0
  {
    if Driven(w, db, Visit(cur, Count(visits, cur))).1.Go? { RemainingDrops(w, visits, cur); }
  }

  /** A drive is a finite run of micro-steps, so everything proved of runs holds of it. */
  lemma {:induction false} PassIsARun(w: World, db: Db, visits: map<Id, nat>, cur: Id)
    ensures Reaches(Stepping(w), Config(db, Some(Walk(visits, cur, false))), Config(Pass(w, db, visits, cur), None))
    decreases |Remaining(w, visits)|
  {
    var c := Config(db, Some(Walk(visits, cur, false)));
    var d := DriveStep(w, db, c.walk.value);
    assert Step(w, c, Drive, d);
    ReachesOne(Stepping(w), c, d);
    match DriveLeaf(w, db, Visit(cur, Count(visits, cur))) {
      case (db', Go(next)) =>
        RemainingDrops(w, visits, cur);
        PassIsARun(w, db', d.walk.value.visits, next);
        ReachesOn(Stepping(w), c, d, Config(Pass(w, db, visits, cur), None));
      case (_, ToPark) =>
        var parked := DriveStep(w, d.db, d.walk.value);
        assert Step(w, d, Drive, parked);
        ReachesOne(Stepping(w), d, parked);
        ReachesOn(Stepping(w), c, d, parked);
      case (_, Stop) =>
    }
  }

  /** A whole drive from the start element carries the rows of the uninterrupted run to those of a later step. */
  lemma PassRefines(w: World, c: Config, k: nat)
    requires WellFormed(w) && Refines(c, IdealAt(w, k)) && !Terminal(c.db.status)
    ensures RefinesFrom(w, Config(Pass(w, c.db, map[], w.start), None), k)
  {
    var begun := Config(c.db, Some(Walk(map[], w.start, false)));
    var after := Config(Pass(w, c.db, map[], w.start), None);
    IdealSound(w, k);
    assert OnTrail(begun.walk.value, IdealAt(w, k), 0);
    PassIsARun(w, c.db, map[], w.start);
    var path :| Leads(Stepping(w), path, begun, after);
    PathRefines(w, path, k, |path| - 1);
  }

  // ---- A drive parks or ends ---------------------------------------------------------------

  ghost predicate Known(w: World, id: Option<Id>) {
    id.Some? && id.value in w.nodes
  }

  /** Every successor is a node and every flow that may have to be evaluated has a condition, as the validator demands
      of a published process. */
  ghost predicate Closed(w: World) {
    && w.start in w.nodes
    && (forall el, code :: w.route(el, code).Some? ==> Known(w, w.route(el, code)))
    && forall id <- w.nodes ::
         match w.nodes[id]
         case Start(next) => next in w.nodes
         case Service(next) => next in w.nodes
         case Gateway(flows) =>
           && (forall f <- flows :: f.targetId in w.nodes)
           && (|flows| != 1 ==> forall f <- flows :: f.isDefault || f.condition.Some?)
         case End => true
  }

  /** What is recorded can be followed to a node. */
  ghost predicate Followable(w: World, db: Db) {
    && JobsOfServices(w, db)
    && (forall v <- db.decisions :: v.el in w.nodes && w.nodes[v.el].Gateway? && Known(w, Recorded(w, db, v)))
    && forall v <- db.jobs :: db.jobs[v].applied ==> Known(w, Recorded(w, db, v))
  }

  lemma LeafGoesToNode(w: World, db: Db, v: Visit)
    requires WellFormed(w) && Closed(w) && Followable(w, db) && DriveLeaf(w, db, v).1.Go?
    ensures DriveLeaf(w, db, v).1.next in w.nodes
  {
    match w.nodes[v.el] {
      case Gateway(flows) =>
        ChoiceIsRight(w, flows, db.vars);
        if v in db.decisions { assert Known(w, Recorded(w, db, v)); }
      case Service(_) =>
        if v in db.jobs && db.jobs[v].applied { assert Known(w, Recorded(w, db, v)); }
      case _ =>
    }
  }

  lemma LeafFollowable(w: World, db: Db, v: Visit)
    requires WellFormed(w) && Closed(w) && Followable(w, db) && DriveLeaf(w, db, v).1.Go?
    ensures Followable(w, DriveLeaf(w, db, v).0)
  {
    var d := DriveLeaf(w, db, v).0;
    LeafFrame(w, db, v);
    GoRecords(w, db, v);
    LeafGoesToNode(w, db, v);
    forall u <- d.decisions ensures u.el in w.nodes && w.nodes[u.el].Gateway? && Known(w, Recorded(w, d, u)) {
      if u != v {
        assert SameAt(db, d, u);
        RecordedFrame(w, db, d, u);
      }
    }
    forall u <- d.jobs | d.jobs[u].applied ensures Known(w, Recorded(w, d, u)) {
      if u != v {
        assert SameAt(db, d, u);
        RecordedFrame(w, db, d, u);
      }
    }
  }

  /** A walk stands still only where an instance waits for an open job or has ended. */
  ghost predicate Parked(db: Db) {
    Terminal(db.status) || (db.status.Waiting? && exists v :: OpenAt(db, v))
  }

  lemma GatewayParks(w: World, db: Db, v: Visit, flows: seq<Flow>)
    requires v in db.decisions ==> Target(flows, db.decisions[v]).Some?
    requires |flows| != 1 ==> forall f <- flows :: f.isDefault || f.condition.Some?
    requires !Decide(w, db, v, flows).1.Go?
    ensures Decide(w, db, v, flows).0.status.Incident? && Decide(w, db, v, flows).1 == Stop
  {
    ChoiceIsRight(w, flows, db.vars);
  }

  lemma ServiceParks(w: World, db: Db, v: Visit, next: Id)
    requires !Terminal(db.status) && !DriveService(w, db, v, next).1.Go?
    requires v in db.jobs && db.jobs[v].applied ==> Recorded(w, db, v).Some?
    ensures var (d, outcome) := DriveService(w, db, v, next);
            && (outcome.ToPark? ==> v in d.jobs && OpenAt(d, v) && !Terminal(d.status))
            && (outcome.Stop? ==> Terminal(d.status) || (d.status.Waiting? && OpenAt(d, v)))
  {
  }

  lemma LeafParks(w: World, db: Db, v: Visit)
    requires Closed(w) && Followable(w, db) && !Terminal(db.status) && v.el in w.nodes
    requires !Driven(w, db, v).1.Go?
    ensures Parked(Driven(w, db, v).0)
  {
    if v.occ < MAX_ELEMENT_OCCURRENCES {
      match w.nodes[v.el] {
        case Gateway(flows) =>
          if v in db.decisions { assert Known(w, Recorded(w, db, v)); }
          GatewayParks(w, db, v, flows);
        case Service(next) =>
          if v in db.jobs && db.jobs[v].applied { assert Known(w, Recorded(w, db, v)); }
          ServiceParks(w, db, v, next);
          assert OpenAt(DriveLeaf(w, db, v).0, v) ==> OpenAt(Driven(w, db, v).0, v);
        case _ =>
      }
    }
  }

  lemma {:induction false} PassParks(w: World, db: Db, visits: map<Id, nat>, cur: Id)
    requires WellFormed(w) && Closed(w) && Followable(w, db) && !Terminal(db.status) && cur in w.nodes
    ensures Parked(Pass(w, db, visits, cur))
    decreases |Remaining(w, visits)|
  {
    var v := Visit(cur, Count(visits, cur));
    PassUnfolds(w, db, visits, cur);
    if Driven(w, db, v).1.Go? {
      LeafFollowable(w, db, v);
      LeafGoesToNode(w, db, v);
      StaysLive(w, db, v);
      PassParks(w, Driven(w, db, v).0, visits[cur := v.occ + 1], Driven(w, db, v).1.next);
    } else {
      LeafParks(w, db, v);
    }
  }

  lemma IdealFollowable(w: World, k: nat)
    requires WellFormed(w) && Closed(w)
    ensures Followable(w, IdealAt(w, k).db)
  {
    forall a | Sound(w, a) && Followable(w, a.db) ensures Followable(w, IdealStep(w, a).db) { NextFollowable(w, a); }
    IdealInvariance(w, (a: Ideal) => Followable(w, a.db), k);
  }

  lemma NextFollowable(w: World, a: Ideal)
    requires WellFormed(w) && Closed(w) && Sound(w, a) && Followable(w, a.db)
    ensures Followable(w, IdealStep(w, a).db)
  {
    StepSound(w, a);
    StepFollowable(w, a, IdealStep(w, a).db);
  }

  lemma StepFollowable(w: World, a: Ideal, d: Db)
    requires WellFormed(w) && Closed(w) && Sound(w, a) && Followable(w, a.db)
    requires d == IdealStep(w, a).db && JobsOfServices(w, d)
    ensures Followable(w, d)
  {
    if !Terminal(a.db.status) {
      if !OpenAt(a.db, Frontier(a)) && DriveLeaf(w, a.db, Frontier(a)).1.Go? {
        LeafFollowable(w, a.db, Frontier(a));
        GoLeaf(w, a.db, Frontier(a));
        assert d == DriveLeaf(w, a.db, Frontier(a)).0;
      } else {
        StayFrame(w, a);
        FrameFollowable(w, a.db, d, Frontier(a));
      }
    }
  }

  lemma FrameFollowable(w: World, db: Db, d: Db, v: Visit)
    requires Followable(w, db) && SameElsewhere(db, d, v) && JobsOfServices(w, d)
    requires v !in d.decisions && (v in d.jobs ==> !d.jobs[v].applied)
    ensures Followable(w, d)
  {
    forall u <- d.decisions ensures u.el in w.nodes && w.nodes[u.el].Gateway? && Known(w, Recorded(w, d, u)) {
      assert SameAt(db, d, u);
      RecordedFrame(w, db, d, u);
    }
    forall u <- d.jobs | d.jobs[u].applied ensures Known(w, Recorded(w, d, u)) {
      assert SameAt(db, d, u);
      RecordedFrame(w, db, d, u);
    }
  }

  /** A step that does not move on changes the frontier's rows only, and records nothing there. */
  lemma StayFrame(w: World, a: Ideal)
    requires Sound(w, a) && !Terminal(a.db.status)
    requires OpenAt(a.db, Frontier(a)) || !DriveLeaf(w, a.db, Frontier(a)).1.Go?
    ensures var d := IdealStep(w, a).db; var v := Frontier(a);
            SameElsewhere(a.db, d, v) && v !in d.decisions && (v in d.jobs ==> !d.jobs[v].applied)
  {
    var v := Frontier(a);
    var d := IdealStep(w, a).db;
    if !OpenAt(a.db, v) {
      var db := DriveLeaf(w, a.db, v).0;
      LeafFrame(w, a.db, v);
      StayLeaf(w, a.db, v);
      forall u | u != v ensures SameAt(a.db, d, u) { assert SameAt(a.db, db, u); }
    }
  }

  /** Every drive of a live instance, from any state a crashing run can come to, ends with the instance waiting for the
      open job at its cursor, or ended: a drive never gets stuck. */
  lemma DriveParksOrEnds(w: World, run: seq<Config>)
    requires WellFormed(w) && Closed(w) && Run(w, run) && !Terminal(Last(run).db.status)
    ensures var db := Pass(w, Last(run).db, map[], w.start);
            Terminal(db.status) || (db.status.Waiting? && exists v :: OpenAt(db, v) && db.cursor == v.el)
  {
    RunRefines(w, run);
    var k: nat :| Refines(Last(run), IdealAt(w, k));
    IdealFollowable(w, k);
    QuietFollowable(w, Last(run).db);
    PassParks(w, Last(run).db, map[], w.start);
    PassRefines(w, Last(run), k);
    var db := Pass(w, Last(run).db, map[], w.start);
    var m: nat :| m >= k && Refines(Config(db, None), IdealAt(w, m));
    IdealSound(w, m);
    if !Terminal(db.status) { OpenAtCursor(w, db, IdealAt(w, m)); }
  }

  lemma QuietFollowable(w: World, db: Db)
    requires Followable(w, Quiet(db))
    ensures Followable(w, db)
  {
    forall v ensures Recorded(w, db, v) == Recorded(w, Quiet(db), v) { QuietRecorded(w, db, v); }
  }

  lemma OpenAtCursor(w: World, db: Db, a: Ideal)
    requires Sound(w, a) && Quiet(db) == a.db && !Terminal(db.status)
    ensures forall v :: OpenAt(db, v) ==> db.cursor == v.el
  {
    forall v | OpenAt(db, v) ensures db.cursor == v.el { assert v in a.db.jobs; }
  }

  // ---- The rows of one instance ------------------------------------------------------------

  class Instance {
    const w: World
    var vars: Vars
    var status: Status
    var cursor: Id
    var started: set<Visit>
    var jobs: map<Visit, Job>
    var decisions: map<Visit, Id>
    var snapshots: seq<Snapshot>
    var rejections: map<Id, nat>

    constructor (w: World)
      ensures this.w == w && Rows() == InitialDb(w)
    {
      this.w := w;
      vars, status, cursor := w.initial, Running, w.start;
      started, jobs, decisions, snapshots, rejections := {}, map[], map[], [], map[];
    }

    ghost function Rows(): Db
      reads this
    {
      Db(vars, status, cursor, started, jobs, decisions, snapshots, rejections)
    }

    method CreateIncident(el: Id, kind: IncidentKind)
      requires !Terminal(status)
      modifies this`status, this`cursor
      ensures Rows() == Raise(old(Rows()), el, kind)
    {
      status, cursor := Incident(kind), el;
    }

    method ParkWaiting(v: Visit)
      modifies this`status, this`cursor
      ensures Rows() == Park(old(Rows()), v)
    {
      if status.Waiting? && cursor == v.el { return; }
      if status.Waiting? && v in jobs && jobs[v].status.JobOpen? { return; }
      status, cursor := Waiting, v.el;
    }

    method EnterStart(v: Visit, next: Id) returns (outcome: Outcome)
      requires v.el in w.nodes && w.nodes[v.el] == Start(next) && v.occ < MAX_ELEMENT_OCCURRENCES
      modifies this`started, this`status, this`cursor
      ensures (Rows(), outcome) == Rewalk.DriveLeaf(w, old(Rows()), v)
    {
      if v !in started {
        started, status, cursor := started + {v}, Running, next;
      }
      outcome := Go(next);
    }

    /** The condition loop: document order, first true wins, the default flow is only a fallback. */
    method EvaluateFlows(outgoing: seq<Flow>) returns (choice: Choice)
      ensures choice == Choose(w, outgoing, vars) && Rightly(w, outgoing, vars, choice)
    {
      ChoiceIsRight(w, outgoing, vars);
      if |outgoing| == 1 { return Take(outgoing[0]); }
      var i := 0;
      while i < |outgoing|
        invariant 0 <= i <= |outgoing|
        invariant FirstMatch(w, outgoing, outgoing, vars) == FirstMatch(w, outgoing[i..], outgoing, vars)
      {
        var flow := outgoing[i];
        assert flow == outgoing[i..][0] && outgoing[i..][1..] == outgoing[i + 1..];
        if !flow.isDefault {
          if flow.condition.None? { return Malformed; }
          var evaluation := w.evaluate(flow.condition.value, vars);
          if evaluation.HardError? { return ConditionError; }
          if evaluation.Taken? { return Take(flow); }
        }
        i := i + 1;
      }
      choice := FindDefault(outgoing);
    }

    method FindDefault(outgoing: seq<Flow>) returns (choice: Choice)
      ensures choice == Fallback(outgoing)
    {
      for i := 0 to |outgoing|
        invariant Fallback(outgoing) == Fallback(outgoing[i..])
      {
        assert outgoing[i..][0] == outgoing[i] && outgoing[i..][1..] == outgoing[i + 1..];
        if outgoing[i].isDefault { return Take(outgoing[i]); }
      }
      choice := NoMatch;
    }

    method ChosenFlowTarget(outgoing: seq<Flow>, flowId: Id) returns (target: Option<Id>)
      ensures target == Target(outgoing, flowId)
    {
      for i := 0 to |outgoing|
        invariant Target(outgoing, flowId) == Target(outgoing[i..], flowId)
      {
        assert outgoing[i..][0] == outgoing[i] && outgoing[i..][1..] == outgoing[i + 1..];
        if outgoing[i].flowId == flowId { return Some(outgoing[i].targetId); }
      }
      target := None;
    }

    /** The batch of a decision: its plain INSERT aborts if the visit is decided already, and the winner is followed. */
    method RecordDecision(v: Visit, outgoing: seq<Flow>, flow: Flow) returns (outcome: Outcome)
      modifies this`decisions, this`status, this`cursor
      ensures v in old(decisions) ==> Rows() == old(Rows()) && outcome == Decide(w, old(Rows()), v, outgoing).1
      ensures v !in old(decisions) ==>
                Rows() == Advance(old(Rows()).(decisions := old(decisions)[v := flow.flowId]), flow.targetId)
                && outcome == Go(flow.targetId)
    {
      if v in decisions {
        var winner := ChosenFlowTarget(outgoing, decisions[v]);
        return if winner.Some? then Go(winner.value) else Stop;
      }
      decisions, status, cursor := decisions[v := flow.flowId], Running, flow.targetId;
      outcome := Go(flow.targetId);
    }

    method DecideGateway(v: Visit, outgoing: seq<Flow>) returns (outcome: Outcome)
      requires !Terminal(status)
      modifies this`decisions, this`status, this`cursor
      ensures (Rows(), outcome) == Decide(w, old(Rows()), v, outgoing)
      ensures v !in old(decisions) && v in decisions ==>
                exists i: nat :: Takes(w, outgoing, vars, i) && decisions[v] == outgoing[i].flowId
                                 && outcome == Go(outgoing[i].targetId)
    {
      outcome := Stop;
      if v in decisions {
        var recorded := ChosenFlowTarget(outgoing, decisions[v]);
        if recorded.Some? { outcome := Go(recorded.value); }
        return;
      }
      var choice := EvaluateFlows(outgoing);
      match choice {
        case Take(flow) => outcome := RecordDecision(v, outgoing, flow);
        case NoMatch => CreateIncident(v.el, NoPath);
        case ConditionError => CreateIncident(v.el, ConditionFailure);
        case Malformed =>
      }
    }

    method CreateForwardJob(v: Visit) returns (created: bool)
      requires !Terminal(status)
      modifies this`jobs, this`status, this`cursor
      ensures v in old(jobs) ==> created && Rows() == old(Rows())
      ensures v !in old(jobs) ==> (Rows(), if created then ToPark else Stop) == CreateJob(w, old(Rows()), v)
    {
      if v in jobs { return true; }
      if w.size(vars) > MAX_EVENT_PAYLOAD_BYTES {
        CreateIncident(v.el, ServiceTaskFailure);
        return false;
      }
      jobs := jobs[v := Job(JobOpen, vars, map[], None, false, 0)];
      created := true;
    }

    method ApplyForwardCompletion(v: Visit, next: Id) returns (outcome: Outcome)
      requires v in jobs && jobs[v].status.JobCompleted? && !jobs[v].applied && !Terminal(status)
      modifies this
      ensures (Rows(), outcome) == ApplyCompletion(w, old(Rows()), v, old(jobs[v]), next)
      ensures outcome == Stop ==> vars == old(vars)
      ensures outcome != Stop ==> outcome == Go(next) && Overlaid(old(vars), old(jobs[v]).output, vars)
      ensures forall merged :: Overlaid(old(vars), old(jobs[v]).output, merged) ==>
                (outcome == Go(next) <==> w.size(merged) <= MAX_EVENT_PAYLOAD_BYTES)
    {
      var job := jobs[v];
      MergeOverlays(vars, job.output);
      var merged := Merge(vars, job.output);
      if w.size(merged) > MAX_EVENT_PAYLOAD_BYTES {
        var strike := Count(rejections, v.el) + 1;
        if strike >= POISON_THRESHOLD {
          CreateIncident(v.el, Poison);
        } else {
          jobs := jobs[v := job.(status := JobOpen, output := map[])];
          rejections, status, cursor := rejections[v.el := strike], Waiting, v.el;
        }
        return Stop;
      }
      snapshots := snapshots + [Snapshot(v, job.output)];
      vars, status, cursor := merged, Running, next;
      jobs := jobs[v := job.(applied := true)];
      outcome := Go(next);
    }

    method HandleForwardFailure(v: Visit) returns (outcome: Outcome)
      requires v in jobs && jobs[v].status.JobFailed? && !jobs[v].applied && !Terminal(status)
      modifies this
      ensures (Rows(), outcome) == HandleFailure(w, old(Rows()), v, old(jobs[v]))
    {
      var job := jobs[v];
      if job.errorCode.Some? {
        var target := w.route(v.el, job.errorCode.value);
        if target.Some? {
          status, cursor := Running, target.value;
          jobs := jobs[v := job.(applied := true)];
          return Go(target.value);
        }
      }
      CreateIncident(v.el, ServiceTaskFailure);
      outcome := Stop;
    }

    method AppliedForwardOutcome(v: Visit, next: Id) returns (outcome: Outcome)
      requires v in jobs && jobs[v].applied && v.el in w.nodes && w.nodes[v.el] == Service(next)
      ensures (Rows(), outcome) == DriveService(w, Rows(), v, next)
    {
      if jobs[v].status.JobCompleted? { return Go(next); }
      if jobs[v].errorCode.Some? {
        var target := w.route(v.el, jobs[v].errorCode.value);
        if target.Some? { return Go(target.value); }
      }
      outcome := Stop;
    }

    method DriveForwardServiceTask(v: Visit, next: Id) returns (outcome: Outcome)
      requires v.el in w.nodes && w.nodes[v.el] == Service(next) && v.occ < MAX_ELEMENT_OCCURRENCES && !Terminal(status)
      modifies this
      ensures (Rows(), outcome) == Driven(w, old(Rows()), v)
    {
      if v in jobs && jobs[v].applied {
        outcome := AppliedForwardOutcome(v, next);
        return;
      }
      if v in jobs && jobs[v].status.JobCompleted? {
        outcome := ApplyForwardCompletion(v, next);
        return;
      }
      if v in jobs && jobs[v].status.JobFailed? {
        outcome := HandleForwardFailure(v);
        return;
      }
      if v !in jobs {
        var created := CreateForwardJob(v);
        if !created { return Stop; }
      }
      ParkWaiting(v);
      outcome := Stop;
    }

    method DriveLeaf(v: Visit) returns (outcome: Outcome)
      requires v.el in w.nodes && v.occ < MAX_ELEMENT_OCCURRENCES && !Terminal(status)
      modifies this
      ensures (Rows(), outcome) == Driven(w, old(Rows()), v)
    {
      match w.nodes[v.el] {
        case Start(next) => outcome := EnterStart(v, next);
        case Service(next) => outcome := DriveForwardServiceTask(v, next);
        case Gateway(outgoing) => outcome := DecideGateway(v, outgoing);
        case End =>
          status, cursor := Completed, v.el;
          outcome := Stop;
      }
    }

    /** One pass of `loop`: it ends on every graph, cyclic ones included, and drives no element more often than the cap
        admits (the precondition of DriveLeaf). */
    method Loop()
      requires !Terminal(status)
      modifies this
      ensures Rows() == Pass(w, old(Rows()), map[], w.start)
    {
      var visits: map<Id, nat> := map[];
      var cur := w.start;
      while true
        invariant !Terminal(status)
        invariant Pass(w, old(Rows()), map[], w.start) == Pass(w, Rows(), visits, cur)
        decreases |Remaining(w, visits)|
      {
        if cur !in w.nodes { return; }
        var occ := Count(visits, cur);
        if occ >= MAX_ELEMENT_OCCURRENCES {
          CreateIncident(cur, LoopLimit);
          return;
        }
        PassUnfolds(w, Rows(), visits, cur);
        StaysLive(w, Rows(), Visit(cur, occ));
        var outcome := DriveLeaf(Visit(cur, occ));
        if !outcome.Go? { return; }
        visits := visits[cur := occ + 1];
        cur := outcome.next;
      }
    }
  }
}
