/** The crash-recovering walk of src/runtime/engine.ts and src/runtime/forward-task.ts over single-token graphs of
    start events, service tasks, exclusive gateways and end events. A drive re-walks from the start, counts visits
    in memory and fast-forwards over visits whose effects are already in the database. */
module Rewalk {
  import opened Prelude

  type Id = string

  /** Process variables as a JSON object; later sources win when merged (src/util.ts:66-71). */
  type Vars = map<string, string>

  /** Loop-iteration cap (src/runtime/engine.ts:166). */
  const MAX_ELEMENT_OCCURRENCES: nat := 1000

  /** Payload limit in bytes (src/runtime/payload.ts:7). */
  const MAX_EVENT_PAYLOAD_BYTES: nat := 1_000_000

  datatype Flow = Flow(flowId: Id, targetId: Id, condition: Option<string>, isDefault: bool)

  datatype Node =
    | Start(next: Id)
    | Service(next: Id)
    | Gateway(outgoing: seq<Flow>)
    | End

  /** One visit of an element: the `occurrence`-th arrival counted from the start of the walk. */
  datatype Visit = Visit(el: Id, occ: nat)

  datatype Evaluation = Taken | NotTaken | HardError

  /** What the worker of a job reports once its retry budget is settled. */
  datatype Report = Output(output: Vars) | BusinessError(code: string) | Exhausted

  /** The graph, and everything foreign as functions: condition evaluation, payload size, error-boundary routing and
      the answer a worker gives to the n-th attempt at a visit. */
  datatype World = World(start: Id, nodes: map<Id, Node>, initial: Vars,
                         evaluate: (string, Vars) -> Evaluation, size: Vars -> nat,
                         route: (Id, string) -> Option<Id>, worker: (Visit, nat) -> Report)

  datatype IncidentKind = LoopLimit | NoPath | ConditionFailure | Poison | ServiceTaskFailure

  datatype Status = Running | Waiting | Completed | Incident(kind: IncidentKind)

  predicate Terminal(s: Status) {
    s.Completed? || s.Incident?
  }

  datatype JobStatus = JobOpen | JobCompleted | JobFailed

  /** A forward job row. `reports` counts the worker reports it has received. */
  datatype Job = Job(status: JobStatus, input: Vars, output: Vars, errorCode: Option<string>, applied: bool,
                     reports: nat)

  datatype Snapshot = Snapshot(visit: Visit, output: Vars)

  /** The database rows of one instance that the walk reads and writes. */
  datatype Db = Db(vars: Vars, status: Status, cursor: Id, started: set<Visit>, jobs: map<Visit, Job>,
                   decisions: map<Visit, Id>, snapshots: seq<Snapshot>, rejections: map<Id, nat>)

  /** The in-memory state of a drive. */
  datatype Walk = Walk(visits: map<Id, nat>, cur: Id, parking: bool)

  function Count(m: map<Id, nat>, id: Id): nat {
    if id in m then m[id] else 0
  }

  function Merge(base: Vars, overlay: Vars): Vars {
    base + overlay
  }

  /** `after` holds the bindings of `output`, and otherwise those of `before`. */
  ghost predicate Overlaid(before: Vars, output: Vars, after: Vars) {
    && (forall x :: x in after <==> x in before || x in output)
    && (forall x <- output :: x in after && after[x] == output[x])
    && forall x <- before :: x !in output ==> x in after && after[x] == before[x]
  }

  /** A merge overlays the output, and nothing else does. */
  lemma MergeOverlays(base: Vars, overlay: Vars)
    ensures forall vars :: Overlaid(base, overlay, vars) <==> vars == Merge(base, overlay)
  {
    forall vars | Overlaid(base, overlay, vars) ensures vars == Merge(base, overlay) {
      assert vars.Keys == Merge(base, overlay).Keys;
    }
  }

  // ---- Exclusive gateways (BPMN 2.0.2 section 13.4.2) ------------------------------------

  datatype Choice = Take(flow: Flow) | NoMatch | ConditionError | Malformed

  /** First non-default flow in document order whose condition holds, else the default flow. */
  function Choose(w: World, outgoing: seq<Flow>, vars: Vars): Choice {
    if |outgoing| == 1 then Take(outgoing[0]) else FirstMatch(w, outgoing, outgoing, vars)
  }

  function FirstMatch(w: World, rest: seq<Flow>, all: seq<Flow>, vars: Vars): Choice {
    if rest == [] then Fallback(all)
    else if rest[0].isDefault then FirstMatch(w, rest[1..], all, vars)
    else if rest[0].condition.None? then Malformed
    else match w.evaluate(rest[0].condition.value, vars)
      case Taken => Take(rest[0])
      case HardError => ConditionError
      case NotTaken => FirstMatch(w, rest[1..], all, vars)
  }

  function Fallback(flows: seq<Flow>): Choice {
    if flows == [] then NoMatch
    else if flows[0].isDefault then Take(flows[0])
    else Fallback(flows[1..])
  }

  function Target(outgoing: seq<Flow>, flowId: Id): Option<Id> {
    if outgoing == [] then None
    else if outgoing[0].flowId == flowId then Some(outgoing[0].targetId)
    else Target(outgoing[1..], flowId)
  }

  /** The choice described without recursion: `i` is the first non-default flow that is not plainly untaken. */
  ghost predicate Decides(w: World, flows: seq<Flow>, vars: Vars, i: nat) {
    && i < |flows| && !flows[i].isDefault
    && (flows[i].condition.None? || w.evaluate(flows[i].condition.value, vars) != NotTaken)
    && forall k :: 0 <= k < i && !flows[k].isDefault ==>
         flows[k].condition.Some? && w.evaluate(flows[k].condition.value, vars) == NotTaken
  }

  lemma {:induction false} FirstMatchDecides(w: World, rest: seq<Flow>, all: seq<Flow>, vars: Vars, i: nat)
    requires Decides(w, rest, vars, i)
    ensures FirstMatch(w, rest, all, vars) ==
              if rest[i].condition.None? then Malformed
              else if w.evaluate(rest[i].condition.value, vars) == Taken then Take(rest[i])
              else ConditionError
    decreases i
  {
    if i > 0 {
      assert Decides(w, rest[1..], vars, i - 1) by {
        forall k | 0 <= k < i - 1 && !rest[1..][k].isDefault
          ensures rest[1..][k].condition.Some? && w.evaluate(rest[1..][k].condition.value, vars) == NotTaken
        {
          assert rest[1..][k] == rest[k + 1];
        }
      }
      FirstMatchDecides(w, rest[1..], all, vars, i - 1);
    }
  }

  lemma {:induction false} FirstMatchFallsBack(w: World, rest: seq<Flow>, all: seq<Flow>, vars: Vars)
    requires forall i: nat :: !Decides(w, rest, vars, i)
    ensures FirstMatch(w, rest, all, vars) == Fallback(all)
    decreases |rest|
  {
    if rest != [] {
      assert !Decides(w, rest, vars, 0);
      forall i: nat ensures !Decides(w, rest[1..], vars, i) {
        if Decides(w, rest[1..], vars, i) {
          forall k | 0 <= k < i + 1 && !rest[k].isDefault
            ensures rest[k].condition.Some? && w.evaluate(rest[k].condition.value, vars) == NotTaken
          {
            if k > 0 { assert rest[k] == rest[1..][k - 1]; }
          }
          assert Decides(w, rest, vars, i + 1);
        }
      }
      FirstMatchFallsBack(w, rest[1..], all, vars);
    }
  }

  lemma {:induction false} FallbackIsFirstDefault(flows: seq<Flow>)
    ensures match Fallback(flows)
              case Take(f) => exists i :: 0 <= i < |flows| && flows[i] == f && f.isDefault
                                          && forall k :: 0 <= k < i ==> !flows[k].isDefault
              case NoMatch => forall i :: 0 <= i < |flows| ==> !flows[i].isDefault
              case _ => false
  {
    if flows != [] && !flows[0].isDefault {
      FallbackIsFirstDefault(flows[1..]);
      if Fallback(flows).Take? {
        var i :| 0 <= i < |flows[1..]| && flows[1..][i] == Fallback(flows).flow
                 && forall k :: 0 <= k < i ==> !flows[1..][k].isDefault;
        forall k | 0 <= k < i + 1 ensures !flows[k].isDefault {
          if k > 0 { assert flows[k] == flows[1..][k - 1]; }
        }
        assert flows[i + 1] == Fallback(flows).flow;
      } else {
        forall k | 0 <= k < |flows| ensures !flows[k].isDefault {
          if k > 0 { assert flows[k] == flows[1..][k - 1]; }
        }
      }
    }
  }

  /** No condition of a non-default flow holds. */
  ghost predicate AllUntaken(w: World, flows: seq<Flow>, vars: Vars) {
    forall f <- flows :: !f.isDefault ==> f.condition.Some? && w.evaluate(f.condition.value, vars) == NotTaken
  }

  /** A gateway with these flows sends the token along flow `i`: the only one; the first non-default one that is not
      plainly untaken, if it is taken; or the first default one if all others are untaken. */
  ghost predicate Takes(w: World, flows: seq<Flow>, vars: Vars, i: nat) {
    && i < |flows|
    && (|| |flows| == 1
        || (Decides(w, flows, vars, i) && flows[i].condition.Some?
            && w.evaluate(flows[i].condition.value, vars) == Taken)
        || (flows[i].isDefault && (forall k :: 0 <= k < i ==> !flows[k].isDefault) && AllUntaken(w, flows, vars)))
  }

  /** The answer a gateway has to give, in terms of its flows. */
  ghost predicate Rightly(w: World, flows: seq<Flow>, vars: Vars, choice: Choice) {
    match choice
      case Take(f) => exists i: nat :: Takes(w, flows, vars, i) && flows[i] == f
      case NoMatch => |flows| != 1 && AllUntaken(w, flows, vars) && forall f <- flows :: !f.isDefault
      case ConditionError =>
        |flows| != 1 && exists i: nat :: Decides(w, flows, vars, i) && flows[i].condition.Some?
                                    && w.evaluate(flows[i].condition.value, vars) == HardError
      case Malformed => |flows| != 1 && exists i: nat :: Decides(w, flows, vars, i) && flows[i].condition.None?
  }

  lemma {:induction false} SomeDecides(w: World, flows: seq<Flow>, vars: Vars)
    ensures AllUntaken(w, flows, vars) || exists i: nat :: Decides(w, flows, vars, i)
    decreases |flows|
  {
    if flows != [] {
      var n := |flows| - 1;
      SomeDecides(w, flows[..n], vars);
      if i: nat :| Decides(w, flows[..n], vars, i) {
        assert forall k :: 0 <= k <= i ==> flows[..n][k] == flows[k];
        assert Decides(w, flows, vars, i);
      } else if !AllUntaken(w, flows, vars) {
        assert forall k :: 0 <= k < n ==> flows[k] == flows[..n][k] && flows[k] in flows[..n];
        assert Decides(w, flows, vars, n);
      }
    }
  }

  /** The gateway answers rightly. */
  lemma ChoiceIsRight(w: World, flows: seq<Flow>, vars: Vars)
    ensures Rightly(w, flows, vars, Choose(w, flows, vars))
  {
    if |flows| == 1 {
      assert Takes(w, flows, vars, 0);
    } else if i: nat :| Decides(w, flows, vars, i) {
      FirstMatchDecides(w, flows, flows, vars, i);
      assert Choose(w, flows, vars).Take? ==> Takes(w, flows, vars, i);
    } else {
      SomeDecides(w, flows, vars);
      FirstMatchFallsBack(w, flows, flows, vars);
      FallbackIsFirstDefault(flows);
      if Choose(w, flows, vars).Take? {
        var f := Choose(w, flows, vars).flow;
        var i :| 0 <= i < |flows| && flows[i] == f && f.isDefault && forall k :: 0 <= k < i ==> !flows[k].isDefault;
        assert Takes(w, flows, vars, i);
      }
    }
  }

  /** Two flows cannot both be the one to take, nor can a flow be taken past the one that decides. */
  lemma RightOne(w: World, flows: seq<Flow>, vars: Vars, i: nat, j: nat)
    requires |flows| != 1 && Takes(w, flows, vars, i)
    ensures Takes(w, flows, vars, j) ==> i == j
    ensures Decides(w, flows, vars, j) ==> i == j
    ensures AllUntaken(w, flows, vars) ==> flows[i].isDefault
  {
    assert flows[i] in flows && (j < |flows| ==> flows[j] in flows);
  }

  lemma DecidesOne(w: World, flows: seq<Flow>, vars: Vars, i: nat, j: nat)
    requires Decides(w, flows, vars, i) && Decides(w, flows, vars, j)
    ensures i == j && !AllUntaken(w, flows, vars)
  {
    assert flows[i] in flows;
  }

  /** And no other answer would be right. */
  lemma ChooseExactly(w: World, flows: seq<Flow>, vars: Vars, choice: Choice)
    ensures choice == Choose(w, flows, vars) <==> Rightly(w, flows, vars, choice)
  {
    ChoiceIsRight(w, flows, vars);
    if |flows| != 1 && Rightly(w, flows, vars, choice) {
      forall i: nat, j: nat | Takes(w, flows, vars, i)
        ensures (Takes(w, flows, vars, j) || Decides(w, flows, vars, j) ==> i == j)
                && (AllUntaken(w, flows, vars) ==> flows[i].isDefault && flows[i] in flows)
      {
        RightOne(w, flows, vars, i, j);
      }
      forall i: nat, j: nat | Decides(w, flows, vars, i) && Decides(w, flows, vars, j)
        ensures i == j && !AllUntaken(w, flows, vars)
      {
        DecidesOne(w, flows, vars, i, j);
      }
    }
  }

  // ---- One leaf of the walk --------------------------------------------------------------

  /** How a drive goes on after one database batch: `ToPark` leaves the park as a second batch of the same leaf. */
  datatype Outcome = Go(next: Id) | ToPark | Stop

  /** The write-free successor of a visit whose effects are already recorded. */
  function Recorded(w: World, db: Db, v: Visit): Option<Id> {
    if v.el !in w.nodes then None
    else match w.nodes[v.el]
      case Start(next) => if v in db.started then Some(next) else None
      case Gateway(outgoing) => if v in db.decisions then Target(outgoing, db.decisions[v]) else None
      case Service(next) =>
        if v in db.jobs && db.jobs[v].applied then
          if db.jobs[v].status.JobCompleted? then Some(next)
          else if db.jobs[v].errorCode.Some? then w.route(v.el, db.jobs[v].errorCode.value)
          else None
        else None
      case End => None
  }

  function Raise(db: Db, el: Id, kind: IncidentKind): Db {
    db.(status := Incident(kind), cursor := el)
  }

  function Advance(db: Db, next: Id): Db {
    db.(status := Running, cursor := next)
  }

  function Decide(w: World, db: Db, v: Visit, outgoing: seq<Flow>): (Db, Outcome) {
    if v in db.decisions then
      match Target(outgoing, db.decisions[v])
        case Some(t) => (db, Go(t))
        case None => (db, Stop)
    else
      match Choose(w, outgoing, db.vars)
        case Take(f) => (Advance(db.(decisions := db.decisions[v := f.flowId]), f.targetId), Go(f.targetId))
        case NoMatch => (Raise(db, v.el, NoPath), Stop)
        case ConditionError => (Raise(db, v.el, ConditionFailure), Stop)
        case Malformed => (db, Stop)
  }

  function CreateJob(w: World, db: Db, v: Visit): (Db, Outcome) {
    if w.size(db.vars) > MAX_EVENT_PAYLOAD_BYTES then (Raise(db, v.el, ServiceTaskFailure), Stop)
    else (db.(jobs := db.jobs[v := Job(JobOpen, db.vars, map[], None, false, 0)]), ToPark)
  }

  /** Parking is write-free once the instance waits here (src/runtime/forward-task.ts:267-272,
      src/runtime/incidents.ts:27-42). */
  function Park(db: Db, v: Visit): Db {
    if db.status.Waiting? && (db.cursor == v.el || (v in db.jobs && db.jobs[v].status.JobOpen?)) then db
    else db.(status := Waiting, cursor := v.el)
  }

  /** Merge a completed output, or reopen the job if the merge breaches the payload limit. */
  function ApplyCompletion(w: World, db: Db, v: Visit, job: Job, next: Id): (Db, Outcome) {
    var merged := Merge(db.vars, job.output);
    if w.size(merged) > MAX_EVENT_PAYLOAD_BYTES then
      var strike := Count(db.rejections, v.el) + 1;
      if strike >= POISON_THRESHOLD then (Raise(db, v.el, Poison), Stop)
      else (db.(jobs := db.jobs[v := job.(status := JobOpen, output := map[])],
                rejections := db.rejections[v.el := strike], status := Waiting, cursor := v.el), Stop)
    else
      (Advance(db.(vars := merged, jobs := db.jobs[v := job.(applied := true)],
                   snapshots := db.snapshots + [Snapshot(v, job.output)]), next), Go(next))
  }

  function HandleFailure(w: World, db: Db, v: Visit, job: Job): (Db, Outcome) {
    if job.errorCode.Some? && w.route(v.el, job.errorCode.value).Some? then
      var target := w.route(v.el, job.errorCode.value).value;
      (Advance(db.(jobs := db.jobs[v := job.(applied := true)]), target), Go(target))
    else (Raise(db, v.el, ServiceTaskFailure), Stop)
  }

  function DriveService(w: World, db: Db, v: Visit, next: Id): (Db, Outcome) {
    if v !in db.jobs then CreateJob(w, db, v)
    else
      var job := db.jobs[v];
      if job.applied then
        match Recorded(w, db, v)
          case Some(t) => (db, Go(t))
          case None => (db, Stop)
      else match job.status
        case JobOpen => (Park(db, v), Stop)
        case JobCompleted => ApplyCompletion(w, db, v, job, next)
        case JobFailed => HandleFailure(w, db, v, job)
  }

  /** One iteration of the inner loop: drive the element under the cursor of the walk. */
  function DriveLeaf(w: World, db: Db, v: Visit): (Db, Outcome) {
    if v.el !in w.nodes then (db, Stop)
    else if v.occ >= MAX_ELEMENT_OCCURRENCES then (Raise(db, v.el, LoopLimit), Stop)
    else match w.nodes[v.el]
      case Start(next) =>
        if v in db.started then (db, Go(next))
        else (Advance(db.(started := db.started + {v}), next), Go(next))
      case Service(next) => DriveService(w, db, v, next)
      case Gateway(outgoing) => Decide(w, db, v, outgoing)
      case End => (db.(status := Completed, cursor := v.el), Stop)
  }

  // ---- Runs with crashes -----------------------------------------------------------------

  datatype Config = Config(db: Db, walk: Option<Walk>)

  function InitialDb(w: World): Db {
    Db(w.initial, Running, w.start, {}, map[], map[], [], map[])
  }

  function AtVisit(walk: Walk): Visit {
    Visit(walk.cur, Count(walk.visits, walk.cur))
  }

  /** One micro-step of the drive in progress: at most one database batch. */
  function DriveStep(w: World, db: Db, walk: Walk): Config {
    var v := AtVisit(walk);
    if walk.parking then Config(Park(db, v), None)
    else match DriveLeaf(w, db, v)
      case (db', Go(next)) => Config(db', Some(Walk(walk.visits[walk.cur := v.occ + 1], next, false)))
      case (db', ToPark) => Config(db', Some(walk.(parking := true)))
      case (db', Stop) => Config(db', None)
  }

  /** A worker report changes an open job row; its content is fixed by the visit and the attempt. */
  function ReportOn(w: World, job: Job, v: Visit): Job {
    match w.worker(v, job.reports)
      case Output(out) => job.(status := JobCompleted, output := out, reports := job.reports + 1)
      case BusinessError(code) => job.(status := JobFailed, errorCode := Some(code), reports := job.reports + 1)
      case Exhausted => job.(status := JobFailed, errorCode := None, reports := job.reports + 1)
  }

  datatype Event = Begin | Drive | Crash | WorkerReport(visit: Visit)

  ghost predicate Step(w: World, c: Config, e: Event, c': Config) {
    match e
      case Begin => c.walk.None? && !Terminal(c.db.status) && c' == Config(c.db, Some(Walk(map[], w.start, false)))
      case Drive => c.walk.Some? && c' == DriveStep(w, c.db, c.walk.value)
      case Crash => c' == Config(c.db, None)
      case WorkerReport(v) =>
        && !Terminal(c.db.status) && v in c.db.jobs && c.db.jobs[v].status.JobOpen?
        && c' == Config(c.db.(jobs := c.db.jobs[v := ReportOn(w, c.db.jobs[v], v)]), c.walk)
  }

  ghost function Stepping(w: World): (Config, Config) -> bool {
    (c, c') => exists e :: Step(w, c, e, c')
  }

  /** A run: configurations from the initial one, each reached from the one before by some event. */
  ghost predicate Run(w: World, run: seq<Config>) {
    |run| > 0 && run[0] == Config(InitialDb(w), None) && Steps(Stepping(w), run)
  }
}
