/** The race for one visit of a service task guarded by an interrupting boundary timer: job completion, business-error
    routing, retry exhaustion and the timer all read first and then commit one batch holding a plain INSERT of the
    timer outcome (src/runtime/boundary-timer.ts, src/runtime/forward-task.ts). */
module BoundaryTimer {
  import opened Prelude

  type Id = string

  datatype TimerOutcome = Fired | Cancelled

  datatype JobStatus = Live | Completed | Failed

  /** The forward job of the visit; `applied` marks that its effect was routed or merged. */
  datatype Job = Job(status: JobStatus, error: Option<string>, applied: bool)

  /** Where a token leaves the visit: the boundary's flow, the host's own flow, or an error boundary's target. */
  datatype Way = ToBoundary | ToNext | ToError(target: Id)

  /** The rows of the visit. `merges` counts output merges and `claims` committed batches that hold the claim. */
  datatype Rows = Rows(outcome: Option<TimerOutcome>, timer: Option<TimerOutcome>, job: Job,
                       cursor: Option<Way>, merges: nat, claims: nat)

  /** The error boundary that catches a business error code, if any. */
  type Routing = string -> Option<Id>

  // ---- The batches -----------------------------------------------------------------------------

  function Claimed(r: Rows, o: TimerOutcome): Rows {
    r.(outcome := Some(o), timer := if r.timer.None? then Some(o) else r.timer, claims := r.claims + 1)
  }

  /** Completion: claim, merge, advance and mark applied together, or nothing at all. */
  function CompletionBatch(r: Rows): Rows {
    if r.outcome.Some? then r
    else Claimed(r, Cancelled).(merges := r.merges + 1, cursor := Some(ToNext), job := r.job.(applied := true))
  }

  function RouteBatch(r: Rows, target: Id): Rows {
    if r.outcome.Some? then r
    else Claimed(r, Cancelled).(cursor := Some(ToError(target)), job := r.job.(applied := true))
  }

  function SettleBatch(r: Rows): Rows {
    if r.outcome.Some? then r else Claimed(r, Cancelled)
  }

  /** Firing: claim, abandon a job still live, and advance on the boundary path. */
  function FireBatch(r: Rows): Rows {
    if r.outcome.Some? then r
    else Claimed(r, Fired).(cursor := Some(ToBoundary),
                            job := if r.job.status.Live? then r.job.(status := Failed) else r.job)
  }

  // ---- The actors ------------------------------------------------------------------------------

  datatype Intent = Complete | Route(target: Id) | Exhaust

  datatype Answer = Advance(way: Way) | Waits | Hazard | Skipped | Thrown

  /** A drive (Begun, Checked, Ready, then Confirmed once it has re-read the job) or a timer alarm (Planned, on the
      alarm path or inline on a wake). */
  datatype Phase =
    | Begun
    | Checked
    | Ready(intent: Intent)
    | Confirmed(intent: Intent)
    | Planned(onWake: bool)
    | Ended(answer: Answer)

  datatype State = State(rows: Rows, actors: map<nat, Phase>)

  /** The way an applied visit went, re-derived from its job row. */
  function AppliedAnswer(route: Routing, job: Job): Answer {
    if job.status.Completed? then Advance(ToNext)
    else if job.status.Failed? && job.error.Some? && route(job.error.value).Some? then
      Advance(ToError(route(job.error.value).value))
    else Thrown
  }

  function OnJob(route: Routing, job: Job): Phase {
    if job.applied then Ended(AppliedAnswer(route, job))
    else match job.status
      case Completed => Ready(Complete)
      case Failed =>
        if job.error.Some? && route(job.error.value).Some? then Ready(Route(route(job.error.value).value))
        else Ready(Exhaust)
      case Live => Ended(Waits)
  }

  function Committed(r: Rows, intent: Intent): Rows {
    match intent
      case Complete => CompletionBatch(r)
      case Route(target) => RouteBatch(r, target)
      case Exhaust => SettleBatch(r)
  }

  /** What a drive does after its batch committed, or aborted on the claim and was converted to the recorded outcome. */
  function CommitAnswer(r: Rows, intent: Intent): Answer {
    match r.outcome
      case Some(Fired) => Advance(ToBoundary)
      case Some(Cancelled) => if intent.Exhaust? then Hazard else Thrown
      case None =>
        match intent
          case Complete => Advance(ToNext)
          case Route(target) => Advance(ToError(target))
          case Exhaust => Hazard
  }

  function FireAnswer(r: Rows, onWake: bool): Answer {
    match r.outcome
      case None => Advance(ToBoundary)
      case Some(Fired) => if onWake then Advance(ToBoundary) else Skipped
      case Some(Cancelled) => Skipped
  }

  datatype Event =
    | Worker(report: Option<Option<string>>)
    | Begin(a: nat)
    | ReadOutcome(a: nat)
    | ReadJob(a: nat)
    | Recheck(a: nat)
    | Commit(a: nat)
    | Plan(a: nat, onWake: bool)
    | Fire(a: nat)

  ghost predicate At(s: State, a: nat, p: Phase) {
    a in s.actors && s.actors[a] == p
  }

  /** A worker settles a live job: it completes, or fails with or without a business code. */
  function Worked(job: Job, report: Option<Option<string>>): Job {
    match report
      case None => job.(status := Completed)
      case Some(code) => job.(status := Failed, error := code)
  }

  ghost predicate Step(route: Routing, s: State, e: Event, s': State) {
    match e
      case Worker(report) => s.rows.job.status.Live? && s' == s.(rows := s.rows.(job := Worked(s.rows.job, report)))
      case Begin(a) => a !in s.actors && s' == s.(actors := s.actors[a := Begun])
      case ReadOutcome(a) =>
        && At(s, a, Begun)
        && s' == s.(actors := s.actors[a := if s.rows.outcome == Some(Fired) then Ended(Advance(ToBoundary))
                                            else Checked])
      case ReadJob(a) => At(s, a, Checked) && s' == s.(actors := s.actors[a := OnJob(route, s.rows.job)])
      case Recheck(a) =>
        && a in s.actors && s.actors[a].Ready?
        && s' == s.(actors := s.actors[a := if s.rows.job.applied then Ended(AppliedAnswer(route, s.rows.job))
                                            else Confirmed(s.actors[a].intent)])
      case Commit(a) =>
        && a in s.actors && s.actors[a].Confirmed?
        && s' == State(Committed(s.rows, s.actors[a].intent),
                       s.actors[a := Ended(CommitAnswer(s.rows, s.actors[a].intent))])
      case Plan(a, onWake) =>
        && a !in s.actors && s.rows.outcome.None?
        && s' == s.(actors := s.actors[a := if s.rows.job.status.Live? then Planned(onWake) else Ended(Skipped)])
      case Fire(a) =>
        && a in s.actors && s.actors[a].Planned?
        && s' == State(FireBatch(s.rows), s.actors[a := Ended(FireAnswer(s.rows, s.actors[a].onWake))])
  }

  ghost function Stepping(route: Routing): (State, State) -> bool {
    (s, s') => exists e :: Step(route, s, e, s')
  }

  function Armed(): State {
    State(Rows(None, None, Job(Live, None, false), None, 0, 0), map[])
  }

  ghost predicate Run(route: Routing, run: seq<State>) {
    |run| > 0 && run[0] == Armed() && Steps(Stepping(route), run)
  }

  // ---- What every interleaving keeps -----------------------------------------------------------

  ghost predicate RowsSound(route: Routing, r: Rows) {
    && r.claims == (if r.outcome.Some? then 1 else 0)
    && r.timer == r.outcome
    && r.merges == (if r.job.applied && r.job.status.Completed? then 1 else 0)
    && (r.job.applied ==> r.outcome == Some(Cancelled) && AppliedAnswer(route, r.job).Advance?
                          && r.cursor == Some(AppliedAnswer(route, r.job).way))
    && (r.outcome == Some(Fired) ==> r.cursor == Some(ToBoundary))
    && (r.cursor.Some? ==> r.job.applied || r.outcome == Some(Fired))
    && (r.outcome.Some? ==> !r.job.status.Live?)
  }

  /** The job failed, and no error boundary catches its failure. */
  ghost predicate Uncaught(route: Routing, job: Job) {
    job.status.Failed? && (job.error.None? || route(job.error.value).None?)
  }

  /** The settled job row calls for `intent`. */
  ghost predicate OnVisit(route: Routing, r: Rows, intent: Intent) {
    match intent
      case Complete => r.job.status.Completed?
      case Route(target) =>
        r.job.status.Failed? && r.job.error.Some? && route(r.job.error.value) == Some(target)
      case Exhaust => Uncaught(route, r.job)
  }

  /** What an actor's phase says about the rows, now and for good. */
  ghost predicate PhaseSound(route: Routing, r: Rows, p: Phase) {
    match p
      case Ready(intent) => OnVisit(route, r, intent)
      case Confirmed(intent) => OnVisit(route, r, intent)
      case Ended(Advance(way)) => r.cursor == Some(way)
      case Ended(Hazard) => r.outcome == Some(Cancelled) && !r.job.applied && Uncaught(route, r.job)
      case _ => true
  }

  ghost predicate Sound(route: Routing, s: State) {
    RowsSound(route, s.rows) && forall a <- s.actors :: PhaseSound(route, s.rows, s.actors[a])
  }

  lemma StepKeepsRows(route: Routing, s: State, e: Event, s': State)
    requires Sound(route, s) && Step(route, s, e, s')
    ensures RowsSound(route, s'.rows)
  {
  }

  lemma StepKeepsPhase(route: Routing, s: State, e: Event, s': State, a: nat)
    requires Sound(route, s) && Step(route, s, e, s') && a in s'.actors
    ensures PhaseSound(route, s'.rows, s'.actors[a])
  {
  }

  lemma StepKeepsSound(route: Routing, s: State, s': State)
    requires Sound(route, s) && Stepping(route)(s, s')
    ensures Sound(route, s')
  {
    var e :| Step(route, s, e, s');
    StepKeepsRows(route, s, e, s');
    forall a <- s'.actors ensures PhaseSound(route, s'.rows, s'.actors[a]) { StepKeepsPhase(route, s, e, s', a); }
  }

  lemma RunSound(route: Routing, run: seq<State>, n: nat)
    requires Run(route, run) && n < |run|
    ensures Sound(route, run[n])
  {
    forall s, s' | Sound(route, s) && Stepping(route)(s, s') ensures Sound(route, s') { StepKeepsSound(route, s, s'); }
    Invariance(Stepping(route), s => Sound(route, s), run, 0, n);
  }

  // ---- The race --------------------------------------------------------------------------------

  /** At most one claim-carrying batch commits, and the output is merged at most once and only if the timer was
      cancelled. */
  lemma OneWinner(route: Routing, run: seq<State>, n: nat)
    requires Run(route, run) && n < |run|
    ensures run[n].rows.claims <= 1 && run[n].rows.merges <= 1
    ensures run[n].rows.merges == 1 ==> run[n].rows.outcome == Some(Cancelled) && run[n].rows.cursor == Some(ToNext)
  {
    RunSound(route, run, n);
  }

  /** All walks that leave the visit leave it the same way, and on the boundary path exactly if the timer fired. */
  lemma WalksAgree(route: Routing, run: seq<State>, n: nat, a: nat, b: nat, way: Way, other: Way)
    requires Run(route, run) && n < |run| && At(run[n], a, Ended(Advance(way))) && At(run[n], b, Ended(Advance(other)))
    ensures way == other && (way == ToBoundary <==> run[n].rows.outcome == Some(Fired))
  {
    RunSound(route, run, n);
    assert PhaseSound(route, run[n].rows, run[n].actors[a]) && PhaseSound(route, run[n].rows, run[n].actors[b]);
  }

  /** The way a token has left by tells what happened: the boundary path that the timer fired, the host's own flow that
      the job completed and its output was merged, an error path that the job failed with a code caught there. */
  lemma WayExplained(route: Routing, run: seq<State>, n: nat)
    requires Run(route, run) && n < |run| && run[n].rows.cursor.Some?
    ensures var r := run[n].rows;
            match r.cursor.value
            case ToBoundary => r.outcome == Some(Fired) && r.merges == 0
            case ToNext => r.outcome == Some(Cancelled) && r.job.status.Completed? && r.merges == 1
            case ToError(target) =>
              && r.outcome == Some(Cancelled) && r.job.status.Failed? && r.merges == 0
              && r.job.error.Some? && route(r.job.error.value) == Some(target)
  {
    RunSound(route, run, n);
  }

  /** A walk raises the exhaustion incident only if the job failed, nothing catches the failure and the timer has not
      fired; a failure that is caught never ends so. */
  lemma HazardExplained(route: Routing, run: seq<State>, n: nat, a: nat)
    requires Run(route, run) && n < |run| && At(run[n], a, Ended(Hazard))
    ensures var r := run[n].rows;
            && r.outcome == Some(Cancelled) && r.cursor.None? && r.job.status.Failed?
            && (r.job.error.Some? ==> route(r.job.error.value).None?)
  {
    RunSound(route, run, n);
    assert PhaseSound(route, run[n].rows, run[n].actors[a]);
  }

  /** Once an outcome is recorded the rows are final: every batch that comes later loses its claim and changes
      nothing. */
  lemma DecisionFinal(route: Routing, run: seq<State>, i: nat, j: nat)
    requires Run(route, run) && i <= j < |run| && run[i].rows.outcome.Some?
    ensures run[j].rows == run[i].rows
  {
    RunSound(route, run, i);
    var rows := run[i].rows;
    forall s, s' | Decided(route, s, rows) && Stepping(route)(s, s') ensures Decided(route, s', rows) {
      StepKeepsSound(route, s, s');
    }
    Invariance(Stepping(route), s => Decided(route, s, rows), run, i, j);
  }

  ghost predicate Decided(route: Routing, s: State, rows: Rows) {
    Sound(route, s) && s.rows == rows && rows.outcome.Some?
  }

  /** Once the token has left the visit, every later drive repeats the way it took without writing. */
  lemma LaterDriveFollows(route: Routing, s: State, a: nat) returns (s': State)
    requires Sound(route, s) && s.rows.cursor.Some? && a !in s.actors
    ensures Reaches(Stepping(route), s, s') && s'.rows == s.rows && At(s', a, Ended(Advance(s.rows.cursor.value)))
    ensures s.rows.outcome == Some(Fired) <==> At(s', a, Ended(Advance(ToBoundary)))
  {
    var begun := s.(actors := s.actors[a := Begun]);
    assert Step(route, s, Begin(a), begun);
    ReachesOne(Stepping(route), s, begun);
    var p := if s.rows.outcome == Some(Fired) then Ended(Advance(ToBoundary)) else Checked;
    s' := s.(actors := s.actors[a := p]);
    assert s' == begun.(actors := begun.actors[a := p]);
    assert Step(route, begun, ReadOutcome(a), s');
    ReachesOne(Stepping(route), begun, s');
    ReachesOn(Stepping(route), s, begun, s');
    if p == Checked {
      var checked := s';
      s' := s.(actors := s.actors[a := OnJob(route, s.rows.job)]);
      assert s' == checked.(actors := checked.actors[a := OnJob(route, s.rows.job)]);
      assert Step(route, checked, ReadJob(a), s');
      ReachesOne(Stepping(route), checked, s');
      ReachesOn(Stepping(route), s, checked, s');
    }
  }

  // ---- The rows as the source changes them -----------------------------------------------------

  class Visit {
    const route: Routing
    var outcome: Option<TimerOutcome>
    var timer: Option<TimerOutcome>
    var job: Job
    var cursor: Option<Way>
    var merges: nat
    ghost var claims: nat

    constructor (route: Routing)
      ensures this.route == route && Current() == Armed().rows
    {
      this.route := route;
      outcome, timer, job, cursor, merges, claims := None, None, Job(Live, None, false), None, 0, 0;
    }

    ghost function Current(): Rows
      reads this
    {
      Rows(outcome, timer, job, cursor, merges, claims)
    }

    /** The plain INSERT of the outcome with its bookkeeping flip; a second insert aborts the caller's batch. */
    method Claim(o: TimerOutcome) returns (inserted: bool)
      modifies this`outcome, this`timer, this`claims
      ensures inserted == old(outcome).None?
      ensures Current() == if inserted then Claimed(old(Current()), o) else old(Current())
    {
      if outcome.Some? { return false; }
      outcome, claims := Some(o), claims + 1;
      if timer.None? { timer := Some(o); }
      inserted := true;
    }

    method ConvertOnFire() returns (way: Option<Way>)
      ensures way == if outcome == Some(Fired) then Some(ToBoundary) else None
    {
      way := if outcome == Some(Fired) then Some(ToBoundary) else None;
    }

    method ApplyForwardCompletion() returns (answer: Answer)
      modifies this
      ensures Current() == if old(job).applied then old(Current()) else CompletionBatch(old(Current()))
      ensures answer == if old(job).applied then AppliedAnswer(route, old(job))
                        else CommitAnswer(old(Current()), Complete)
    {
      if job.applied { return AppliedAnswer(route, job); }
      var inserted := Claim(Cancelled);
      if !inserted {
        var way := ConvertOnFire();
        return if way.Some? then Advance(way.value) else Thrown;
      }
      merges, cursor, job := merges + 1, Some(ToNext), job.(applied := true);
      answer := Advance(ToNext);
    }

    method RouteBusinessError(target: Id) returns (answer: Answer)
      modifies this
      ensures Current() == if old(job).applied then old(Current()) else RouteBatch(old(Current()), target)
      ensures answer == if old(job).applied then AppliedAnswer(route, old(job))
                        else CommitAnswer(old(Current()), Route(target))
    {
      if job.applied { return AppliedAnswer(route, job); }
      var inserted := Claim(Cancelled);
      if !inserted {
        var way := ConvertOnFire();
        return if way.Some? then Advance(way.value) else Thrown;
      }
      cursor, job := Some(ToError(target)), job.(applied := true);
      answer := Advance(ToError(target));
    }

    method SettleBoundaryTimerCancel() returns (answer: Answer)
      modifies this`outcome, this`timer, this`claims
      ensures Current() == SettleBatch(old(Current())) && answer == CommitAnswer(old(Current()), Exhaust)
    {
      if outcome == Some(Fired) { return Advance(ToBoundary); }
      if outcome == Some(Cancelled) { return Hazard; }
      var inserted := Claim(Cancelled);
      answer := Hazard;
    }

    method CommitFire(onWake: bool) returns (answer: Answer)
      modifies this
      ensures Current() == FireBatch(old(Current())) && answer == FireAnswer(old(Current()), onWake)
      ensures old(outcome).None? ==>
                outcome == Some(Fired) && cursor == Some(ToBoundary) && !job.status.Live? && merges == old(merges)
      ensures answer == Advance(ToBoundary) || answer == Skipped
      ensures answer == Advance(ToBoundary) <==>
                if onWake then outcome == Some(Fired) else old(outcome).None?
    {
      var inserted := Claim(Fired);
      if !inserted {
        if !onWake { return Skipped; }
        var way := ConvertOnFire();
        return if way.Some? then Advance(way.value) else Skipped;
      }
      if job.status.Live? { job := job.(status := Failed); }
      cursor := Some(ToBoundary);
      answer := Advance(ToBoundary);
    }

    /** The lost-alarm backstop: settle an overdue timer inline, re-park an early wake, or fall through. */
    method SettleOverdueOnWake(now: int, fireAt: int) returns (answer: Answer)
      modifies this
      ensures answer == (if old(outcome) == Some(Fired) then Advance(ToBoundary)
                         else if old(outcome).Some? || old(timer).Some? then Skipped
                         else if now < fireAt then Waits
                         else if old(job).status.Live? then Advance(ToBoundary) else Skipped)
      ensures Current() == if old(outcome).None? && old(timer).None? && now >= fireAt && old(job).status.Live?
                           then FireBatch(old(Current())) else old(Current())
    {
      if outcome == Some(Fired) { return Advance(ToBoundary); }
      if outcome.Some? || timer.Some? { return Skipped; }
      if now < fireAt { return Waits; }
      if !job.status.Live? { return Skipped; }
      answer := CommitFire(true);
    }

    /** A drive of the visit with nothing in between: it stays put exactly while the job is live. */
    method DriveForwardServiceTask() returns (answer: Answer)
      requires RowsSound(route, Current())
      modifies this
      ensures RowsSound(route, Current())
      ensures Current() == if old(outcome) != Some(Fired) && OnJob(route, old(job)).Ready?
                           then Committed(old(Current()), OnJob(route, old(job)).intent) else old(Current())
      ensures old(outcome) == Some(Fired) ==> answer == Advance(ToBoundary)
      ensures old(outcome).None? && old(job).status.Completed? ==>
                answer == Advance(ToNext) && outcome == Some(Cancelled) && job.applied && merges == old(merges) + 1
      ensures old(outcome).None? && old(job).status.Failed? && !Uncaught(route, old(job)) ==>
                answer == Advance(ToError(route(old(job).error.value).value))
                && outcome == Some(Cancelled) && job.applied && merges == old(merges)
      ensures old(outcome).None? && Uncaught(route, old(job)) ==>
                answer == Hazard && outcome == Some(Cancelled) && cursor.None? && !job.applied && merges == old(merges)
      ensures answer == Waits <==> old(outcome) != Some(Fired) && old(job).status.Live?
      ensures answer.Advance? ==> cursor == Some(answer.way) && (answer.way == ToBoundary <==> outcome == Some(Fired))
      ensures answer == Thrown ==> old(outcome) == Some(Cancelled) && !old(job).applied && Current() == old(Current())
    {
      if outcome == Some(Fired) { return Advance(ToBoundary); }
      if job.applied { return AppliedAnswer(route, job); }
      if job.status.Completed? { answer := ApplyForwardCompletion(); return; }
      if job.status.Live? { return Waits; }
      if job.error.Some? && route(job.error.value).Some? {
        answer := RouteBusinessError(route(job.error.value).value);
        return;
      }
      answer := SettleBoundaryTimerCancel();
    }
  }
}
