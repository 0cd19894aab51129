/** Any number of interleaved walks deciding exclusive gateways while the variables change between their reads and
    their batches (src/runtime/engine.ts:1155-1305). */
module ConcurrentWalks {
  import opened Prelude
  import opened Rewalk
  import opened Refinement

  /** The graph, and the recorded successor of every visit that is not a gateway's. */
  datatype Setting = Setting(world: World, onward: Visit -> Option<Id>)

  /** Between reading that no decision is recorded and committing its own, a walk holds the flow it chose. */
  datatype Phase = Walking | Chosen(flow: Flow) | Stopped

  datatype Walker = Walker(trail: seq<Id>, cur: Id, phase: Phase)

  datatype State = State(decisions: map<Visit, Id>, vars: Vars, walks: map<nat, Walker>)

  datatype Event = Begin(a: nat) | Pass(a: nat) | Read(a: nat) | Commit(a: nat) | Change(vars: Vars)

  function Standing(k: Walker): Visit {
    Visit(k.cur, multiset(k.trail)[k.cur])
  }

  function Moved(k: Walker, next: Id): Walker {
    Walker(k.trail + [k.cur], next, Walking)
  }

  predicate AtGateway(g: Setting, id: Id) {
    id in g.world.nodes && g.world.nodes[id].Gateway?
  }

  /** Follow the recorded flow of the visit `k` stands at. */
  function Followed(g: Setting, decisions: map<Visit, Id>, k: Walker): Walker {
    if !AtGateway(g, k.cur) || Standing(k) !in decisions then k.(phase := Stopped)
    else match Target(g.world.nodes[k.cur].outgoing, decisions[Standing(k)])
      case Some(next) => Moved(k, next)
      case None => k.(phase := Stopped)
  }

  function AfterRead(g: Setting, s: State, k: Walker): Walker {
    if Standing(k) in s.decisions then Followed(g, s.decisions, k)
    else if !AtGateway(g, k.cur) then k.(phase := Stopped)
    else match Choose(g.world, g.world.nodes[k.cur].outgoing, s.vars)
      case Take(f) => k.(phase := Chosen(f))
      case _ => k.(phase := Stopped)
  }

  /** The plain INSERT of the decision row: the batch of a walk that comes second aborts, and it follows the record. */
  function Inserted(s: State, k: Walker, f: Flow): map<Visit, Id> {
    if Standing(k) in s.decisions then s.decisions else s.decisions[Standing(k) := f.flowId]
  }

  ghost predicate Step(g: Setting, s: State, e: Event, s': State) {
    match e
      case Begin(a) => a !in s.walks && s' == s.(walks := s.walks[a := Walker([], g.world.start, Walking)])
      case Pass(a) =>
        && a in s.walks && s.walks[a].phase == Walking && !AtGateway(g, s.walks[a].cur)
        && g.onward(Standing(s.walks[a])).Some?
        && s' == s.(walks := s.walks[a := Moved(s.walks[a], g.onward(Standing(s.walks[a])).value)])
      case Read(a) =>
        && a in s.walks && s.walks[a].phase == Walking && AtGateway(g, s.walks[a].cur)
        && s' == s.(walks := s.walks[a := AfterRead(g, s, s.walks[a])])
      case Commit(a) =>
        && a in s.walks && s.walks[a].phase.Chosen?
        && var k := s.walks[a];
           s' == s.(decisions := Inserted(s, k, k.phase.flow),
                    walks := s.walks[a := if Standing(k) in s.decisions then Followed(g, s.decisions, k)
                                          else Moved(k, k.phase.flow.targetId)])
      case Change(vars) => s' == s.(vars := vars)
  }

  ghost function Stepping(g: Setting): (State, State) -> bool {
    (s, s') => exists e :: Step(g, s, e, s')
  }

  ghost predicate Run(g: Setting, run: seq<State>) {
    && WellFormed(g.world) && |run| > 0 && run[0].walks == map[] && run[0].decisions == map[]
    && Steps(Stepping(g), run)
  }

  // ---- Walks follow the record -----------------------------------------------------------------

  function Route(k: Walker): seq<Id> {
    k.trail + [k.cur]
  }

  /** Where the record sends visit `v`. */
  function Successor(g: Setting, decisions: map<Visit, Id>, v: Visit): Option<Id> {
    if AtGateway(g, v.el) then
      if v in decisions then Target(g.world.nodes[v.el].outgoing, decisions[v]) else None
    else g.onward(v)
  }

  ghost predicate Follows(g: Setting, decisions: map<Visit, Id>, k: Walker) {
    && Route(k)[0] == g.world.start
    && forall i: nat {:trigger VisitAt(k.trail, i)} :: i < |k.trail| ==>
         Successor(g, decisions, VisitAt(k.trail, i)) == Some(Route(k)[i + 1])
  }

  ghost predicate Keeps(decisions: map<Visit, Id>, later: map<Visit, Id>) {
    forall v <- decisions :: v in later && later[v] == decisions[v]
  }

  /** What is known of one walk: it follows the record, and a flow it holds is one of its gateway's. */
  ghost predicate WalkSound(g: Setting, decisions: map<Visit, Id>, k: Walker) {
    && Follows(g, decisions, k)
    && (k.phase.Chosen? ==>
          (AtGateway(g, k.cur)
           && Target(g.world.nodes[k.cur].outgoing, k.phase.flow.flowId) == Some(k.phase.flow.targetId)))
  }

  ghost predicate Sound(g: Setting, s: State) {
    WellFormed(g.world) && forall a <- s.walks :: WalkSound(g, s.decisions, s.walks[a])
  }

  lemma MovedFollows(g: Setting, decisions: map<Visit, Id>, k: Walker, next: Id)
    requires Follows(g, decisions, k) && Successor(g, decisions, Standing(k)) == Some(next)
    ensures Follows(g, decisions, Moved(k, next))
  {
    var m := Moved(k, next);
    TrailExtended(k.trail, k.cur);
    forall i: nat | i < |m.trail| ensures Successor(g, decisions, VisitAt(m.trail, i)) == Some(Route(m)[i + 1]) {
      assert i < |k.trail| ==> VisitAt(k.trail, i) == VisitAt(m.trail, i) && Route(m)[i + 1] == Route(k)[i + 1];
    }
  }

  lemma LaterFollows(g: Setting, decisions: map<Visit, Id>, later: map<Visit, Id>, k: Walker)
    requires WalkSound(g, decisions, k) && Keeps(decisions, later)
    ensures WalkSound(g, later, k)
  {
  }

  lemma StepKeepsDecisions(g: Setting, s: State, e: Event, s': State)
    requires Step(g, s, e, s')
    ensures Keeps(s.decisions, s'.decisions)
  {
  }

  lemma StepKeepsWalk(g: Setting, s: State, e: Event, s': State, a: nat)
    requires Sound(g, s) && Step(g, s, e, s') && a in s'.walks
    ensures WalkSound(g, s'.decisions, s'.walks[a])
  {
    StepKeepsDecisions(g, s, e, s');
    if a in s.walks {
      var k := s.walks[a];
      assert WalkSound(g, s.decisions, k);
      LaterFollows(g, s.decisions, s'.decisions, k);
      if s'.walks[a].trail != k.trail { MovedFollows(g, s'.decisions, k, s'.walks[a].cur); }
      if e.Read? && e.a == a && s'.walks[a].phase.Chosen? {
        ChosenTarget(g.world, g.world.nodes[k.cur].outgoing, s.vars);
      }
    }
  }

  lemma StepKeepsSound(g: Setting, s: State, s': State)
    requires Sound(g, s) && Stepping(g)(s, s')
    ensures Sound(g, s') && Keeps(s.decisions, s'.decisions)
  {
    var e :| Step(g, s, e, s');
    StepKeepsDecisions(g, s, e, s');
    forall a <- s'.walks ensures WalkSound(g, s'.decisions, s'.walks[a]) { StepKeepsWalk(g, s, e, s', a); }
  }

  lemma RunSound(g: Setting, run: seq<State>, n: nat)
    requires Run(g, run) && n < |run|
    ensures Sound(g, run[n])
  {
    forall s, s' | Sound(g, s) && Stepping(g)(s, s') ensures Sound(g, s') { StepKeepsSound(g, s, s'); }
    Invariance(Stepping(g), s => Sound(g, s), run, 0, n);
  }

  /** A recorded choice never changes. */
  lemma DecisionsFinal(g: Setting, run: seq<State>, i: nat, j: nat)
    requires Run(g, run) && i <= j < |run|
    ensures Keeps(run[i].decisions, run[j].decisions)
  {
    RunSound(g, run, i);
    var d := run[i].decisions;
    forall s, s' | SoundSince(g, d, s) && Stepping(g)(s, s') ensures SoundSince(g, d, s') { StepKeepsSound(g, s, s'); }
    Invariance(Stepping(g), s => SoundSince(g, d, s), run, i, j);
  }

  ghost predicate SoundSince(g: Setting, decisions: map<Visit, Id>, s: State) {
    Sound(g, s) && Keeps(decisions, s.decisions)
  }

  /** Two walks that follow one record agree as far as both have come. */
  lemma {:induction false} SameRecordSameRoute(g: Setting, decisions: map<Visit, Id>, k: Walker, l: Walker, i: nat)
    requires Follows(g, decisions, k) && Follows(g, decisions, l) && i < |Route(k)| && i < |Route(l)|
    ensures Route(k)[..i + 1] == Route(l)[..i + 1]
  {
    if i > 0 {
      SameRecordSameRoute(g, decisions, k, l, i - 1);
      assert k.trail[..i - 1] == Route(k)[..i][..i - 1] && l.trail[..i - 1] == Route(l)[..i][..i - 1];
      assert k.trail[i - 1] == Route(k)[..i][i - 1] && l.trail[i - 1] == Route(l)[..i][i - 1];
      assert VisitAt(k.trail, i - 1) == VisitAt(l.trail, i - 1);
      assert Route(k)[i] == Route(l)[i];
      assert Route(k)[..i + 1] == Route(k)[..i] + [Route(k)[i]];
      assert Route(l)[..i + 1] == Route(l)[..i] + [Route(l)[i]];
    }
  }

  /** Concurrent walks never diverge: of any two walks, at the same time or at different times, one's route so far is
      a prefix of the other's, whatever the variables were when they read. */
  lemma RoutesComparable(g: Setting, run: seq<State>, i: nat, j: nat, a: nat, b: nat)
    requires Run(g, run) && i <= j < |run| && a in run[i].walks && b in run[j].walks
    ensures var k := Route(run[i].walks[a]); var l := Route(run[j].walks[b]);
            k <= l || l <= k
  {
    RunSound(g, run, i);
    RunSound(g, run, j);
    DecisionsFinal(g, run, i, j);
    var k, l := run[i].walks[a], run[j].walks[b];
    assert WalkSound(g, run[i].decisions, k) && WalkSound(g, run[j].decisions, l);
    LaterFollows(g, run[i].decisions, run[j].decisions, k);
    var n := if |k.trail| <= |l.trail| then |k.trail| else |l.trail|;
    SameRecordSameRoute(g, run[j].decisions, k, l, n);
    assert Route(k)[..|k.trail| + 1] == Route(k) && Route(l)[..|l.trail| + 1] == Route(l);
  }

  // ---- Every decision was right when it was read -----------------------------------------------

  /** Some state of the run up to the n-th held variables under which the gateway at `v` takes the flow `flowId`. */
  ghost predicate WasRight(g: Setting, run: seq<State>, n: nat, v: Visit, flowId: Id) {
    exists m: nat, i: nat ::
      m <= n && m < |run| && AtGateway(g, v.el)
      && Takes(g.world, g.world.nodes[v.el].outgoing, run[m].vars, i)
      && g.world.nodes[v.el].outgoing[i].flowId == flowId
  }

  /** Some state up to the n-th had the gateway at `v` undecided and variables under which it takes no flow. */
  ghost predicate HadNoFlow(g: Setting, run: seq<State>, n: nat, v: Visit) {
    exists m: nat ::
      m <= n && m < |run| && AtGateway(g, v.el) && v !in run[m].decisions
      && forall i: nat :: !Takes(g.world, g.world.nodes[v.el].outgoing, run[m].vars, i)
  }

  /** Decisions and held choices were right, and a walk stands still only where no flow could be taken. */
  ghost predicate AllRight(g: Setting, run: seq<State>, n: nat) {
    && n < |run|
    && (forall a <- run[n].walks :: run[n].walks[a].phase.Stopped? ==>
          HadNoFlow(g, run, n, Standing(run[n].walks[a])))
    && (forall v <- run[n].decisions :: WasRight(g, run, n, v, run[n].decisions[v]))
    && forall a <- run[n].walks :: run[n].walks[a].phase.Chosen? ==>
         WasRight(g, run, n, Standing(run[n].walks[a]), run[n].walks[a].phase.flow.flowId)
  }

  lemma StillRight(g: Setting, run: seq<State>, n: nat, v: Visit, flowId: Id)
    requires WasRight(g, run, n, v, flowId)
    ensures WasRight(g, run, n + 1, v, flowId)
  {
  }

  lemma StillNoFlow(g: Setting, run: seq<State>, n: nat, v: Visit)
    requires HadNoFlow(g, run, n, v)
    ensures HadNoFlow(g, run, n + 1, v)
  {
  }

  /** A decided visit is never left standing: its recorded flow is one of the gateway's. */
  lemma FollowsRight(g: Setting, run: seq<State>, n: nat, k: Walker)
    requires n < |run| && Standing(k) in run[n].decisions
             && WasRight(g, run, n, Standing(k), run[n].decisions[Standing(k)])
    ensures !Followed(g, run[n].decisions, k).phase.Stopped?
  {
    TargetIs(g.world.nodes[k.cur].outgoing, run[n].decisions[Standing(k)]);
  }

  lemma StopIsRight(g: Setting, run: seq<State>, n: nat, k: Walker)
    requires n < |run| && AtGateway(g, k.cur) && AfterRead(g, run[n], k).phase.Stopped?
    requires forall v <- run[n].decisions :: WasRight(g, run, n, v, run[n].decisions[v])
    ensures HadNoFlow(g, run, n, Standing(k))
  {
    var flows := g.world.nodes[k.cur].outgoing;
    if Standing(k) in run[n].decisions {
      FollowsRight(g, run, n, k);
    } else {
      forall i: nat ensures !Takes(g.world, flows, run[n].vars, i) {
        if Takes(g.world, flows, run[n].vars, i) { ChooseExactly(g.world, flows, run[n].vars, Take(flows[i])); }
      }
    }
  }

  lemma ReadIsRight(g: Setting, run: seq<State>, n: nat, k: Walker)
    requires n < |run| && AtGateway(g, k.cur) && AfterRead(g, run[n], k).phase.Chosen? && !k.phase.Chosen?
    ensures WasRight(g, run, n, Standing(k), AfterRead(g, run[n], k).phase.flow.flowId)
  {
    ChoiceIsRight(g.world, g.world.nodes[k.cur].outgoing, run[n].vars);
    var f := AfterRead(g, run[n], k).phase.flow;
    var i: nat :| Takes(g.world, g.world.nodes[k.cur].outgoing, run[n].vars, i)
                  && g.world.nodes[k.cur].outgoing[i] == f;
  }

  lemma StepStaysRight(g: Setting, run: seq<State>, n: nat, e: Event)
    requires AllRight(g, run, n) && n + 1 < |run| && Step(g, run[n], e, run[n + 1])
    ensures AllRight(g, run, n + 1)
  {
    var s, s' := run[n], run[n + 1];
    forall v <- s'.decisions ensures WasRight(g, run, n + 1, v, s'.decisions[v]) {
      if v in s.decisions { StillRight(g, run, n, v, s.decisions[v]); }
      if v !in s.decisions { StillRight(g, run, n, v, s.walks[e.a].phase.flow.flowId); }
    }
    forall a <- s'.walks | s'.walks[a].phase.Stopped? ensures HadNoFlow(g, run, n + 1, Standing(s'.walks[a])) {
      if e.Read? && e.a == a { StopIsRight(g, run, n, s.walks[a]); }
      if e.Commit? && e.a == a && Standing(s.walks[a]) in s.decisions { FollowsRight(g, run, n, s.walks[a]); }
      StillNoFlow(g, run, n, Standing(s'.walks[a]));
    }
    forall a <- s'.walks | s'.walks[a].phase.Chosen?
      ensures WasRight(g, run, n + 1, Standing(s'.walks[a]), s'.walks[a].phase.flow.flowId)
    {
      if e.Read? && e.a == a { ReadIsRight(g, run, n, s.walks[a]); }
      StillRight(g, run, n, Standing(s'.walks[a]), s'.walks[a].phase.flow.flowId);
    }
  }

  /** However the walks interleave and the variables change, every recorded choice is the one its gateway makes under
      the variables of some moment before, and no walk stops but at a gateway that had no flow to take. */
  lemma {:induction false} DecisionsWereRight(g: Setting, run: seq<State>, n: nat)
    requires Run(g, run) && n < |run|
    ensures AllRight(g, run, n)
  {
    if n > 0 {
      DecisionsWereRight(g, run, n - 1);
      assert Stepping(g)(run[n - 1], run[n - 1 + 1]);
      var e :| Step(g, run[n - 1], e, run[n]);
      StepStaysRight(g, run, n - 1, e);
    }
  }
}
