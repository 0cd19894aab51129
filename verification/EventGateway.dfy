/** The race at one parked visit of an event-based gateway (BPMN 2.0.2 section 13.4.4): any number of message drives and
    the timer each read first and commit one batch holding a plain INSERT of the decision row
    (src/runtime/event-gateway.ts). */
module EventGateway {
  import opened Prelude

  type Id = string

  type Vars = map<string, string>

  datatype Catch = Message(name: string) | Timer | Other

  /** An outgoing flow with its target catch and that catch's single successor. */
  datatype Branch = Branch(flowId: Id, catchId: Id, kind: Catch, next: Id)

  datatype SubStatus = Active | Consumed | Superseded

  datatype TimerStatus = Armed | TimerFired | TimerCancelled

  datatype Merge = Merge(flowId: Id, payload: Vars)

  /** The rows of the visit; `merged` lists the payloads merged so far. */
  datatype Rows = Rows(decision: Option<Id>, subs: map<Id, SubStatus>, timer: TimerStatus, vars: Vars,
                       cursor: Option<Id>, merged: seq<Merge>)

  // ---- Branches --------------------------------------------------------------------------------

  function Messages(outgoing: seq<Branch>): seq<Branch> {
    if outgoing == [] then []
    else Messages(outgoing[..|outgoing| - 1])
         + if outgoing[|outgoing| - 1].kind.Message? then [outgoing[|outgoing| - 1]] else []
  }

  /** The timer branch; the last one if the validator's limit of one were broken. */
  function TimerBranch(outgoing: seq<Branch>): Option<Branch> {
    if outgoing == [] then None
    else if outgoing[|outgoing| - 1].kind.Timer? then Some(outgoing[|outgoing| - 1])
    else TimerBranch(outgoing[..|outgoing| - 1])
  }

  function WinnerNext(outgoing: seq<Branch>, flowId: Id): Option<Id> {
    if outgoing == [] then None
    else if outgoing[0].flowId == flowId then Some(outgoing[0].next)
    else WinnerNext(outgoing[1..], flowId)
  }

  ghost predicate DistinctFlows(outgoing: seq<Branch>) {
    forall i, j :: 0 <= i < j < |outgoing| ==> outgoing[i].flowId != outgoing[j].flowId
  }

  // ---- The batches -----------------------------------------------------------------------------

  /** Supersede the still active subscriptions of `catches`. */
  function Supersede(subs: map<Id, SubStatus>, catches: set<Id>): map<Id, SubStatus> {
    map c | c in subs :: if c in catches && subs[c].Active? then Superseded else subs[c]
  }

  function CatchIds(branches: seq<Branch>): set<Id> {
    set b | b in branches :: b.catchId
  }

  lemma SupersedeMore(subs: map<Id, SubStatus>, losers: set<Id>, c: Id)
    ensures var s := Supersede(subs, losers);
            Supersede(subs, losers + {c}) == if c in s && s[c].Active? then s[c := Superseded] else s
  {
  }

  lemma CatchIdsMore(branches: seq<Branch>, i: nat)
    requires i < |branches|
    ensures CatchIds(branches[..i + 1]) == CatchIds(branches[..i]) + {branches[i].catchId}
  {
  }

  function MessageBatch(outgoing: seq<Branch>, r: Rows, b: Branch, payload: Vars, base: Vars): Rows {
    if r.decision.Some? then r
    else
      var subs := if b.catchId in r.subs && r.subs[b.catchId].Active? then r.subs[b.catchId := Consumed] else r.subs;
      Rows(Some(b.flowId), Supersede(subs, CatchIds(Messages(outgoing)) - {b.catchId}),
           if TimerBranch(outgoing).Some? && r.timer.Armed? then TimerCancelled else r.timer,
           base + payload, Some(b.next), r.merged + [Merge(b.flowId, payload)])
  }

  function TimerBatch(outgoing: seq<Branch>, r: Rows, timer: Branch): Rows {
    if r.decision.Some? then r
    else r.(decision := Some(timer.flowId), subs := Supersede(r.subs, CatchIds(Messages(outgoing))),
            timer := if r.timer.Armed? then TimerFired else r.timer, cursor := Some(timer.next))
  }

  // ---- The actors ------------------------------------------------------------------------------

  datatype Answer = Advance(next: Id) | Waits | Skipped | Thrown

  /** A drive holds a message after it saw no decision (Ready, with the variables it read); a timer alarm is Planned. */
  datatype Phase = Begun | Looking | Ready(branch: Branch, payload: Vars, base: Vars) | Planned | Ended(answer: Answer)

  datatype State = State(rows: Rows, actors: map<nat, Phase>)

  function Recorded(outgoing: seq<Branch>, flowId: Id): Answer {
    match WinnerNext(outgoing, flowId)
      case Some(n) => Advance(n)
      case None => Thrown
  }

  datatype Event =
    | Begin(a: nat)
    | ReadDecision(a: nat)
    | Receive(a: nat, branch: Branch, payload: Vars)
    | Park(a: nat)
    | Commit(a: nat)
    | Plan(a: nat)
    | Fire(a: nat)

  ghost predicate At(s: State, a: nat, p: Phase) {
    a in s.actors && s.actors[a] == p
  }

  ghost predicate Step(outgoing: seq<Branch>, s: State, e: Event, s': State) {
    match e
      case Begin(a) => a !in s.actors && s' == s.(actors := s.actors[a := Begun])
      case ReadDecision(a) =>
        && At(s, a, Begun)
        && s' == s.(actors := s.actors[a := if s.rows.decision.Some?
                                            then Ended(Recorded(outgoing, s.rows.decision.value))
                                            else Looking])
      case Receive(a, b, payload) =>
        && At(s, a, Looking) && b in Messages(outgoing)
        && s' == s.(actors := s.actors[a := if s.rows.decision.Some?
                                            then Ended(Recorded(outgoing, s.rows.decision.value))
                                            else Ready(b, payload, s.rows.vars)])
      case Park(a) => At(s, a, Looking) && s' == s.(actors := s.actors[a := Ended(Waits)])
      case Commit(a) =>
        && a in s.actors && s.actors[a].Ready?
        && var p := s.actors[a];
           s' == State(MessageBatch(outgoing, s.rows, p.branch, p.payload, p.base),
                       s.actors[a := Ended(if s.rows.decision.Some? then Recorded(outgoing, s.rows.decision.value)
                                           else Advance(p.branch.next))])
      case Plan(a) =>
        && a !in s.actors && TimerBranch(outgoing).Some?
        && s' == s.(actors := s.actors[a := if s.rows.decision.Some? then Ended(Skipped) else Planned])
      case Fire(a) =>
        && At(s, a, Planned) && TimerBranch(outgoing).Some?
        && s' == State(TimerBatch(outgoing, s.rows, TimerBranch(outgoing).value),
                       s.actors[a := Ended(if s.rows.decision.Some? then Skipped
                                           else Advance(TimerBranch(outgoing).value.next))])
  }

  ghost function Stepping(outgoing: seq<Branch>): (State, State) -> bool {
    (s, s') => exists e :: Step(outgoing, s, e, s')
  }

  /** A parked visit: every message branch subscribed, the timer armed, nothing decided. */
  ghost predicate Parked(outgoing: seq<Branch>, s: State) {
    && s.rows.decision.None? && s.rows.cursor.None? && s.rows.merged == [] && s.actors == map[]
    && forall b <- Messages(outgoing) :: b.catchId in s.rows.subs && s.rows.subs[b.catchId].Active?
  }

  ghost predicate Run(outgoing: seq<Branch>, run: seq<State>) {
    DistinctFlows(outgoing) && |run| > 0 && Parked(outgoing, run[0]) && Steps(Stepping(outgoing), run)
  }

  // ---- Branch facts ----------------------------------------------------------------------------

  lemma {:induction false} MessagesAre(outgoing: seq<Branch>)
    ensures forall b :: b in Messages(outgoing) <==> b in outgoing && b.kind.Message?
  {
    if outgoing != [] {
      MessagesAre(outgoing[..|outgoing| - 1]);
      assert outgoing == outgoing[..|outgoing| - 1] + [outgoing[|outgoing| - 1]];
    }
  }

  lemma {:induction false} TimerBranchIs(outgoing: seq<Branch>)
    ensures TimerBranch(outgoing).Some? <==> exists b <- outgoing :: b.kind.Timer?
    ensures TimerBranch(outgoing).Some? ==>
            TimerBranch(outgoing).value in outgoing && TimerBranch(outgoing).value.kind.Timer?
  {
    if outgoing != [] {
      TimerBranchIs(outgoing[..|outgoing| - 1]);
      assert outgoing == outgoing[..|outgoing| - 1] + [outgoing[|outgoing| - 1]];
    }
  }

  lemma {:induction false} WinnerNextOf(outgoing: seq<Branch>, b: Branch)
    requires DistinctFlows(outgoing) && b in outgoing
    ensures WinnerNext(outgoing, b.flowId) == Some(b.next)
  {
    if outgoing[0] != b {
      var i :| 0 <= i < |outgoing| && outgoing[i] == b;
      assert outgoing[1..][i - 1] == b;
      WinnerNextOf(outgoing[1..], b);
    }
  }

  // ---- What every interleaving keeps -----------------------------------------------------------

  ghost predicate MessageCatch(outgoing: seq<Branch>, c: Id) {
    exists b <- outgoing :: b.kind.Message? && b.catchId == c
  }

  /** What the win of branch `b` makes of the subscription of catch `c`. */
  ghost predicate Resolved(outgoing: seq<Branch>, b: Branch, c: Id, before: SubStatus, after: SubStatus) {
    if b.kind.Message? && c == b.catchId then after == (if before.Active? then Consumed else before)
    else after == (if before.Active? && MessageCatch(outgoing, c) then Superseded else before)
  }

  /** The rows show that branch `b` won: its successor, its payload if it is a message, every other branch put to
      rest, and nothing else changed since `r0`. */
  ghost predicate Shows(outgoing: seq<Branch>, r: Rows, b: Branch, r0: Rows) {
    && r.decision == Some(b.flowId) && r.cursor == Some(b.next)
    && r.subs.Keys == r0.subs.Keys && (forall c <- r0.subs :: Resolved(outgoing, b, c, r0.subs[c], r.subs[c]))
    && match b.kind
       case Message(_) =>
         && |r.merged| == 1 && r.merged[0].flowId == b.flowId && r.vars == r0.vars + r.merged[0].payload
         && r.timer == (if r0.timer.Armed? && (exists x <- outgoing :: x.kind.Timer?) then TimerCancelled else r0.timer)
       case Timer =>
         r.merged == [] && r.vars == r0.vars && r.timer == (if r0.timer.Armed? then TimerFired else r0.timer)
       case Other => false
  }

  ghost predicate RowsSound(outgoing: seq<Branch>, r: Rows, r0: Rows) {
    && r0.decision.None? && r0.cursor.None? && r0.merged == []
    && if r.decision.None? then r == r0 else exists b <- outgoing :: Shows(outgoing, r, b, r0)
  }

  ghost predicate PhaseSound(outgoing: seq<Branch>, r: Rows, p: Phase, r0: Rows) {
    match p
      case Ready(b, _, base) => b in Messages(outgoing) && base == r0.vars
      case Ended(Advance(n)) => r.cursor == Some(n)
      case Ended(Thrown) => false
      case _ => true
  }

  ghost predicate Sound(outgoing: seq<Branch>, s: State, r0: Rows) {
    && DistinctFlows(outgoing) && RowsSound(outgoing, s.rows, r0)
    && forall a <- s.actors :: PhaseSound(outgoing, s.rows, s.actors[a], r0)
  }

  /** Following the record leads where the rows' cursor stands. */
  lemma RecordedIsCursor(outgoing: seq<Branch>, r: Rows, r0: Rows)
    requires DistinctFlows(outgoing) && RowsSound(outgoing, r, r0) && r.decision.Some?
    ensures Recorded(outgoing, r.decision.value).Advance? && r.cursor == Some(Recorded(outgoing, r.decision.value).next)
  {
    var b :| b in outgoing && Shows(outgoing, r, b, r0);
    WinnerNextOf(outgoing, b);
  }

  lemma LoserCatches(outgoing: seq<Branch>)
    ensures forall c :: c in CatchIds(Messages(outgoing)) <==> MessageCatch(outgoing, c)
  {
    MessagesAre(outgoing);
  }

  /** Consuming the winner's subscription and superseding those of the others resolves each one. */
  lemma SubsResolved(outgoing: seq<Branch>, b: Branch, subs: map<Id, SubStatus>, c: Id)
    requires b.kind.Message? && c in subs
    ensures var won := if b.catchId in subs && subs[b.catchId].Active? then subs[b.catchId := Consumed] else subs;
            var after := Supersede(won, CatchIds(Messages(outgoing)) - {b.catchId});
            after.Keys == subs.Keys && Resolved(outgoing, b, c, subs[c], after[c])
  {
    LoserCatches(outgoing);
  }

  lemma MessageBatchSound(outgoing: seq<Branch>, r: Rows, b: Branch, payload: Vars, r0: Rows)
    requires RowsSound(outgoing, r, r0) && r.decision.None? && b in Messages(outgoing)
    ensures RowsSound(outgoing, MessageBatch(outgoing, r, b, payload, r0.vars), r0)
  {
    MessagesAre(outgoing);
    TimerBranchIs(outgoing);
    var after := MessageBatch(outgoing, r, b, payload, r0.vars);
    forall c <- r0.subs ensures after.subs.Keys == r0.subs.Keys && Resolved(outgoing, b, c, r0.subs[c], after.subs[c]) {
      SubsResolved(outgoing, b, r0.subs, c);
    }
    assert b in outgoing && Shows(outgoing, after, b, r0);
  }

  lemma TimerBatchSound(outgoing: seq<Branch>, r: Rows, timer: Branch, r0: Rows)
    requires RowsSound(outgoing, r, r0) && r.decision.None? && TimerBranch(outgoing) == Some(timer)
    ensures RowsSound(outgoing, TimerBatch(outgoing, r, timer), r0)
  {
    TimerBranchIs(outgoing);
    LoserCatches(outgoing);
    assert timer in outgoing && Shows(outgoing, TimerBatch(outgoing, r, timer), timer, r0);
  }

  lemma StepKeepsRows(outgoing: seq<Branch>, s: State, e: Event, s': State, r0: Rows)
    requires Sound(outgoing, s, r0) && Step(outgoing, s, e, s')
    ensures RowsSound(outgoing, s'.rows, r0)
    ensures s.rows.decision.Some? ==> s'.rows == s.rows
  {
    if s.rows.decision.None? {
      if e.Commit? {
        assert PhaseSound(outgoing, s.rows, s.actors[e.a], r0);
        MessageBatchSound(outgoing, s.rows, s.actors[e.a].branch, s.actors[e.a].payload, r0);
      }
      if e.Fire? { TimerBatchSound(outgoing, s.rows, TimerBranch(outgoing).value, r0); }
    }
  }

  lemma StepKeepsPhase(outgoing: seq<Branch>, s: State, e: Event, s': State, r0: Rows, a: nat)
    requires Sound(outgoing, s, r0) && Step(outgoing, s, e, s') && a in s'.actors
    ensures PhaseSound(outgoing, s'.rows, s'.actors[a], r0)
  {
    StepKeepsRows(outgoing, s, e, s', r0);
    if s.rows.decision.Some? { RecordedIsCursor(outgoing, s.rows, r0); }
    if a in s.actors { assert PhaseSound(outgoing, s.rows, s.actors[a], r0); }
  }

  lemma StepKeepsSound(outgoing: seq<Branch>, s: State, s': State, r0: Rows)
    requires Sound(outgoing, s, r0) && Stepping(outgoing)(s, s')
    ensures Sound(outgoing, s', r0)
  {
    var e :| Step(outgoing, s, e, s');
    StepKeepsRows(outgoing, s, e, s', r0);
    forall a <- s'.actors ensures PhaseSound(outgoing, s'.rows, s'.actors[a], r0) {
      StepKeepsPhase(outgoing, s, e, s', r0, a);
    }
  }

  lemma RunSound(outgoing: seq<Branch>, run: seq<State>, n: nat)
    requires Run(outgoing, run) && n < |run|
    ensures Sound(outgoing, run[n], run[0].rows)
    ensures run[n].rows.decision.Some? ==>
              forall b <- Messages(outgoing) :: b.catchId in run[n].rows.subs ==>
                !run[n].rows.subs[b.catchId].Active?
  {
    var r0 := run[0].rows;
    MessagesAre(outgoing);
    forall s, s' | Sound(outgoing, s, r0) && Stepping(outgoing)(s, s') ensures Sound(outgoing, s', r0) {
      StepKeepsSound(outgoing, s, s', r0);
    }
    Invariance(Stepping(outgoing), s => Sound(outgoing, s, r0), run, 0, n);
  }

  // ---- The race --------------------------------------------------------------------------------

  /** Every actor that advances follows the recorded branch. */
  lemma RecordedBranchAdvances(outgoing: seq<Branch>, run: seq<State>, n: nat, a: nat, next: Id)
    requires Run(outgoing, run) && n < |run| && At(run[n], a, Ended(Advance(next)))
    ensures exists b <- outgoing :: run[n].rows.decision == Some(b.flowId) && b.next == next && !b.kind.Other?
  {
    RunSound(outgoing, run, n);
    assert PhaseSound(outgoing, run[n].rows, run[n].actors[a], run[0].rows);
    var b :| b in outgoing && Shows(outgoing, run[n].rows, b, run[0].rows);
  }

  lemma AdvancesAgree(outgoing: seq<Branch>, run: seq<State>, n: nat, a: nat, b: nat, next: Id, other: Id)
    requires Run(outgoing, run) && n < |run| && At(run[n], a, Ended(Advance(next)))
             && At(run[n], b, Ended(Advance(other)))
    ensures next == other
  {
    RunSound(outgoing, run, n);
    assert PhaseSound(outgoing, run[n].rows, run[n].actors[a], run[0].rows);
    assert PhaseSound(outgoing, run[n].rows, run[n].actors[b], run[0].rows);
  }

  /** A payload is merged at most once, exactly for a recorded message branch, and into the variables read. */
  lemma MergedOnlyForWinner(outgoing: seq<Branch>, run: seq<State>, n: nat)
    requires Run(outgoing, run) && n < |run|
    ensures var r := run[n].rows; var vars0 := run[0].rows.vars;
            if r.merged == [] then r.vars == vars0
            else |r.merged| == 1 && r.vars == vars0 + r.merged[0].payload && r.decision == Some(r.merged[0].flowId)
                 && exists b <- Messages(outgoing) :: b.flowId == r.merged[0].flowId
  {
    RunSound(outgoing, run, n);
    if run[n].rows.decision.Some? {
      var b :| b in outgoing && Shows(outgoing, run[n].rows, b, run[0].rows);
      MessagesAre(outgoing);
    }
  }

  /** Once a branch is recorded nothing changes the rows any more: every losing writer leaves the state as it is. */
  lemma DecidedRowsFinal(outgoing: seq<Branch>, run: seq<State>, i: nat, j: nat)
    requires Run(outgoing, run) && i <= j < |run| && run[i].rows.decision.Some?
    ensures run[j].rows == run[i].rows
  {
    RunSound(outgoing, run, i);
    var r0, rows := run[0].rows, run[i].rows;
    forall s, s' | Settled(outgoing, s, r0, rows) && Stepping(outgoing)(s, s')
      ensures Settled(outgoing, s', r0, rows)
    {
      StepKeepsSound(outgoing, s, s', r0);
      var e :| Step(outgoing, s, e, s');
      StepKeepsRows(outgoing, s, e, s', r0);
    }
    Invariance(Stepping(outgoing), s => Settled(outgoing, s, r0, rows), run, i, j);
  }

  ghost predicate Settled(outgoing: seq<Branch>, s: State, r0: Rows, rows: Rows) {
    Sound(outgoing, s, r0) && s.rows == rows && rows.decision.Some?
  }

  // ---- Which message a drive applies -----------------------------------------------------------

  /** The message delivered with this drive, if it bears the branch's name. */
  function PendingFor(b: Branch, pending: Option<(string, Vars)>): Option<Vars> {
    if pending.Some? && b.kind == Message(pending.value.0) then Some(pending.value.1) else None
  }

  /** The message the database shows as correlated with the branch's subscription. */
  function StoredFor(b: Branch, stored: map<Id, (string, Vars)>): Option<Vars> {
    if b.catchId in stored && b.kind == Message(stored[b.catchId].0) then Some(stored[b.catchId].1) else None
  }

  /** An early message the broker hands over when the branch, unless resolved, registers again. */
  function BufferedFor(b: Branch, subs: map<Id, SubStatus>, buffered: map<Id, Vars>): Option<Vars> {
    if b.catchId in buffered && (b.catchId in subs ==> subs[b.catchId].Active?) then Some(buffered[b.catchId]) else None
  }

  function FirstOffered(messages: seq<Branch>, offer: Branch -> Option<Vars>): Option<(Branch, Vars)> {
    if messages == [] then None
    else if offer(messages[0]).Some? then Some((messages[0], offer(messages[0]).value))
    else FirstOffered(messages[1..], offer)
  }

  function Delivered(messages: seq<Branch>, pending: Option<(string, Vars)>, stored: map<Id, (string, Vars)>,
                     subs: map<Id, SubStatus>, buffered: map<Id, Vars>): Option<(Branch, Vars)> {
    var first := FirstOffered(messages, b => PendingFor(b, pending));
    var second := FirstOffered(messages, b => StoredFor(b, stored));
    if first.Some? then first
    else if second.Some? then second
    else FirstOffered(messages, b => BufferedFor(b, subs, buffered))
  }

  /** The first branch in document order that is offered a message gets it. */
  lemma {:induction false} FirstOfferedIs(messages: seq<Branch>, offer: Branch -> Option<Vars>)
    ensures match FirstOffered(messages, offer)
              case None => forall b <- messages :: offer(b).None?
              case Some((b, payload)) =>
                exists i :: 0 <= i < |messages| && messages[i] == b && offer(b) == Some(payload)
                            && forall j :: 0 <= j < i ==> offer(messages[j]).None?
  {
    if messages != [] && offer(messages[0]).None? {
      FirstOfferedIs(messages[1..], offer);
      if FirstOffered(messages, offer).Some? {
        var (b, payload) := FirstOffered(messages, offer).value;
        var i :| 0 <= i < |messages[1..]| && messages[1..][i] == b && offer(b) == Some(payload)
                 && forall j :: 0 <= j < i ==> offer(messages[1..][j]).None?;
        forall j | 0 <= j < i + 1 ensures offer(messages[j]).None? {
          if j > 0 { assert messages[j] == messages[1..][j - 1]; }
        }
        assert messages[i + 1] == b;
      }
    }
  }

  /** A message this drive brought bears the name of the i-th branch. */
  ghost predicate PendingAt(outgoing: seq<Branch>, pending: Option<(string, Vars)>, i: nat) {
    i < |outgoing| && pending.Some? && outgoing[i].kind == Message(pending.value.0)
  }

  /** The database holds a message of its own name for the subscription of the i-th branch. */
  ghost predicate StoredAt(outgoing: seq<Branch>, stored: map<Id, (string, Vars)>, i: nat) {
    && i < |outgoing| && outgoing[i].kind.Message? && outgoing[i].catchId in stored
    && stored[outgoing[i].catchId].0 == outgoing[i].kind.name
  }

  /** The broker holds an early message for the i-th branch, which is not resolved yet. */
  ghost predicate BufferedAt(outgoing: seq<Branch>, subs: map<Id, SubStatus>, buffered: map<Id, Vars>, i: nat) {
    && i < |outgoing| && outgoing[i].kind.Message? && outgoing[i].catchId in buffered
    && (outgoing[i].catchId !in subs || subs[outgoing[i].catchId] == Active)
  }

  /** The i-th branch gets `payload`: the pending message if a branch bears its name, else a stored message, else a
      buffered one, and in each case the first such branch in document order. */
  ghost predicate Receives(outgoing: seq<Branch>, pending: Option<(string, Vars)>, stored: map<Id, (string, Vars)>,
                           subs: map<Id, SubStatus>, buffered: map<Id, Vars>, i: nat, payload: Vars) {
    if exists k: nat :: PendingAt(outgoing, pending, k) then
      PendingAt(outgoing, pending, i) && payload == pending.value.1
      && forall k: nat :: k < i ==> !PendingAt(outgoing, pending, k)
    else if exists k: nat :: StoredAt(outgoing, stored, k) then
      StoredAt(outgoing, stored, i) && payload == stored[outgoing[i].catchId].1
      && forall k: nat :: k < i ==> !StoredAt(outgoing, stored, k)
    else
      BufferedAt(outgoing, subs, buffered, i) && payload == buffered[outgoing[i].catchId]
      && forall k: nat :: k < i ==> !BufferedAt(outgoing, subs, buffered, k)
  }

  /** The first message branch that is offered something, in the order of all flows. */
  ghost predicate FirstAt(outgoing: seq<Branch>, offer: Branch -> Option<Vars>, i: nat) {
    && i < |outgoing| && outgoing[i].kind.Message? && offer(outgoing[i]).Some?
    && forall k: nat :: k < i ==> !(outgoing[k].kind.Message? && offer(outgoing[k]).Some?)
  }

  lemma {:induction false} OfferedFirst(messages: seq<Branch>, more: seq<Branch>, offer: Branch -> Option<Vars>)
    ensures FirstOffered(messages + more, offer) ==
              if FirstOffered(messages, offer).Some? then FirstOffered(messages, offer) else FirstOffered(more, offer)
  {
    if messages == [] {
      assert messages + more == more;
    } else {
      assert (messages + more)[1..] == messages[1..] + more;
      OfferedFirst(messages[1..], more, offer);
    }
  }

  lemma {:induction false} FirstOfferedAt(outgoing: seq<Branch>, offer: Branch -> Option<Vars>)
    ensures match FirstOffered(Messages(outgoing), offer)
              case None => forall i: nat :: i < |outgoing| && outgoing[i].kind.Message? ==> offer(outgoing[i]).None?
              case Some((b, payload)) =>
                exists i: nat :: FirstAt(outgoing, offer, i) && outgoing[i] == b && offer(b) == Some(payload)
  {
    if outgoing != [] {
      var n := |outgoing| - 1;
      var before, last := outgoing[..n], outgoing[n];
      FirstOfferedAt(before, offer);
      assert forall k :: 0 <= k < n ==> before[k] == outgoing[k];
      OfferedFirst(Messages(before), if last.kind.Message? then [last] else [], offer);
      if FirstOffered(Messages(before), offer).Some? {
        var (b, payload) := FirstOffered(Messages(before), offer).value;
        var i: nat :| FirstAt(before, offer, i) && before[i] == b && offer(b) == Some(payload);
        assert FirstAt(outgoing, offer, i);
      } else if last.kind.Message? && offer(last).Some? {
        assert FirstOffered([last], offer) == Some((last, offer(last).value));
        assert FirstAt(outgoing, offer, n);
      } else {
        assert FirstOffered([last], offer) == if offer(last).Some? then Some((last, offer(last).value)) else None;
      }
    }
  }

  lemma PendingExactly(outgoing: seq<Branch>, pending: Option<(string, Vars)>)
    ensures FirstOffered(Messages(outgoing), b => PendingFor(b, pending)).Some? <==>
              exists i: nat :: PendingAt(outgoing, pending, i)
  {
    var offer: Branch -> Option<Vars> := b => PendingFor(b, pending);
    FirstOfferedAt(outgoing, offer);
    assert forall i: nat :: PendingAt(outgoing, pending, i) <==>
             i < |outgoing| && outgoing[i].kind.Message? && offer(outgoing[i]).Some?;
  }

  /** Who gets which message, in terms of the flows. */
  lemma DeliveredExactly(outgoing: seq<Branch>, pending: Option<(string, Vars)>, stored: map<Id, (string, Vars)>,
                         subs: map<Id, SubStatus>, buffered: map<Id, Vars>)
    ensures match Delivered(Messages(outgoing), pending, stored, subs, buffered)
              case Some((b, payload)) =>
                exists i: nat :: Receives(outgoing, pending, stored, subs, buffered, i, payload) && outgoing[i] == b
              case None =>
                forall i: nat :: !PendingAt(outgoing, pending, i) && !StoredAt(outgoing, stored, i)
                                 && !BufferedAt(outgoing, subs, buffered, i)
  {
    var first: Branch -> Option<Vars> := b => PendingFor(b, pending);
    var second: Branch -> Option<Vars> := b => StoredFor(b, stored);
    var third: Branch -> Option<Vars> := b => BufferedFor(b, subs, buffered);
    FirstOfferedAt(outgoing, first);
    FirstOfferedAt(outgoing, second);
    FirstOfferedAt(outgoing, third);
    assert forall i: nat :: PendingAt(outgoing, pending, i) <==>
             i < |outgoing| && outgoing[i].kind.Message? && first(outgoing[i]).Some?;
    assert forall i: nat :: StoredAt(outgoing, stored, i) <==>
             i < |outgoing| && outgoing[i].kind.Message? && second(outgoing[i]).Some?;
    assert forall i: nat :: BufferedAt(outgoing, subs, buffered, i) <==>
             i < |outgoing| && outgoing[i].kind.Message? && third(outgoing[i]).Some?;
  }

  // ---- The rows as the source changes them -----------------------------------------------------

  class GatewayVisit {
    const outgoing: seq<Branch>
    var decision: Option<Id>
    var subs: map<Id, SubStatus>
    var timer: TimerStatus
    var vars: Vars
    var cursor: Option<Id>
    var merged: seq<Merge>

    constructor (outgoing: seq<Branch>, vars: Vars, subs: map<Id, SubStatus>)
      ensures this.outgoing == outgoing && Current() == Rows(None, subs, Armed, vars, None, [])
    {
      this.outgoing, this.vars, this.subs := outgoing, vars, subs;
      decision, timer, cursor, merged := None, Armed, None, [];
    }

    ghost function Current(): Rows
      reads this
    {
      Rows(decision, subs, timer, vars, cursor, merged)
    }

    /** Classify the outgoing flows in document order. */
    method EbgBranches() returns (messages: seq<Branch>, timerBranch: Option<Branch>)
      ensures messages == Messages(outgoing) && timerBranch == TimerBranch(outgoing)
    {
      messages, timerBranch := [], None;
      for i := 0 to |outgoing|
        invariant messages == Messages(outgoing[..i]) && timerBranch == TimerBranch(outgoing[..i])
      {
        assert outgoing[..i + 1][..i] == outgoing[..i];
        if outgoing[i].kind.Timer? { timerBranch := Some(outgoing[i]); }
        if outgoing[i].kind.Message? { messages := messages + [outgoing[i]]; }
      }
      assert outgoing[..|outgoing|] == outgoing;
    }

    method WinnerNextOfRecorded(flowId: Id) returns (answer: Answer)
      ensures answer == Recorded(outgoing, flowId)
    {
      for i := 0 to |outgoing|
        invariant WinnerNext(outgoing, flowId) == WinnerNext(outgoing[i..], flowId)
      {
        assert outgoing[i..][0] == outgoing[i] && outgoing[i..][1..] == outgoing[i + 1..];
        if outgoing[i].flowId == flowId { return Advance(outgoing[i].next); }
      }
      answer := Thrown;
    }

    /** Supersede the active subscriptions of every message branch but `winner`. */
    method SupersedeLosers(messages: seq<Branch>, winner: Option<Id>)
      requires messages == Messages(outgoing)
      modifies this`subs
      ensures subs == Supersede(old(subs), CatchIds(Messages(outgoing)) - if winner.Some? then {winner.value} else {})
    {
      ghost var losers: set<Id> := {};
      for i := 0 to |messages|
        invariant losers == CatchIds(messages[..i]) - if winner.Some? then {winner.value} else {}
        invariant subs == Supersede(old(subs), losers)
      {
        CatchIdsMore(messages, i);
        var c := messages[i].catchId;
        if winner != Some(c) {
          SupersedeMore(old(subs), losers, c);
          if c in subs && subs[c].Active? { subs := subs[c := Superseded]; }
          losers := losers + {c};
        }
      }
      assert messages[..|messages|] == messages;
    }

    method ApplyEbgMessage(winner: Branch, payload: Vars) returns (answer: Answer)
      modifies this
      ensures Current() == MessageBatch(outgoing, old(Current()), winner, payload, old(vars))
      ensures answer == if old(decision).Some? then Recorded(outgoing, old(decision).value) else Advance(winner.next)
    {
      if decision.Some? {
        answer := WinnerNextOfRecorded(decision.value);
        return;
      }
      var messages, timerBranch := EbgBranches();
      decision, cursor := Some(winner.flowId), Some(winner.next);
      merged := merged + [Merge(winner.flowId, payload)];
      vars := vars + payload;
      if winner.catchId in subs && subs[winner.catchId].Active? { subs := subs[winner.catchId := Consumed]; }
      SupersedeLosers(messages, Some(winner.catchId));
      if timerBranch.Some? && timer.Armed? { timer := TimerCancelled; }
      answer := Advance(winner.next);
    }

    method FireTimer() returns (answer: Answer)
      requires TimerBranch(outgoing).Some?
      modifies this
      ensures Current() == TimerBatch(outgoing, old(Current()), TimerBranch(outgoing).value)
      ensures answer == if old(decision).Some? then Skipped else Advance(TimerBranch(outgoing).value.next)
    {
      if decision.Some? { return Skipped; }
      var messages, timerBranch := EbgBranches();
      decision, cursor := Some(timerBranch.value.flowId), Some(timerBranch.value.next);
      if timer.Armed? { timer := TimerFired; }
      SupersedeLosers(messages, None);
      answer := Advance(timerBranch.value.next);
    }

    method FirstOf(messages: seq<Branch>, offer: Branch -> Option<Vars>) returns (hit: Option<(Branch, Vars)>)
      ensures hit == FirstOffered(messages, offer)
    {
      for i := 0 to |messages|
        invariant FirstOffered(messages, offer) == FirstOffered(messages[i..], offer)
      {
        assert messages[i..][0] == messages[i] && messages[i..][1..] == messages[i + 1..];
        var payload := offer(messages[i]);
        if payload.Some? { return Some((messages[i], payload.value)); }
      }
      hit := None;
    }

    /** One drive: follow the record; else apply the pending message, one already correlated in the database, or one the
        broker had buffered, in this order and each for the first branch in document order; else stay parked. */
    method DriveEventBasedGateway(pending: Option<(string, Vars)>, stored: map<Id, (string, Vars)>,
                                  buffered: map<Id, Vars>)
      returns (answer: Answer, consumedPending: bool)
      modifies this
      ensures consumedPending <==> exists i: nat :: PendingAt(outgoing, pending, i)
      ensures old(decision).None? ==>
                if exists i: nat, payload :: Receives(outgoing, pending, stored, old(subs), buffered, i, payload) then
                  exists i: nat, payload :: Receives(outgoing, pending, stored, old(subs), buffered, i, payload)
                    && decision == Some(outgoing[i].flowId) && cursor == Some(outgoing[i].next)
                    && answer == Advance(outgoing[i].next) && vars == old(vars) + payload
                    && merged == old(merged) + [Merge(outgoing[i].flowId, payload)]
                else Current() == old(Current()) && answer == Waits
      ensures old(decision).Some? ==> Current() == old(Current()) && answer == Recorded(outgoing, old(decision).value)
      ensures old(decision).None? ==>
                match Delivered(Messages(outgoing), pending, stored, old(subs), buffered)
                  case Some((b, payload)) =>
                    Current() == MessageBatch(outgoing, old(Current()), b, payload, old(vars))
                    && answer == Advance(b.next)
                  case None => Current() == old(Current()) && answer == Waits
    {
      var messages, _ := EbgBranches();
      var mine := FirstOf(messages, b => PendingFor(b, pending));
      consumedPending := mine.Some?;
      PendingExactly(outgoing, pending);
      if decision.Some? {
        answer := WinnerNextOfRecorded(decision.value);
        return;
      }
      var hit := mine;
      if hit.None? { hit := FirstOf(messages, b => StoredFor(b, stored)); }
      if hit.None? {
        var now := subs;
        hit := FirstOf(messages, b => BufferedFor(b, now, buffered));
      }
      DeliveredExactly(outgoing, pending, stored, subs, buffered);
      if hit.None? { return Waits, consumedPending; }
      answer := ApplyEbgMessage(hit.value.0, hit.value.1);
    }
  }
}
