/** The pull-job lease machine of one job row (src/persistence/jobs.ts, src/index.ts): leases, callbacks that read
    before they write, reclaim of lapsed leases, poison reopening, expiry and the dead-letter claim, in any
    interleaving. */
module Jobs {
  import opened Prelude

  datatype Status = Created | Locked | Completed | Failed

  /** A locked row without a token is parked until `until`; with one it is leased until then. */
  datatype Row = Row(status: Status, token: Option<nat>, until: int, attempts: nat, limit: nat)

  datatype Grant = Grant(token: nat, at: int, until: int)

  /** What a request read before its conditional update. */
  datatype Read = Reclaim(now: int, attempts: nat) | Failing(token: nat, attempts: nat)

  /** `strikes` counts the element's rejected completions, `reopens` those of this job; `grants` lists the leases handed
      out, `reported` the tokens whose callback took effect, `claimed` whether the dead-letter pass won the row. */
  datatype State = State(row: Row, strikes: nat, reopens: nat, clock: int, next: nat, grants: seq<Grant>,
                         reported: set<nat>, claimed: bool, pending: map<nat, Read>)

  datatype Failure = Technical(parkUntil: int) | Permanent

  datatype Event =
    | Lease(now: int, until: int)
    | SelectLapsed(a: nat, now: int)
    | ReclaimLapsed(a: nat, parkUntil: int)
    | ReadForFail(a: nat, token: nat)
    | Fail(a: nat, failure: Failure)
    | Complete(token: nat)
    | Reopen
    | StrikeElsewhere
    | DeadLetter
    | Abandon

  // ---- Conditional updates (each is one UPDATE with its WHERE clause) ----------------------------

  predicate Parked(r: Row) {
    r.status.Locked? && r.token.None?
  }

  predicate Leasable(r: Row, now: int) {
    r.status.Created? || (Parked(r) && r.until < now)
  }

  predicate Lapsed(r: Row, now: int) {
    r.status.Locked? && r.token.Some? && r.until < now
  }

  predicate Holds(r: Row, token: nat) {
    r.status.Locked? && r.token == Some(token)
  }

  function Leased(r: Row, token: nat, until: int): Row {
    r.(status := Locked, token := Some(token), until := until, attempts := r.attempts + 1)
  }

  function ParkedUntil(r: Row, until: int): Row {
    r.(status := Locked, token := None, until := until)
  }

  function Ended(r: Row, status: Status): Row {
    r.(status := status, token := None)
  }

  /** The reclaim leg of leaseOnce for one row: exhausted budgets fail, the others park. */
  function Reclaimed(r: Row, now: int, attempts: nat, parkUntil: int): Row {
    if !Lapsed(r, now) then r
    else if attempts >= r.limit then Ended(r, Failed)
    else ParkedUntil(r, parkUntil)
  }

  /** A fail callback that read `attempts` earlier. */
  function FailedBy(r: Row, token: nat, attempts: nat, failure: Failure): Row {
    if !Holds(r, token) then r
    else if failure.Technical? && attempts < r.limit then ParkedUntil(r, failure.parkUntil)
    else Ended(r, Failed)
  }

  function CompletedBy(r: Row, token: nat): Row {
    if Holds(r, token) then Ended(r, Completed) else r
  }

  function Took(s: State, token: nat, row: Row): State {
    s.(row := row, reported := if Holds(s.row, token) then s.reported + {token} else s.reported)
  }

  ghost predicate Step(s: State, e: Event, s': State) {
    match e
      case Lease(now, until) =>
        && s.clock <= now <= until && Leasable(s.row, now)
        && s' == s.(row := Leased(s.row, s.next, until), next := s.next + 1, clock := now,
                    grants := s.grants + [Grant(s.next, now, until)])
      case SelectLapsed(a, now) =>
        && s.clock <= now && Lapsed(s.row, now)
        && s' == s.(clock := now, pending := s.pending[a := Reclaim(now, s.row.attempts)])
      case ReclaimLapsed(a, parkUntil) =>
        && a in s.pending && s.pending[a].Reclaim?
        && s' == s.(row := Reclaimed(s.row, s.pending[a].now, s.pending[a].attempts, parkUntil),
                    pending := s.pending - {a})
      case ReadForFail(a, token) =>
        && token < s.next && !s.row.status.Completed? && !s.row.status.Failed?
        && s' == s.(pending := s.pending[a := Failing(token, s.row.attempts)])
      case Fail(a, failure) =>
        && a in s.pending && s.pending[a].Failing?
        && var r := s.pending[a];
           s' == Took(s, r.token, FailedBy(s.row, r.token, r.attempts, failure)).(pending := s.pending - {a})
      case Complete(token) => token < s.next && s' == Took(s, token, CompletedBy(s.row, token))
      case Reopen =>
        && s.row.status.Completed? && s.strikes + 1 < POISON_THRESHOLD
        && s' == s.(row := Ended(s.row, Created), strikes := s.strikes + 1, reopens := s.reopens + 1)
      case StrikeElsewhere => s.strikes + 1 < POISON_THRESHOLD && s' == s.(strikes := s.strikes + 1)
      case DeadLetter =>
        && s.row.status.Created? && s.row.attempts == 0
        && s' == s.(row := Ended(s.row, Failed), claimed := true)
      case Abandon =>
        && (s.row.status.Created? || s.row.status.Locked?)
        && s' == s.(row := Ended(s.row, Failed))
  }

  ghost function Stepping(): (State, State) -> bool {
    (s, s') => exists e :: Step(s, e, s')
  }

  function Fresh(limit: nat, strikes: nat, clock: int): State {
    State(Row(Created, None, 0, 0, limit), strikes, 0, clock, 0, [], {}, false, map[])
  }

  ghost predicate Run(run: seq<State>) {
    && |run| > 0 && run[0] == Fresh(run[0].row.limit, run[0].strikes, run[0].clock)
    && run[0].row.limit >= 1 && run[0].strikes < POISON_THRESHOLD && Steps(Stepping(), run)
  }

  // ---- Invariants ------------------------------------------------------------------------------

  /** The attempt counter counts the leases, within the budget that reopenings extend. */
  ghost predicate Budgeted(s: State) {
    && s.reopens <= s.strikes < POISON_THRESHOLD
    && s.row.attempts == |s.grants|
    && s.row.attempts <= s.row.limit + s.reopens
    && (s.row.status.Created? ==> s.row.attempts < s.row.limit + s.reopens)
    && (Parked(s.row) ==> s.row.attempts < s.row.limit)
  }

  /** The row's token is that of the last lease; anything else than a held row follows a lapse or a report. */
  ghost predicate Exclusive(s: State) {
    && |s.grants| == s.next && (forall t <- s.reported :: t < s.next)
    && (forall i :: 0 <= i < |s.grants| ==> s.grants[i].token == i)
    && (s.row.token.Some? ==> s.row.status.Locked? && s.grants != [] && s.row.token.value == s.next - 1
                              && s.row.until == s.grants[s.next - 1].until && s.next - 1 !in s.reported)
    && (s.grants != [] && s.row.token.None? && !s.row.status.Failed? ==>
          s.grants[s.next - 1].until < s.clock || s.next - 1 in s.reported)
    && (forall i :: 0 <= i < |s.grants| - 1 ==> Released(s, i))
    && (s.claimed ==> s.row.status.Failed? && s.grants == [])
  }

  /** The i-th lease lapsed, or its holder reported, before the next one was handed out. */
  ghost predicate Released(s: State, i: int) {
    0 <= i < |s.grants| - 1 && (s.grants[i].until < s.grants[i + 1].at || s.grants[i].token in s.reported)
  }

  /** What a request read still holds of the row its update would match. */
  ghost predicate ReadSound(s: State, r: Read) {
    match r
      case Reclaim(now, attempts) => now <= s.clock && (Lapsed(s.row, now) ==> s.row.attempts == attempts)
      case Failing(token, attempts) => token < s.next && (Holds(s.row, token) ==> s.row.attempts == attempts)
  }

  ghost predicate Sound(s: State) {
    Budgeted(s) && Exclusive(s) && forall a <- s.pending :: ReadSound(s, s.pending[a])
  }

  lemma StepBudgeted(s: State, e: Event, s': State)
    requires Sound(s) && Step(s, e, s')
    ensures Budgeted(s')
  {
  }

  lemma StepExclusive(s: State, e: Event, s': State)
    requires Sound(s) && Step(s, e, s')
    ensures Exclusive(s')
  {
    if e.ReclaimLapsed? || e.Fail? { assert ReadSound(s, s.pending[e.a]); }
    forall i | 0 <= i < |s'.grants| - 1 ensures Released(s', i) {
      if i < |s.grants| - 1 { assert Released(s, i); }
    }
  }

  lemma StepReads(s: State, e: Event, s': State, a: nat)
    requires Sound(s) && Step(s, e, s') && a in s'.pending
    ensures ReadSound(s', s'.pending[a])
  {
  }

  lemma StepSound(s: State, s': State)
    requires Sound(s) && Stepping()(s, s')
    ensures Sound(s')
  {
    var e :| Step(s, e, s');
    StepBudgeted(s, e, s');
    StepExclusive(s, e, s');
    forall a <- s'.pending ensures ReadSound(s', s'.pending[a]) { StepReads(s, e, s', a); }
  }

  lemma RunSound(run: seq<State>, n: nat)
    requires Run(run) && n < |run|
    ensures Sound(run[n]) && run[n].row.limit == run[0].row.limit
  {
    var limit := run[0].row.limit;
    forall s, s' | Sound(s) && s.row.limit == limit && Stepping()(s, s') ensures Sound(s') && s'.row.limit == limit {
      StepSound(s, s');
    }
    Invariance(Stepping(), s => Sound(s) && s.row.limit == limit, run, 0, n);
  }

  // ---- The guarantees --------------------------------------------------------------------------

  /** The attempt bound, and the bound on parked jobs. */
  lemma AttemptsBounded(run: seq<State>, n: nat)
    requires Run(run) && n < |run|
    ensures run[n].row.attempts <= run[0].row.limit + POISON_THRESHOLD - 1
    ensures Parked(run[n].row) ==> run[n].row.attempts < run[0].row.limit
    ensures run[n].row.attempts == |run[n].grants|
  {
    RunSound(run, n);
  }

  /** No second lease is handed out before the first lapsed or its holder reported. */
  lemma LeasesExclusive(run: seq<State>, n: nat, i: nat)
    requires Run(run) && n < |run| && i + 1 < |run[n].grants|
    ensures run[n].grants[i].until < run[n].grants[i + 1].at || run[n].grants[i].token in run[n].reported
    ensures run[n].grants[i].token != run[n].grants[i + 1].token
  {
    RunSound(run, n);
    assert Released(run[n], i);
  }

  /** A callback with the token of an earlier lease never changes the row. */
  lemma StaleCallbackIgnored(run: seq<State>, n: nat, i: nat, e: Event, s': State)
    requires Run(run) && n < |run| && i + 1 < |run[n].grants| && Step(run[n], e, s')
    requires match e
               case Complete(token) => token == run[n].grants[i].token
               case Fail(a, _) => run[n].pending[a].token == run[n].grants[i].token
               case _ => false
    ensures s'.row == run[n].row && s'.reported == run[n].reported
  {
    RunSound(run, n);
  }

  // ---- What each report does -------------------------------------------------------------------

  /** A failure report takes effect exactly for the holder of the lease: a technical failure parks the job while its
      attempts are below the limit, however long ago the report read them, and any other failure ends it. */
  lemma FailureExactly(run: seq<State>, n: nat, a: nat, failure: Failure, s': State)
    requires Run(run) && n < |run| && Step(run[n], Fail(a, failure), s')
    ensures var (r, r') := (run[n].row, s'.row);
            if r.status.Locked? && r.token == Some(run[n].pending[a].token) then
              r'.token.None? && r'.attempts == r.attempts
              && match failure
                 case Technical(parkUntil) =>
                   if r.attempts < r.limit then r'.status.Locked? && r'.until == parkUntil else r'.status.Failed?
                 case Permanent => r'.status.Failed?
            else r' == r
  {
    RunSound(run, n);
    assert ReadSound(run[n], run[n].pending[a]);
  }

  /** Reclaiming acts exactly on a lease that has lapsed when it was read and still stands: it parks the job while its
      attempts are below the limit, and fails it at the limit. */
  lemma ReclaimExactly(run: seq<State>, n: nat, a: nat, parkUntil: int, s': State)
    requires Run(run) && n < |run| && Step(run[n], ReclaimLapsed(a, parkUntil), s')
    ensures var (r, r') := (run[n].row, s'.row);
            if r.status.Locked? && r.token.Some? && r.until < run[n].pending[a].now then
              r'.token.None? && r'.attempts == r.attempts
              && if r.attempts < r.limit then r'.status.Locked? && r'.until == parkUntil else r'.status.Failed?
            else r' == r
  {
    RunSound(run, n);
    assert ReadSound(run[n], run[n].pending[a]);
  }

  /** A completion takes effect exactly for the holder of the lease. */
  lemma CompletionExactly(s: State, token: nat, s': State)
    requires Step(s, Complete(token), s')
    ensures if s.row.status.Locked? && s.row.token == Some(token)
            then s'.row == s.row.(status := Completed, token := None) else s'.row == s.row
  {
  }

  /** A job can be leased exactly if it is new, or parked with its backoff over. */
  lemma LeasedExactly(s: State, now: int, until: int)
    ensures (exists s' :: Step(s, Lease(now, until), s')) <==>
              && s.clock <= now <= until
              && (s.row.status.Created? || (s.row.status.Locked? && s.row.token.None? && s.row.until < now))
  {
    var s' := s.(row := Leased(s.row, s.next, until), next := s.next + 1, clock := now,
                 grants := s.grants + [Grant(s.next, now, until)]);
    assert s.clock <= now <= until && Leasable(s.row, now) ==> Step(s, Lease(now, until), s');
  }

  /** While a job is parked until `until`, and until it is leased again. */
  ghost predicate BackingOff(s: State, grants: seq<Grant>, until: int) {
    if s.grants == grants then
      s.row.status.Failed? || (s.row.status.Locked? && s.row.token.None? && s.row.until == until)
    else |grants| < |s.grants| && s.grants[|grants|].at > until
  }

  /** The backoff is respected: whatever is interleaved, the next lease of a parked job is handed out after its time. */
  lemma BackoffRespected(run: seq<State>, i: nat, j: nat)
    requires Run(run) && i <= j < |run| && run[i].row.status.Locked? && run[i].row.token.None?
    ensures |run[j].grants| > |run[i].grants| ==> run[j].grants[|run[i].grants|].at > run[i].row.until
  {
    var grants, until := run[i].grants, run[i].row.until;
    forall s, s' | BackingOff(s, grants, until) && Stepping()(s, s') ensures BackingOff(s', grants, until) {
      var e :| Step(s, e, s');
    }
    Invariance(Stepping(), s => BackingOff(s, grants, until), run, i, j);
  }

  /** A job the dead-letter pass has claimed is never leased, and one that was ever leased is never claimed. */
  lemma DeadLetterExcludesLease(run: seq<State>, n: nat)
    requires Run(run) && n < |run|
    ensures !(run[n].claimed && run[n].grants != [])
  {
    RunSound(run, n);
  }

  /** A failed row is final: nothing but an operator's reset reopens it. */
  lemma FailedIsFinal(run: seq<State>, i: nat, j: nat)
    requires Run(run) && i <= j < |run| && run[i].row.status.Failed?
    ensures run[j].row == run[i].row && run[j].grants == run[i].grants
  {
    RunSound(run, i);
    var row, grants := run[i].row, run[i].grants;
    forall s, s' | Dead(s, row, grants) && Stepping()(s, s') ensures Dead(s', row, grants) {
      StepSound(s, s');
    }
    Invariance(Stepping(), s => Dead(s, row, grants), run, i, j);
  }

  ghost predicate Dead(s: State, row: Row, grants: seq<Grant>) {
    Sound(s) && s.row == row && row.status.Failed? && s.grants == grants
  }

  /** The bound is reached: a budget of one attempt and two reopenings make three leases. */
  lemma BoundIsReached() returns (run: seq<State>)
    ensures Run(run) && run[|run| - 1].row.attempts == run[0].row.limit + POISON_THRESHOLD - 1
  {
    var s := Fresh(1, 0, 0);
    run := [s];
    for k := 0 to 3
      invariant Run(run) && s == run[|run| - 1] && run[0].row.limit == 1 && s.row.limit == 1
      invariant s.clock == 0 && s.next == k && s.row.attempts == k
      invariant k == 0 ==> s.row.status.Created? && s.strikes == 0
      invariant k > 0 ==> Holds(s.row, k - 1) && s.strikes == k - 1
    {
      if k > 0 {
        var done := Took(s, k - 1, CompletedBy(s.row, k - 1));
        run := Extended(run, s, Complete(k - 1), done);
        s := done.(row := Ended(done.row, Created), strikes := done.strikes + 1, reopens := done.reopens + 1);
        run := Extended(run, done, Reopen, s);
      }
      var leased := s.(row := Leased(s.row, s.next, 0), next := s.next + 1, clock := 0,
                       grants := s.grants + [Grant(s.next, 0, 0)]);
      run := Extended(run, s, Lease(0, 0), leased);
      s := leased;
    }
  }

  lemma Extended(run: seq<State>, s: State, e: Event, s': State) returns (longer: seq<State>)
    requires Run(run) && run[|run| - 1] == s && Step(s, e, s')
    ensures Run(longer) && longer == run + [s']
  {
    longer := run + [s'];
    forall i | 0 <= i < |longer| - 1 ensures Stepping()(longer[i], longer[i + 1]) {
      if i < |run| - 1 { assert Stepping()(run[i], run[i + 1]); }
    }
  }
}
