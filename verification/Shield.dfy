/** Runs of commits and reverse passes over one ledger: what a commit shields, from whom, and for how long
    (src/runtime/engine.ts:980-1033, src/persistence/saga.ts:223-253 and 362-373). */
module Shield {
  import opened Prelude
  import opened ScopeTree
  import opened Ledger

  /** The ledger and the root of the reverse pass in progress, if any. A pass runs to its end before the walk goes on.
      */
  datatype State = State(rows: Rows, pass: Option<Option<Id>>)

  datatype Event =
    | Insert(key: StepKey, scope: Id, token: Option<Id>, compensatable: bool)
    | CommitTx(tx: Id)
    | BeginPass(root: Option<Id>)
    | Attach(k: nat)
    | Mark(k: nat, ok: bool)
    | EndPass

  ghost predicate Picks(t: Tree, s: State, k: nat) {
    s.pass.Some? && k < |s.rows| && Selectable(t, s.pass.value, s.rows[k])
  }

  ghost predicate Step(t: Tree, child: bool, s: State, e: Event, s': State) {
    match e
      case Insert(key, scope, token, compensatable) =>
        s' == s.(rows := Inserted(s.rows, key, scope, token, if compensatable then Pending else NotRequired))
      case CommitTx(tx) => s.pass.None? && IsTransaction(t, tx) && s' == s.(rows := CommittedRows(t, child, tx, s.rows))
      case BeginPass(root) =>
        s.pass.None? && (root.Some? ==> IsTransaction(t, root.value)) && s' == s.(pass := Some(root))
      case Attach(k) => Picks(t, s, k) && s' == s.(rows := WithStatus(s.rows, k, Compensating))
      case Mark(k, ok) => Picks(t, s, k) && s' == s.(rows := WithStatus(s.rows, k, if ok then Compensated else Failed))
      case EndPass => s.pass.Some? && (forall k: nat :: !Picks(t, s, k)) && s' == s.(pass := None)
  }

  ghost predicate Moves(t: Tree, child: bool, s: State, s': State) {
    exists e :: Step(t, child, s, e, s')
  }

  ghost function Stepping(t: Tree, child: bool): (State, State) -> bool {
    (s, s') => Moves(t, child, s, s')
  }

  ghost predicate Run(t: Tree, child: bool, run: seq<State>) {
    |run| > 0 && run[0] == State([], None) && Steps(Stepping(t, child), run)
  }

  // ---- Invariants ------------------------------------------------------------------------------

  /** Rows being compensated belong to the pass in progress; a locally committed row lies under some transaction. */
  ghost predicate RowSound(t: Tree, s: State, k: nat) {
    k < |s.rows| ==>
      && (s.rows[k].status.Compensating? || s.rows[k].status.Failed? ==> Picks(t, s, k))
      && (s.rows[k].status.CommittedLocal? ==> InSomeTx(t, s.rows[k].scope))
  }

  ghost predicate InSomeTx(t: Tree, scope: Id) {
    NearestTx(t, Some(scope)).Some? && scope in Owned(t, NearestTx(t, Some(scope)).value)
  }

  ghost predicate Sound(t: Tree, s: State) {
    SeqNumbers(s.rows) && forall k: nat :: RowSound(t, s, k)
  }

  /** What one step does to a row that was there before it. */
  lemma RowStep(t: Tree, child: bool, s: State, e: Event, s': State, k: nat)
    requires Step(t, child, s, e, s') && k < |s.rows|
    ensures |s'.rows| >= |s.rows| && s'.rows[k].scope == s.rows[k].scope
    ensures s'.rows[k].status ==
              match e
                case Attach(j) => if j == k then Compensating else s.rows[k].status
                case Mark(j, ok) => if j != k then s.rows[k].status else if ok then Compensated else Failed
                case CommitTx(tx) =>
                  if Outermost(t, child, tx) then FlippedStatus(s.rows[k], Subtree(t, Some(tx)), true)
                  else FlippedStatus(s.rows[k], Owned(t, tx), false)
                case _ => s.rows[k].status
  {
    if e.CommitTx? { SealsExactly(t, child, e.tx); }
  }

  lemma StepKeepsSeq(t: Tree, child: bool, s: State, e: Event, s': State)
    requires SeqNumbers(s.rows) && Step(t, child, s, e, s')
    ensures SeqNumbers(s'.rows)
  {
    if e.Insert? {
      InsertKeepsSeqNumbers(s.rows, e.key, e.scope, e.token, if e.compensatable then Pending else NotRequired);
    }
  }

  lemma StepKeepsRow(t: Tree, child: bool, s: State, e: Event, s': State, k: nat)
    requires RowSound(t, s, k) && Step(t, child, s, e, s')
    ensures RowSound(t, s', k)
  {
    if k < |s.rows| {
      RowStep(t, child, s, e, s', k);
      if e.EndPass? { assert !Picks(t, s, k); }
    }
  }

  lemma MoveKeepsSound(t: Tree, child: bool, s: State, s': State)
    requires Sound(t, s) && Moves(t, child, s, s')
    ensures Sound(t, s')
  {
    var e :| Step(t, child, s, e, s');
    StepKeepsSeq(t, child, s, e, s');
    forall k: nat ensures RowSound(t, s', k) { StepKeepsRow(t, child, s, e, s', k); }
  }

  lemma RunSound(t: Tree, child: bool, run: seq<State>, i: nat)
    requires Run(t, child, run) && i < |run|
    ensures Sound(t, run[i])
  {
    forall s, s' | Sound(t, s) && Moves(t, child, s, s') ensures Sound(t, s') { MoveKeepsSound(t, child, s, s'); }
    Invariance(Stepping(t, child), s => Sound(t, s), run, 0, i);
  }

  // ---- The shield of a nested commit -----------------------------------------------------------

  /** Row `k` is settled for `tx`: only a pass rooted strictly outside `tx` ever picks it up. */
  ghost predicate Shielded(t: Tree, tx: Id, s: State, k: nat) {
    && k < |s.rows| && s.rows[k].scope in Owned(t, tx)
    && match s.rows[k].status
       case CommittedLocal => true
       case Committed => true
       case Compensated => true
       case NotRequired => true
       case Compensating => s.pass.Some? && StrictAncestor(t, s.pass.value, tx)
       case Failed => s.pass.Some? && StrictAncestor(t, s.pass.value, tx)
       case Pending => false
  }

  lemma ShieldedPick(t: Tree, tx: Id, s: State, k: nat)
    requires Shielded(t, tx, s, k) && Picks(t, s, k)
    ensures StrictAncestor(t, s.pass.value, tx)
  {
  }

  lemma ShieldStep(t: Tree, child: bool, tx: Id, s: State, e: Event, s': State, k: nat)
    requires Shielded(t, tx, s, k) && RowSound(t, s, k) && Step(t, child, s, e, s')
    ensures Shielded(t, tx, s', k)
  {
  }

  ghost predicate ShieldedSound(t: Tree, tx: Id, s: State, k: nat) {
    Sound(t, s) && Shielded(t, tx, s, k)
  }

  lemma ShieldMove(t: Tree, child: bool, tx: Id, s: State, s': State, k: nat)
    requires ShieldedSound(t, tx, s, k) && Moves(t, child, s, s')
    ensures ShieldedSound(t, tx, s', k)
  {
    MoveKeepsSound(t, child, s, s');
    var e :| Step(t, child, s, e, s');
    assert RowSound(t, s, k);
    ShieldStep(t, child, tx, s, e, s', k);
  }

  /** A nested commit shields every row of the scopes it owns that is not being compensated by someone outside. */
  lemma NestedCommitShields(t: Tree, child: bool, tx: Id, s: State, s': State, k: nat)
    requires Sound(t, s) && Step(t, child, s, CommitTx(tx), s')
    requires child || exists x <- Chain(t, Parent(t, tx)) :: IsTransaction(t, x)
    requires k < |s.rows| && s.rows[k].scope in Owned(t, tx)
    ensures Shielded(t, tx, s', k)
    ensures s'.rows[k].status.CommittedLocal? <==> s.rows[k].status.Pending? || s.rows[k].status.CommittedLocal?
  {
    assert RowSound(t, s, k);
    RowStep(t, child, s, CommitTx(tx), s', k);
  }

  lemma ShieldStays(t: Tree, child: bool, run: seq<State>, tx: Id, i: nat, j: nat, k: nat)
    requires Run(t, child, run) && i <= j < |run| && ShieldedSound(t, tx, run[i], k)
    ensures ShieldedSound(t, tx, run[j], k)
  {
    forall s, s' | ShieldedSound(t, tx, s, k) && Moves(t, child, s, s') ensures ShieldedSound(t, tx, s', k) {
      ShieldMove(t, child, tx, s, s', k);
    }
    Invariance(Stepping(t, child), s => ShieldedSound(t, tx, s, k), run, i, j);
  }

  /** Over any run: after the nested commit of `tx` no pass but one rooted strictly outside `tx` touches its rows. */
  lemma ShieldHolds(t: Tree, child: bool, run: seq<State>, tx: Id, i: nat, j: nat, k: nat)
    requires Run(t, child, run) && i < j < |run|
    requires Step(t, child, run[i], CommitTx(tx), run[i + 1])
    requires child || exists x <- Chain(t, Parent(t, tx)) :: IsTransaction(t, x)
    requires k < |run[i].rows| && run[i].rows[k].scope in Owned(t, tx)
    ensures Shielded(t, tx, run[j], k)
    ensures Picks(t, run[j], k) ==> StrictAncestor(t, run[j].pass.value, tx)
  {
    RunSound(t, child, run, i);
    RunSound(t, child, run, i + 1);
    NestedCommitShields(t, child, tx, run[i], run[i + 1], k);
    ShieldStays(t, child, run, tx, i + 1, j, k);
    if Picks(t, run[j], k) { ShieldedPick(t, tx, run[j], k); }
  }

  /** While a row is locally committed, the passes that may pick it are exactly those rooted strictly outside the
      transaction that owns its scope: never its own, always every enclosing one and the process. */
  lemma LocallyCommittedPickedBy(t: Tree, tx: Id, row: Row, root: Option<Id>)
    requires row.status.CommittedLocal? && row.scope in Owned(t, tx)
    ensures Selectable(t, root, row) <==> StrictAncestor(t, root, tx)
    ensures !Selectable(t, Some(tx), row)
  {
    OwnedEligible(t, tx, row.scope, root);
    OwnedEligible(t, tx, row.scope, Some(tx));
  }

  /** How a locally committed row of `tx` can change: a pass rooted strictly outside `tx` takes it up, or an outermost
      commit above it seals it. */
  ghost predicate TakenUp(t: Tree, child: bool, tx: Id, s: State, s': State, k: nat) {
    exists e :: Step(t, child, s, e, s') && k < |s.rows|
      && match e
         case Attach(j) => j == k && s.pass.Some? && StrictAncestor(t, s.pass.value, tx)
         case Mark(j, _) => j == k && s.pass.Some? && StrictAncestor(t, s.pass.value, tx)
         case CommitTx(outer) => Outermost(t, child, outer) && s.rows[k].scope in Subtree(t, Some(outer))
         case _ => false
  }

  lemma LocalMove(t: Tree, child: bool, tx: Id, s: State, s': State, k: nat)
    requires Moves(t, child, s, s') && k < |s.rows| && s.rows[k].status.CommittedLocal?
             && s.rows[k].scope in Owned(t, tx)
    ensures k < |s'.rows| && s'.rows[k].scope == s.rows[k].scope
    ensures s'.rows[k].status.CommittedLocal? || TakenUp(t, child, tx, s, s', k)
  {
    var e :| Step(t, child, s, e, s');
    RowStep(t, child, s, e, s', k);
    if (e.Attach? || e.Mark?) && e.k == k { LocallyCommittedPickedBy(t, tx, s.rows[k], s.pass.value); }
  }

  /** Over any run: a locally committed row stays so, and with it open to every root strictly outside its transaction,
      until such a pass takes it up or an outermost commit over it seals it. */
  lemma LocalUntilTakenUp(t: Tree, child: bool, run: seq<State>, tx: Id, i: nat, j: nat, k: nat, root: Option<Id>)
    requires Run(t, child, run) && i <= j < |run|
    requires k < |run[i].rows| && run[i].rows[k].status.CommittedLocal? && run[i].rows[k].scope in Owned(t, tx)
    ensures TakenBetween(t, child, tx, run, i, j, k) || OpenOutside(t, tx, run[j], k, root)
  {
    if !TakenBetween(t, child, tx, run, i, j, k) {
      LocallyCommittedPickedBy(t, tx, run[i].rows[k], root);
      UntakenSteps(t, child, run, tx, i, j, k);
      forall s, s' | OpenOutside(t, tx, s, k, root) && Untaken(t, child, tx, k)(s, s')
        ensures OpenOutside(t, tx, s', k, root)
      {
        OpenMove(t, child, tx, s, s', k, root);
      }
      Invariance(Untaken(t, child, tx, k), s => OpenOutside(t, tx, s, k, root), run[i..j + 1], 0, j - i);
    }
  }

  /** A step of a run that does not take up row `k`. */
  ghost function Untaken(t: Tree, child: bool, tx: Id, k: nat): (State, State) -> bool {
    (s, s') => Moves(t, child, s, s') && !TakenUp(t, child, tx, s, s', k)
  }

  lemma UntakenSteps(t: Tree, child: bool, run: seq<State>, tx: Id, i: nat, j: nat, k: nat)
    requires Run(t, child, run) && i <= j < |run| && !TakenBetween(t, child, tx, run, i, j, k)
    ensures Steps(Untaken(t, child, tx, k), run[i..j + 1])
  {
    var part := run[i..j + 1];
    forall n | 0 <= n < |part| - 1 ensures Untaken(t, child, tx, k)(part[n], part[n + 1]) {
      assert part[n] == run[i + n] && part[n + 1] == run[i + n + 1];
      assert Stepping(t, child)(run[i + n], run[i + n + 1]);
    }
  }

  /** Somewhere from the i-th to the j-th state of the run row `k` was taken up. */
  ghost predicate TakenBetween(t: Tree, child: bool, tx: Id, run: seq<State>, i: nat, j: nat, k: nat) {
    exists h: nat :: i <= h < j && h + 1 < |run| && TakenUp(t, child, tx, run[h], run[h + 1], k)
  }

  /** Row `k` is committed locally by `tx`, and a pass rooted at `root` would pick it exactly if `root` lies outside. */
  ghost predicate OpenOutside(t: Tree, tx: Id, s: State, k: nat, root: Option<Id>) {
    && k < |s.rows| && s.rows[k].status.CommittedLocal? && s.rows[k].scope in Owned(t, tx)
    && (Selectable(t, root, s.rows[k]) <==> StrictAncestor(t, root, tx))
  }

  lemma OpenMove(t: Tree, child: bool, tx: Id, s: State, s': State, k: nat, root: Option<Id>)
    requires OpenOutside(t, tx, s, k, root) && Moves(t, child, s, s')
    ensures OpenOutside(t, tx, s', k, root) || TakenUp(t, child, tx, s, s', k)
  {
    LocalMove(t, child, tx, s, s', k);
    if s'.rows[k].status.CommittedLocal? { LocallyCommittedPickedBy(t, tx, s'.rows[k], root); }
  }

  // ---- The seal of an outermost commit ---------------------------------------------------------

  ghost predicate Sealed(s: State, k: nat) {
    k < |s.rows| && (s.rows[k].status.Committed? || s.rows[k].status.Compensated? || s.rows[k].status.NotRequired?)
  }

  lemma CommitSeals(t: Tree, child: bool, tx: Id, s: State, s': State, k: nat)
    requires Sound(t, s) && Step(t, child, s, CommitTx(tx), s') && Outermost(t, child, tx)
    requires k < |s.rows| && s.rows[k].scope in Subtree(t, Some(tx))
    ensures Sealed(s', k)
  {
    RowStep(t, child, s, CommitTx(tx), s', k);
    assert RowSound(t, s, k);
  }

  lemma SealMove(t: Tree, child: bool, s: State, s': State, k: nat)
    requires Sealed(s, k) && Moves(t, child, s, s')
    ensures Sealed(s', k)
  {
  }

  lemma SealStays(t: Tree, child: bool, run: seq<State>, i: nat, j: nat, k: nat)
    requires Run(t, child, run) && i <= j < |run| && Sealed(run[i], k)
    ensures Sealed(run[j], k)
  {
    forall s, s' | Sealed(s, k) && Moves(t, child, s, s') ensures Sealed(s', k) { SealMove(t, child, s, s', k); }
    Invariance(Stepping(t, child), s => Sealed(s, k), run, i, j);
  }

  /** No row that stands in the subtree of an outermost commit is ever picked again, by any pass. */
  lemma SealHolds(t: Tree, child: bool, run: seq<State>, tx: Id, i: nat, j: nat, k: nat)
    requires Run(t, child, run) && i < j < |run|
    requires Step(t, child, run[i], CommitTx(tx), run[i + 1])
    requires !child && forall x <- Chain(t, Parent(t, tx)) :: !IsTransaction(t, x)
    requires k < |run[i].rows| && run[i].rows[k].scope in Subtree(t, Some(tx))
    ensures Sealed(run[j], k) && !Picks(t, run[j], k)
  {
    RunSound(t, child, run, i);
    CommitSeals(t, child, tx, run[i], run[i + 1], k);
    SealStays(t, child, run, i + 1, j, k);
  }

  // ---- What a nested commit does not shield ----------------------------------------------------

  /** Exactly the rows of transactions nested inside `tx` stay open to a pass rooted at `tx` after its nested commit. */
  lemma AfterNestedCommit(t: Tree, child: bool, tx: Id, s: State, s': State, k: nat)
    requires Sound(t, s) && Step(t, child, s, CommitTx(tx), s') && !Outermost(t, child, tx) && k < |s.rows|
    ensures Selectable(t, Some(tx), s'.rows[k]) <==>
              Selectable(t, Some(tx), s.rows[k]) && s.rows[k].scope !in Owned(t, tx)
  {
    RowStep(t, child, s, CommitTx(tx), s', k);
    assert RowSound(t, s, k);
    SubtreePartition(t, tx);
  }

  /** A run at whose end a pass rooted at "middle" picks a row although "middle" has committed before. */
  ghost predicate Leaks(t: Tree, run: seq<State>) {
    && Run(t, false, run) && |run| == 5 && !Outermost(t, false, "middle")
    && Step(t, false, run[2], CommitTx("middle"), run[3]) && Step(t, false, run[3], BeginPass(Some("middle")), run[4])
    && Picks(t, run[4], 0)
  }

  function ThreeScopes(): Tree {
    map["outer" := ScopeMeta(true, None, 1), "middle" := ScopeMeta(true, Some("outer"), 2),
        "inner" := ScopeMeta(true, Some("middle"), 3)]
  }

  lemma ThreeChains()
    ensures Chain(ThreeScopes(), Some("middle")) == ["middle", "outer"]
    ensures Chain(ThreeScopes(), Some("inner")) == ["inner", "middle", "outer"]
  {
    assert Chain(ThreeScopes(), Some("outer")) == ["outer"];
  }

  /** What the two nested commits do to a row of the inner transaction: it is committed locally, and stays so. */
  lemma InnerCommits(row: Row)
    requires row.scope == "inner"
    ensures var t := ThreeScopes();
            && !Outermost(t, false, "inner") && !Outermost(t, false, "middle") && "inner" in Eligible(t, Some("middle"))
            && (row.status.Pending? ==> CommittedRows(t, false, "inner", [row]) == [row.(status := CommittedLocal)])
            && (row.status.CommittedLocal? ==> CommittedRows(t, false, "middle", [row]) == [row])
  {
    var t := ThreeScopes();
    ThreeChains();
    assert NearestTx(t, Some("inner")) == Some("inner") && NearestTx(t, Some("middle")) == Some("middle");
    assert NearestTx(t, Parent(t, "middle")) == Some("outer");
    assert "inner" in Owned(t, "inner") && StrictAncestor(t, Some("middle"), "inner");
  }

  function TaskRow(status: StepStatus): Row {
    Row(StepKey("task", 0, 0), 1, "inner", None, status)
  }

  lemma RowInserted(t: Tree)
    ensures Step(t, false, State([], None), Insert(TaskRow(Pending).key, "inner", None, true),
            State([TaskRow(Pending)], None))
  {
    assert MaxSeq([]) == 0 && !HasKey([], TaskRow(Pending).key);
  }

  lemma RowCommitted(t: Tree)
    requires t == ThreeScopes()
    ensures Step(t, false, State([TaskRow(Pending)], None), CommitTx("inner"), State([TaskRow(CommittedLocal)], None))
    ensures Step(t, false, State([TaskRow(CommittedLocal)], None), CommitTx("middle"),
            State([TaskRow(CommittedLocal)], None))
    ensures !Outermost(t, false, "middle") && Selectable(t, Some("middle"), TaskRow(CommittedLocal))
  {
    InnerCommits(TaskRow(Pending));
    InnerCommits(TaskRow(CommittedLocal));
  }

  /** So the nested commit of a transaction need not shield its whole subtree from a later pass rooted at it: insert a
      row into the inner transaction, commit the inner one, commit the middle one, begin a pass there. */
  lemma NestedCommitLeavesInner()
    ensures exists t, run :: Leaks(t, run)
  {
    var t := ThreeScopes();
    var local := State([TaskRow(CommittedLocal)], None);
    var run := [State([], None), State([TaskRow(Pending)], None), local, local, local.(pass := Some(Some("middle")))];
    RowInserted(t);
    RowCommitted(t);
    assert Step(t, false, run[3], BeginPass(Some("middle")), run[4]);
    forall i | 0 <= i < |run| - 1 ensures Stepping(t, false)(run[i], run[i + 1]) {
      assert i == 0 || i == 1 || i == 2 || i == 3;
    }
    assert Leaks(t, run);
  }

  /** A pass rooted at the process sees every row that is not settled for good. */
  lemma ProcessSeesAll(t: Tree, row: Row)
    requires row.scope in t || row.scope == ROOT_SCOPE
    requires row.status.CommittedLocal? ==> row.scope in t
    ensures Selectable(t, None, row) <==>
              !(row.status.Compensated? || row.status.Committed? || row.status.NotRequired?)
  {
    ProcessEligible(t);
  }
}
