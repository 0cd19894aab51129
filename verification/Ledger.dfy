/** The saga ledger and its commit shield over nested transactions (src/persistence/saga.ts, src/runtime/engine.ts). */
module Ledger {
  import opened Prelude
  import opened ScopeTree

  datatype StepStatus = Pending | Compensating | Compensated | Failed | Committed | CommittedLocal | NotRequired

  /** One pass of one iteration of an element; the ledger holds at most one row for it. */
  datatype StepKey = StepKey(element: Id, occurrence: nat, iteration: nat)

  /** A ledger row. The row with sequence number n stands at index n - 1 (SeqNumbers). */
  datatype Row = Row(key: StepKey, seqNo: nat, scope: Id, token: Option<Id>, status: StepStatus)

  type Rows = seq<Row>

  /** Scope id of steps outside every scope. */
  const ROOT_SCOPE: Id := ""

  // ---- Ledger statements as functions ----------------------------------------------------------

  predicate HasKey(rows: Rows, key: StepKey) {
    exists r <- rows :: r.key == key
  }

  function MaxSeq(rows: Rows): nat {
    if rows == [] then 0
    else var m := MaxSeq(rows[..|rows| - 1]); if m < rows[|rows| - 1].seqNo then rows[|rows| - 1].seqNo else m
  }

  /** INSERT OR IGNORE with the next per-instance sequence number. */
  function Inserted(rows: Rows, key: StepKey, scope: Id, token: Option<Id>, status: StepStatus): Rows {
    if HasKey(rows, key) then rows else rows + [Row(key, MaxSeq(rows) + 1, scope, token, status)]
  }

  function FlippedStatus(row: Row, ids: set<Id>, seal: bool): StepStatus {
    if row.scope in ids && (row.status.Pending? || row.status.Compensating? || (seal && row.status.CommittedLocal?))
    then if seal then Committed else CommittedLocal
    else row.status
  }

  /** The commit flip as one UPDATE over all rows. */
  function Flipped(rows: Rows, ids: set<Id>, seal: bool): Rows {
    seq(|rows|, i requires 0 <= i < |rows| => rows[i].(status := FlippedStatus(rows[i], ids, seal)))
  }

  function WithStatus(rows: Rows, k: nat, status: StepStatus): Rows {
    if k < |rows| then rows[k := rows[k].(status := status)] else rows
  }

  /** Whether the outermost transaction seals its subtree, or a nested one only shields the scopes it owns. */
  predicate Seals(t: Tree, child: bool, tx: Id) {
    NearestTx(t, Parent(t, tx)).None? && !child
  }

  function CommittedRows(t: Tree, child: bool, tx: Id, rows: Rows): Rows {
    if Seals(t, child, tx) then Flipped(rows, Subtree(t, Some(tx)), true) else Flipped(rows, Owned(t, tx), false)
  }

  /** The WHERE clause of the reverse cursor, over the scope ids precomputed for one root. */
  predicate Matches(row: Row, root: Option<Id>, subtree: set<Id>, eligible: set<Id>) {
    && (row.scope in subtree || (root.None? && row.scope == ROOT_SCOPE))
    && (row.status.Pending? || row.status.Compensating? || row.status.Failed?
        || (row.status.CommittedLocal? && row.scope in eligible))
  }

  predicate Selectable(t: Tree, root: Option<Id>, row: Row) {
    Matches(row, root, Subtree(t, root), Eligible(t, root))
  }

  /** The selected rows by descending sequence number. */
  function Selected(t: Tree, root: Option<Id>, rows: Rows): seq<Row> {
    if rows == [] then []
    else
      var last := rows[|rows| - 1];
      (if Selectable(t, root, last) then [last] else []) + Selected(t, root, rows[..|rows| - 1])
  }

  lemma SelectedDown(t: Tree, root: Option<Id>, rows: Rows, i: nat, steps: Rows)
    requires i < |rows|
    ensures steps + Selected(t, root, rows[..i + 1]) ==
              (if Selectable(t, root, rows[i]) then steps + [rows[i]] else steps) + Selected(t, root, rows[..i])
  {
    assert rows[..i + 1][..i] == rows[..i];
  }

  // ---- The ledger table ------------------------------------------------------------------------

  class LedgerTable {
    var rows: Rows

    constructor ()
      ensures rows == []
    {
      rows := [];
    }

    method InsertSagaStep(key: StepKey, scope: Id, token: Option<Id>, status: StepStatus)
      modifies this
      ensures rows == Inserted(old(rows), key, scope, token, status)
    {
      var top := 0;
      for i := 0 to |rows|
        invariant rows == old(rows)
        invariant top == MaxSeq(rows[..i])
        invariant forall j :: 0 <= j < i ==> rows[j].key != key
      {
        assert rows[..i + 1][..i] == rows[..i];
        if rows[i].key == key { return; }
        if rows[i].seqNo > top { top := rows[i].seqNo; }
      }
      assert rows[..|rows|] == rows;
      rows := rows + [Row(key, top + 1, scope, token, status)];
    }

    method UpdateCompensationStatus(k: nat, status: StepStatus)
      requires k < |rows|
      modifies this
      ensures rows == WithStatus(old(rows), k, status)
    {
      rows := rows[k := rows[k].(status := status)];
    }

    method MarkScopeStepsCommitted(ids: set<Id>, seal: bool)
      modifies this
      ensures rows == Flipped(old(rows), ids, seal)
    {
      for i := 0 to |rows|
        invariant |rows| == |old(rows)|
        invariant forall j :: 0 <= j < |rows| ==>
          rows[j] == if j < i then Flipped(old(rows), ids, seal)[j] else old(rows)[j]
      {
        rows := rows[i := rows[i].(status := FlippedStatus(rows[i], ids, seal))];
      }
    }

    /** The ledger effect of a transaction commit (src/runtime/engine.ts:996-1002). */
    method CommitTransaction(t: Tree, child: bool, tx: Id)
      modifies this
      ensures rows == CommittedRows(t, child, tx, old(rows))
    {
      var enclosing := NearestEnclosingTx(t, Parent(t, tx));
      if enclosing.None? && !child {
        var subtree := SubtreeScopeIds(t, Some(tx));
        MarkScopeStepsCommitted(subtree, true);
      } else {
        var owned := OwnedScopeIds(t, tx);
        MarkScopeStepsCommitted(owned, false);
      }
    }

    method SelectSubtreeSteps(t: Tree, root: Option<Id>) returns (steps: seq<Row>)
      ensures steps == Selected(t, root, rows)
    {
      var subtree := SubtreeScopeIds(t, root);
      var eligible := EligibleCommittedLocalScopeIds(t, root);
      var i := |rows|;
      steps := [];
      assert rows[..|rows|] == rows;
      while i > 0
        invariant 0 <= i <= |rows|
        invariant steps + Selected(t, root, rows[..i]) == Selected(t, root, rows)
      {
        i := i - 1;
        SelectedDown(t, root, rows, i, steps);
        if Matches(rows[i], root, subtree, eligible) { steps := steps + [rows[i]]; }
      }
    }
  }

  // ---- Ledger facts ----------------------------------------------------------------------------

  /** Sequence numbers are exactly 1, 2, 3, … in insertion order, and no visit has two rows. */
  ghost predicate SeqNumbers(rows: Rows) {
    && (forall i {:trigger rows[i]} :: 0 <= i < |rows| ==> rows[i].seqNo == i + 1)
    && (forall i, j :: 0 <= i < j < |rows| ==> rows[i].key != rows[j].key)
  }

  lemma {:induction false} MaxIsLast(rows: Rows)
    requires forall i {:trigger rows[i]} :: 0 <= i < |rows| ==> rows[i].seqNo == i + 1
    ensures MaxSeq(rows) == |rows|
  {
    if rows != [] { MaxIsLast(rows[..|rows| - 1]); }
  }

  lemma InsertKeepsSeqNumbers(rows: Rows, key: StepKey, scope: Id, token: Option<Id>, status: StepStatus)
    requires SeqNumbers(rows)
    ensures SeqNumbers(Inserted(rows, key, scope, token, status))
  {
    MaxIsLast(rows);
  }

  /** The cursor returns exactly the selectable rows, each once, highest sequence number first. */
  lemma {:induction false} SelectedExactly(t: Tree, root: Option<Id>, rows: Rows)
    requires SeqNumbers(rows)
    ensures forall r :: r in Selected(t, root, rows) <==> r in rows && Selectable(t, root, r)
    ensures forall i, j :: 0 <= i < j < |Selected(t, root, rows)| ==>
              Selected(t, root, rows)[i].seqNo > Selected(t, root, rows)[j].seqNo
  {
    if rows != [] {
      var n := |rows| - 1;
      SelectedExactly(t, root, rows[..n]);
      assert rows == rows[..n] + [rows[n]];
      forall r | r in Selected(t, root, rows[..n]) ensures r.seqNo < rows[n].seqNo {
        var i :| 0 <= i < n && rows[..n][i] == r;
        assert rows[i] == r;
      }
    }
  }

  /** An insert adds one row, with the scope, token and status of the first insert for its visit. */
  lemma InsertAddsOne(rows: Rows, key: StepKey, scope: Id, token: Option<Id>, status: StepStatus)
    requires SeqNumbers(rows)
    ensures var rows' := Inserted(rows, key, scope, token, status);
            && rows <= rows' && (rows' == rows <==> exists r <- rows :: r.key == key)
            && forall r <- rows' :: r in rows || r == Row(key, |rows| + 1, scope, token, status)
  {
    MaxIsLast(rows);
  }

  // ---- Commits and cursors, row by row ---------------------------------------------------------

  /** A commit of `tx` settles its rows for good: the instance is not a child and no transaction encloses `tx`. */
  ghost predicate Outermost(t: Tree, child: bool, tx: Id) {
    !child && forall x <- Chain(t, Parent(t, tx)) :: !IsTransaction(t, x)
  }

  lemma SealsExactly(t: Tree, child: bool, tx: Id)
    ensures Seals(t, child, tx) <==> Outermost(t, child, tx)
  {
    FirstTransactionIsFirst(t, Chain(t, Parent(t, tx)));
  }

  /** Scope `s` lies in `tx`. */
  ghost predicate Inside(t: Tree, s: Id, tx: Id) {
    s in t && tx in Chain(t, Some(s))
  }

  /** `tx` is the innermost transaction around scope `s`. */
  ghost predicate InnermostAround(t: Tree, s: Id, tx: Id) {
    var chain := Chain(t, Some(s));
    s in t && exists i :: 0 <= i < |chain| && chain[i] == tx && IsTransaction(t, tx)
                          && forall x <- chain[..i] :: !IsTransaction(t, x)
  }

  lemma OwnedExactly(t: Tree, tx: Id, s: Id)
    ensures s in Owned(t, tx) <==> InnermostAround(t, s, tx)
  {
    var chain := Chain(t, Some(s));
    FirstTransactionIsFirst(t, chain);
    if i :| 0 <= i < |chain| && chain[i] == tx && IsTransaction(t, tx)
            && forall x <- chain[..i] :: !IsTransaction(t, x) {
      FirstAt(t, chain, i);
    }
  }

  lemma {:induction false} FirstAt(t: Tree, chain: seq<Id>, i: nat)
    requires i < |chain| && IsTransaction(t, chain[i]) && forall x <- chain[..i] :: !IsTransaction(t, x)
    ensures FirstTransaction(t, chain) == Some(chain[i])
  {
    if i > 0 {
      assert chain[..i][0] == chain[0] && chain[1..][..i - 1] == chain[..i][1..];
      FirstAt(t, chain[1..], i - 1);
    }
  }

  /** A commit seals every open row inside an outermost transaction; a nested one, or one of a child instance, shields
      the open rows it is innermost around. Nothing else changes. */
  lemma CommitExactly(t: Tree, child: bool, tx: Id, rows: Rows, k: nat)
    requires k < |rows|
    ensures var rows' := CommittedRows(t, child, tx, rows);
            && |rows'| == |rows| && rows'[k] == rows[k].(status := rows'[k].status)
            && var (before, after) := (rows[k].status, rows'[k].status);
               if !child && forall x <- Chain(t, Parent(t, tx)) :: !IsTransaction(t, x) then
                 if Inside(t, rows[k].scope, tx) && (before.Pending? || before.Compensating? || before.CommittedLocal?)
                 then after == Committed else after == before
               else if InnermostAround(t, rows[k].scope, tx) && (before.Pending? || before.Compensating?)
               then after == CommittedLocal else after == before
  {
    SealsExactly(t, child, tx);
    OwnedExactly(t, tx, rows[k].scope);
  }

  /** A pass rooted at a transaction selects the open and failed rows inside it, and the shielded ones whose innermost
      transaction is another one further in. */
  lemma SelectableExactly(t: Tree, root: Id, row: Row)
    requires IsTransaction(t, root)
    ensures Selectable(t, Some(root), row) <==>
              && Inside(t, row.scope, root)
              && (row.status.Pending? || row.status.Compensating? || row.status.Failed?
                  || (row.status.CommittedLocal? && !InnermostAround(t, row.scope, root)))
  {
    SubtreePartition(t, root);
    OwnedExactly(t, root, row.scope);
  }
}
