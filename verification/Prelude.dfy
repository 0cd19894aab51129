/** The stock datatype, the poison threshold and the run rules shared by the modules of this project. */
module Prelude {
  datatype Option<+T> = None | Some(value: T)

  /** Un-applicable completions after which a job is poison (src/runtime/retry-policy.ts:35). */
  const POISON_THRESHOLD: nat := 3

  /** Each state of `run` follows from the one before it. */
  ghost predicate Steps<S(!new)>(step: (S, S) -> bool, run: seq<S>) {
    forall i :: 0 <= i < |run| - 1 ==> step(run[i], run[i + 1])
  }

  /** What every step keeps holds from any state of a run where it held once. */
  lemma {:induction false} Invariance<S(!new)>(step: (S, S) -> bool, inv: S -> bool, run: seq<S>, i: nat, j: nat)
    requires Steps(step, run) && i <= j < |run| && inv(run[i])
    requires forall s, s' :: inv(s) && step(s, s') ==> inv(s')
    ensures inv(run[j])
  {
    if i < j {
      Invariance(step, inv, run, i, j - 1);
      assert step(run[j - 1], run[j - 1 + 1]);
    }
  }

  /** What every step keeps holds all along a sequence of iterates. */
  lemma {:induction false} Iterated<S(!new)>(at: nat -> S, next: S -> S, inv: S -> bool, k: nat)
    requires inv(at(0)) && (forall j: nat :: at(j + 1) == next(at(j))) && forall s :: inv(s) ==> inv(next(s))
    ensures inv(at(k))
  {
    if k > 0 {
      Iterated(at, next, inv, k - 1);
      assert at(k - 1 + 1) == next(at(k - 1));
    }
  }

  ghost predicate Reaches<S(!new)>(step: (S, S) -> bool, s: S, s': S) {
    exists run :: Leads(step, run, s, s')
  }

  ghost predicate Leads<S(!new)>(step: (S, S) -> bool, run: seq<S>, s: S, s': S) {
    |run| > 0 && run[0] == s && run[|run| - 1] == s' && Steps(step, run)
  }

  lemma ReachesSelf<S(!new)>(step: (S, S) -> bool, s: S)
    ensures Reaches(step, s, s)
  {
    assert Leads(step, [s], s, s);
  }

  lemma ReachesOne<S(!new)>(step: (S, S) -> bool, s: S, s': S)
    requires step(s, s')
    ensures Reaches(step, s, s')
  {
    assert Leads(step, [s, s'], s, s');
  }

  lemma ReachesOn<S(!new)>(step: (S, S) -> bool, a: S, b: S, c: S)
    requires Reaches(step, a, b) && Reaches(step, b, c)
    ensures Reaches(step, a, c)
  {
    var p :| Leads(step, p, a, b);
    var q :| Leads(step, q, b, c);
    var r := p + q[1..];
    forall i | 0 <= i < |r| - 1 ensures step(r[i], r[i + 1]) {
      if i < |p| - 1 {
        assert step(p[i], p[i + 1]);
      } else {
        var j := i - (|p| - 1);
        assert step(q[j], q[j + 1]) && r[i] == q[j] && r[i + 1] == q[j + 1];
      }
    }
    assert Leads(step, r, a, c);
  }
}
