/** The job table with the activate, complete and fail handlers (src/persistence/jobs.ts:42-170 and 325-421,
    src/index.ts:918-940 and 1065-1185), for the jobs of one task type and workspace. */
module JobStore {
  import opened Prelude
  import opened Jobs

  type Id = string

  datatype Ack = Applied | Ignored | Conflict | NotFound

  /** The first `limit` leasable jobs of `order`. */
  function FirstLeasable(jobs: map<Id, Row>, order: seq<Id>, now: int, limit: nat): seq<Id> {
    if order == [] || limit == 0 then []
    else if order[0] in jobs && Leasable(jobs[order[0]], now) then
      [order[0]] + FirstLeasable(jobs, order[1..], now, limit - 1)
    else FirstLeasable(jobs, order[1..], now, limit)
  }

  function LeaseAll(jobs: map<Id, Row>, ids: seq<Id>, token: nat, until: int): map<Id, Row> {
    map id | id in jobs :: if id in ids then Leased(jobs[id], token, until) else jobs[id]
  }

  /** The reclaim pre-pass over the whole table. */
  function ReclaimAll(jobs: map<Id, Row>, seen: set<Id>, now: int, backoff: nat -> int): map<Id, Row> {
    map id | id in jobs ::
      if id in seen then Reclaimed(jobs[id], now, jobs[id].attempts, now + backoff(jobs[id].attempts)) else jobs[id]
  }

  lemma {:induction false} FirstLeasableIs(jobs: map<Id, Row>, order: seq<Id>, now: int, limit: nat)
    requires forall i, j :: 0 <= i < j < |order| ==> order[i] != order[j]
    ensures var ids := FirstLeasable(jobs, order, now, limit);
            && |ids| <= limit
            && (forall id <- ids :: id in order && id in jobs && Leasable(jobs[id], now))
            && (forall i, j :: 0 <= i < j < |ids| ==> ids[i] != ids[j])
            && (|ids| < limit ==> forall id <- order :: id in jobs && Leasable(jobs[id], now) ==> id in ids)
  {
    if order != [] && limit > 0 {
      if order[0] in jobs && Leasable(jobs[order[0]], now) {
        FirstLeasableIs(jobs, order[1..], now, limit - 1);
      } else {
        FirstLeasableIs(jobs, order[1..], now, limit);
      }
    }
  }

  /** A lapsed lease is never handed on in the same activation: it is parked behind its backoff or exhausted. */
  lemma ReclaimedNotLeasable(r: Row, now: int, parkUntil: int)
    requires Lapsed(r, now) && now <= parkUntil
    ensures !Leasable(Reclaimed(r, now, r.attempts, parkUntil), now)
    ensures Reclaimed(r, now, r.attempts, parkUntil).status.Failed? <==> r.attempts >= r.limit
  {
  }

  class Store {
    var jobs: map<Id, Row>
    /** Recorded answers by job and token. */
    var acks: map<(Id, nat), Ack>

    constructor (jobs: map<Id, Row>)
      ensures this.jobs == jobs && acks == map[]
    {
      this.jobs, acks := jobs, map[];
    }

    method FailExpiredLease(id: Id, now: int) returns (changed: bool)
      requires id in jobs
      modifies this`jobs
      ensures changed == Lapsed(old(jobs)[id], now)
      ensures jobs == if changed then old(jobs)[id := Ended(old(jobs)[id], Failed)] else old(jobs)
    {
      changed := jobs[id].status.Locked? && jobs[id].token.Some? && jobs[id].until < now;
      if changed { jobs := jobs[id := jobs[id].(status := Failed, token := None)]; }
    }

    method ParkExpiredLease(id: Id, parkUntil: int, now: int) returns (changed: bool)
      requires id in jobs
      modifies this`jobs
      ensures changed == Lapsed(old(jobs)[id], now)
      ensures jobs == if changed then old(jobs)[id := ParkedUntil(old(jobs)[id], parkUntil)] else old(jobs)
    {
      changed := jobs[id].status.Locked? && jobs[id].token.Some? && jobs[id].until < now;
      if changed { jobs := jobs[id := jobs[id].(token := None, until := parkUntil)]; }
    }

    method ReclaimPrePass(now: int, backoff: nat -> int)
      modifies this`jobs
      ensures jobs == ReclaimAll(old(jobs), old(jobs).Keys, now, backoff)
    {
      var rest := jobs.Keys;
      ghost var all := jobs;
      assert ReclaimAll(all, {}, now, backoff) == all;
      while rest != {}
        invariant rest <= all.Keys
        invariant jobs == ReclaimAll(all, all.Keys - rest, now, backoff)
        decreases |rest|
      {
        var id :| id in rest;
        ReclaimOne(all, all.Keys - rest, id, now, backoff);
        assert all.Keys - (rest - {id}) == all.Keys - rest + {id};
        if Lapsed(jobs[id], now) {
          if jobs[id].attempts >= jobs[id].limit {
            var _ := FailExpiredLease(id, now);
          } else {
            var _ := ParkExpiredLease(id, now + backoff(jobs[id].attempts), now);
          }
        }
        rest := rest - {id};
      }
      assert all.Keys - {} == all.Keys;
    }

    /** The ordered, limited subquery of the lease. */
    method SelectLeasable(order: seq<Id>, now: int, limit: nat) returns (picked: seq<Id>)
      ensures picked == FirstLeasable(jobs, order, now, limit)
    {
      picked := [];
      var i := 0;
      while i < |order| && |picked| < limit
        invariant 0 <= i <= |order| && |picked| <= limit
        invariant picked + FirstLeasable(jobs, order[i..], now, limit - |picked|) ==
                  FirstLeasable(jobs, order, now, limit)
      {
        FirstLeasableStep(jobs, order, i, now, limit, picked);
        if order[i] in jobs && Leasable(jobs[order[i]], now) { picked := picked + [order[i]]; }
        i := i + 1;
      }
    }

    /** The single lease UPDATE. */
    method LeaseJobs(order: seq<Id>, token: nat, until: int, now: int, limit: nat) returns (leased: seq<Id>)
      modifies this`jobs
      ensures leased == FirstLeasable(old(jobs), order, now, limit)
      ensures jobs == LeaseAll(old(jobs), leased, token, until)
    {
      leased := SelectLeasable(order, now, limit);
      jobs := map id | id in jobs :: if id in leased then Leased(jobs[id], token, until) else jobs[id];
    }

    /** One activation: reclaim what lapsed, then lease; a reclaimed lease is not among the leased jobs. */
    method LeaseOnce(order: seq<Id>, token: nat, until: int, now: int, limit: nat, backoff: nat -> int)
      returns (leased: seq<Id>)
      requires forall i, j :: 0 <= i < j < |order| ==> order[i] != order[j]
      requires forall n :: backoff(n) >= 0
      modifies this`jobs
      ensures var swept := ReclaimAll(old(jobs), old(jobs).Keys, now, backoff);
              leased == FirstLeasable(swept, order, now, limit) && jobs == LeaseAll(swept, leased, token, until)
      ensures |leased| <= limit && forall id <- leased :: id in old(jobs) && Leasable(old(jobs)[id], now)
      ensures jobs.Keys == old(jobs).Keys && forall id <- jobs ::
                var r := old(jobs)[id];
                if id in leased then jobs[id] == Row(Locked, Some(token), until, r.attempts + 1, r.limit)
                else if !(r.status.Locked? && r.token.Some? && r.until < now) then jobs[id] == r
                else if r.attempts >= r.limit then jobs[id] == r.(status := Failed, token := None)
                else jobs[id] == r.(token := None, until := now + backoff(r.attempts))
    {
      ReclaimPrePass(now, backoff);
      FirstLeasableIs(jobs, order, now, limit);
      LeasableBefore(old(jobs), now, backoff);
      leased := LeaseJobs(order, token, until, now, limit);
    }

    /** What a callback reads first: a recorded answer is repeated, and a job or instance that has ended is acknowledged
        without effect; None says the conditional update is still to come. */
    method ReadCallback(id: Id, token: nat, instanceTerminal: bool) returns (settled: Option<Ack>)
      modifies this`acks
      ensures jobs == old(jobs)
      ensures settled == if (id, token) in old(acks) then Some(old(acks)[(id, token)])
                         else if id !in jobs then Some(NotFound)
                         else if jobs[id].status.Completed? || jobs[id].status.Failed? || instanceTerminal then
                           Some(Ignored)
                         else None
      ensures acks == if settled == Some(Ignored) then old(acks)[(id, token) := Ignored] else old(acks)
    {
      if (id, token) in acks {
        if acks[(id, token)] == Ignored { assert acks[(id, token) := Ignored] == acks; }
        return Some(acks[(id, token)]);
      }
      if id !in jobs { return Some(NotFound); }
      if jobs[id].status.Completed? || jobs[id].status.Failed? || instanceTerminal {
        acks := acks[(id, token) := Ignored];
        return Some(Ignored);
      }
      settled := None;
    }

    /** The conditional completion, possibly long after the read: a token that no longer holds the row changes nothing,
        and a duplicate that committed in between passes its answer on. */
    method FinishComplete(id: Id, token: nat) returns (ack: Ack)
      requires id in jobs
      modifies this
      ensures jobs == old(jobs)[id := CompletedBy(old(jobs)[id], token)]
      ensures ack == if Holds(old(jobs)[id], token) then Applied
                     else if (id, token) in old(acks) then old(acks)[(id, token)] else Conflict
      ensures acks == if Holds(old(jobs)[id], token) then old(acks)[(id, token) := Applied] else old(acks)
    {
      if jobs[id].status.Locked? && jobs[id].token == Some(token) {
        jobs := jobs[id := jobs[id].(status := Completed, token := None)];
        acks := acks[(id, token) := Applied];
        return Applied;
      }
      assert jobs[id := jobs[id]] == jobs;
      ack := if (id, token) in acks then acks[(id, token)] else Conflict;
    }

    /** The conditional failure of a callback that read `attempts` earlier. */
    method FinishFail(id: Id, token: nat, attempts: nat, failure: Failure) returns (ack: Ack)
      requires id in jobs
      modifies this
      ensures jobs == old(jobs)[id := FailedBy(old(jobs)[id], token, attempts, failure)]
      ensures ack == if Holds(old(jobs)[id], token) then Applied
                     else if (id, token) in old(acks) then old(acks)[(id, token)] else Conflict
      ensures acks == if Holds(old(jobs)[id], token) then old(acks)[(id, token) := Applied] else old(acks)
    {
      if jobs[id].status.Locked? && jobs[id].token == Some(token) {
        if failure.Technical? && attempts < jobs[id].limit {
          jobs := jobs[id := jobs[id].(token := None, until := failure.parkUntil)];
        } else {
          jobs := jobs[id := jobs[id].(status := Failed, token := None)];
        }
        acks := acks[(id, token) := Applied];
        return Applied;
      }
      assert jobs[id := jobs[id]] == jobs;
      ack := if (id, token) in acks then acks[(id, token)] else Conflict;
    }

    /** The complete callback with nothing in between. */
    method HandleCompleteJob(id: Id, token: nat, instanceTerminal: bool) returns (ack: Ack)
      modifies this
      ensures (id, token) in old(acks) ==> ack == old(acks)[(id, token)] && jobs == old(jobs) && acks == old(acks)
      ensures (id, token) !in old(acks) ==>
                jobs == if id in old(jobs) && !instanceTerminal then old(jobs)[id := CompletedBy(old(jobs)[id], token)]
                        else old(jobs)
      ensures (id, token) !in old(acks) ==>
                (ack == Applied <==> id in old(jobs) && !instanceTerminal && Holds(old(jobs)[id], token))
      ensures if (id, token) !in old(acks) && id in old(jobs) && !instanceTerminal
                 && old(jobs)[id].status.Locked? && old(jobs)[id].token == Some(token)
              then jobs == old(jobs)[id := old(jobs)[id].(status := Completed, token := None)]
              else jobs == old(jobs)
      ensures ack == Applied || ack == Ignored ==> acks == old(acks)[(id, token) := ack]
    {
      if (id, token) in acks { assert acks[(id, token) := acks[(id, token)]] == acks; }
      if id in jobs { assert jobs[id := jobs[id]] == jobs; }
      var settled := ReadCallback(id, token, instanceTerminal);
      if settled.Some? { return settled.value; }
      ack := FinishComplete(id, token);
    }

    /** The fail callback with nothing in between: a business error is permanent, a technical one parks while the budget
        lasts. */
    method HandleFailJob(id: Id, token: nat, business: bool, retryable: bool, instanceTerminal: bool, now: int,
                         backoff: nat -> int) returns (ack: Ack)
      modifies this
      ensures (id, token) in old(acks) ==> ack == old(acks)[(id, token)] && jobs == old(jobs) && acks == old(acks)
      ensures (id, token) !in old(acks) && id in old(jobs) && !instanceTerminal ==>
                var r := old(jobs)[id];
                var failure := if !business && retryable then Technical(now + backoff(r.attempts)) else Permanent;
                jobs == old(jobs)[id := FailedBy(r, token, r.attempts, failure)]
      ensures (id, token) !in old(acks) && (id !in old(jobs) || instanceTerminal) ==> jobs == old(jobs)
      ensures (id, token) !in old(acks) ==>
                (ack == Applied <==> id in old(jobs) && !instanceTerminal && Holds(old(jobs)[id], token))
      ensures if (id, token) !in old(acks) && id in old(jobs) && !instanceTerminal
                 && old(jobs)[id].status.Locked? && old(jobs)[id].token == Some(token) then
                var r := old(jobs)[id];
                jobs == if business || !retryable || r.attempts >= r.limit
                        then old(jobs)[id := r.(status := Failed, token := None)]
                        else old(jobs)[id := r.(token := None, until := now + backoff(r.attempts))]
              else jobs == old(jobs)
    {
      if (id, token) in acks && acks[(id, token)] == Ignored { assert acks[(id, token) := Ignored] == acks; }
      if id in jobs { assert jobs[id := jobs[id]] == jobs; }
      var settled := ReadCallback(id, token, instanceTerminal);
      if settled.Some? { return settled.value; }
      var attempts := jobs[id].attempts;
      var failure := if !business && retryable then Technical(now + backoff(attempts)) else Permanent;
      ack := FinishFail(id, token, attempts, failure);
    }
  }

  lemma FirstLeasableStep(jobs: map<Id, Row>, order: seq<Id>, i: nat, now: int, limit: nat, picked: seq<Id>)
    requires i < |order| && |picked| < limit
    ensures picked + FirstLeasable(jobs, order[i..], now, limit - |picked|) ==
              var next := if order[i] in jobs && Leasable(jobs[order[i]], now) then picked + [order[i]] else picked;
              next + FirstLeasable(jobs, order[i + 1..], now, limit - |next|)
  {
  }

  lemma ReclaimOne(jobs: map<Id, Row>, seen: set<Id>, id: Id, now: int, backoff: nat -> int)
    requires id in jobs && id !in seen
    ensures ReclaimAll(jobs, seen, now, backoff)[id] == jobs[id]
    ensures ReclaimAll(jobs, seen + {id}, now, backoff) ==
              ReclaimAll(jobs, seen, now, backoff)
              [id := Reclaimed(jobs[id], now, jobs[id].attempts, now + backoff(jobs[id].attempts))]
  {
  }

  lemma LeasableBefore(jobs: map<Id, Row>, now: int, backoff: nat -> int)
    requires forall n :: backoff(n) >= 0
    ensures forall id <- jobs ::
              Leasable(ReclaimAll(jobs, jobs.Keys, now, backoff)[id], now) ==> Leasable(jobs[id], now)
  {
  }
}
