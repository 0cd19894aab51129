/** The correlation broker (src/durable-objects/correlation-broker.ts): one object per workspace, message name and
    correlation key, holding a subscription, a consumed marker, buffered messages, a dedup table and an alarm. */
module Broker {
  import opened Prelude

  type Id = string

  /** Milliseconds a message stays buffered (src/util.ts). */
  const ONE_HOUR_MS: int := 3_600_000

  datatype Subscription = Subscription(subscriptionId: Id, instanceId: Id, elementId: Id, expiresAt: int)

  datatype Buffered = Buffered(externalId: Id, receivedAt: int, expiresAt: int)

  datatype MessageStatus = Correlated | InBuffer | Late | Expired

  datatype Dedup = Dedup(externalId: Id, status: MessageStatus, instanceId: Option<Id>)

  /** Storage of one broker. `clock` is the latest time seen; `correlated` and `claimed` record the messages correlated
      so far and the receipt times of those taken from the buffer. */
  datatype State = State(sub: Option<Subscription>, consumed: Option<Id>, buffer: map<Id, Buffered>,
                         dedup: map<Id, Dedup>, alarm: Option<int>, clock: int, correlated: seq<Id>,
                         claimed: seq<int>)

  datatype Event =
    | Register(req: Subscription, now: int)
    | Publish(messageId: Id, externalId: Id, now: int)
    | Supersede(instanceId: Id, elementId: Id)
    | ExpireAt(now: int)
    | Alarm(now: int)

  predicate Due(expiresAt: int, now: int) {
    expiresAt <= now
  }

  // ---- Transitions -----------------------------------------------------------------------------

  function DueAmong(buffer: map<Id, Buffered>, now: int): set<Id> {
    set m | m in buffer && Due(buffer[m].expiresAt, now)
  }

  function Expiries(buffer: map<Id, Buffered>, gone: set<Id>): map<Id, Dedup> {
    map m | m in gone && m in buffer :: Dedup(buffer[m].externalId, Expired, None)
  }

  /** Drop the due buffered messages and mark them expired. */
  function Swept(s: State, now: int): State {
    var gone := DueAmong(s.buffer, now);
    s.(buffer := s.buffer - gone, dedup := s.dedup + Expiries(s.buffer, gone), clock := now)
  }

  /** `dedup` and `buffer` are what the sweep makes of `known` and `all` once only the messages `rest` are left to
      see. */
  ghost predicate SweptSoFar(known: map<Id, Dedup>, all: map<Id, Buffered>, rest: set<Id>, now: int,
                             dedup: map<Id, Dedup>, buffer: map<Id, Buffered>) {
    buffer == all - (DueAmong(all, now) - rest) && dedup == known + Expiries(all, DueAmong(all, now) - rest)
  }

  lemma SweepOne(known: map<Id, Dedup>, all: map<Id, Buffered>, rest: set<Id>, m: Id, now: int,
                 dedup: map<Id, Dedup>, buffer: map<Id, Buffered>)
    requires m in rest && rest <= all.Keys && SweptSoFar(known, all, rest, now, dedup, buffer)
    ensures if Due(all[m].expiresAt, now)
            then SweptSoFar(known, all, rest - {m}, now, dedup[m := Dedup(all[m].externalId, Expired, None)],
                            buffer - {m})
            else SweptSoFar(known, all, rest - {m}, now, dedup, buffer)
  {
  }

  ghost predicate Earliest(buffer: map<Id, Buffered>, m: Id) {
    m in buffer && forall x <- buffer :: buffer[m].receivedAt <= buffer[x].receivedAt
  }

  /** Correlating message `m` with an instance consumes the key. */
  function Consumed(s: State, m: Id, externalId: Id, instanceId: Id): State {
    s.(dedup := s.dedup[m := Dedup(externalId, Correlated, Some(instanceId))], consumed := Some(instanceId),
       correlated := s.correlated + [m])
  }

  function Claimed(s: State, m: Id, instanceId: Id): State {
    if m !in s.buffer then s
    else Consumed(s.(buffer := s.buffer - {m}, claimed := s.claimed + [s.buffer[m].receivedAt]),
                  m, s.buffer[m].externalId, instanceId)
  }

  ghost predicate Registered(s: State, req: Subscription, s': State) {
    if s.sub.Some? then s' == s
    else if s.buffer == map[] then s' == s.(consumed := None, sub := Some(req))
    else exists m :: Earliest(s.buffer, m) && s' == Claimed(s, m, req.instanceId)
  }

  function Published(s: State, m: Id, externalId: Id, now: int): State {
    if m in s.dedup then s
    else if s.sub.Some? && !Due(s.sub.value.expiresAt, now) then
      Consumed(s.(sub := None), m, externalId, s.sub.value.instanceId)
    else if s.consumed.Some? then s.(dedup := s.dedup[m := Dedup(externalId, Late, s.consumed)])
    else
      var expiresAt := now + ONE_HOUR_MS;
      s.(buffer := s.buffer[m := Buffered(externalId, now, expiresAt)],
         dedup := s.dedup[m := Dedup(externalId, InBuffer, None)],
         alarm := if s.alarm.None? || s.alarm.value > expiresAt then Some(expiresAt) else s.alarm)
  }

  function Superseded(s: State, instanceId: Id, elementId: Id): State {
    if s.sub.Some? && s.sub.value.instanceId == instanceId && s.sub.value.elementId == elementId
    then s.(sub := None)
    else s
  }

  ghost predicate EarliestExpiry(buffer: map<Id, Buffered>, at: Option<int>) {
    match at
      case None => buffer == map[]
      case Some(t) => (exists m <- buffer :: buffer[m].expiresAt == t) && forall m <- buffer :: t <= buffer[m].expiresAt
  }

  /** One call of the broker; clocks never run backwards and an alarm never fires early. */
  ghost predicate Step(s: State, e: Event, s': State) {
    match e
      case Register(req, now) => s.clock <= now && Registered(Swept(s, now), req, s')
      case Publish(m, externalId, now) => s.clock <= now && s' == Published(Swept(s, now), m, externalId, now)
      case Supersede(instanceId, elementId) => s' == Superseded(s, instanceId, elementId)
      case ExpireAt(now) => s.clock <= now && s' == Swept(s, now)
      case Alarm(now) =>
        && s.clock <= now && s.alarm.Some? && s.alarm.value <= now
        && exists at :: EarliestExpiry(Swept(s, now).buffer, at) && s' == Swept(s, now).(alarm := at)
  }

  ghost function Stepping(): (State, State) -> bool {
    (s, s') => exists e :: Step(s, e, s')
  }

  function Fresh(clock: int): State {
    State(None, None, map[], map[], None, clock, [], [])
  }

  ghost predicate Run(run: seq<State>) {
    |run| > 0 && run[0] == Fresh(run[0].clock) && Steps(Stepping(), run)
  }

  // ---- Invariants ------------------------------------------------------------------------------

  /** A subscription that could still correlate finds the buffer empty; subscription and consumed marker exclude each
      other; and some alarm is set no later than the first buffered message expires. */
  ghost predicate Waiting(s: State) {
    && (s.sub.Some? && s.buffer != map[] ==> Due(s.sub.value.expiresAt, s.clock))
    && !(s.sub.Some? && s.consumed.Some?)
    && (s.buffer != map[] ==> s.alarm.Some?)
    && forall m <- s.buffer :: s.alarm.Some? && s.alarm.value <= s.buffer[m].expiresAt
  }

  /** The dedup table names exactly the buffered and the correlated messages as such. */
  ghost predicate Tracked(s: State) {
    && (forall m :: m in s.buffer <==> m in s.dedup && s.dedup[m].status.InBuffer?)
    && (forall m :: m in s.correlated <==> m in s.dedup && s.dedup[m].status.Correlated?)
    && (forall i, j :: 0 <= i < j < |s.correlated| ==> s.correlated[i] != s.correlated[j])
  }

  /** Claims from the buffer come in order of receipt, and nothing older than the last claim is still buffered. */
  ghost predicate InOrder(s: State) {
    && (forall i, j :: 0 <= i < j < |s.claimed| ==> s.claimed[i] <= s.claimed[j])
    && (forall i :: 0 <= i < |s.claimed| ==> s.claimed[i] <= s.clock)
    && (forall m <- s.buffer :: s.buffer[m].receivedAt <= s.clock
                                && s.buffer[m].expiresAt == s.buffer[m].receivedAt + ONE_HOUR_MS)
    && forall m <- s.buffer, i :: 0 <= i < |s.claimed| ==> s.claimed[i] <= s.buffer[m].receivedAt
  }

  ghost predicate Sound(s: State) {
    Waiting(s) && Tracked(s) && InOrder(s)
  }

  lemma SweptSound(s: State, now: int)
    requires Sound(s) && s.clock <= now
    ensures Sound(Swept(s, now))
    ensures forall m <- Swept(s, now).buffer :: !Due(Swept(s, now).buffer[m].expiresAt, now)
  {
  }

  /** The sweep touches no subscription, no marker and no key of the dedup table. */
  lemma SweptKeeps(s: State, now: int)
    requires Tracked(s)
    ensures Swept(s, now).sub == s.sub && Swept(s, now).consumed == s.consumed
    ensures Swept(s, now).dedup.Keys == s.dedup.Keys
  {
    assert forall m <- s.buffer :: m in s.dedup;
  }

  lemma ClaimedTracked(s: State, m: Id, instanceId: Id)
    requires Tracked(s) && m in s.buffer
    ensures Tracked(Claimed(s, m, instanceId))
  {
  }

  lemma ClaimedInOrder(s: State, m: Id, instanceId: Id)
    requires InOrder(s) && Earliest(s.buffer, m)
    ensures InOrder(Claimed(s, m, instanceId))
  {
  }

  lemma RegisteredSound(s: State, req: Subscription, s': State)
    requires Sound(s) && Registered(s, req, s')
    ensures Sound(s')
  {
    if s.sub.None? && s.buffer != map[] {
      var m :| Earliest(s.buffer, m) && s' == Claimed(s, m, req.instanceId);
      ClaimedTracked(s, m, req.instanceId);
      ClaimedInOrder(s, m, req.instanceId);
      assert Waiting(s');
    }
  }

  lemma PublishedWaiting(s: State, m: Id, externalId: Id)
    requires Waiting(s) && (m in s.buffer ==> m in s.dedup)
    ensures Waiting(Published(s, m, externalId, s.clock))
  {
  }

  lemma PublishedTracked(s: State, m: Id, externalId: Id)
    requires Tracked(s)
    ensures Tracked(Published(s, m, externalId, s.clock))
  {
    assert m !in s.dedup ==> m !in s.correlated && m !in s.buffer;
  }

  lemma PublishedInOrder(s: State, m: Id, externalId: Id)
    requires InOrder(s)
    ensures InOrder(Published(s, m, externalId, s.clock))
  {
  }

  lemma PublishedSound(s: State, m: Id, externalId: Id)
    requires Sound(s)
    ensures Sound(Published(s, m, externalId, s.clock))
  {
    assert m in s.buffer ==> m in s.dedup;
    PublishedWaiting(s, m, externalId);
    PublishedTracked(s, m, externalId);
    PublishedInOrder(s, m, externalId);
  }

  lemma StepSound(s: State, s': State)
    requires Sound(s) && Stepping()(s, s')
    ensures Sound(s')
  {
    var e :| Step(s, e, s');
    match e {
      case Register(req, now) => SweptSound(s, now); RegisteredSound(Swept(s, now), req, s');
      case Publish(m, externalId, now) => SweptSound(s, now); PublishedSound(Swept(s, now), m, externalId);
      case Supersede(_, _) =>
      case ExpireAt(now) => SweptSound(s, now);
      case Alarm(now) => SweptSound(s, now);
    }
  }

  /** In every reachable state the parts of the broker's storage are consistent. */
  lemma RunSound(run: seq<State>, n: nat)
    requires Run(run) && n < |run|
    ensures Sound(run[n])
  {
    forall s, s' | Sound(s) && Stepping()(s, s') ensures Sound(s') { StepSound(s, s'); }
    Invariance(Stepping(), s => Sound(s), run, 0, n);
  }

  // ---- Message lifecycle -----------------------------------------------------------------------

  function StatusOf(s: State, m: Id): Option<MessageStatus> {
    if m in s.dedup then Some(s.dedup[m].status) else None
  }

  /** A new message is correlated, buffered or late; a buffered one may still be correlated or expire; nothing else
      changes. */
  predicate MayBecome(before: Option<MessageStatus>, after: Option<MessageStatus>) {
    || before == after
    || (before.None? && after != Some(Expired))
    || (before == Some(InBuffer) && (after == Some(Correlated) || after == Some(Expired)))
  }

  lemma StatusSwept(s: State, now: int, m: Id)
    requires Sound(s)
    ensures StatusOf(Swept(s, now), m) ==
              if m in s.buffer && Due(s.buffer[m].expiresAt, now) then Some(Expired) else StatusOf(s, m)
    ensures m in s.buffer <==> StatusOf(s, m) == Some(InBuffer)
  {
  }

  /** One call: the sweep may expire the message before the call would correlate it. */
  lemma StatusStep(s: State, s': State, m: Id)
    requires Sound(s) && Stepping()(s, s')
    ensures MayBecome(StatusOf(s, m), StatusOf(s', m))
  {
    var e :| Step(s, e, s');
    match e {
      case Register(req, now) =>
        StatusSwept(s, now, m);
        SweptSound(s, now);
        StatusRegistered(Swept(s, now), req, s', m);
      case Publish(x, externalId, now) =>
        StatusSwept(s, now, m);
        StatusPublished(Swept(s, now), x, externalId, now, m);
      case Supersede(_, _) =>
      case ExpireAt(now) => StatusSwept(s, now, m);
      case Alarm(now) => StatusSwept(s, now, m);
    }
  }

  lemma StatusPublished(s: State, x: Id, externalId: Id, now: int, m: Id)
    ensures var after := StatusOf(Published(s, x, externalId, now), m);
            after == StatusOf(s, m) || (StatusOf(s, m).None? && after.Some? && after != Some(Expired))
  {
  }

  lemma StatusRegistered(s: State, req: Subscription, s': State, m: Id)
    requires Sound(s) && Registered(s, req, s')
    ensures StatusOf(s', m) == StatusOf(s, m)
            || (StatusOf(s, m) == Some(InBuffer) && StatusOf(s', m) == Some(Correlated))
  {
  }

  /** Correlated, late and expired are final: over any run a message has one such fate at most. */
  lemma FateIsFinal(run: seq<State>, i: nat, j: nat, m: Id)
    requires Run(run) && i <= j < |run|
    requires StatusOf(run[i], m).Some? && StatusOf(run[i], m) != Some(InBuffer)
    ensures StatusOf(run[j], m) == StatusOf(run[i], m)
  {
    var fate := StatusOf(run[i], m);
    RunSound(run, i);
    forall s, s' | Sound(s) && StatusOf(s, m) == fate && Stepping()(s, s')
      ensures Sound(s') && StatusOf(s', m) == fate
    {
      StepSound(s, s');
      StatusStep(s, s', m);
    }
    Invariance(Stepping(), s => Sound(s) && StatusOf(s, m) == fate, run, i, j);
  }

  /** Each message is correlated at most once, and the buffer hands messages out in order of receipt. */
  lemma CorrelatedOnceInOrder(run: seq<State>, n: nat)
    requires Run(run) && n < |run|
    ensures forall i, j :: 0 <= i < j < |run[n].correlated| ==> run[n].correlated[i] != run[n].correlated[j]
    ensures forall i, j :: 0 <= i < j < |run[n].claimed| ==> run[n].claimed[i] <= run[n].claimed[j]
  {
    RunSound(run, n);
  }

  /** A new message correlates at once exactly if a subscription is there and has not expired. */
  lemma CorrelatesExactly(s: State, m: Id, externalId: Id, now: int)
    requires Sound(s) && s.clock <= now && m !in s.dedup
    ensures var s' := Published(Swept(s, now), m, externalId, now);
            StatusOf(s', m) == Some(Correlated) <==> s.sub.Some? && now < s.sub.value.expiresAt
  {
  }

  /** Otherwise it comes too late exactly if the key is consumed, for the instance that consumed it, and is buffered for
      an hour exactly if not. */
  lemma NewMessageFate(s: State, m: Id, externalId: Id, now: int)
    requires Sound(s) && s.clock <= now && m !in s.dedup
    ensures var s' := Published(Swept(s, now), m, externalId, now);
            if s.sub.Some? && now < s.sub.value.expiresAt then
              s'.dedup[m] == Dedup(externalId, Correlated, Some(s.sub.value.instanceId))
              && s'.sub.None? && s'.consumed == Some(s.sub.value.instanceId) && m !in s'.buffer
            else if s.consumed.Some? then
              s'.dedup[m] == Dedup(externalId, Late, s.consumed) && m !in s'.buffer && s'.sub == s.sub
            else
              s'.dedup[m] == Dedup(externalId, InBuffer, None) && s'.sub == s.sub
              && m in s'.buffer && s'.buffer[m] == Buffered(externalId, now, now + 3_600_000)
  {
    SweptKeeps(s, now);
  }

  /** A message buffered until `at` is still there, was correlated, or has expired with its time over. */
  ghost predicate KeptUntil(s: State, m: Id, at: int) {
    || (m in s.buffer && s.buffer[m].expiresAt == at)
    || StatusOf(s, m) == Some(Correlated)
    || (StatusOf(s, m) == Some(Expired) && at <= s.clock)
  }

  lemma SweptKeptUntil(s: State, now: int, m: Id, at: int)
    requires Sound(s) && s.clock <= now && KeptUntil(s, m, at)
    ensures KeptUntil(Swept(s, now), m, at)
  {
    StatusSwept(s, now, m);
  }

  lemma RegisteredKeptUntil(s: State, req: Subscription, s': State, m: Id, at: int)
    requires Tracked(s) && KeptUntil(s, m, at) && Registered(s, req, s')
    ensures KeptUntil(s', m, at)
  {
  }

  lemma PublishedKeptUntil(s: State, x: Id, externalId: Id, now: int, m: Id, at: int)
    requires Tracked(s) && KeptUntil(s, m, at)
    ensures KeptUntil(Published(s, x, externalId, now), m, at)
  {
  }

  lemma StepKeptUntil(s: State, s': State, m: Id, at: int)
    requires Sound(s) && KeptUntil(s, m, at) && Stepping()(s, s')
    ensures KeptUntil(s', m, at)
  {
    var e :| Step(s, e, s');
    if !e.Supersede? {
      SweptKeptUntil(s, e.now, m, at);
      SweptSound(s, e.now);
      match e {
        case Register(req, now) => RegisteredKeptUntil(Swept(s, now), req, s', m, at);
        case Publish(x, externalId, now) => PublishedKeptUntil(Swept(s, now), x, externalId, now, m, at);
        case _ =>
      }
    }
  }

  /** No buffered message expires before its time: from then on it is buffered, correlated, or expired in time. */
  lemma NeverExpiresEarly(run: seq<State>, i: nat, j: nat, m: Id)
    requires Run(run) && i <= j < |run| && m in run[i].buffer
    ensures KeptUntil(run[j], m, run[i].buffer[m].expiresAt)
  {
    RunSound(run, i);
    var at := run[i].buffer[m].expiresAt;
    forall s, s' | Sound(s) && KeptUntil(s, m, at) && Stepping()(s, s') ensures Sound(s') && KeptUntil(s', m, at) {
      StepSound(s, s');
      StepKeptUntil(s, s', m, at);
    }
    Invariance(Stepping(), s => Sound(s) && KeptUntil(s, m, at), run, i, j);
  }

  // ---- An expired subscription -----------------------------------------------------------------

  ghost predicate StuckOn(sub: Subscription, log: seq<Id>, s: State) {
    s.sub == Some(sub) && Due(sub.expiresAt, s.clock) && s.correlated == log
  }

  ghost function Unsuperseded(): (State, State) -> bool {
    (s, s') => exists e :: Step(s, e, s') && !e.Supersede?
  }

  /** Expiry never removes a subscription: once it has lapsed, and until it is superseded, every registration leaves it
      in place and no message correlates at all. */
  lemma ExpiredSubscriptionStarves(run: seq<State>, sub: Subscription)
    requires |run| > 0 && Steps(Unsuperseded(), run) && run[0].sub == Some(sub) && Due(sub.expiresAt, run[0].clock)
    ensures forall n :: 0 <= n < |run| ==> run[n].sub == Some(sub) && run[n].correlated == run[0].correlated
  {
    var log := run[0].correlated;
    forall s, s' | StuckOn(sub, log, s) && Unsuperseded()(s, s') ensures StuckOn(sub, log, s') {
      var e :| Step(s, e, s') && !e.Supersede?;
    }
    forall n | 0 <= n < |run| ensures StuckOn(sub, log, run[n]) {
      Invariance(Unsuperseded(), s => StuckOn(sub, log, s), run, 0, n);
    }
  }

  // ---- The object ------------------------------------------------------------------------------

  datatype RegisterResult =
    | WaitingFor(subscriptionId: Id)
    | Rejected(existingInstanceId: Id)
    | CorrelatedWith(messageId: Id)

  datatype PublishResult =
    | Duplicate(original: Dedup)
    | Delivered(instanceId: Id)
    | TooLate(previous: Id)
    | Kept(expiresAt: int)

  class CorrelationBroker {
    var sub: Option<Subscription>
    var consumed: Option<Id>
    var buffer: map<Id, Buffered>
    var dedup: map<Id, Dedup>
    var alarm: Option<int>
    ghost var clock: int
    ghost var correlated: seq<Id>
    ghost var claimed: seq<int>

    constructor (ghost start: int)
      ensures Storage() == Fresh(start)
    {
      sub, consumed, buffer, dedup, alarm := None, None, map[], map[], None;
      clock, correlated, claimed := start, [], [];
    }

    ghost function Storage(): State
      reads this
    {
      State(sub, consumed, buffer, dedup, alarm, clock, correlated, claimed)
    }

    method ExpireDue(now: int)
      modifies this
      ensures Storage() == Swept(old(Storage()), now)
    {
      SweepBuffer(now);
      clock := now;
    }

    method SweepBuffer(now: int)
      modifies this`buffer, this`dedup
      ensures buffer == old(buffer) - DueAmong(old(buffer), now)
      ensures dedup == old(dedup) + Expiries(old(buffer), DueAmong(old(buffer), now))
    {
      var buffers, rest := buffer, buffer.Keys;
      while rest != {}
        invariant rest <= buffers.Keys
        invariant SweptSoFar(old(dedup), buffers, rest, now, dedup, buffer)
        decreases |rest|
      {
        var m :| m in rest;
        SweepOne(old(dedup), buffers, rest, m, now, dedup, buffer);
        if Due(buffers[m].expiresAt, now) {
          buffer, dedup := buffer - {m}, dedup[m := Dedup(buffers[m].externalId, Expired, None)];
        }
        rest := rest - {m};
      }
    }

    /** The receipt order decides; messages past their expiry are skipped. */
    method EarliestBuffered(now: int) returns (best: Option<Id>)
      ensures best.None? <==> forall m <- buffer :: Due(buffer[m].expiresAt, now)
      ensures best.Some? ==> best.value in buffer && !Due(buffer[best.value].expiresAt, now)
      ensures best.Some? ==> forall m <- buffer ::
                Due(buffer[m].expiresAt, now) || buffer[best.value].receivedAt <= buffer[m].receivedAt
    {
      best := None;
      var rest := buffer.Keys;
      while rest != {}
        invariant rest <= buffer.Keys
        invariant best.None? ==> forall m <- buffer :: m in rest || Due(buffer[m].expiresAt, now)
        invariant best.Some? ==> best.value in buffer && !Due(buffer[best.value].expiresAt, now)
        invariant best.Some? ==> forall m <- buffer ::
                    m in rest || Due(buffer[m].expiresAt, now) || buffer[best.value].receivedAt <= buffer[m].receivedAt
        decreases |rest|
      {
        var m :| m in rest;
        if !Due(buffer[m].expiresAt, now) && (best.None? || buffer[m].receivedAt < buffer[best.value].receivedAt) {
          best := Some(m);
        }
        rest := rest - {m};
      }
    }

    method MarkConsumed(m: Id, externalId: Id, instanceId: Id)
      modifies this`dedup, this`consumed, this`correlated
      ensures Storage() == Consumed(old(Storage()), m, externalId, instanceId)
    {
      dedup := dedup[m := Dedup(externalId, Correlated, Some(instanceId))];
      consumed, correlated := Some(instanceId), correlated + [m];
    }

    method ClaimBuffered(m: Id, instanceId: Id)
      requires m in buffer
      modifies this
      ensures Storage() == Claimed(old(Storage()), m, instanceId)
    {
      var message := buffer[m];
      buffer, claimed := buffer - {m}, claimed + [message.receivedAt];
      MarkConsumed(m, message.externalId, instanceId);
    }

    method RegisterSubscription(req: Subscription, now: int) returns (r: RegisterResult)
      requires Sound(Storage()) && clock <= now
      modifies this
      ensures Step(old(Storage()), Register(req, now), Storage()) && Sound(Storage())
      ensures r.Rejected? <==>
                old(sub).Some?
                && (old(sub).value.instanceId != req.instanceId || old(sub).value.elementId != req.elementId)
      ensures r.Rejected? ==> r.existingInstanceId == old(sub).value.instanceId
      ensures r.WaitingFor? ==>
                sub == (if old(sub).Some? then old(sub) else Some(req)) && r.subscriptionId == sub.value.subscriptionId
      ensures r.CorrelatedWith? ==>
                r.messageId in old(buffer) && r.messageId !in buffer && consumed == Some(req.instanceId) && sub.None?
      ensures r.CorrelatedWith? ==>
                !Due(old(buffer)[r.messageId].expiresAt, now)
                && forall m <- old(buffer) :: Due(old(buffer)[m].expiresAt, now)
                     || old(buffer)[r.messageId].receivedAt <= old(buffer)[m].receivedAt
      ensures r.CorrelatedWith? ==>
                r.messageId in dedup && dedup[r.messageId] ==
                  Dedup(old(buffer)[r.messageId].externalId, Correlated, Some(req.instanceId))
      ensures r.WaitingFor? && old(sub).None? ==> consumed.None?
      ensures r.CorrelatedWith? <==> old(sub).None? && exists m <- old(buffer) :: !Due(old(buffer)[m].expiresAt, now)
    {
      SweptSound(Storage(), now);
      ExpireDue(now);
      r := RegisterSwept(req, now);
    }

    /** Registering once the due messages are gone. */
    method RegisterSwept(req: Subscription, now: int) returns (r: RegisterResult)
      requires Sound(Storage()) && forall m <- buffer :: !Due(buffer[m].expiresAt, now)
      modifies this
      ensures Registered(old(Storage()), req, Storage()) && Sound(Storage())
      ensures match r
                case Rejected(i) =>
                  && old(sub).Some? && i == old(sub).value.instanceId
                  && (i != req.instanceId || old(sub).value.elementId != req.elementId)
                case WaitingFor(id) =>
                  && sub.Some? && id == sub.value.subscriptionId && old(buffer) == buffer
                  && if old(sub).Some? then
                       sub == old(sub) && sub.value.instanceId == req.instanceId && sub.value.elementId == req.elementId
                     else sub == Some(req) && consumed.None? && buffer == map[]
                case CorrelatedWith(m) =>
                  && old(sub).None? && sub.None? && Earliest(old(buffer), m) && m !in buffer
                  && consumed == Some(req.instanceId) && m in dedup
                  && dedup[m] == Dedup(old(buffer)[m].externalId, Correlated, Some(req.instanceId))
    {
      ghost var swept := Storage();
      if sub.Some? {
        if sub.value.instanceId == req.instanceId && sub.value.elementId == req.elementId {
          return WaitingFor(sub.value.subscriptionId);
        }
        return Rejected(sub.value.instanceId);
      }
      var first := EarliestBuffered(now);
      if first.Some? {
        var m := first.value;
        ClaimBuffered(m, req.instanceId);
        assert Earliest(swept.buffer, m);
        RegisteredSound(swept, req, Storage());
        return CorrelatedWith(m);
      }
      consumed, sub := None, Some(req);
      assert swept.buffer == map[];
      RegisteredSound(swept, req, Storage());
      r := WaitingFor(req.subscriptionId);
    }

    method SupersedeSubscription(instanceId: Id, elementId: Id)
      requires Sound(Storage())
      modifies this`sub
      ensures Step(old(Storage()), Supersede(instanceId, elementId), Storage()) && Sound(Storage())
      ensures sub.None? <==>
                old(sub).None?
                || (old(sub).value.instanceId == instanceId && old(sub).value.elementId == elementId)
      ensures sub.Some? ==> sub == old(sub)
    {
      if sub.Some? && sub.value.instanceId == instanceId && sub.value.elementId == elementId { sub := None; }
    }

    method PublishMessage(messageId: Id, externalId: Id, now: int) returns (r: PublishResult)
      requires Sound(Storage()) && clock <= now
      modifies this
      ensures Step(old(Storage()), Publish(messageId, externalId, now), Storage()) && Sound(Storage())
      ensures r.Duplicate? <==> messageId in old(dedup)
      ensures r.Delivered? <==> messageId !in old(dedup) && old(sub).Some? && now < old(sub).value.expiresAt
      ensures r.TooLate? <==>
                messageId !in old(dedup) && !(old(sub).Some? && now < old(sub).value.expiresAt) && old(consumed).Some?
      ensures r.Kept? <==>
                messageId !in old(dedup) && !(old(sub).Some? && now < old(sub).value.expiresAt) && old(consumed).None?
      ensures r.Duplicate? ==> messageId in dedup && r.original == dedup[messageId]
      ensures r.Duplicate? ==> sub == old(sub) && consumed == old(consumed) && correlated == old(correlated)
      ensures messageId in dedup && (r.Delivered? ==> dedup[messageId].status.Correlated?)
              && (r.TooLate? ==> dedup[messageId].status.Late?) && (r.Kept? ==> dedup[messageId].status.InBuffer?)
      ensures r.Delivered? ==> r.instanceId == old(sub).value.instanceId && consumed == Some(r.instanceId) && sub.None?
      ensures r.TooLate? ==> consumed == old(consumed) == Some(r.previous)
      ensures r.Kept? ==> messageId in buffer && r.expiresAt == now + ONE_HOUR_MS == buffer[messageId].expiresAt
    {
      SweptSound(Storage(), now);
      SweptKeeps(Storage(), now);
      ExpireDue(now);
      PublishedSound(Storage(), messageId, externalId);
      r := PublishSwept(messageId, externalId, now);
    }

    /** Publishing once the due messages are gone: a duplicate, a delivery, a late message or one more to keep. */
    method PublishSwept(messageId: Id, externalId: Id, now: int) returns (r: PublishResult)
      modifies this
      ensures Storage() == Published(old(Storage()), messageId, externalId, now)
      ensures match r
                case Duplicate(original) => messageId in old(dedup) && original == old(dedup)[messageId]
                case Delivered(i) =>
                  && messageId !in old(dedup) && old(sub).Some? && now < old(sub).value.expiresAt
                  && i == old(sub).value.instanceId && consumed == Some(i) && sub.None?
                case TooLate(i) =>
                  && messageId !in old(dedup) && !(old(sub).Some? && now < old(sub).value.expiresAt)
                  && consumed == old(consumed) == Some(i)
                case Kept(at) =>
                  && messageId !in old(dedup) && !(old(sub).Some? && now < old(sub).value.expiresAt)
                  && old(consumed).None? && messageId in buffer
                  && at == now + ONE_HOUR_MS == buffer[messageId].expiresAt
    {
      if messageId in dedup { return Duplicate(dedup[messageId]); }
      if sub.Some? && !Due(sub.value.expiresAt, now) {
        var instanceId := sub.value.instanceId;
        sub := None;
        MarkConsumed(messageId, externalId, instanceId);
        return Delivered(instanceId);
      }
      if consumed.Some? {
        dedup := dedup[messageId := Dedup(externalId, Late, consumed)];
        return TooLate(consumed.value);
      }
      var expiresAt := now + ONE_HOUR_MS;
      buffer := buffer[messageId := Buffered(externalId, now, expiresAt)];
      dedup := dedup[messageId := Dedup(externalId, InBuffer, None)];
      if alarm.None? || alarm.value > expiresAt { alarm := Some(expiresAt); }
      r := Kept(expiresAt);
    }

    /** The alarm handler: the alarm that fired is spent, and the next one is set for the earliest expiry left. */
    method OnAlarm(now: int)
      requires Sound(Storage()) && clock <= now && alarm.Some? && alarm.value <= now
      modifies this
      ensures Step(old(Storage()), Alarm(now), Storage()) && Sound(Storage())
    {
      SweptSound(Storage(), now);
      ExpireDue(now);
      ghost var swept := Storage();
      alarm := NextExpiry();
      assert EarliestExpiry(swept.buffer, alarm);
    }

    method NextExpiry() returns (earliest: Option<int>)
      ensures EarliestExpiry(buffer, earliest)
    {
      earliest := None;
      var rest := buffer.Keys;
      while rest != {}
        invariant rest <= buffer.Keys
        invariant earliest.None? ==> rest == buffer.Keys
        invariant earliest.Some? ==> exists m <- buffer :: buffer[m].expiresAt == earliest.value
        invariant earliest.Some? ==> forall m <- buffer :: m in rest || earliest.value <= buffer[m].expiresAt
        decreases |rest|
      {
        var m :| m in rest;
        if earliest.None? || buffer[m].expiresAt < earliest.value { earliest := Some(buffer[m].expiresAt); }
        rest := rest - {m};
      }
      assert earliest.None? ==> buffer == map[];
    }
  }
}
