/**
 The protocol of gateway/distributed_lock.go for one cache key: any number of requests, on any
 number of gateways, racing through SETNX, the L2 re-check, the backend call, the store and the
 token-checked release, one Redis command or one local step at a time, under one clock.
 */
module DistributedLock {
  import opened Basics
  import opened RedisLock

  const LOCK_POLL_INTERVAL: Time := 25 * MILLISECOND
  const LOCK_SAFETY_MARGIN: Time := 2 * MILLISECOND

  type Pid = nat

  datatype Reply = Reply(ok: bool, status: int, body: Bytes)

  predicate Cacheable(r: Reply) {
    r.ok && 200 <= r.status < 300
  }

  datatype Outcome = FromL2(body: Bytes) | FromBackend(reply: Reply) | Unavailable

  datatype Pc =
    | Trying
    | ReadingL2
    | Probing
    | Sleeping(wakeAt: Time)
    | Rechecking
    | AboutToFetch
    | Fetching(startedAt: Time)
    | Storing(reply: Reply)
    | Releasing(outcome: Outcome)
    | Done(outcome: Outcome)

  /** `token` and `acquiredAt` are meaningful from the acquisition on. */
  datatype Request = Request(
    timeout: Time, ttlL2: Time, waitUntil: Time, pc: Pc, token: Token, acquiredAt: Time)
  {
    function LockTtl(): Time { timeout + LOCK_SAFETY_MARGIN }

    function Expiry(): Time { acquiredAt + LockTtl() }

    predicate Owner() {
      pc.Rechecking? || pc.AboutToFetch? || pc.Fetching? || pc.Storing? || pc.Releasing?
    }

    predicate Waiting() {
      pc.Trying? || pc.ReadingL2? || pc.Probing? || pc.Sleeping?
    }
  }

  /** The L2 entry of the key. Without a deadline it stays until it is deleted. */
  datatype Stored = Stored(body: Bytes, deadline: Option<Time>)

  /** A backend call made by the lock path: open while `end` is None. */
  datatype Span = Span(start: Time, timeout: Time, end: Option<Time>)
  {
    /** No later than this the call is over: its context is cancelled then. */
    function Limit(): Time {
      if end.Some? then end.value else start + timeout
    }
  }

  datatype State = State(
    now: Time,
    lock: Lock,
    l2: Option<Stored>,
    requests: map<Pid, Request>,
    minted: map<Token, Pid>,  // history: who drew each token
    calls: map<Pid, Span>)    // history: the backend calls so far

  datatype Step =
    | Arrive(p: Pid, timeoutMs: int, ttlL2: Time)
    | TryAcquire(p: Pid, t: Token)
    | TryAcquireLost(p: Pid, t: Token)  // Redis runs the SETNX, the wait context drops the reply
    | ReadL2(p: Pid)
    | ReadFails(p: Pid)
    | ProbeLock(p: Pid)
    | WakeUp(p: Pid)
    | GiveUp(p: Pid)
    | RecheckL2(p: Pid)
    | RecheckFails(p: Pid)              // an error or an undecodable value counts as a miss
    | BeginFetch(p: Pid)
    | EndFetch(p: Pid, reply: Reply)
    | StoreL2(p: Pid)
    | StoreFails(p: Pid)
    | Release(p: Pid)
    | ReleaseFails(p: Pid)
    | OtherStore(body: Bytes, ttl: Time)  // early refresh, or a request served without the lock
    | OtherDelete                         // eviction, or a cleared cache
    | Tick(until: Time)

  const Init := State(0, Free, None, map[], map[], map[])

  predicate L2Live(s: State) {
    s.l2.Some? && (s.l2.value.deadline.Some? ==> s.now < s.l2.value.deadline.value)
  }

  /** Redis SET with a time to live; go-redis sends no expiry for a zero duration. */
  function Put(body: Bytes, now: Time, ttl: Time): Stored {
    Stored(body, if ttl > 0 then Some(now + ttl) else None)
  }

  function PcOf(s: State, p: Pid): Pc {
    if p in s.requests then s.requests[p].pc else Done(Unavailable)
  }

  predicate Enabled(s: State, step: Step) {
    match step
    case Arrive(p, timeoutMs, _) => p !in s.requests && timeoutMs > 0
    case TryAcquire(p, t) => PcOf(s, p).Trying? && s.now < s.requests[p].waitUntil && t !in s.minted
    case TryAcquireLost(p, t) => PcOf(s, p).Trying? && t !in s.minted
    case ReadL2(p) => PcOf(s, p).ReadingL2?
    case ReadFails(p) => PcOf(s, p).ReadingL2?
    case ProbeLock(p) => PcOf(s, p).Probing?
    case WakeUp(p) => PcOf(s, p).Sleeping? && s.now >= PcOf(s, p).wakeAt
    case GiveUp(p) => p in s.requests && s.requests[p].Waiting()
    case RecheckL2(p) => PcOf(s, p).Rechecking?
    case RecheckFails(p) => PcOf(s, p).Rechecking?
    case BeginFetch(p) => PcOf(s, p).AboutToFetch?
    case EndFetch(p, _) => PcOf(s, p).Fetching?
    case StoreL2(p) => PcOf(s, p).Storing?
    case StoreFails(p) => PcOf(s, p).Storing?
    case Release(p) => PcOf(s, p).Releasing?
    case ReleaseFails(p) => PcOf(s, p).Releasing?
    case OtherStore(_, _) => true
    case OtherDelete => true
    case Tick(until) =>
      // time cannot pass a running call's deadline before the call has ended
      s.now <= until
      && forall p :: p in s.requests && s.requests[p].pc.Fetching? ==>
           until <= s.requests[p].pc.startedAt + s.requests[p].timeout
  }

  function Goto(s: State, p: Pid, pc: Pc): map<Pid, Request>
    requires p in s.requests
  {
    s.requests[p := s.requests[p].(pc := pc)]
  }

  function Do(s: State, step: Step): State
    requires Enabled(s, step)
  {
    match step
    case Arrive(p, timeoutMs, ttlL2) =>
      var timeout := timeoutMs * MILLISECOND;
      var waitUntil := s.now + timeout + LOCK_SAFETY_MARGIN + LOCK_SAFETY_MARGIN;
      s.(requests := s.requests[p := Request(timeout, ttlL2, waitUntil, Trying, 0, 0)])
    case TryAcquire(p, t) =>
      var r := s.requests[p];
      var s' := s.(lock := SetNx(s.lock, s.now, t, r.LockTtl()), minted := s.minted[t := p]);
      if Live(s.lock, s.now) then s'.(requests := Goto(s, p, ReadingL2))
      else s'.(requests := s.requests[p := r.(pc := Rechecking, token := t, acquiredAt := s.now)])
    case TryAcquireLost(p, t) =>
      s.(lock := SetNx(s.lock, s.now, t, s.requests[p].LockTtl()),
         minted := s.minted[t := p],
         requests := Goto(s, p, Done(Unavailable)))
    case ReadL2(p) =>
      s.(requests := Goto(s, p, if L2Live(s) then Done(FromL2(s.l2.value.body)) else Probing))
    case ReadFails(p) => s.(requests := Goto(s, p, Probing))
    case ProbeLock(p) =>
      s.(requests := Goto(s, p, if Live(s.lock, s.now) then Sleeping(s.now + LOCK_POLL_INTERVAL) else Trying))
    case WakeUp(p) => s.(requests := Goto(s, p, Trying))
    case GiveUp(p) => s.(requests := Goto(s, p, Done(Unavailable)))
    case RecheckL2(p) =>
      s.(requests := Goto(s, p, if L2Live(s) then Releasing(FromL2(s.l2.value.body)) else AboutToFetch))
    case RecheckFails(p) => s.(requests := Goto(s, p, AboutToFetch))
    case BeginFetch(p) =>
      s.(requests := Goto(s, p, Fetching(s.now)),
         calls := s.calls[p := Span(s.now, s.requests[p].timeout, None)])
    case EndFetch(p, reply) =>
      var s' := s.(requests := Goto(s, p, if Cacheable(reply) then Storing(reply) else Releasing(FromBackend(reply))));
      if p in s.calls then s'.(calls := s.calls[p := s.calls[p].(end := Some(s.now))]) else s'
    case StoreL2(p) =>
      var r := s.requests[p];
      s.(requests := Goto(s, p, Releasing(FromBackend(r.pc.reply))),
         l2 := Some(Put(r.pc.reply.body, s.now, r.ttlL2)))
    case StoreFails(p) => s.(requests := Goto(s, p, Releasing(FromBackend(s.requests[p].pc.reply))))
    case Release(p) =>
      var r := s.requests[p];
      s.(requests := Goto(s, p, Done(r.pc.outcome)), lock := CompareAndDelete(s.lock, s.now, r.token))
    case ReleaseFails(p) => s.(requests := Goto(s, p, Done(s.requests[p].pc.outcome)))
    case OtherStore(body, ttl) => s.(l2 := Some(Put(body, s.now, ttl)))
    case OtherDelete => s.(l2 := None)
    case Tick(until) => s.(now := until)
  }

  /** A run is a sequence of steps, each enabled where it is taken. */
  ghost predicate IsRun(steps: seq<Step>)
    decreases |steps|, 0
  {
    steps != [] ==>
      IsRun(steps[..|steps| - 1]) && Enabled(After(steps[..|steps| - 1]), steps[|steps| - 1])
  }

  ghost function After(steps: seq<Step>): State
    requires IsRun(steps)
    decreases |steps|, 1
  {
    if steps == [] then Init else Do(After(steps[..|steps| - 1]), steps[|steps| - 1])
  }

  // ---------------------------------------------------------------------------------------------
  // What every step keeps

  /** The request has started its backend call. */
  predicate HasCalled(pc: Pc) {
    || pc.Fetching?
    || pc.Storing?
    || ((pc.Releasing? || pc.Done?) && pc.outcome.FromBackend?)
  }

  ghost predicate TokensKnown(s: State) {
    && (s.lock.Held? ==> s.lock.token in s.minted)
    && (forall p :: p in s.requests && s.requests[p].Owner() ==>
          s.requests[p].token in s.minted && s.minted[s.requests[p].token] == p)
  }

  /** An owner keeps its lock until the lock's own deadline: only its own token deletes it. */
  ghost predicate Tenures(s: State) {
    forall p :: p in s.requests && s.requests[p].Owner() ==>
      var r := s.requests[p];
      && r.acquiredAt <= s.now
      && (s.lock == Held(r.token, r.Expiry()) || s.now >= r.Expiry())
  }

  ghost predicate TimeoutsPositive(s: State) {
    forall p :: p in s.requests ==> s.requests[p].timeout > 0
  }

  predicate CallKeyed(s: State, p: Pid) {
    p in s.calls <==> p in s.requests && HasCalled(s.requests[p].pc)
  }

  ghost predicate CallsKeyed(s: State) {
    forall p :: CallKeyed(s, p)
  }

  ghost predicate CallsFit(s: State)
    requires CallsKeyed(s)
  {
    forall p :: p in s.calls ==> CallKeyed(s, p) && CallFits(s.requests[p], s.calls[p], s.now)
  }

  predicate CallFits(r: Request, c: Span, now: Time) {
    && (r.pc.Fetching? <==> c.end.None?)
    && (r.pc.Fetching? ==> c == Span(r.pc.startedAt, r.timeout, None) && now <= c.Limit())
    && r.acquiredAt <= c.start <= c.Limit() <= c.start + r.timeout
    && c.start <= now && (c.end.Some? ==> c.end.value <= now)
  }

  ghost predicate Inv(s: State) {
    TokensKnown(s) && Tenures(s) && TimeoutsPositive(s) && CallsKeyed(s) && CallsFit(s)
  }

  lemma TokensStep(s: State, step: Step)
    requires TokensKnown(s) && Enabled(s, step)
    ensures TokensKnown(Do(s, step))
  {
  }

  lemma TenuresStep(s: State, step: Step)
    requires TokensKnown(s) && Tenures(s) && TimeoutsPositive(s) && Enabled(s, step)
    ensures Tenures(Do(s, step))
  {
  }

  lemma CallsKeyedStep(s: State, step: Step)
    requires CallsKeyed(s) && Enabled(s, step)
    ensures CallsKeyed(Do(s, step))
  {
    forall p ensures CallKeyed(Do(s, step), p) {
      assert CallKeyed(s, p);
    }
  }

  lemma TimeoutsStep(s: State, step: Step)
    requires TimeoutsPositive(s) && Enabled(s, step)
    ensures TimeoutsPositive(Do(s, step))
  {
  }

  lemma CallsFitStep(s: State, step: Step)
    requires Inv(s) && Enabled(s, step) && CallsKeyed(Do(s, step))
    ensures CallsFit(Do(s, step))
  {
    var s' := Do(s, step);
    forall p | p in s'.calls ensures CallFits(s'.requests[p], s'.calls[p], s'.now) {
      if (step.BeginFetch? || step.EndFetch?) && p == step.p {
      } else {
        CallFitStep(s, step, p);
      }
    }
  }

  /** A call is not disturbed by the steps of others, nor by the later steps of its own request. */
  lemma CallFitStep(s: State, step: Step, p: Pid)
    requires Enabled(s, step) && p in s.calls && p in s.requests
    requires HasCalled(s.requests[p].pc) && CallFits(s.requests[p], s.calls[p], s.now)
    requires (step.BeginFetch? || step.EndFetch?) ==> p != step.p
    ensures p in Do(s, step).calls && p in Do(s, step).requests
    ensures CallFits(Do(s, step).requests[p], Do(s, step).calls[p], Do(s, step).now)
  {
  }

  lemma InvStep(s: State, step: Step)
    requires Inv(s) && Enabled(s, step)
    ensures Inv(Do(s, step))
  {
    TokensStep(s, step);
    TenuresStep(s, step);
    TimeoutsStep(s, step);
    CallsKeyedStep(s, step);
    CallsFitStep(s, step);
  }

  lemma {:induction false} InvRun(steps: seq<Step>)
    requires IsRun(steps)
    ensures Inv(After(steps))
  {
    if steps != [] {
      InvRun(steps[..|steps| - 1]);
      InvStep(After(steps[..|steps| - 1]), steps[|steps| - 1]);
    }
  }

  // ---------------------------------------------------------------------------------------------
  // Mutual exclusion and release

  predicate InTenure(s: State, p: Pid) {
    p in s.requests && s.requests[p].Owner() && s.now < s.requests[p].Expiry()
  }

  /** In any run, two requests within their lock's time to live cannot both be owners. */
  lemma OneOwnerInTime(steps: seq<Step>, p: Pid, q: Pid)
    requires IsRun(steps)
    requires InTenure(After(steps), p) && InTenure(After(steps), q)
    ensures p == q
  {
    InvRun(steps);
  }

  /**
   In any run, whatever slow owners do after their lock has run out, a live lock goes away at a step
   exactly when its own deadline passes or the request that drew its token releases it.
   */
  lemma LockLeavesByOwnerOrExpiry(steps: seq<Step>, step: Step)
    requires IsRun(steps) && Enabled(After(steps), step)
    requires var s := After(steps); Live(s.lock, s.now)
    ensures
      var s, s' := After(steps), Do(After(steps), step);
      Lost(s'.lock, s'.now, s.lock.token) <==>
        || (step.Tick? && step.until >= s.lock.expiresAt)
        || (step.Release? && s.requests[step.p].token == s.lock.token)
    ensures
      var s := After(steps);
      step.Release? && s.requests[step.p].token == s.lock.token ==>
        s.lock.token in s.minted && s.minted[s.lock.token] == step.p
  {
    InvRun(steps);
  }

  /** In particular the release of an owner within its lock's time to live frees the lock at once. */
  lemma ReleaseFrees(steps: seq<Step>, p: Pid)
    requires IsRun(steps) && InTenure(After(steps), p) && Enabled(After(steps), Release(p))
    ensures Do(After(steps), Release(p)).lock == Free
  {
    InvRun(steps);
  }

  /**
   And then a waiter that looks at the lock next tries again and becomes the owner, while one that
   looked before goes on sleeping.
   */
  lemma ReleaseHandsOver(steps: seq<Step>, p: Pid, q: Pid, t: Token)
    requires IsRun(steps) && InTenure(After(steps), p) && Enabled(After(steps), Release(p))
    requires PcOf(After(steps), q).Probing?
    requires After(steps).now < After(steps).requests[q].waitUntil && t !in After(steps).minted
    ensures PcOf(Do(After(steps), ProbeLock(q)), q) == Sleeping(After(steps).now + 25 * MILLISECOND)
    ensures
      var s := Do(After(steps), Release(p));
      && Enabled(s, ProbeLock(q)) && Enabled(Do(s, ProbeLock(q)), TryAcquire(q, t))
      && InTenure(Do(Do(s, ProbeLock(q)), TryAcquire(q, t)), q)
      && PcOf(Do(Do(s, ProbeLock(q)), TryAcquire(q, t)), q).Rechecking?
  {
    InvRun(steps);
    ReleaseFrees(steps, p);
  }

  /**
   A waiter that has slept for the poll interval tries again, as long as its wait is not over: until
   the backend timeout and twice the margin have passed since it came. A lock acquired lasts for the
   backend timeout and one margin.
   */
  lemma WaitsAndTenures(s: State, p: Pid, t: Token)
    requires Enabled(s, WakeUp(p)) && t !in s.minted
    ensures Enabled(Do(s, WakeUp(p)), TryAcquire(p, t)) <==> s.now < s.requests[p].waitUntil
    ensures Enabled(Do(s, WakeUp(p)), TryAcquire(p, t)) && !Live(s.lock, s.now) ==>
              Do(Do(s, WakeUp(p)), TryAcquire(p, t)).lock == Held(t, s.now + s.requests[p].timeout + 2_000_000)
    ensures forall q, timeoutMs, ttlL2 :: Enabled(s, Arrive(q, timeoutMs, ttlL2)) ==>
              Do(s, Arrive(q, timeoutMs, ttlL2)).requests[q].waitUntil == s.now + timeoutMs * 1_000_000 + 4_000_000
  {
  }

  /** Stores and evictions from elsewhere reach the same L2 entry. */
  lemma OthersChangeL2(s: State, body: Bytes, ttl: Time, at: Time)
    requires at >= s.now
    ensures
      var later := Do(s, OtherStore(body, ttl)).(now := at);
      (L2Live(later) <==> ttl <= 0 || at < s.now + ttl) && later.l2.Some? && later.l2.value.body == body
    ensures !L2Live(Do(s, OtherDelete))
  {
  }

  // ---------------------------------------------------------------------------------------------
  // Backend calls do not overlap

  /** The owner starts its backend timeout within the safety margin of acquiring the lock. */
  predicate Prompt(s: State, step: Step) {
    step.BeginFetch? && step.p in s.requests ==>
      s.now <= s.requests[step.p].acquiredAt + LOCK_SAFETY_MARGIN
  }

  ghost predicate PromptRun(steps: seq<Step>)
    requires IsRun(steps)
  {
    steps != [] ==> PromptRun(steps[..|steps| - 1]) && Prompt(After(steps[..|steps| - 1]), steps[|steps| - 1])
  }

  predicate Apart(c: Span, d: Span) {
    c.Limit() <= d.start || d.Limit() <= c.start
  }

  ghost predicate CallsApart(s: State) {
    forall p, q :: p in s.calls && q in s.calls && p != q ==> Apart(s.calls[p], s.calls[q])
  }

  ghost predicate CallsCovered(s: State)
    requires CallsKeyed(s)
  {
    forall p :: p in s.calls ==>
      CallKeyed(s, p) && s.calls[p].start <= s.requests[p].acquiredAt + LOCK_SAFETY_MARGIN
  }

  /** When a prompt owner is about to call the backend, every earlier call is over by now. */
  lemma EarlierCallsOver(s: State, q: Pid, p: Pid)
    requires Inv(s) && CallsCovered(s)
    requires Enabled(s, BeginFetch(q)) && Prompt(s, BeginFetch(q)) && p in s.calls
    ensures s.calls[p].Limit() <= s.now
  {
  }

  lemma ApartStep(s: State, step: Step)
    requires Inv(s) && CallsCovered(s) && CallsApart(s) && Enabled(s, step) && Prompt(s, step)
    ensures CallsApart(Do(s, step))
  {
    if step.BeginFetch? {
      forall p | p in s.calls ensures s.calls[p].Limit() <= s.now {
        EarlierCallsOver(s, step.p, p);
      }
    }
  }

  lemma CoveredStep(s: State, step: Step)
    requires Inv(s) && CallsCovered(s) && Enabled(s, step) && Prompt(s, step)
    requires CallsKeyed(Do(s, step))
    ensures CallsCovered(Do(s, step))
  {
  }

  /**
   Timed exclusion: in every run whose owners start their backend timeout promptly, the backend
   calls of the lock path occupy disjoint intervals, on all gateways and for any mix of timeouts.
   */
  lemma {:induction false} BackendCallsNeverOverlap(steps: seq<Step>)
    requires IsRun(steps) && PromptRun(steps)
    ensures forall p, q :: p in After(steps).calls && q in After(steps).calls && p != q ==>
              Apart(After(steps).calls[p], After(steps).calls[q])
  {
    ExclusionRun(steps);
  }

  lemma {:induction false} ExclusionRun(steps: seq<Step>)
    requires IsRun(steps) && PromptRun(steps)
    ensures Inv(After(steps)) && CallsCovered(After(steps)) && CallsApart(After(steps))
  {
    if steps != [] {
      var before, step := steps[..|steps| - 1], steps[|steps| - 1];
      ExclusionRun(before);
      InvStep(After(before), step);
      CoveredStep(After(before), step);
      ApartStep(After(before), step);
    }
  }

  // ---------------------------------------------------------------------------------------------
  // One backend call per fill

  /** From here on the key stays in L2, and no owner's re-check of it fails. */
  ghost predicate StaysFilled(s: State, steps: seq<Step>)
    decreases |steps|
  {
    && L2Live(s)
    && (steps != [] ==>
          Enabled(s, steps[0]) && !steps[0].RecheckFails? && StaysFilled(Do(s, steps[0]), steps[1..]))
  }

  ghost predicate NobodyAboutToFetch(s: State) {
    forall p :: p in s.requests ==> !s.requests[p].pc.AboutToFetch?
  }

  /** No request of the lock path starts a backend call while the key stays filled. */
  ghost predicate NoCallWhileFilled(s: State) {
    forall more: seq<Step>, i :: StaysFilled(s, more) && 0 <= i < |more| ==> !more[i].BeginFetch?
  }

  lemma {:induction false} FilledMeansNoCall(s: State, steps: seq<Step>, i: nat)
    requires NobodyAboutToFetch(s) && StaysFilled(s, steps) && i < |steps|
    ensures !steps[i].BeginFetch?
    decreases |steps|
  {
    if i > 0 {
      FilledMeansNoCall(Do(s, steps[0]), steps[1..], i - 1);
    }
  }

  /** A live key keeps the backend quiet exactly when no owner has passed its re-check already. */
  lemma FilledKeepsQuietExactly(s: State)
    requires L2Live(s)
    ensures NoCallWhileFilled(s) <==> NobodyAboutToFetch(s)
  {
    if NobodyAboutToFetch(s) {
      forall more: seq<Step>, i | StaysFilled(s, more) && 0 <= i < |more| ensures !more[i].BeginFetch? {
        FilledMeansNoCall(s, more, i);
      }
    } else {
      var p :| p in s.requests && s.requests[p].pc.AboutToFetch?;
      assert StaysFilled(s, [BeginFetch(p)]) && [BeginFetch(p)][0].BeginFetch?;
    }
  }

  /**
   Once an owner has stored the key in L2, no request of the lock path starts a backend call for it
   while the entry stays live, if at the store neither that owner nor one about to call had outlived
   its lock. Later owners may be as slow as they like.
   */
  lemma OneBackendCallPerFill(steps: seq<Step>, p: Pid)
    requires IsRun(steps) && Enabled(After(steps), StoreL2(p))
    requires InTenure(After(steps), p)
    requires forall q :: PcOf(After(steps), q).AboutToFetch? ==> InTenure(After(steps), q)
    ensures NoCallWhileFilled(Do(After(steps), StoreL2(p)))
  {
    var s := After(steps);
    forall q | q in s.requests && s.requests[q].pc.AboutToFetch? ensures q == p {
      assert PcOf(s, q).AboutToFetch?;
      OneOwnerInTime(steps, p, q);
    }
    FilledKeepsQuietExactly(Do(s, StoreL2(p)));
  }

  // ---------------------------------------------------------------------------------------------
  // What requests are answered with

  /**
   The owner's reply reaches L2 exactly when it is a 2xx one; it is live there until its TTL is over,
   and meanwhile a waiter that reads L2, or a later owner that re-checks it, is answered with it.
   */
  lemma OwnerServesWaiters(s: State, p: Pid, reply: Reply, q: Pid, until: Time)
    requires Enabled(s, EndFetch(p, reply)) && q != p && until >= s.now
    ensures
      var fetched := Do(s, EndFetch(p, reply));
      && (Enabled(fetched, StoreL2(p)) <==> reply.ok && 200 <= reply.status < 300)
      && (!Enabled(fetched, StoreL2(p)) ==> Enabled(fetched, Release(p)) && fetched.l2 == s.l2)
      && (Enabled(fetched, StoreL2(p)) ==>
            var ttl := s.requests[p].ttlL2;
            var later := Do(fetched, StoreL2(p)).(now := until);
            && (L2Live(later) <==> ttl <= 0 || until < s.now + ttl)
            && (L2Live(later) && PcOf(s, q).ReadingL2? ==>
                  PcOf(Do(later, ReadL2(q)), q) == Done(FromL2(reply.body)))
            && (L2Live(later) && PcOf(s, q).Rechecking? ==>
                  PcOf(Do(later, RecheckL2(q)), q) == Releasing(FromL2(reply.body))))
  {
  }

  /** The backend ended the call of `p` with this reply. */
  ghost predicate Fetched(steps: seq<Step>, p: Pid, reply: Reply) {
    exists i :: 0 <= i < |steps| && steps[i] == EndFetch(p, reply)
  }

  /** A step that brings these bytes into L2, now or when its owner stores them. */
  predicate Brings(step: Step, body: Bytes) {
    || (step.OtherStore? && step.body == body)
    || (step.EndFetch? && step.reply.ok && 200 <= step.reply.status < 300 && step.reply.body == body)
  }

  ghost predicate Brought(steps: seq<Step>, body: Bytes) {
    exists i :: 0 <= i < |steps| && Brings(steps[i], body)
  }

  ghost predicate GenuineOutcome(steps: seq<Step>, p: Pid, outcome: Outcome) {
    match outcome
    case FromL2(body) => Brought(steps, body)
    case FromBackend(reply) => Fetched(steps, p, reply)
    case Unavailable => true
  }

  ghost predicate GenuinePc(steps: seq<Step>, p: Pid, pc: Pc) {
    match pc
    case Storing(reply) => Fetched(steps, p, reply) && Brought(steps, reply.body)
    case Releasing(outcome) => GenuineOutcome(steps, p, outcome)
    case Done(outcome) => GenuineOutcome(steps, p, outcome)
    case _ => true
  }

  ghost predicate Genuine(steps: seq<Step>, s: State) {
    && (s.l2.Some? ==> Brought(steps, s.l2.value.body))
    && forall p :: p in s.requests ==> GenuinePc(steps, p, s.requests[p].pc)
  }

  lemma GenuineKept(steps: seq<Step>, step: Step, p: Pid, pc: Pc)
    requires GenuinePc(steps, p, pc)
    ensures GenuinePc(steps + [step], p, pc)
  {
    forall reply | Fetched(steps, p, reply) ensures Fetched(steps + [step], p, reply) {
      var i :| 0 <= i < |steps| && steps[i] == EndFetch(p, reply);
      assert (steps + [step])[i] == EndFetch(p, reply);
    }
    forall body | Brought(steps, body) ensures Brought(steps + [step], body) {
      BroughtKept(steps, step, body);
    }
  }

  lemma BroughtKept(steps: seq<Step>, step: Step, body: Bytes)
    requires Brought(steps, body)
    ensures Brought(steps + [step], body)
  {
    var i :| 0 <= i < |steps| && Brings(steps[i], body);
    assert Brings((steps + [step])[i], body);
  }

  lemma GenuineStep(steps: seq<Step>, s: State, step: Step)
    requires Genuine(steps, s) && Enabled(s, step)
    ensures Genuine(steps + [step], Do(s, step))
  {
    var s' := Do(s, step);
    var longer := steps + [step];
    assert longer[|steps|] == step;
    if s.l2.Some? {
      BroughtKept(steps, step, s.l2.value.body);
    }
    forall p | p in s'.requests ensures GenuinePc(longer, p, s'.requests[p].pc) {
      if p in s.requests {
        GenuineKept(steps, step, p, s.requests[p].pc);
      }
    }
    if step.StoreL2? {
      GenuineKept(steps, step, step.p, s.requests[step.p].pc);
    } else if step.OtherStore? {
      assert Brings(longer[|steps|], step.body);
    }
  }

  lemma {:induction false} GenuineRun(steps: seq<Step>)
    requires IsRun(steps)
    ensures Genuine(steps, After(steps))
  {
    if steps != [] {
      var before := steps[..|steps| - 1];
      GenuineRun(before);
      GenuineStep(before, After(before), steps[|steps| - 1]);
      assert before + [steps[|steps| - 1]] == steps;
    }
  }

  /**
   Every answer is genuine: one from the backend is the reply that ended this very request's call,
   and one from L2 has the bytes of a 2xx reply to some lock-path call, or of a store from elsewhere.
   */
  lemma AnswersAreGenuine(steps: seq<Step>, p: Pid)
    requires IsRun(steps) && PcOf(After(steps), p).Done?
    ensures
      var outcome := PcOf(After(steps), p).outcome;
      && (outcome.FromBackend? ==> Fetched(steps, p, outcome.reply))
      && (outcome.FromL2? ==> Brought(steps, outcome.body))
  {
    GenuineRun(steps);
    if p in After(steps).requests {
      assert GenuinePc(steps, p, After(steps).requests[p].pc);
    }
  }

  // ---------------------------------------------------------------------------------------------
  // The safety margin is exact

  lemma Extend(steps: seq<Step>, step: Step) returns (longer: seq<Step>)
    requires IsRun(steps) && Enabled(After(steps), step)
    ensures longer == steps + [step] && IsRun(longer) && After(longer) == Do(After(steps), step)
  {
    longer := steps + [step];
    assert longer[..|longer| - 1] == steps;
  }

  /** A request finds the lock free and L2 empty, and gets as far as being about to call the backend. */
  lemma OwnerGetsReady(before: seq<Step>, p: Pid, t: Token, timeoutMs: int) returns (steps: seq<Step>)
    requires IsRun(before) && timeoutMs > 0
    requires
      var s := After(before);
      p !in s.requests && t !in s.minted && !Live(s.lock, s.now) && s.l2.None?
    ensures IsRun(steps)
    ensures
      var s, timeout := After(before), timeoutMs * MILLISECOND;
      var expiry := s.now + timeout + LOCK_SAFETY_MARGIN;
      After(steps) == s.(
        lock := Held(t, expiry), minted := s.minted[t := p],
        requests := s.requests[p := Request(timeout, 0, expiry + LOCK_SAFETY_MARGIN, AboutToFetch, t, s.now)])
  {
    var s := After(before);
    steps := Extend(before, Arrive(p, timeoutMs, 0));
    steps := Extend(steps, TryAcquire(p, t));
    steps := Extend(steps, RecheckL2(p));
    assert After(steps).requests == s.requests[p := After(steps).requests[p]];
  }

  /** The first owner starts its call after `delay`; its lock runs out before that or during the call. */
  lemma FirstOwnerStartsLate(timeoutMs: int, delay: Time) returns (steps: seq<Step>)
    requires timeoutMs > 0 && delay >= LOCK_SAFETY_MARGIN
    ensures IsRun(steps)
    ensures
      var s, timeout := After(steps), timeoutMs * MILLISECOND;
      && s.now == Max(delay, timeout + LOCK_SAFETY_MARGIN) && !Live(s.lock, s.now) && s.l2 == None
      && s.requests.Keys == {0} && s.minted.Keys == {0} && s.calls == map[0 := Span(delay, timeout, None)]
  {
    steps := OwnerGetsReady([], 0, 0, timeoutMs);
    steps := Extend(steps, Tick(delay));
    steps := Extend(steps, BeginFetch(0));
    steps := Extend(steps, Tick(Max(delay, timeoutMs * MILLISECOND + LOCK_SAFETY_MARGIN)));
  }

  /**
   For any timeout and any start delay beyond the margin there is a run in which only that one start
   is late and two backend calls overlap: the second owner acquires once the first lock has run out.
   */
  lemma LateStartCanOverlap(timeoutMs: int, delay: Time) returns (steps: seq<Step>)
    requires timeoutMs > 0 && delay > LOCK_SAFETY_MARGIN
    ensures IsRun(steps) && {0, 1} <= After(steps).calls.Keys
    ensures After(steps).calls[0].start == delay
    ensures !Apart(After(steps).calls[0], After(steps).calls[1])
    ensures var s := After(steps); 1 in s.requests && s.calls[1].start == s.requests[1].acquiredAt
  {
    steps := FirstOwnerStartsLate(timeoutMs, delay);
    steps := OwnerGetsReady(steps, 1, 1, timeoutMs);
    steps := Extend(steps, BeginFetch(1));
  }
}
