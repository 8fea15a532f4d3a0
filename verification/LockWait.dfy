/**
 The waiting loop of fetchWithDistributedLock, as one request runs it. What Redis answers may depend
 on when a command is sent, and nothing else is known about it except that a command takes time.
 */
module LockWait {
  import opened Basics
  import DistributedLock

  /** A reply, None when the command fails, and how long it takes to arrive. */
  datatype Answer<T> = Answer(value: Option<T>, took: Time)

  /** Every answer the request could get, by the instant the command is sent. */
  datatype Redis = Redis(
    setNx: Time -> Answer<bool>,
    getL2: Time -> Answer<Bytes>,
    lockExists: Time -> Answer<bool>)

  ghost predicate EveryCommandTakesTime(redis: Redis) {
    forall t :: redis.setNx(t).took >= 1 && redis.getL2(t).took >= 1 && redis.lockExists(t).took >= 1
  }

  /** A command under the wait context: at the deadline it is abandoned, after it not even sent. */
  function Ask<T>(answer: Answer<T>, sent: Time, deadline: Time): (Option<T>, Time)
  {
    if sent >= deadline then (None, sent)
    else if sent + answer.took > deadline then (None, deadline)
    else (answer.value, sent + answer.took)
  }

  /** The wait context ends with the wait timeout, or earlier when the client goes away. */
  function WaitEnd(start: Time, timeoutMs: int, disconnect: Option<Time>): Time {
    var limit := start + timeoutMs * MILLISECOND + 2 * DistributedLock.LOCK_SAFETY_MARGIN;
    if disconnect.Some? && disconnect.value < limit then Max(start, disconnect.value) else limit
  }

  /** That is 4 ms after the backend timeout, or when the client goes away, whichever comes first. */
  lemma WaitEndExactly(start: Time, timeoutMs: int, disconnect: Option<Time>)
    requires timeoutMs > 0 && (disconnect.Some? ==> start <= disconnect.value)
    ensures WaitEnd(start, timeoutMs, disconnect) <= start + timeoutMs * 1_000_000 + 4_000_000
    ensures disconnect.Some? ==> WaitEnd(start, timeoutMs, disconnect) <= disconnect.value
    ensures || WaitEnd(start, timeoutMs, disconnect) == start + timeoutMs * 1_000_000 + 4_000_000
            || Some(WaitEnd(start, timeoutMs, disconnect)) == disconnect
  {
  }

  datatype WaitResult =
    | Acquired(sentAt: Time)
    | Found(body: Bytes, sentAt: Time)
    | ServiceUnavailable
    | GatewayTimeout

  /** Between two attempts lie at least three ticks for each one made from the first of them on. */
  ghost predicate Spaced(tries: seq<Time>) {
    forall i, j :: 0 <= i < j < |tries| ==> tries[i] + 3 * (j - i) <= tries[j]
  }

  lemma SpacedLonger(tries: seq<Time>, now: Time)
    requires Spaced(tries) && (tries != [] ==> tries[|tries| - 1] + 3 <= now)
    ensures Spaced(tries + [now])
  {
    assert forall i :: 0 <= i < |tries| - 1 ==> tries[i] + 3 * (|tries| - 1 - i) <= tries[|tries| - 1];
  }

  /** Every one of these attempts found the lock taken. */
  ghost predicate AllBusy(redis: Redis, tries: seq<Time>) {
    forall i :: 0 <= i < |tries| ==> redis.setNx(tries[i]).value == Some(false)
  }

  /**
   What a turn comes to when its replies arrive before the deadline: a SETNX that fails ends the wait
   and one that succeeds makes the owner; otherwise a value in L2 ends it; otherwise the lock decides,
   and while it is there the request sleeps for the poll interval, unless the deadline comes first.
   */
  ghost predicate RepliedInTime(redis: Redis, now: Time, deadline: Time, result: Option<WaitResult>, next: Time) {
    var tried := now + redis.setNx(now).took;
    var looked := tried + redis.getL2(tried).took;
    var probed := looked + redis.lockExists(looked).took;
    && (tried < deadline ==>
          match redis.setNx(now).value
          case None => result == Some(ServiceUnavailable) && next == tried
          case Some(true) => result == Some(Acquired(now)) && next == tried
          case Some(false) =>
            looked < deadline ==>
              if redis.getL2(tried).value.Some? then
                result == Some(Found(redis.getL2(tried).value.value, tried)) && next == looked
              else
                probed < deadline ==>
                  match redis.lockExists(looked).value
                  case None => result == Some(ServiceUnavailable) && next == probed
                  case Some(false) => result == None && next == probed
                  case Some(true) =>
                    && (probed + 25 * MILLISECOND < deadline ==> result == None && next == probed + 25 * MILLISECOND)
                    && (probed + 25 * MILLISECOND > deadline ==> result == Some(GatewayTimeout)))
  }

  /** One turn of the loop: None when the request has to try again, at `next`. */
  method OneTurn(redis: Redis, now: Time, deadline: Time) returns (result: Option<WaitResult>, next: Time)
    requires now <= deadline && EveryCommandTakesTime(redis)
    ensures now <= next <= deadline
    ensures result.None? ==> now + 3 <= next && redis.setNx(now).value == Some(false)
    ensures redis.setNx(now).value == Some(true) ==>
              result == Some(Acquired(now)) || result == Some(ServiceUnavailable)
    ensures result.Some? && result.value.Acquired? ==>
              result.value.sentAt == now && redis.setNx(now).value == Some(true)
    ensures result.Some? && result.value.Found? ==>
              redis.getL2(result.value.sentAt).value == Some(result.value.body)
    ensures result == Some(GatewayTimeout) ==> next == deadline
    ensures RepliedInTime(redis, now, deadline, result, next)
  {
    var (acquired, afterTry) := Ask(redis.setNx(now), now, deadline);
    if acquired.None? {
      return Some(ServiceUnavailable), afterTry;
    }
    if acquired.value {
      return Some(Acquired(now)), afterTry;
    }
    var (value, afterGet) := Ask(redis.getL2(afterTry), afterTry, deadline);
    if value.Some? {
      return Some(Found(value.value, afterTry)), afterGet;
    }
    var (present, afterProbe) := Ask(redis.lockExists(afterGet), afterGet, deadline);
    if present.None? {
      return Some(ServiceUnavailable), afterProbe;
    }
    if !present.value {
      return None, afterProbe;
    }
    // both channels of the select may be ready at the deadline itself
    var wakeAt := afterProbe + DistributedLock.LOCK_POLL_INTERVAL;
    var pollFirst: bool := *;
    if wakeAt > deadline || (wakeAt == deadline && !pollFirst) {
      return Some(GatewayTimeout), deadline;
    }
    return None, wakeAt;
  }

  /**
   The loop ends by the end of the wait context, also when it never sleeps because the lock keeps
   vanishing without a value. It ends as an owner only on a SETNX of its own that succeeded, and then
   all its earlier attempts had failed, so a request never holds the lock twice. The attempts number
   at most one for every three ticks it waited.
   */
  method WaitForLockOrValue(redis: Redis, start: Time, timeoutMs: int, disconnect: Option<Time>)
    returns (result: WaitResult, finish: Time, attempts: nat, ghost tries: seq<Time>)
    requires timeoutMs > 0 && EveryCommandTakesTime(redis)
    ensures start <= finish <= WaitEnd(start, timeoutMs, disconnect)
    ensures |tries| == attempts && attempts <= 1 + (finish - start) / 3
    ensures attempts > 0 && tries[0] == start
    ensures Spaced(tries) && AllBusy(redis, tries[..attempts - 1])
    ensures redis.setNx(tries[attempts - 1]).value == Some(true) ==>
              result == Acquired(tries[attempts - 1]) || result == ServiceUnavailable
    ensures result.Acquired? ==>
              result.sentAt == tries[attempts - 1] && redis.setNx(result.sentAt).value == Some(true)
    ensures result.Found? ==> redis.getL2(result.sentAt).value == Some(result.body)
    ensures result == GatewayTimeout ==> finish == WaitEnd(start, timeoutMs, disconnect)
  {
    var deadline := WaitEnd(start, timeoutMs, disconnect);
    var now := start;
    attempts, tries := 0, [];
    while true
      invariant start <= now <= deadline == WaitEnd(start, timeoutMs, disconnect)
      invariant |tries| == attempts && 3 * attempts <= now - start
      invariant tries == [] ==> now == start
      invariant tries != [] ==> tries[0] == start && tries[|tries| - 1] + 3 <= now
      invariant Spaced(tries) && AllBusy(redis, tries)
      decreases deadline - now
    {
      ghost var earlier, sentAt := tries, now;
      SpacedLonger(tries, now);
      attempts, tries := attempts + 1, tries + [now];
      assert tries[..attempts - 1] == earlier;
      var turn, next := OneTurn(redis, now, deadline);
      now := next;
      if turn.Some? {
        return turn.value, now, attempts, tries;
      }
      assert tries[attempts - 1] == sentAt;
    }
  }
}
