/**
 A lock kept in one Redis key: created with SETNX and a time to live, removed by the script that
 deletes the key only while it still carries the caller's token. Both the per-key backend lock and
 the adaptive TTL controller lock are used this way.
 */
module RedisLock {
  import opened Basics

  type Token = nat

  datatype Lock = Free | Held(token: Token, expiresAt: Time)

  predicate Live(lock: Lock, now: Time) {
    lock.Held? && now < lock.expiresAt
  }

  function SetNx(lock: Lock, now: Time, token: Token, ttl: Time): Lock {
    if Live(lock, now) then lock else Held(token, now + ttl)
  }

  function CompareAndDelete(lock: Lock, now: Time, token: Token): Lock {
    if Live(lock, now) && lock.token == token then Free else lock
  }

  /** The tenure a token was granted is over: the lock was deleted, replaced, or has run out. */
  predicate Lost(lock: Lock, now: Time, token: Token) {
    !(Live(lock, now) && lock.token == token)
  }
}
