/** A Redis lock held by a token: `SET key token PX ttl NX` to take it, and the script that
    deletes it only while it still holds that token (src/shared/bridge-read-cache.ts:53-58,
    src/async/redis-store.ts:235-280). */
module TokenLock {
  import opened Basics

  /** A command is answered, or it fails: then either it never had its effect, or it had
      and only the reply was lost. */
  datatype Reply = Answered | Refused | Lost

  /** `owner` is the caller that set the lock; Redis stores only the token. */
  datatype Lock = Lock(token: string, owner: nat, expires: int)

  predicate Live(lock: Option<Lock>, now: int) {
    lock.Some? && now < lock.value.expires
  }

  /** Compare and delete. */
  function Freed(lock: Option<Lock>, now: int, token: string): Option<Lock> {
    if Live(lock, now) && lock.value.token == token then None else lock
  }
}
