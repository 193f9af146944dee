/**
  One lock of the caching lock service: the record each client keeps, the record the
  server keeps, and what each critical section does to them.
 */
module Locks {
  import opened Option

  type Client = string
  type Thread = nat

  /** `lock_info` of one lock on one client; `holder` is the thread inside, if any. */
  datatype LockInfo = LockInfo(acquiring: bool, owned: bool, revoked: bool, awaiting: nat, holder: Option<Thread>)

  /** `cached_lock_info` of one lock on the server. */
  datatype ServerLock = ServerLock(holder: Option<Client>, revoked: bool, queue: seq<Client>)

  // ------------------------------------------------------------ client

  function NewInfo(): LockInfo {
    LockInfo(false, false, false, 0, None)
  }

  /** acquire, second critical section; the thread goes to fetch the lock when true. */
  function Register(l: LockInfo): (LockInfo, bool) {
    (l.(awaiting := l.awaiting + 1), !l.owned && !l.acquiring)
  }

  /** acquire_lock, first critical section; the thread calls the server when true. */
  function BeginFetch(l: LockInfo): (LockInfo, bool) {
    if !l.acquiring && !l.owned then (l.(acquiring := true), true) else (l, false)
  }

  /** acquire_lock, second critical section, with the server's answer. */
  function EndFetch(l: LockInfo, ok: bool): LockInfo {
    if l.owned then l
    else if ok then l.(acquiring := false, owned := true)
    else l.(acquiring := true, owned := false)
  }

  /** The last part of acquire, once the lock is free on this client. */
  function Take(l: LockInfo, t: Thread): LockInfo
    requires l.awaiting > 0
  {
    l.(holder := Some(t), awaiting := l.awaiting - 1)
  }

  /** release; the lock goes back to the server when true. */
  function Release(l: LockInfo): (LockInfo, bool) {
    if l.awaiting == 0 && l.revoked then (LockInfo(false, false, false, 0, None), true)
    else (l.(holder := None), false)
  }

  /** revoke_handler; the lock goes back to the server when true. */
  function Revoke(l: Option<LockInfo>): (LockInfo, bool) {
    match l
    case None => (LockInfo(false, true, true, 0, None), false)
    case Some(l) =>
      if l.holder == None && l.awaiting == 0 && !l.acquiring then (l.(owned := false, revoked := false), true)
      else (l.(revoked := true), false)
  }

  /** retry_handler: the server grants the lock. */
  function Retry(l: LockInfo): LockInfo {
    l.(acquiring := false, owned := true)
  }

  // ------------------------------------------------------------ server

  function FreeLock(): ServerLock {
    ServerLock(None, false, [])
  }

  /** acquire; true answers OK, false answers RETRY. */
  function ServerAcquire(r: ServerLock, c: Client): (ServerLock, bool) {
    if r.holder == None then (r.(holder := Some(c)), true)
    else (r.(queue := r.queue + [c]), false)
  }

  /** release; the client to send a retry to, if any. */
  function ServerRelease(r: ServerLock): (ServerLock, Option<Client>) {
    if r.queue == [] then (ServerLock(None, false, []), None)
    else (ServerLock(Some(r.queue[0]), false, r.queue[1..]), Some(r.queue[0]))
  }

  /** What the enforcer looks for. */
  predicate NeedsRevoke(r: ServerLock) {
    r.queue != [] && !r.revoked
  }
}
