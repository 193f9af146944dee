/**
  The caching lock protocol of one lock: any number of clients, each with any number of
  threads, and messages that race. Each action is one critical section or one delivery;
  every message is delivered once.
 */
module LockProtocol {
  import opened Option
  import opened Locks

  /**
    Where a thread stands in `acquire`. A `Requested` thread has its acquire call on the way
    to the server, an `Answered` one has the server's answer on the way back.
   */
  datatype Pc = Outside | Entered | Fetching | Requested | Answered(ok: bool) | WaitingOwner | WaitingHolder | Holding

  type Key = (Client, Thread)

  /**
    `retries` and `revokes` are calls on the way to clients; `revokeQueue` is the server's list.
    `flushing` clients have given the lock up but not yet flushed; `returning` clients have
    flushed and their release call is on the way to the server.
   */
  datatype State = State(
    srv: ServerLock, cli: map<Client, LockInfo>, pcs: map<Key, Pc>,
    retries: multiset<Client>, revokeQueue: multiset<Client>, revokes: multiset<Client>,
    flushing: multiset<Client>, returning: multiset<Client>)

  function PcOf(s: State, c: Client, t: Thread): Pc {
    if (c, t) in s.pcs then s.pcs[(c, t)] else Outside
  }

  datatype Action =
    | Enter(c: Client, t: Thread)
    | DoRegister(c: Client, t: Thread)
    | DoFetch(c: Client, t: Thread)
    | AcquireAtServer(c: Client, t: Thread)
    | ReplyAtClient(c: Client, t: Thread)
    | DoTake(c: Client, t: Thread)
    | DoRelease(c: Client, t: Thread)
    | Enforce
    | SendRevoke(c: Client)
    | RevokeAtClient(c: Client)
    | Flush(c: Client)
    | ReleaseAtServer(c: Client)
    | RetryAtClient(c: Client)

  ghost predicate Enabled(s: State, a: Action) {
    match a
    case Enter(c, t) => PcOf(s, c, t).Outside?
    case DoRegister(c, t) => PcOf(s, c, t).Entered? && c in s.cli
    case DoFetch(c, t) => PcOf(s, c, t).Fetching? && c in s.cli
    case AcquireAtServer(c, t) => PcOf(s, c, t).Requested?
    case ReplyAtClient(c, t) => PcOf(s, c, t).Answered? && c in s.cli
    case DoTake(c, t) =>
      && c in s.cli && s.cli[c].awaiting > 0
      && ((PcOf(s, c, t).WaitingOwner? && s.cli[c].owned)
          || (PcOf(s, c, t).WaitingHolder? && s.cli[c].holder == None))
    case DoRelease(c, t) => PcOf(s, c, t).Holding? && c in s.cli
    case Enforce => NeedsRevoke(s.srv)
    case SendRevoke(c) => c in s.revokeQueue
    case RevokeAtClient(c) => c in s.revokes
    case Flush(c) => c in s.flushing
    case ReleaseAtServer(c) => c in s.returning
    case RetryAtClient(c) => c in s.retries && c in s.cli
  }

  function SetPc(s: State, c: Client, t: Thread, p: Pc): State {
    s.(pcs := s.pcs[(c, t) := p])
  }

  function SetInfo(s: State, c: Client, l: LockInfo): State {
    s.(cli := s.cli[c := l])
  }

  /** The lock leaves the client, or stays. */
  function GiveUp(s: State, c: Client, r: (LockInfo, bool)): State {
    if r.1 then SetInfo(s, c, r.0).(flushing := s.flushing + multiset{c}) else SetInfo(s, c, r.0)
  }

  function InfoOf(s: State, c: Client): Option<LockInfo> {
    if c in s.cli then Some(s.cli[c]) else None
  }

  ghost function Next(s: State, a: Action): State
    requires Enabled(s, a)
  {
    match a
    case Enter(c, t) => SetPc(if c in s.cli then s else SetInfo(s, c, NewInfo()), c, t, Entered)
    case DoRegister(c, t) =>
      var (l, fetch) := Register(s.cli[c]);
      SetPc(SetInfo(s, c, l), c, t, if fetch then Fetching else WaitingOwner)
    case DoFetch(c, t) =>
      var (l, call) := BeginFetch(s.cli[c]);
      SetPc(SetInfo(s, c, l), c, t, if call then Requested else WaitingOwner)
    case AcquireAtServer(c, t) =>
      var (r, ok) := ServerAcquire(s.srv, c);
      SetPc(s.(srv := r), c, t, Answered(ok))
    case ReplyAtClient(c, t) =>
      SetPc(SetInfo(s, c, EndFetch(s.cli[c], PcOf(s, c, t).ok)), c, t, WaitingOwner)
    case DoTake(c, t) =>
      if s.cli[c].holder == None then SetPc(SetInfo(s, c, Take(s.cli[c], t)), c, t, Holding)
      else SetPc(s, c, t, WaitingHolder)
    case DoRelease(c, t) => SetPc(GiveUp(s, c, Release(s.cli[c])), c, t, Outside)
    case Enforce =>
      s.(srv := s.srv.(revoked := true),
         revokeQueue := s.revokeQueue + (if s.srv.holder.Some? then multiset{s.srv.holder.value} else multiset{}))
    case SendRevoke(c) => s.(revokeQueue := s.revokeQueue - multiset{c}, revokes := s.revokes + multiset{c})
    case RevokeAtClient(c) => GiveUp(s.(revokes := s.revokes - multiset{c}), c, Revoke(InfoOf(s, c)))
    case Flush(c) => s.(flushing := s.flushing - multiset{c}, returning := s.returning + multiset{c})
    case ReleaseAtServer(c) =>
      var (r, grant) := ServerRelease(s.srv);
      s.(srv := r, returning := s.returning - multiset{c},
         retries := s.retries + (if grant.Some? then multiset{grant.value} else multiset{}))
    case RetryAtClient(c) => SetInfo(s, c, Retry(s.cli[c])).(retries := s.retries - multiset{c})
  }

  ghost predicate Init(s: State) {
    s == State(FreeLock(), map[], map[], multiset{}, multiset{}, multiset{}, multiset{}, multiset{})
  }

  ghost predicate Legal(s: State, acts: seq<Action>)
    decreases |acts|
  {
    acts == [] || (Enabled(s, acts[0]) && Legal(Next(s, acts[0]), acts[1..]))
  }

  ghost function Final(s: State, acts: seq<Action>): State
    requires Legal(s, acts)
    decreases |acts|
  {
    if acts == [] then s else Final(Next(s, acts[0]), acts[1..])
  }
}
