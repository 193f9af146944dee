/**
  A new file. createFile and createDirectory put the empty contents of a fresh inum without taking
  its lock, so until the creator takes it the only copy is in a cache that nothing flushes.
 */
module Creation {
  import opened Option
  import opened Locks
  import L = LockProtocol
  import S = LockSafety
  import E = Extents
  import C = Coherence

  /** `Create` is the put without the lock. */
  datatype Event = Access(a: C.Action) | Create(c: Client)

  /** Another client's thread comes to hold the lock while this one still caches the extent. */
  predicate Overtakes(s: C.State, a: C.Action) {
    a.OnLock? && a.a.DoTake? && !(s.cache.Keys <= {a.a.c})
  }

  /** A fresh inum: nobody stores, caches or locks the extent. `raced` says whether anyone may overtake. */
  ghost predicate Enabled(raced: bool, s: C.State, e: Event) {
    match e
    case Access(a) => C.Enabled(s, a) && (raced || !Overtakes(s, a))
    case Create(c) => s.store == None && s.cache == map[] && forall d, t :: !L.PcOf(s.lock, d, t).Holding?
  }

  ghost function Next(raced: bool, s: C.State, e: Event): C.State
    requires Enabled(raced, s, e)
  {
    match e
    case Access(a) => C.Next(s, a)
    case Create(c) => s.(cache := s.cache[c := E.Written("")])
  }

  ghost predicate Legal(raced: bool, s: C.State, es: seq<Event>)
    decreases |es|
  {
    es == [] || (Enabled(raced, s, es[0]) && Legal(raced, Next(raced, s, es[0]), es[1..]))
  }

  function After(g: Option<string>, e: Event): Option<string> {
    if e.Create? then Some("") else C.After(g, e.a)
  }

  /** Every read returns what the last put, create or remove left. */
  predicate ReadsAgree(g: Option<string>, es: seq<Event>)
    decreases |es|
  {
    es == [] || ((es[0].Access? ==> C.ReadAgrees(g, es[0].a)) && ReadsAgree(After(g, es[0]), es[1..]))
  }

  /** An extent that nobody has used yet. */
  function Unused(): C.State {
    C.State(L.State(FreeLock(), map[], map[], multiset{}, multiset{}, multiset{}, multiset{}, multiset{}), None, map[])
  }

  ghost predicate AlwaysCoherent(raced: bool) {
    forall es :: Legal(raced, Unused(), es) ==> ReadsAgree(None, es)
  }

  // ------------------------------------------------------------ if nobody overtakes

  /** Created by c, whose client has not come to hold the lock since. */
  ghost predicate Waiting(s: C.State, c: Client, g: Option<string>) {
    && s.cache == map[c := E.Written("")] && s.store == None && g == Some("")
    && forall d, t :: L.PcOf(s.lock, d, t).Holding? ==> d == c
  }

  ghost predicate Inv(s: C.State, g: Option<string>) {
    C.Inv(s, g) || (exists p, d, c :: S.At(s.lock, p, d) && Waiting(s, c, g))
  }

  lemma OnlyTakingHolds(s: L.State, a: L.Action, c: Client, t: Thread)
    requires L.Enabled(s, a) && L.PcOf(L.Next(s, a), c, t).Holding?
    ensures L.PcOf(s, c, t).Holding? || a == L.DoTake(c, t)
  {
    hide Register, BeginFetch, EndFetch, Take, Release, Revoke, Retry, ServerAcquire, ServerRelease, NeedsRevoke;
  }

  lemma WaitingLockStep(s: C.State, p: S.Place, d: S.Demand, c: Client, g: Option<string>, b: L.Action)
    requires S.At(s.lock, p, d) && Waiting(s, c, g) && C.Enabled(s, C.OnLock(b)) && !Overtakes(s, C.OnLock(b))
    ensures Inv(C.Next(s, C.OnLock(b)), g)
  {
    hide S.At, L.Next, L.Enabled;
    var p', d' := S.StepMoves(s.lock, p, d, b);
    var s' := C.Next(s, C.OnLock(b));
    if b == L.Flush(c) {
      assert s'.cache == map[];
      assert C.Coherent(s', p', g);
    } else {
      forall e, t | L.PcOf(s'.lock, e, t).Holding?
        ensures e == c
      {
        OnlyTakingHolds(s.lock, b, e, t);
        assert s.cache.Keys == {c};
      }
      assert s'.cache == s.cache;
      assert Waiting(s', c, g);
    }
  }

  /** Once the creator holds the lock, its copy is where the only copy should be. */
  lemma WaitingAccess(s: C.State, p: S.Place, d: S.Demand, c: Client, g: Option<string>, a: C.Action)
    requires S.At(s.lock, p, d) && Waiting(s, c, g) && !a.OnLock? && C.Enabled(s, a)
    ensures C.Inv(s, g)
  {
    hide S.At;
    assert L.PcOf(s.lock, a.c, a.t).Holding? && a.c == c;
    S.HolderOwns(s.lock, p, d, a.c, a.t);
    assert c in s.cache && forall e :: e in s.cache ==> e == c;
    assert C.Matches(s.cache[c], s.store, g);
    assert C.Coherent(s, p, g);
  }

  lemma CreateKeeps(s: C.State, g: Option<string>, c: Client)
    requires Inv(s, g) && Enabled(false, s, Create(c))
    ensures Inv(Next(false, s, Create(c)), Some(""))
  {
    hide S.At;
    var p, d :| S.At(s.lock, p, d);
    var s' := Next(false, s, Create(c));
    assert S.At(s'.lock, p, d) && Waiting(s', c, Some(""));
  }

  lemma StepKeeps(s: C.State, g: Option<string>, e: Event)
    requires Inv(s, g) && Enabled(false, s, e)
    ensures Inv(Next(false, s, e), After(g, e))
    ensures e.Access? ==> C.ReadAgrees(g, e.a)
  {
    hide S.At, C.Enabled, C.Next, C.Inv, Waiting, Overtakes;
    if e.Create? {
      CreateKeeps(s, g, e.c);
    } else {
      if !C.Inv(s, g) {
        var p, d, c :| S.At(s.lock, p, d) && Waiting(s, c, g);
        if e.a.OnLock? { WaitingLockStep(s, p, d, c, g, e.a.a); } else { WaitingAccess(s, p, d, c, g, e.a); }
      }
      if C.Inv(s, g) { C.StepKeeps(s, g, e.a); }
    }
  }

  lemma {:induction false} RunAgrees(s: C.State, g: Option<string>, es: seq<Event>)
    requires Inv(s, g) && Legal(false, s, es)
    ensures ReadsAgree(g, es)
    decreases |es|
  {
    hide Inv, Enabled, Next, After, C.ReadAgrees;
    if es != [] {
      StepKeeps(s, g, es[0]);
      RunAgrees(Next(false, s, es[0]), After(g, es[0]), es[1..]);
    }
  }

  /** However the clients race for other things, if nobody overtakes the creator every read is right. */
  lemma CoherentIfNotOvertaken(es: seq<Event>)
    requires Legal(false, Unused(), es)
    ensures ReadsAgree(None, es)
  {
    hide Legal, ReadsAgree, S.At;
    var s := Unused();
    S.InitInv(s.lock);
    assert C.Coherent(s, S.AtServer, None);
    RunAgrees(s, None, es);
  }

  // ------------------------------------------------------------ if somebody does

  /** A run from s and g to s' and g'. */
  ghost predicate Leads(s: C.State, g: Option<string>, es: seq<Event>, s': C.State, g': Option<string>)
    decreases |es|
  {
    if es == [] then s == s' && g == g'
    else Enabled(true, s, es[0]) && Leads(Next(true, s, es[0]), After(g, es[0]), es[1..], s', g')
  }

  lemma {:induction false} LeadsOn(s: C.State, g: Option<string>, es: seq<Event>, s1: C.State, g1: Option<string>, e: Event)
    requires Leads(s, g, es, s1, g1) && Enabled(true, s1, e)
    ensures Leads(s, g, es + [e], Next(true, s1, e), After(g1, e))
    decreases |es|
  {
    hide Enabled, Next, After;
    if es == [] {
      assert es + [e] == [e] && [e][1..] == [];
    } else {
      LeadsOn(Next(true, s, es[0]), After(g, es[0]), es[1..], s1, g1, e);
      assert (es + [e])[1..] == es[1..] + [e];
    }
  }

  lemma {:induction false} Disagrees(s: C.State, g: Option<string>, es: seq<Event>, s1: C.State, g1: Option<string>, a: C.Action)
    requires Leads(s, g, es, s1, g1) && Enabled(true, s1, Access(a)) && !C.ReadAgrees(g1, a)
    ensures Legal(true, s, es + [Access(a)]) && !ReadsAgree(g, es + [Access(a)])
    decreases |es|
  {
    hide Enabled, Next, After, C.ReadAgrees;
    var e := Access(a);
    if es == [] {
      assert es + [e] == [e] && [e][1..] == [];
    } else {
      Disagrees(Next(true, s, es[0]), After(g, es[0]), es[1..], s1, g1, a);
      assert (es + [e])[1..] == es[1..] + [e];
    }
  }

  /** A lock with no message under way. */
  function Quiet(srv: ServerLock, cli: map<Client, LockInfo>, pcs: map<L.Key, L.Pc>): L.State {
    L.State(srv, cli, pcs, multiset{}, multiset{}, multiset{}, multiset{}, multiset{})
  }

  /** A lock that one thread only has to do with. */
  function One(srv: ServerLock, d: Client, t: Thread, i: LockInfo, p: L.Pc): L.State {
    Quiet(srv, map[d := i], map[(d, t) := p])
  }

  /** The stages on the way to a lock nobody has asked for yet, and the step that leaves each. */
  function Stage(d: Client, t: Thread, k: nat): L.State {
    var mine := ServerLock(Some(d), false, []);
    match k
    case 0 => Quiet(FreeLock(), map[], map[])
    case 1 => One(FreeLock(), d, t, NewInfo(), L.Entered)
    case 2 => One(FreeLock(), d, t, LockInfo(false, false, false, 1, None), L.Fetching)
    case 3 => One(FreeLock(), d, t, LockInfo(true, false, false, 1, None), L.Requested)
    case 4 => One(mine, d, t, LockInfo(true, false, false, 1, None), L.Answered(true))
    case 5 => One(mine, d, t, LockInfo(false, true, false, 1, None), L.WaitingOwner)
    case _ => One(mine, d, t, LockInfo(false, true, false, 0, Some(t)), L.Holding)
  }

  function Deed(d: Client, t: Thread, k: nat): (a: L.Action)
    ensures !a.Flush?
  {
    match k
    case 0 => L.Enter(d, t)
    case 1 => L.DoRegister(d, t)
    case 2 => L.DoFetch(d, t)
    case 3 => L.AcquireAtServer(d, t)
    case 4 => L.ReplyAtClient(d, t)
    case _ => L.DoTake(d, t)
  }

  lemma OneSet(srv: ServerLock, d: Client, t: Thread, i: LockInfo, p: L.Pc, i': LockInfo, p': L.Pc)
    ensures L.SetPc(L.SetInfo(One(srv, d, t, i, p), d, i'), d, t, p') == One(srv, d, t, i', p')
    ensures L.SetPc(One(srv, d, t, i, p), d, t, p') == One(srv, d, t, i, p')
  {
    assert map[d := i][d := i'] == map[d := i'];
    assert map[(d, t) := p][(d, t) := p'] == map[(d, t) := p'];
  }

  lemma StageStep(d: Client, t: Thread, k: nat)
    requires k < 6
    ensures L.Enabled(Stage(d, t, k), Deed(d, t, k)) && L.Next(Stage(d, t, k), Deed(d, t, k)) == Stage(d, t, k + 1)
  {
    hide L.SetPc, L.SetInfo;
    if k == 0 {
      StageZero(d, t);
    } else {
      var s, s' := Stage(d, t, k), Stage(d, t, k + 1);
      OneSet(s.srv, d, t, s.cli[d], s.pcs[(d, t)], s'.cli[d], s'.pcs[(d, t)]);
      OneSet(s'.srv, d, t, s.cli[d], s.pcs[(d, t)], s'.cli[d], s'.pcs[(d, t)]);
    }
  }

  lemma StageZero(d: Client, t: Thread)
    ensures L.Enabled(Stage(d, t, 0), L.Enter(d, t)) && L.Next(Stage(d, t, 0), L.Enter(d, t)) == Stage(d, t, 1)
  {
    var none: map<L.Key, L.Pc> := map[];
    var nobody: map<Client, LockInfo> := map[];
    assert none[(d, t) := L.Entered] == map[(d, t) := L.Entered];
    assert nobody[d := NewInfo()] == map[d := NewInfo()];
  }

  lemma OnLockStep(g: Option<string>, s: C.State, es: seq<Event>, s0: C.State, g0: Option<string>, b: L.Action, l: L.State)
    returns (s': C.State, es': seq<Event>)
    requires Leads(s0, g0, es, s, g) && L.Enabled(s.lock, b) && L.Next(s.lock, b) == l && !b.Flush?
    ensures s' == s.(lock := l) && es' == es + [Access(C.OnLock(b))] && Leads(s0, g0, es', s', g)
  {
    hide L.Enabled, L.Next;
    s', es' := s.(lock := l), es + [Access(C.OnLock(b))];
    LeadsOn(s0, g0, es, s, g, Access(C.OnLock(b)));
  }

  /** A client takes a lock nobody has asked for yet. */
  lemma {:induction false} TakesFree(s0: C.State, g0: Option<string>, es0: seq<Event>, s: C.State, g: Option<string>, d: Client, t: Thread, k: nat)
    returns (es: seq<Event>)
    requires Leads(s0, g0, es0, s, g) && s.lock == Stage(d, t, 0) && k <= 6
    ensures Leads(s0, g0, es, s.(lock := Stage(d, t, k)), g)
  {
    hide Leads, Stage, Deed;
    if k == 0 {
      es := es0;
    } else {
      es := TakesFree(s0, g0, es0, s, g, d, t, k - 1);
      StageStep(d, t, k - 1);
      var _, es' := OnLockStep(g, s.(lock := Stage(d, t, k - 1)), es, s0, g0, Deed(d, t, k - 1), Stage(d, t, k));
      es := es';
    }
  }

  /** Created by c and nowhere but in its cache. */
  function Created(l: L.State, c: Client): C.State {
    C.State(l, None, map[c := E.Written("")])
  }

  lemma Creates(c: Client) returns (es: seq<Event>)
    ensures Leads(Unused(), None, es, Created(Unused().lock, c), Some(""))
  {
    es := [Create(c)];
    assert es[1..] == [];
  }

  /** A file that was created, and whose name others may have read, cannot be read by another client. */
  lemma CreatedUnseen(c: Client, d: Client, t: Thread) returns (s: C.State, es: seq<Event>)
    requires c != d
    ensures s == Created(Stage(d, t, 6), c)
    ensures Leads(Unused(), None, es, s, Some("")) && Enabled(true, s, Access(C.Get(d, t, false, "")))
  {
    hide Leads;
    es := Creates(c);
    es := TakesFree(Unused(), None, es, Created(Unused().lock, c), Some(""), d, t, 6);
    s := Created(Stage(d, t, 6), c);
  }

  /** A lock two threads of two clients have to do with. */
  function Two(srv: ServerLock, d: Client, t: Thread, i: LockInfo, c: Client, u: Thread, j: LockInfo, q: L.Pc): L.State {
    Quiet(srv, map[d := i, c := j], map[(d, t) := L.Outside, (c, u) := q])
  }

  /** The stages in which the lock goes from thread t of client d to thread u of client c. */
  function Pass(d: Client, t: Thread, c: Client, u: Thread, k: nat): L.State {
    var mine, asked := ServerLock(Some(d), false, []), ServerLock(Some(d), false, [c]);
    var idle, gone, wants := LockInfo(false, true, false, 0, None), NewInfo(), LockInfo(true, false, false, 1, None);
    match k
    case 0 => Stage(d, t, 6)
    case 1 => One(mine, d, t, idle, L.Outside)
    case 2 => Two(mine, d, t, idle, c, u, NewInfo(), L.Entered)
    case 3 => Two(mine, d, t, idle, c, u, LockInfo(false, false, false, 1, None), L.Fetching)
    case 4 => Two(mine, d, t, idle, c, u, wants, L.Requested)
    case 5 => Two(asked, d, t, idle, c, u, wants, L.Answered(false))
    case 6 => Two(asked, d, t, idle, c, u, wants, L.WaitingOwner)
    case 7 => Two(asked.(revoked := true), d, t, idle, c, u, wants, L.WaitingOwner).(revokeQueue := multiset{d})
    case 8 => Two(asked.(revoked := true), d, t, idle, c, u, wants, L.WaitingOwner).(revokes := multiset{d})
    case 9 => Two(asked.(revoked := true), d, t, gone, c, u, wants, L.WaitingOwner).(flushing := multiset{d})
    case 10 => Two(asked.(revoked := true), d, t, gone, c, u, wants, L.WaitingOwner).(returning := multiset{d})
    case 11 => Two(ServerLock(Some(c), false, []), d, t, gone, c, u, wants, L.WaitingOwner).(retries := multiset{c})
    case 12 => Two(ServerLock(Some(c), false, []), d, t, gone, c, u, LockInfo(false, true, false, 1, None), L.WaitingOwner)
    case _ => Two(ServerLock(Some(c), false, []), d, t, gone, c, u, LockInfo(false, true, false, 0, Some(u)), L.Holding)
  }

  function PassDeed(d: Client, t: Thread, c: Client, u: Thread, k: nat): (a: L.Action)
    ensures a.Flush? ==> k == 9
  {
    match k
    case 0 => L.DoRelease(d, t)
    case 1 => L.Enter(c, u)
    case 2 => L.DoRegister(c, u)
    case 3 => L.DoFetch(c, u)
    case 4 => L.AcquireAtServer(c, u)
    case 5 => L.ReplyAtClient(c, u)
    case 6 => L.Enforce
    case 7 => L.SendRevoke(d)
    case 8 => L.RevokeAtClient(d)
    case 9 => L.Flush(d)
    case 10 => L.ReleaseAtServer(d)
    case 11 => L.RetryAtClient(c)
    case _ => L.DoTake(c, u)
  }

  lemma TwoSet(d: Client, t: Thread, i: LockInfo, c: Client, u: Thread, j: LockInfo, q: L.Pc, i': LockInfo, j': LockInfo, q': L.Pc)
    requires c != d
    ensures map[d := i, c := j][c := j'] == map[d := i, c := j'] && map[d := i, c := j][d := i'] == map[d := i', c := j]
    ensures map[d := i][c := j] == map[d := i, c := j]
    ensures var o := map[(d, t) := L.Outside];
            o[(c, u) := q] == map[(d, t) := L.Outside, (c, u) := q] && o[(c, u) := q][(c, u) := q'] == map[(d, t) := L.Outside, (c, u) := q']
  {
    assert map[(d, t) := L.Outside, (c, u) := q][(c, u) := q'] == map[(d, t) := L.Outside, (c, u) := q'];
  }

  /** The holder lets go and the other client asks. */
  lemma PassAsks(d: Client, t: Thread, c: Client, u: Thread, k: nat)
    requires c != d && k < 6
    ensures L.Enabled(Pass(d, t, c, u, k), PassDeed(d, t, c, u, k))
    ensures L.Next(Pass(d, t, c, u, k), PassDeed(d, t, c, u, k)) == Pass(d, t, c, u, k + 1)
  {
    var s, s' := Pass(d, t, c, u, k), Pass(d, t, c, u, k + 1);
    if k == 0 {
      OneSet(s.srv, d, t, s.cli[d], s.pcs[(d, t)], s'.cli[d], s'.pcs[(d, t)]);
    } else if k == 1 {
      TwoSet(d, t, s.cli[d], c, u, NewInfo(), L.Entered, s.cli[d], s'.cli[c], s'.pcs[(c, u)]);
    } else {
      TwoSet(d, t, s.cli[d], c, u, s.cli[c], s.pcs[(c, u)], s'.cli[d], s'.cli[c], s'.pcs[(c, u)]);
    }
  }

  lemma Bags(d: Client)
    ensures var none: multiset<Client> := multiset{};
            none + multiset{d} == multiset{d} && multiset{d} - multiset{d} == none && none + none == none
  {
  }

  /** The server demands the lock back. */
  lemma PassRevokes(d: Client, t: Thread, c: Client, u: Thread, k: nat)
    requires c != d && 6 <= k < 9
    ensures L.Enabled(Pass(d, t, c, u, k), PassDeed(d, t, c, u, k))
    ensures L.Next(Pass(d, t, c, u, k), PassDeed(d, t, c, u, k)) == Pass(d, t, c, u, k + 1)
  {
    Bags(d);
    if k == 8 {
      var s, s' := Pass(d, t, c, u, 8), Pass(d, t, c, u, 9);
      TwoSet(d, t, s.cli[d], c, u, s.cli[c], s.pcs[(c, u)], s'.cli[d], s'.cli[c], s'.pcs[(c, u)]);
    }
  }

  /** It comes back to the server. */
  lemma PassReturns(d: Client, t: Thread, c: Client, u: Thread, k: nat)
    requires c != d && 9 <= k < 11
    ensures L.Enabled(Pass(d, t, c, u, k), PassDeed(d, t, c, u, k))
    ensures L.Next(Pass(d, t, c, u, k), PassDeed(d, t, c, u, k)) == Pass(d, t, c, u, k + 1)
  {
    Bags(d);
    Bags(c);
    assert [c][1..] == [];
  }

  /** It is granted to the other client. */
  lemma PassGrants(d: Client, t: Thread, c: Client, u: Thread, k: nat)
    requires c != d && 11 <= k < 13
    ensures L.Enabled(Pass(d, t, c, u, k), PassDeed(d, t, c, u, k))
    ensures L.Next(Pass(d, t, c, u, k), PassDeed(d, t, c, u, k)) == Pass(d, t, c, u, k + 1)
  {
    Bags(c);
    var s, s' := Pass(d, t, c, u, k), Pass(d, t, c, u, k + 1);
    TwoSet(d, t, s.cli[d], c, u, s.cli[c], s.pcs[(c, u)], s'.cli[d], s'.cli[c], s'.pcs[(c, u)]);
  }

  lemma PassStep(d: Client, t: Thread, c: Client, u: Thread, k: nat)
    requires c != d && k < 13
    ensures L.Enabled(Pass(d, t, c, u, k), PassDeed(d, t, c, u, k))
    ensures L.Next(Pass(d, t, c, u, k), PassDeed(d, t, c, u, k)) == Pass(d, t, c, u, k + 1)
  {
    hide Pass, PassDeed, L.Enabled, L.Next;
    if k < 6 { PassAsks(d, t, c, u, k); } else if k < 9 { PassRevokes(d, t, c, u, k); }
    else if k < 11 { PassReturns(d, t, c, u, k); } else { PassGrants(d, t, c, u, k); }
  }

  /** What is stored and cached on the way; the flush is the tenth step. */
  function Kept(d: Client, c: Client, v: string, l: L.State, k: nat): C.State {
    if k < 10 then C.State(l, None, map[c := E.Written(""), d := E.Written(v)])
    else C.State(l, Some(E.Stored(v)), map[c := E.Written("")])
  }

  lemma KeptStep(d: Client, t: Thread, c: Client, u: Thread, v: string, k: nat)
    requires c != d && k < 13
    ensures var s, e := Kept(d, c, v, Pass(d, t, c, u, k), k), Access(C.OnLock(PassDeed(d, t, c, u, k)));
            Enabled(true, s, e) && Next(true, s, e) == Kept(d, c, v, Pass(d, t, c, u, k + 1), k + 1)
  {
    hide Pass, L.Enabled, L.Next;
    PassStep(d, t, c, u, k);
    assert map[c := E.Written(""), d := E.Written(v)] - {d} == map[c := E.Written("")];
    assert k == 9 <==> PassDeed(d, t, c, u, k) == L.Flush(d);
  }

  lemma {:induction false} Passes(s0: C.State, g0: Option<string>, es0: seq<Event>, d: Client, t: Thread, c: Client, u: Thread, v: string, k: nat)
    returns (es: seq<Event>)
    requires c != d && k <= 13 && Leads(s0, g0, es0, Kept(d, c, v, Pass(d, t, c, u, 0), 0), Some(v))
    ensures Leads(s0, g0, es, Kept(d, c, v, Pass(d, t, c, u, k), k), Some(v))
  {
    hide Leads, Pass, PassDeed, Kept, Enabled, Next;
    es := es0;
    if k > 0 {
      es := Passes(s0, g0, es0, d, t, c, u, v, k - 1);
      KeptStep(d, t, c, u, v, k - 1);
      var e := Access(C.OnLock(PassDeed(d, t, c, u, k - 1)));
      LeadsOn(s0, g0, es, Kept(d, c, v, Pass(d, t, c, u, k - 1), k - 1), Some(v), e);
      es := es + [e];
    }
  }

  /** The other client writes all the same, at its second attempt. */
  lemma WritesAnyway(c: Client, d: Client, t: Thread, v: string) returns (es: seq<Event>)
    requires c != d
    ensures Leads(Unused(), None, es, Kept(d, c, v, Stage(d, t, 6), 0), Some(v))
  {
    hide Leads;
    var s, es0 := CreatedUnseen(c, d, t);
    var s1 := C.State(Stage(d, t, 6), None, map[c := E.Written(""), d := E.Fetched(None)]);
    LeadsOn(Unused(), None, es0, s, Some(""), Access(C.Get(d, t, false, "")));
    es := es0 + [Access(C.Get(d, t, false, ""))];
    assert Next(true, s, Access(C.Get(d, t, false, ""))) == s1;
    LeadsOn(Unused(), None, es, s1, Some(""), Access(C.Get(d, t, true, "")));
    es := es + [Access(C.Get(d, t, true, ""))];
    assert Next(true, s1, Access(C.Get(d, t, true, ""))) == s1;
    LeadsOn(Unused(), None, es, s1, Some(""), Access(C.Put(d, t, v)));
    es := es + [Access(C.Put(d, t, v))];
    assert Next(true, s1, Access(C.Put(d, t, v))) == Kept(d, c, v, Stage(d, t, 6), 0);
  }

  /** What the other client wrote and the server stored is not what the creator then reads. */
  lemma UpdateLost(c: Client, u: Thread, d: Client, t: Thread, v: string) returns (s: C.State, es: seq<Event>)
    requires c != d
    ensures Leads(Unused(), None, es, s, Some(v)) && s.store == Some(E.Stored(v))
    ensures Enabled(true, s, Access(C.Get(c, u, true, "")))
  {
    hide Leads;
    es := WritesAnyway(c, d, t, v);
    es := Passes(Unused(), None, es, d, t, c, u, v, 13);
    s := Kept(d, c, v, Pass(d, t, c, u, 13), 13);
  }

  /** Coherent if and only if no other client comes to hold the lock before the creator's. */
  lemma CoherentExactlyWhen(raced: bool)
    ensures AlwaysCoherent(raced) <==> !raced
  {
    hide Legal, ReadsAgree, Leads;
    if raced {
      var s, es := CreatedUnseen("a", "b", 0);
      Disagrees(Unused(), None, es, s, Some(""), C.Get("b", 0, false, ""));
    } else {
      forall es | Legal(raced, Unused(), es)
        ensures ReadsAgree(None, es)
      {
        CoherentIfNotOvertaken(es);
      }
    }
  }
}
