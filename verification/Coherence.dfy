/**
  Write-back extent caches on many clients, kept coherent by the lock protocol: an extent is
  read and written only by a thread that holds its lock, and is flushed before the lock leaves.
 */
module Coherence {
  import opened Option
  import opened Locks
  import L = LockProtocol
  import S = LockSafety
  import E = Extents

  /** One extent with its lock: the server's copy, if any, and the copies clients cache. */
  datatype State = State(lock: L.State, store: Option<E.Inode>, cache: map<Client, E.Entry>)

  /** `ok`, `v` and `size` are what the call returns; `gone` says whether remove found the extent cached. */
  datatype Action =
    | OnLock(a: L.Action)
    | Get(c: Client, t: Thread, ok: bool, v: string)
    | GetAttr(c: Client, t: Thread, ok: bool, size: nat)
    | Put(c: Client, t: Thread, v: string)
    | Remove(c: Client, t: Thread, gone: bool)

  function Cached(s: State, c: Client): Option<E.Entry> {
    if c in s.cache then Some(s.cache[c]) else None
  }

  function Found(s: State, c: Client): E.Entry {
    E.Lookup(Cached(s, c), s.store)
  }

  /** The call fails only if the extent is neither cached nor stored. */
  predicate Exists(s: State, c: Client) {
    c in s.cache || s.store.Some?
  }

  ghost predicate Enabled(s: State, a: Action) {
    match a
    case OnLock(b) => L.Enabled(s.lock, b)
    case Get(c, t, ok, v) => L.PcOf(s.lock, c, t).Holding? && ok == Exists(s, c) && v == Found(s, c).buf
    case GetAttr(c, t, ok, size) => L.PcOf(s.lock, c, t).Holding? && ok == Exists(s, c) && size == Found(s, c).size
    case Put(c, t, _) => L.PcOf(s.lock, c, t).Holding?
    case Remove(c, t, gone) => L.PcOf(s.lock, c, t).Holding? && gone == (c in s.cache)
  }

  /** The lock's flush step runs dorelease, which flushes the extent of the same id. */
  ghost function Next(s: State, a: Action): State
    requires Enabled(s, a)
  {
    match a
    case OnLock(b) =>
      if b.Flush? then State(L.Next(s.lock, b), E.Flushed(Cached(s, b.c), s.store), s.cache - {b.c})
      else s.(lock := L.Next(s.lock, b))
    case Get(c, _, _, _) => s.(cache := s.cache[c := Found(s, c)])
    case GetAttr(c, _, _, _) => s.(cache := s.cache[c := Found(s, c)])
    case Put(c, _, v) => s.(cache := s.cache[c := E.Written(v)])
    case Remove(c, _, gone) => if gone then s.(store := None, cache := s.cache - {c}) else s
  }

  /** What the server stores of an extent that exists with these contents, or not at all. */
  function Whole(g: Option<string>): Option<E.Inode> {
    if g.Some? then Some(E.Stored(g.value)) else None
  }

  /** A cached copy has the contents, and if it is clean so has the server; an absent extent is cached as empty. */
  predicate Matches(e: E.Entry, store: Option<E.Inode>, g: Option<string>) {
    if g.Some? then e.buf == g.value && e.size == |g.value| && (!e.dirty ==> store == Whole(g))
    else e == E.Fetched(None) && store.None?
  }

  /** g is what the last put or remove left, and only the place that has the lock may cache it. */
  ghost predicate Coherent(s: State, p: S.Place, g: Option<string>) {
    && (forall c :: c in s.cache ==> p == S.OwnedBy(c) || p == S.BeingFlushed(c))
    && (forall c :: c in s.cache ==> Matches(s.cache[c], s.store, g))
    && (s.cache == map[] ==> s.store == Whole(g))
  }

  ghost predicate Inv(s: State, g: Option<string>) {
    exists p, d :: S.At(s.lock, p, d) && Coherent(s, p, g)
  }

  function After(g: Option<string>, a: Action): Option<string> {
    if a.Put? then Some(a.v) else if a.Remove? && a.gone then None else g
  }

  /** A read of an extent that exists succeeds with its contents; an absent one reads as empty. */
  predicate ReadAgrees(g: Option<string>, a: Action) {
    && (a.Get? ==> if g.Some? then a.ok && a.v == g.value else a.v == "")
    && (a.GetAttr? ==> if g.Some? then a.ok && a.size == |g.value| else a.size == 0)
  }

  lemma LockStepCoherent(s: State, p: S.Place, g: Option<string>, b: L.Action, p': S.Place)
    requires Coherent(s, p, g) && L.Enabled(s.lock, b) && S.MovesThroughFlush(p, p', b)
    ensures Coherent(Next(s, OnLock(b)), p', g)
  {
    hide L.Next;
    var s' := Next(s, OnLock(b));
    if b.Flush? {
      assert s'.cache == map[];
      if b.c !in s.cache { assert s.cache == map[]; }
    }
  }

  /** No other client than the owner's caches the extent, and without it the server is up to date. */
  lemma NobodyElse(s: State, p: S.Place, g: Option<string>, c: Client)
    requires Coherent(s, p, g) && p == S.OwnedBy(c)
    ensures forall e :: e in s.cache ==> e == c
    ensures c !in s.cache ==> s.cache == map[] && s.store == Whole(g)
    ensures Matches(Found(s, c), s.store, g) && (g.Some? ==> Exists(s, c))
  {
    if c !in s.cache { assert s.cache == map[]; }
  }

  lemma AccessCoherent(s: State, p: S.Place, g: Option<string>, a: Action)
    requires Coherent(s, p, g) && !a.OnLock? && p == S.OwnedBy(a.c) && Enabled(s, a)
    ensures Coherent(Next(s, a), p, After(g, a)) && ReadAgrees(g, a)
  {
    NobodyElse(s, p, g, a.c);
    var s' := Next(s, a);
    assert forall c :: c in s'.cache ==> c == a.c;
    if a.Remove? {
      assert a.gone ==> s'.cache == map[];
    } else {
      assert a.c in s'.cache && s'.store == s.store;
      assert Matches(s'.cache[a.c], s'.store, After(g, a));
    }
  }

  lemma StepKeeps(s: State, g: Option<string>, a: Action)
    requires Inv(s, g) && Enabled(s, a)
    ensures Inv(Next(s, a), After(g, a)) && ReadAgrees(g, a)
  {
    hide S.At, L.Next, L.Enabled, Coherent;
    var p, d :| S.At(s.lock, p, d) && Coherent(s, p, g);
    if a.OnLock? {
      var p', d' := S.StepMoves(s.lock, p, d, a.a);
      LockStepCoherent(s, p, g, a.a, p');
      assert Inv(Next(s, a), g);
    } else {
      S.HolderOwns(s.lock, p, d, a.c, a.t);
      AccessCoherent(s, p, g, a);
    }
  }

  // ------------------------------------------------------------ the whole file system

  type Id = nat

  /** Every extent with its lock; an access touches the extent of one id. */
  type System = map<Id, State>

  datatype Event = Event(id: Id, a: Action)

  ghost predicate Legal(m: System, es: seq<Event>)
    decreases |es|
  {
    es == [] || (es[0].id in m && Enabled(m[es[0].id], es[0].a) && Legal(Step(m, es[0]), es[1..]))
  }

  ghost function Step(m: System, e: Event): System
    requires e.id in m && Enabled(m[e.id], e.a)
  {
    m[e.id := Next(m[e.id], e.a)]
  }

  /** One global map from the ids of the extents that exist to their contents. */
  type Contents = map<Id, string>

  function ValueOf(g: Contents, id: Id): Option<string> {
    if id in g then Some(g[id]) else None
  }

  function Change(g: Contents, e: Event): (g': Contents)
    ensures ValueOf(g', e.id) == After(ValueOf(g, e.id), e.a)
    ensures forall k :: k != e.id ==> ValueOf(g', k) == ValueOf(g, k)
  {
    var v := After(ValueOf(g, e.id), e.a);
    if v.Some? then g[e.id := v.value] else g - {e.id}
  }

  /** The global map as puts and removes leave it. */
  function GlobalMap(g: Contents, es: seq<Event>): Contents
    decreases |es|
  {
    if es == [] then g else GlobalMap(Change(g, es[0]), es[1..])
  }

  /** Nobody holds a lock or caches anything; the server stores g. */
  ghost predicate Begins(m: System, g: Contents) {
    forall id :: id in m ==> L.Init(m[id].lock) && m[id].cache == map[] && m[id].store == Whole(ValueOf(g, id))
  }

  ghost predicate AllInv(m: System, g: Contents) {
    forall id :: id in m ==> Inv(m[id], ValueOf(g, id))
  }

  lemma BeginsInv(m: System, g: Contents)
    requires Begins(m, g)
    ensures AllInv(m, g)
  {
    hide S.At, L.Init;
    forall id | id in m
      ensures Inv(m[id], ValueOf(g, id))
    {
      S.InitInv(m[id].lock);
      assert Coherent(m[id], S.AtServer, ValueOf(g, id));
    }
  }

  /** Every read along a run returns what the global map holds at that point. */
  ghost predicate ReadsAgree(g: Contents, es: seq<Event>) {
    forall i :: 0 <= i < |es| ==> ReadAgrees(ValueOf(GlobalMap(g, es[..i]), es[i].id), es[i].a)
  }

  lemma EventKeeps(m: System, g: Contents, e: Event)
    requires AllInv(m, g) && e.id in m && Enabled(m[e.id], e.a)
    ensures AllInv(Step(m, e), Change(g, e)) && ReadAgrees(ValueOf(g, e.id), e.a)
  {
    hide Inv, Enabled, Next, After, ReadAgrees;
    StepKeeps(m[e.id], ValueOf(g, e.id), e.a);
  }

  lemma {:induction false} RunAgrees(m: System, g: Contents, es: seq<Event>)
    requires AllInv(m, g) && Legal(m, es)
    ensures ReadsAgree(g, es)
    decreases |es|
  {
    hide AllInv, Enabled, Next, Change, ReadAgrees;
    if es != [] {
      var e := es[0];
      EventKeeps(m, g, e);
      RunAgrees(Step(m, e), Change(g, e), es[1..]);
      forall i | 0 <= i < |es|
        ensures ReadAgrees(ValueOf(GlobalMap(g, es[..i]), es[i].id), es[i].a)
      {
        if i > 0 {
          assert es[..i][0] == e && es[..i][1..] == es[1..][..i - 1];
          assert es[1..][i - 1] == es[i];
        } else {
          assert es[..0] == [];
        }
      }
    }
  }

  /**
    Coherence: whatever the clients do and however their messages race, every get and getattr
    returns what one global map would, in which each put and remove takes effect at once.
   */
  lemma CacheRefinesGlobalMap(m: System, g: Contents, es: seq<Event>)
    requires Begins(m, g) && Legal(m, es)
    ensures ReadsAgree(g, es)
  {
    hide Begins, Legal, ReadsAgree, AllInv;
    BeginsInv(m, g);
    RunAgrees(m, g, es);
  }

  ghost function Final(m: System, es: seq<Event>): System
    requires Legal(m, es)
    decreases |es|
  {
    if es == [] then m else Final(Step(m, es[0]), es[1..])
  }

  lemma {:induction false} RunKeeps(m: System, g: Contents, es: seq<Event>)
    requires AllInv(m, g) && Legal(m, es)
    ensures AllInv(Final(m, es), GlobalMap(g, es))
    decreases |es|
  {
    hide AllInv, Enabled, Next, Change;
    if es != [] {
      EventKeeps(m, g, es[0]);
      RunKeeps(Step(m, es[0]), Change(g, es[0]), es[1..]);
    }
  }

  /**
    At any time at most one client caches an extent, with the contents of the global map; while
    a thread holds the lock, only its own client may.
   */
  lemma OnlyOneCaches(m: System, g: Contents, es: seq<Event>, id: Id, c: Client)
    requires Begins(m, g) && Legal(m, es) && id in Final(m, es) && c in Final(m, es)[id].cache
    ensures Final(m, es)[id].cache[c].buf == if id in GlobalMap(g, es) then GlobalMap(g, es)[id] else ""
    ensures forall d :: d in Final(m, es)[id].cache ==> d == c
    ensures forall d, t :: L.PcOf(Final(m, es)[id].lock, d, t).Holding? ==> d == c
  {
    hide Begins, Legal, S.At;
    BeginsInv(m, g);
    RunKeeps(m, g, es);
    var s := Final(m, es)[id];
    var p, w :| S.At(s.lock, p, w) && Coherent(s, p, ValueOf(GlobalMap(g, es), id));
    forall d, t | L.PcOf(s.lock, d, t).Holding?
      ensures d == c
    {
      S.HolderOwns(s.lock, p, w, d, t);
    }
  }
}
