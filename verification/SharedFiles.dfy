/**
  File and directory operations of many clients on one extent. Each is a read of the extent and,
  if it changes anything, a write, by a thread that holds the extent's lock from before the one
  until after the other. Whatever else goes on, the operations act one after the other on one text.
 */
module SharedFiles {
  import opened Option
  import opened Locks
  import L = LockProtocol
  import S = LockSafety
  import C = Coherence
  import X = Extents
  import D = Directories
  import M = DirectoryMaps
  import F = FileContents

  datatype Op = OnFile(f: F.Op) | OnDirectory(d: M.Op)

  datatype Result = FileResult(read: Option<string>) | DirectoryResult(st: M.Status)

  /** random() is what it can be. */
  predicate Possible(op: Op) {
    op.OnDirectory? ==> M.Possible(op.d)
  }

  /** The new contents and the result; text that is no directory stays, with an undefined outcome. */
  function Apply(v: string, op: Op): (string, Result)
    requires Possible(op)
  {
    match op
    case OnFile(f) => (F.Step(v, f).0, FileResult(F.Step(v, f).1))
    case OnDirectory(d) =>
      if D.Parse(v).None? then (v, DirectoryResult(M.Undefined))
      else (M.TextStep(v, d).0, DirectoryResult(M.TextStep(v, d).1))
  }

  /** Whether the operation puts anything back; one that does not leaves the contents alone. */
  predicate Puts(v: string, op: Op)
    requires Possible(op)
  {
    match op
    case OnFile(Write(_, _)) => true
    case OnFile(Resize(n)) => n != |v|
    case OnFile(Read(_, _)) => false
    case OnDirectory(d) => Apply(v, op).1 == DirectoryResult(M.OK)
  }

  lemma QuietOp(v: string, op: Op)
    requires Possible(op) && !Puts(v, op)
    ensures Apply(v, op).0 == v
  {
  }

  predicate AllPossible(ops: seq<Op>) {
    forall i :: 0 <= i < |ops| ==> Possible(ops[i])
  }

  /** Operations one after the other. */
  function Sequential(v: string, ops: seq<Op>): (string, seq<Result>)
    requires AllPossible(ops)
    decreases |ops|
  {
    if ops == [] then (v, [])
    else
      var (v1, r) := Apply(v, ops[0]);
      var (v2, rs) := Sequential(v1, ops[1..]);
      (v2, [r] + rs)
  }

  lemma {:induction false} SequentialMore(v: string, ops: seq<Op>, op: Op)
    requires AllPossible(ops) && Possible(op)
    ensures AllPossible(ops + [op])
    ensures var (v1, rs) := Sequential(v, ops);
            Sequential(v, ops + [op]) == (Apply(v1, op).0, rs + [Apply(v1, op).1])
    decreases |ops|
  {
    hide Apply;
    if ops == [] {
      assert ops + [op] == [op] && [op][1..] == [];
      var r := Apply(v, op).1;
      assert Sequential(Apply(v, op).0, []) == (Apply(v, op).0, []);
      assert [r] + [] == [] + [r];
    } else {
      SequentialMore(Apply(v, ops[0]).0, ops[1..], op);
      assert (ops + [op])[1..] == ops[1..] + [op];
      var (_, rs) := Sequential(Apply(v, ops[0]).0, ops[1..]);
      var r, last := Apply(v, ops[0]).1, Apply(Sequential(v, ops).0, op).1;
      assert [r] + (rs + [last]) == [r] + rs + [last];
    }
  }

  // ------------------------------------------------------------ many clients

  /** An operation that has read v and is not through yet. */
  datatype Pending = Pending(op: Op, v: string)

  datatype State = State(ext: C.State, pending: map<L.Key, Pending>)

  datatype Event =
    | OnLock(a: L.Action)
    | Begin(c: Client, t: Thread, op: Op, v: string)
    | End(c: Client, t: Thread, op: Op, r: Result)

  /** A thread does one thing at a time, and releases the lock only between operations. */
  ghost predicate Takes(s: State, e: Event, s': State) {
    match e
    case OnLock(a) =>
      && C.Enabled(s.ext, C.OnLock(a)) && (a.DoRelease? ==> (a.c, a.t) !in s.pending)
      && s' == s.(ext := C.Next(s.ext, C.OnLock(a)))
    case Begin(c, t, op, v) =>
      && Possible(op) && (c, t) !in s.pending && C.Enabled(s.ext, C.Get(c, t, true, v))
      && s' == State(C.Next(s.ext, C.Get(c, t, true, v)), s.pending[(c, t) := Pending(op, v)])
    case End(c, t, op, r) =>
      && (c, t) in s.pending && s.pending[(c, t)].op == op && Possible(op)
      && var v := s.pending[(c, t)].v;
         && r == Apply(v, op).1
         && s'.pending == s.pending - {(c, t)}
         && if Puts(v, op)
            then C.Enabled(s.ext, C.Put(c, t, Apply(v, op).0)) && s'.ext == C.Next(s.ext, C.Put(c, t, Apply(v, op).0))
            else s'.ext == s.ext
  }

  ghost predicate IsRun(ss: seq<State>, es: seq<Event>) {
    |ss| == |es| + 1 && forall i {:trigger es[i]} :: 0 <= i < |es| ==> Takes(ss[i], es[i], ss[i + 1])
  }

  /** The server stores g, and nobody caches anything or holds the lock. */
  ghost predicate Starts(s: State, g: string) {
    L.Init(s.ext.lock) && s.ext.cache == map[] && s.ext.store == Some(X.Stored(g)) && s.pending == map[]
  }

  /** The operations that are through after k events, in the order in which they ended. */
  ghost function Ops(es: seq<Event>, k: nat): seq<Op>
    requires k <= |es|
  {
    if k == 0 then [] else Ops(es, k - 1) + if es[k - 1].End? then [es[k - 1].op] else []
  }

  ghost function Results(es: seq<Event>, k: nat): seq<Result>
    requires k <= |es|
  {
    if k == 0 then [] else Results(es, k - 1) + if es[k - 1].End? then [es[k - 1].r] else []
  }

  // ------------------------------------------------------------ the invariant

  /** Whoever is in an operation holds the lock and has read what is there now. */
  ghost predicate PendingOk(s: State, g: string) {
    forall k :: k in s.pending ==> L.PcOf(s.ext.lock, k.0, k.1).Holding? && s.pending[k].v == g && Possible(s.pending[k].op)
  }

  ghost predicate Inv(s: State, g: string) {
    C.Inv(s.ext, Some(g)) && PendingOk(s, g)
  }

  lemma HoldingStays(s: L.State, a: L.Action, c: Client, t: Thread)
    requires L.Enabled(s, a) && L.PcOf(s, c, t).Holding? && !(a.DoRelease? && a.c == c && a.t == t)
    ensures L.PcOf(L.Next(s, a), c, t).Holding?
  {
    hide Register, BeginFetch, EndFetch, Take, Release, Revoke, Retry, ServerAcquire, ServerRelease, NeedsRevoke;
  }

  lemma OneHolder(s: C.State, g: string, c: Client, t: Thread, c': Client, t': Thread)
    requires C.Inv(s, Some(g)) && L.PcOf(s.lock, c, t).Holding? && L.PcOf(s.lock, c', t').Holding?
    ensures c == c' && t == t'
  {
    hide S.LockAt, S.DemandAt, S.ClaimsOk, S.QueueOk, S.InfosOk, S.Waiters, C.Coherent;
    var p, d :| S.At(s.lock, p, d) && C.Coherent(s, p, Some(g));
    S.HolderOwns(s.lock, p, d, c, t);
    S.HolderOwns(s.lock, p, d, c', t');
    assert S.ThreadOk(s.lock.cli, (c, t), s.lock.pcs[(c, t)]) && S.ThreadOk(s.lock.cli, (c', t'), s.lock.pcs[(c', t')]);
  }

  lemma LockKeeps(s: State, g: string, a: L.Action, s': State)
    requires Inv(s, g) && Takes(s, OnLock(a), s')
    ensures Inv(s', g)
  {
    hide C.Inv, L.Enabled, L.Next;
    C.StepKeeps(s.ext, Some(g), C.OnLock(a));
    forall k | k in s'.pending
      ensures L.PcOf(s'.ext.lock, k.0, k.1).Holding?
    {
      assert k == (k.0, k.1);
      HoldingStays(s.ext.lock, a, k.0, k.1);
    }
  }

  lemma BeginKeeps(s: State, g: string, c: Client, t: Thread, op: Op, v: string, s': State)
    requires Inv(s, g) && Takes(s, Begin(c, t, op, v), s')
    ensures Inv(s', g)
  {
    hide C.Inv;
    C.StepKeeps(s.ext, Some(g), C.Get(c, t, true, v));
  }

  /** An operation that ends acts on what is there, as if it had begun just now. */
  lemma EndKeeps(s: State, g: string, c: Client, t: Thread, op: Op, r: Result, s': State)
    requires Inv(s, g) && Takes(s, End(c, t, op, r), s')
    ensures Possible(op) && r == Apply(g, op).1 && Inv(s', Apply(g, op).0)
  {
    hide C.Inv, Apply, Puts;
    forall k | k in s.pending
      ensures k == (c, t)
    {
      OneHolder(s.ext, g, c, t, k.0, k.1);
      assert k == (k.0, k.1);
    }
    assert s'.pending == map[];
    if Puts(g, op) {
      C.StepKeeps(s.ext, Some(g), C.Put(c, t, Apply(g, op).0));
    } else {
      QuietOp(g, op);
    }
  }

  lemma StartInv(s: State, g: string)
    requires Starts(s, g)
    ensures Inv(s, g)
  {
    hide S.At;
    S.InitInv(s.ext.lock);
    assert C.Coherent(s.ext, S.AtServer, Some(g));
  }

  /** A step of a run: an operation that ends is the next one of the sequence. */
  lemma StepKeeps(s: State, g: string, e: Event, s': State)
    requires Inv(s, g) && Takes(s, e, s')
    ensures !e.End? ==> Inv(s', g)
    ensures e.End? ==> Possible(e.op) && e.r == Apply(g, e.op).1 && Inv(s', Apply(g, e.op).0)
  {
    hide Inv, Takes, Apply;
    match e
    case OnLock(a) => LockKeeps(s, g, a, s');
    case Begin(c, t, op, v) => BeginKeeps(s, g, c, t, op, v, s');
    case End(c, t, op, r) => EndKeeps(s, g, c, t, op, r, s');
  }

  /** The finished operations after one more event. */
  lemma OpsMore(es: seq<Event>, k: nat)
    requires k < |es|
    ensures es[k].End? ==> Ops(es, k + 1) == Ops(es, k) + [es[k].op] && Results(es, k + 1) == Results(es, k) + [es[k].r]
    ensures !es[k].End? ==> Ops(es, k + 1) == Ops(es, k) && Results(es, k + 1) == Results(es, k)
  {
  }

  lemma NothingYet(s: State, es: seq<Event>, g: string)
    requires Starts(s, g)
    ensures AllPossible(Ops(es, 0)) && Results(es, 0) == Sequential(g, Ops(es, 0)).1
    ensures Inv(s, Sequential(g, Ops(es, 0)).0)
  {
    hide Inv, Starts;
    StartInv(s, g);
  }

  lemma RunTakes(ss: seq<State>, es: seq<Event>, k: nat)
    requires IsRun(ss, es) && k < |es|
    ensures Takes(ss[k], es[k], ss[k + 1])
  {
    hide Takes;
  }

  /** After any run the extent holds what the finished operations leave, and they returned what they would one by one. */
  lemma {:induction false} OneAfterTheOther(ss: seq<State>, es: seq<Event>, g: string, k: nat)
    requires IsRun(ss, es) && Starts(ss[0], g) && k <= |es|
    ensures AllPossible(Ops(es, k)) && Results(es, k) == Sequential(g, Ops(es, k)).1
    ensures Inv(ss[k], Sequential(g, Ops(es, k)).0)
  {
    hide Inv, Takes, Apply, Starts, Possible, AllPossible, Ops, Results, Sequential;
    if k == 0 {
      NothingYet(ss[0], es, g);
    } else {
      OneAfterTheOther(ss, es, g, k - 1);
      OpsMore(es, k - 1);
      RunTakes(ss, es, k - 1);
      StepKeeps(ss[k - 1], Sequential(g, Ops(es, k - 1)).0, es[k - 1], ss[k]);
      if es[k - 1].End? { SequentialMore(g, Ops(es, k - 1), es[k - 1].op); }
    }
  }

  // ------------------------------------------------------------ one file, one directory

  function FileOps(fs: seq<F.Op>): (ops: seq<Op>)
    ensures |ops| == |fs| && forall i :: 0 <= i < |ops| ==> ops[i] == OnFile(fs[i])
  {
    seq(|fs|, i requires 0 <= i < |fs| => OnFile(fs[i]))
  }

  function FileResults(rs: seq<Option<string>>): (r: seq<Result>)
    ensures |r| == |rs| && forall i :: 0 <= i < |r| ==> r[i] == FileResult(rs[i])
  {
    seq(|rs|, i requires 0 <= i < |rs| => FileResult(rs[i]))
  }

  lemma {:induction false} SequentialFile(v: string, fs: seq<F.Op>)
    ensures Sequential(v, FileOps(fs)) == (F.Run(v, fs).0, FileResults(F.Run(v, fs).1))
    decreases |fs|
  {
    if fs != [] {
      assert FileOps(fs)[1..] == FileOps(fs[1..]);
      SequentialFile(F.Step(v, fs[0]).0, fs[1..]);
      var (_, outs) := F.Run(F.Step(v, fs[0]).0, fs[1..]);
      assert FileResults([F.Step(v, fs[0]).1] + outs) == [FileResult(F.Step(v, fs[0]).1)] + FileResults(outs);
    } else {
      assert FileOps(fs) == [] && FileResults([]) == [];
    }
  }

  /** Reads, writes and size changes of many clients on one file are those of one byte map. */
  lemma ManyClientsOneFile(ss: seq<State>, es: seq<Event>, g: string, fs: seq<F.Op>, b: F.ByteMap)
    requires IsRun(ss, es) && Starts(ss[0], g) && Ops(es, |es|) == FileOps(fs) && F.Agrees(g, b)
    ensures Results(es, |es|) == FileResults(F.MapRun(b, fs).1)
  {
    hide IsRun, Starts, Ops, Results, Sequential, F.Agrees, F.Run, F.MapRun;
    OneAfterTheOther(ss, es, g, |es|);
    SequentialFile(g, fs);
    F.FileIsAByteMap(g, b, fs);
  }

  function DirOps(ds: seq<M.Op>): (ops: seq<Op>)
    ensures |ops| == |ds| && forall i :: 0 <= i < |ops| ==> ops[i] == OnDirectory(ds[i])
  {
    seq(|ds|, i requires 0 <= i < |ds| => OnDirectory(ds[i]))
  }

  function DirResults(rs: seq<M.Status>): (r: seq<Result>)
    ensures |r| == |rs| && forall i :: 0 <= i < |r| ==> r[i] == DirectoryResult(rs[i])
  {
    seq(|rs|, i requires 0 <= i < |rs| => DirectoryResult(rs[i]))
  }

  lemma {:induction false} SequentialDirectory(v: string, ds: seq<M.Op>)
    requires M.Proper(ds) && M.TextRun(v, ds).Some?
    ensures Sequential(v, DirOps(ds)) == (M.TextRun(v, ds).value.0, DirResults(M.TextRun(v, ds).value.1))
    decreases |ds|
  {
    hide D.Parse, M.TextStep;
    if ds != [] {
      assert DirOps(ds)[1..] == DirOps(ds[1..]);
      var (v1, st) := M.TextStep(v, ds[0]);
      SequentialDirectory(v1, ds[1..]);
      var (_, sts) := M.TextRun(v1, ds[1..]).value;
      assert DirResults([st] + sts) == [DirectoryResult(st)] + DirResults(sts);
    } else {
      assert DirOps(ds) == [] && DirResults([]) == [];
    }
  }

  /** Creates and unlinks of many clients in one directory are those of one map. */
  lemma ManyClientsOneDirectory(ss: seq<State>, es: seq<Event>, l: seq<D.Dirent>, ds: seq<M.Op>) returns (l': seq<D.Dirent>)
    requires D.Good(l) && M.Unique(l) && M.Proper(ds)
    requires IsRun(ss, es) && Starts(ss[0], D.Write(l)) && Ops(es, |es|) == DirOps(ds)
    ensures Results(es, |es|) == DirResults(M.MapRun(M.MapOf(l), ds).1)
    ensures M.Unique(l') && M.MapOf(l') == M.MapRun(M.MapOf(l), ds).0
    ensures C.Inv(ss[|es|].ext, Some(D.Write(l'))) && D.Parse(D.Write(l')) == Some(l')
  {
    hide Starts, Takes, Ops, Results, Sequential, D.Parse, D.Write, M.TextRun, M.MapRun, M.MapOf, M.Unique;
    l' := M.DirectoryIsAMap(l, ds);
    OneAfterTheOther(ss, es, D.Write(l), |es|);
    SequentialDirectory(D.Write(l), ds);
  }
}
