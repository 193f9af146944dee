/**
  The Paxos acceptor as a value: its request handlers, the log file they append
  to, and the recovery that rebuilds the acceptor from that file.
 */
module Acceptors {
  import opened Option
  import opened Text
  import opened Ballots

  /**
    `values` is read with a default: reading an absent instance gives "".
    `log` is the text of the log file.
   */
  datatype Acceptor = Acceptor(
    me: Node, promised: Ballot, accepted: Ballot, vote: Value,
    decided: nat, values: map<nat, Value>, log: string)

  function ValueAt(values: map<nat, Value>, instance: nat): Value {
    if instance in values then values[instance] else ""
  }

  datatype PrepareReply = OldInstance(v: Value) | Promised(na: Ballot, va: Value) | Refused

  // ------------------------------------------------------------ log records

  datatype Record = Done(instance: nat, v: Value) | Seen(b: Ballot) | Voted(b: Ballot, v: Value)

  /** The line that loginstance, logprop and logaccept append. */
  function Line(r: Record): string {
    match r
    case Done(i, v) => "done" + (" " + Decimal(i) + (" " + v + "\n"))
    case Seen(b) => "propseen" + (" " + Decimal(b.n) + (" " + b.node + "\n"))
    case Voted(b, v) => "accepted" + (" " + Decimal(b.n) + (" " + b.node + (" " + v + "\n")))
  }

  function LogText(rs: seq<Record>): string {
    if rs == [] then "" else LogText(rs[..|rs| - 1]) + Line(rs[|rs| - 1])
  }

  /** Names without white space and values without newlines: what the file format can carry. */
  predicate Writable(r: Record) {
    match r
    case Done(_, v) => IsLine(v)
    case Seen(b) => IsWord(b.node)
    case Voted(b, v) => IsWord(b.node) && IsLine(v)
  }

  predicate AllWritable(rs: seq<Record>) {
    forall i :: 0 <= i < |rs| ==> Writable(rs[i])
  }

  // ------------------------------------------------------------ handlers

  function Prepare(s: Acceptor, instance: nat, n: Ballot): (Acceptor, PrepareReply) {
    if s.decided >= instance then (s, OldInstance(ValueAt(s.values, instance)))
    else if Above(n, s.promised) then
      (s.(promised := n, log := s.log + Line(Seen(n))), Promised(s.accepted, s.vote))
    else (s, Refused)
  }

  /** The request's instance is not compared with the acceptor's. */
  function Accept(s: Acceptor, n: Ballot, v: Value): (Acceptor, bool) {
    if AtLeast(n, s.promised) then
      (s.(accepted := n, vote := v, log := s.log + Line(Voted(n, v))), true)
    else (s, false)
  }

  function Commit(s: Acceptor, instance: nat, v: Value): Acceptor {
    if instance > s.decided then
      s.(values := s.values[instance := v], log := s.log + Line(Done(instance, v)), decided := instance,
         promised := Ballot(0, s.me), accepted := Ballot(0, s.me), vote := "")
    else s
  }

  /** `Aborted` is a failed VERIFY, which ends the process. */
  datatype DecideOutcome = Committed(s: Acceptor) | Ahead | Aborted

  function Decide(s: Acceptor, instance: nat, v: Value): DecideOutcome {
    if instance == s.decided + 1 then
      if s.vote == v then Committed(Commit(s, instance, s.vote)) else Aborted
    else if instance <= s.decided then Ahead
    else Aborted
  }

  /**
    An acceptor that is behind by more than one instance is served by prepare and accept all the
    same, and then dies on the decision.
   */
  lemma BehindDies(s: Acceptor, instance: nat, n: Ballot, v: Value)
    requires instance > s.decided + 1 && Above(n, s.promised)
    ensures var (s1, r) := Prepare(s, instance, n);
            var (s2, ok) := Accept(s1, n, v);
            r.Promised? && ok && Decide(s2, instance, v).Aborted?
  {
    AtLeastIs(n, n);
  }

  // ------------------------------------------------------------ recovery

  datatype Parsed = End | Bad | Rec(r: Record, rest: string)

  function ReadDone(text: string): (p: Parsed)
    ensures p.Rec? ==> |p.rest| <= |text|
  {
    var (ds, t1) := ReadDigits(text);
    var (v, t2) := ReadLine(Drop1(t1));
    if ds == "" then Bad else Rec(Done(NumberOf(ds), v), t2)
  }

  function ReadSeen(text: string): (p: Parsed)
    ensures p.Rec? ==> |p.rest| <= |text|
  {
    var (ds, t1) := ReadDigits(text);
    var (node, t2) := ReadWord(t1);
    if ds == "" then Bad else Rec(Seen(Ballot(NumberOf(ds), node)), t2)
  }

  function ReadVoted(text: string): (p: Parsed)
    ensures p.Rec? ==> |p.rest| <= |text|
  {
    var (ds, t1) := ReadDigits(text);
    var (node, t2) := ReadWord(t1);
    var (v, t3) := ReadLine(Drop1(t2));
    if ds == "" then Bad else Rec(Voted(Ballot(NumberOf(ds), node), v), t3)
  }

  /** One turn of the loop in logread; an unknown word or a missing number is `Bad`. */
  function ReadRecord(text: string): (p: Parsed)
    ensures p.Rec? ==> |p.rest| < |text|
  {
    var (kind, rest) := ReadWord(text);
    if kind == "" then End
    else if kind == "done" then ReadDone(rest)
    else if kind == "propseen" then ReadSeen(rest)
    else if kind == "accepted" then ReadVoted(rest)
    else Bad
  }

  /** The fields one record overwrites: `done` resets the counters but leaves the names. */
  function Apply(s: Acceptor, r: Record): Acceptor {
    match r
    case Done(i, v) =>
      s.(values := s.values[i := v], decided := i, vote := "",
         promised := s.promised.(n := 0), accepted := s.accepted.(n := 0))
    case Seen(b) => s.(promised := b)
    case Voted(b, v) => s.(accepted := b, vote := v)
  }

  function Replay(s: Acceptor, rs: seq<Record>): Acceptor {
    if rs == [] then s else Apply(Replay(s, rs[..|rs| - 1]), rs[|rs| - 1])
  }

  function ReadLog(s: Acceptor, text: string): Option<Acceptor>
    decreases |text|
  {
    match ReadRecord(text)
    case End => Some(s)
    case Bad => None
    case Rec(r, rest) => ReadLog(Apply(s, r), rest)
  }

  function Fresh(me: Node, log: string): Acceptor {
    Acceptor(me, Ballot(0, me), Ballot(0, me), "", 0, map[], log)
  }

  /** The constructor of a restarted process: fresh fields, then logread. */
  function Boot(me: Node, log: string): Option<Acceptor> {
    ReadLog(Fresh(me, log), log)
  }

  // ------------------------------------------------------------ reading back

  lemma DoneReadBack(i: nat, v: Value, text: string, t1: string, rest: string)
    requires text == " " + Decimal(i) + t1 && t1 != "" && t1[0] == ' ' && ReadLine(Drop1(t1)) == (v, rest)
    ensures ReadDone(text) == Rec(Done(i, v), rest)
  {
    DecimalReadBack(i, t1);
    DecimalRoundTrip(i);
  }

  lemma SeenReadBack(b: Ballot, text: string, t1: string, rest: string)
    requires text == " " + Decimal(b.n) + t1 && t1 != "" && t1[0] == ' ' && ReadWord(t1) == (b.node, rest)
    ensures ReadSeen(text) == Rec(Seen(b), rest)
  {
    DecimalReadBack(b.n, t1);
    DecimalRoundTrip(b.n);
  }

  lemma VotedReadBack(b: Ballot, v: Value, text: string, t1: string, t2: string, rest: string)
    requires text == " " + Decimal(b.n) + t1 && t1 != "" && t1[0] == ' '
    requires ReadWord(t1) == (b.node, t2) && ReadLine(Drop1(t2)) == (v, rest)
    ensures ReadVoted(text) == Rec(Voted(b, v), rest)
  {
    DecimalReadBack(b.n, t1);
    DecimalRoundTrip(b.n);
  }

  /** A newline left by `propseen` is skipped before the next record. */
  lemma LeadingNewline(text: string)
    ensures ReadRecord("\n" + text) == ReadRecord(text)
  {
    var t := "\n" + text;
    assert t[1..] == text;
    var k := Span(IsSpace, text);
    assert Span(IsSpace, t) == 1 + k;
    assert SkipSpace(t) == SkipSpace(text);
  }

  lemma DoneLine(i: nat, v: Value, rest: string)
    requires IsLine(v)
    ensures ReadRecord(Line(Done(i, v)) + rest) == Rec(Done(i, v), rest)
  {
    hide ReadDone, ReadWord, ReadLine;
    var t1 := " " + v + "\n" + rest;
    var t := " " + Decimal(i) + t1;
    assert Line(Done(i, v)) + rest == "done" + t;
    WordReadBack("done", t);
    FieldReadBack(v, rest);
    DoneReadBack(i, v, t, t1, rest);
  }

  lemma SeenLine(b: Ballot, rest: string)
    requires IsWord(b.node)
    ensures ReadRecord(Line(Seen(b)) + rest) == Rec(Seen(b), "\n" + rest)
  {
    hide ReadSeen, ReadWord;
    var t2 := "\n" + rest;
    var t1 := " " + b.node + t2;
    var t := " " + Decimal(b.n) + t1;
    assert Line(Seen(b)) + rest == "propseen" + t;
    WordReadBack("propseen", t);
    WordReadBack(b.node, t2);
    SeenReadBack(b, t, t1, t2);
  }

  lemma VotedLine(b: Ballot, v: Value, rest: string)
    requires IsWord(b.node) && IsLine(v)
    ensures ReadRecord(Line(Voted(b, v)) + rest) == Rec(Voted(b, v), rest)
  {
    hide ReadVoted, ReadWord, ReadLine;
    var t2 := " " + v + "\n" + rest;
    var t1 := " " + b.node + t2;
    var t := " " + Decimal(b.n) + t1;
    assert Line(Voted(b, v)) + rest == "accepted" + t;
    WordReadBack("accepted", t);
    WordReadBack(b.node, t2);
    FieldReadBack(v, rest);
    VotedReadBack(b, v, t, t1, t2, rest);
  }

  lemma RecordReadBack(s: Acceptor, r: Record, rest: string)
    requires Writable(r)
    ensures ReadLog(s, Line(r) + rest) == ReadLog(Apply(s, r), rest)
  {
    hide ReadRecord, Line, Apply;
    match r
    case Done(i, v) => DoneLine(i, v, rest);
    case Seen(b) => SeenLine(b, rest); LeadingNewline(rest);
    case Voted(b, v) => VotedLine(b, v, rest);
  }

  /** Reading the text of any writable records replays those records. */
  lemma {:induction false} LogReadBack(s: Acceptor, rs: seq<Record>, rest: string)
    requires AllWritable(rs)
    ensures ReadLog(s, LogText(rs) + rest) == ReadLog(Replay(s, rs), rest)
  {
    if rs == [] {
      assert LogText(rs) + rest == rest;
    } else {
      var front, last := rs[..|rs| - 1], rs[|rs| - 1];
      assert LogText(rs) + rest == LogText(front) + (Line(last) + rest);
      LogReadBack(s, front, Line(last) + rest);
      RecordReadBack(Replay(s, front), last, rest);
    }
  }

  // ------------------------------------------------------------ crash recovery

  /** Equal up to the name part of a ballot numbered 0. */
  predicate SameBallot(a: Ballot, b: Ballot) {
    a.n == b.n && (a.n > 0 ==> a.node == b.node)
  }

  predicate Similar(s: Acceptor, t: Acceptor) {
    && s.me == t.me && s.vote == t.vote && s.decided == t.decided && s.values == t.values && s.log == t.log
    && SameBallot(s.promised, t.promised) && SameBallot(s.accepted, t.accepted)
  }

  /** The log holds exactly what is needed to rebuild the acceptor. */
  ghost predicate LoggedAs(s: Acceptor, rs: seq<Record>) {
    AllWritable(rs) && s.log == LogText(rs) && Similar(Replay(Fresh(s.me, s.log), rs), s)
  }

  ghost predicate Durable(s: Acceptor) {
    exists rs :: LoggedAs(s, rs)
  }

  lemma {:induction false} ReplayKeepsLog(me: Node, log: string, log': string, rs: seq<Record>)
    ensures Replay(Fresh(me, log), rs).(log := log') == Replay(Fresh(me, log'), rs)
    ensures Replay(Fresh(me, log), rs).log == log && Replay(Fresh(me, log), rs).me == me
  {
    if rs != [] { ReplayKeepsLog(me, log, log', rs[..|rs| - 1]); }
  }

  /** Appending the record of a change to the log of a durable acceptor keeps it durable. */
  lemma Extend(s: Acceptor, rs: seq<Record>, r: Record, s': Acceptor)
    requires LoggedAs(s, rs) && Writable(r)
    requires s'.log == s.log + Line(r) && Similar(Apply(s, r).(log := s'.log), s')
    ensures LoggedAs(s', rs + [r])
  {
    var rs' := rs + [r];
    assert rs'[..|rs|] == rs;
    ReplayKeepsLog(s.me, s.log, s'.log, rs);
  }

  /** Every handler leaves a durable acceptor durable. */
  lemma PrepareDurable(s: Acceptor, instance: nat, n: Ballot)
    requires Durable(s) && IsWord(n.node)
    ensures Durable(Prepare(s, instance, n).0)
  {
    var s' := Prepare(s, instance, n).0;
    if s' != s {
      var rs :| LoggedAs(s, rs);
      Extend(s, rs, Seen(n), s');
    }
  }

  lemma AcceptDurable(s: Acceptor, n: Ballot, v: Value)
    requires Durable(s) && IsWord(n.node) && IsLine(v)
    ensures Durable(Accept(s, n, v).0)
  {
    var s' := Accept(s, n, v).0;
    if AtLeast(n, s.promised) {
      var rs :| LoggedAs(s, rs);
      Extend(s, rs, Voted(n, v), s');
    }
  }

  lemma CommitDurable(s: Acceptor, instance: nat, v: Value)
    requires Durable(s) && IsLine(v)
    ensures Durable(Commit(s, instance, v))
  {
    if instance > s.decided {
      var rs :| LoggedAs(s, rs);
      Extend(s, rs, Done(instance, v), Commit(s, instance, v));
    }
  }

  lemma EndOfText()
    ensures ReadRecord("") == End
  {
  }

  lemma BootReplays(me: Node, rs: seq<Record>)
    requires AllWritable(rs)
    ensures Boot(me, LogText(rs)) == Some(Replay(Fresh(me, LogText(rs)), rs))
  {
    hide ReadRecord, LogText, Replay;
    EndOfText();
    var s := Fresh(me, LogText(rs));
    LogReadBack(s, rs, "");
    assert LogText(rs) + "" == LogText(rs);
  }

  /** Replaying the text log rebuilds the acceptor, and the rebuilt acceptor is durable again. */
  lemma Recovered(s: Acceptor)
    requires Durable(s)
    ensures Boot(s.me, s.log).Some? && Similar(s, Boot(s.me, s.log).value) && Durable(Boot(s.me, s.log).value)
  {
    var rs :| LoggedAs(s, rs);
    BootReplays(s.me, rs);
    assert LoggedAs(Replay(Fresh(s.me, s.log), rs), rs);
  }

  // ------------------------------------------------------------ runs of one acceptor

  datatype Event =
    | OnPrepare(instance: nat, n: Ballot)
    | OnAccept(n: Ballot, v: Value)
    | OnDecide(instance: nat, v: Value)
    | OnCommit(instance: nat, v: Value)
    | Crash

  /** A crash loses the process; the next one boots from the log file. */
  function Step(s: Acceptor, e: Event): Acceptor {
    match e
    case OnPrepare(i, n) => Prepare(s, i, n).0
    case OnAccept(n, v) => Accept(s, n, v).0
    case OnDecide(i, v) => (match Decide(s, i, v) case Committed(s') => s' case _ => s)
    case OnCommit(i, v) => Commit(s, i, v)
    case Crash => (match Boot(s.me, s.log) case Some(t) => t case None => s)
  }

  function Steps(s: Acceptor, es: seq<Event>): Acceptor
    decreases |es|
  {
    if es == [] then s else Steps(Step(s, es[0]), es[1..])
  }

  /** Requests as proposers send them: a positive number, a name that is a word, a one-line value. */
  predicate Proper(e: Event) {
    match e
    case OnPrepare(_, n) => n.n > 0 && IsWord(n.node)
    case OnAccept(n, v) => n.n > 0 && IsWord(n.node) && IsLine(v)
    case OnDecide(_, v) => IsLine(v)
    case OnCommit(_, v) => IsLine(v)
    case Crash => true
  }

  predicate AllProper(es: seq<Event>) {
    forall i :: 0 <= i < |es| ==> Proper(es[i])
  }

  lemma StepDurable(s: Acceptor, e: Event)
    requires Durable(s) && Proper(e)
    ensures Durable(Step(s, e)) && Step(s, e).me == s.me
  {
    hide Durable, Boot;
    match e
    case OnPrepare(i, n) => PrepareDurable(s, i, n);
    case OnAccept(n, v) => AcceptDurable(s, n, v);
    case OnDecide(i, v) => if i == s.decided + 1 && s.vote == v { CommitDurable(s, i, v); }
    case OnCommit(i, v) => CommitDurable(s, i, v);
    case Crash => Recovered(s);
  }

  /** What a caller learns from the reply to an event. */
  datatype Answer = Prepared(r: PrepareReply) | Accepted(ok: bool) | Decided(aborted: bool) | Nothing

  function Reply(s: Acceptor, e: Event): Answer {
    match e
    case OnPrepare(i, n) => Prepared(Prepare(s, i, n).1)
    case OnAccept(n, v) => Accepted(Accept(s, n, v).1)
    case OnDecide(i, v) => Decided(Decide(s, i, v).Aborted?)
    case OnCommit(_, _) | Crash => Nothing
  }

  predicate SameAnswer(a: Answer, b: Answer) {
    a == b || (a.Prepared? && b.Prepared? && a.r.Promised? && b.r.Promised?
               && a.r.va == b.r.va && SameBallot(a.r.na, b.r.na))
  }

  lemma SimilarStep(s: Acceptor, t: Acceptor, e: Event)
    requires Similar(s, t) && Proper(e) && !e.Crash?
    ensures Similar(Step(s, e), Step(t, e)) && SameAnswer(Reply(s, e), Reply(t, e))
  {
  }

  /** The same events with every crash left out. */
  function WithoutCrashes(es: seq<Event>): seq<Event> {
    if es == [] then []
    else if es[0].Crash? then WithoutCrashes(es[1..])
    else [es[0]] + WithoutCrashes(es[1..])
  }

  lemma CrashStep(s: Acceptor)
    requires Durable(s)
    ensures Similar(s, Step(s, Crash))
  {
    hide Boot, Durable;
    Recovered(s);
  }

  lemma {:induction false} CrashesVanish(s: Acceptor, t: Acceptor, es: seq<Event>)
    decreases |es|
    requires Durable(s) && Similar(s, t) && AllProper(es)
    ensures Similar(Steps(s, es), Steps(t, WithoutCrashes(es)))
    ensures Durable(Steps(s, es))
  {
    hide Step, Reply, Durable;
    if es != [] {
      StepDurable(s, es[0]);
      if es[0].Crash? {
        CrashStep(s);
        CrashesVanish(Step(s, es[0]), t, es[1..]);
      } else {
        SimilarStep(s, t, es[0]);
        CrashesVanish(Step(s, es[0]), Step(t, es[0]), es[1..]);
        var rest := WithoutCrashes(es[1..]);
        assert ([es[0]] + rest)[1..] == rest;
      }
    }
  }

  /**
    Crash recovery: in any run from an empty log, with crashes wherever they fall, the
    acceptor is what it would be had it never crashed, up to the name part of a ballot
    numbered 0, and it answers the next request the same way.
   */
  lemma CrashesAreInvisible(me: Node, es: seq<Event>, next: Event)
    requires AllProper(es) && Proper(next) && !next.Crash?
    ensures var s := Steps(Fresh(me, ""), es);
            var t := Steps(Fresh(me, ""), WithoutCrashes(es));
            && Similar(s, t)
            && SameAnswer(Reply(s, next), Reply(t, next))
            && Boot(s.me, s.log).Some? && Similar(s, Boot(s.me, s.log).value)
  {
    var s0 := Fresh(me, "");
    assert LoggedAs(s0, []);
    CrashesVanish(s0, s0, es);
    Recovered(Steps(s0, es));
    SimilarStep(Steps(s0, es), Steps(s0, WithoutCrashes(es)), next);
  }
}
