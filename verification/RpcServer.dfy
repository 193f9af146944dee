/**
  `rpcs`, as far as duplicates go: the reply windows of all its clients.
 */
module RpcServer {
  import opened Option
  import opened ReplyWindow

  lemma {:induction false} RecordedFrom(w: Window, xid: nat, i: nat)
    requires i <= |w| && forall j :: 0 <= j < i ==> !(w[j].xid == xid && w[j].reply.Some?)
    ensures RecordedReply(w, xid) == RecordedReply(w[i..], xid)
    decreases i
  {
    if i == 0 {
      assert w[0..] == w;
    } else {
      RecordedFrom(w[1..], xid, i - 1);
      assert w[1..][i - 1..] == w[i..];
    }
  }

  /** The loop that is meant to find the least xid. */
  method Least(w: Window, xid: nat) returns (minXid: nat)
    requires w != []
    ensures minXid == if exists j :: 0 <= j < |w| && w[j].xid < w[0].xid then xid else w[0].xid
    ensures xid < minXid <==> IsForgotten(w, xid)
  {
    minXid := w[0].xid;
    ghost var lower := false;
    for i := 0 to |w|
      invariant minXid == if lower then xid else w[0].xid
      invariant lower <==> exists j :: 0 <= j < i && w[j].xid < w[0].xid
    {
      lower := lower || w[i].xid < w[0].xid;
      if w[i].xid < minXid { minXid := xid; }
    }
  }

  /** The loop that erases acknowledged entries in place. */
  method Erase(w: Window, rep: nat) returns (r: Window)
    ensures r == Clean(w, rep)
  {
    r := w;
    var it := 0;
    ghost var m := 0;
    while it < |r|
      invariant it <= |r| && m <= |w| && r[..it] == Clean(w[..m], rep) && r[it..] == w[m..]
      decreases |r| - it
    {
      assert w[..m + 1][..m] == w[..m] && w[..m + 1][m] == w[m] == r[it];
      assert r[it + 1..] == r[it..][1..] == w[m..][1..] == w[m + 1..];
      if r[it].xid < rep {
        r := r[..it] + r[it + 1..];
      } else {
        it := it + 1;
      }
      m := m + 1;
    }
    assert w[..m] == w && r[..it] == r;
  }

  /** The loop that looks the call up; a recorded reply wins over an entry without one. */
  method Scan(w: Window, xid: nat) returns (v: Verdict)
    ensures v == if RecordedReply(w, xid).Some? then Done(RecordedReply(w, xid).value)
                 else if Has(w, xid) then InProgress else New
  {
    v := New;
    for i := 0 to |w|
      invariant v == if exists j :: 0 <= j < i && w[j].xid == xid then InProgress else New
      invariant forall j :: 0 <= j < i ==> !(w[j].xid == xid && w[j].reply.Some?)
    {
      if w[i].xid == xid {
        if w[i].reply.Some? {
          RecordedFrom(w, xid, i);
          return Done(w[i].reply.value);
        }
        v := InProgress;
      }
    }
    RecordedFrom(w, xid, |w|);
  }

  /** The reply recorded before, if any, or this one. */
  function FirstReply(w: Window, xid: nat, r: Reply): Reply {
    if RecordedReply(w, xid).Some? then RecordedReply(w, xid).value else r
  }

  lemma {:induction false} RecordedAppend(w: Window, e: Entry, xid: nat)
    ensures RecordedReply(w + [e], xid) ==
              if RecordedReply(w, xid).Some? then RecordedReply(w, xid)
              else if e.xid == xid then e.reply else None
  {
    if w == [] {
      assert w + [e] == [e] && [e][1..] == [];
    } else {
      RecordedAppend(w[1..], e, xid);
      assert (w + [e])[1..] == w[1..] + [e];
    }
  }

  /** Dropping acknowledged entries does not touch the replies of later calls. */
  lemma {:induction false} RecordedClean(w: Window, rep: nat, xid: nat)
    requires rep <= xid
    ensures RecordedReply(Clean(w, rep), xid) == RecordedReply(w, xid)
  {
    if w != [] {
      var front, last := w[..|w| - 1], w[|w| - 1];
      RecordedClean(front, rep, xid);
      RecordedAppend(front, last, xid);
      RecordedAppend(Clean(front, rep), last, xid);
      assert w == front + [last];
    }
  }

  lemma AnsweredFromNowOn(w: Window, xid: nat, rep: nat, r: Reply)
    requires rep <= xid
    ensures Check(Record(w, xid, r), xid, rep).1 == Done(FirstReply(w, xid, r))
  {
    hide Clean, RecordedReply;
    var w' := Record(w, xid, r);
    assert w'[|w|].xid == xid;
    RecordedAppend(w, Entry(xid, Some(r)), xid);
    RecordedClean(w', rep, xid);
  }

  class Server {
    var windows: map<nat, Window>

    constructor ()
      ensures windows == map[]
    {
      windows := map[];
    }

    /** checkduplicate_and_update, for a client that dispatch has already entered. */
    method CheckDuplicate(nonce: nat, xid: nat, rep: nat) returns (v: Verdict)
      requires nonce in windows
      modifies this
      ensures v == Check(old(windows)[nonce], xid, rep).1
      ensures windows == old(windows)[nonce := Check(old(windows)[nonce], xid, rep).0]
    {
      hide Clean, RecordedReply, IsForgotten, Has;
      var w := windows[nonce];
      if w == [] {
        windows := windows[nonce := [Entry(0, None)]];
        return New;
      }
      var minXid := Least(w, xid);
      if xid < minXid {
        assert windows == windows[nonce := w];
        return Forgotten;
      }
      w := Erase(w, rep);
      v := Scan(w, xid);
      if v == New { w := w + [Entry(xid, None)]; }
      windows := windows[nonce := w];
    }

    /** add_reply: from now on a retransmission of the call is answered with the first reply it got. */
    method AddReply(nonce: nat, xid: nat, r: Reply)
      requires nonce in windows
      modifies this
      ensures windows == old(windows)[nonce := Record(old(windows)[nonce], xid, r)]
      ensures forall rep: nat :: rep <= xid ==>
                Check(windows[nonce], xid, rep).1 == Done(FirstReply(old(windows)[nonce], xid, r))
    {
      hide Check;
      windows := windows[nonce := windows[nonce] + [Entry(xid, Some(r))]];
      forall rep: nat | rep <= xid
        ensures Check(windows[nonce], xid, rep).1 == Done(FirstReply(old(windows)[nonce], xid, r))
      {
        AnsweredFromNowOn(old(windows)[nonce], xid, rep, r);
      }
    }

    /** The part of dispatch that decides whether the handler runs; nonce 0 asks for no bookkeeping. */
    method Admit(nonce: nat, xid: nat, rep: nat) returns (v: Verdict)
      modifies this
      ensures nonce == 0 ==> v == New && windows == old(windows)
      ensures nonce != 0 ==>
                var w := if nonce in old(windows) then old(windows)[nonce] else [];
                v == Check(w, xid, rep).1 && windows == old(windows)[nonce := Check(w, xid, rep).0]
    {
      hide Check;
      if nonce == 0 { return New; }
      if nonce !in windows { windows := windows[nonce := []]; }
      v := CheckDuplicate(nonce, xid, rep);
    }
  }
}
