/**
  The server's memory of one client's calls: what it remembers, and its verdict on a request.
 */
module ReplyWindow {
  import opened Option

  type Reply = string

  /** `reply_t`: a call in progress, or one with its reply. */
  datatype Entry = Entry(xid: nat, reply: Option<Reply>)

  type Window = seq<Entry>

  datatype Verdict = New | InProgress | Done(r: Reply) | Forgotten

  predicate Has(w: Window, xid: nat) {
    exists i :: 0 <= i < |w| && w[i].xid == xid
  }

  /** The entries with xid_rep or more; the comment in the source says more than xid_rep. */
  function Clean(w: Window, rep: nat): Window {
    if w == [] then []
    else if w[|w| - 1].xid >= rep then Clean(w[..|w| - 1], rep) + [w[|w| - 1]]
    else Clean(w[..|w| - 1], rep)
  }

  /** The first recorded reply of a call. */
  function RecordedReply(w: Window, xid: nat): Option<Reply> {
    if w == [] then None
    else if w[0].xid == xid && w[0].reply.Some? then w[0].reply
    else RecordedReply(w[1..], xid)
  }

  /**
    The minimum the source computes is the first entry's xid, or the request's own xid
    when any entry lies below the first.
   */
  predicate IsForgotten(w: Window, xid: nat)
    requires w != []
  {
    xid < w[0].xid && forall i :: 0 <= i < |w| ==> w[i].xid >= w[0].xid
  }

  /** checkduplicate_and_update. */
  function Check(w: Window, xid: nat, rep: nat): (Window, Verdict) {
    if w == [] then ([Entry(0, None)], New)
    else if IsForgotten(w, xid) then (w, Forgotten)
    else
      var w1 := Clean(w, rep);
      if RecordedReply(w1, xid).Some? then (w1, Done(RecordedReply(w1, xid).value))
      else if Has(w1, xid) then (w1, InProgress)
      else (w1 + [Entry(xid, None)], New)
  }

  /** add_reply. */
  function Record(w: Window, xid: nat, r: Reply): Window {
    w + [Entry(xid, Some(r))]
  }

  // ------------------------------------------------------------ properties

  lemma {:induction false} CleanKeeps(w: Window, rep: nat)
    ensures forall x: nat :: Has(Clean(w, rep), x) <==> Has(w, x) && x >= rep
    ensures forall e :: e in Clean(w, rep) ==> e in w && e.xid >= rep
    ensures forall e :: e in w && e.xid >= rep ==> e in Clean(w, rep)
  {
    if w != [] {
      var front, last := w[..|w| - 1], w[|w| - 1];
      CleanKeeps(front, rep);
      assert w == front + [last];
      var c := Clean(front, rep);
      forall x: nat
        ensures Has(w, x) <==> Has(front, x) || last.xid == x
        ensures Has(c + [last], x) <==> Has(c, x) || last.xid == x
      {
        if i :| 0 <= i < |front| && front[i].xid == x { assert w[i].xid == x; }
        if i :| 0 <= i < |c| && c[i].xid == x { assert (c + [last])[i].xid == x; }
        assert w[|front|].xid == last.xid && (c + [last])[|c|].xid == last.xid;
      }
    }
  }

  lemma HasAppend(w: Window, e: Entry)
    ensures forall x: nat :: Has(w + [e], x) <==> Has(w, x) || e.xid == x
  {
    forall x: nat
      ensures Has(w + [e], x) <==> Has(w, x) || e.xid == x
    {
      if i :| 0 <= i < |w| && w[i].xid == x { assert (w + [e])[i].xid == x; }
      assert (w + [e])[|w|] == e;
    }
  }

  lemma {:induction false} RecordedIsThere(w: Window, xid: nat)
    ensures RecordedReply(w, xid).Some? ==> Entry(xid, RecordedReply(w, xid)) in w
    ensures RecordedReply(w, xid).Some? ==> Has(w, xid)
  {
    if w != [] && !(w[0].xid == xid && w[0].reply.Some?) {
      RecordedIsThere(w[1..], xid);
      if RecordedReply(w, xid).Some? {
        var i :| 0 <= i < |w[1..]| && w[1..][i].xid == xid;
        assert w[i + 1].xid == xid;
      }
    }
  }

  /** The verdict on a call the window knows: it is not executed again. */
  lemma KnownIsNotNew(w: Window, xid: nat, rep: nat)
    requires Has(w, xid) && rep <= xid
    ensures Check(w, xid, rep).1 != New && Has(Check(w, xid, rep).0, xid)
  {
    CleanKeeps(w, rep);
  }

  /** A call the window does not know is executed unless it lies below an ordered window. */
  lemma UnknownVerdict(w: Window, xid: nat, rep: nat)
    requires w != [] && !Has(w, xid)
    ensures Check(w, xid, rep).1 == if IsForgotten(w, xid) then Forgotten else New
  {
    CleanKeeps(w, rep);
    RecordedIsThere(Clean(w, rep), xid);
  }
}
