/**
  The proposer's own computations: its next ballot and what it gathers from replies.
 */
module Proposers {
  import opened Ballots

  /** `setn`: the least number above everything this node proposed or promised. */
  function SetN(promised: nat, my: nat): (n: nat)
    ensures n > promised && n > my && (n == promised + 1 || n == my + 1)
  {
    if promised + 1 > my + 1 then promised + 1 else my + 1
  }

  /** What `prepare` accumulates: who promised, and the highest vote they reported. */
  datatype Tally = Tally(accepts: seq<Node>, high: Ballot, v: Value)

  function NoTally(): Tally {
    Tally([], Ballot(0, ""), "")
  }

  function Count(t: Tally, from: Node, na: Ballot, va: Value): Tally {
    if Above(na, t.high) then Tally(t.accepts + [from], na, va)
    else t.(accepts := t.accepts + [from])
  }
}
