/** How the two completion paths, the judge's and the draw handshake's, reach the bracket. */
module Resolution {
  import opened Wrappers
  import opened Codeforces
  import opened Duels
  import opened Judge
  import opened Bracket
  import opened DrawOffers

  /** A tie on the judge is claimed with the challenger in the winner position, so a
      successful report names the challenger's participant as the match winner. */
  lemma JudgeTieReportsChallenger(d: ActiveDuel, cs: seq<Submission>, es: seq<Submission>,
                                  rc: int, br: BracketView)
    requires Complete(Some(d), cs, es).Success? && Complete(Some(d), cs, es).value.Claimed?
    requires Complete(Some(d), cs, es).value.completion.status == WinDraw
    ensures var c := Complete(Some(d), cs, es).value.completion;
            && c.score == Half
            && (CompleteDuel(c, rc, br).Success? ==> CompleteDuel(c, rc, br).value.winner.tag == d.challenger)
  {
  }

  /** An accepted draw offer is reported with the offerer as the match winner. */
  lemma AcceptedDrawReportsOfferer(offers: Offers, d: ActiveDuel, author: UserId, now: real,
                                   rc: int, br: BracketView)
    requires d.duelId in offers && offers[d.duelId] != author
    ensures var st := Draw(offers, Some(d), author, now);
            && st.claim.Some?
            && (CompleteDuel(st.claim.value, rc, br).Success? ==>
                  CompleteDuel(st.claim.value, rc, br).value.winner.tag == offers[d.duelId])
  {
  }
}
