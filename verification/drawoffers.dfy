/** The `draw` command: the in-memory map of outstanding draw offers and the
    two-call handshake over it. */
module DrawOffers {
  import opened Wrappers
  import opened Duels

  /** `draw_offers`: duel id to the user who offered the draw. */
  type Offers = map<DuelId, UserId>

  datatype DrawReply = Offered(offeree: UserId) | AlreadyOffered | AcceptedFrom(offerer: UserId)

  /** The offers after the call, the reply, and the completion the call submits
      to `complete_duel`, if any. */
  datatype DrawStep = DrawStep(offers: Offers, reply: Result<DrawReply, DuelError>,
                               claim: Option<Completion>)

  /** The other participant of the duel, as the offer message computes it. */
  function Offeree(d: ActiveDuel, author: UserId): (u: UserId)
    ensures u == d.challenger || u == d.challengee
    ensures d.challenger != d.challengee && (author == d.challenger || author == d.challengee)
            ==> u != author
  {
    if author != d.challenger then d.challenger else d.challengee
  }

  /** The offers only ever grow: no entry is removed or overwritten. */
  predicate Extends(before: Offers, after: Offers) {
    && before.Keys <= after.Keys
    && forall k :: k in before ==> after[k] == before[k]
  }

  /** The handshake as written: the accepting call builds the `complete_duel` coroutine
      but never awaits it, so no completion is submitted, and the reply that passes the
      coroutine as its embed fails. */
  function DrawAsWritten(offers: Offers, active: Option<ActiveDuel>, author: UserId, now: real): (st: DrawStep)
    ensures Extends(offers, st.offers)
    ensures st.claim.None?
    ensures active.Some? && active.value.duelId in offers && offers[active.value.duelId] != author
            ==> st.reply == Failure(DrawReplyFailed) && st.offers == offers
  {
    match active
    case None => DrawStep(offers, Failure(NotInDuel), None)
    case Some(d) =>
      if d.duelId !in offers then
        DrawStep(offers[d.duelId := author], Success(Offered(Offeree(d, author))), None)
      else if offers[d.duelId] == author then
        DrawStep(offers, Success(AlreadyOffered), None)
      else
        DrawStep(offers, Failure(DrawReplyFailed), None)
  }

  /** The handshake as intended: the accepting call submits a draw completion with the
      offerer and the acceptor, at the current time, with score 0.5. */
  function Draw(offers: Offers, active: Option<ActiveDuel>, author: UserId, now: real): (st: DrawStep)
    ensures Extends(offers, st.offers)
    ensures active.None? ==> st == DrawStep(offers, Failure(NotInDuel), None)
    ensures active.Some? && active.value.duelId !in offers ==>
              && st.offers == offers[active.value.duelId := author]
              && st.reply == Success(Offered(Offeree(active.value, author)))
              && st.claim.None?
    ensures active.Some? && active.value.duelId in offers && offers[active.value.duelId] == author
            ==> st == DrawStep(offers, Success(AlreadyOffered), None)
    ensures st.claim.Some? <==> active.Some? && active.value.duelId in offers
                                && offers[active.value.duelId] != author
    ensures st.claim.Some? ==>
              && st.offers == offers
              && st.claim.value == Completion(active.value.duelId, WinDraw,
                                              offers[active.value.duelId], author, now, Half)
              && st.claim.value.winner != st.claim.value.loser
  {
    match active
    case None => DrawStep(offers, Failure(NotInDuel), None)
    case Some(d) =>
      if d.duelId !in offers then
        DrawStep(offers[d.duelId := author], Success(Offered(Offeree(d, author))), None)
      else if offers[d.duelId] == author then
        DrawStep(offers, Success(AlreadyOffered), None)
      else
        var offerer := offers[d.duelId];
        DrawStep(offers, Success(AcceptedFrom(offerer)),
                 Some(Completion(d.duelId, WinDraw, offerer, author, now, Half)))
  }

  /** The two handshakes agree on the offers always, and on the reply except for an
      acceptance, which the intended one confirms and the as-written one fails. */
  lemma AsWrittenDropsOnlyTheClaim(offers: Offers, active: Option<ActiveDuel>, author: UserId, now: real)
    ensures DrawAsWritten(offers, active, author, now).offers == Draw(offers, active, author, now).offers
    ensures Draw(offers, active, author, now).claim.None? ==>
              DrawAsWritten(offers, active, author, now) == Draw(offers, active, author, now)
    ensures Draw(offers, active, author, now).claim.Some? ==>
              && Draw(offers, active, author, now).reply.Success?
              && DrawAsWritten(offers, active, author, now).reply == Failure(DrawReplyFailed)
  {
  }

  /** An accepted draw that the as-written handshake never submits: duel 7 with an
      offer from user 1, accepted by user 2. */
  lemma AcceptedDrawNeverClaimed()
    ensures var d := ActiveDuel(7, 1, 2, 0.0, Codeforces.ProblemRef(1, "A", "p"));
            && DrawAsWritten(map[7 := 1], Some(d), 2, 60.0).reply == Failure(DrawReplyFailed)
            && Draw(map[7 := 1], Some(d), 2, 60.0).reply == Success(AcceptedFrom(1))
            && DrawAsWritten(map[7 := 1], Some(d), 2, 60.0).claim == None
            && Draw(map[7 := 1], Some(d), 2, 60.0).claim
               == Some(Completion(7, WinDraw, 1, 2, 60.0, Half))
  {
  }

  /** The full handshake: an offer by one participant, a repeat by the same one, then
      the other's call, submits exactly one draw completion naming both. */
  lemma Handshake(offers: Offers, d: ActiveDuel, t0: real, t1: real, t2: real)
    requires d.duelId !in offers && d.challenger != d.challengee
    ensures var s1 := Draw(offers, Some(d), d.challenger, t0);
            var s2 := Draw(s1.offers, Some(d), d.challenger, t1);
            var s3 := Draw(s2.offers, Some(d), d.challengee, t2);
            && s1.reply == Success(Offered(d.challengee)) && s1.claim.None?
            && s2 == DrawStep(s1.offers, Success(AlreadyOffered), None)
            && s3.reply == Success(AcceptedFrom(d.challenger))
            && s3.claim == Some(Completion(d.duelId, WinDraw, d.challenger, d.challengee, t2, Half))
            && s3.offers == offers[d.duelId := d.challenger]
  {
  }
}
