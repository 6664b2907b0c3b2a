/** The bracket side of a duel: participant lookups by tag and id, and
    `complete_duel`'s claim check and winner report. */
module Bracket {
  import opened Wrappers
  import opened Duels

  /** A bracket participant. `tag` is the user id the participant's `misc` field spells. */
  datatype Participant = Participant(id: int, tag: UserId)

  /** A bracket match between two participant ids; `state` is the service's state name. */
  datatype Match = Match(player1Id: int, player2Id: int, state: string)

  /** A fresh view of the bracket: the participant list and each participant's next match. */
  datatype BracketView = BracketView(participants: seq<Participant>, nextMatch: map<int, Match>)

  /** The participant search of `complete_duel`, which stops at the first match. */
  function FirstWithTag(ps: seq<Participant>, tag: UserId): (r: Option<Participant>)
    ensures r.None? <==> forall i :: 0 <= i < |ps| ==> ps[i].tag != tag
    ensures r.Some? ==> exists k :: 0 <= k < |ps| && ps[k] == r.value && r.value.tag == tag
                                    && forall i :: 0 <= i < k ==> ps[i].tag != tag
  {
    if |ps| == 0 then None
    else if ps[0].tag == tag then Some(ps[0])
    else
      var r := FirstWithTag(ps[1..], tag);
      assert r.Some? ==> exists k :: 1 <= k < |ps| && ps[k] == r.value
                                     && forall i :: 0 <= i < k ==> ps[i].tag != tag;
      r
  }

  /** The participant search of `challenge`, which has no `break` and so keeps the last match. */
  function LastWithTag(ps: seq<Participant>, tag: UserId): (r: Option<Participant>)
    ensures r.None? <==> forall i :: 0 <= i < |ps| ==> ps[i].tag != tag
    ensures r.Some? ==> exists k :: 0 <= k < |ps| && ps[k] == r.value && r.value.tag == tag
                                    && forall i :: k < i < |ps| ==> ps[i].tag != tag
  {
    if |ps| == 0 then None
    else
      var last := ps[|ps| - 1];
      if last.tag == tag then Some(last)
      else
        var r := LastWithTag(ps[..|ps| - 1], tag);
        assert forall i :: 0 <= i < |ps| - 1 ==> ps[..|ps| - 1][i] == ps[i];
        r
  }

  /** When at most one participant carries each tag, both searches find the same one. */
  lemma SearchesAgreeOnUniqueTags(ps: seq<Participant>, tag: UserId)
    requires forall i, j :: 0 <= i < j < |ps| && ps[i].tag == tag ==> ps[j].tag != tag
    ensures FirstWithTag(ps, tag) == LastWithTag(ps, tag)
  {
  }

  /** `get_participant(id)`: the participant with that id, if the service has one. */
  function WithId(ps: seq<Participant>, id: int): (r: Option<Participant>)
    ensures r.None? <==> forall i :: 0 <= i < |ps| ==> ps[i].id != id
    ensures r.Some? ==> r.value in ps && r.value.id == id
  {
    if |ps| == 0 then None
    else if ps[0].id == id then Some(ps[0])
    else
      var r := WithId(ps[1..], id);
      assert forall p :: p in ps[1..] ==> p in ps;
      r
  }

  /** A winner report: the match, the winning participant and the score string. */
  datatype Report = Report(nextMatch: Match, winner: Participant, scores: string)

  /** `complete_duel`: a claim the DB rejects (rc 0) raises before any reporting; otherwise
      the winner's next match is reported "1-0" if the winner is its player 1, else "0-1". */
  function CompleteDuel(c: Completion, rc: int, b: BracketView): (r: Result<Report, DuelError>)
    ensures rc == 0 ==> r == Failure(ClaimRejected)
    ensures rc != 0 && FirstWithTag(b.participants, c.winner).None? ==> r == Failure(WinnerNotInBracket)
    ensures r == Failure(NoNextMatch) <==>
              rc != 0 && FirstWithTag(b.participants, c.winner).Some?
              && FirstWithTag(b.participants, c.winner).value.id !in b.nextMatch
    ensures r.Success? <==>
              rc != 0 && FirstWithTag(b.participants, c.winner).Some?
              && FirstWithTag(b.participants, c.winner).value.id in b.nextMatch
    ensures r.Success? ==>
              && rc != 0
              && r.value.winner == FirstWithTag(b.participants, c.winner).value
              && r.value.winner.tag == c.winner
              && r.value.winner.id in b.nextMatch
              && r.value.nextMatch == b.nextMatch[r.value.winner.id]
              && (r.value.scores == "1-0" <==> r.value.nextMatch.player1Id == r.value.winner.id)
              && (r.value.scores == "0-1" <==> r.value.nextMatch.player1Id != r.value.winner.id)
    ensures r.Failure? ==> r.error in {ClaimRejected, WinnerNotInBracket, NoNextMatch}
  {
    if rc == 0 then Failure(ClaimRejected)
    else
      match FirstWithTag(b.participants, c.winner)
      case None => Failure(WinnerNotInBracket)
      case Some(p) =>
        if p.id !in b.nextMatch then Failure(NoNextMatch)
        else
          var m := b.nextMatch[p.id];
          if m.player1Id == p.id then Success(Report(m, p, "1-0"))
          else Success(Report(m, p, "0-1"))
  }
}
