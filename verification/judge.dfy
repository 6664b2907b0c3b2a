/** `complete`: reducing each side's submissions to a solve time, and the outcome
    table over the two times. */
module Judge {
  import opened Wrappers
  import opened Codeforces
  import opened Duels

  /** The integer codes `get_solve_time` returns besides a creation time. */
  const Unsolved: int := 0
  const StillTesting: int := -1

  /** A submission `get_solve_time` keeps: OK or TESTING, on exactly the duel's problem. */
  predicate Relevant(s: Submission, contestId: ContestId, index: string) {
    && (s.verdict == Ok || s.verdict == Testing)
    && s.problem.contestId == contestId
    && s.problem.index == index
  }

  function RelevantSubs(subs: seq<Submission>, contestId: ContestId, index: string): (r: seq<Submission>)
    ensures forall s :: s in r <==> s in subs && Relevant(s, contestId, index)
  {
    if |subs| == 0 then []
    else
      var rest := RelevantSubs(subs[1..], contestId, index);
      assert subs == [subs[0]] + subs[1..];
      if Relevant(subs[0], contestId, index) then [subs[0]] + rest else rest
  }

  /** The earliest creation time in a non-empty list. */
  function EarliestTime(subs: seq<Submission>): (t: int)
    requires |subs| > 0
    ensures exists s :: s in subs && s.creationTime == t
    ensures forall s :: s in subs ==> t <= s.creationTime
  {
    if |subs| == 1 then subs[0].creationTime
    else
      var rest := EarliestTime(subs[1..]);
      assert subs == [subs[0]] + subs[1..];
      if subs[0].creationTime <= rest then subs[0].creationTime else rest
  }

  /** `get_solve_time`: TESTING if any kept submission is still being judged, else
      UNSOLVED if none is kept, else the earliest kept creation time. */
  function SolveTime(subs: seq<Submission>, contestId: ContestId, index: string): (t: int)
    ensures (exists s :: s in subs && Relevant(s, contestId, index) && s.verdict == Testing)
            ==> t == StillTesting
    ensures (forall s :: s in subs ==> !Relevant(s, contestId, index)) ==> t == Unsolved
    ensures (exists s :: s in subs && Relevant(s, contestId, index))
            && (forall s :: s in subs && Relevant(s, contestId, index) ==> s.verdict == Ok)
            ==> (exists s :: s in subs && Relevant(s, contestId, index) && s.creationTime == t)
                && (forall s :: s in subs && Relevant(s, contestId, index) ==> t <= s.creationTime)
  {
    var kept := RelevantSubs(subs, contestId, index);
    if |kept| == 0 then Unsolved
    else if exists s :: s in kept && s.verdict == Testing then StillTesting
    else EarliestTime(kept)
  }

  datatype Side = Challenger | Challengee

  function Other(side: Side): Side {
    if side == Challenger then Challengee else Challenger
  }

  /** What `complete` does with the two solve times. */
  datatype Outcome =
    | Wait
    | NobodySolved
    | Decided(status: Winner, winner: Side, loser: Side, finishTime: int, score: Score)

  /** A solve time Python treats as truthy once TESTING has been excluded. */
  predicate Solved(t: int) {
    t != Unsolved && t != StillTesting
  }

  function TimeOf(side: Side, challengerTime: int, challengeeTime: int): int {
    if side == Challenger then challengerTime else challengeeTime
  }

  /** The outcome branches of `complete`. */
  function DecideOutcome(challengerTime: int, challengeeTime: int): (o: Outcome)
    ensures o.Wait? <==> challengerTime == StillTesting || challengeeTime == StillTesting
    ensures o.NobodySolved? <==> challengerTime == Unsolved && challengeeTime == Unsolved
    ensures o.Decided? ==> o.loser == Other(o.winner)
    ensures o.Decided? ==> Solved(TimeOf(o.winner, challengerTime, challengeeTime))
                           && o.finishTime == TimeOf(o.winner, challengerTime, challengeeTime)
    ensures o.Decided? && Solved(TimeOf(o.loser, challengerTime, challengeeTime))
            ==> o.finishTime <= TimeOf(o.loser, challengerTime, challengeeTime)
    ensures o.Decided? ==> (o.status == WinDraw <==> challengerTime == challengeeTime)
    ensures o.Decided? ==> (o.score == Half <==> o.status == WinDraw)
    ensures o.Decided? && o.status == WinDraw ==> o.winner == Challenger
    ensures o.Decided? && o.status != WinDraw
            ==> (o.status == WinChallenger <==> o.winner == Challenger)
  {
    if challengerTime == StillTesting || challengeeTime == StillTesting then Wait
    else if challengerTime != 0 && challengeeTime != 0 then
      if challengerTime != challengeeTime then
        var winner := if challengerTime < challengeeTime then Challenger else Challengee;
        var loser := if challengerTime > challengeeTime then Challenger else Challengee;
        var status := if winner == Challenger then WinChallenger else WinChallengee;
        var finish := if challengerTime < challengeeTime then challengerTime else challengeeTime;
        Decided(status, winner, loser, finish, Full)
      else
        Decided(WinDraw, Challenger, Challengee, challengerTime, Half)
    else if challengerTime != 0 then
      Decided(WinChallenger, Challenger, Challengee, challengerTime, Full)
    else if challengeeTime != 0 then
      Decided(WinChallengee, Challengee, Challenger, challengeeTime, Full)
    else NobodySolved
  }

  function Mirror(o: Outcome): Outcome {
    match o
    case Decided(status, winner, loser, t, score) =>
      var mirrored := if status == WinChallenger then WinChallengee
                      else if status == WinChallengee then WinChallenger
                      else WinDraw;
      Decided(mirrored, Other(winner), Other(loser), t, score)
    case _ => o
  }

  /** The table treats the two sides alike: swapping the times swaps the winner,
      except that a tie always names the challenger as the nominal winner. */
  lemma OutcomeSymmetric(a: int, b: int)
    ensures a != b ==> DecideOutcome(b, a) == Mirror(DecideOutcome(a, b))
    ensures a == b && Solved(a) ==> DecideOutcome(b, a) == DecideOutcome(a, b)
                                    && DecideOutcome(a, b).status == WinDraw
  {
  }

  /** Worked examples: 100 vs 80 gives the challengee a win at 80; 50 vs 50 is a draw. */
  lemma OutcomeExamples()
    ensures DecideOutcome(100, 80) == Decided(WinChallengee, Challengee, Challenger, 80, Full)
    ensures DecideOutcome(50, 50) == Decided(WinDraw, Challenger, Challengee, 50, Half)
    ensures DecideOutcome(0, 0) == NobodySolved && DecideOutcome(70, -1) == Wait
  {
  }

  function UserOf(side: Side, duel: ActiveDuel): UserId {
    if side == Challenger then duel.challenger else duel.challengee
  }

  /** What the `complete` command replies: wait, nobody solved, or the completion it claims. */
  datatype CompleteReply = AskToWait | NobodyYet | Claimed(completion: Completion)

  /** The `complete` command, for the duel the caller is in and both sides' submissions. */
  function Complete(active: Option<ActiveDuel>, challengerSubs: seq<Submission>,
                    challengeeSubs: seq<Submission>): (r: Result<CompleteReply, DuelError>)
    ensures active.None? <==> r == Failure(NotInDuel)
    ensures r.Failure? ==> r.error == NotInDuel
    ensures active.Some? ==>
              var d := active.value;
              var ct := SolveTime(challengerSubs, d.problem.contestId, d.problem.index);
              var et := SolveTime(challengeeSubs, d.problem.contestId, d.problem.index);
              && (r == Success(AskToWait) <==> ct == StillTesting || et == StillTesting)
              && (r == Success(NobodyYet) <==> ct == Unsolved && et == Unsolved)
              && (r.Success? && r.value.Claimed? ==>
                    var c := r.value.completion;
                    && c.duelId == d.duelId
                    && {c.winner, c.loser} == {d.challenger, d.challengee}
                    && (c.status == WinDraw <==> ct == et)
                    && (c.score == Half <==> c.status == WinDraw)
                    && (c.status == WinChallenger ==>
                          c.winner == d.challenger && Solved(ct) && c.finishTime == ct as real
                          && (Solved(et) ==> ct < et))
                    && (c.status == WinChallengee ==>
                          c.winner == d.challengee && Solved(et) && c.finishTime == et as real
                          && (Solved(ct) ==> et < ct))
                    && (c.status == WinDraw ==>
                          c.winner == d.challenger && c.loser == d.challengee
                          && Solved(ct) && c.finishTime == ct as real))
  {
    match active
    case None => Failure(NotInDuel)
    case Some(d) =>
      var ct := SolveTime(challengerSubs, d.problem.contestId, d.problem.index);
      var et := SolveTime(challengeeSubs, d.problem.contestId, d.problem.index);
      match DecideOutcome(ct, et)
      case Wait => Success(AskToWait)
      case NobodySolved => Success(NobodyYet)
      case Decided(status, winner, loser, t, score) =>
        Success(Claimed(Completion(d.duelId, status, UserOf(winner, d), UserOf(loser, d),
                                   t as real, score)))
  }
}
