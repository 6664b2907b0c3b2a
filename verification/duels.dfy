/** Records shared by the duel command handlers: the active-duel view, the
    completion request handed to the bracket side, and the error taxonomy. */
module Duels {
  import opened Codeforces

  type UserId = int
  type DuelId = int

  /** The DB's record of who won a completed duel. */
  datatype Winner = WinChallenger | WinChallengee | WinDraw

  /** A duel's score from the winner's point of view: 1 or 0.5. */
  datatype Score = Full | Half

  /** An active duel as the DB reports it for one of its two participants. */
  datatype ActiveDuel = ActiveDuel(duelId: DuelId, challenger: UserId, challengee: UserId,
                                   startTime: real, problem: ProblemRef)

  /** The arguments of one `complete_duel` call: the claim written to the DB and
      the winner reported to the bracket. */
  datatype Completion = Completion(duelId: DuelId, status: Winner, winner: UserId, loser: UserId,
                                   finishTime: real, score: Score)

  /** Each `DuelCogError` message of the cog, and the two crashes the model names. */
  datatype DuelError =
    | TourNotRunning          // "Tournament is not going on"
    | SelfChallenge           // "You know how a tournament works right?"
    | ChallengerBusy          // "you are currently in a duel!"
    | ChallengeeBusy          // "<opponent> is currently in a duel!"
    | NotInTournament         // "You are not in the tournament"
    | Eliminated              // "You have lost"
    | OpponentNotReady        // "Your opponent has not finished their match yet"
    | ParticipantLookupFailed // the bracket service has no participant with a match's player id
    | NoPendingChallenge      // "You dont have a pending challenge against this person"
    | NoProblemsLeft          // "No unsolved ... problems left"
    | NotInDuel               // "you are not in a duel."
    | ClaimRejected           // "Hey! No cheating!"
    | WinnerNotInBracket      // no participant is tagged with the winner: `None.get_next_match()` crashes
    | NoNextMatch             // the winner has no next match: `None.player1_id` crashes
    | WindowClosed            // "you can no longer invalidate your duel."
    | InvalidateRejected      // "Unable to invalidate duel"
    | DrawReplyFailed         // the acceptance reply is sent with an un-awaited coroutine as its embed
}
