# Duel tournament engine: a Dafny model

This project models the decision logic of the tournament cog of the TLE Discord bot
(`tle/cogs/tournament.py`). In a tournament, two bracket opponents play a timed duel on one
Codeforces problem. The model covers the logic inside the command handlers, with the DB,
Codeforces, Challonge and Discord calls replaced by plain inputs:

- the duel rank table and `rating2rank`;
- how `challenge` picks a problem. This covers the guard chain, the rating target (Python's
  integer `round(x, -2)`, ties to even), the exclusion filter, the step-down over ratings, the
  stable sort by contest start, and the biased pick `max` of two draws;
- how `complete` judges a duel. `get_solve_time` reduces a submission list to a code, and the
  outcome table turns the two codes into wait, a win, a draw or nobody;
- the `draw` handshake over the in-memory `draw_offers` map;
- self-invalidation with its 120-second window, and the administrators' invalidation;
- `complete_duel`. A claim the DB refuses (rc 0) raises. Otherwise the bracket report is
  "1-0" or "0-1", depending on whether the winner is player 1 of their next match.

The modules are `Ranks`, `PyRound`, `Selection`, `Judge`, `Bracket`, `DrawOffers`,
`Invalidation` and `Challenge`. `Resolution` holds the lemmas that join two modules.
`Codeforces`, `Duels` and `Wrappers` hold the shared records.

External services appear as data:

- The DB's answers are inputs: the return codes of the claims, the active-duel record, the
  users that `check_tour_match` reports as busy, and the seen-problem sets.
- The judge's answers are submission lists.
- The bracket service is a participant list plus a map from participant id to next match.
- The problem cache is a sequence of problems, with the writer and non-standard predicates
  as sets.
- The two `random.randrange` draws are arguments.
- Wall-clock times are `real` seconds.

A Challonge participant's `misc` tag is modelled as the user id it spells. Comparing
`str(id)` strings is the same as comparing ids.

Where the code and the documented design differ, the model follows the code, except for the two
defects listed under "## Findings". There `Challenge.ChallengeCandidates` and
`Resolution.AcceptedDrawReportsOfferer` build on the corrected `Selection.Select` and
`DrawOffers.Draw`. So for an explicit rating of at most 450 the model replies `NoProblemsLeft`, where
the code raises UnboundLocalError. The as-written behaviour is kept in `Selection.SelectAsWritten`
and `DrawOffers.DrawAsWritten`. Otherwise:

- A draw on the judge passes the challenger to `complete_duel` as the winner, so the bracket
  records the challenger as the match winner (`Resolution.JudgeTieReportsChallenger`).
- No path removes a draw offer.
- `challenge` looks for the challenger's participant without a `break`, so it takes the LAST
  participant with that tag. `complete_duel` breaks at the FIRST one. The two agree when tags
  are unique (`Bracket.SearchesAgreeOnUniqueTags`).
- Each busy check at lines 232 and 235 tests the same condition twice. The model tests each
  condition once, which gives the same result.
- The "attempted" set excludes only compilation errors, so a problem with only wrong answers
  is excluded too.
- The `invalidate` docstring (lines 595-596) promises "the first 60 seconds", but line 602
  allows 120 seconds. `Invalidation.SelfInvalidate` uses the 120 of the code.

## Model

| member | source | states |
|---|---|---|
| Ranks.FirstBand | tle/cogs/tournament.py:54-57 | the scan returns the index of a band containing r with no earlier band containing it, and returns nothing exactly when no band contains r |
| Ranks.Rating2Rank | tle/cogs/tournament.py:54-57 | `rating2rank` returns the first band of the table with low <= r < high, or None when there is none |
| Ranks.Rating2RankByThresholds | tle/cogs/tournament.py:38-57 | on every rating the scan agrees with an independent threshold table, and it yields None outside [-10^9, 10^9) |
| Ranks.Rating2RankDomain | tle/cogs/tournament.py:38-57 | `rating2rank` is defined exactly for ratings in [-10^9, 10^9) |
| Ranks.OverlapGoesToNewbie | tle/cogs/tournament.py:39-40 | ratings 1200..1299 lie in both the Newbie and the Pupil band, and first-match order maps them to Newbie |
| PyRound.RoundHundreds | tle/cogs/tournament.py:273-275 | integer `round(x, -2)` gives a multiple of 100 within 50 of x, and on a tie the even multiple |
| PyRound.RoundHalfEvenUnique | tle/cogs/tournament.py:273-275 | that rounding relation has exactly one solution, so `RoundHundreds` is the rounding |
| PyRound.SuggestedRating | tle/cogs/tournament.py:272-274 | the suggestion is the larger of round(lowest, -2) - 400 and 500: at least 500 and a multiple of 100 |
| PyRound.TargetRating | tle/cogs/tournament.py:275 | a missing argument or an argument of 0 gives the suggestion; any other argument is rounded to its nearest hundred, ties to even |
| PyRound.LowTargetNeedsArgument | tle/cogs/tournament.py:272-275 | a target of 400 or less comes only from an explicit non-zero argument of at most 450 |
| PyRound.RoundingExamples | tle/cogs/tournament.py:272-275 | lowest rating 1500 suggests 1100; 1250 rounds to 1200, 1350 to 1400, -150 to -200 and 450 to 400 |
| Selection.AttemptedNames | tle/cogs/tournament.py:278-279 | a name is in the set exactly when some submission to it has a verdict other than compilation error |
| Selection.Candidates | tle/cogs/tournament.py:285-292 | `get_problems` keeps exactly the catalog problems of the rating that pass all exclusions, with their multiplicities, as a subsequence of the catalog (catalog order kept) |
| Selection.StepDown | tle/cogs/tournament.py:294-296 | the loop stops at the first visited rating above 400 with a non-empty list; when it finds none, every visited rating had an empty list |
| Selection.SelectAsWritten | tle/cogs/tournament.py:294-301 | as written, a start of 400 or less leaves `problems` unbound; otherwise the result is the step-down result |
| Selection.Select | tle/cogs/tournament.py:294-301 | as intended: the result is never unbound, and found problems are eligible at a visited rating; it reports none left exactly when every visited rating is empty |
| Selection.SelectAgreesAboveFloor | tle/cogs/tournament.py:294-301 | the as-written and intended selections agree above 400; at or below it, one is unbound and the other reports none left |
| Selection.SelectedIsFirstNonEmpty | tle/cogs/tournament.py:285-301 | each selected problem is in the catalog with exactly the stopping rating, outside the solved, seen and seen2 sets, not written by either handle, and not non-standard |
| Selection.Insert | tle/cogs/tournament.py:303-304 | one insertion step of the sort keeps the list ordered by contest start and adds exactly one element |
| Selection.InsertStable | tle/cogs/tournament.py:303-304 | insertion keeps problems from contests with equal start times in their original order |
| Selection.SortByStart | tle/cogs/tournament.py:303-304 | the sort is ordered by contest start, is a permutation of its input, and is stable |
| Selection.ChoiceIndex | tle/cogs/tournament.py:306 | the picked index is in [0, n), at least both draws, and equal to one of them |
| Selection.PickWeight | tle/cogs/tournament.py:306 | of the n*n draw pairs, exactly 2k+1 pick index k, so later entries in the sorted list are strictly more likely |
| Judge.RelevantSubs | tle/cogs/tournament.py:385-388 | exactly the OK or TESTING submissions on the duel's (contestId, index) are kept |
| Judge.EarliestTime | tle/cogs/tournament.py:394 | the result is the creation time of one submission in the list, and no submission is earlier |
| Judge.SolveTime | tle/cogs/tournament.py:383-394 | TESTING if any kept submission is TESTING (even with an OK beside it); UNSOLVED if none is kept; otherwise the earliest kept creation time |
| Judge.DecideOutcome | tle/cogs/tournament.py:399-430 | wait when either side is TESTING; nobody when neither solved; otherwise the solved, earlier side wins at its own time with score 1, and a tie is a draw at the shared time with score 0.5 |
| Judge.OutcomeSymmetric | tle/cogs/tournament.py:406-428 | swapping the two times swaps winner and loser, except that a tie stays a draw with the challenger named first |
| Judge.OutcomeExamples | tle/cogs/tournament.py:399-430 | times 100 and 80 give the challengee a win at 80; 50 and 50 give a draw at 50 |
| Judge.Complete | tle/cogs/tournament.py:372-430 | `complete` fails only when the user is in no duel; it asks to wait or reports nobody exactly in those table cases; a claim names both duelists, with the winner's time and the matching score |
| Bracket.FirstWithTag | tle/cogs/tournament.py:101-106 | `complete_duel` finds the first participant tagged with the winner, or none when no participant has that tag |
| Bracket.LastWithTag | tle/cogs/tournament.py:243-247 | `challenge` keeps the last participant tagged with the challenger, or none when no participant has that tag |
| Bracket.SearchesAgreeOnUniqueTags | tle/cogs/tournament.py:243-247 | when no tag repeats, the first-match and last-match searches find the same participant |
| Bracket.WithId | tle/cogs/tournament.py:262-265 | `get_participant` finds a participant with the requested id, or none when no participant has it |
| Bracket.CompleteDuel | tle/cogs/tournament.py:88-112 | rc 0 raises before any reporting; a report names the winner's first participant and that participant's next match, with "1-0" exactly when they are player 1 and "0-1" otherwise; a report is made exactly when rc is non-zero and the winner has a participant with a next match |
| DrawOffers.Offeree | tle/cogs/tournament.py:443 | the offer goes to one of the duel's two participants, and never back to the author when the author is one of two distinct participants |
| DrawOffers.DrawAsWritten | tle/cogs/tournament.py:441-455 | as written, offers only grow, and an accepted draw submits no completion and its reply fails |
| DrawOffers.Draw | tle/cogs/tournament.py:441-455 | first call stores duel -> author; a repeat by that author changes nothing; the other party's call submits a draw with offerer, acceptor, current time and score 0.5; offers are never removed or overwritten |
| DrawOffers.AsWrittenDropsOnlyTheClaim | tle/cogs/tournament.py:452-455 | the as-written and intended handshakes agree on the offers always, and on everything except an acceptance, whose reply succeeds when intended and fails as written |
| DrawOffers.AcceptedDrawNeverClaimed | tle/cogs/tournament.py:452-455 | a concrete accepted draw that the as-written code never submits and answers with a failed reply, while the intended code submits it and confirms it |
| DrawOffers.Handshake | tle/cogs/tournament.py:441-455 | offer, repeat, then the other party's call: one draw completion naming offerer and acceptor, and the offer stays stored |
| Invalidation.InvalidateClaim | tle/cogs/tournament.py:584-587 | an invalidation claim returning rc 0 raises; any other rc succeeds for the duel |
| Invalidation.SelfInvalidate | tle/cogs/tournament.py:593-605 | a duelist's invalidation succeeds exactly when they are in a duel, at most 120 s have passed since its start, and the claim succeeds; past the window it is refused before any claim; within it a claim returning rc 0 is reported as "Unable to invalidate duel" |
| Invalidation.AdminInvalidate | tle/cogs/tournament.py:607-616 | an administrator's invalidation succeeds exactly when the member is in a duel and the claim succeeds, with no time check; a claim returning rc 0 is reported as "Unable to invalidate duel" |
| Invalidation.AdminSubsumesSelf | tle/cogs/tournament.py:593-616 | every invalidation a duelist can make an administrator can make too; the two differ only by the closed window |
| Challenge.ExclusionsFor | tle/cogs/tournament.py:278-283 | solved holds the attempted names of both sides; seen and seen2 are the unions of both sides' DB sets; both handles are checked for writing; the writer and non-standard predicates are the catalog's |
| Challenge.CheckChallenge | tle/cogs/tournament.py:216-269 | the guards run in source order, so each error arises exactly when its check is the first to fail; success means the challenger's next match is open and includes the challengee, where a player-1 match on the challengee skips player 2 as the short-circuit `and` does |
| Challenge.ChallengeeAsPlayer1SkipsPlayer2 | tle/cogs/tournament.py:262-269 | with the challengee as player 1, an unknown player-2 id does not stop the challenge |
| Challenge.ChallengeCandidates | tle/cogs/tournament.py:213-304 | a guard failure is returned unchanged; when the guards pass and some visited rating has candidates the challenge succeeds; the list is the stable sort by contest start of `get_problems` at the first visited rating with any, so equal start times keep catalog order; no problems left exactly when every visited rating is empty |
| Challenge.ChosenProblem | tle/cogs/tournament.py:303-307 | the duel's problem is the candidate at the larger of the two drawn indices, so from a contest no older than either draw's |
| Challenge.LowExplicitRatingUnbound | tle/cogs/tournament.py:275-301 | every non-zero explicit rating of at most 450 leaves `problems` unbound as written; the intended selection reports no problems left |
| Challenge.SuggestedStartIsBound | tle/cogs/tournament.py:272-299 | with no rating argument the search starts at 500 or more, so the as-written and intended selections agree |
| Resolution.JudgeTieReportsChallenger | tle/cogs/tournament.py:417-418 | a judge tie is claimed with score 0.5, and a successful report names the challenger's participant as the match winner |
| Resolution.AcceptedDrawReportsOfferer | tle/cogs/tournament.py:452-454 | an accepted draw offer is submitted, and a successful report names the offerer's participant as the match winner |

## Left out

- Discord plumbing, message and embed rendering, pagination, and the member converter
  (`ongoing`, `pending`, `registered`, `_paginate_duels`, `cog_command_error`): user interface only.
- `accept`, `decline`, `withdraw`, `register`, `begin`, `destroy` and `standings`: these
  commands are not part of this model.
- The Challonge client (`get_tour`, `create_tour`, `destroy_tour`, `get_ranklist`, `report_winner`),
  urllib, cairosvg and the global `curr_tour`. The bracket is a participant list and a
  next-match map read fresh at each call.
- The DB layer (`create_match`, `cancel_match`, `start_match`, `complete_match`, `invalidate_match`,
  `check_match_*`, `check_tour_match`): its code is not part of this model. Each call's return
  code or record is an input, and no compare-and-set semantics are assumed.
- `asyncio.sleep` expiry and settle delays: timing and concurrency.
- `elo_prob`, `elo_delta` and the rounded `delta` that `complete_duel` passes to the DB: floating-point
  exponentiation. A `Completion` does not carry the delta.
- The duel type that `complete` passes through to the DB: it is always OFFICIAL here and affects only the DB.
- `random.randrange`: the two draws are arguments.
- `resolve_handles`, the `cf.user.status` fetches and the users' rating lookups. Their exceptions
  are left out. A rating is an `int`; an unrated user's `None` rating, on which `min` would raise,
  is not modelled.
- Bracket.CompleteDuel: when no participant carries the winner's tag, or the winner has no next
  match, Python raises AttributeError on `None`. The model returns the named errors
  `WinnerNotInBracket` and `NoNextMatch` instead.
- Challenge.CheckChallenge: `get_participant` returns None for an unknown player id, and the
  `.misc` access on that None raises AttributeError. The model returns `ParticipantLookupFailed`
  in exactly those cases: player 1 is unknown, or player 1 is not the challengee and player 2 is
  unknown.
- DrawOffers.DrawAsWritten: the failure of the acceptance reply comes from discord.py's `send`,
  whose code is not part of this model. It is modelled as the named error `DrawReplyFailed`.

## Findings

| source | as written | input that shows it | evidently intended | confidence | as-written member | corrected member |
|---|---|---|---|---|---|---|
| tle/cogs/tournament.py:452-455 | the `draw` handler calls the async `complete_duel` without `await`. The coroutine is never run, so no claim reaches the DB and no winner reaches the bracket. Line 455 then passes the coroutine as `embed`, which discord.py's `send` cannot convert, so the acceptance reply fails too. | an offer on duel 7 by user 1, then `draw` by user 2 | the accepted draw completes the duel with score 0.5, as the judge-tie path does | high, not executed | DrawOffers.DrawAsWritten (DrawOffers.AcceptedDrawNeverClaimed) | DrawOffers.Draw |
| tle/cogs/tournament.py:294-301 | a non-zero explicit rating that rounds to 400 or less makes `range(rating, 400, -100)` empty, so `problems` is unbound at line 299 and Python raises UnboundLocalError | `challenge` with rating 450 (rounds to 400) or rating 400 | reply "No unsolved problems left", as when every rating step is empty | high, not executed | Selection.SelectAsWritten (Challenge.LowExplicitRatingUnbound) | Selection.Select |
