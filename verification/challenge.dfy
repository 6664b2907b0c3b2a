/** The `challenge` command: its guard chain, then the problem selection for the pair. */
module Challenge {
  import opened Wrappers
  import opened Codeforces
  import opened Duels
  import opened PyRound
  import opened Selection
  import opened Bracket

  /** One side of a challenge, with what the judge and the DB report about them. */
  datatype Duelist = Duelist(id: UserId, handle: string, rating: int, submissions: seq<Submission>,
                             duelNames: set<string>, matchNames: set<string>)

  /** The problem cache with the writer and non-standard predicates as data. */
  datatype Catalog = Catalog(problems: seq<Problem>, writers: set<(ContestId, string)>,
                             nonstandard: set<Problem>)

  /** A successful challenge: the requested rating, the rating the search stopped at,
      and the candidates in contest order. */
  datatype Offer = Offer(requested: int, rating: int, problems: seq<Problem>)

  /** The exclusion sets `challenge` builds from both sides. */
  function ExclusionsFor(a: Duelist, b: Duelist, cat: Catalog): (ex: Exclusions)
    ensures forall s :: (s in a.submissions || s in b.submissions) && s.verdict != CompilationError
                        ==> s.problem.name in ex.solved
    ensures forall n :: n in ex.solved ==>
              exists s :: (s in a.submissions || s in b.submissions)
                          && s.verdict != CompilationError && s.problem.name == n
    ensures ex.seen == a.duelNames + b.duelNames && ex.seen2 == a.matchNames + b.matchNames
    ensures ex.handles == [a.handle, b.handle]
    ensures ex.writers == cat.writers && ex.nonstandard == cat.nonstandard
  {
    Exclusions(AttemptedNames(a.submissions) + AttemptedNames(b.submissions),
               a.duelNames + b.duelNames, a.matchNames + b.matchNames,
               [a.handle, b.handle], cat.writers, cat.nonstandard)
  }

  /** The bracket conditions of the guard chain: the challenger is a participant whose
      next match is open and has the challengee as one of its two players. The test
      `player1.misc != ... and player2.misc != ...` short-circuits, so player 2 is only
      looked at when player 1 is found and is not the challengee. */
  predicate BracketAllows(a: Duelist, b: Duelist, br: BracketView) {
    var me := LastWithTag(br.participants, a.id);
    && me.Some?
    && me.value.id in br.nextMatch
    && var m := br.nextMatch[me.value.id];
       var p1 := WithId(br.participants, m.player1Id);
       var p2 := WithId(br.participants, m.player2Id);
       && m.state == "open"
       && p1.Some?
       && (p1.value.tag == b.id || (p2.Some? && p2.value.tag == b.id))
  }

  /** The checks of the guard chain that need no bracket data. */
  predicate LocalGuardsPass(running: bool, a: Duelist, b: Duelist, busy: set<UserId>) {
    running && a.id != b.id && a.id !in busy && b.id !in busy
  }

  /** The guard chain, in source order; the first failing check names the error.
      `busy` is the set of users `check_tour_match` reports as in a duel. */
  function CheckChallenge(running: bool, a: Duelist, b: Duelist, busy: set<UserId>,
                          br: BracketView): (r: Result<Match, DuelError>)
    ensures !running ==> r == Failure(TourNotRunning)
    ensures running && a.id == b.id ==> r == Failure(SelfChallenge)
    ensures running && a.id != b.id && a.id in busy ==> r == Failure(ChallengerBusy)
    ensures running && a.id != b.id && a.id !in busy && b.id in busy ==> r == Failure(ChallengeeBusy)
    ensures LocalGuardsPass(running, a, b, busy) && LastWithTag(br.participants, a.id).None?
            ==> r == Failure(NotInTournament)
    ensures LocalGuardsPass(running, a, b, busy) && LastWithTag(br.participants, a.id).Some?
            ==> var me := LastWithTag(br.participants, a.id).value;
                && (me.id !in br.nextMatch ==> r == Failure(Eliminated))
                && (me.id in br.nextMatch && br.nextMatch[me.id].state != "open" ==>
                      r == Failure(OpponentNotReady))
                && (me.id in br.nextMatch && br.nextMatch[me.id].state == "open" ==>
                      var p1 := WithId(br.participants, br.nextMatch[me.id].player1Id);
                      var p2 := WithId(br.participants, br.nextMatch[me.id].player2Id);
                      && (p1.None? ==> r == Failure(ParticipantLookupFailed))
                      && (p1.Some? && p1.value.tag == b.id ==> r.Success?)
                      && (p1.Some? && p1.value.tag != b.id && p2.None? ==>
                            r == Failure(ParticipantLookupFailed))
                      && (p1.Some? && p1.value.tag != b.id && p2.Some? && p2.value.tag != b.id ==>
                            r == Failure(NoPendingChallenge)))
    ensures r.Success? <==> LocalGuardsPass(running, a, b, busy) && BracketAllows(a, b, br)
    ensures r.Success? ==> r.value == br.nextMatch[LastWithTag(br.participants, a.id).value.id]
    ensures r.Failure? && r.error == NoPendingChallenge ==>
              && LocalGuardsPass(running, a, b, busy)
              && LastWithTag(br.participants, a.id).Some?
              && !BracketAllows(a, b, br)
  {
    if !running then Failure(TourNotRunning)
    else if a.id == b.id then Failure(SelfChallenge)
    else if a.id in busy then Failure(ChallengerBusy)
    else if b.id in busy then Failure(ChallengeeBusy)
    else
      match LastWithTag(br.participants, a.id)
      case None => Failure(NotInTournament)
      case Some(me) =>
        if me.id !in br.nextMatch then Failure(Eliminated)
        else
          var m := br.nextMatch[me.id];
          if m.state != "open" then Failure(OpponentNotReady)
          else
            match WithId(br.participants, m.player1Id)
            case None => Failure(ParticipantLookupFailed)
            case Some(p1) =>
              if p1.tag == b.id then Success(m)
              else
                match WithId(br.participants, m.player2Id)
                case None => Failure(ParticipantLookupFailed)
                case Some(p2) => if p2.tag != b.id then Failure(NoPendingChallenge) else Success(m)
  }

  /** When the challengee is player 1 of the challenger's open match, player 2 is never
      looked at: a failed lookup of player 2 does not stop the challenge. */
  lemma ChallengeeAsPlayer1SkipsPlayer2()
    ensures var a := Duelist(1, "a", 1500, [], {}, {});
            var b := Duelist(2, "b", 1500, [], {}, {});
            var br := BracketView([Participant(10, 1), Participant(20, 2)],
                                  map[10 := Match(20, 99, "open")]);
            CheckChallenge(true, a, b, {}, br) == Success(Match(20, 99, "open"))
  {
  }

  function Lowest(a: Duelist, b: Duelist): int {
    if a.rating <= b.rating then a.rating else b.rating
  }

  /** `challenge` up to the candidate list: the guards, the target rating, the step-down
      search and the sort by contest start. */
  function ChallengeCandidates(running: bool, a: Duelist, b: Duelist, busy: set<UserId>,
                               br: BracketView, ratingArg: Option<int>, cat: Catalog)
    : (r: Result<Offer, DuelError>)
    ensures CheckChallenge(running, a, b, busy, br).Failure? ==>
              r == Failure(CheckChallenge(running, a, b, busy, br).error)
    ensures r.Success? ==>
              var ex := ExclusionsFor(a, b, cat);
              && CheckChallenge(running, a, b, busy, br).Success?
              && r.value.requested == TargetRating(ratingArg, Lowest(a, b))
              && IsStep(r.value.requested, r.value.rating)
              && r.value.problems != []
              && SortedByStart(r.value.problems)
              && multiset(r.value.problems) == multiset(Candidates(cat.problems, r.value.rating, ex))
              && (forall t :: IsStep(r.value.requested, t) && t > r.value.rating ==>
                                Candidates(cat.problems, t, ex) == [])
              && (forall p :: p in r.value.problems ==> p in cat.problems && Eligible(p, r.value.rating, ex))
    ensures r.Success? ==>
              r.value.problems == SortByStart(Candidates(cat.problems, r.value.rating, ExclusionsFor(a, b, cat)))
    ensures CheckChallenge(running, a, b, busy, br).Success?
            && (exists t :: IsStep(TargetRating(ratingArg, Lowest(a, b)), t)
                            && Candidates(cat.problems, t, ExclusionsFor(a, b, cat)) != [])
            ==> r.Success?
    ensures r == Failure(NoProblemsLeft) <==>
              && CheckChallenge(running, a, b, busy, br).Success?
              && forall t :: IsStep(TargetRating(ratingArg, Lowest(a, b)), t) ==>
                               Candidates(cat.problems, t, ExclusionsFor(a, b, cat)) == []
  {
    match CheckChallenge(running, a, b, busy, br)
    case Failure(e) => Failure(e)
    case Success(_) =>
      var requested := TargetRating(ratingArg, Lowest(a, b));
      var ex := ExclusionsFor(a, b, cat);
      match Select(cat.problems, ex, requested)
      case Found(t, ps) =>
        SelectedIsFirstNonEmpty(cat.problems, ex, requested);
        var sorted := SortByStart(ps);
        assert forall p :: p in sorted ==> p in ps by {
          forall p | p in sorted ensures p in ps { assert p in multiset(sorted); }
        }
        Success(Offer(requested, t, sorted))
      case _ => Failure(NoProblemsLeft)
  }

  /** The duel's problem: the later of the two uniform draws over the sorted candidates,
      so never from an older contest than either draw's problem. */
  function ChosenProblem(problems: seq<Problem>, i: nat, j: nat): (p: Problem)
    requires i < |problems| && j < |problems|
    requires SortedByStart(problems)
    ensures p in problems
    ensures p == problems[i] || p == problems[j]
    ensures (i >= j ==> p == problems[i]) && (j >= i ==> p == problems[j])
    ensures p.contestStart >= problems[i].contestStart && p.contestStart >= problems[j].contestStart
  {
    problems[ChoiceIndex(|problems|, i, j)]
  }

  /** The explicit ratings that round to 400 or less leave the as-written loop variable
      unbound; the intended selection reports that no problem is left. */
  lemma LowExplicitRatingUnbound(arg: Option<int>, lowest: int, cat: Catalog, ex: Exclusions)
    requires arg.Some? && arg.value != 0 && arg.value <= 450
    ensures SelectAsWritten(cat.problems, ex, TargetRating(arg, lowest)) == Unbound
    ensures Select(cat.problems, ex, TargetRating(arg, lowest)) == NoneLeft
  {
  }

  /** Without a rating argument the search always starts above the floor, so the
      as-written and intended selections agree. */
  lemma SuggestedStartIsBound(arg: Option<int>, lowest: int, cat: Catalog, ex: Exclusions)
    requires arg.None? || arg == Some(0)
    ensures TargetRating(arg, lowest) >= 500
    ensures SelectAsWritten(cat.problems, ex, TargetRating(arg, lowest))
            == Select(cat.problems, ex, TargetRating(arg, lowest))
  {
  }
}
