/** The judge and problem-catalog records the tournament cog reads. */
module Codeforces {
  import opened Wrappers

  type ContestId = int

  /** Verdict of one judged submission; only the three named ones matter to the cog.
      By convention `OtherVerdict` stands for every other verdict string, so its name
      is never "OK", "TESTING" or "COMPILATION_ERROR"; the model treats it as different
      from the three named verdicts whatever its name. */
  datatype Verdict = Ok | Testing | CompilationError | OtherVerdict(name: string)

  /** The problem a submission was made to. */
  datatype ProblemRef = ProblemRef(contestId: ContestId, index: string, name: string)

  /** One entry of a handle's submission list. */
  datatype Submission = Submission(problem: ProblemRef, verdict: Verdict, creationTime: int)

  /** A catalog problem. `rating` is absent for unrated problems; `contestStart` is the
      start time of the problem's contest, as the contest cache reports it. */
  datatype Problem = Problem(contestId: ContestId, index: string, name: string,
                             rating: Option<int>, contestStart: int)
}
