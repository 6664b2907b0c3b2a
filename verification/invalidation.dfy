/** The `invalidate` command of a duelist and the administrators' `_invalidate`. */
module Invalidation {
  import opened Wrappers
  import opened Duels

  /** Seconds after the start during which a duelist may invalidate their own duel. */
  const InvalidateWindow: real := 120.0

  /** `invalidate_duel`: the DB's invalidation claim returning rc 0 raises. */
  function InvalidateClaim(d: ActiveDuel, rc: int): (r: Result<DuelId, DuelError>)
    ensures r.Success? <==> rc != 0
    ensures r.Success? ==> r.value == d.duelId
    ensures r.Failure? ==> r.error == InvalidateRejected
  {
    if rc == 0 then Failure(InvalidateRejected) else Success(d.duelId)
  }

  /** A duelist's own invalidation: refused once more than 120 seconds have passed
      since the start, before any claim is made. `rc` is what the claim would return. */
  function SelfInvalidate(active: Option<ActiveDuel>, now: real, rc: int): (r: Result<DuelId, DuelError>)
    ensures active.None? ==> r == Failure(NotInDuel)
    ensures active.Some? && now - active.value.startTime > InvalidateWindow ==> r == Failure(WindowClosed)
    ensures active.Some? && now - active.value.startTime <= InvalidateWindow && rc == 0
            ==> r == Failure(InvalidateRejected)
    ensures r.Success? <==> active.Some? && now - active.value.startTime <= InvalidateWindow && rc != 0
    ensures r.Success? ==> r.value == active.value.duelId
  {
    match active
    case None => Failure(NotInDuel)
    case Some(d) =>
      if now - d.startTime > InvalidateWindow then Failure(WindowClosed)
      else InvalidateClaim(d, rc)
  }

  /** The administrators' invalidation of a member's duel: no time check at all. */
  function AdminInvalidate(active: Option<ActiveDuel>, rc: int): (r: Result<DuelId, DuelError>)
    ensures active.None? ==> r == Failure(NotInDuel)
    ensures active.Some? && rc == 0 ==> r == Failure(InvalidateRejected)
    ensures r.Success? <==> active.Some? && rc != 0
    ensures r.Success? ==> r.value == active.value.duelId
  {
    match active
    case None => Failure(NotInDuel)
    case Some(d) => InvalidateClaim(d, rc)
  }

  /** Whatever a duelist can invalidate an administrator can, with the same result;
      the two differ only when the window has closed. */
  lemma AdminSubsumesSelf(active: Option<ActiveDuel>, now: real, rc: int)
    ensures SelfInvalidate(active, now, rc).Success? ==>
              AdminInvalidate(active, rc) == SelfInvalidate(active, now, rc)
    ensures SelfInvalidate(active, now, rc) != AdminInvalidate(active, rc) ==>
              SelfInvalidate(active, now, rc) == Failure(WindowClosed)
  {
  }
}
