/** The field-level rule of routes/userRoutes.js: the block toggle. */
module Moderation {
  import opened Schemas
  import opened Http

  /** `user.isBlocked = !user.isBlocked`, nothing else. */
  function Toggle(u: User): (r: User)
    ensures r.isBlocked == !u.isBlocked
    ensures r.(isBlocked := u.isBlocked) == u
  {
    u.(isBlocked := !u.isBlocked)
  }

  /** Toggling twice restores the user. */
  lemma ToggleTwice(u: User)
    ensures Toggle(Toggle(u)) == u
  {
  }

  /** The reply message names the new state of the flag. */
  function ToggleMessage(u: User): (m: Message)
    ensures m == UserBlockedSuccessfully <==> u.isBlocked
    ensures m == UserBlockedSuccessfully || m == UserUnblockedSuccessfully
  {
    if u.isBlocked then UserBlockedSuccessfully else UserUnblockedSuccessfully
  }
}
