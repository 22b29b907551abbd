/**
 * The pause/resume contract shared by plan elements and strategies. An interrupt is an override layered on top of
 * whatever status the object has; it never replaces that status.
 */
module Interruptible {

  /**
   * What interrupt() promises: afterwards the object is interrupted, and the call returns true exactly when the
   * object was proceeding before it (so a repeated call has no effect and returns false).
   */
  predicate HonoursInterrupt(before: bool, after: bool, returned: bool) {
    after && (returned <==> !before)
  }

  /** What proceed() promises: afterwards the object is proceeding, and the call returns true exactly when it was interrupted. */
  predicate HonoursProceed(before: bool, after: bool, returned: bool) {
    !after && (returned <==> before)
  }
}
