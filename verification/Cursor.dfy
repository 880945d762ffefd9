/** The `_idx` cursor of IterationItem and LoopItem: one invocation, and whole activations. */
module Cursor {
  import opened Common

  /** `IterationItem._invoke`.  A cancelled invocation returns before it moves the cursor; a value
      that is not a list ends the iteration; reading `arr[-1]` of an empty list raises first. */
  function IterationStep(c: int, items: Option<nat>, canceled: bool): int {
    if canceled then c
    else match items
      case None => -1
      case Some(n) => if c >= n then -1 else if n == 0 then c else c + 1
  }

  /** `LoopItem._invoke`. */
  function LoopStep(c: int, maximum: int, canceled: bool): int {
    if canceled then c else if c >= maximum then -1 else c + 1
  }
}
