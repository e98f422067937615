/**
 * The bounded undo history shared by all versions of the editor: snapshots
 * are appended, the oldest is dropped once there are more than
 * UndoStackLimit, and an undo takes the newest.
 */
module UndoStack {
  import opened ArcConstants

  /** `pushToUndoStack` on the stack's value: push, then `shift()` when over the limit. */
  function Push<T>(stack: seq<T>, snapshot: T): (r: seq<T>)
    requires |stack| <= UndoStackLimit
    ensures |r| == if |stack| < UndoStackLimit then |stack| + 1 else UndoStackLimit
    ensures r == (stack + [snapshot])[|stack| + 1 - |r|..]
  {
    var pushed := stack + [snapshot];
    if |pushed| > UndoStackLimit then pushed[1..] else pushed
  }

  /** `undoStack.pop()`: everything but the newest snapshot. */
  function Pop<T>(stack: seq<T>): (r: seq<T>)
    requires |stack| > 0
    ensures r + [stack[|stack| - 1]] == stack
  {
    stack[..|stack| - 1]
  }

  /** The newest snapshot is the one just pushed, and the stack never passes the limit. */
  lemma PushedOnTop<T>(stack: seq<T>, snapshot: T)
    requires |stack| <= UndoStackLimit
    ensures 0 < |Push(stack, snapshot)| <= UndoStackLimit
    ensures Push(stack, snapshot)[|Push(stack, snapshot)| - 1] == snapshot
  {
  }

  /** Below the limit, popping right after a push gives the stack back. */
  lemma PopUndoesPush<T>(stack: seq<T>, snapshot: T)
    requires |stack| < UndoStackLimit
    ensures Pop(Push(stack, snapshot)) == stack
  {
    assert Push(stack, snapshot) == stack + [snapshot];
  }

  /**
   * On a full stack a push evicts the oldest snapshot for good: popping the
   * pushed one leaves one snapshot fewer than before.
   */
  lemma PopAfterFullPushLosesOldest<T>(stack: seq<T>, snapshot: T)
    requires |stack| == UndoStackLimit
    ensures Pop(Push(stack, snapshot)) == stack[1..]
    ensures |Pop(Push(stack, snapshot))| == UndoStackLimit - 1
  {
    assert Push(stack, snapshot) == stack[1..] + [snapshot];
  }
}
