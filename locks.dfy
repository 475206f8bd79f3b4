/**
 * A single thread's use of a non-reentrant lock such as Python's
 * `threading.Lock`: acquiring it again while holding it blocks forever.
 */
module Locks {

  datatype Step = Acquire | Release

  /** How a run of steps ends: normally (with the lock held or not), or stuck at a step. */
  datatype Outcome = Done(held: bool) | SelfDeadlock(at: nat) | ReleasedUnheld(at: nat)

  /** Runs `steps` from position `pos` on a lock whose current state is `held`. */
  function Run(steps: seq<Step>, held: bool, pos: nat): Outcome
    decreases |steps|
  {
    if steps == [] then Done(held)
    else
      match steps[0]
      case Acquire => if held then SelfDeadlock(pos) else Run(steps[1..], true, pos + 1)
      case Release => if !held then ReleasedUnheld(pos) else Run(steps[1..], false, pos + 1)
  }

  /** Running `a + b` is running `a`, then running `b` from wherever `a` left the lock. */
  lemma {:induction false} RunAppend(a: seq<Step>, b: seq<Step>, held: bool, pos: nat)
    ensures Run(a + b, held, pos) ==
      (match Run(a, held, pos)
       case Done(h) => Run(b, h, pos + |a|)
       case SelfDeadlock(at) => SelfDeadlock(at)
       case ReleasedUnheld(at) => ReleasedUnheld(at))
    decreases |a|
  {
    if a == [] {
      assert a + b == b;
    } else {
      assert (a + b)[0] == a[0] && (a + b)[1..] == a[1..] + b;
      match a[0]
      case Acquire => if !held { RunAppend(a[1..], b, true, pos + 1); }
      case Release => if held { RunAppend(a[1..], b, false, pos + 1); }
    }
  }

  /**
   * Two acquisitions in a row, after any prefix that leaves the lock free,
   * block the thread at the second one, whatever was meant to follow.
   */
  lemma NestedAcquireBlocks(pre: seq<Step>, post: seq<Step>)
    requires Run(pre, false, 0) == Done(false)
    ensures Run(pre + [Acquire, Acquire] + post, false, 0) == SelfDeadlock(|pre| + 1)
  {
    RunAppend(pre, [Acquire, Acquire] + post, false, 0);
    assert pre + [Acquire, Acquire] + post == pre + ([Acquire, Acquire] + post);
  }

  /** `k` critical sections one after another, each a single acquire and release. */
  function Sections(k: nat): (r: seq<Step>)
    ensures |r| == 2 * k
  {
    if k == 0 then [] else [Acquire, Release] + Sections(k - 1)
  }

  /** Taking the lock once per critical section never blocks and leaves it free. */
  lemma {:induction false} SectionsNeverBlock(k: nat, pos: nat)
    ensures Run(Sections(k), false, pos) == Done(false)
  {
    if k > 0 {
      SectionsNeverBlock(k - 1, pos + 2);
      RunAppend([Acquire, Release], Sections(k - 1), false, pos);
    }
  }
}
