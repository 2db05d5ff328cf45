/** Logs of timed operations under a clock that never goes back. */
module Clocks {
  ghost predicate Monotone<Op>(ops: seq<Op>, at: Op -> int) {
    forall i, j :: 0 <= i < j < |ops| ==> at(ops[i]) <= at(ops[j])
  }

  ghost predicate NotBefore<Op>(ops: seq<Op>, at: Op -> int, now: int) {
    forall i :: 0 <= i < |ops| ==> at(ops[i]) <= now
  }
}
