// Runs of a system that moves by steps: any finite interleaving of enabled
// steps from an initial state. Every concurrent part of the model is one.
module Runs {

  /** `ss` are the states visited and `acts` the steps between them. */
  ghost predicate IsRun<S(!new), A(!new)>(
      init: S, enabled: (S, A) -> bool, apply: (S, A) -> S, ss: seq<S>, acts: seq<A>)
  {
    && |ss| == |acts| + 1
    && ss[0] == init
    && (forall i :: 0 <= i < |acts| ==> enabled(ss[i], acts[i]) && ss[i + 1] == apply(ss[i], acts[i]))
  }

  ghost predicate Preserved<S(!new), A(!new)>(enabled: (S, A) -> bool, apply: (S, A) -> S, inv: S -> bool) {
    forall s, a :: inv(s) && enabled(s, a) ==> inv(apply(s, a))
  }

  /** What holds at first and is kept by every step holds at every moment. */
  lemma {:induction false} Always<S(!new), A(!new)>(
      init: S, enabled: (S, A) -> bool, apply: (S, A) -> S, inv: S -> bool, ss: seq<S>, acts: seq<A>, i: nat)
    requires IsRun(init, enabled, apply, ss, acts) && i < |ss|
    requires inv(init) && Preserved(enabled, apply, inv)
    ensures inv(ss[i])
  {
    if i == 0 {
    } else {
      Always(init, enabled, apply, inv, ss, acts, i - 1);
      assert enabled(ss[i - 1], acts[i - 1]) && ss[i - 1 + 1] == apply(ss[i - 1], acts[i - 1]);
    }
  }

  /** Extending a run by one more enabled step. */
  lemma Extend<S(!new), A(!new)>(
      init: S, enabled: (S, A) -> bool, apply: (S, A) -> S, ss: seq<S>, acts: seq<A>, a: A)
    requires IsRun(init, enabled, apply, ss, acts) && enabled(ss[|acts|], a)
    ensures IsRun(init, enabled, apply, ss + [apply(ss[|acts|], a)], acts + [a])
  {
  }

  /** The run extended by one more enabled step. */
  lemma Then<S(!new), A(!new)>(
      init: S, enabled: (S, A) -> bool, apply: (S, A) -> S, ss: seq<S>, acts: seq<A>, a: A)
      returns (ss': seq<S>, acts': seq<A>)
    requires IsRun(init, enabled, apply, ss, acts) && enabled(ss[|acts|], a)
    ensures IsRun(init, enabled, apply, ss', acts') && acts' == acts + [a]
    ensures ss' == ss + [apply(ss[|acts|], a)]
  {
    Extend(init, enabled, apply, ss, acts, a);
    ss', acts' := ss + [apply(ss[|acts|], a)], acts + [a];
  }

  /** Some run leads to `s`. */
  ghost predicate Reachable<S(!new), A(!new)>(init: S, enabled: (S, A) -> bool, apply: (S, A) -> S, s: S) {
    exists ss: seq<S>, acts: seq<A> :: IsRun(init, enabled, apply, ss, acts) && ss[|acts|] == s
  }

  lemma InitReachable<S(!new), A(!new)>(init: S, enabled: (S, A) -> bool, apply: (S, A) -> S)
    ensures Reachable(init, enabled, apply, init)
  {
    var ss: seq<S>, acts: seq<A> := [init], [];
    assert IsRun(init, enabled, apply, ss, acts) && ss[|acts|] == init;
  }

  lemma StaysReachable<S(!new), A(!new)>(init: S, enabled: (S, A) -> bool, apply: (S, A) -> S, s: S, a: A)
    requires Reachable(init, enabled, apply, s) && enabled(s, a)
    ensures Reachable(init, enabled, apply, apply(s, a))
  {
    var ss: seq<S>, acts: seq<A> :| IsRun(init, enabled, apply, ss, acts) && ss[|acts|] == s;
    Extend(init, enabled, apply, ss, acts, a);
    assert (ss + [apply(s, a)])[|acts + [a]|] == apply(s, a);
  }
}
