/** Induction over the states of a run, once for every machine. */
module Runs {

  ghost predicate Steps<S(!new)>(next: (S, S) -> bool, run: seq<S>, from: nat, to: nat)
    requires to < |run|
  {
    forall k :: from <= k < to ==> next(run[k], run[k + 1])
  }

  /** What holds at one state of a run and is kept by every step holds from there on. */
  lemma {:induction false} Invariant<S(!new)>(next: (S, S) -> bool, inv: S -> bool, run: seq<S>, from: nat, to: nat)
    requires from <= to < |run| && Steps(next, run, from, to) && inv(run[from])
    requires forall s, s' :: inv(s) && next(s, s') ==> inv(s')
    ensures inv(run[to])
  {
    if from < to {
      Invariant(next, inv, run, from, to - 1);
      assert next(run[to - 1], run[(to - 1) + 1]);
    }
  }

  /** Some run of steps leads from one state to the other. */
  ghost predicate Reaches<S(!new)>(next: (S, S) -> bool, s: S, s': S) {
    exists run: seq<S> :: IsPath(next, run) && run[0] == s && run[|run| - 1] == s'
  }

  ghost predicate IsPath<S(!new)>(next: (S, S) -> bool, run: seq<S>) {
    run != [] && Steps(next, run, 0, |run| - 1)
  }

  lemma ReachesSelf<S(!new)>(next: (S, S) -> bool, s: S)
    ensures Reaches(next, s, s)
  {
    assert IsPath(next, [s]) && [s][0] == s;
  }

  lemma ReachesNext<S(!new)>(next: (S, S) -> bool, s: S, s': S)
    requires next(s, s')
    ensures Reaches(next, s, s')
  {
    var run := [s, s'];
    assert IsPath(next, run) && run[0] == s && run[|run| - 1] == s';
  }

  lemma ReachesThrough<S(!new)>(next: (S, S) -> bool, s: S, mid: S, s': S)
    requires Reaches(next, s, mid) && Reaches(next, mid, s')
    ensures Reaches(next, s, s')
  {
    var run: seq<S> :| IsPath(next, run) && run[0] == s && run[|run| - 1] == mid;
    var more: seq<S> :| IsPath(next, more) && more[0] == mid && more[|more| - 1] == s';
    var joined := run + more[1..];
    forall k | 0 <= k < |joined| - 1 ensures next(joined[k], joined[k + 1]) {
      if k < |run| - 1 {
        assert next(run[k], run[k + 1]);
      } else {
        assert next(more[k - |run| + 1], more[k - |run| + 1 + 1]);
      }
    }
    assert IsPath(next, joined) && joined[0] == s && joined[|joined| - 1] == s';
  }
}
