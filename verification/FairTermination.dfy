/** Termination under fair scheduling, for any step function.

    Agents take turns in an order the scheduler chooses. If every step either changes nothing or lowers a
    measure, and somebody can always move until the goal is reached, then every scheduler that keeps coming
    back to every agent reaches the goal. */
module FairTermination {
  type Scheduler<!A> = nat -> A

  predicate Schedules<A(==)>(f: Scheduler<A>, n: nat, x: A) { f(n) == x }

  ghost predicate RunsAgain<A>(f: Scheduler<A>, n: nat, x: A) {
    exists m: nat :: n <= m && Schedules(f, m, x)
  }

  /** Every agent runs again and again; nothing is said about how often. */
  ghost predicate Fair<A(!new)>(f: Scheduler<A>) {
    forall x: A, n: nat :: RunsAgain(f, n, x)
  }

  function StateAt<S, A>(step: (S, A) -> S, s: S, f: Scheduler<A>, n: nat): S {
    if n == 0 then s else step(StateAt(step, s, f, n - 1), f(n - 1))
  }

  ghost predicate Preserves<S(!new), A(!new)>(step: (S, A) -> S, inv: S -> bool) {
    forall s, x :: inv(s) ==> inv(step(s, x))
  }

  ghost predicate Descends<S(!new), A(!new)>(step: (S, A) -> S, inv: S -> bool, measure: S -> int) {
    && (forall s :: inv(s) ==> measure(s) >= 0)
    && (forall s, x :: inv(s) ==> step(s, x) == s || measure(step(s, x)) < measure(s))
  }

  ghost predicate NeverStuck<S(!new), A(!new)>(step: (S, A) -> S, inv: S -> bool, goal: S -> bool) {
    forall s :: inv(s) && !goal(s) ==> exists x :: step(s, x) != s
  }

  lemma {:induction false} InvAt<S(!new), A(!new)>(step: (S, A) -> S, inv: S -> bool, s: S, f: Scheduler<A>, n: nat)
    requires Preserves(step, inv) && inv(s)
    ensures inv(StateAt(step, s, f, n))
  {
    if n == 0 {
    } else {
      InvAt(step, inv, s, f, n - 1);
    }
  }

  /** The first step from n on that changes anything comes no later than a turn that would change something now. */
  lemma {:induction false} NextMove<S, A>(step: (S, A) -> S, s: S, f: Scheduler<A>, n: nat, turn: nat) returns (m: nat)
    requires n <= turn && step(StateAt(step, s, f, n), f(turn)) != StateAt(step, s, f, n)
    ensures StateAt(step, s, f, m) == StateAt(step, s, f, n)
    ensures step(StateAt(step, s, f, m), f(m)) != StateAt(step, s, f, m)
    decreases turn - n
  {
    if step(StateAt(step, s, f, n), f(n)) != StateAt(step, s, f, n) {
      m := n;
    } else {
      m := NextMove(step, s, f, n + 1, turn);
    }
  }

  lemma {:induction false} ReachesGoal<S(!new), A(!new)>(step: (S, A) -> S, inv: S -> bool, measure: S -> int,
      goal: S -> bool, s: S, f: Scheduler<A>, n: nat) returns (end: nat)
    requires Preserves(step, inv) && Descends(step, inv, measure) && NeverStuck(step, inv, goal)
    requires inv(s) && Fair(f)
    ensures goal(StateAt(step, s, f, end))
    decreases (InvAt(step, inv, s, f, n); measure(StateAt(step, s, f, n)))
  {
    InvAt(step, inv, s, f, n);
    var now := StateAt(step, s, f, n);
    if goal(now) {
      end := n;
    } else {
      var x :| step(now, x) != now;
      assert RunsAgain(f, n, x);
      var turn: nat :| n <= turn && Schedules(f, turn, x);
      var m := NextMove(step, s, f, n, turn);
      InvAt(step, inv, s, f, m + 1);
      end := ReachesGoal(step, inv, measure, goal, s, f, m + 1);
    }
  }
}
