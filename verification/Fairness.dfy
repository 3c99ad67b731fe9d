/** Termination under weak fairness, once for every step machine here that busy-waits. A ranking names a measure
    that no step raises and, in every unfinished state, one action that lowers it and that stays the helpful
    one until somebody lowers the measure. */
module Fairness {
  import opened StoreBuffer

  datatype System<!S, !A> = System(init: S, step: (S, A) -> Option<S>, finished: S -> bool)

  datatype Ranking<!S, !A> = Ranking(inv: S -> bool, measure: S -> nat, helpful: S -> A)

  /** A step keeps the invariant and does not raise the measure; if it does not lower it either, the state is
      still unfinished and the same action helps. */
  predicate DoesNoHarm<S(!new), A(!new, ==)>(sys: System<S, A>, rk: Ranking<S, A>, s: S, a: A) {
    rk.inv(s) && sys.step(s, a).Some? ==>
      var s' := sys.step(s, a).value;
      && rk.inv(s')
      && rk.measure(s') <= rk.measure(s)
      && (rk.measure(s') == rk.measure(s) && !sys.finished(s) ==> rk.helpful(s') == rk.helpful(s) && !sys.finished(s'))
  }

  predicate Helps<S(!new), A(!new)>(sys: System<S, A>, rk: Ranking<S, A>, s: S) {
    rk.inv(s) && !sys.finished(s) ==>
      var next := sys.step(s, rk.helpful(s));
      next.Some? && rk.measure(next.value) < rk.measure(s)
  }

  ghost predicate Stuck<S(!new), A(!new)>(sys: System<S, A>, s: S) {
    forall a :: sys.step(s, a) == None
  }

  ghost predicate Ranks<S(!new), A(!new)>(sys: System<S, A>, rk: Ranking<S, A>) {
    && rk.inv(sys.init)
    && (forall s, a :: DoesNoHarm(sys, rk, s, a))
    && (forall s :: Helps(sys, rk, s))
    && (forall s :: sys.finished(s) ==> Stuck(sys, s))
  }

  /** Index `i` takes its scheduled step, or stutters once the system has finished. */
  ghost predicate StepsAt<S(!new), A(!new)>(sys: System<S, A>, run: nat -> S, sched: nat -> A, i: nat) {
    sys.step(run(i), sched(i)) == Some(run(i + 1)) || (sys.finished(run(i)) && run(i + 1) == run(i))
  }

  ghost predicate IsRun<S(!new), A(!new)>(sys: System<S, A>, run: nat -> S, sched: nat -> A) {
    run(0) == sys.init && forall i: nat :: StepsAt(sys, run, sched, i)
  }

  ghost predicate ServedAt<S(!new), A(!new)>(sys: System<S, A>, run: nat -> S, sched: nat -> A, a: A, j: nat) {
    sched(j) == a || sys.step(run(j), a) == None
  }

  ghost predicate ServedFrom<S(!new), A(!new)>(sys: System<S, A>, run: nat -> S, sched: nat -> A, a: A, i: nat) {
    exists j: nat :: i <= j && ServedAt(sys, run, sched, a, j)
  }

  /** Weak fairness: no action stays enabled for ever without being taken. */
  ghost predicate IsFair<S(!new), A(!new)>(sys: System<S, A>, run: nat -> S, sched: nat -> A) {
    forall i: nat, a: A :: ServedFrom(sys, run, sched, a, i)
  }

  lemma {:induction false} RunKeepsInv<S(!new), A(!new)>(
    sys: System<S, A>, rk: Ranking<S, A>, run: nat -> S, sched: nat -> A, i: nat)
    requires Ranks(sys, rk) && IsRun(sys, run, sched)
    ensures rk.inv(run(i))
  {
    if i > 0 {
      var h := i - 1;
      RunKeepsInv(sys, rk, run, sched, h);
      assert StepsAt(sys, run, sched, h);
      assert DoesNoHarm(sys, rk, run(h), sched(h));
    }
  }

  /** From index `i` to `j` either the measure has fallen or nothing that matters has changed. */
  lemma {:induction false} StillHelpful<S(!new), A(!new)>(
    sys: System<S, A>, rk: Ranking<S, A>, run: nat -> S, sched: nat -> A, i: nat, j: nat)
    requires Ranks(sys, rk) && IsRun(sys, run, sched) && i <= j && !sys.finished(run(i))
    ensures || rk.measure(run(j)) < rk.measure(run(i))
            || (rk.measure(run(j)) == rk.measure(run(i)) && rk.helpful(run(j)) == rk.helpful(run(i))
                && !sys.finished(run(j)))
    decreases j - i
  {
    if i < j {
      var h := j - 1;
      StillHelpful(sys, rk, run, sched, i, h);
      RunKeepsInv(sys, rk, run, sched, h);
      assert StepsAt(sys, run, sched, h);
      assert DoesNoHarm(sys, rk, run(h), sched(h));
    }
  }

  lemma ProgressHappens<S(!new), A(!new)>(
    sys: System<S, A>, rk: Ranking<S, A>, run: nat -> S, sched: nat -> A, i: nat) returns (k: nat)
    requires Ranks(sys, rk) && IsRun(sys, run, sched) && IsFair(sys, run, sched) && !sys.finished(run(i))
    ensures rk.measure(run(k)) < rk.measure(run(i))
  {
    var a := rk.helpful(run(i));
    assert ServedFrom(sys, run, sched, a, i);
    var j: nat :| i <= j && ServedAt(sys, run, sched, a, j);
    StillHelpful(sys, rk, run, sched, i, j);
    if rk.measure(run(j)) < rk.measure(run(i)) {
      k := j;
    } else {
      RunKeepsInv(sys, rk, run, sched, j);
      assert Helps(sys, rk, run(j)) && StepsAt(sys, run, sched, j);
      k := j + 1;
    }
  }

  /** Every weakly fair run of a ranked system finishes, and in a state the invariant describes. */
  lemma {:induction false} FairRunsFinish<S(!new), A(!new)>(
    sys: System<S, A>, rk: Ranking<S, A>, run: nat -> S, sched: nat -> A, i: nat) returns (k: nat)
    requires Ranks(sys, rk) && IsRun(sys, run, sched) && IsFair(sys, run, sched)
    ensures sys.finished(run(k)) && rk.inv(run(k))
    decreases rk.measure(run(i))
  {
    if sys.finished(run(i)) {
      RunKeepsInv(sys, rk, run, sched, i);
      k := i;
    } else {
      var j := ProgressHappens(sys, rk, run, sched, i);
      k := FairRunsFinish(sys, rk, run, sched, j);
    }
  }

  // ----- a fair run exists -----

  /** The schedule that always takes the helpful action. */
  function HelpfulRun<S, A>(sys: System<S, A>, rk: Ranking<S, A>, i: nat): S {
    if i == 0 then sys.init
    else
      var s := HelpfulRun(sys, rk, i - 1);
      if sys.finished(s) then s else match sys.step(s, rk.helpful(s)) case Some(t) => t case None => s
  }

  lemma {:induction false} HelpfulRunEnds<S(!new), A(!new)>(sys: System<S, A>, rk: Ranking<S, A>, i: nat)
    requires Ranks(sys, rk)
    ensures rk.inv(HelpfulRun(sys, rk, i))
    ensures sys.finished(HelpfulRun(sys, rk, i)) || rk.measure(HelpfulRun(sys, rk, i)) + i <= rk.measure(sys.init)
  {
    if i > 0 {
      HelpfulRunEnds(sys, rk, i - 1);
      var s := HelpfulRun(sys, rk, i - 1);
      assert Helps(sys, rk, s) && DoesNoHarm(sys, rk, s, rk.helpful(s));
    }
  }

  lemma {:induction false} FinishedStays<S(!new), A(!new)>(sys: System<S, A>, rk: Ranking<S, A>, i: nat, j: nat)
    requires i <= j && sys.finished(HelpfulRun(sys, rk, i))
    ensures sys.finished(HelpfulRun(sys, rk, j))
    decreases j
  {
    if i < j {
      FinishedStays(sys, rk, i, j - 1);
    }
  }

  /** A ranked system has a weakly fair run, so `FairRunsFinish` speaks of something. */
  lemma FairRunExists<S(!new), A(!new)>(sys: System<S, A>, rk: Ranking<S, A>)
    returns (run: nat -> S, sched: nat -> A)
    requires Ranks(sys, rk)
    ensures IsRun(sys, run, sched) && IsFair(sys, run, sched)
  {
    run, sched := (i: nat) => HelpfulRun(sys, rk, i), (i: nat) => rk.helpful(HelpfulRun(sys, rk, i));
    forall i: nat ensures StepsAt(sys, run, sched, i) {
      HelpfulRunEnds(sys, rk, i);
      assert Helps(sys, rk, run(i));
    }
    var last := rk.measure(sys.init) + 1;
    HelpfulRunEnds(sys, rk, last);
    forall i: nat, a: A ensures ServedFrom(sys, run, sched, a, i) {
      var j := if i < last then last else i;
      FinishedStays(sys, rk, last, j);
      assert Stuck(sys, run(j));
      assert ServedAt(sys, run, sched, a, j);
    }
  }
}
