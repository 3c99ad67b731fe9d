/** The parity ping-pong: two threads alternate on the parity of one counter, with a `ready` flag at the start
    and a `done` flag that may cut the other thread off, on x86-TSO. Every load of `counter`, `ready` and `done`
    is its own step and every increment is a load and a store. */
module Parity {
  import opened StoreBuffer
  import opened Fairness

  datatype Loc = Counter | Ready | DoneFlag

  /** Hello is thread 1's wait for `ready` and thread 2's store of it; SeeTurn and SeeDone are the two loads of
      the waiting condition, CheckDone the load of the `if` that follows it. */
  datatype Pc = Hello | SeeTurn | SeeDone | CheckDone | LoadCounter | StoreCounter | Fence | SetDone | End

  datatype Thread = Thread(pc: Pc, round: nat, reg: int, buf: seq<Write<Loc>>)

  datatype State = State(counter: int, ready: int, done: int, t1: Thread, t2: Thread) {
    function T(first: bool): Thread { if first then t1 else t2 }
    function SetT(first: bool, t: Thread): State { if first then this.(t1 := t) else this.(t2 := t) }
  }

  datatype Action = Run(first: bool) | Drain(first: bool)

  function LoopHead(n: nat, round: nat): Pc { if round < n then SeeTurn else SetDone }

  /** Thread 1 moves on even counters, thread 2 on odd ones. */
  predicate Turn(first: bool, counter: int) { counter % 2 == if first then 0 else 1 }

  function RunStep(n: nat, s: State, first: bool): Option<State> {
    var t := s.T(first);
    match t.pc
    case Hello =>
      if first then
        Some(if Forward(t.buf, Ready, s.ready) != 0 then s.SetT(first, t.(pc := LoopHead(n, 0))) else s)
      else Some(s.SetT(first, t.(pc := LoopHead(n, 0), buf := t.buf + [Write(Ready, 1)])))
    case SeeTurn =>
      Some(s.SetT(first, t.(pc := if Turn(first, Forward(t.buf, Counter, s.counter)) then CheckDone else SeeDone)))
    case SeeDone =>
      Some(s.SetT(first, t.(pc := if Forward(t.buf, DoneFlag, s.done) != 0 then CheckDone else SeeTurn)))
    case CheckDone =>
      Some(s.SetT(first, t.(pc := if Forward(t.buf, DoneFlag, s.done) != 0 then SetDone else LoadCounter)))
    case LoadCounter => Some(s.SetT(first, t.(reg := Forward(t.buf, Counter, s.counter), pc := StoreCounter)))
    case StoreCounter =>
      Some(s.SetT(first, t.(round := t.round + 1, buf := t.buf + [Write(Counter, t.reg + 1)], pc := Fence)))
    case Fence => if t.buf != [] then None else Some(s.SetT(first, t.(pc := LoopHead(n, t.round))))
    case SetDone => Some(s.SetT(first, t.(buf := t.buf + [Write(DoneFlag, 1)], pc := End)))
    case End => None
  }

  function DrainStep(s: State, first: bool): Option<State> {
    var t := s.T(first);
    if t.buf == [] then None
    else
      var r := s.SetT(first, t.(buf := t.buf[1..]));
      var v := t.buf[0].val;
      Some(match t.buf[0].loc
           case Counter => r.(counter := v) case Ready => r.(ready := v) case DoneFlag => r.(done := v))
  }

  function Step(n: nat, s: State, a: Action): Option<State> {
    match a case Run(first) => RunStep(n, s, first) case Drain(first) => DrainStep(s, first)
  }

  function Init(): State { State(0, 0, 0, Thread(Hello, 0, 0, []), Thread(Hello, 0, 0, [])) }

  function Exec(n: nat, s: State, acts: seq<Action>): Option<State> {
    if acts == [] then Some(s)
    else match Exec(n, s, acts[..|acts| - 1])
      case None => None
      case Some(mid) => Step(n, mid, acts[|acts| - 1])
  }

  predicate Finished(s: State) { s.t1.pc == End && s.t2.pc == End && s.t1.buf == [] && s.t2.buf == [] }

  // ----- the inductive invariant -----

  predicate PendingCount(t: Thread) { t.pc == Fence && t.buf != [] }

  /** The increments that have reached memory. */
  predicate CounterInv(s: State) {
    s.counter == s.t1.round + s.t2.round - if PendingCount(s.t1) || PendingCount(s.t2) then 1 else 0
  }

  predicate Critical(t: Thread) { t.pc in {CheckDone, LoadCounter, StoreCounter} || PendingCount(t) }

  predicate Thread1Inv(n: nat, s: State) {
    var t, sum := s.t1, s.t1.round + s.t2.round;
    && t.round <= n
    && (t.pc == Hello ==> t.round == 0 && t.buf == [])
    && (t.pc != Hello ==> s.ready == 1)
    && (t.pc in {SeeTurn, SeeDone} ==> t.round < n && t.buf == [])
    && (t.pc in {CheckDone, LoadCounter, StoreCounter} ==>
          t.round < n && t.buf == [] && t.round == s.t2.round && !PendingCount(s.t2))
    && (t.pc == StoreCounter ==> t.reg == sum)
    && (t.pc == Fence ==>
          t.round >= 1 && (t.buf == [] || (t.buf == [Write(Counter, sum)] && t.round == s.t2.round + 1)))
    && (t.pc in {SetDone, End} ==> t.round == n)
    && (t.pc == SetDone ==> t.buf == [])
    && (t.pc == End ==> t.buf == [] || t.buf == [Write(DoneFlag, 1)])
  }

  predicate Thread2Inv(n: nat, s: State) {
    var t, sum := s.t2, s.t1.round + s.t2.round;
    && t.round <= n
    && (t.pc == Hello ==> t.round == 0 && t.buf == [] && s.ready == 0)
    && (s.ready == 0 && t.pc != Hello ==>
          s.t1.pc == Hello && t.round == 0 &&
          (|| (t.pc in {SeeTurn, SeeDone} && t.buf == [Write(Ready, 1)])
           || (n == 0 && t.pc == SetDone && t.buf == [Write(Ready, 1)])
           || (n == 0 && t.pc == End && t.buf == [Write(Ready, 1), Write(DoneFlag, 1)])))
    && (s.ready == 1 ==>
          && (t.pc in {SeeTurn, SeeDone, CheckDone, LoadCounter, StoreCounter, SetDone} ==> t.buf == [])
          && (t.pc == Fence ==>
                t.round >= 1 && (t.buf == [] || (t.buf == [Write(Counter, sum)] && t.round == s.t1.round)))
          && (t.pc == End ==> t.buf == [] || t.buf == [Write(DoneFlag, 1)]))
    && (t.pc in {SeeTurn, SeeDone} ==> t.round < n)
    && (t.pc in {CheckDone, LoadCounter, StoreCounter} ==>
          t.round < n && s.t1.round == t.round + 1 && !PendingCount(s.t1) && s.ready == 1)
    && (t.pc == StoreCounter ==> t.reg == sum)
    && (t.pc in {SetDone, End} ==> s.t1.round == n && (t.round == n || (t.round == n - 1 && s.done == 1)))
  }

  /** Thread 1 leads by 0 or 1, and a raised `done` means it has issued all its increments. */
  predicate Inv(n: nat, s: State) {
    && (s.ready == 0 || s.ready == 1) && (s.done == 0 || s.done == 1)
    && (s.t1.round == s.t2.round || s.t1.round == s.t2.round + 1)
    && (s.done == 1 ==> s.t1.round == n && !PendingCount(s.t1) && s.ready == 1)
    && CounterInv(s)
    && !(PendingCount(s.t1) && PendingCount(s.t2))
    && Thread1Inv(n, s) && Thread2Inv(n, s)
  }

  lemma Run1KeepsInv(n: nat, s: State)
    requires Inv(n, s) && RunStep(n, s, true).Some?
    ensures Inv(n, RunStep(n, s, true).value)
  {
    var s' := RunStep(n, s, true).value;
    assert Thread1Inv(n, s');
    assert Thread2Inv(n, s');
  }

  /** Before `ready` is up thread 1 still waits for it. */
  lemma Run2EarlyKeepsInv(n: nat, s: State)
    requires Inv(n, s) && RunStep(n, s, false).Some? && s.ready == 0
    ensures Inv(n, RunStep(n, s, false).value)
  {
    assert Forward([Write(Ready, 1)], Counter, s.counter) == s.counter;
    assert Forward([Write(Ready, 1)], DoneFlag, s.done) == s.done;
    assert [Write(Ready, 1)] + [Write(DoneFlag, 1)] == [Write(Ready, 1), Write(DoneFlag, 1)];
    assert Thread2Inv(n, RunStep(n, s, false).value);
  }

  lemma Run2KeepsInv(n: nat, s: State)
    requires Inv(n, s) && RunStep(n, s, false).Some?
    ensures Inv(n, RunStep(n, s, false).value)
  {
    if s.ready == 0 {
      Run2EarlyKeepsInv(n, s);
    } else {
      assert Thread2Inv(n, RunStep(n, s, false).value);
      assert Thread1Inv(n, RunStep(n, s, false).value);
    }
  }

  lemma DrainKeepsInv(n: nat, s: State, first: bool)
    requires Inv(n, s) && DrainStep(s, first).Some?
    ensures Inv(n, DrainStep(s, first).value)
  {
    var s', t := DrainStep(s, first).value, s.T(first);
    if |t.buf| == 2 {
      assert t.buf[1..] == [t.buf[1]];
    } else {
      assert t.buf[1..] == [];
    }
    assert Thread1Inv(n, s');
    assert Thread2Inv(n, s');
  }

  lemma {:induction false} RunKeepsInv(n: nat, acts: seq<Action>)
    requires Exec(n, Init(), acts).Some?
    ensures Inv(n, Exec(n, Init(), acts).value)
  {
    if acts != [] {
      var front, a := acts[..|acts| - 1], acts[|acts| - 1];
      RunKeepsInv(n, front);
      var mid := Exec(n, Init(), front).value;
      match a {
        case Run(first) => if first { Run1KeepsInv(n, mid); } else { Run2KeepsInv(n, mid); }
        case Drain(first) => DrainKeepsInv(n, mid, first);
      }
    }
  }

  /** In every reachable state: the counter counts the increments that have drained, thread 1 leads by 0 or 1,
      and the two increments never overlap. */
  lemma TurnsAlternate(n: nat, acts: seq<Action>, s: State)
    requires Exec(n, Init(), acts) == Some(s)
    ensures s.counter == s.t1.round + s.t2.round - if PendingCount(s.t1) || PendingCount(s.t2) then 1 else 0
    ensures s.t2.round <= s.t1.round <= s.t2.round + 1
    ensures !(Critical(s.t1) && Critical(s.t2))
  {
    RunKeepsInv(n, acts);
  }

  /** Thread 1 is never cut off: `done` is up only once it has made all its increments, so it leaves its loop
      with all of them, and thread 2 misses at most its last. */
  lemma OnlyThread2IsCutOff(n: nat, acts: seq<Action>, s: State)
    requires Exec(n, Init(), acts) == Some(s)
    ensures s.done == 1 ==> s.t1.round == n
    ensures s.t1.pc in {SetDone, End} ==> s.t1.round == n
    ensures s.t2.pc in {SetDone, End} ==> s.t1.round == n && (s.t2.round == n || (n >= 1 && s.t2.round == n - 1))
  {
    RunKeepsInv(n, acts);
  }

  // ----- both final values are reached -----

  predicate Leads(n: nat, acts: seq<Action>, s: State) { Exec(n, Init(), acts) == Some(s) }

  lemma Append(n: nat, acts: seq<Action>, s: State, a: Action) returns (acts': seq<Action>, s': State)
    requires Leads(n, acts, s) && Step(n, s, a).Some?
    ensures Step(n, s, a) == Some(s') && Leads(n, acts', s')
  {
    acts', s' := acts + [a], Step(n, s, a).value;
    assert acts'[..|acts|] == acts;
  }

  /** A thread whose turn it is makes one increment with nobody in between. */
  lemma Increment(n: nat, acts: seq<Action>, s: State, first: bool) returns (acts': seq<Action>, s': State)
    requires Leads(n, acts, s) && s.T(first).pc == SeeTurn && s.T(first).buf == []
    requires Turn(first, s.counter) && s.done == 0
    ensures Leads(n, acts', s')
    ensures var t := s.T(first);
            s' == s.(counter := s.counter + 1)
                   .SetT(first, Thread(LoopHead(n, t.round + 1), t.round + 1, s.counter, []))
  {
    acts', s' := Append(n, acts, s, Run(first));
    acts', s' := Append(n, acts', s', Run(first));
    acts', s' := Append(n, acts', s', Run(first));
    acts', s' := Append(n, acts', s', Run(first));
    assert s'.T(first).buf[1..] == [];
    acts', s' := Append(n, acts', s', Drain(first));
    acts', s' := Append(n, acts', s', Run(first));
  }

  /** A thread behind its loop raises `done` and ends. */
  lemma Leave(n: nat, acts: seq<Action>, s: State, first: bool) returns (acts': seq<Action>, s': State)
    requires Leads(n, acts, s) && s.T(first).pc == SetDone && s.T(first).buf == []
    ensures Leads(n, acts', s')
    ensures s' == s.(done := 1).SetT(first, s.T(first).(pc := End))
  {
    acts', s' := Append(n, acts, s, Run(first));
    assert s'.T(first).buf[1..] == [];
    acts', s' := Append(n, acts', s', Drain(first));
  }

  predicate Even(n: nat, s: State, i: nat) {
    && s.counter == 2 * i && s.ready == 1 && s.done == 0
    && s.t1.pc == s.t2.pc == LoopHead(n, i) && s.t1.round == s.t2.round == i && s.t1.buf == s.t2.buf == []
  }

  lemma {:induction false} PlayTurns(n: nat, i: nat) returns (acts: seq<Action>, s: State)
    requires i <= n
    ensures Leads(n, acts, s) && Even(n, s, i)
  {
    if i == 0 {
      acts, s := Append(n, [], Init(), Run(false));
      assert s.t2.buf[1..] == [];
      acts, s := Append(n, acts, s, Drain(false));
      acts, s := Append(n, acts, s, Run(true));
    } else {
      acts, s := PlayTurns(n, i - 1);
      acts, s := Increment(n, acts, s, true);
      acts, s := Increment(n, acts, s, false);
    }
  }

  lemma PlayAll(n: nat) returns (acts: seq<Action>, s: State)
    ensures Leads(n, acts, s) && Finished(s) && s.counter == 2 * n
  {
    acts, s := PlayTurns(n, n);
    acts, s := Leave(n, acts, s, true);
    acts, s := Leave(n, acts, s, false);
  }

  /** Thread 1 raises `done` before thread 2 checks it in its last turn. */
  lemma PlayCutOff(n: nat) returns (acts: seq<Action>, s: State)
    requires n >= 1
    ensures Leads(n, acts, s) && Finished(s) && s.counter == 2 * n - 1
  {
    acts, s := PlayTurns(n, n - 1);
    acts, s := Increment(n, acts, s, true);
    acts, s := Leave(n, acts, s, true);
    acts, s := Append(n, acts, s, Run(false));
    acts, s := Append(n, acts, s, Run(false));
    acts, s := Leave(n, acts, s, false);
  }

  ghost predicate CanEndWith(n: nat, v: int) {
    exists acts, s :: Leads(n, acts, s) && Finished(s) && s.counter == v
  }

  /** A finished ping-pong of `n` rounds has counted 2n, or 2n - 1 when there is a last turn to cut off, and
      both happen. */
  lemma FinalCounter(n: nat, v: int)
    ensures CanEndWith(n, v) <==> v == 2 * n || (n >= 1 && v == 2 * n - 1)
  {
    if CanEndWith(n, v) {
      var acts, s :| Leads(n, acts, s) && Finished(s) && s.counter == v;
      RunKeepsInv(n, acts);
    }
    if v == 2 * n {
      var acts, s := PlayAll(n);
    } else if n >= 1 && v == 2 * n - 1 {
      var acts, s := PlayCutOff(n);
    }
  }

  // ----- termination under weak fairness -----

  /** A waiting thread whose turn the counter shows leaves its wait at its next load of the counter. */
  function Weight(pc: Pc, turn: bool): nat {
    match pc
    case Hello => 20
    case SeeTurn => if turn then 8 else 9
    case SeeDone => 9
    case CheckDone => 7 case LoadCounter => 6 case StoreCounter => 5 case Fence => 11 case SetDone => 2 case End => 0
  }

  function ThreadMeasure(n: nat, s: State, first: bool): int {
    8 * (n - s.T(first).round) + Weight(s.T(first).pc, Turn(first, s.counter)) + |s.T(first).buf|
  }

  function Measure(n: nat, s: State): int { ThreadMeasure(n, s, true) + ThreadMeasure(n, s, false) }

  predicate Idle(t: Thread) { t.pc in {SeeTurn, SeeDone, End} }

  /** What moves an unfinished state on: drain what is pending, let thread 2 announce itself, let a thread that
      is not waiting go on, and otherwise run the thread whose turn it is. */
  function Helpful(s: State): Action {
    if s.t2.buf != [] then Drain(false)
    else if s.t1.buf != [] then Drain(true)
    else if s.t2.pc == Hello then Run(false)
    else if !Idle(s.t1) then Run(true)
    else if !Idle(s.t2) then Run(false)
    else Run(s.t1.pc != End && s.counter % 2 == 0)
  }

  lemma StepKeepsInv(n: nat, s: State, a: Action)
    requires Inv(n, s) && Step(n, s, a).Some?
    ensures Inv(n, Step(n, s, a).value)
  {
    match a {
      case Run(first) => if first { Run1KeepsInv(n, s); } else { Run2KeepsInv(n, s); }
      case Drain(first) => DrainKeepsInv(n, s, first);
    }
  }

  lemma MeasureIsNat(n: nat, s: State)
    requires Inv(n, s)
    ensures 0 <= Measure(n, s)
  {
  }

  /** A step that is only another look at a condition that does not hold yet. */
  predicate Waits(n: nat, s: State, first: bool) {
    var t := s.T(first);
    || (t.pc == SeeTurn && !Turn(first, s.counter))
    || (t.pc == SeeDone && !Turn(first, s.counter) && Forward(t.buf, DoneFlag, s.done) == 0)
    || (t.pc == Hello && first && s.ready == 0)
  }

  lemma WaitingChangesNothing(n: nat, s: State, first: bool)
    requires Inv(n, s) && RunStep(n, s, first).Some? && Waits(n, s, first)
    ensures var s' := RunStep(n, s, first).value;
            Measure(n, s') == Measure(n, s) && Helpful(s') == Helpful(s) && !Finished(s')
  {
    var s', t := RunStep(n, s, first).value, s.T(first);
    assert s'.T(!first) == s.T(!first) && s'.counter == s.counter && s'.T(first).buf == t.buf;
    if !first && s.ready == 0 {
      assert Forward([Write(Ready, 1)], Counter, s.counter) == s.counter;
    }
  }

  lemma RunLowersMeasure(n: nat, s: State, first: bool)
    requires Inv(n, s) && RunStep(n, s, first).Some? && !Waits(n, s, first)
    ensures Measure(n, RunStep(n, s, first).value) < Measure(n, s)
  {
    var s', t := RunStep(n, s, first).value, s.T(first);
    assert s'.T(!first) == s.T(!first) && s'.counter == s.counter;
    assert ThreadMeasure(n, s', !first) == ThreadMeasure(n, s, !first);
    if !first && s.ready == 0 && t.pc != Hello {
      assert Forward([Write(Ready, 1)], Counter, s.counter) == s.counter;
    }
  }

  lemma DrainLowersMeasure(n: nat, s: State, first: bool)
    requires Inv(n, s) && DrainStep(s, first).Some?
    ensures Measure(n, DrainStep(s, first).value) < Measure(n, s)
  {
    var s', t := DrainStep(s, first).value, s.T(first);
    assert ThreadMeasure(n, s', first) < ThreadMeasure(n, s, first);
    assert ThreadMeasure(n, s', !first) <= ThreadMeasure(n, s, !first);
  }

  lemma HelpfulHelps(n: nat, s: State)
    requires Inv(n, s) && !Finished(s)
    ensures Step(n, s, Helpful(s)).Some?
    ensures Measure(n, Step(n, s, Helpful(s)).value) < Measure(n, s)
  {
    match Helpful(s) {
      case Drain(first) => DrainLowersMeasure(n, s, first);
      case Run(first) =>
        assert !Waits(n, s, first);
        RunLowersMeasure(n, s, first);
    }
  }

  function TheSystem(n: nat): System<State, Action> {
    System(Init(), (s, a) => Step(n, s, a), s => Finished(s))
  }

  function TheRanking(n: nat): Ranking<State, Action> {
    Ranking(s => Inv(n, s), s => if Measure(n, s) >= 0 then Measure(n, s) else 0, s => Helpful(s))
  }

  lemma FinishedIsStuck(n: nat, s: State, a: Action)
    requires Finished(s)
    ensures Step(n, s, a) == None
  {
  }

  lemma StepDoesNoHarm(n: nat, s: State, a: Action)
    ensures DoesNoHarm(TheSystem(n), TheRanking(n), s, a)
  {
    if Inv(n, s) && Step(n, s, a).Some? {
      StepKeepsInv(n, s, a);
      MeasureIsNat(n, s);
      MeasureIsNat(n, Step(n, s, a).value);
      match a {
        case Run(first) =>
          if Waits(n, s, first) { WaitingChangesNothing(n, s, first); } else { RunLowersMeasure(n, s, first); }
        case Drain(first) => DrainLowersMeasure(n, s, first);
      }
    }
  }

  lemma RankingRanks(n: nat)
    ensures Ranks(TheSystem(n), TheRanking(n))
  {
    var sys, rk := TheSystem(n), TheRanking(n);
    forall s, a ensures DoesNoHarm(sys, rk, s, a) {
      StepDoesNoHarm(n, s, a);
    }
    forall s ensures Helps(sys, rk, s) {
      if Inv(n, s) && !Finished(s) {
        HelpfulHelps(n, s);
        StepKeepsInv(n, s, Helpful(s));
        MeasureIsNat(n, Step(n, s, Helpful(s)).value);
      }
    }
    forall s | Finished(s) ensures Stuck(sys, s) {
      forall a ensures sys.step(s, a) == None {
        FinishedIsStuck(n, s, a);
      }
    }
  }

  /** Every weakly fair infinite run finishes, with the counter at 2n or 2n - 1. */
  lemma FairRunsEnd(n: nat, run: nat -> State, sched: nat -> Action) returns (k: nat)
    requires IsRun(TheSystem(n), run, sched) && IsFair(TheSystem(n), run, sched)
    ensures Finished(run(k)) && run(k).t1.round == n
    ensures run(k).counter == 2 * n || (n >= 1 && run(k).counter == 2 * n - 1)
  {
    RankingRanks(n);
    k := FairRunsFinish(TheSystem(n), TheRanking(n), run, sched, 0);
    assert Inv(n, run(k));
  }

  lemma SomeFairRun(n: nat) returns (run: nat -> State, sched: nat -> Action)
    ensures IsRun(TheSystem(n), run, sched) && IsFair(TheSystem(n), run, sched)
  {
    RankingRanks(n);
    run, sched := FairRunExists(TheSystem(n), TheRanking(n));
  }
}
