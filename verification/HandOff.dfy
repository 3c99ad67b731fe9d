/** The flag hand-off of a producer and a consumer over one shared counter, on x86-TSO: safety over every run,
    and termination of every weakly fair infinite run. `fenced` keeps the program's `__sync_synchronize` calls
    or drops them: first-in-first-out buffers make the hand-off correct either way. */
module HandOff {
  import opened StoreBuffer
  import opened Fairness

  datatype Loc = Counter | Flag

  datatype Role = Producer | Consumer

  /** Spin loads the flag, SpinFence is the fence inside the busy wait. */
  datatype Pc = Spin | SpinFence | LoadCounter | StoreCounter | Fence | StoreFlag | Done

  datatype Player = Player(pc: Pc, round: nat, reg: int, buf: seq<Write<Loc>>)

  datatype Config = Config(rounds: nat, fenced: bool)

  datatype State = State(counter: int, flag: int, producer: Player, consumer: Player) {
    function P(r: Role): Player { if r == Producer then producer else consumer }
    function SetP(r: Role, p: Player): State { if r == Producer then this.(producer := p) else this.(consumer := p) }
  }

  datatype Action = Run(r: Role) | Drain(r: Role)

  /** The producer waits for 0 and signals 1, the consumer waits for 1 and signals 0. */
  function Awaits(r: Role): int { if r == Producer then 0 else 1 }
  function Signals(r: Role): int { 1 - Awaits(r) }
  function Peer(r: Role): Role { if r == Producer then Consumer else Producer }

  function LoopHead(c: Config, round: nat): Pc { if round < c.rounds then Spin else Done }

  function RunStep(c: Config, s: State, r: Role): Option<State> {
    var p := s.P(r);
    match p.pc
    case Spin =>
      Some(s.SetP(r, p.(pc := if Forward(p.buf, Flag, s.flag) == Awaits(r) then LoadCounter else SpinFence)))
    case SpinFence => if c.fenced && p.buf != [] then None else Some(s.SetP(r, p.(pc := Spin)))
    case LoadCounter => Some(s.SetP(r, p.(reg := Forward(p.buf, Counter, s.counter), pc := StoreCounter)))
    case StoreCounter => Some(s.SetP(r, p.(buf := p.buf + [Write(Counter, p.reg + 1)], pc := Fence)))
    case Fence => if c.fenced && p.buf != [] then None else Some(s.SetP(r, p.(pc := StoreFlag)))
    case StoreFlag =>
      Some(s.SetP(r, Player(LoopHead(c, p.round + 1), p.round + 1, p.reg, p.buf + [Write(Flag, Signals(r))])))
    case Done => None
  }

  function DrainStep(s: State, r: Role): Option<State> {
    var p := s.P(r);
    if p.buf == [] then None
    else
      var t := s.SetP(r, p.(buf := p.buf[1..]));
      Some(if p.buf[0].loc == Counter then t.(counter := p.buf[0].val) else t.(flag := p.buf[0].val))
  }

  function Step(c: Config, s: State, a: Action): Option<State> {
    match a case Run(r) => RunStep(c, s, r) case Drain(r) => DrainStep(s, r)
  }

  function Init(c: Config): State {
    State(0, 0, Player(LoopHead(c, 0), 0, 0, []), Player(LoopHead(c, 0), 0, 0, []))
  }

  function Exec(c: Config, s: State, acts: seq<Action>): Option<State> {
    if acts == [] then Some(s)
    else match Exec(c, s, acts[..|acts| - 1])
      case None => None
      case Some(mid) => Step(c, mid, acts[|acts| - 1])
  }

  predicate Finished(s: State) {
    s.producer.pc == Done && s.consumer.pc == Done && s.producer.buf == [] && s.consumer.buf == []
  }

  // ----- the inductive invariant -----

  /** The role the flag in memory admits. */
  function Holder(s: State): Role { if s.flag == 0 then Producer else Consumer }

  predicate Waiting(p: Player) { p.pc in {Spin, SpinFence, Done} && p.buf == [] }

  /** The holder has issued its flag store and it has not drained. */
  predicate Signalled(s: State) {
    var p := s.P(Holder(s));
    p.buf != [] && p.buf[|p.buf| - 1].loc == Flag
  }

  predicate HolderInv(c: Config, s: State) {
    var p, sum := s.P(Holder(s)), s.producer.round + s.consumer.round;
    if Signalled(s) then
      && p.pc in {Spin, SpinFence, Done}
      && (|| (p.buf == [Write(Flag, Signals(Holder(s)))] && s.counter == sum)
          || (!c.fenced && p.buf == [Write(Counter, sum), Write(Flag, Signals(Holder(s)))] && s.counter == sum - 1))
    else match p.pc
      case Spin | SpinFence | LoadCounter | Done => p.buf == [] && s.counter == sum
      case StoreCounter => p.buf == [] && s.counter == sum && p.reg == sum
      case Fence | StoreFlag =>
        || (p.buf == [] && s.counter == sum + 1)
        || (p.buf == [Write(Counter, sum + 1)] && s.counter == sum && (c.fenced ==> p.pc == Fence))
  }

  predicate RoundsInv(c: Config, s: State) {
    var a, b := s.producer.round, s.consumer.round;
    && a <= c.rounds && b <= c.rounds
    && (s.producer.pc == Done <==> a == c.rounds)
    && (s.consumer.pc == Done <==> b == c.rounds)
    && a == b + if (Holder(s) == Producer) == Signalled(s) then 1 else 0
  }

  predicate Inv(c: Config, s: State) {
    && (s.flag == 0 || s.flag == 1)
    && Waiting(s.P(Peer(Holder(s))))
    && HolderInv(c, s)
    && RoundsInv(c, s)
  }

  lemma WaiterRuns(c: Config, s: State)
    requires Inv(c, s) && RunStep(c, s, Peer(Holder(s))).Some?
    ensures var r, s' := Peer(Holder(s)), RunStep(c, s, Peer(Holder(s))).value;
            Inv(c, s') && s' == s.SetP(r, s'.P(r)) && s'.P(r) == s.P(r).(pc := s'.P(r).pc)
            && s.P(r).pc in {Spin, SpinFence} && s'.P(r).pc in {Spin, SpinFence}
  {
  }

  lemma HolderRuns(c: Config, s: State)
    requires Inv(c, s) && RunStep(c, s, Holder(s)).Some?
    ensures Inv(c, RunStep(c, s, Holder(s)).value)
  {
    if Signalled(s) {
      SignalledHolderRuns(c, s);
    } else {
      WorkingHolderRuns(c, s);
    }
  }

  lemma SignalledHolderRuns(c: Config, s: State)
    requires Inv(c, s) && RunStep(c, s, Holder(s)).Some? && Signalled(s)
    ensures var h, s' := Holder(s), RunStep(c, s, Holder(s)).value;
            Inv(c, s') && s' == s.SetP(h, s.P(h).(pc := s'.P(h).pc))
            && s.P(h).pc in {Spin, SpinFence} && s'.P(h).pc in {Spin, SpinFence}
  {
    assert Forward(s.P(Holder(s)).buf, Flag, s.flag) == Signals(Holder(s));
  }

  lemma WorkingHolderRuns(c: Config, s: State)
    requires Inv(c, s) && RunStep(c, s, Holder(s)).Some? && !Signalled(s)
    ensures Inv(c, RunStep(c, s, Holder(s)).value)
  {
    var p, s' := s.P(Holder(s)), RunStep(c, s, Holder(s)).value;
    assert s'.flag == s.flag && s'.P(Peer(Holder(s))) == s.P(Peer(Holder(s)));
    assert HolderInv(c, s');
    assert RoundsInv(c, s');
  }

  lemma HolderDrains(c: Config, s: State)
    requires Inv(c, s) && DrainStep(s, Holder(s)).Some?
    ensures Inv(c, DrainStep(s, Holder(s)).value)
  {
    var p, s' := s.P(Holder(s)), DrainStep(s, Holder(s)).value;
    if |p.buf| == 2 {
      assert p.buf[1..] == [p.buf[1]];
      assert Holder(s') == Holder(s) && HolderInv(c, s') && RoundsInv(c, s');
    } else {
      assert p.buf[1..] == [];
      if Signalled(s) {
        assert Holder(s') == Peer(Holder(s));
      }
      assert HolderInv(c, s') && RoundsInv(c, s');
    }
  }

  lemma StepKeepsInv(c: Config, s: State, a: Action)
    requires Inv(c, s) && Step(c, s, a).Some?
    ensures Inv(c, Step(c, s, a).value)
  {
    if a == Run(Holder(s)) {
      HolderRuns(c, s);
    } else if a == Drain(Holder(s)) {
      HolderDrains(c, s);
    } else {
      assert a.r == Peer(Holder(s));
      assert a == Run(a.r);
      WaiterRuns(c, s);
    }
  }

  lemma {:induction false} RunKeepsInv(c: Config, acts: seq<Action>)
    requires Exec(c, Init(c), acts).Some?
    ensures Inv(c, Exec(c, Init(c), acts).value)
  {
    if acts != [] {
      var front, a := acts[..|acts| - 1], acts[|acts| - 1];
      RunKeepsInv(c, front);
      StepKeepsInv(c, Exec(c, Init(c), front).value, a);
    }
  }

  // ----- safety -----

  /** Between seeing its flag value and the drain of its own signal. */
  predicate InCritical(p: Player) { p.pc in {LoadCounter, StoreCounter, Fence, StoreFlag} || p.buf != [] }

  /** In every reachable state: the critical sections do not overlap, whoever loads the counter loads every
      increment made so far, and a finished run has lost none and leaves the flag with the producer. */
  lemma HandOffIsSafe(c: Config, acts: seq<Action>, s: State)
    requires Exec(c, Init(c), acts) == Some(s)
    ensures !(InCritical(s.producer) && InCritical(s.consumer))
    ensures forall r: Role :: s.P(r).pc == LoadCounter ==>
              Forward(s.P(r).buf, Counter, s.counter) == s.producer.round + s.consumer.round
    ensures s.consumer.pc == LoadCounter ==> s.producer.round == s.consumer.round + 1
    ensures Finished(s) ==> s.counter == 2 * c.rounds && s.flag == 0
  {
    RunKeepsInv(c, acts);
    forall r: Role | s.P(r).pc == LoadCounter
      ensures Forward(s.P(r).buf, Counter, s.counter) == s.producer.round + s.consumer.round
    {
      assert r == Holder(s) || r == Peer(Holder(s));
    }
  }

  // ----- liveness -----

  /** A role whose turn it is and that has not signalled leaves its busy wait at its next flag load. */
  predicate Ready(s: State, r: Role) { r == Holder(s) && !Signalled(s) }

  function Weight(pc: Pc, ready: bool): nat {
    match pc
    case Spin => if ready then 6 else 7
    case SpinFence => 7
    case LoadCounter => 5 case StoreCounter => 4 case Fence => 2 case StoreFlag => 1 case Done => 0
  }

  function PlayerMeasure(c: Config, s: State, r: Role): int {
    8 * (c.rounds - s.P(r).round) + Weight(s.P(r).pc, Ready(s, r)) + |s.P(r).buf|
  }

  function Measure(c: Config, s: State): int { PlayerMeasure(c, s, Producer) + PlayerMeasure(c, s, Consumer) }

  /** The action that moves an unfinished state on: drain what the holder has pending, or run the holder. */
  function Helpful(s: State): Action {
    if s.P(Holder(s)).buf != [] then Drain(Holder(s)) else Run(Holder(s))
  }

  lemma HelpfulHelps(c: Config, s: State)
    requires Inv(c, s) && !Finished(s)
    ensures Step(c, s, Helpful(s)).Some?
    ensures Measure(c, Step(c, s, Helpful(s)).value) < Measure(c, s)
  {
    var h := Holder(s);
    var s' := Step(c, s, Helpful(s)).value;
    if s.P(h).buf != [] {
      HolderDrains(c, s);
      assert s'.P(Peer(h)) == s.P(Peer(h));
      assert PlayerMeasure(c, s', h) < PlayerMeasure(c, s, h);
      assert PlayerMeasure(c, s', Peer(h)) <= PlayerMeasure(c, s, Peer(h));
    } else {
      HolderRuns(c, s);
      assert s'.P(Peer(h)) == s.P(Peer(h)) && s'.flag == s.flag;
      assert PlayerMeasure(c, s', h) < PlayerMeasure(c, s, h);
    }
  }

  lemma MeasureIsNat(c: Config, s: State)
    requires Inv(c, s)
    ensures 0 <= Measure(c, s)
  {
  }

  /** The peer of the holder can only go round its busy wait. */
  lemma WaiterDoesNoHarm(c: Config, s: State)
    requires Inv(c, s) && RunStep(c, s, Peer(Holder(s))).Some?
    ensures var s' := RunStep(c, s, Peer(Holder(s))).value;
            Measure(c, s') == Measure(c, s) && Helpful(s') == Helpful(s) && !Finished(s')
  {
    WaiterRuns(c, s);
    var h, s' := Holder(s), RunStep(c, s, Peer(Holder(s))).value;
    assert s'.P(h) == s.P(h) && s'.flag == s.flag;
    assert PlayerMeasure(c, s', h) == PlayerMeasure(c, s, h);
    assert PlayerMeasure(c, s', Peer(h)) == PlayerMeasure(c, s, Peer(h));
  }

  /** A holder with pending stores that runs either spins on its own forwarded signal or makes progress. */
  lemma PendingHolderDoesNoHarm(c: Config, s: State)
    requires Inv(c, s) && RunStep(c, s, Holder(s)).Some? && s.P(Holder(s)).buf != []
    ensures var s' := RunStep(c, s, Holder(s)).value;
            Measure(c, s') <= Measure(c, s) && Helpful(s') == Helpful(s) && !Finished(s')
  {
    var h, s' := Holder(s), RunStep(c, s, Holder(s)).value;
    if Signalled(s) {
      SignalledHolderRuns(c, s);
    }
    assert s'.P(Peer(h)) == s.P(Peer(h)) && s'.flag == s.flag && s'.P(h).buf != [];
    assert PlayerMeasure(c, s', Peer(h)) == PlayerMeasure(c, s, Peer(h));
    assert PlayerMeasure(c, s', h) <= PlayerMeasure(c, s, h);
  }

  /** No step undoes progress, and one that makes none is a busy wait that leaves the helpful action as it was. */
  lemma OtherStepsDoNoHarm(c: Config, s: State, a: Action)
    requires Inv(c, s) && Step(c, s, a).Some?
    ensures var s' := Step(c, s, a).value;
            0 <= Measure(c, s') <= Measure(c, s)
            && (Measure(c, s') == Measure(c, s) ==> Helpful(s') == Helpful(s) && !Finished(s'))
  {
    StepKeepsInv(c, s, a);
    MeasureIsNat(c, Step(c, s, a).value);
    if a == Helpful(s) {
      HelpfulHelps(c, s);
    } else if a.r == Peer(Holder(s)) {
      assert a == Run(a.r);
      WaiterDoesNoHarm(c, s);
    } else {
      assert a == Run(Holder(s)) && s.P(Holder(s)).buf != [];
      PendingHolderDoesNoHarm(c, s);
    }
  }

  function TheSystem(c: Config): System<State, Action> {
    System(Init(c), (s, a) => Step(c, s, a), s => Finished(s))
  }

  function TheRanking(c: Config): Ranking<State, Action> {
    Ranking(s => Inv(c, s), s => if Measure(c, s) >= 0 then Measure(c, s) else 0, s => Helpful(s))
  }

  lemma FinishedIsStuck(c: Config, s: State, a: Action)
    requires Finished(s)
    ensures Step(c, s, a) == None
  {
  }

  lemma RankingRanks(c: Config)
    ensures Ranks(TheSystem(c), TheRanking(c))
  {
    var sys, rk := TheSystem(c), TheRanking(c);
    forall s, a ensures DoesNoHarm(sys, rk, s, a) {
      if Inv(c, s) && Step(c, s, a).Some? {
        StepKeepsInv(c, s, a);
        OtherStepsDoNoHarm(c, s, a);
      }
    }
    forall s ensures Helps(sys, rk, s) {
      if Inv(c, s) && !Finished(s) {
        HelpfulHelps(c, s);
        StepKeepsInv(c, s, Helpful(s));
        MeasureIsNat(c, Step(c, s, Helpful(s)).value);
      }
    }
    forall s | Finished(s) ensures Stuck(sys, s) {
      forall a ensures sys.step(s, a) == None {
        FinishedIsStuck(c, s, a);
      }
    }
  }

  /** No schedule that gives each enabled action a turn can starve the players: every weakly fair infinite run
      finishes with no increment lost. Such runs exist, and no state on the way is stuck. */
  lemma FairRunsFinishSafely(c: Config, run: nat -> State, sched: nat -> Action) returns (k: nat)
    requires IsRun(TheSystem(c), run, sched) && IsFair(TheSystem(c), run, sched)
    ensures Finished(run(k)) && run(k).counter == 2 * c.rounds && run(k).flag == 0
  {
    RankingRanks(c);
    k := FairRunsFinish(TheSystem(c), TheRanking(c), run, sched, 0);
    assert Inv(c, run(k));
  }

  lemma SomeFairRun(c: Config) returns (run: nat -> State, sched: nat -> Action)
    ensures IsRun(TheSystem(c), run, sched) && IsFair(TheSystem(c), run, sched)
  {
    RankingRanks(c);
    run, sched := FairRunExists(TheSystem(c), TheRanking(c));
  }
}
