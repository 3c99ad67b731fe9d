/** The store-buffering litmus harness: two workers and a coordinating main thread in lockstep through three
    semaphores, as a step machine over x86-TSO. One action is one shared access of one thread (with the local
    code up to the next one) or the drain of one pending store. A semaphore operation is a locked instruction,
    so like the fence it needs an empty own buffer. */
module Litmus {
  import opened StoreBuffer

  datatype Loc = X | Y | R1 | R2

  datatype Mem = Mem(x: int, y: int, r1: int, r2: int) {
    function Get(l: Loc): int {
      match l case X => x case Y => y case R1 => r1 case R2 => r2
    }
    function Set(l: Loc, v: int): Mem {
      match l case X => this.(x := v) case Y => this.(y := v) case R1 => this.(r1 := v) case R2 => this.(r2 := v)
    }
  }

  datatype Wid = First | Second
  datatype Tid = Main | Work(k: Wid)

  datatype MainPc = ClearX | ClearY | ClearR1 | ClearR2 | Post1 | Post2 | Wait1 | Wait2 | Check1 | Check2 | MainEnd
  datatype WorkPc = Begin | StoreOwn | Barrier | LoadOther | Publish | PostEnd | WorkEnd

  datatype Worker = Worker(pc: WorkPc, round: nat, reg: int, buf: seq<Write<Loc>>)

  /** `rounds` is `num_iterations` (a negative count runs no round, like 0), `fence` is `with_fence`. */
  datatype Config = Config(rounds: nat, fence: bool)

  datatype State = State(
    mem: Mem,
    mpc: MainPc, i: nat, detected: nat, mbuf: seq<Write<Loc>>,
    w1: Worker, w2: Worker,
    begin1: nat, begin2: nat, end: nat)
  {
    function W(k: Wid): Worker { if k == First then w1 else w2 }
    function SetW(k: Wid, w: Worker): State { if k == First then this.(w1 := w) else this.(w2 := w) }
    function Sem(k: Wid): nat { if k == First then begin1 else begin2 }
    function SetSem(k: Wid, v: nat): State { if k == First then this.(begin1 := v) else this.(begin2 := v) }
  }

  /** A worker stores 1 to its own variable, loads the other's and publishes what it loaded in its result. */
  function Own(k: Wid): Loc { if k == First then X else Y }
  function Other(k: Wid): Loc { if k == First then Y else X }
  function Res(k: Wid): Loc { if k == First then R1 else R2 }

  datatype Action = Run(t: Tid) | Drain(t: Tid)

  function MainStart(c: Config, i: nat): MainPc { if i < c.rounds then ClearX else MainEnd }
  function WorkStart(c: Config, round: nat): WorkPc { if round < c.rounds then Begin else WorkEnd }

  function MainStep(c: Config, s: State): Option<State> {
    match s.mpc
    case ClearX => Some(s.(mbuf := s.mbuf + [Write(X, 0)], mpc := ClearY))
    case ClearY => Some(s.(mbuf := s.mbuf + [Write(Y, 0)], mpc := ClearR1))
    case ClearR1 => Some(s.(mbuf := s.mbuf + [Write(R1, -1)], mpc := ClearR2))
    case ClearR2 => Some(s.(mbuf := s.mbuf + [Write(R2, -1)], mpc := Post1))
    case Post1 => if s.mbuf != [] then None else Some(s.(begin1 := s.begin1 + 1, mpc := Post2))
    case Post2 => if s.mbuf != [] then None else Some(s.(begin2 := s.begin2 + 1, mpc := Wait1))
    case Wait1 => if s.mbuf != [] || s.end == 0 then None else Some(s.(end := s.end - 1, mpc := Wait2))
    case Wait2 => if s.mbuf != [] || s.end == 0 then None else Some(s.(end := s.end - 1, mpc := Check1))
    case Check1 =>
      if Forward(s.mbuf, R1, s.mem.r1) == 0 then Some(s.(mpc := Check2))
      else Some(s.(i := s.i + 1, mpc := MainStart(c, s.i + 1)))
    case Check2 =>
      var found := if Forward(s.mbuf, R2, s.mem.r2) == 0 then 1 else 0;
      Some(s.(detected := s.detected + found, i := s.i + 1, mpc := MainStart(c, s.i + 1)))
    case MainEnd => None
  }

  function WorkStep(c: Config, s: State, k: Wid): Option<State> {
    var w := s.W(k);
    match w.pc
    case Begin =>
      if w.buf != [] || s.Sem(k) == 0 then None
      else Some(s.SetSem(k, s.Sem(k) - 1).SetW(k, w.(pc := StoreOwn)))
    case StoreOwn => Some(s.SetW(k, w.(buf := w.buf + [Write(Own(k), 1)], pc := Barrier)))
    case Barrier => if c.fence && w.buf != [] then None else Some(s.SetW(k, w.(pc := LoadOther)))
    case LoadOther =>
      Some(s.SetW(k, w.(reg := Forward(w.buf, Other(k), s.mem.Get(Other(k))), pc := Publish)))
    case Publish => Some(s.SetW(k, w.(buf := w.buf + [Write(Res(k), w.reg)], pc := PostEnd)))
    case PostEnd =>
      if w.buf != [] then None
      else Some(s.(end := s.end + 1).SetW(k, w.(round := w.round + 1, pc := WorkStart(c, w.round + 1))))
    case WorkEnd => None
  }

  function DrainStep(s: State, t: Tid): Option<State> {
    match t
    case Main =>
      if s.mbuf == [] then None
      else Some(s.(mem := s.mem.Set(s.mbuf[0].loc, s.mbuf[0].val), mbuf := s.mbuf[1..]))
    case Work(k) =>
      var w := s.W(k);
      if w.buf == [] then None
      else Some(s.(mem := s.mem.Set(w.buf[0].loc, w.buf[0].val)).SetW(k, w.(buf := w.buf[1..])))
  }

  function Step(c: Config, s: State, a: Action): Option<State> {
    match a
    case Run(Main) => MainStep(c, s)
    case Run(Work(k)) => WorkStep(c, s, k)
    case Drain(t) => DrainStep(s, t)
  }

  /** `run_classic_test` before its loop: semaphores initialised to 0, threads created, memory whatever an
      earlier call left. */
  function Init(c: Config, m: Mem): State {
    State(m, MainStart(c, 0), 0, 0, [],
          Worker(WorkStart(c, 0), 0, 0, []), Worker(WorkStart(c, 0), 0, 0, []), 0, 0, 0)
  }

  /** The state after a schedule, or None when one of its actions was not enabled. */
  function Exec(c: Config, s: State, acts: seq<Action>): Option<State> {
    if acts == [] then Some(s)
    else match Exec(c, s, acts[..|acts| - 1])
      case None => None
      case Some(mid) => Step(c, mid, acts[|acts| - 1])
  }

  predicate Finished(s: State) {
    s.mpc == MainEnd && s.w1.pc == WorkEnd && s.w2.pc == WorkEnd && s.mbuf == [] && s.w1.buf == [] && s.w2.buf == []
  }

  // ----- the inductive invariant -----

  predicate Posted(mpc: MainPc, k: Wid) {
    mpc in {Wait1, Wait2, Check1, Check2} || (mpc == Post2 && k == First)
  }

  function Consumed(mpc: MainPc): nat {
    if mpc == Wait2 then 1 else if mpc in {Check1, Check2} then 2 else 0
  }

  function Fin(s: State, k: Wid): nat { if s.W(k).round == s.i + 1 then 1 else 0 }

  predicate Resting(w: Worker) { (w.pc == Begin || w.pc == WorkEnd) && w.buf == [] }

  predicate Bit(v: int) { v == 0 || v == 1 }

  /** The worker's own store is still pending and memory holds 0, or it has drained and memory holds 1. */
  predicate OwnStored(s: State, k: Wid) {
    || (s.W(k).buf == [Write(Own(k), 1)] && s.mem.Get(Own(k)) == 0)
    || (s.W(k).buf == [] && s.mem.Get(Own(k)) == 1)
  }

  predicate InRound(c: Config, s: State, k: Wid) {
    var w := s.W(k);
    match w.pc
    case Begin => s.Sem(k) == 1 && w.buf == [] && s.mem.Get(Own(k)) == 0
    case StoreOwn => s.Sem(k) == 0 && w.buf == [] && s.mem.Get(Own(k)) == 0
    case Barrier => s.Sem(k) == 0 && OwnStored(s, k)
    case LoadOther => s.Sem(k) == 0 && OwnStored(s, k) && (c.fence ==> w.buf == [])
    case Publish => s.Sem(k) == 0 && OwnStored(s, k) && (c.fence ==> w.buf == []) && Bit(w.reg)
    case PostEnd =>
      && s.Sem(k) == 0 && Bit(w.reg)
      && (|| (w.buf == [Write(Own(k), 1), Write(Res(k), w.reg)] && s.mem.Get(Own(k)) == 0 && !c.fence)
          || (w.buf == [Write(Res(k), w.reg)] && s.mem.Get(Own(k)) == 1)
          || (w.buf == [] && s.mem.Get(Own(k)) == 1 && s.mem.Get(Res(k)) == w.reg))
    case WorkEnd => false
  }

  predicate WorkerInv(c: Config, s: State, k: Wid) {
    var w := s.W(k);
    && w.round <= c.rounds
    && (w.pc == WorkEnd <==> w.round == c.rounds)
    && if !Posted(s.mpc, k) then
         w.round == s.i && Resting(w) && s.Sem(k) == 0
       else if w.round == s.i + 1 then
         Resting(w) && s.Sem(k) == 0 && Bit(w.reg) && s.mem.Get(Own(k)) == 1 && s.mem.Get(Res(k)) == w.reg
       else
         w.round == s.i && InRound(c, s, k)
  }

  function ClearPos(mpc: MainPc): int {
    match mpc case ClearX => 0 case ClearY => 1 case ClearR1 => 2 case ClearR2 => 3 case Post1 => 4 case _ => -1
  }

  /** Main's four clearing stores. */
  function Clear(p: int): Write<Loc> {
    if p == 0 then Write(X, 0) else if p == 1 then Write(Y, 0) else if p == 2 then Write(R1, -1) else Write(R2, -1)
  }

  /** Main has issued the first `p` clearing stores; the last of them are pending and the others in memory. */
  predicate ClearInv(p: nat, mbuf: seq<Write<Loc>>, mem: Mem) {
    && |mbuf| <= p <= 4
    && (forall k :: 0 <= k < |mbuf| ==> mbuf[k] == Clear(p - |mbuf| + k))
    && (p - |mbuf| > 0 ==> mem.x == 0)
    && (p - |mbuf| > 1 ==> mem.y == 0)
    && (p - |mbuf| > 2 ==> mem.r1 == -1)
    && (p - |mbuf| > 3 ==> mem.r2 == -1)
  }

  predicate MainInv(c: Config, s: State) {
    && s.i <= c.rounds
    && (s.mpc == MainEnd <==> s.i == c.rounds)
    && var p := ClearPos(s.mpc);
       if p < 0 then
         && s.mbuf == []
         && (s.mpc == Post2 ==> s.mem.y == 0)
         && (s.mpc == Check2 ==> s.mem.r1 == 0)
       else ClearInv(p, s.mbuf, s.mem)
  }

  /** The worker has executed its load of the current round. */
  predicate Loaded(s: State, k: Wid) {
    Posted(s.mpc, k) && (s.W(k).round == s.i + 1 || s.W(k).pc in {Publish, PostEnd})
  }

  predicate Inv(c: Config, s: State) {
    && MainInv(c, s)
    && WorkerInv(c, s, First) && WorkerInv(c, s, Second)
    && s.end + Consumed(s.mpc) == Fin(s, First) + Fin(s, Second)
    && s.detected <= s.i
    && (c.fence ==> s.detected == 0)
    && (c.fence && Loaded(s, First) && Loaded(s, Second) ==> s.w1.reg == 1 || s.w2.reg == 1)
  }

  lemma NextClear(p: nat, mbuf: seq<Write<Loc>>, mem: Mem)
    requires ClearInv(p, mbuf, mem) && p < 4
    ensures ClearInv(p + 1, mbuf + [Clear(p)], mem)
  {
  }

  lemma ClearKeepsMain(c: Config, s: State)
    requires MainInv(c, s) && s.mpc in {ClearX, ClearY, ClearR1, ClearR2}
    ensures MainInv(c, MainStep(c, s).value)
  {
    NextClear(ClearPos(s.mpc), s.mbuf, s.mem);
  }

  lemma ClearKeepsWorker(c: Config, s: State, k: Wid)
    requires WorkerInv(c, s, k) && s.mpc in {ClearX, ClearY, ClearR1, ClearR2}
    ensures WorkerInv(c, MainStep(c, s).value, k)
  {
    assert !Posted(s.mpc, k);
  }

  lemma ClearKeepsInv(c: Config, s: State)
    requires Inv(c, s) && s.mpc in {ClearX, ClearY, ClearR1, ClearR2}
    ensures Inv(c, MainStep(c, s).value)
  {
    ClearKeepsMain(c, s);
    ClearKeepsWorker(c, s, First);
    ClearKeepsWorker(c, s, Second);
  }

  lemma PostOrWaitKeepsInv(c: Config, s: State)
    requires Inv(c, s) && s.mpc in {Post1, Post2, Wait1, Wait2} && MainStep(c, s).Some?
    ensures Inv(c, MainStep(c, s).value)
  {
    var s' := MainStep(c, s).value;
    assert MainInv(c, s');
    assert WorkerInv(c, s', First);
    assert WorkerInv(c, s', Second);
  }

  lemma CheckKeepsInv(c: Config, s: State)
    requires Inv(c, s) && s.mpc in {Check1, Check2}
    ensures Inv(c, MainStep(c, s).value)
  {
    var s' := MainStep(c, s).value;
    assert s.w1.round == s.w2.round == s.i + 1;
    assert WorkerInv(c, s', First);
    assert WorkerInv(c, s', Second);
  }

  lemma MainStepKeepsInv(c: Config, s: State)
    requires Inv(c, s) && MainStep(c, s).Some?
    ensures Inv(c, MainStep(c, s).value)
  {
    match s.mpc {
      case ClearX | ClearY | ClearR1 | ClearR2 => ClearKeepsInv(c, s);
      case Post1 | Post2 | Wait1 | Wait2 => PostOrWaitKeepsInv(c, s);
      case Check1 | Check2 => CheckKeepsInv(c, s);
    }
  }

  /** Inside a round both shared variables hold 0 or 1, whatever part of the round each worker is in. */
  lemma OtherIsBit(c: Config, s: State, k: Wid)
    requires Inv(c, s) && s.W(k).pc == LoadOther
    ensures Bit(s.mem.Get(Other(k)))
    ensures Forward(s.W(k).buf, Other(k), s.mem.Get(Other(k))) == s.mem.Get(Other(k))
  {
    assert Posted(s.mpc, k);
    assert InRound(c, s, k);
    if k == First {
      assert InRound(c, s, Second) || !Posted(s.mpc, Second) || s.w2.round == s.i + 1;
    } else {
      assert InRound(c, s, First) || s.w1.round == s.i + 1;
    }
  }

  /** A worker's part of the invariant reads only that worker, its semaphore, its two variables and main. */
  lemma WorkerInvFrame(c: Config, s: State, s': State, k: Wid)
    requires WorkerInv(c, s, k)
    requires s'.W(k) == s.W(k) && s'.Sem(k) == s.Sem(k) && s'.mpc == s.mpc && s'.i == s.i
    requires s'.mem.Get(Own(k)) == s.mem.Get(Own(k)) && s'.mem.Get(Res(k)) == s.mem.Get(Res(k))
    ensures WorkerInv(c, s', k)
  {
  }

  lemma WorkStepOwnInv(c: Config, s: State, k: Wid)
    requires Inv(c, s) && WorkStep(c, s, k).Some?
    ensures WorkerInv(c, WorkStep(c, s, k).value, k)
    ensures Posted(s.mpc, k) && s.W(k).round == s.i && InRound(c, s, k)
  {
    if s.W(k).pc == LoadOther {
      OtherIsBit(c, s, k);
    }
  }

  function Peer(k: Wid): Wid { if k == First then Second else First }

  /** The fence at work: the later of two loads finds the earlier worker's store already in memory. */
  lemma WorkStepKeepsFence(c: Config, s: State, k: Wid)
    requires Inv(c, s) && WorkStep(c, s, k).Some? && c.fence
    ensures var s' := WorkStep(c, s, k).value;
            Loaded(s', First) && Loaded(s', Second) ==> s'.w1.reg == 1 || s'.w2.reg == 1
  {
    WorkStepOwnInv(c, s, k);
    if s.W(k).pc == LoadOther {
      OtherIsBit(c, s, k);
      if Loaded(s, Peer(k)) {
        assert WorkerInv(c, s, Peer(k));
        assert s.mem.Get(Own(Peer(k))) == 1;
      }
    }
  }

  lemma WorkStepKeepsCount(c: Config, s: State, k: Wid)
    requires Inv(c, s) && WorkStep(c, s, k).Some?
    ensures var s' := WorkStep(c, s, k).value;
            && s'.end + Consumed(s'.mpc) == Fin(s', First) + Fin(s', Second)
            && s'.detected == s.detected && MainInv(c, s')
  {
    WorkStepOwnInv(c, s, k);
    var s' := WorkStep(c, s, k).value;
    assert Fin(s', Peer(k)) == Fin(s, Peer(k));
  }

  lemma WorkStepKeepsInv(c: Config, s: State, k: Wid)
    requires Inv(c, s) && WorkStep(c, s, k).Some?
    ensures Inv(c, WorkStep(c, s, k).value)
  {
    WorkStepOwnInv(c, s, k);
    WorkerInvFrame(c, s, WorkStep(c, s, k).value, Peer(k));
    WorkStepKeepsCount(c, s, k);
    if c.fence {
      WorkStepKeepsFence(c, s, k);
    }
  }

  lemma MainDrainKeepsInv(c: Config, s: State)
    requires Inv(c, s) && DrainStep(s, Main).Some?
    ensures Inv(c, DrainStep(s, Main).value)
  {
    var s' := DrainStep(s, Main).value;
    var p := ClearPos(s.mpc);
    var n := |s.mbuf|;
    assert p > 0;
    assert s.mbuf[0] == Clear(p - n);
    assert ClearInv(p, s'.mbuf, s'.mem);
  }

  lemma WorkDrainOwnInv(c: Config, s: State, k: Wid)
    requires Inv(c, s) && DrainStep(s, Work(k)).Some?
    ensures Posted(s.mpc, k) && s.W(k).round == s.i && InRound(c, s, k)
    ensures WorkerInv(c, DrainStep(s, Work(k)).value, k)
  {
    var w := s.W(k);
    assert Posted(s.mpc, k) && w.round == s.i && InRound(c, s, k);
    if |w.buf| == 2 {
      assert w.buf[1..] == [Write(Res(k), w.reg)];
    } else {
      assert w.buf[1..] == [];
    }
  }

  lemma WorkDrainKeepsInv(c: Config, s: State, k: Wid)
    requires Inv(c, s) && DrainStep(s, Work(k)).Some?
    ensures Inv(c, DrainStep(s, Work(k)).value)
  {
    WorkDrainOwnInv(c, s, k);
    WorkerInvFrame(c, s, DrainStep(s, Work(k)).value, Peer(k));
  }

  lemma StepKeepsInv(c: Config, s: State, a: Action)
    requires Inv(c, s) && Step(c, s, a).Some?
    ensures Inv(c, Step(c, s, a).value)
  {
    match a {
      case Run(Main) => MainStepKeepsInv(c, s);
      case Run(Work(k)) => WorkStepKeepsInv(c, s, k);
      case Drain(Main) => MainDrainKeepsInv(c, s);
      case Drain(Work(k)) => WorkDrainKeepsInv(c, s, k);
    }
  }

  lemma {:induction false} RunKeepsInv(c: Config, m: Mem, acts: seq<Action>)
    requires Exec(c, Init(c, m), acts).Some?
    ensures Inv(c, Exec(c, Init(c, m), acts).value)
  {
    if acts != [] {
      var front, a := acts[..|acts| - 1], acts[|acts| - 1];
      RunKeepsInv(c, m, front);
      StepKeepsInv(c, Exec(c, Init(c, m), front).value, a);
    }
  }

  // ----- whole-run theorems -----

  /** What main's comparison would load now. */
  function SeenPair(s: State): (int, int) {
    (Forward(s.mbuf, R1, s.mem.r1), Forward(s.mbuf, R2, s.mem.r2))
  }

  predicate AtCheck(s: State) { s.mpc == Check1 || s.mpc == Check2 }

  /** Semaphore lockstep, in both fence modes: when main compares, both workers have finished exactly this
      round and have not touched the next, every buffer has drained and every semaphore is back at 0. */
  lemma Lockstep(c: Config, m: Mem, acts: seq<Action>, s: State)
    requires Exec(c, Init(c, m), acts) == Some(s) && AtCheck(s)
    ensures s.w1.round == s.i + 1 && s.w2.round == s.i + 1
    ensures Resting(s.w1) && Resting(s.w2) && s.mbuf == []
    ensures s.begin1 == 0 && s.begin2 == 0 && s.end == 0
    ensures s.mem.x == 1 && s.mem.y == 1
    ensures SeenPair(s) == (s.w1.reg, s.w2.reg) && Bit(s.w1.reg) && Bit(s.w2.reg)
  {
    RunKeepsInv(c, m, acts);
    assert WorkerInv(c, s, First) && WorkerInv(c, s, Second);
  }

  /** With the fence no run of any length ever counts a reordering or compares a pair of zeros. */
  lemma FenceForbidsReordering(c: Config, m: Mem, acts: seq<Action>, s: State)
    requires c.fence && Exec(c, Init(c, m), acts) == Some(s)
    ensures s.detected == 0
    ensures AtCheck(s) ==> SeenPair(s) in {(0, 1), (1, 0), (1, 1)}
  {
    RunKeepsInv(c, m, acts);
    if AtCheck(s) {
      Lockstep(c, m, acts, s);
    }
  }

  /** No deadlock: the invariant leaves an enabled action in every state that is not finished. */
  lemma UnfinishedCanStep(c: Config, s: State) returns (a: Action)
    requires Inv(c, s) && !Finished(s)
    ensures Step(c, s, a).Some?
  {
    if s.mbuf != [] {
      a := Drain(Main);
    } else if s.w1.buf != [] {
      a := Drain(Work(First));
    } else if s.w2.buf != [] {
      a := Drain(Work(Second));
    } else if MainStep(c, s).Some? {
      a := Run(Main);
    } else if WorkStep(c, s, First).Some? {
      a := Run(Work(First));
    } else {
      a := Run(Work(Second));
      assert WorkerInv(c, s, First) && WorkerInv(c, s, Second);
    }
  }

  function MainWeight(pc: MainPc): nat {
    match pc
    case ClearX => 14 case ClearY => 12 case ClearR1 => 10 case ClearR2 => 8 case Post1 => 6 case Post2 => 5
    case Wait1 => 4 case Wait2 => 3 case Check1 => 2 case Check2 => 1 case MainEnd => 14
  }

  function WorkWeight(pc: WorkPc): nat {
    match pc
    case Begin => 8 case StoreOwn => 7 case Barrier => 5 case LoadOther => 4 case Publish => 3 case PostEnd => 1
    case WorkEnd => 8
  }

  /** How many actions can still follow: a store counts twice until it has drained. */
  function Measure(c: Config, s: State): int {
    14 * (c.rounds - s.i) + MainWeight(s.mpc) + |s.mbuf|
    + 8 * (c.rounds - s.w1.round) + WorkWeight(s.w1.pc) + |s.w1.buf|
    + 8 * (c.rounds - s.w2.round) + WorkWeight(s.w2.pc) + |s.w2.buf|
    - 30
  }

  lemma MeasureIsNat(c: Config, s: State)
    requires Inv(c, s)
    ensures 0 <= Measure(c, s)
  {
  }

  lemma WorkStepDecreases(c: Config, s: State, k: Wid)
    requires Inv(c, s) && WorkStep(c, s, k).Some?
    ensures Measure(c, WorkStep(c, s, k).value) < Measure(c, s)
  {
    var s' := WorkStep(c, s, k).value;
    assert s'.W(Peer(k)) == s.W(Peer(k)) && s'.mbuf == s.mbuf;
  }

  lemma MainStepDecreases(c: Config, s: State)
    requires Inv(c, s) && MainStep(c, s).Some?
    ensures Measure(c, MainStep(c, s).value) < Measure(c, s)
  {
    var s' := MainStep(c, s).value;
    assert s'.w1 == s.w1 && s'.w2 == s.w2;
  }

  lemma DrainDecreases(c: Config, s: State, t: Tid)
    requires DrainStep(s, t).Some?
    ensures Measure(c, DrainStep(s, t).value) < Measure(c, s)
  {
    var s' := DrainStep(s, t).value;
    assert t == Main || t == Work(First) || t == Work(Second);
    assert s'.i == s.i && s'.mpc == s.mpc;
  }

  /** Every action, of whichever thread, brings the run nearer to its end. */
  lemma StepDecreases(c: Config, s: State, a: Action)
    requires Inv(c, s) && Step(c, s, a).Some?
    ensures 0 <= Measure(c, Step(c, s, a).value) < Measure(c, s)
  {
    StepKeepsInv(c, s, a);
    MeasureIsNat(c, Step(c, s, a).value);
    match a {
      case Run(Main) => MainStepDecreases(c, s);
      case Run(Work(k)) => WorkStepDecreases(c, s, k);
      case Drain(t) => DrainDecreases(c, s, t);
    }
  }

  /** Every run ends, whatever the scheduler does: no schedule has more than 30 actions per round. */
  lemma {:induction false} RunsAreBounded(c: Config, m: Mem, acts: seq<Action>)
    requires Exec(c, Init(c, m), acts).Some?
    ensures |acts| + Measure(c, Exec(c, Init(c, m), acts).value) <= 30 * c.rounds
    ensures |acts| <= 30 * c.rounds
  {
    if acts != [] {
      var front, a := acts[..|acts| - 1], acts[|acts| - 1];
      RunsAreBounded(c, m, front);
      RunKeepsInv(c, m, front);
      StepDecreases(c, Exec(c, Init(c, m), front).value, a);
    }
  }

  lemma OneMore(c: Config, s: State, acts: seq<Action>, a: Action)
    requires Exec(c, s, acts).Some? && Step(c, Exec(c, s, acts).value, a).Some?
    ensures Exec(c, s, acts + [a]) == Step(c, Exec(c, s, acts).value, a)
  {
    assert (acts + [a])[..|acts|] == acts;
  }

  /** An unfinished run has a longer one, still within the bound. */
  lemma CanGoOn(c: Config, m: Mem, acts: seq<Action>) returns (a: Action)
    requires Exec(c, Init(c, m), acts).Some? && !Finished(Exec(c, Init(c, m), acts).value)
    ensures Exec(c, Init(c, m), acts + [a]).Some? && |acts| < 30 * c.rounds
  {
    RunKeepsInv(c, m, acts);
    a := UnfinishedCanStep(c, Exec(c, Init(c, m), acts).value);
    OneMore(c, Init(c, m), acts, a);
    RunsAreBounded(c, m, acts + [a]);
  }

  /** Every partial run can be carried on to a finished one. */
  lemma {:induction false} CanFinish(c: Config, m: Mem, acts: seq<Action>) returns (rest: seq<Action>)
    requires Exec(c, Init(c, m), acts).Some?
    ensures var r := Exec(c, Init(c, m), acts + rest); r.Some? && Finished(r.value)
    decreases 30 * c.rounds - |acts|
  {
    if Finished(Exec(c, Init(c, m), acts).value) {
      rest := [];
      assert acts + rest == acts;
    } else {
      var a := CanGoOn(c, m, acts);
      var more := CanFinish(c, m, acts + [a]);
      rest := [a] + more;
      assert acts + rest == (acts + [a]) + more;
    }
  }

  // ----- without the fence every count is reachable -----

  /** All three threads stand at the start of round `i`, with everything drained. */
  predicate RoundStart(c: Config, s: State, i: nat, detected: nat) {
    && i <= c.rounds && s.i == i && s.detected == detected && s.mbuf == []
    && s.mpc == MainStart(c, i)
    && s.w1.pc == s.w2.pc == WorkStart(c, i) && s.w1.round == s.w2.round == i && s.w1.buf == s.w2.buf == []
    && s.begin1 == s.begin2 == s.end == 0
  }

  /** `acts` is a schedule that leads from `s0` to `s`. */
  predicate Leads(c: Config, s0: State, acts: seq<Action>, s: State) { Exec(c, s0, acts) == Some(s) }

  lemma Append(c: Config, s0: State, acts: seq<Action>, s: State, a: Action) returns (s': State)
    requires Leads(c, s0, acts, s) && Step(c, s, a).Some?
    ensures Step(c, s, a) == Some(s') && Leads(c, s0, acts + [a], s')
  {
    s' := Step(c, s, a).value;
    assert (acts + [a])[..|acts|] == acts;
  }

  lemma {:induction false} AppendAll(c: Config, s0: State, acts: seq<Action>, s: State, more: seq<Action>, s': State)
    requires Leads(c, s0, acts, s) && Leads(c, s, more, s')
    ensures Leads(c, s0, acts + more, s')
  {
    if more == [] {
      assert acts + more == acts;
    } else {
      var front, a := more[..|more| - 1], more[|more| - 1];
      AppendAll(c, s0, acts, s, front, Exec(c, s, front).value);
      assert acts + more == (acts + front) + [a];
      var _ := Append(c, s0, acts + front, Exec(c, s, front).value, a);
    }
  }

  /** Main issues one store and it drains at once. */
  lemma StoreAndDrain(c: Config, s0: State, acts: seq<Action>, s: State) returns (acts': seq<Action>, s': State)
    requires Leads(c, s0, acts, s) && s.mpc in {ClearX, ClearY, ClearR1, ClearR2} && s.mbuf == []
    ensures Leads(c, s0, acts', s')
    ensures var w := Clear(ClearPos(s.mpc));
            s' == s.(mem := s.mem.Set(w.loc, w.val), mpc := MainStep(c, s).value.mpc)
  {
    var t := Append(c, s0, acts, s, Run(Main));
    s' := Append(c, s0, acts + [Run(Main)], t, Drain(Main));
    acts' := acts + [Run(Main)] + [Drain(Main)];
  }

  /** Main clears the four variables and releases both workers. */
  lemma OpenRound(c: Config, s: State, i: nat, d: nat) returns (acts: seq<Action>, s': State)
    requires RoundStart(c, s, i, d) && i < c.rounds
    ensures Leads(c, s, acts, s')
    ensures s' == s.(mem := Mem(0, 0, -1, -1), mpc := Wait1, begin1 := 1, begin2 := 1)
  {
    var t;
    acts, t := StoreAndDrain(c, s, [], s);
    acts, t := StoreAndDrain(c, s, acts, t);
    acts, t := StoreAndDrain(c, s, acts, t);
    acts, t := StoreAndDrain(c, s, acts, t);
    assert t == s.(mem := Mem(0, 0, -1, -1), mpc := Post1);
    t := Append(c, s, acts, t, Run(Main)); acts := acts + [Run(Main)];
    s' := Append(c, s, acts, t, Run(Main)); acts := acts + [Run(Main)];
  }

  lemma OwnStoreHidesNothing(k: Wid, m: Mem)
    ensures Forward([Write(Own(k), 1)], Other(k), m.Get(Other(k))) == m.Get(Other(k))
    ensures m.Set(Own(k), 1).Get(Other(k)) == m.Get(Other(k))
  {
  }

  /** One worker takes its semaphore and stores, the store draining at once when `early`. */
  lemma RunToBarrier(c: Config, s: State, k: Wid, early: bool) returns (acts: seq<Action>, s': State)
    requires s.W(k).pc == Begin && s.W(k).buf == [] && s.Sem(k) == 1
    ensures Leads(c, s, acts, s')
    ensures s' == (if early then s.(mem := s.mem.Set(Own(k), 1)) else s).SetSem(k, 0)
                  .SetW(k, s.W(k).(pc := Barrier, buf := if early then [] else [Write(Own(k), 1)]))
  {
    acts, s' := [], s;
    s' := Append(c, s, acts, s', Run(Work(k))); acts := acts + [Run(Work(k))];
    s' := Append(c, s, acts, s', Run(Work(k))); acts := acts + [Run(Work(k))];
    if early {
      s' := Append(c, s, acts, s', Drain(Work(k))); acts := acts + [Drain(Work(k))];
    }
  }

  /** One worker passes its barrier and loads. */
  lemma PassBarrier(c: Config, s: State, k: Wid) returns (acts: seq<Action>, s': State)
    requires s.W(k).pc == Barrier && s.W(k).buf in {[], [Write(Own(k), 1)]} && (c.fence ==> s.W(k).buf == [])
    ensures Leads(c, s, acts, s')
    ensures s' == s.SetW(k, s.W(k).(pc := Publish, reg := s.mem.Get(Other(k))))
  {
    OwnStoreHidesNothing(k, s.mem);
    acts, s' := [], s;
    s' := Append(c, s, acts, s', Run(Work(k))); acts := acts + [Run(Work(k))];
    s' := Append(c, s, acts, s', Run(Work(k))); acts := acts + [Run(Work(k))];
  }

  /** One worker runs from its semaphore to its load, its store draining before the load when `early`. */
  lemma RunToLoad(c: Config, s: State, k: Wid, early: bool) returns (acts: seq<Action>, s': State)
    requires s.W(k).pc == Begin && s.W(k).buf == [] && s.Sem(k) == 1 && (c.fence ==> early)
    ensures Leads(c, s, acts, s')
    ensures s' == (if early then s.(mem := s.mem.Set(Own(k), 1)) else s).SetSem(k, 0)
                  .SetW(k, Worker(Publish, s.W(k).round, s.mem.Get(Other(k)), if early then [] else [Write(Own(k), 1)]))
  {
    OwnStoreHidesNothing(k, s.mem);
    var a1, s1 := RunToBarrier(c, s, k, early);
    var a2, s2 := PassBarrier(c, s1, k);
    AppendAll(c, s, a1, s1, a2, s2);
    acts, s' := a1 + a2, s2;
  }

  /** One worker publishes its load, drains and posts. */
  lemma RunToPost(c: Config, s: State, k: Wid) returns (acts: seq<Action>, s': State)
    requires s.W(k).pc == Publish && s.W(k).buf in {[], [Write(Own(k), 1)]}
    ensures Leads(c, s, acts, s')
    ensures var w := s.W(k);
            var m := if w.buf == [] then s.mem else s.mem.Set(Own(k), 1);
            s' == s.(mem := m.Set(Res(k), w.reg), end := s.end + 1)
                   .SetW(k, Worker(WorkStart(c, w.round + 1), w.round + 1, w.reg, []))
  {
    acts := [];
    var t := s;
    t := Append(c, s, acts, t, Run(Work(k))); acts := acts + [Run(Work(k))];
    if s.W(k).buf != [] {
      t := Append(c, s, acts, t, Drain(Work(k))); acts := acts + [Drain(Work(k))];
    }
    t := Append(c, s, acts, t, Drain(Work(k))); acts := acts + [Drain(Work(k))];
    assert t.W(k).buf == [];
    t := Append(c, s, acts, t, Run(Work(k))); acts := acts + [Run(Work(k))];
    s' := t;
  }

  /** Main takes both posts and compares. */
  lemma CloseRound(c: Config, s: State) returns (acts: seq<Action>, s': State)
    requires s.mpc == Wait1 && s.end == 2 && s.mbuf == []
    ensures Leads(c, s, acts, s')
    ensures s' == s.(mpc := MainStart(c, s.i + 1), end := 0, i := s.i + 1,
                     detected := s.detected + if s.mem.r1 == 0 && s.mem.r2 == 0 then 1 else 0)
  {
    acts := [];
    var t := s;
    t := Append(c, s, acts, t, Run(Main)); acts := acts + [Run(Main)];
    t := Append(c, s, acts, t, Run(Main)); acts := acts + [Run(Main)];
    t := Append(c, s, acts, t, Run(Main)); acts := acts + [Run(Main)];
    if s.mem.r1 == 0 {
      t := Append(c, s, acts, t, Run(Main)); acts := acts + [Run(Main)];
    }
    s' := t;
  }

  /** A whole round can be played with a counted reordering, unless the fence is on, and without one. */
  lemma PlayRound(c: Config, s: State, i: nat, d: nat, reorder: bool) returns (acts: seq<Action>, s': State)
    requires RoundStart(c, s, i, d) && i < c.rounds && (c.fence ==> !reorder)
    ensures Leads(c, s, acts, s')
    ensures RoundStart(c, s', i + 1, if reorder then d + 1 else d)
  {
    var a1, s1 := OpenRound(c, s, i, d);
    var a2, s2 := RunToLoad(c, s1, First, !reorder);
    AppendAll(c, s, a1, s1, a2, s2);
    var a3, s3 := RunToLoad(c, s2, Second, !reorder);
    AppendAll(c, s, a1 + a2, s2, a3, s3);
    var a4, s4 := RunToPost(c, s3, First);
    AppendAll(c, s, a1 + a2 + a3, s3, a4, s4);
    var a5, s5 := RunToPost(c, s4, Second);
    AppendAll(c, s, a1 + a2 + a3 + a4, s4, a5, s5);
    var a6, s6 := CloseRound(c, s5);
    AppendAll(c, s, a1 + a2 + a3 + a4 + a5, s5, a6, s6);
    acts, s' := a1 + a2 + a3 + a4 + a5 + a6, s6;
  }

  /** The first `k` rounds reorder and the rest do not. */
  lemma {:induction false} PlayRounds(c: Config, m: Mem, i: nat, k: nat) returns (acts: seq<Action>, s: State)
    requires k <= i <= c.rounds && (c.fence ==> k == 0)
    ensures Leads(c, Init(c, m), acts, s) && RoundStart(c, s, i, k)
  {
    if i == 0 {
      acts, s := [], Init(c, m);
    } else {
      var reorder := k == i;
      var a1, s1 := PlayRounds(c, m, i - 1, if reorder then k - 1 else k);
      var a2, s2 := PlayRound(c, s1, i - 1, s1.detected, reorder);
      AppendAll(c, Init(c, m), a1, s1, a2, s2);
      acts, s := a1 + a2, s2;
    }
  }

  /** Some run of `run_classic_test` returns `k`. */
  ghost predicate CanReturn(c: Config, m: Mem, k: nat) {
    exists acts, s :: Leads(c, Init(c, m), acts, s) && Finished(s) && s.detected == k
  }

  /** What the harness can return, exactly: 0 with the fence, and every count from 0 to the number of rounds
      without it, from any memory an earlier call left. */
  lemma ReturnValues(c: Config, m: Mem, k: nat)
    ensures CanReturn(c, m, k) <==> k <= if c.fence then 0 else c.rounds
  {
    if k <= if c.fence then 0 else c.rounds {
      var acts, s := PlayRounds(c, m, c.rounds, k);
      assert Leads(c, Init(c, m), acts, s) && Finished(s);
    }
    if CanReturn(c, m, k) {
      var acts, s :| Leads(c, Init(c, m), acts, s) && Finished(s) && s.detected == k;
      RunKeepsInv(c, m, acts);
    }
  }
}
