/** The litmus harness on a sequentially consistent machine, where a store reaches memory in the step that
    issues it and the fence does nothing, and the proof that the fenced TSO machine and this one have the same
    runs: a drain of TSO is the store of SC. */
module LitmusRefinement {
  import opened StoreBuffer
  import opened Litmus

  datatype ScWorker = ScWorker(pc: WorkPc, round: nat, reg: int)

  datatype ScState = ScState(
    mem: Mem, mpc: MainPc, i: nat, detected: nat, w1: ScWorker, w2: ScWorker, begin1: nat, begin2: nat, end: nat)
  {
    function W(k: Wid): ScWorker { if k == First then w1 else w2 }
    function SetW(k: Wid, w: ScWorker): ScState { if k == First then this.(w1 := w) else this.(w2 := w) }
    function Sem(k: Wid): nat { if k == First then begin1 else begin2 }
    function SetSem(k: Wid, v: nat): ScState { if k == First then this.(begin1 := v) else this.(begin2 := v) }
  }

  function ScMainStep(n: nat, s: ScState): Option<ScState> {
    match s.mpc
    case ClearX => Some(s.(mem := s.mem.(x := 0), mpc := ClearY))
    case ClearY => Some(s.(mem := s.mem.(y := 0), mpc := ClearR1))
    case ClearR1 => Some(s.(mem := s.mem.(r1 := -1), mpc := ClearR2))
    case ClearR2 => Some(s.(mem := s.mem.(r2 := -1), mpc := Post1))
    case Post1 => Some(s.(begin1 := s.begin1 + 1, mpc := Post2))
    case Post2 => Some(s.(begin2 := s.begin2 + 1, mpc := Wait1))
    case Wait1 => if s.end == 0 then None else Some(s.(end := s.end - 1, mpc := Wait2))
    case Wait2 => if s.end == 0 then None else Some(s.(end := s.end - 1, mpc := Check1))
    case Check1 =>
      if s.mem.r1 == 0 then Some(s.(mpc := Check2))
      else Some(s.(i := s.i + 1, mpc := if s.i + 1 < n then ClearX else MainEnd))
    case Check2 =>
      var found := if s.mem.r2 == 0 then 1 else 0;
      Some(s.(detected := s.detected + found, i := s.i + 1, mpc := if s.i + 1 < n then ClearX else MainEnd))
    case MainEnd => None
  }

  function ScWorkStep(n: nat, s: ScState, k: Wid): Option<ScState> {
    var w := s.W(k);
    match w.pc
    case Begin => if s.Sem(k) == 0 then None else Some(s.SetSem(k, s.Sem(k) - 1).SetW(k, w.(pc := StoreOwn)))
    case StoreOwn => Some(s.(mem := s.mem.Set(Own(k), 1)).SetW(k, w.(pc := Barrier)))
    case Barrier => Some(s.SetW(k, w.(pc := LoadOther)))
    case LoadOther => Some(s.SetW(k, w.(reg := s.mem.Get(Other(k)), pc := Publish)))
    case Publish => Some(s.(mem := s.mem.Set(Res(k), w.reg)).SetW(k, w.(pc := PostEnd)))
    case PostEnd =>
      Some(s.(end := s.end + 1)
            .SetW(k, w.(round := w.round + 1, pc := if w.round + 1 < n then Begin else WorkEnd)))
    case WorkEnd => None
  }

  function ScStep(n: nat, s: ScState, t: Tid): Option<ScState> {
    match t case Main => ScMainStep(n, s) case Work(k) => ScWorkStep(n, s, k)
  }

  function ScInit(n: nat, m: Mem): ScState {
    var w := ScWorker(if 0 < n then Begin else WorkEnd, 0, 0);
    ScState(m, if 0 < n then ClearX else MainEnd, 0, 0, w, w, 0, 0, 0)
  }

  function ScExec(n: nat, s: ScState, sched: seq<Tid>): Option<ScState> {
    if sched == [] then Some(s)
    else match ScExec(n, s, sched[..|sched| - 1])
      case None => None
      case Some(mid) => ScStep(n, mid, sched[|sched| - 1])
  }

  predicate ScFinished(s: ScState) { s.mpc == MainEnd && s.w1.pc == WorkEnd && s.w2.pc == WorkEnd }

  lemma ScAppend(n: nat, s0: ScState, sched: seq<Tid>, s: ScState, t: Tid)
    requires ScExec(n, s0, sched) == Some(s)
    ensures ScExec(n, s0, sched + [t]) == ScStep(n, s, t)
  {
    assert (sched + [t])[..|sched|] == sched;
  }

  // ----- the abstraction: a thread with pending stores has not issued them yet -----

  function AbsMainPc(mpc: MainPc, pending: nat): MainPc {
    if pending == 0 || pending > ClearPos(mpc) then mpc
    else [ClearX, ClearY, ClearR1, ClearR2][ClearPos(mpc) - pending]
  }

  function AbsWorker(w: Worker): ScWorker {
    var pc :=
      if w.buf == [] then w.pc else if w.pc == Barrier then StoreOwn else if w.pc == PostEnd then Publish else w.pc;
    ScWorker(pc, w.round, w.reg)
  }

  function Abs(s: State): ScState {
    ScState(s.mem, AbsMainPc(s.mpc, |s.mbuf|), s.i, s.detected, AbsWorker(s.w1), AbsWorker(s.w2),
            s.begin1, s.begin2, s.end)
  }

  /** Issuing a store changes nothing abstractly; every other action is one SC step of the same thread. */
  predicate Simulates(c: Config, s: State, s': State, t: Tid) {
    Abs(s') == Abs(s) || ScStep(c.rounds, Abs(s), t) == Some(Abs(s'))
  }

  function Actor(a: Action): Tid { match a case Run(t) => t case Drain(t) => t }

  lemma MainSimulates(c: Config, s: State)
    requires c.fence && Inv(c, s) && MainStep(c, s).Some?
    ensures Simulates(c, s, MainStep(c, s).value, Main)
  {
    var s' := MainStep(c, s).value;
    if ClearPos(s.mpc) >= 0 && s.mpc != Post1 {
      assert AbsMainPc(s'.mpc, |s'.mbuf|) == AbsMainPc(s.mpc, |s.mbuf|);
      assert Abs(s') == Abs(s);
    } else {
      assert s.mbuf == [] && s'.mbuf == [];
      assert ScMainStep(c.rounds, Abs(s)) == Some(Abs(s'));
    }
  }

  lemma MainDrainSimulates(c: Config, s: State)
    requires c.fence && Inv(c, s) && DrainStep(s, Main).Some?
    ensures Simulates(c, s, DrainStep(s, Main).value, Main)
  {
    assert s.mbuf[0] == Clear(ClearPos(s.mpc) - |s.mbuf|);
  }

  /** The fence and the semaphores make every step but a store start from an empty buffer. */
  lemma OnlyStoresLeavePending(c: Config, s: State, k: Wid)
    requires c.fence && Inv(c, s) && WorkStep(c, s, k).Some?
    ensures s.W(k).buf == []
  {
    WorkStepOwnInv(c, s, k);
  }

  lemma WorkStoreIsSilent(c: Config, s: State, k: Wid)
    requires s.W(k).buf == [] && s.W(k).pc in {StoreOwn, Publish}
    ensures Abs(WorkStep(c, s, k).value) == Abs(s)
  {
    var s' := WorkStep(c, s, k).value;
    assert AbsWorker(s'.W(k)) == AbsWorker(s.W(k)) && s'.W(Peer(k)) == s.W(Peer(k));
  }

  lemma WorkStepIsScStep(c: Config, s: State, k: Wid)
    requires s.W(k).buf == [] && s.W(k).pc !in {StoreOwn, Publish} && WorkStep(c, s, k).Some?
    ensures ScWorkStep(c.rounds, Abs(s), k) == Some(Abs(WorkStep(c, s, k).value))
  {
    var s' := WorkStep(c, s, k).value;
    assert s'.W(k).buf == [] && s'.W(Peer(k)) == s.W(Peer(k));
  }

  lemma WorkSimulates(c: Config, s: State, k: Wid)
    requires c.fence && Inv(c, s) && WorkStep(c, s, k).Some?
    ensures Simulates(c, s, WorkStep(c, s, k).value, Work(k))
  {
    OnlyStoresLeavePending(c, s, k);
    if s.W(k).pc in {StoreOwn, Publish} {
      WorkStoreIsSilent(c, s, k);
    } else {
      WorkStepIsScStep(c, s, k);
    }
  }

  lemma WorkDrainSimulates(c: Config, s: State, k: Wid)
    requires c.fence && Inv(c, s) && DrainStep(s, Work(k)).Some?
    ensures Simulates(c, s, DrainStep(s, Work(k)).value, Work(k))
  {
    assert InRound(c, s, k);
    assert |s.W(k).buf| == 1;
  }

  lemma StepSimulates(c: Config, s: State, a: Action)
    requires c.fence && Inv(c, s) && Step(c, s, a).Some?
    ensures Simulates(c, s, Step(c, s, a).value, Actor(a))
  {
    match a {
      case Run(Main) => MainSimulates(c, s);
      case Run(Work(k)) => WorkSimulates(c, s, k);
      case Drain(Main) => MainDrainSimulates(c, s);
      case Drain(Work(k)) => WorkDrainSimulates(c, s, k);
    }
  }

  /** Refinement: every run of the fenced TSO machine is, through the abstraction, a run of the SC machine. */
  lemma {:induction false} FencedTsoRefinesSc(c: Config, m: Mem, acts: seq<Action>, s: State)
    returns (sched: seq<Tid>)
    requires c.fence && Exec(c, Init(c, m), acts) == Some(s)
    ensures ScExec(c.rounds, ScInit(c.rounds, m), sched) == Some(Abs(s))
    ensures Abs(s).detected == s.detected && (Finished(s) ==> ScFinished(Abs(s)))
  {
    if acts == [] {
      sched := [];
    } else {
      var front, a := acts[..|acts| - 1], acts[|acts| - 1];
      var mid := Exec(c, Init(c, m), front).value;
      sched := FencedTsoRefinesSc(c, m, front, mid);
      RunKeepsInv(c, m, front);
      StepSimulates(c, mid, a);
      if Abs(s) != Abs(mid) {
        ScAppend(c.rounds, ScInit(c.rounds, m), sched, Abs(mid), Actor(a));
        sched := sched + [Actor(a)];
      }
    }
  }

  // ----- the other direction: SC runs are TSO runs whose stores drain at once, fence or no fence -----

  function Embed(s: ScState): State {
    State(s.mem, s.mpc, s.i, s.detected, [],
          Worker(s.w1.pc, s.w1.round, s.w1.reg, []), Worker(s.w2.pc, s.w2.round, s.w2.reg, []),
          s.begin1, s.begin2, s.end)
  }

  predicate IsStore(s: ScState, t: Tid) {
    match t
    case Main => s.mpc in {ClearX, ClearY, ClearR1, ClearR2}
    case Work(k) => s.W(k).pc in {StoreOwn, Publish}
  }

  lemma ScMainEmbeds(c: Config, s: ScState)
    requires ScMainStep(c.rounds, s).Some?
    ensures var s' := Embed(ScMainStep(c.rounds, s).value);
            if IsStore(s, Main) then
              MainStep(c, Embed(s)).Some? && DrainStep(MainStep(c, Embed(s)).value, Main) == Some(s')
            else MainStep(c, Embed(s)) == Some(s')
  {
    if IsStore(s, Main) {
      var buf := MainStep(c, Embed(s)).value.mbuf;
      assert |buf| == 1 && buf[1..] == [];
    }
  }

  lemma ScWorkEmbeds(c: Config, s: ScState, k: Wid)
    requires ScWorkStep(c.rounds, s, k).Some?
    ensures var s' := Embed(ScWorkStep(c.rounds, s, k).value);
            if IsStore(s, Work(k)) then
              WorkStep(c, Embed(s), k).Some? && DrainStep(WorkStep(c, Embed(s), k).value, Work(k)) == Some(s')
            else WorkStep(c, Embed(s), k) == Some(s')
  {
    if IsStore(s, Work(k)) {
      var w := WorkStep(c, Embed(s), k).value.W(k);
      assert |w.buf| == 1 && w.buf[1..] == [];
    }
  }

  lemma ScStepEmbeds(c: Config, s: ScState, t: Tid)
    requires ScStep(c.rounds, s, t).Some?
    ensures var s' := Embed(ScStep(c.rounds, s, t).value);
            if IsStore(s, t) then
              Step(c, Embed(s), Run(t)).Some? && Step(c, Step(c, Embed(s), Run(t)).value, Drain(t)) == Some(s')
            else Step(c, Embed(s), Run(t)) == Some(s')
  {
    match t {
      case Main => ScMainEmbeds(c, s);
      case Work(k) => ScWorkEmbeds(c, s, k);
    }
  }

  lemma {:induction false} ScRunsAreTsoRuns(c: Config, m: Mem, sched: seq<Tid>, s: ScState)
    returns (acts: seq<Action>)
    requires ScExec(c.rounds, ScInit(c.rounds, m), sched) == Some(s)
    ensures Leads(c, Init(c, m), acts, Embed(s))
  {
    if sched == [] {
      acts := [];
    } else {
      var front, t := sched[..|sched| - 1], sched[|sched| - 1];
      var mid := ScExec(c.rounds, ScInit(c.rounds, m), front).value;
      acts := ScRunsAreTsoRuns(c, m, front, mid);
      ScStepEmbeds(c, mid, t);
      var x := Append(c, Init(c, m), acts, Embed(mid), Run(t));
      acts := acts + [Run(t)];
      if IsStore(mid, t) {
        var _ := Append(c, Init(c, m), acts, x, Drain(t));
        acts := acts + [Drain(t)];
      }
    }
  }

  /** A harness run on the SC machine never compares two zeros, with or without the fence: it is a run of the
      fenced TSO machine too. */
  lemma ScNeverReorders(n: nat, m: Mem, sched: seq<Tid>, s: ScState)
    requires ScExec(n, ScInit(n, m), sched) == Some(s)
    ensures s.detected == 0
    ensures s.mpc in {Check1, Check2} ==> (s.mem.r1, s.mem.r2) in {(0, 1), (1, 0), (1, 1)}
  {
    var acts := ScRunsAreTsoRuns(Config(n, true), m, sched, s);
    FenceForbidsReordering(Config(n, true), m, acts, Embed(s));
  }

  /** A state of shared memory, counter and round that a machine can finish in. */
  ghost predicate TsoFinishes(c: Config, m: Mem, mem: Mem, detected: nat) {
    exists acts, s :: Leads(c, Init(c, m), acts, s) && Finished(s) && s.mem == mem && s.detected == detected
  }

  ghost predicate ScFinishes(n: nat, m: Mem, mem: Mem, detected: nat) {
    exists sched, s ::
      ScExec(n, ScInit(n, m), sched) == Some(s) && ScFinished(s) && s.mem == mem && s.detected == detected
  }

  /** The fence restores sequential consistency: final memory and count range over the same values. */
  lemma FenceRestoresSc(n: nat, m: Mem, mem: Mem, detected: nat)
    ensures TsoFinishes(Config(n, true), m, mem, detected) <==> ScFinishes(n, m, mem, detected)
  {
    var c := Config(n, true);
    if TsoFinishes(c, m, mem, detected) {
      var acts, s :| Leads(c, Init(c, m), acts, s) && Finished(s) && s.mem == mem && s.detected == detected;
      var sched := FencedTsoRefinesSc(c, m, acts, s);
      assert ScExec(n, ScInit(n, m), sched) == Some(Abs(s)) && ScFinished(Abs(s));
    }
    if ScFinishes(n, m, mem, detected) {
      var sched, s :|
        ScExec(n, ScInit(n, m), sched) == Some(s) && ScFinished(s) && s.mem == mem && s.detected == detected;
      var acts := ScRunsAreTsoRuns(c, m, sched, s);
      assert Leads(c, Init(c, m), acts, Embed(s)) && Finished(Embed(s));
    }
  }
}
