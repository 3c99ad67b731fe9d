/** The tasks' own code, instruction by instruction: `task_a`, `task_b` and `idle_task` with the print routine they
    share. A timer tick may come between any two instructions. Each task's position is its EIP, and what it has on
    its stack there (return address, EAX, EBX) survives every preemption. */
module TaskCode {
  import opened Scheduler

  const WORD_LIMIT := 0x1_0000_0000
  const STACK_USE := 68   // a task's own call, an interrupt frame and a call of the handler

  type Task = t: int | 0 <= t < 3

  datatype Half = High | Low

  datatype DigitSpot =
    MovBl | ShrBl | AndBl | CmpBl | JbeDigit | AddLetter | AddZero | MovBh | StoreWord | AddEdi

  /** The instructions, in program order: a task's loop, then `print_hex8_at_edi`. */
  datatype Spot =
    | IncCounter(t: Task) | LoadCounter(t: Task) | MaskEax(t: Task) | MovEdi(t: Task) | CallPrint(t: Task)
    | MovEcx(t: Task) | DecEcx(t: Task) | JnzDelay(t: Task) | SetIf(t: Task) | JmpLoop(t: Task)
    | PushEax | PushEbx | Digit(half: Half, d: DigitSpot) | PopEbx | PopEax | Ret

  datatype Reg = Eax | Ebx

  datatype Instr =
    | Local(f: Context -> Context)
    | IncWord(addr: int)
    | LoadEax(addr: int)
    | Push(r: Reg)
    | Pop(r: Reg)
    | Call(target: Spot)
    | Return
    | Branch(taken: Context -> bool, target: Spot)

  /** Where the assembler has put each instruction and its inverse, and the three tasks' constants. */
  datatype Program = Program(
    place: Spot -> int, spot: int -> Spot, counter: Task -> int, video: Task -> int, delay: Task -> int)

  /** A 32-bit word at `a` outside the task stacks and the boot stack. */
  predicate OffStacks(base: int, a: int) {
    (a + 4 <= Lo(base, 0) || Hi(base, 2) <= a) && (a + 4 <= BOOT_LO || BOOT_TOP <= a)
  }

  /** Instructions have addresses of their own, the counters are words apart from each other and from the stacks,
      and the delays fit in ECX. */
  ghost predicate GoodProgram(g: Program, base: int) {
    && (forall p :: g.spot(g.place(p)) == p)
    && (forall t: Task :: OffStacks(base, g.counter(t)) && 0 <= g.delay(t) < WORD_LIMIT)
    && (forall t: Task, u: Task :: t != u ==> g.counter(t) + 4 <= g.counter(u) || g.counter(u) + 4 <= g.counter(t))
  }

  function DigitAt(k: int): DigitSpot {
    match k
    case 0 => MovBl case 1 => ShrBl case 2 => AndBl case 3 => CmpBl case 4 => JbeDigit
    case 5 => AddLetter case 6 => AddZero case 7 => MovBh case 8 => StoreWord case _ => AddEdi
  }

  function DigitIndex(d: DigitSpot): (k: int)
    ensures 0 <= k < 10 && DigitAt(k) == d
  {
    match d
    case MovBl => 0 case ShrBl => 1 case AndBl => 2 case CmpBl => 3 case JbeDigit => 4
    case AddLetter => 5 case AddZero => 6 case MovBh => 7 case StoreWord => 8 case AddEdi => 9
  }

  function LoopSpot(t: Task, k: int): Spot {
    match k
    case 0 => IncCounter(t) case 1 => LoadCounter(t) case 2 => MaskEax(t) case 3 => MovEdi(t) case 4 => CallPrint(t)
    case 5 => MovEcx(t) case 6 => DecEcx(t) case 7 => JnzDelay(t) case 8 => SetIf(t) case _ => JmpLoop(t)
  }

  function SpotAt(a: int): Spot {
    if 0 <= a < 10 then LoopSpot(0, a) else if 10 <= a < 20 then LoopSpot(1, a - 10)
    else if 20 <= a < 30 then LoopSpot(2, a - 20)
    else if 30 <= a < 40 then Digit(High, DigitAt(a - 30)) else if 40 <= a < 50 then Digit(Low, DigitAt(a - 40))
    else match a case 50 => PushEax case 51 => PushEbx case 52 => PopEbx case 53 => PopEax case _ => Ret
  }

  function AddressOf(p: Spot): (a: int)
    ensures SpotAt(a) == p
  {
    match p
    case IncCounter(t) => 10 * t case LoadCounter(t) => 10 * t + 1 case MaskEax(t) => 10 * t + 2
    case MovEdi(t) => 10 * t + 3 case CallPrint(t) => 10 * t + 4 case MovEcx(t) => 10 * t + 5
    case DecEcx(t) => 10 * t + 6 case JnzDelay(t) => 10 * t + 7 case SetIf(t) => 10 * t + 8
    case JmpLoop(t) => 10 * t + 9
    case Digit(half, d) => (if half == High then 30 else 40) + DigitIndex(d)
    case PushEax => 50 case PushEbx => 51 case PopEbx => 52 case PopEax => 53 case Ret => 54
  }

  /** There is such a placement; the theorems hold for all of them. */
  lemma SomeProgram(base: int) returns (g: Program)
    requires GoodBase(base)
    ensures GoodProgram(g, base)
  {
    g := Program(p => AddressOf(p), a => SpotAt(a), t => 4 * t, t => 0xB8504 + 40 * t, t => 0x50000);
  }

  // ----- registers and flags -----

  function Bl(c: Context): int { c.ebx % 256 }
  function SetBl(c: Context, b: int): Context { c.(ebx := c.ebx - c.ebx % 256 + b) }
  function SetBh(c: Context, b: int): Context { c.(ebx := c.ebx - c.ebx % 65536 + c.ebx % 256 + 256 * b) }

  function Zf(c: Context): bool { (c.eflags / 64) % 2 == 1 }
  function Cf(c: Context): bool { c.eflags % 2 == 1 }

  /** ZF and CF as given, and nothing but them below bit 9. */
  function WithFlags(c: Context, zf: bool, cf: bool): Context {
    c.(eflags := c.eflags - c.eflags % 512 + (if zf then 64 else 0) + if cf then 1 else 0)
  }

  /** `dec ecx`, which leaves CF. */
  function CountDown(c: Context): Context {
    var left := (c.ecx - 1) % WORD_LIMIT;
    WithFlags(c.(ecx := left), left == 0, Cf(c))
  }

  function WithIf(c: Context): Context { if InterruptsOn(c.eflags) then c else c.(eflags := c.eflags + 512) }

  function Get(c: Context, r: Reg): int { match r case Eax => c.eax case Ebx => c.ebx }
  function Set(c: Context, r: Reg, x: int): Context { match r case Eax => c.(eax := x) case Ebx => c.(ebx := x) }

  function Store(m: Memory, at: int, x: int): Memory { a => if a == at then x else m(a) }

  // ----- the program -----

  function DigitInstr(half: Half, d: DigitSpot): Instr {
    match d
    case MovBl => Local((c: Context) => SetBl(c, c.eax % 256))
    case ShrBl => Local((c: Context) => SetBl(c, Bl(c) / 16))
    case AndBl => Local((c: Context) => SetBl(c, Bl(c) % 16))
    case CmpBl => Local((c: Context) => WithFlags(c, Bl(c) == 9, Bl(c) < 9))
    case JbeDigit => Branch((c: Context) => Zf(c) || Cf(c), Digit(half, AddZero))
    case AddLetter => Local((c: Context) => SetBl(c, (Bl(c) + 7) % 256))
    case AddZero => Local((c: Context) => SetBl(c, (Bl(c) + 48) % 256))
    case MovBh => Local((c: Context) => SetBh(c, 0x0C))
    case StoreWord => Local((c: Context) => c)
    case AddEdi => Local((c: Context) => c.(edi := (c.edi + 2) % WORD_LIMIT))
  }

  function InstrAt(g: Program, p: Spot): Instr {
    match p
    case IncCounter(t) => IncWord(g.counter(t))
    case LoadCounter(t) => LoadEax(g.counter(t))
    case MaskEax(t) => Local((c: Context) => c.(eax := c.eax % 256))
    case MovEdi(t) => Local((c: Context) => c.(edi := g.video(t)))
    case CallPrint(t) => Call(PushEax)
    case MovEcx(t) => Local((c: Context) => c.(ecx := g.delay(t)))
    case DecEcx(t) => Local((c: Context) => CountDown(c))
    case JnzDelay(t) => Branch((c: Context) => !Zf(c), DecEcx(t))
    case SetIf(t) => Local((c: Context) => WithIf(c))
    case JmpLoop(t) => Branch((c: Context) => true, IncCounter(t))
    case PushEax => Push(Eax)
    case PushEbx => Push(Ebx)
    case Digit(half, d) => DigitInstr(half, d)
    case PopEbx => Pop(Ebx)
    case PopEax => Pop(Eax)
    case Ret => Return
  }

  function NextDigit(half: Half, d: DigitSpot): Spot {
    match d
    case MovBl => Digit(half, if half == High then ShrBl else AndBl)
    case ShrBl => Digit(half, AndBl)
    case AndBl => Digit(half, CmpBl)
    case CmpBl => Digit(half, JbeDigit)
    case JbeDigit => Digit(half, AddLetter)
    case AddLetter => Digit(half, AddZero)
    case AddZero => Digit(half, MovBh)
    case MovBh => Digit(half, StoreWord)
    case StoreWord => Digit(half, AddEdi)
    case AddEdi => if half == High then Digit(Low, MovBl) else PopEbx
  }

  /** The instruction after this one; nothing runs on past a `jmp` or a `ret`. */
  function Next(p: Spot): Spot {
    match p
    case IncCounter(t) => LoadCounter(t)
    case LoadCounter(t) => MaskEax(t)
    case MaskEax(t) => MovEdi(t)
    case MovEdi(t) => CallPrint(t)
    case CallPrint(t) => MovEcx(t)
    case MovEcx(t) => DecEcx(t)
    case DecEcx(t) => JnzDelay(t)
    case JnzDelay(t) => SetIf(t)
    case SetIf(t) => JmpLoop(t)
    case JmpLoop(t) => JmpLoop(t)
    case PushEax => PushEbx
    case PushEbx => Digit(High, MovBl)
    case Digit(half, d) => NextDigit(half, d)
    case PopEbx => PopEax
    case PopEax => Ret
    case Ret => Ret
  }

  /** What one instruction does to a processor with this context and memory. */
  function Effect(g: Program, p: Spot, c: Context, m: Memory): (Context, Memory) {
    var next := g.place(Next(p));
    match InstrAt(g, p)
    case Local(f) => (f(c).(eip := next), m)
    case IncWord(addr) => (c.(eip := next), Store(m, addr, (m(addr) + 1) % WORD_LIMIT))
    case LoadEax(addr) => (c.(eax := m(addr), eip := next), m)
    case Push(r) => (c.(esp := c.esp - 4, eip := next), Store(m, c.esp - 4, Get(c, r)))
    case Pop(r) => (Set(c, r, m(c.esp)).(esp := c.esp + 4, eip := next), m)
    case Call(target) => (c.(esp := c.esp - 4, eip := g.place(target)), Store(m, c.esp - 4, next))
    case Return => (c.(esp := c.esp + 4, eip := m(c.esp)), m)
    case Branch(taken, target) => (c.(eip := if taken(c) then g.place(target) else next), m)
  }

  /** One instruction of the running task. */
  function Execute(g: Program, v: View): View {
    var (c, m) := Effect(g, g.spot(v.ctx.eip), v.ctx, v.mem);
    v.(ctx := c, mem := m)
  }

  // ----- where a task stands -----

  /** The words that the routine has on the task's stack. */
  function Depth(p: Spot): nat {
    match p
    case PushEax | Ret => 1
    case PushEbx | PopEax => 2
    case Digit(_, _) | PopEbx => 3
    case _ => 0
  }

  /** An instruction of the task's own loop or of the print routine. */
  predicate MayStand(p: Spot, t: Task) { Depth(p) > 0 || p.t == t }

  ghost predicate Stands(g: Program, base: int, t: Task, p: Spot, c: Context, m: Memory) {
    && MayStand(p, t)
    && c.eip == g.place(p)
    && c.esp == Hi(base, t) - 4 * Depth(p)
    && (Depth(p) > 0 ==> m(Hi(base, t) - 4) == g.place(MovEcx(t)))
    && InterruptsOn(c.eflags)
  }

  /** EAX, EBX and EIP as the task's loop has them or will get them back: behind the call they are on the stack. */
  datatype Caller = Caller(eax: int, ebx: int, eip: int)

  function CallerAt(base: int, t: Task, depth: nat, c: Context, m: Memory): Caller {
    var hi := Hi(base, t);
    Caller(if depth >= 2 then m(hi - 8) else c.eax,
           if depth >= 3 then m(hi - 12) else c.ebx,
           if depth >= 1 then m(hi - 4) else c.eip)
  }

  /** Register code keeps ESP and does not clear IF. */
  predicate Quiet(c: Context, c': Context) {
    c'.esp == c.esp && (InterruptsOn(c.eflags) ==> InterruptsOn(c'.eflags))
  }

  lemma FlagsKeepIf(c: Context, zf: bool, cf: bool)
    ensures InterruptsOn(WithFlags(c, zf, cf).eflags) == InterruptsOn(c.eflags)
  {
    var low := (if zf then 64 else 0) + if cf then 1 else 0;
    assert c.eflags == 512 * (c.eflags / 512) + c.eflags % 512;
    assert WithFlags(c, zf, cf).eflags == 512 * (c.eflags / 512) + low;
  }

  lemma CountDownIsQuiet(c: Context)
    ensures Quiet(c, CountDown(c))
  {
    var left := (c.ecx - 1) % WORD_LIMIT;
    FlagsKeepIf(c.(ecx := left), left == 0, Cf(c));
  }

  lemma StiKeepsIf(c: Context)
    ensures InterruptsOn(c.eflags) ==> InterruptsOn(WithIf(c).eflags)
  {
  }

  lemma DigitIsQuiet(half: Half, d: DigitSpot, c: Context)
    requires DigitInstr(half, d).Local?
    ensures Quiet(c, DigitInstr(half, d).f(c)) && Depth(NextDigit(half, d)) == 3
  {
    if d == CmpBl {
      FlagsKeepIf(c, Bl(c) == 9, Bl(c) < 9);
    }
  }

  lemma LocalIsQuiet(g: Program, p: Spot, c: Context)
    requires InstrAt(g, p).Local?
    ensures Quiet(c, InstrAt(g, p).f(c))
    ensures Depth(Next(p)) == Depth(p) && Depth(p) in {0, 3}
  {
    match p {
      case DecEcx(t) => CountDownIsQuiet(c);
      case Digit(half, d) => DigitIsQuiet(half, d, c);
      case SetIf(t) => StiKeepsIf(c);
      case _ =>
    }
  }

  /** The instruction after which a task stands at its next place. */
  function After(p: Spot, taken: bool, t: Task): Spot {
    match p
    case CallPrint(_) => PushEax
    case Ret => MovEcx(t)
    case JnzDelay(u) => if taken then DecEcx(u) else Next(p)
    case JmpLoop(u) => IncCounter(u)
    case Digit(half, JbeDigit) => if taken then Digit(half, AddZero) else Next(p)
    case _ => Next(p)
  }

  function Taken(g: Program, p: Spot, c: Context): bool {
    match InstrAt(g, p) case Branch(taken, _) => taken(c) case _ => false
  }

  /** Each instruction, wherever the task stands: it goes on to its next place with the stack as that has it, and
      what the loop will get back from the routine is the same before and after. */
  lemma InstructionStands(g: Program, base: int, t: Task, p: Spot, c: Context, m: Memory)
    requires GoodProgram(g, base) && Stands(g, base, t, p, c, m)
    ensures var (c', m') := Effect(g, p, c, m);
            var p' := After(p, Taken(g, p, c), t);
            && Stands(g, base, t, p', c', m')
            && (Depth(p) > 0 ==> CallerAt(base, t, Depth(p'), c', m') == CallerAt(base, t, Depth(p), c, m))
  {
    if InstrAt(g, p).Local? {
      LocalIsQuiet(g, p, c);
    }
  }

  /** It writes at most the top 12 bytes of the task's stack and a counter. */
  lemma InstructionWrites(g: Program, base: int, t: Task, p: Spot, c: Context, m: Memory)
    requires GoodProgram(g, base) && Stands(g, base, t, p, c, m)
    ensures StacksKept(base, m, Effect(g, p, c, m).1, Hi(base, t) - SCRATCH, Hi(base, t))
  {
  }

  // ----- whole runs, with ticks between any two instructions -----

  /** Before the first tick the boot code enables interrupts and halts, again and again. */
  ghost predicate BootStep(v: View, v': View) {
    v' == v.(ctx := v.ctx.(eip := v'.ctx.eip, eflags := v'.ctx.eflags))
  }

  ghost predicate ProgramStep(g: Program, e: Event, v: View, v': View) {
    if e == Timer then Tick(v, v') else if v.started then v' == Execute(g, v) else BootStep(v, v')
  }

  ghost predicate ProgramStepsAt(g: Program, views: seq<View>, events: seq<Event>, i: nat) {
    i < |events| && i + 1 < |views| && ProgramStep(g, events[i], views[i], views[i + 1])
  }

  ghost predicate IsProgramRun(g: Program, views: seq<View>, events: seq<Event>) {
    |views| == |events| + 1 && forall i :: 0 <= i < |events| ==> ProgramStepsAt(g, views, events, i)
  }

  function Entries(g: Program): seq<int> {
    [g.place(IncCounter(0)), g.place(IncCounter(1)), g.place(IncCounter(2))]
  }

  /** The state that set-up leaves: a frame at the entry of each task's loop. */
  ghost predicate ProgramStart(g: Program, base: int, cs: int, v: View) {
    GoodProgram(g, base) && Initialised(base, Entries(g), cs, v) && v.ctx.esp % 4 == 0
  }

  /** Where task `t` stands, running or not. */
  function SpotOf(g: Program, base: int, v: View, t: Task): Spot
    requires Inv(base, v)
  {
    g.spot(VirtualContext(base, v, t).eip)
  }

  ghost predicate TaskStands(g: Program, base: int, v: View, t: Task)
    requires Inv(base, v)
  {
    Stands(g, base, t, SpotOf(g, base, v, t), VirtualContext(base, v, t), v.mem)
  }

  ghost predicate AllStand(g: Program, base: int, v: View) {
    GoodProgram(g, base) && Inv(base, v) && forall t: Task :: TaskStands(g, base, v, t)
  }

  /** What task `t`'s loop has, or will get back from the routine it is in. */
  function CallerOf(g: Program, base: int, v: View, t: Task): Caller
    requires Inv(base, v)
  {
    CallerAt(base, t, Depth(SpotOf(g, base, v, t)), VirtualContext(base, v, t), v.mem)
  }

  lemma StartStands(g: Program, base: int, cs: int, v: View)
    requires ProgramStart(g, base, cs, v)
    ensures AllStand(g, base, v)
  {
    InitialisedInv(base, Entries(g), cs, v);
    forall t: Task ensures TaskStands(g, base, v, t) {
      assert VirtualContext(base, v, t) == FreshContext(base, Entries(g), cs, t);
      assert Entries(g)[t] == g.place(IncCounter(t));
    }
  }

  /** A step that is transparent to a task leaves it where it stands, with what it will get back. */
  lemma SameTaskStands(g: Program, base: int, v: View, v': View, t: Task)
    requires Inv(base, v) && TaskStands(g, base, v, t) && SameTask(base, v, v', t)
    ensures TaskStands(g, base, v', t) && SpotOf(g, base, v', t) == SpotOf(g, base, v, t)
    ensures CallerOf(g, base, v', t) == CallerOf(g, base, v, t)
  {
  }

  /** One instruction of the running task is a step that the scheduler's theorems allow, using at most 12 bytes of
      its stack, and the task stands at its next place. */
  lemma ExecuteIsTaskStep(g: Program, base: int, v: View)
    requires AllStand(g, base, v) && v.started
    ensures TaskStep(base, v, Execute(g, v)) && Shallow(base, SCRATCH, Work, v, Execute(g, v))
    ensures var t: Task, v' := v.current, Execute(g, v);
            Inv(base, v') && TaskStands(g, base, v', t)
            && (Depth(SpotOf(g, base, v, t)) > 0 ==> CallerOf(g, base, v', t) == CallerOf(g, base, v, t))
  {
    var t: Task := v.current;
    assert TaskStands(g, base, v, t);
    var p := SpotOf(g, base, v, t);
    InstructionStands(g, base, t, p, v.ctx, v.mem);
    InstructionWrites(g, base, t, p, v.ctx, v.mem);
    TaskStepKeepsInv(base, v, Execute(g, v));
  }

  lemma BootStepIsTaskStep(base: int, v: View, v': View)
    requires Inv(base, v) && BootStep(v, v') && !v.started
    ensures TaskStep(base, v, v')
  {
  }

  /** Every step of a run is one of the scheduler's, keeps every task standing and its way back, and is shallow. */
  lemma ProgramStepStands(g: Program, base: int, e: Event, v: View, v': View)
    requires AllStand(g, base, v) && ProgramStep(g, e, v, v')
    ensures AllStand(g, base, v') && StepOf(base, e, v, v') && Shallow(base, SCRATCH, e, v, v')
    ensures forall t: Task :: Depth(SpotOf(g, base, v, t)) > 0 ==> CallerOf(g, base, v', t) == CallerOf(g, base, v, t)
  {
    var t0: Task := v.current;
    assert TaskStands(g, base, v, t0);
    if e == Work {
      if v.started {
        ExecuteIsTaskStep(g, base, v);
      } else {
        BootStepIsTaskStep(base, v, v');
      }
    }
    forall t: Task
      ensures Inv(base, v') && TaskStands(g, base, v', t)
      ensures Depth(SpotOf(g, base, v, t)) > 0 ==> CallerOf(g, base, v', t) == CallerOf(g, base, v, t)
    {
      OwnProcessor(base, e, v, v', t);
      if !(e == Work && Running(v, t)) {
        assert TaskStands(g, base, v, t);
        SameTaskStands(g, base, v, v', t);
      }
    }
  }

  lemma {:induction false} ProgramRunStands(g: Program, base: int, views: seq<View>, events: seq<Event>, i: nat)
    requires IsProgramRun(g, views, events) && AllStand(g, base, views[0]) && i < |views|
    ensures AllStand(g, base, views[i])
    ensures i > 0 ==> StepsAt(base, views, events, i - 1) && ShallowAt(base, SCRATCH, views, events, i - 1)
  {
    if i > 0 {
      ProgramRunStands(g, base, views, events, i - 1);
      assert ProgramStepsAt(g, views, events, i - 1);
      ProgramStepStands(g, base, events[i - 1], views[i - 1], views[i]);
    }
  }

  /** Every run of the program is a run in the scheduler's sense. */
  lemma ProgramRunIsRun(g: Program, base: int, views: seq<View>, events: seq<Event>)
    requires IsProgramRun(g, views, events) && AllStand(g, base, views[0])
    ensures IsRun(base, views, events)
    ensures forall k :: 0 <= k < |events| ==> ShallowAt(base, SCRATCH, views, events, k)
  {
    forall k | 0 <= k < |events| ensures StepsAt(base, views, events, k) && ShallowAt(base, SCRATCH, views, events, k) {
      ProgramRunStands(g, base, views, events, k + 1);
    }
  }

  /** The stack bound of this program, with nothing assumed of its code: however the ticks fall, no word of a task
      stack deeper than 68 of its 1024 bytes is ever written. */
  lemma ProgramStacksStayShallow(
    g: Program, base: int, cs: int, views: seq<View>, events: seq<Event>, t: Task, i: nat)
    requires IsProgramRun(g, views, events) && ProgramStart(g, base, cs, views[0]) && i < |views|
    ensures DeepPartSame(base, STACK_USE, views[0], views[i], t)
  {
    StartStands(g, base, cs, views[0]);
    ProgramRunIsRun(g, base, views, events);
    StacksStayShallow(base, Entries(g), cs, SCRATCH, views, events, t, i);
  }

  /** And every stack pointer stays a multiple of 4. */
  lemma ProgramStaysAligned(g: Program, base: int, cs: int, views: seq<View>, events: seq<Event>, i: nat)
    requires IsProgramRun(g, views, events) && ProgramStart(g, base, cs, views[0]) && i < |views|
    ensures Aligned(views[i])
  {
    StartStands(g, base, cs, views[0]);
    ProgramRunIsRun(g, base, views, events);
    InitialisedAligned(base, Entries(g), cs, views[0]);
    forall k | 0 <= k < |views| ensures views[k].ctx.esp % 4 == 0 {
      EspAligned(g, base, cs, views, events, k);
    }
    StacksStayAligned(base, views, events, i);
  }

  lemma InitialisedAligned(base: int, entry: seq<int>, cs: int, v: View)
    requires Initialised(base, entry, cs, v) && v.ctx.esp % 4 == 0
    ensures Aligned(v)
  {
    forall t | 0 <= t < 3 ensures v.saved[t] % 4 == 0 {
      assert v.saved[t] == base + STACK * t + STACK - FRAME;
    }
  }

  lemma FourTimes(k: int)
    ensures (4 * k) % 4 == 0
  {
  }

  lemma TopAligned(base: int, t: Task, depth: nat)
    requires GoodBase(base)
    ensures (Hi(base, t) - 4 * depth) % 4 == 0
  {
    var q := base / 16;
    assert base == 16 * q;
    FourTimes(4 * q + 256 * t + 256 - depth);
  }

  lemma RunningAligned(g: Program, base: int, v: View)
    requires AllStand(g, base, v) && v.started
    ensures v.ctx.esp % 4 == 0
  {
    var t: Task := v.current;
    assert TaskStands(g, base, v, t);
    TopAligned(base, t, Depth(SpotOf(g, base, v, t)));
  }

  lemma {:induction false} EspAligned(
    g: Program, base: int, cs: int, views: seq<View>, events: seq<Event>, i: nat)
    requires IsProgramRun(g, views, events) && ProgramStart(g, base, cs, views[0]) && i < |views|
    ensures views[i].ctx.esp % 4 == 0
  {
    if i > 0 {
      StartStands(g, base, cs, views[0]);
      ProgramRunStands(g, base, views, events, i);
      assert ProgramStepsAt(g, views, events, i - 1);
      if views[i].started {
        RunningAligned(g, base, views[i]);
      } else {
        EspAligned(g, base, cs, views, events, i - 1);
      }
    }
  }

  /** From index `i` until `j` the task is in the print routine. */
  ghost predicate InRoutine(g: Program, base: int, views: seq<View>, t: Task, i: nat, j: nat) {
    i <= j <= |views| && forall k :: i <= k < j ==> Inv(base, views[k]) && Depth(SpotOf(g, base, views[k], t)) > 0
  }

  lemma RoutineStep(g: Program, base: int, views: seq<View>, events: seq<Event>, t: Task, h: nat)
    requires IsProgramRun(g, views, events) && AllStand(g, base, views[0]) && h + 1 < |views|
    ensures Inv(base, views[h]) && Inv(base, views[h + 1])
    ensures Depth(SpotOf(g, base, views[h], t)) > 0 ==>
              CallerOf(g, base, views[h + 1], t) == CallerOf(g, base, views[h], t)
  {
    ProgramRunStands(g, base, views, events, h);
    assert ProgramStepsAt(g, views, events, h);
    ProgramStepStands(g, base, events[h], views[h], views[h + 1]);
  }

  ghost predicate SameCaller(g: Program, base: int, v: View, v': View, t: Task) {
    Inv(base, v) && Inv(base, v') && CallerOf(g, base, v', t) == CallerOf(g, base, v, t)
  }

  lemma {:induction false} RoutineKeepsCaller(
    g: Program, base: int, views: seq<View>, events: seq<Event>, t: Task, i: nat, j: nat)
    requires IsProgramRun(g, views, events) && AllStand(g, base, views[0])
    requires j < |views| && InRoutine(g, base, views, t, i, j)
    ensures SameCaller(g, base, views[i], views[j], t)
    decreases j
  {
    if i == j {
      ProgramRunStands(g, base, views, events, j);
    } else {
      var h := j - 1;
      assert InRoutine(g, base, views, t, i, h);
      RoutineKeepsCaller(g, base, views, events, t, i, h);
      RoutineStep(g, base, views, events, t, h);
      assert SameCaller(g, base, views[h], views[j], t);
    }
  }

  /** A call of the print routine that is preempted at any instructions, any number of times, returns: the task is
      then at the instruction behind the call with its stack empty and EAX and EBX as they were at the call. */
  lemma CallReturnsIntact(g: Program, base: int, views: seq<View>, events: seq<Event>, t: Task, i: nat, j: nat)
    requires IsProgramRun(g, views, events) && AllStand(g, base, views[0]) && i < j < |views|
    requires Inv(base, views[i]) && SpotOf(g, base, views[i], t) == PushEax && InRoutine(g, base, views, t, i, j)
    requires Inv(base, views[j]) && Depth(SpotOf(g, base, views[j], t)) == 0
    ensures var c, c' := VirtualContext(base, views[i], t), VirtualContext(base, views[j], t);
            SpotOf(g, base, views[j], t) == MovEcx(t) && c'.esp == Hi(base, t) && c'.eax == c.eax && c'.ebx == c.ebx
  {
    RoutineKeepsCaller(g, base, views, events, t, i, j);
    ProgramRunStands(g, base, views, events, i);
    ProgramRunStands(g, base, views, events, j);
    assert TaskStands(g, base, views[i], t) && TaskStands(g, base, views[j], t);
    assert SameCaller(g, base, views[i], views[j], t);
  }
}
