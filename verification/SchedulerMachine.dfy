/** The handler code itself, instruction group by instruction group, on a processor whose registers and memory
    change in place: `isr_irq0`, `scheduler_switch`, `build_initial_frame` and `init_scheduler`. The interrupt
    gate keeps IF clear until `iretd`, so one timer interrupt runs to its end. */
module SchedulerMachine {
  import opened Scheduler
  import opened TaskCode
  import opened Builds

  const PCB_WORDS := 24          // three blocks of 32 bytes
  const TICK_VIDEO := 0xb8070
  const LOAD_BASE := 0x60000
  const RETURN_SITE := 0         // whatever a call pushes: only `ret` reads it

  function HexDigit(nibble: int): int { if nibble <= 9 then 48 + nibble else 55 + nibble }

  lemma FrameKept(m: Memory, m': Memory, f: int)
    requires forall a :: f <= a < f + FRAME ==> m'(a) == m(a)
    ensures ContextAt(m', f) == ContextAt(m, f)
  {
  }

  /** Task `t`, entered at `start`, has its frame at the top of its stack. */
  predicate FrameBuilt(base: int, mem: Memory, t: int, start: int, code: int) {
    ContextAt(mem, Hi(base, t) - FRAME) == Context(0, 0, 0, 0, 0, 0, 0, start, code, 0x202, Hi(base, t))
  }

  /** The frames of three tasks entered at `a`, `b` and `c`. */
  predicate FramesBuilt(base: int, mem: Memory, a: int, b: int, c: int, code: int) {
    FrameBuilt(base, mem, 0, a, code) && FrameBuilt(base, mem, 1, b, code) && FrameBuilt(base, mem, 2, c, code)
  }

  lemma ThreeFrames(base: int, m0: Memory, m1: Memory, m2: Memory, a: int, b: int, c: int, code: int)
    requires FrameBuilt(base, m0, 0, a, code) && FrameBuilt(base, m1, 1, b, code) && FrameBuilt(base, m2, 2, c, code)
    requires StacksKept(base, m0, m1, Lo(base, 1), Hi(base, 1)) && StacksKept(base, m1, m2, Lo(base, 2), Hi(base, 2))
    ensures FramesBuilt(base, m2, a, b, c, code)
  {
    FrameKept(m0, m2, Hi(base, 0) - FRAME);
    FrameKept(m1, m2, Hi(base, 1) - FRAME);
  }

  lemma FramesInitialise(base: int, a: int, b: int, c: int, code: int, v: View)
    requires GoodBase(base) && !v.started && v.current == 0 && GoodEsp(v.ctx.esp, BOOT_LO, BOOT_TOP)
    requires |v.saved| == 3
    requires v.saved[0] == Hi(base, 0) - FRAME && v.saved[1] == Hi(base, 1) - FRAME && v.saved[2] == Hi(base, 2) - FRAME
    requires FramesBuilt(base, v.mem, a, b, c, code)
    ensures Initialised(base, [a, b, c], code, v)
  {
  }

  /** The ESP fields of the three control blocks. */
  function SavedEsps(pcb: seq<int>): seq<int>
    requires |pcb| == PCB_WORDS
  {
    [pcb[0], pcb[8], pcb[16]]
  }

  lemma SaveOne(pcb: seq<int>, t: int, esp: int)
    requires |pcb| == PCB_WORDS && 0 <= t < 3
    ensures SavedEsps(pcb[8 * t := esp]) == SavedEsps(pcb)[t := esp]
    ensures SavedEsps(pcb)[t] == pcb[8 * t]
  {
  }

  /** `ctx` is what the frame at `f` resumes. */
  predicate LoadedFrom(mem: Memory, f: int, ctx: Context) { ctx == ContextAt(mem, f) }

  /** The frame pushed below `esp` holds `ctx`. */
  predicate FrameHolds(mem: Memory, esp: int, ctx: Context) { ContextAt(mem, esp - FRAME) == ctx }

  lemma FrameStays(m: Memory, framed: Memory, m': Memory, esp: int, ctx: Context)
    requires FrameHolds(framed, esp, ctx) && ChangedOnly(m, framed, esp - FRAME, esp)
    requires ChangedOnly(framed, m', esp - FRAME - SCRATCH, esp - FRAME)
    ensures FrameHolds(m', esp, ctx) && ChangedOnly(m, m', esp - FRAME - SCRATCH, esp)
  {
    FrameKept(framed, m', esp - FRAME);
  }

  /** On the first tick the handler's frame lies on the boot stack and its call on task A's. */
  lemma FirstTickIsTick(base: int, v: View, framed: Memory, v': View)
    requires Inv(base, v) && InterruptsOn(v.ctx.eflags) && !v.started
    requires FrameHolds(framed, v.ctx.esp, v.ctx)
    requires ChangedOnly(v.mem, framed, v.ctx.esp - FRAME - SCRATCH, v.ctx.esp)
    requires v'.started && v'.current == 0 && v'.saved == v.saved
    requires ChangedOnly(framed, v'.mem, v.saved[0] - SCRATCH, v.saved[0]) && LoadedFrom(v'.mem, v.saved[0], v'.ctx)
    ensures Tick(v, v')
  {
    assert Parked(base, v, 0);
    FrameKept(framed, v'.mem, v.ctx.esp - FRAME);
  }

  /** On a later tick both lie on the interrupted task's stack. */
  lemma NormalTickIsTick(base: int, v: View, framed: Memory, v': View)
    requires Inv(base, v) && InterruptsOn(v.ctx.eflags) && v.started
    requires FrameHolds(framed, v.ctx.esp, v.ctx)
    requires ChangedOnly(v.mem, framed, v.ctx.esp - FRAME - SCRATCH, v.ctx.esp)
    requires v'.started && v'.current == (v.current + 1) % 3 && v'.saved == v.saved[v.current := v.ctx.esp - FRAME]
    requires ChangedOnly(framed, v'.mem, v.ctx.esp - FRAME - SCRATCH, v.ctx.esp - FRAME)
    requires LoadedFrom(v'.mem, v'.saved[v'.current], v'.ctx)
    ensures Tick(v, v')
  {
    FrameKept(framed, v'.mem, v.ctx.esp - FRAME);
  }

  lemma StandsWithIf(g: Program, base: int, v: View)
    requires AllStand(g, base, v) && v.started
    ensures InterruptsOn(v.ctx.eflags)
  {
    var t: Task := v.current;
    assert TaskStands(g, base, v, t);
  }

  lemma RunGrows(g: Program, views: seq<View>, events: seq<Event>, e: Event, v': View)
    requires IsProgramRun(g, views, events) && ProgramStep(g, e, views[|events|], v')
    ensures IsProgramRun(g, views + [v'], events + [e])
  {
    var views', events' := views + [v'], events + [e];
    forall i | 0 <= i < |events'| ensures ProgramStepsAt(g, views', events', i) {
      if i < |events| {
        assert ProgramStepsAt(g, views, events, i);
      }
    }
  }

  lemma RunFacts(g: Program, base: int, views: seq<View>, events: seq<Event>)
    requires IsProgramRun(g, views, events) && AllStand(g, base, views[0]) && !views[0].started
    ensures var v := views[|events|]; Ticks(events) > 0 ==> v.started && v.current == (Ticks(events) - 1) % 3
  {
    ProgramRunIsRun(g, base, views, events);
    RoundRobin(base, views, events, |events|);
    assert events[..|events|] == events;
  }

  /** Returning from set-up and enabling interrupts change neither frames nor control blocks. */
  lemma ReadyToRun(g: Program, base: int, cs: int, v: View, v': View)
    requires GoodProgram(g, base) && Initialised(base, Entries(g), cs, v)
    requires v'.mem == v.mem && v'.saved == v.saved && v'.current == v.current && v'.started == v.started
    requires v'.ctx.esp == BOOT_TOP
    ensures ProgramStart(g, base, cs, v')
  {
  }

  class Machine {
    var eax: int
    var ebx: int
    var ecx: int
    var edx: int
    var esi: int
    var edi: int
    var ebp: int
    var esp: int
    var eip: int
    var cs: int
    var eflags: int
    var mem: Memory
    const pcb: array<int>
    var currentTask: int
    var schedulerStarted: int
    var irq0Ticks: int

    constructor (mem: Memory)
      ensures Valid() && fresh(pcb)
      ensures schedulerStarted == 0 && esp == BOOT_TOP == 0x90000 && this.mem == mem
    {
      eax, ebx, ecx, edx, esi, edi, ebp, eip, cs, eflags := 0, 0, 0, 0, 0, 0, 0, 0, 0, 0;
      esp := BOOT_TOP;
      this.mem := mem;
      pcb := new int[PCB_WORDS](i => 0);
      currentTask, schedulerStarted, irq0Ticks := 0, 0, 0;
    }

    ghost predicate Valid()
      reads this
    {
      pcb.Length == PCB_WORDS
    }

    function Registers(): Context
      reads this
    {
      Context(edi, esi, ebp, ebx, edx, ecx, eax, eip, cs, eflags, esp)
    }

    ghost function TheView(): View
      reads this, pcb
      requires Valid()
    {
      View(Registers(), mem, SavedEsps(pcb[..]), currentTask, schedulerStarted != 0)
    }

    method Push(v: int)
      modifies `esp, `mem
      ensures esp == old(esp) - 4 && mem(esp) == v
      ensures forall a :: a != esp ==> mem(a) == old(mem)(a)
    {
      esp := esp - 4;
      var m, at := mem, esp;
      mem := a => if a == at then v else m(a);
    }

    method Pop() returns (v: int)
      modifies `esp
      ensures esp == old(esp) + 4 && v == mem(old(esp))
    {
      v := mem(esp);
      esp := esp + 4;
    }

    /** What the processor does on an interrupt through an interrupt gate. */
    method EnterInterrupt(handler: int)
      modifies `esp, `mem, `eflags, `eip
      ensures esp == old(esp) - 12
      ensures mem(esp) == old(eip) && mem(esp + 4) == cs && mem(esp + 8) == old(eflags)
      ensures forall a :: !(esp <= a < old(esp)) ==> mem(a) == old(mem)(a)
    {
      var m, f, oldFlags, oldCs, oldEip := mem, esp - 12, eflags, cs, eip;
      mem := a => if a == f then oldEip else if a == f + 4 then oldCs else if a == f + 8 then oldFlags else m(a);
      esp := f;
      eip := handler;
      eflags := if (eflags / 512) % 2 == 1 then eflags - 512 else eflags;
    }

    method Pushad()
      modifies `esp, `mem
      ensures esp == old(esp) - 32
      ensures mem(esp) == edi && mem(esp + 4) == esi && mem(esp + 8) == ebp && mem(esp + 12) == old(esp)
      ensures mem(esp + 16) == ebx && mem(esp + 20) == edx && mem(esp + 24) == ecx && mem(esp + 28) == eax
      ensures forall a :: !(esp <= a < old(esp)) ==> mem(a) == old(mem)(a)
    {
      var m, f, at := mem, esp - 32, esp;
      var words := [edi, esi, ebp, at, ebx, edx, ecx, eax];
      mem := a => if f <= a < at && (a - f) % 4 == 0 then words[(a - f) / 4] else m(a);
      esp := f;
    }

    method Popad()
      modifies `edi, `esi, `ebp, `ebx, `edx, `ecx, `eax, `esp
      ensures esp == old(esp) + 32
      ensures edi == mem(old(esp)) && esi == mem(old(esp) + 4) && ebp == mem(old(esp) + 8)
      ensures ebx == mem(old(esp) + 16) && edx == mem(old(esp) + 20)
      ensures ecx == mem(old(esp) + 24) && eax == mem(old(esp) + 28)
    {
      edi, esi, ebp := mem(esp), mem(esp + 4), mem(esp + 8);
      ebx, edx, ecx, eax := mem(esp + 16), mem(esp + 20), mem(esp + 24), mem(esp + 28);
      esp := esp + 32;
    }

    method Iretd()
      modifies `eip, `cs, `eflags, `esp
      ensures eip == mem(old(esp)) && cs == mem(old(esp) + 4) && eflags == mem(old(esp) + 8) && esp == old(esp) + 12
    {
      eip, cs, eflags := mem(esp), mem(esp + 4), mem(esp + 8);
      esp := esp + 12;
    }

    /** `call print_hex8_at_edi`: two characters, built in BX, for video memory at EDI; EDI ends behind them and
        all else is restored. */
    method PrintHex8()
      modifies `esp, `mem, `edi, `eax, `ebx
      ensures esp == old(esp) && eax == old(eax) && ebx == old(ebx) && edi == old(edi) + 4
      ensures ChangedOnly(old(mem), mem, esp - SCRATCH, esp)
    {
      Push(RETURN_SITE);
      Push(eax);
      Push(ebx);
      ebx := 0x0C00 + HexDigit(eax / 16 % 16);
      edi := edi + 2;
      ebx := 0x0C00 + HexDigit(eax % 16);
      edi := edi + 2;
      ebx := Pop();
      eax := Pop();
      var _ := Pop();
    }

    /** `call update_run_at_schd`: shows the letter of the current task; EDI is lost, EAX and EBX are restored. */
    method UpdateRun()
      modifies `esp, `mem, `edi, `eax, `ebx
      ensures esp == old(esp) && eax == old(eax) && ebx == old(ebx)
      ensures ChangedOnly(old(mem), mem, esp - SCRATCH, esp)
    {
      Push(RETURN_SITE);
      Push(eax);
      Push(ebx);
      ebx := currentTask;
      edi := LOAD_BASE;
      eax := 0x0E00;
      ebx := Pop();
      eax := Pop();
      var _ := Pop();
    }

    /** The whole frame of an interrupt: what the processor pushes and what `pushad` adds. */
    method SaveFrame(handler: int)
      modifies `esp, `mem, `eflags, `eip
      ensures esp == old(esp) - FRAME && FrameHolds(mem, old(esp), old(Registers()))
      ensures ChangedOnly(old(mem), mem, esp, old(esp))
    {
      EnterInterrupt(handler);
      Pushad();
    }

    /** `popad` and `iretd`. */
    method Resume()
      modifies `edi, `esi, `ebp, `ebx, `edx, `ecx, `eax, `eip, `cs, `eflags, `esp
      ensures LoadedFrom(mem, old(esp), Registers())
    {
      Popad();
      Iretd();
    }

    /** The first round of `scheduler_switch`: straight to task A, nothing saved. */
    method FirstSwitch()
      requires Valid()
      modifies this
      ensures currentTask == 0 && schedulerStarted != 0 && irq0Ticks == old(irq0Ticks)
      ensures esp == pcb[0] && ChangedOnly(old(mem), mem, pcb[0] - SCRATCH, pcb[0])
    {
      currentTask := 0;
      edx := 0;
      esp := pcb[edx];
      schedulerStarted := 1;
      UpdateRun();
    }

    /** The normal rotation: save ESP, select the next task, load its ESP. */
    method NormalSwitch()
      requires Valid() && 0 <= currentTask < 3
      modifies this, pcb
      ensures currentTask == (old(currentTask) + 1) % 3
      ensures schedulerStarted == old(schedulerStarted) && irq0Ticks == old(irq0Ticks)
      ensures pcb[..] == old(pcb[..])[8 * old(currentTask) := old(esp)]
      ensures esp == pcb[8 * currentTask] && ChangedOnly(old(mem), mem, old(esp) - SCRATCH, old(esp))
    {
      eax := currentTask;
      edx := 8 * eax;
      pcb[edx] := esp;
      eax := eax + 1;
      if eax >= 3 {
        eax := 0;
      }
      currentTask := eax;
      UpdateRun();
      edx := 8 * eax;
      esp := pcb[edx];
    }

    /** Loading the kernel data segments at the top of `scheduler_switch` goes through AX, saved on the stack. */
    method LoadKernelSegments()
      modifies `esp, `mem, `eax
      ensures esp == old(esp) && eax == old(eax) && ChangedOnly(old(mem), mem, esp - SCRATCH, esp)
    {
      Push(eax);
      eax := 0x18;
      eax := Pop();
    }

    /** Count the tick, show its low byte, load the data segments. */
    method CountAndShow()
      modifies `irq0Ticks, `eax, `ebx, `edi, `esp, `mem
      ensures esp == old(esp) && ChangedOnly(old(mem), mem, esp - SCRATCH, esp)
      ensures irq0Ticks == (old(irq0Ticks) + 1) % 0x1_0000_0000
    {
      irq0Ticks := (irq0Ticks + 1) % 0x1_0000_0000;
      eax := irq0Ticks % 256;
      edi := TICK_VIDEO;
      PrintHex8();
      LoadKernelSegments();
    }

    /** `isr_irq0` up to the switch: the frame, the tick count, its display, the data segments. */
    method HandlerEntry(handler: int)
      modifies this
      ensures esp == old(esp) - FRAME && FrameHolds(mem, old(esp), old(Registers()))
      ensures ChangedOnly(old(mem), mem, esp - SCRATCH, old(esp))
      ensures currentTask == old(currentTask) && schedulerStarted == old(schedulerStarted)
      ensures irq0Ticks == (old(irq0Ticks) + 1) % 0x1_0000_0000
    {
      ghost var was, interrupted, top := mem, Registers(), esp;
      SaveFrame(handler);
      ghost var framed := mem;
      CountAndShow();
      FrameStays(was, framed, mem, top, interrupted);
    }

    /** The path through the handler while nothing has started; `framed` is memory with the frame pushed. */
    method FirstTick(handler: int) returns (ghost framed: Memory)
      requires Valid()
      modifies this
      ensures currentTask == 0 && schedulerStarted != 0 && irq0Ticks == (old(irq0Ticks) + 1) % 0x1_0000_0000
      ensures FrameHolds(framed, old(esp), old(Registers()))
      ensures ChangedOnly(old(mem), framed, old(esp) - FRAME - SCRATCH, old(esp))
      ensures ChangedOnly(framed, mem, pcb[0] - SCRATCH, pcb[0])
      ensures LoadedFrom(mem, pcb[0], Registers())
    {
      HandlerEntry(handler);
      framed := mem;
      FirstSwitch();
      Resume();
    }

    /** The path through the handler from then on. */
    method NormalTick(handler: int) returns (ghost framed: Memory)
      requires Valid() && 0 <= currentTask < 3
      modifies this, pcb
      ensures currentTask == (old(currentTask) + 1) % 3
      ensures schedulerStarted == old(schedulerStarted) && irq0Ticks == (old(irq0Ticks) + 1) % 0x1_0000_0000
      ensures FrameHolds(framed, old(esp), old(Registers()))
      ensures ChangedOnly(old(mem), framed, old(esp) - FRAME - SCRATCH, old(esp))
      ensures ChangedOnly(framed, mem, old(esp) - FRAME - SCRATCH, old(esp) - FRAME)
      ensures SavedEsps(pcb[..]) == SavedEsps(old(pcb[..]))[old(currentTask) := old(esp) - FRAME]
      ensures LoadedFrom(mem, SavedEsps(pcb[..])[currentTask], Registers())
    {
      HandlerEntry(handler);
      framed := mem;
      SaveOne(pcb[..], currentTask, esp);
      NormalSwitch();
      SaveOne(pcb[..], currentTask, esp);
      Resume();
    }

    method TakeFirstTick(base: int, handler: int)
      requires Valid() && Inv(base, TheView()) && InterruptsOn(TheView().ctx.eflags) && schedulerStarted == 0
      modifies this
      ensures Tick(old(TheView()), TheView())
      ensures irq0Ticks == (old(irq0Ticks) + 1) % 0x1_0000_0000
    {
      ghost var before, was := TheView(), pcb[..];
      ghost var framed := FirstTick(handler);
      assert pcb[..] == was && TheView().saved == before.saved && before.saved[0] == pcb[0];
      FirstTickIsTick(base, before, framed, TheView());
    }

    method TakeNormalTick(base: int, handler: int)
      requires Valid() && Inv(base, TheView()) && InterruptsOn(TheView().ctx.eflags) && schedulerStarted != 0
      modifies this, pcb
      ensures Tick(old(TheView()), TheView())
      ensures irq0Ticks == (old(irq0Ticks) + 1) % 0x1_0000_0000
    {
      ghost var before := TheView();
      ghost var framed := NormalTick(handler);
      assert TheView().saved == before.saved[before.current := before.ctx.esp - FRAME];
      NormalTickIsTick(base, before, framed, TheView());
    }

    /** One timer interrupt (`isr_irq0` into `scheduler_switch`), from the interrupted instruction to the next
        instruction of the selected task. */
    method TimerInterrupt(base: int, handler: int)
      requires Valid() && Inv(base, TheView()) && InterruptsOn(TheView().ctx.eflags)
      modifies this, pcb
      ensures Valid() && Tick(old(TheView()), TheView())
      ensures irq0Ticks == (old(irq0Ticks) + 1) % 0x1_0000_0000
    {
      if schedulerStarted == 0 {
        TakeFirstTick(base, handler);
      } else {
        TakeNormalTick(base, handler);
      }
    }

    method SetRegisters(c: Context)
      modifies `edi, `esi, `ebp, `ebx, `edx, `ecx, `eax, `eip, `cs, `eflags, `esp
      ensures Registers() == c
    {
      edi, esi, ebp, ebx, edx, ecx, eax := c.edi, c.esi, c.ebp, c.ebx, c.edx, c.ecx, c.eax;
      eip, cs, eflags, esp := c.eip, c.cs, c.eflags, c.esp;
    }

    /** The instruction at EIP. */
    method Instruction(g: Program)
      requires Valid()
      modifies `edi, `esi, `ebp, `ebx, `edx, `ecx, `eax, `eip, `cs, `eflags, `esp, `mem
      ensures TheView() == Execute(g, old(TheView()))
    {
      var p := g.spot(eip);
      var next := g.place(Next(p));
      match InstrAt(g, p) {
        case Local(f) => SetRegisters(f(Registers()).(eip := next));
        case IncWord(addr) =>
          mem := Store(mem, addr, (mem(addr) + 1) % WORD_LIMIT);
          eip := next;
        case LoadEax(addr) =>
          eax := mem(addr);
          eip := next;
        case Branch(taken, target) => eip := if taken(Registers()) then g.place(target) else next;
        case Push(r) => PushRegister(r, next);
        case Pop(r) => PopRegister(r, next);
        case Call(target) => CallRoutine(g.place(target), next);
        case Return =>
          eip := mem(esp);
          esp := esp + 4;
      }
    }

    method PushRegister(r: Reg, next: int)
      modifies `eip, `esp, `mem
      ensures Registers() == old(Registers()).(esp := old(esp) - 4, eip := next)
      ensures mem == Store(old(mem), old(esp) - 4, Get(old(Registers()), r))
    {
      mem := Store(mem, esp - 4, if r == Eax then eax else ebx);
      esp := esp - 4;
      eip := next;
    }

    method PopRegister(r: Reg, next: int)
      modifies `eax, `ebx, `eip, `esp
      ensures Registers() == Set(old(Registers()), r, mem(old(esp))).(esp := old(esp) + 4, eip := next)
    {
      if r == Eax {
        eax := mem(esp);
      } else {
        ebx := mem(esp);
      }
      esp := esp + 4;
      eip := next;
    }

    method CallRoutine(target: int, next: int)
      modifies `eip, `esp, `mem
      ensures Registers() == old(Registers()).(esp := old(esp) - 4, eip := target)
      ensures mem == Store(old(mem), old(esp) - 4, next)
    {
      mem := Store(mem, esp - 4, next);
      esp := esp - 4;
      eip := target;
    }

    method Sti()
      modifies `eflags
      ensures InterruptsOn(eflags)
    {
      eflags := if InterruptsOn(eflags) then eflags else eflags + 512;
    }

    /** One event: a timer interrupt, or the next instruction of the running task; before the first tick the boot
        code's `sti` and `hlt`. */
    method OneEvent(g: Program, base: int, e: Event, handler: int)
      requires Valid() && AllStand(g, base, TheView()) && InterruptsOn(eflags)
      modifies this, pcb
      ensures Valid() && AllStand(g, base, TheView()) && InterruptsOn(eflags)
      ensures ProgramStep(g, e, old(TheView()), TheView())
    {
      ghost var v := TheView();
      if e == Timer {
        TimerInterrupt(base, handler);
        TickKeepsInv(base, v, TheView());
      } else if schedulerStarted != 0 {
        Instruction(g);
      } else {
        Sti();
      }
      ProgramStepStands(g, base, e, v, TheView());
      if schedulerStarted != 0 {
        StandsWithIf(g, base, TheView());
      }
    }

    /** The machine, driven by any sequence of timer interrupts and instructions, goes through a run of the
        program. */
    method RunEvents(g: Program, base: int, events: seq<Event>, handler: int) returns (ghost views: seq<View>)
      requires Valid() && AllStand(g, base, TheView()) && InterruptsOn(eflags)
      modifies this, pcb
      ensures IsProgramRun(g, views, events) && views[0] == old(TheView())
      ensures Valid() && views[|events|] == TheView()
    {
      views := [TheView()];
      for i := 0 to |events|
        invariant Valid() && AllStand(g, base, TheView()) && InterruptsOn(eflags)
        invariant IsProgramRun(g, views, events[..i]) && views[0] == old(TheView()) && views[i] == TheView()
      {
        OneEvent(g, base, events[i], handler);
        RunGrows(g, views, events[..i], events[i], TheView());
        assert events[..i + 1] == events[..i] + [events[i]];
        views := views + [TheView()];
      }
      assert events[..|events|] == events;
    }

    /** The call of `init_scheduler` on the boot stack, and `sti`. The program's task loops stand at `offsets` in the
        image. */
    method SetUp(g: Program, base: int, build: Build, offsets: seq<int>)
      requires Valid() && GoodBase(base) && GoodProgram(g, base) && schedulerStarted == 0 && esp == BOOT_TOP
      requires |offsets| == 3 && Entries(g) == Eips(build, offsets)
      modifies this, pcb
      ensures Valid() && ProgramStart(g, base, CodeSel(build), TheView()) && InterruptsOn(eflags)
    {
      Push(RETURN_SITE);
      InitScheduler(base, offsets[0], offsets[1], offsets[2], build);
      ghost var v := TheView();
      var _ := Pop();
      Sti();
      ReadyToRun(g, base, CodeSel(build), v, TheView());
    }

    /** From the call of `init_scheduler` through `sti` into any sequence of ticks and instructions: a run of the
        program from its start state, to which every theorem about runs applies. */
    method Boot(g: Program, base: int, build: Build, offsets: seq<int>, events: seq<Event>, handler: int)
      returns (ghost views: seq<View>)
      requires Valid() && GoodBase(base) && GoodProgram(g, base) && schedulerStarted == 0 && esp == BOOT_TOP
      requires |offsets| == 3 && Entries(g) == Eips(build, offsets)
      modifies this, pcb
      ensures IsProgramRun(g, views, events) && ProgramStart(g, base, CodeSel(build), views[0])
      ensures Initialised(base, Eips(build, offsets), CodeSel(build), views[0])
      ensures Valid() && views[|events|] == TheView()
      ensures Ticks(events) > 0 ==> schedulerStarted != 0 && currentTask == (Ticks(events) - 1) % 3
    {
      SetUp(g, base, build, offsets);
      StartStands(g, base, CodeSel(build), TheView());
      views := RunEvents(g, base, events, handler);
      RunFacts(g, base, views, events);
    }

    /** The eleven stores of `build_initial_frame` at EDX. */
    method StoreFrame(start: int, code: int)
      modifies `mem
      ensures ContextAt(mem, edx) == Context(0, 0, 0, 0, 0, 0, 0, start, code, 0x202, edx + FRAME)
      ensures ChangedOnly(old(mem), mem, edx, edx + FRAME)
    {
      var m, f := mem, edx;
      mem := a =>
        if a == f || a == f + 4 || a == f + 8 || a == f + 12 then 0
        else if a == f + 16 || a == f + 20 || a == f + 24 || a == f + 28 then 0
        else if a == f + 32 then start
        else if a == f + 36 then code
        else if a == f + 40 then 0x202
        else m(a);
    }

    /** `build_initial_frame` (called with the entry in EBX and the stack top in ECX): a frame from which
        `popad` and `iretd` start the task. */
    method BuildInitialFrame(build: Build)
      modifies `esp, `mem, `edx, `eax
      requires ecx <= esp - 8 || esp <= ecx - FRAME
      ensures esp == old(esp) && edx == old(edx) && eax == ecx - FRAME
      ensures ContextAt(mem, eax) == Context(0, 0, 0, 0, 0, 0, 0, EipOf(build, ebx), CodeSel(build), 0x202, ecx)
      ensures forall a :: !(esp - 8 <= a < esp) && !(ecx - FRAME <= a < ecx) ==> mem(a) == old(mem)(a)
    {
      Push(RETURN_SITE);
      Push(edx);
      edx := ecx - (8 * 4 + 3 * 4);
      if build == MethodB {
        eax := LOAD_BASE;
        eax := eax + ebx;
      } else {
        eax := ebx;
      }
      StoreFrame(eax, if build == MethodA then 0x08 else 0x10);
      eax := edx;
      edx := Pop();
      var _ := Pop();
    }

    /** Builds the frame of task `t` and stores its stack pointer in the task's control block. */
    method InitTask(base: int, t: int, entry: int, build: Build)
      requires Valid() && GoodBase(base) && 0 <= t < 3 && BOOT_LO + 8 <= esp
      modifies `esp, `mem, `edx, `eax, `ebx, `ecx, pcb
      ensures esp == old(esp) && pcb[..] == old(pcb[..])[8 * t := Hi(base, t) - FRAME]
      ensures FrameBuilt(base, mem, t, EipOf(build, entry), CodeSel(build))
      ensures StacksKept(base, old(mem), mem, Lo(base, t), Hi(base, t))
    {
      ebx, ecx := entry, base + STACK * t + STACK;
      BuildInitialFrame(build);
      pcb[8 * t] := eax;
    }

    /** The three frames and control blocks, one stack after the other. */
    method InitTasks(base: int, entryA: int, entryB: int, entryIdle: int, build: Build)
      requires Valid() && GoodBase(base) && BOOT_LO + 8 <= esp
      modifies `esp, `mem, `edx, `eax, `ebx, `ecx, pcb
      ensures esp == old(esp)
      ensures pcb[0] == Hi(base, 0) - FRAME && pcb[8] == Hi(base, 1) - FRAME && pcb[16] == Hi(base, 2) - FRAME
      ensures FramesBuilt(base, mem, EipOf(build, entryA), EipOf(build, entryB), EipOf(build, entryIdle),
                          CodeSel(build))
    {
      InitTask(base, 0, entryA, build);
      ghost var mem0 := mem;
      InitTask(base, 1, entryB, build);
      ghost var mem1 := mem;
      InitTask(base, 2, entryIdle, build);
      ThreeFrames(base, mem0, mem1, mem, EipOf(build, entryA), EipOf(build, entryB), EipOf(build, entryIdle),
                  CodeSel(build));
    }

    method SaveThree()
      modifies `esp, `mem
      ensures esp == old(esp) - 12 && mem(esp) == ecx && mem(esp + 4) == ebx && mem(esp + 8) == eax
    {
      Push(eax);
      Push(ebx);
      Push(ecx);
    }

    method RestoreThree()
      modifies `esp, `eax, `ebx, `ecx
      ensures esp == old(esp) + 12 && ecx == mem(old(esp)) && ebx == mem(old(esp) + 4) && eax == mem(old(esp) + 8)
    {
      ecx := Pop();
      ebx := Pop();
      eax := Pop();
    }

    /** `init_scheduler`: frames for tasks A, B and idle. It does not set `scheduler_started`, so that must still
        be 0 from the image. */
    method InitScheduler(base: int, entryA: int, entryB: int, entryIdle: int, build: Build)
      requires Valid() && GoodBase(base) && schedulerStarted == 0 && GoodEsp(esp, BOOT_LO, BOOT_TOP)
      modifies this, pcb
      ensures Valid() && esp == old(esp)
      ensures SavedEsps(pcb[..]) == [base + 1024 - 44, base + 2048 - 44, base + 3072 - 44]
      ensures Initialised(base, [EipOf(build, entryA), EipOf(build, entryB), EipOf(build, entryIdle)], CodeSel(build),
                          TheView())
    {
      SaveThree();
      InitTasks(base, entryA, entryB, entryIdle, build);
      currentTask := 0;
      RestoreThree();
      assert esp == old(esp);
      FramesInitialise(base, EipOf(build, entryA), EipOf(build, entryB), EipOf(build, entryIdle), CodeSel(build),
                       TheView());
    }
  }
}
