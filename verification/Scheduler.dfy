/** The preemptive round-robin scheduler on values: what one timer tick and one stretch of task code may do to
    registers, memory and process control blocks, and the theorem that ticks are transparent: each task sees a
    processor of its own. Memory maps the address of each aligned 32-bit word to its content. */
module Scheduler {

  type Memory = int -> int

  /** General registers, instruction pointer, code segment, flags and stack pointer. */
  datatype Context = Context(
    edi: int, esi: int, ebp: int, ebx: int, edx: int, ecx: int, eax: int, eip: int, cs: int, eflags: int, esp: int)

  const FRAME := 44     // eight registers, EIP, CS and EFLAGS
  const SCRATCH := 12   // a call of the handler: return address and two saved registers
  const STACK := 1024
  const BOOT_LO := 0x8F000
  const BOOT_TOP := 0x90000

  /** `base` is the linear address of `task_a_stack`, a multiple of 16; the stacks of tasks B and idle follow it. */
  predicate GoodBase(base: int) { 0x60000 <= base && base + 3 * STACK <= BOOT_LO && base % 16 == 0 }

  function Lo(base: int, t: int): int { base + STACK * t }
  function Hi(base: int, t: int): int { base + STACK * t + STACK }

  /** Bit 9 of EFLAGS. */
  predicate InterruptsOn(eflags: int) { (eflags / 512) % 2 == 1 }

  /** Memory differs at most in the bytes from `lo` up to `hi`. */
  ghost predicate ChangedOnly(mem: Memory, mem': Memory, lo: int, hi: int) {
    forall a :: !(lo <= a < hi) ==> mem'(a) == mem(a)
  }

  /** The context that `popad` and `iretd` load from the frame at `f`; the saved ESP slot is ignored. */
  function ContextAt(mem: Memory, f: int): Context {
    Context(mem(f), mem(f + 4), mem(f + 8), mem(f + 16), mem(f + 20), mem(f + 24), mem(f + 28),
            mem(f + 32), mem(f + 36), mem(f + 40), f + FRAME)
  }

  /** `saved` is the ESP field of the three process control blocks. */
  datatype View = View(ctx: Context, mem: Memory, saved: seq<int>, current: int, started: bool)

  predicate Running(v: View, t: int) { v.started && v.current == t }

  /** A task that is not running has one whole frame in its own stack, with room for a handler call
      below it and interrupts on. */
  predicate Parked(base: int, v: View, t: int) {
    && 0 <= t < |v.saved|
    && Lo(base, t) + SCRATCH <= v.saved[t] && v.saved[t] + FRAME <= Hi(base, t)
    && InterruptsOn(ContextAt(v.mem, v.saved[t]).eflags)
  }

  predicate GoodEsp(esp: int, lo: int, hi: int) { lo + FRAME + SCRATCH <= esp <= hi }

  predicate Inv(base: int, v: View) {
    && GoodBase(base) && |v.saved| == 3
    && 0 <= v.current < 3
    && (forall t :: 0 <= t < 3 && !Running(v, t) ==> Parked(base, v, t))
    && if v.started then GoodEsp(v.ctx.esp, Lo(base, v.current), Hi(base, v.current))
       else GoodEsp(v.ctx.esp, BOOT_LO, BOOT_TOP)
  }

  /** In the three task stacks memory differs at most in the bytes from `lo` up to `hi`. */
  ghost predicate StacksKept(base: int, mem: Memory, mem': Memory, lo: int, hi: int) {
    forall a :: Lo(base, 0) <= a < Hi(base, 2) && !(lo <= a < hi) ==> mem'(a) == mem(a)
  }

  /** Any stretch of code between two ticks: it leaves scheduler data alone, writes no other task's stack and keeps
      its ESP in its own, with room for one interrupt. Before the first tick it is the boot code. */
  ghost predicate TaskStep(base: int, v: View, v': View) {
    && v'.saved == v.saved && v'.current == v.current && v'.started == v.started
    && if v.started then
         && GoodEsp(v'.ctx.esp, Lo(base, v.current), Hi(base, v.current))
         && StacksKept(base, v.mem, v'.mem, Lo(base, v.current), Hi(base, v.current))
       else
         && GoodEsp(v'.ctx.esp, BOOT_LO, BOOT_TOP)
         && StacksKept(base, v.mem, v'.mem, 0, 0)
  }

  /** One timer interrupt: the handler pushes the running context, saves ESP for a task it will resume (the boot
      context is dropped), rotates, and continues from the frame of the selected task. It writes the interrupt
      frame and one handler call below it, and on the first tick a handler call below task A's frame. */
  ghost predicate Tick(v: View, v': View) {
    && |v.saved| == 3 && 0 <= v.current < 3
    && InterruptsOn(v.ctx.eflags)
    && v'.started && v'.current == (if v.started then (v.current + 1) % 3 else 0)
    && v'.saved == (if v.started then v.saved[v.current := v.ctx.esp - FRAME] else v.saved)
    && ContextAt(v'.mem, v.ctx.esp - FRAME) == v.ctx
    && v'.ctx == ContextAt(v'.mem, v'.saved[v'.current])
    && (forall a :: !(v.ctx.esp - FRAME - SCRATCH <= a < v.ctx.esp)
                    && !(!v.started && v.saved[0] - SCRATCH <= a < v.saved[0])
                    ==> v'.mem(a) == v.mem(a))
  }

  /** What task `t` holds: the processor while it runs, its saved frame while it does not. */
  function VirtualContext(base: int, v: View, t: int): Context
    requires Inv(base, v) && 0 <= t < 3
  {
    if Running(v, t) then v.ctx else ContextAt(v.mem, v.saved[t])
  }

  /** Task `t` holds the same context in both views, and the same word everywhere on its stack from its stack
      pointer up. */
  ghost predicate SameTask(base: int, v: View, v': View, t: int) {
    && Inv(base, v) && Inv(base, v') && 0 <= t < 3
    && VirtualContext(base, v', t) == VirtualContext(base, v, t)
    && forall a :: VirtualContext(base, v, t).esp <= a < Hi(base, t) ==> v'.mem(a) == v.mem(a)
  }

  lemma SameTaskTwice(base: int, v1: View, v2: View, v3: View, t: int)
    requires SameTask(base, v1, v2, t) && SameTask(base, v2, v3, t)
    ensures SameTask(base, v1, v3, t)
  {
  }

  // ----- one step -----

  lemma TaskStepLeavesParked(base: int, v: View, v': View, t: int)
    requires Inv(base, v) && TaskStep(base, v, v') && 0 <= t < 3 && !Running(v, t)
    ensures Parked(base, v', t) && ContextAt(v'.mem, v'.saved[t]) == ContextAt(v.mem, v.saved[t])
  {
    assert Parked(base, v, t);
  }

  lemma TaskStepKeepsInv(base: int, v: View, v': View)
    requires Inv(base, v) && TaskStep(base, v, v')
    ensures Inv(base, v')
    ensures forall t :: 0 <= t < 3 && !Running(v, t) ==> SameTask(base, v, v', t)
  {
    forall t | 0 <= t < 3 && !Running(v, t)
      ensures Parked(base, v', t) && ContextAt(v'.mem, v'.saved[t]) == ContextAt(v.mem, v.saved[t])
    {
      TaskStepLeavesParked(base, v, v', t);
    }
    forall t | 0 <= t < 3 && !Running(v, t) ensures SameTask(base, v, v', t) {
      assert Parked(base, v, t);
    }
  }

  lemma TickKeepsParked(base: int, v: View, v': View, t: int)
    requires Inv(base, v) && Tick(v, v') && 0 <= t < 3 && !Running(v, t)
    ensures v'.saved[t] == v.saved[t] && ContextAt(v'.mem, v.saved[t]) == ContextAt(v.mem, v.saved[t])
    ensures forall a :: v.saved[t] <= a < Hi(base, t) ==> v'.mem(a) == v.mem(a)
    ensures Parked(base, v', t)
  {
    assert Parked(base, v, t) && (v.started || Parked(base, v, 0));
  }

  lemma TickParksCurrent(base: int, v: View, v': View)
    requires Inv(base, v) && Tick(v, v') && v.started
    ensures Parked(base, v', v.current) && ContextAt(v'.mem, v'.saved[v.current]) == v.ctx
    ensures forall a :: v.ctx.esp <= a < Hi(base, v.current) ==> v'.mem(a) == v.mem(a)
  {
    assert v'.saved[v.current] == v.ctx.esp - FRAME;
    assert v.ctx.eflags == v'.mem(v.ctx.esp - FRAME + 40);
  }

  lemma TickKeepsInv(base: int, v: View, v': View)
    requires Inv(base, v) && Tick(v, v')
    ensures Inv(base, v') && InterruptsOn(v'.ctx.eflags)
  {
    forall t | 0 <= t < 3 && !Running(v', t) ensures Parked(base, v', t) {
      if Running(v, t) {
        TickParksCurrent(base, v, v');
      } else {
        TickKeepsParked(base, v, v', t);
      }
    }
    TickKeepsParked(base, v, v', v'.current);
  }

  /** The heart of the matter: a tick changes no task's context and no word of any task's live stack. */
  lemma TickIsTransparent(base: int, v: View, v': View, t: int)
    requires Inv(base, v) && Tick(v, v') && 0 <= t < 3
    ensures SameTask(base, v, v', t)
  {
    TickKeepsInv(base, v, v');
    if Running(v, t) {
      TickParksCurrent(base, v, v');
    } else {
      TickKeepsParked(base, v, v', t);
    }
  }

  /** The bytes of the stack that is in use: a task's, or the boot stack before the first tick. */
  predicate InUse(base: int, v: View, a: int) {
    if v.started then Lo(base, v.current) <= a < Hi(base, v.current) else BOOT_LO <= a < BOOT_TOP
  }

  /** No tick writes outside the interrupted or the selected task's stack: at most 56 bytes below the interrupted
      ESP, and on the first tick 12 bytes below task A's frame. */
  lemma TickStaysInStacks(base: int, v: View, v': View, a: int)
    requires Inv(base, v) && Tick(v, v') && v'.mem(a) != v.mem(a)
    ensures InUse(base, v, a) || InUse(base, v', a)
    ensures v.ctx.esp - FRAME - SCRATCH <= a < v.ctx.esp || (!v.started && v.saved[0] - SCRATCH <= a < v.saved[0])
  {
    assert v.started || Parked(base, v, 0);
  }

  // ----- whole runs -----

  datatype Event = Work | Timer

  ghost predicate StepOf(base: int, e: Event, v: View, v': View) {
    match e case Work => TaskStep(base, v, v') case Timer => Tick(v, v')
  }

  ghost predicate StepsAt(base: int, views: seq<View>, events: seq<Event>, i: nat) {
    i < |events| && i + 1 < |views| && StepOf(base, events[i], views[i], views[i + 1])
  }

  ghost predicate IsRun(base: int, views: seq<View>, events: seq<Event>) {
    |views| == |events| + 1 && forall i :: 0 <= i < |events| ==> StepsAt(base, views, events, i)
  }

  function FreshContext(base: int, entry: seq<int>, cs: int, t: int): Context
    requires 0 <= t < |entry|
  {
    Context(0, 0, 0, 0, 0, 0, 0, entry[t], cs, 0x202, Hi(base, t))
  }

  /** What `init_scheduler` leaves: nothing started and one built frame per task, at the top of its stack. */
  predicate Initialised(base: int, entry: seq<int>, cs: int, v: View) {
    && GoodBase(base) && |v.saved| == 3 && |entry| == 3
    && !v.started && v.current == 0 && GoodEsp(v.ctx.esp, BOOT_LO, BOOT_TOP)
    && forall t :: 0 <= t < 3 ==>
         v.saved[t] == Hi(base, t) - FRAME && ContextAt(v.mem, v.saved[t]) == FreshContext(base, entry, cs, t)
  }

  lemma InitialisedInv(base: int, entry: seq<int>, cs: int, v: View)
    requires Initialised(base, entry, cs, v)
    ensures Inv(base, v)
    ensures forall t :: 0 <= t < 3 ==> VirtualContext(base, v, t) == FreshContext(base, entry, cs, t)
  {
    forall t | 0 <= t < 3 ensures Parked(base, v, t) {
      assert ContextAt(v.mem, v.saved[t]) == FreshContext(base, entry, cs, t);
      assert InterruptsOn(0x202);
    }
  }

  lemma {:induction false} RunKeepsInv(base: int, views: seq<View>, events: seq<Event>, i: nat)
    requires IsRun(base, views, events) && Inv(base, views[0]) && i < |views|
    ensures Inv(base, views[i])
  {
    if i > 0 {
      var h := i - 1;
      RunKeepsInv(base, views, events, h);
      assert StepsAt(base, views, events, h);
      if events[h] == Work {
        TaskStepKeepsInv(base, views[h], views[h + 1]);
      } else {
        TickKeepsInv(base, views[h], views[h + 1]);
      }
    }
  }

  /** Each task sees a processor of its own: of all steps, only its own code while it runs changes its context
      or its live stack. */
  lemma OwnProcessor(base: int, e: Event, v: View, v': View, t: int)
    requires Inv(base, v) && StepOf(base, e, v, v') && 0 <= t < 3
    ensures Inv(base, v')
    ensures !(e == Work && Running(v, t)) ==> SameTask(base, v, v', t)
  {
    if e == Timer {
      TickIsTransparent(base, v, v', t);
    } else {
      TaskStepKeepsInv(base, v, v');
    }
  }

  /** From index `i` to `j` the task runs no code of its own. */
  predicate Suspended(views: seq<View>, events: seq<Event>, t: int, i: nat, j: nat)
    requires |views| == |events| + 1 && i <= j < |views|
  {
    forall k :: i <= k < j && Running(views[k], t) ==> events[k] == Timer
  }

  lemma {:induction false} SuspendedKeepsContext(
    base: int, views: seq<View>, events: seq<Event>, t: int, i: nat, j: nat)
    requires IsRun(base, views, events) && Inv(base, views[0]) && 0 <= t < 3
    requires i <= j < |views| && Suspended(views, events, t, i, j)
    ensures SameTask(base, views[i], views[j], t)
    decreases j
  {
    if i == j {
      RunKeepsInv(base, views, events, i);
    } else {
      var h := j - 1;
      assert Suspended(views, events, t, i, h);
      SuspendedKeepsContext(base, views, events, t, i, h);
      assert StepsAt(base, views, events, h);
      assert !(events[h] == Work && Running(views[h], t));
      OwnProcessor(base, events[h], views[h], views[j], t);
      SameTaskTwice(base, views[i], views[h], views[j], t);
    }
  }

  /** Transparent preemption: a task preempted at `i` and running again at `j`, whatever ran in between and for
      however long, has every register, EIP, CS, EFLAGS, ESP and stack word it had. */
  lemma PreemptedTaskResumesExactly(
    base: int, views: seq<View>, events: seq<Event>, t: int, i: nat, j: nat)
    requires IsRun(base, views, events) && Inv(base, views[0]) && 0 <= t < 3
    requires i < j < |views| && Running(views[i], t) && Running(views[j], t) && Suspended(views, events, t, i, j)
    ensures views[j].ctx == views[i].ctx
    ensures forall a :: views[i].ctx.esp <= a < Hi(base, t) ==> views[j].mem(a) == views[i].mem(a)
  {
    SuspendedKeepsContext(base, views, events, t, i, j);
  }

  /** A task that runs for the first time at `j` starts at its entry with zero registers, IF set and an empty
      stack. */
  lemma FreshTaskStartsAtEntry(
    base: int, entry: seq<int>, cs: int, views: seq<View>, events: seq<Event>, t: int, j: nat)
    requires IsRun(base, views, events) && Initialised(base, entry, cs, views[0]) && 0 <= t < 3
    requires j < |views| && Running(views[j], t) && Suspended(views, events, t, 0, j)
    ensures views[j].ctx == FreshContext(base, entry, cs, t)
  {
    InitialisedInv(base, entry, cs, views[0]);
    SuspendedKeepsContext(base, views, events, t, 0, j);
  }

  function Ticks(events: seq<Event>): nat {
    if events == [] then 0
    else Ticks(events[..|events| - 1]) + if events[|events| - 1] == Timer then 1 else 0
  }

  lemma TickCount(events: seq<Event>, i: nat)
    requires 0 < i <= |events|
    ensures Ticks(events[..i]) == Ticks(events[..i - 1]) + if events[i - 1] == Timer then 1 else 0
  {
    assert events[..i][..|events[..i]| - 1] == events[..i - 1];
  }

  /** Round robin: before the first tick nothing has started, and after the m-th tick task (m - 1) mod 3 runs. */
  lemma {:induction false} RoundRobin(base: int, views: seq<View>, events: seq<Event>, i: nat)
    requires IsRun(base, views, events) && !views[0].started && i < |views|
    ensures var m := Ticks(events[..i]);
            if m == 0 then !views[i].started else views[i].started && views[i].current == (m - 1) % 3
  {
    if i > 0 {
      RoundRobin(base, views, events, i - 1);
      TickCount(events, i);
      assert StepsAt(base, views, events, i - 1);
    }
  }

  /** There is no way back to the boot context: once a tick has come, every later state runs on the stack of the
      task whose turn it is. */
  lemma BootNeverResumes(base: int, views: seq<View>, events: seq<Event>, i: nat)
    requires IsRun(base, views, events) && Inv(base, views[0]) && !views[0].started && i < |views|
    requires Ticks(events[..i]) > 0
    ensures GoodEsp(views[i].ctx.esp, Lo(base, views[i].current), Hi(base, views[i].current))
    ensures views[i].ctx.esp <= BOOT_LO
  {
    RoundRobin(base, views, events, i);
    RunKeepsInv(base, views, events, i);
  }

  // ----- stack depth -----

  /** Task code that never uses more than `depth` bytes of its stack. */
  ghost predicate Shallow(base: int, depth: int, e: Event, v: View, v': View) {
    && (v.started ==> Hi(base, v.current) - depth <= v.ctx.esp)
    && (e == Work && v.started ==> StacksKept(base, v.mem, v'.mem, Hi(base, v.current) - depth, Hi(base, v.current)))
  }

  /** The words of stack `t` that lie deeper than `used` bytes are the same. */
  ghost predicate DeepPartSame(base: int, used: int, v: View, v': View, t: int) {
    forall a :: Lo(base, t) <= a < Hi(base, t) - used ==> v'.mem(a) == v.mem(a)
  }

  lemma StepStaysShallow(base: int, depth: int, e: Event, v: View, v': View, t: int)
    requires Inv(base, v) && StepOf(base, e, v, v') && Shallow(base, depth, e, v, v') && 0 <= t < 3 && 0 <= depth
    requires !v.started ==> v.saved[0] == Hi(base, 0) - FRAME
    ensures DeepPartSame(base, depth + FRAME + SCRATCH, v, v', t)
    ensures !v'.started ==> !v.started && v'.saved == v.saved
  {
  }

  ghost predicate ShallowAt(base: int, depth: int, views: seq<View>, events: seq<Event>, k: nat) {
    k < |events| && k + 1 < |views| && Shallow(base, depth, events[k], views[k], views[k + 1])
  }

  /** With tasks that use at most `depth` bytes (12 in this program: one print call), no run ever writes a task
      stack deeper than `depth` + 56 bytes: an interrupt frame and one handler call is all that is added. */
  lemma {:induction false} StacksStayShallow(
    base: int, entry: seq<int>, cs: int, depth: int, views: seq<View>, events: seq<Event>, t: int, i: nat)
    requires IsRun(base, views, events) && Initialised(base, entry, cs, views[0]) && 0 <= t < 3
    requires i < |views| && 0 <= depth
    requires forall k :: 0 <= k < |events| ==> ShallowAt(base, depth, views, events, k)
    ensures DeepPartSame(base, depth + FRAME + SCRATCH, views[0], views[i], t)
    ensures !views[i].started ==> views[i].saved == views[0].saved
  {
    if i > 0 {
      var h := i - 1;
      StacksStayShallow(base, entry, cs, depth, views, events, t, h);
      InitialisedInv(base, entry, cs, views[0]);
      RunKeepsInv(base, views, events, h);
      assert StepsAt(base, views, events, h) && ShallowAt(base, depth, views, events, h);
      StepStaysShallow(base, depth, events[h], views[h], views[h + 1], t);
    }
  }

  // ----- alignment: only whole words are ever addressed -----

  predicate Aligned(v: View) {
    |v.saved| == 3 && v.ctx.esp % 4 == 0 && forall t :: 0 <= t < 3 ==> v.saved[t] % 4 == 0
  }

  /** Code that pushes and pops whole words keeps every stack pointer, running or saved, a multiple of 4; so no
      two words that the model keeps apart overlap. */
  lemma {:induction false} StacksStayAligned(base: int, views: seq<View>, events: seq<Event>, i: nat)
    requires IsRun(base, views, events) && Inv(base, views[0]) && Aligned(views[0]) && i < |views|
    requires forall k :: 0 <= k < |views| && k > 0 && events[k - 1] == Work ==> views[k].ctx.esp % 4 == 0
    ensures Aligned(views[i])
  {
    if i > 0 {
      var h := i - 1;
      StacksStayAligned(base, views, events, h);
      RunKeepsInv(base, views, events, h);
      assert StepsAt(base, views, events, h);
      if events[h] == Timer {
        TickKeepsAligned(base, views[h], views[h + 1]);
      }
    }
  }

  lemma TickKeepsAligned(base: int, v: View, v': View)
    requires Inv(base, v) && Tick(v, v') && Aligned(v)
    ensures Aligned(v')
  {
    forall t | 0 <= t < 3 ensures v'.saved[t] % 4 == 0 {
      SavedStaysAligned(v.saved, v.current, v.ctx.esp - FRAME, t);
    }
    assert v'.ctx.esp == v'.saved[v'.current] + FRAME;
  }

  lemma SavedStaysAligned(saved: seq<int>, current: int, esp: int, t: int)
    requires |saved| == 3 && 0 <= current < 3 && 0 <= t < 3 && saved[t] % 4 == 0 && (esp + FRAME) % 4 == 0
    ensures saved[current := esp][t] % 4 == 0
  {
  }
}
