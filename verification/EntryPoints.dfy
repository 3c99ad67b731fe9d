/** Where the tasks' initial CS:EIP leads: through the descriptor that the selector names in the table of the build. */
module EntryPoints {
  import opened Builds
  import opened Descriptors
  import opened Scheduler

  /** The linear address of a context's next instruction, as the processor computes it. */
  function LinearOf(build: Build, cs: bv16, ctx: Context): int
    requires ctx.cs in {8, 16, 24}
  {
    Entry(Table(build, cs), ctx.cs).base as int + ctx.eip
  }

  lemma LinearIs(build: Build, cs: bv16, ctx: Context, offset: int)
    requires ctx.cs == CodeSel(build) && ctx.eip == EipOf(build, offset)
    ensures ctx.cs in {8, 16, 24}
    ensures LinearOf(build, cs, ctx) == if build == MethodA then 16 * (cs as int) + offset else 0x60000 + offset
  {
    ImageEntries();
    PatchedImageEntry(cs);
    Times16Is(cs);
  }

  /** After set-up each task's frame leads to CS * 16 plus the task's offset in Method A, and to 0x60000 plus it in
      Method B, in an executable segment. */
  lemma FramesArrive(base: int, build: Build, cs: bv16, offsets: seq<int>, v: View, t: int)
    requires |offsets| == 3 && Initialised(base, Eips(build, offsets), CodeSel(build), v) && 0 <= t < 3
    ensures var ctx := ContextAt(v.mem, v.saved[t]);
            && ctx.cs in {8, 16, 24}
            && Executable(Entry(Table(build, cs), ctx.cs))
            && LinearOf(build, cs, ctx)
               == if build == MethodA then 16 * (cs as int) + offsets[t] else 0x60000 + offsets[t]
  {
    TableIsUsable(build, cs);
    assert ContextAt(v.mem, v.saved[t]) == FreshContext(base, Eips(build, offsets), CodeSel(build), t);
    LinearIs(build, cs, ContextAt(v.mem, v.saved[t]), offsets[t]);
  }

  /** And so does the task itself when it runs for the first time, in any run. */
  lemma FirstRunArrives(
    base: int, build: Build, cs: bv16, offsets: seq<int>, views: seq<View>, events: seq<Event>, t: int, j: nat)
    requires |offsets| == 3 && IsRun(base, views, events)
    requires Initialised(base, Eips(build, offsets), CodeSel(build), views[0]) && 0 <= t < 3
    requires j < |views| && Running(views[j], t) && Suspended(views, events, t, 0, j)
    ensures views[j].ctx.cs in {8, 16, 24}
    ensures LinearOf(build, cs, views[j].ctx)
            == if build == MethodA then 16 * (cs as int) + offsets[t] else 0x60000 + offsets[t]
  {
    FreshTaskStartsAtEntry(base, Eips(build, offsets), CodeSel(build), views, events, t, j);
    LinearIs(build, cs, views[j].ctx, offsets[t]);
  }

  /** The two builds start a task at the same linear address if and only if CS is 0x6000. */
  lemma BuildsStartAlikeExactlyAt6000(cs: bv16, offset: int, a: Context, b: Context)
    requires a.cs == CodeSel(MethodA) && a.eip == EipOf(MethodA, offset)
    requires b.cs == CodeSel(MethodB) && b.eip == EipOf(MethodB, offset)
    ensures a.cs in {8, 16, 24} && b.cs in {8, 16, 24}
    ensures LinearOf(MethodA, cs, a) == LinearOf(MethodB, cs, b) <==> cs == 0x6000
  {
    LinearIs(MethodA, cs, a, offset);
    LinearIs(MethodB, cs, b, offset);
    assert cs as int == 0x6000 <==> cs == 0x6000;
  }
}
