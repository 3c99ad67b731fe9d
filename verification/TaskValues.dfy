/** What the tasks' code computes: each round counts one in the task's counter word, hands its low byte and the
    task's video address to the print routine, which makes two hexadecimal digits of it, and counts the delay down
    to zero; however often it is preempted. */
module TaskValues {
  import opened Scheduler
  import opened TaskCode

  /** The character of a hexadecimal digit. */
  function HexChar(n: int): int { if n <= 9 then '0' as int + n else 'A' as int + n - 10 }

  function Nibble(half: Half, byte: int): int { if half == High then byte / 16 else byte % 16 }

  /** How often `dec ecx` runs in one delay; a count of 0 goes once round all values. */
  function Turns(delay: int): int { if delay == 0 then 0x1_0000_0000 else delay }

  // ----- the digits -----

  /** BL on the way from the byte to its digit, and BX once it is ready for the screen. */
  predicate DigitValues(half: Half, d: DigitSpot, c: Context, byte: int) {
    var n := Nibble(half, byte);
    match d
    case MovBl => true
    case ShrBl => half == High && Bl(c) == byte
    case AndBl => Bl(c) == if half == High then byte / 16 else byte
    case CmpBl => Bl(c) == n
    case JbeDigit => Bl(c) == n && Zf(c) == (n == 9) && Cf(c) == (n < 9)
    case AddLetter => Bl(c) == n && n > 9
    case AddZero => Bl(c) == if n <= 9 then n else n + 7
    case MovBh => Bl(c) == HexChar(n)
    case StoreWord | AddEdi => c.ebx % 65536 == 0x0C00 + HexChar(n)
  }

  lemma LowByte(q: int, b: int)
    requires 0 <= b < 256
    ensures (256 * q + b) % 256 == b
  {
  }

  lemma LowWord(q: int, w: int)
    requires 0 <= w < 65536
    ensures (65536 * q + w) % 65536 == w
  {
  }

  lemma BlSet(c: Context, b: int)
    requires 0 <= b < 256
    ensures Bl(SetBl(c, b)) == b
  {
    LowByte(c.ebx / 256, b);
    assert SetBl(c, b).ebx == 256 * (c.ebx / 256) + b;
  }

  lemma BxSet(c: Context, b: int)
    requires 0 <= b < 256
    ensures SetBh(c, b).ebx % 65536 == 256 * b + Bl(c)
  {
    var q, bl := c.ebx / 65536, c.ebx % 256;
    assert c.ebx - c.ebx % 65536 == 65536 * q;
    LowWord(q, 256 * b + bl);
  }

  lemma Quotient64(k: int, r: int)
    requires 0 <= r < 64
    ensures (64 * k + r) / 64 == k
  {
  }

  lemma ZfBit(q: int, b: int, low: int)
    requires 0 <= b <= 1 && 0 <= low <= 1
    ensures ((512 * q + 64 * b + low) / 64) % 2 == b
  {
    assert 512 * q + 64 * b + low == 64 * (8 * q + b) + low;
    Quotient64(8 * q + b, low);
    assert 8 * q + b == 2 * (4 * q) + b;
    LowBit(4 * q, b);
  }

  lemma LowBit(k: int, low: int)
    requires 0 <= low <= 1
    ensures (2 * k + low) % 2 == low
  {
  }

  lemma FlagsSet(c: Context, zf: bool, cf: bool)
    ensures Zf(WithFlags(c, zf, cf)) == zf && Cf(WithFlags(c, zf, cf)) == cf
  {
    var q, b, low := c.eflags / 512, if zf then 1 else 0, if cf then 1 else 0;
    assert WithFlags(c, zf, cf).eflags == 512 * q + 64 * b + low;
    ZfBit(q, b, low);
    assert 512 * q + 64 * b + low == 2 * (256 * q + 32 * b) + low;
    LowBit(256 * q + 32 * b, low);
  }

  lemma Nibbles(byte: int)
    requires 0 <= byte < 256
    ensures byte % 256 == byte && 0 <= byte / 16 < 16 && byte / 16 % 16 == byte / 16 && 0 <= byte % 16 < 16
  {
  }

  /** BL through one register instruction of a digit. */
  lemma DigitLocal(half: Half, d: DigitSpot, c: Context, byte: int)
    requires d in {MovBl, ShrBl, AndBl, AddLetter, AddZero}
    requires DigitValues(half, d, c, byte) && 0 <= byte < 256 && c.eax == byte
    ensures DigitValues(half, NextDigit(half, d).d, DigitInstr(half, d).f(c), byte)
  {
    Nibbles(byte);
    match d {
      case MovBl => BlSet(c, byte);
      case ShrBl => BlSet(c, byte / 16);
      case AndBl => BlSet(c, Nibble(half, byte));
      case AddLetter => BlSet(c, Nibble(half, byte) + 7);
      case AddZero => BlSet(c, HexChar(Nibble(half, byte)));
    }
  }

  lemma DigitCompare(half: Half, c: Context, byte: int)
    requires DigitValues(half, CmpBl, c, byte)
    ensures DigitValues(half, JbeDigit, DigitInstr(half, CmpBl).f(c), byte)
  {
    FlagsSet(c, Bl(c) == 9, Bl(c) < 9);
  }

  lemma DigitColour(half: Half, c: Context, byte: int)
    requires DigitValues(half, MovBh, c, byte) && 0 <= byte < 256
    ensures DigitValues(half, StoreWord, DigitInstr(half, MovBh).f(c), byte)
  {
    BxSet(c, 0x0C);
  }

  // ----- a task's values, point by point -----

  /** The byte that is shown: the low byte of the task's counter word. */
  function Shown(g: Program, t: Task, m: Memory): int { m(g.counter(t)) % 256 }

  /** EDI moves on by one character cell for each digit stored. */
  function CellOf(g: Program, t: Task, cells: int): int { (g.video(t) + 2 * cells) % 0x1_0000_0000 }

  /** What the registers hold when task `t` stands at `p`, after `d` decrements of the delay. */
  ghost predicate Values(g: Program, t: Task, p: Spot, c: Context, m: Memory, d: int) {
    var byte, left := Shown(g, t, m), Turns(g.delay(t)) - d;
    match p
    case MaskEax(_) => c.eax == m(g.counter(t))
    case MovEdi(_) => c.eax == byte
    case CallPrint(_) | PushEax | PushEbx => c.eax == byte && c.edi == g.video(t)
    case Digit(half, dd) =>
      c.eax == byte && DigitValues(half, dd, c, byte)
      && c.edi == if half == High then g.video(t) else CellOf(g, t, 1)
    case DecEcx(_) => 0 < left <= Turns(g.delay(t)) && c.ecx == left % 0x1_0000_0000
    case JnzDelay(_) => 0 <= left < Turns(g.delay(t)) && c.ecx == left && Zf(c) == (left == 0)
    case SetIf(_) | JmpLoop(_) => left == 0 && c.ecx == 0
    case _ => true
  }

  /** The decrements since the delay began, one instruction later. */
  function NextTurn(p: Spot, d: int): int { match p case MovEcx(_) => 0 case DecEcx(_) => d + 1 case _ => d }

  /** A register instruction of a digit keeps EAX and EDI. */
  lemma DigitKeeps(half: Half, d: DigitSpot, c: Context)
    requires DigitInstr(half, d).Local? && d != AddEdi
    ensures var c' := DigitInstr(half, d).f(c); c'.eax == c.eax && c'.edi == c.edi
  {
  }

  lemma DigitAdvances(half: Half, d: DigitSpot, c: Context, byte: int)
    requires DigitInstr(half, d).Local? && d != AddEdi
    requires DigitValues(half, d, c, byte) && 0 <= byte < 256 && c.eax == byte
    ensures NextDigit(half, d).Digit? && NextDigit(half, d).half == half
    ensures DigitValues(half, NextDigit(half, d).d, DigitInstr(half, d).f(c), byte)
  {
    match d {
      case CmpBl => DigitCompare(half, c, byte);
      case MovBh => DigitColour(half, c, byte);
      case StoreWord =>
      case _ => DigitLocal(half, d, c, byte);
    }
  }

  /** BL and BX do not depend on EIP. */
  lemma ValuesIgnoreEip(half: Half, d: DigitSpot, c: Context, eip: int, byte: int)
    requires DigitValues(half, d, c, byte)
    ensures DigitValues(half, d, c.(eip := eip), byte)
  {
  }

  lemma DigitStep(g: Program, base: int, t: Task, p: Spot, c: Context, m: Memory, d: int)
    requires Stands(g, base, t, p, c, m) && Values(g, t, p, c, m, d) && p.Digit?
    ensures var (c', m') := Effect(g, p, c, m);
            m' == m && Values(g, t, After(p, Taken(g, p, c), t), c', m', d)
  {
    if p.d != AddEdi && p.d != JbeDigit {
      var byte, next := Shown(g, t, m), NextDigit(p.half, p.d);
      DigitKeeps(p.half, p.d, c);
      DigitAdvances(p.half, p.d, c, byte);
      ValuesIgnoreEip(p.half, next.d, DigitInstr(p.half, p.d).f(c), g.place(next), byte);
    }
  }

  lemma CountDownValues(c: Context, left: int)
    requires 0 < left <= 0x1_0000_0000 && c.ecx == left % 0x1_0000_0000
    ensures CountDown(c).ecx == left - 1 && Zf(CountDown(c)) == (left - 1 == 0)
  {
    var next := (c.ecx - 1) % WORD_LIMIT;
    assert next == left - 1;
    FlagsSet(c.(ecx := next), next == 0, Cf(c));
  }

  /** Each instruction makes the values that the next place asks for. */
  lemma ValueStep(g: Program, base: int, t: Task, p: Spot, c: Context, m: Memory, d: int)
    requires GoodProgram(g, base) && Stands(g, base, t, p, c, m) && Values(g, t, p, c, m, d)
    ensures var (c', m') := Effect(g, p, c, m);
            Values(g, t, After(p, Taken(g, p, c), t), c', m', NextTurn(p, d))
  {
    if p.Digit? {
      DigitStep(g, base, t, p, c, m, d);
    } else if p.DecEcx? {
      CountDownValues(c, Turns(g.delay(t)) - d);
    }
  }

  /** Only `inc` at its own task's loop changes a counter, by one. */
  lemma CounterStep(g: Program, base: int, t: Task, p: Spot, c: Context, m: Memory, u: Task)
    requires GoodProgram(g, base) && Stands(g, base, t, p, c, m)
    ensures var m' := Effect(g, p, c, m).1;
            m'(g.counter(u)) == if p == IncCounter(u) then (m(g.counter(u)) + 1) % 0x1_0000_0000 else m(g.counter(u))
  {
  }

  // ----- whole runs, however preempted -----

  /** Step `k` is an instruction of task `t`. */
  predicate Executes(views: seq<View>, events: seq<Event>, t: Task, k: nat)
    requires |views| == |events| + 1 && k < |events|
  {
    events[k] == Work && Running(views[k], t)
  }

  /** How many times the task has executed its `inc` before index `i`. */
  function Increments(g: Program, views: seq<View>, events: seq<Event>, t: Task, i: nat): nat
    requires |views| == |events| + 1 && i < |views|
  {
    if i == 0 then 0
    else
      Increments(g, views, events, t, i - 1)
      + if Executes(views, events, t, i - 1) && g.spot(views[i - 1].ctx.eip) == IncCounter(t) then 1 else 0
  }

  /** How many times it has executed its `dec` since it last loaded the delay. */
  function Decrements(g: Program, views: seq<View>, events: seq<Event>, t: Task, i: nat): int
    requires |views| == |events| + 1 && i < |views|
  {
    if i == 0 then 0
    else
      var before := Decrements(g, views, events, t, i - 1);
      if Executes(views, events, t, i - 1) then NextTurn(g.spot(views[i - 1].ctx.eip), before) else before
  }

  ghost predicate ValuesOf(g: Program, base: int, v: View, t: Task, d: int)
    requires Inv(base, v)
  {
    Values(g, t, SpotOf(g, base, v, t), VirtualContext(base, v, t), v.mem, d)
  }

  /** No other step touches a task's counter: not a tick, not the boot code, not another task. */
  lemma OthersKeepCounter(g: Program, base: int, e: Event, v: View, v': View, t: Task)
    requires AllStand(g, base, v) && ProgramStep(g, e, v, v') && !(e == Work && Running(v, t))
    ensures v'.mem(g.counter(t)) == v.mem(g.counter(t))
  {
    if e == Timer {
      if v'.mem(g.counter(t)) != v.mem(g.counter(t)) {
        TickStaysInStacks(base, v, v', g.counter(t));
        TickKeepsInv(base, v, v');
      }
    } else if v.started {
      var u: Task := v.current;
      assert TaskStands(g, base, v, u);
      CounterStep(g, base, u, SpotOf(g, base, v, u), v.ctx, v.mem, t);
    }
  }

  lemma OthersKeepValues(g: Program, base: int, e: Event, v: View, v': View, t: Task, d: int)
    requires AllStand(g, base, v) && ProgramStep(g, e, v, v') && !(e == Work && Running(v, t))
    requires ValuesOf(g, base, v, t, d)
    ensures Inv(base, v') && ValuesOf(g, base, v', t, d)
  {
    OthersKeepCounter(g, base, e, v, v', t);
    ProgramStepStands(g, base, e, v, v');
    OwnProcessor(base, e, v, v', t);
  }

  /** What one of its own instructions does to a task. */
  lemma OwnStep(g: Program, base: int, v: View, t: Task, d: int)
    requires AllStand(g, base, v) && Running(v, t) && ValuesOf(g, base, v, t, d)
    ensures Inv(base, Execute(g, v)) && ValuesOf(g, base, Execute(g, v), t, NextTurn(g.spot(v.ctx.eip), d))
  {
    assert TaskStands(g, base, v, t);
    var p := SpotOf(g, base, v, t);
    ExecuteIsTaskStep(g, base, v);
    InstructionStands(g, base, t, p, v.ctx, v.mem);
    ValueStep(g, base, t, p, v.ctx, v.mem, d);
  }

  lemma OwnCounter(g: Program, base: int, v: View, t: Task)
    requires AllStand(g, base, v) && Running(v, t)
    ensures Execute(g, v).mem(g.counter(t))
            == if g.spot(v.ctx.eip) == IncCounter(t) then (v.mem(g.counter(t)) + 1) % 0x1_0000_0000
               else v.mem(g.counter(t))
  {
    assert TaskStands(g, base, v, t);
    CounterStep(g, base, t, SpotOf(g, base, v, t), v.ctx, v.mem, t);
  }

  /** A word that was `start` and has been incremented `n` times. */
  predicate Counted(start: int, n: nat, word: int) { word == if n == 0 then start else (start + n) % 0x1_0000_0000 }

  lemma CountedNext(start: int, n: nat, word: int)
    requires Counted(start, n, word)
    ensures Counted(start, n + 1, (word + 1) % 0x1_0000_0000)
  {
  }

  /** In every run, however the ticks fall, a task's counter word is its start value plus the increments that the
      task has executed. */
  lemma {:induction false} CounterCounts(
    g: Program, base: int, cs: int, views: seq<View>, events: seq<Event>, t: Task, i: nat)
    requires IsProgramRun(g, views, events) && ProgramStart(g, base, cs, views[0]) && i < |views|
    ensures Counted(views[0].mem(g.counter(t)), Increments(g, views, events, t, i), views[i].mem(g.counter(t)))
  {
    if i > 0 {
      CounterCounts(g, base, cs, views, events, t, i - 1);
      StartStands(g, base, cs, views[0]);
      ProgramRunStands(g, base, views, events, i - 1);
      CounterNext(g, base, views, events, t, i - 1);
    }
  }

  lemma CounterNext(g: Program, base: int, views: seq<View>, events: seq<Event>, t: Task, h: nat)
    requires IsProgramRun(g, views, events) && h < |events| && AllStand(g, base, views[h])
    requires Counted(views[0].mem(g.counter(t)), Increments(g, views, events, t, h), views[h].mem(g.counter(t)))
    ensures Counted(views[0].mem(g.counter(t)), Increments(g, views, events, t, h + 1), views[h + 1].mem(g.counter(t)))
  {
    assert ProgramStepsAt(g, views, events, h);
    if Executes(views, events, t, h) {
      OwnCounter(g, base, views[h], t);
      CountedNext(views[0].mem(g.counter(t)), Increments(g, views, events, t, h), views[h].mem(g.counter(t)));
    } else {
      OthersKeepCounter(g, base, events[h], views[h], views[h + 1], t);
    }
  }

  /** At index `i` the task has its values. */
  ghost predicate ValuesAt(g: Program, base: int, views: seq<View>, events: seq<Event>, t: Task, i: nat) {
    && |views| == |events| + 1 && i < |views| && Inv(base, views[i])
    && ValuesOf(g, base, views[i], t, Decrements(g, views, events, t, i))
  }

  lemma StepValues(g: Program, base: int, views: seq<View>, events: seq<Event>, t: Task, h: nat)
    requires ValuesAt(g, base, views, events, t, h) && AllStand(g, base, views[h])
    requires ProgramStepsAt(g, views, events, h)
    ensures ValuesAt(g, base, views, events, t, h + 1)
  {
    var d := Decrements(g, views, events, t, h);
    if Executes(views, events, t, h) {
      OwnStep(g, base, views[h], t, d);
      assert Decrements(g, views, events, t, h + 1) == NextTurn(g.spot(views[h].ctx.eip), d);
    } else {
      OthersKeepValues(g, base, events[h], views[h], views[h + 1], t, d);
      assert Decrements(g, views, events, t, h + 1) == d;
    }
  }

  lemma {:induction false} RunValues(
    g: Program, base: int, cs: int, views: seq<View>, events: seq<Event>, t: Task, i: nat)
    requires IsProgramRun(g, views, events) && ProgramStart(g, base, cs, views[0]) && i < |views|
    ensures ValuesAt(g, base, views, events, t, i)
  {
    if i == 0 {
      StartsAtLoop(g, base, cs, views[0], t);
    } else {
      var h := i - 1;
      RunValues(g, base, cs, views, events, t, h);
      StartStands(g, base, cs, views[0]);
      ProgramRunStands(g, base, views, events, h);
      assert ProgramStepsAt(g, views, events, h);
      StepValues(g, base, views, events, t, h);
    }
  }

  lemma StartsAtLoop(g: Program, base: int, cs: int, v: View, t: Task)
    requires ProgramStart(g, base, cs, v)
    ensures Inv(base, v) && SpotOf(g, base, v, t) == IncCounter(t)
  {
    InitialisedInv(base, Entries(g), cs, v);
    assert VirtualContext(base, v, t) == FreshContext(base, Entries(g), cs, t);
    assert Entries(g)[t] == g.place(IncCounter(t));
  }

  /** In every run, at the call of the print routine EAX is the counter's low byte and EDI the task's place on the
      screen; the routine stores the two hexadecimal digits of that byte, the high one first, in cells next to each
      other; and when the delay is over ECX is 0 after exactly the delay's number of decrements. */
  lemma TaskComputes(g: Program, base: int, cs: int, views: seq<View>, events: seq<Event>, t: Task, i: nat)
    requires IsProgramRun(g, views, events) && ProgramStart(g, base, cs, views[0]) && i < |views|
    ensures Inv(base, views[i])
    ensures PointValues(g, t, SpotOf(g, base, views[i], t), VirtualContext(base, views[i], t),
                        views[i].mem(g.counter(t)), Decrements(g, views, events, t, i))
  {
    RunValues(g, base, cs, views, events, t, i);
    ReadOff(g, t, SpotOf(g, base, views[i], t), VirtualContext(base, views[i], t), views[i].mem,
            Decrements(g, views, events, t, i));
  }

  /** The values at the points that matter, for a counter word of `count` and `d` decrements of the delay. */
  predicate PointValues(g: Program, t: Task, p: Spot, c: Context, count: int, d: int) {
    && (p == CallPrint(t) ==> c.eax == count % 256 && c.edi == g.video(t))
    && (p == Digit(High, StoreWord) ==>
          c.edi == g.video(t) && c.ebx % 65536 == 0x0C00 + HexChar(count % 256 / 16))
    && (p == Digit(Low, StoreWord) ==>
          c.edi == (g.video(t) + 2) % 0x1_0000_0000 && c.ebx % 65536 == 0x0C00 + HexChar(count % 16))
    && (p == SetIf(t) ==> c.ecx == 0 && d == if g.delay(t) == 0 then 0x1_0000_0000 else g.delay(t))
  }

  lemma ReadOff(g: Program, t: Task, p: Spot, c: Context, m: Memory, d: int)
    requires Values(g, t, p, c, m, d)
    ensures PointValues(g, t, p, c, m(g.counter(t)), d)
  {
    LowNibble(m(g.counter(t)));
  }

  lemma LowNibble(x: int)
    ensures x % 256 % 16 == x % 16
  {
    assert x == 16 * (16 * (x / 256) + x % 256 / 16) + x % 256 % 16;
  }

  // ----- a round ends -----

  function Times<S>(step: S -> S, s: S, n: nat): S { if n == 0 then s else Times(step, step(s), n - 1) }

  predicate Falls<S>(step: S -> S, ok: S -> bool, goal: S -> bool, rank: S -> nat, s: S) {
    ok(s) && !goal(s) ==> ok(step(s)) && rank(step(s)) < rank(s)
  }

  lemma {:induction false} FallsToGoal<S(!new)>(
    step: S -> S, ok: S -> bool, goal: S -> bool, rank: S -> nat, s: S) returns (n: nat)
    requires ok(s) && forall x :: Falls(step, ok, goal, rank, x)
    ensures ok(Times(step, s, n)) && goal(Times(step, s, n))
    decreases rank(s)
  {
    n := 0;
    if !goal(s) {
      assert Falls(step, ok, goal, rank, s);
      var k := FallsToGoal(step, ok, goal, rank, step(s));
      n := k + 1;
    }
  }

  function DigitRank(half: Half, d: DigitSpot): nat {
    (if half == High then 16 else 5) + 10 - match d
      case MovBl => 0 case ShrBl => 1 case AndBl => 2 case CmpBl => 3 case JbeDigit => 4
      case AddLetter => 5 case AddZero => 6 case MovBh => 7 case StoreWord => 8 case AddEdi => 9
  }

  /** At least the number of instructions until the task is at the top of its loop again. */
  function Rank(p: Spot, left: nat, turns: nat): nat {
    match p
    case IncCounter(_) => 0 case JmpLoop(_) => 1 case SetIf(_) => 2
    case JnzDelay(_) => 2 * left + 4 case DecEcx(_) => 2 * left + 3 case MovEcx(_) => 2 * turns + 4
    case Ret => 2 * turns + 5 case PopEax => 2 * turns + 6 case PopEbx => 2 * turns + 7
    case Digit(half, d) => 2 * turns + 7 + DigitRank(half, d)
    case PushEbx => 2 * turns + 40 case PushEax => 2 * turns + 41 case CallPrint(_) => 2 * turns + 42
    case MovEdi(_) => 2 * turns + 43 case MaskEax(_) => 2 * turns + 44 case LoadCounter(_) => 2 * turns + 45
  }

  function RankAt(g: Program, t: Task, p: Spot, c: Context): nat {
    var left := if p.DecEcx? && c.ecx == 0 then 0x1_0000_0000 else if c.ecx >= 0 then c.ecx else 0;
    Rank(p, left, Turns(if g.delay(t) >= 0 then g.delay(t) else 0))
  }

  lemma DelayRankFalls(g: Program, base: int, t: Task, p: Spot, c: Context, m: Memory, d: int)
    requires GoodProgram(g, base) && Stands(g, base, t, p, c, m) && Values(g, t, p, c, m, d)
    requires p.MovEcx? || p.DecEcx? || p.JnzDelay?
    ensures RankAt(g, t, After(p, Taken(g, p, c), t), Effect(g, p, c, m).0) < RankAt(g, t, p, c)
  {
    if p.DecEcx? {
      CountDownValues(c, Turns(g.delay(t)) - d);
    }
  }

  lemma DigitRankFalls(half: Half, d: DigitSpot, taken: bool, left: nat, left': nat, turns: nat)
    ensures Rank(if d == JbeDigit && taken then Digit(half, AddZero) else NextDigit(half, d), left', turns)
            < Rank(Digit(half, d), left, turns)
  {
  }

  lemma RankFalls(g: Program, base: int, t: Task, p: Spot, c: Context, m: Memory, d: int)
    requires GoodProgram(g, base) && Stands(g, base, t, p, c, m) && Values(g, t, p, c, m, d) && p != IncCounter(t)
    ensures RankAt(g, t, After(p, Taken(g, p, c), t), Effect(g, p, c, m).0) < RankAt(g, t, p, c)
  {
    if p.Digit? {
      DigitRankFalls(p.half, p.d, Taken(g, p, c), if c.ecx >= 0 then c.ecx else 0,
                     if Effect(g, p, c, m).0.ecx >= 0 then Effect(g, p, c, m).0.ecx else 0, Turns(g.delay(t)));
    } else if p.MovEcx? || p.DecEcx? || p.JnzDelay? {
      DelayRankFalls(g, base, t, p, c, m, d);
    }
  }

  /** Task `t` runs with its values and with `counter` in its counter word. */
  ghost predicate Doing(g: Program, base: int, v: View, t: Task, counter: int) {
    AllStand(g, base, v) && Running(v, t) && v.mem(g.counter(t)) == counter && exists d :: ValuesOf(g, base, v, t, d)
  }

  predicate IsTop(g: Program, v: View, t: Task) { g.spot(v.ctx.eip) == IncCounter(t) }

  function RankOf(g: Program, v: View, t: Task): nat { RankAt(g, t, g.spot(v.ctx.eip), v.ctx) }

  /** One instruction that is not the loop's first keeps the counter and brings the loop's top nearer. */
  lemma StepToTop(g: Program, base: int, v: View, t: Task, counter: int)
    requires Doing(g, base, v, t, counter)
    ensures Doing(g, base, Execute(g, v), t, if IsTop(g, v, t) then (counter + 1) % 0x1_0000_0000 else counter)
    ensures !IsTop(g, v, t) ==> RankOf(g, Execute(g, v), t) < RankOf(g, v, t)
  {
    var d :| ValuesOf(g, base, v, t, d);
    OwnStep(g, base, v, t, d);
    OwnCounter(g, base, v, t);
    ProgramStepStands(g, base, Work, v, Execute(g, v));
    if !IsTop(g, v, t) {
      assert TaskStands(g, base, v, t);
      InstructionStands(g, base, t, g.spot(v.ctx.eip), v.ctx, v.mem);
      RankFalls(g, base, t, g.spot(v.ctx.eip), v.ctx, v.mem, d);
    }
  }

  /** The view `n` instructions later, with no tick between. */
  function Alone(g: Program, v: View, n: nat): View { Times((x: View) => Execute(g, x), v, n) }

  /** One whole round: from the top of the loop the task comes back to it with one more in its counter. */
  lemma RoundCountsOne(g: Program, base: int, v: View, t: Task) returns (n: nat)
    requires AllStand(g, base, v) && Running(v, t) && IsTop(g, v, t)
    ensures n > 0 && IsTop(g, Alone(g, v, n), t)
    ensures Doing(g, base, Alone(g, v, n), t, (v.mem(g.counter(t)) + 1) % 0x1_0000_0000)
  {
    var step: View -> View := x => Execute(g, x);
    var next := (v.mem(g.counter(t)) + 1) % 0x1_0000_0000;
    var ok, goal := (x: View) => Doing(g, base, x, t, next), (x: View) => IsTop(g, x, t);
    var rank := (x: View) => RankOf(g, x, t);
    assert ValuesOf(g, base, v, t, 0);
    StepToTop(g, base, v, t, v.mem(g.counter(t)));
    forall x ensures Falls(step, ok, goal, rank, x) {
      if ok(x) && !goal(x) {
        StepToTop(g, base, x, t, next);
      }
    }
    var k := FallsToGoal(step, ok, goal, rank, step(v));
    n := k + 1;
  }
}
