/** The shared-memory ring: one producer (the packet hook) with an x86-TSO store buffer, and a consumer that is
    only known to read a slot it has seen published and then to release it. Heads run freely and wrap at 2^64;
    a slot is stored in two parts, so an unfinished slot could be seen torn. */
module Ring {
  import opened StoreBuffer
  import opened Remainders

  const HEADS := 0x1_0000_0000_0000_0000

  /** A `fast_event` as its eight-byte and four-byte parts. */
  datatype Event = Event(lo: int, hi: int)

  /** The remainder, which is what both the wrap of a 64-bit head and `& ring_mask` compute. */
  function Mod(n: nat, d: nat): (r: nat)
    requires d > 0
    ensures r < d
  {
    if n < d then n else Mod(n - d, d)
  }

  /** `size` is `ring_mask + 1`; masks of the form 2^k - 1 are what makes `& ring_mask` a remainder. */
  predicate GoodSize(size: nat) { size > 0 && HEADS % size == 0 }

  datatype Loc = Lo(slot: int) | Hi(slot: int) | Head

  /** Start waits for a packet and loads `producer_head`; Test loads `consumer_head` and compares; StoreLo and
      StoreHi fill the slot; Fence and Publish are the barrier and the head update. */
  datatype ProducerPc = Start | Test | StoreLo | StoreHi | Fence | Publish

  datatype ConsumerPc = Look | ReadLo | ReadHi | Release

  /** `accepted` are the events whose new head has been stored, `received` what the consumer has released:
      histories no step reads. */
  datatype State = State(
    slots: seq<Event>, producerHead: nat, consumerHead: nat,
    ppc: ProducerPc, event: Event, head: nat, buf: seq<Write<Loc>>,
    cpc: ConsumerPc, read: Event,
    accepted: seq<Event>, received: seq<Event>)

  datatype Action = Arrive(e: Event) | Produce | Drain | Consume

  /** The producer loads its own head: the newest pending store of it, or memory. */
  function LoadHead(s: State): nat {
    var v := Forward(s.buf, Head, s.producerHead);
    if v >= 0 then v else 0
  }

  function ProduceStep(size: nat, s: State): Option<State>
    requires GoodSize(size)
  {
    match s.ppc
    case Start => None
    case Test =>
      if Mod(Mod(s.head + 1, HEADS), size) != Mod(s.consumerHead, size) then Some(s.(ppc := StoreLo))
      else Some(s.(ppc := Start))
    case StoreLo => Some(s.(buf := s.buf + [Write(Lo(Mod(s.head, size)), s.event.lo)], ppc := StoreHi))
    case StoreHi => Some(s.(buf := s.buf + [Write(Hi(Mod(s.head, size)), s.event.hi)], ppc := Fence))
    case Fence => if s.buf != [] then None else Some(s.(ppc := Publish))
    case Publish =>
      Some(s.(buf := s.buf + [Write(Head, Mod(s.head + 1, HEADS))], ppc := Start, accepted := s.accepted + [s.event]))
  }

  function DrainStep(s: State): Option<State> {
    if s.buf == [] then None
    else
      var t := s.(buf := s.buf[1..]);
      var v := s.buf[0].val;
      match s.buf[0].loc
      case Head => if v >= 0 then Some(t.(producerHead := v)) else None
      case Lo(i) => if 0 <= i < |s.slots| then Some(t.(slots := s.slots[i := s.slots[i].(lo := v)])) else None
      case Hi(i) => if 0 <= i < |s.slots| then Some(t.(slots := s.slots[i := s.slots[i].(hi := v)])) else None
  }

  /** The environment: it advances only a ring it has seen non-empty, after reading the slot. */
  function ConsumeStep(size: nat, s: State): Option<State>
    requires GoodSize(size)
  {
    var at := Mod(s.consumerHead, size);
    if at >= |s.slots| then None
    else match s.cpc
      case Look => if s.producerHead != s.consumerHead then Some(s.(cpc := ReadLo)) else None
      case ReadLo => Some(s.(read := s.read.(lo := s.slots[at].lo), cpc := ReadHi))
      case ReadHi => Some(s.(read := s.read.(hi := s.slots[at].hi), cpc := Release))
      case Release =>
        Some(s.(consumerHead := Mod(s.consumerHead + 1, HEADS), received := s.received + [s.read], cpc := Look))
  }

  function Step(size: nat, s: State, a: Action): Option<State>
    requires GoodSize(size)
  {
    match a
    case Arrive(e) =>
      if s.ppc != Start then None
      else Some(s.(event := e, head := LoadHead(s), ppc := Test))
    case Produce => ProduceStep(size, s)
    case Drain => DrainStep(s)
    case Consume => ConsumeStep(size, s)
  }

  /** An empty ring, wherever its equal heads stand: `base` packets have gone through before. */
  predicate Initial(size: nat, base: nat, s: State) {
    && |s.slots| == size && s.producerHead == Mod(base, HEADS) && s.consumerHead == Mod(base, HEADS)
    && s.ppc == Start && s.buf == [] && s.cpc == Look && s.accepted == [] && s.received == []
  }

  function Exec(size: nat, s: State, acts: seq<Action>): Option<State>
    requires GoodSize(size)
  {
    if acts == [] then Some(s)
    else match Exec(size, s, acts[..|acts| - 1])
      case None => None
      case Some(mid) => Step(size, mid, acts[|acts| - 1])
  }

  // ----- remainders -----

  lemma {:induction false} ModQuotient(n: nat, d: nat) returns (q: nat)
    requires d > 0
    ensures n == q * d + Mod(n, d)
  {
    if n < d {
      q := 0;
    } else {
      var p := ModQuotient(n - d, d);
      q := p + 1;
      assert q * d == p * d + d;
    }
  }

  lemma ModUnique(n: nat, q: int, r: int, d: nat)
    requires d > 0 && n == q * d + r && 0 <= r < d
    ensures Mod(n, d) == r
  {
    var q' := ModQuotient(n, d);
    RemaindersAgree(q, r, q', Mod(n, d), d);
  }

  lemma ModIsRemainder(n: nat, d: nat)
    requires d > 0
    ensures Mod(n, d) == n % d
  {
    var q, r := n / d, n % d;
    assert n == q * d + r;
    ModUnique(n, q, r, d);
  }

  lemma HeadsQuotient(size: nat) returns (k: nat)
    requires GoodSize(size)
    ensures HEADS == k * size
  {
    k := HEADS / size;
  }

  /** Masking a wrapped head is masking the count behind it. */
  lemma ModOfMod(n: nat, size: nat)
    requires GoodSize(size)
    ensures Mod(Mod(n, HEADS), size) == Mod(n, size)
  {
    var k := HeadsQuotient(size);
    var q := ModQuotient(n, HEADS);
    var m := Mod(n, HEADS);
    var q' := ModQuotient(m, size);
    TwoQuotients(q, k, q', size);
    ModUnique(n, q * k + q', Mod(m, size), size);
  }

  lemma TwoQuotients(q: int, k: int, q': int, size: int)
    ensures q * (k * size) + q' * size == (q * k + q') * size
  {
    assert q * (k * size) == (q * k) * size;
  }

  lemma ModNext(n: nat)
    ensures Mod(Mod(n, HEADS) + 1, HEADS) == Mod(n + 1, HEADS)
  {
    ModIsRemainder(n, HEADS);
    ModIsRemainder(Mod(n, HEADS) + 1, HEADS);
    ModIsRemainder(n + 1, HEADS);
  }

  /** Positions less than one turn apart have different slots, and positions one turn apart the same. */
  lemma SlotsDiffer(a: nat, b: nat, size: nat)
    requires size > 0 && a <= b <= a + size
    ensures Mod(a, size) == Mod(b, size) <==> a == b || b == a + size
  {
    var q := ModQuotient(a, size);
    var r, d := Mod(a, size), b - a;
    if r + d < size {
      ModUnique(b, q, r + d, size);
    } else if r + d < 2 * size {
      assert q * size + size == (q + 1) * size;
      ModUnique(b, q + 1, r + d - size, size);
    }
  }

  // ----- the inductive invariant -----

  /** Events ever accepted and released, `base` included. */
  function Produced(base: nat, s: State): nat { base + |s.accepted| }
  function Consumed(base: nat, s: State): nat { base + |s.received| }

  predicate HeadPending(s: State) { s.buf != [] && s.buf[0].loc == Head }

  /** What the consumer may see published. */
  function Published(base: nat, s: State): int { Produced(base, s) - if HeadPending(s) then 1 else 0 }

  predicate ProducerInv(size: nat, base: nat, s: State)
    requires size > 0
  {
    var n := Produced(base, s);
    var at := Mod(n, size);
    var lo, hi, up := Write(Lo(at), s.event.lo), Write(Hi(at), s.event.hi), Write(Head, Mod(n, HEADS));
    && (s.ppc != Start ==> s.head == Mod(n, HEADS))
    && (s.ppc in {StoreLo, StoreHi, Fence, Publish} ==> n - Consumed(base, s) < size - 1)
    && (HeadPending(s) ==> |s.accepted| > 0)
    && match s.ppc
       case Start | Test | StoreLo => s.buf == [] || s.buf == [up]
       case StoreHi => s.buf == [] || s.buf == [lo] || s.buf == [up, lo]
       case Fence => s.buf == [] || s.buf == [hi] || s.buf == [lo, hi] || s.buf == [up, lo, hi]
       case Publish => s.buf == []
  }

  /** The slot being filled holds the parts that have drained. */
  predicate SlotInv(size: nat, base: nat, s: State)
    requires size > 0 && |s.slots| == size
  {
    var at := Mod(Produced(base, s), size);
    && (s.ppc == StoreHi && s.buf == [] ==> s.slots[at].lo == s.event.lo)
    && (s.ppc == Fence && |s.buf| <= 1 ==> s.slots[at].lo == s.event.lo)
    && (s.ppc == Fence && s.buf == [] ==> s.slots[at].hi == s.event.hi)
    && (s.ppc == Publish ==> s.slots[at] == s.event)
  }

  /** Every accepted event not yet released is whole in its slot. */
  predicate ContentsInv(size: nat, base: nat, s: State)
    requires size > 0 && |s.slots| == size
  {
    forall j :: |s.received| <= j < |s.accepted| ==> s.slots[Mod(base + j, size)] == s.accepted[j]
  }

  predicate ConsumerInv(size: nat, base: nat, s: State)
    requires size > 0 && |s.slots| == size
  {
    var at := Mod(Consumed(base, s), size);
    && (s.cpc != Look ==> Consumed(base, s) < Published(base, s))
    && (s.cpc in {ReadHi, Release} ==> s.read.lo == s.slots[at].lo)
    && (s.cpc == Release ==> s.read.hi == s.slots[at].hi)
  }

  predicate CountInv(size: nat, base: nat, s: State) {
    && |s.received| <= |s.accepted|
    && s.received == s.accepted[..|s.received|]
    && Consumed(base, s) <= Published(base, s)
    && Produced(base, s) - Consumed(base, s) <= size - 1
    && s.consumerHead == Mod(Consumed(base, s), HEADS)
    && s.producerHead == Mod(Published(base, s), HEADS)
  }

  predicate Inv(size: nat, base: nat, s: State) {
    && GoodSize(size) && |s.slots| == size
    && CountInv(size, base, s) && ProducerInv(size, base, s) && SlotInv(size, base, s)
    && ContentsInv(size, base, s) && ConsumerInv(size, base, s)
  }

  lemma ArriveKeepsInv(size: nat, base: nat, s: State, e: Event)
    requires Inv(size, base, s) && s.ppc == Start
    ensures Inv(size, base, Step(size, s, Arrive(e)).value)
  {
    assert LoadHead(s) == Mod(Produced(base, s), HEADS);
  }

  /** The comparison refuses exactly a full ring: the next head meets the consumer's head, both masked, only
      when `ring_mask` events are unread. */
  lemma TestIsFull(size: nat, base: nat, s: State)
    requires Inv(size, base, s) && s.ppc == Test
    ensures Mod(Mod(s.head + 1, HEADS), size) == Mod(s.consumerHead, size)
            <==> Produced(base, s) - Consumed(base, s) == size - 1
  {
    var n, m := Produced(base, s), Consumed(base, s);
    ModNext(n);
    ModOfMod(n + 1, size);
    ModOfMod(m, size);
    SlotsDiffer(m, n + 1, size);
  }

  lemma TestKeepsInv(size: nat, base: nat, s: State)
    requires Inv(size, base, s) && s.ppc == Test
    ensures Inv(size, base, ProduceStep(size, s).value)
  {
    TestIsFull(size, base, s);
  }

  lemma StoreKeepsInv(size: nat, base: nat, s: State)
    requires Inv(size, base, s) && s.ppc in {StoreLo, StoreHi, Fence} && ProduceStep(size, s).Some?
    ensures Inv(size, base, ProduceStep(size, s).value)
  {
    ModOfMod(Produced(base, s), size);
    var s' := ProduceStep(size, s).value;
    assert HeadPending(s') == HeadPending(s);
    assert ProducerInv(size, base, s');
  }

  lemma PublishKeepsInv(size: nat, base: nat, s: State)
    requires Inv(size, base, s) && s.ppc == Publish
    ensures Inv(size, base, ProduceStep(size, s).value)
  {
    ModNext(Produced(base, s));
  }

  /** A drain of a slot part touches no unread event: its slot is the one after the last accepted. */
  lemma SlotDrainKeepsContents(size: nat, base: nat, s: State)
    requires Inv(size, base, s) && s.buf != [] && s.buf[0].loc != Head
    ensures DrainStep(s).Some? && |DrainStep(s).value.slots| == size
    ensures ContentsInv(size, base, DrainStep(s).value)
    ensures s.cpc != Look ==> var at := Mod(Consumed(base, s), size); DrainStep(s).value.slots[at] == s.slots[at]
  {
    var n, s' := Produced(base, s), DrainStep(s).value;
    forall j | |s.received| <= j < |s.accepted| ensures s'.slots[Mod(base + j, size)] == s.accepted[j] {
      SlotsDiffer(base + j, n, size);
    }
    if s.cpc != Look {
      SlotsDiffer(Consumed(base, s), n, size);
    }
  }

  lemma SlotDrainKeepsInv(size: nat, base: nat, s: State)
    requires Inv(size, base, s) && s.buf != [] && s.buf[0].loc != Head
    ensures DrainStep(s).Some? && Inv(size, base, DrainStep(s).value)
  {
    SlotDrainKeepsContents(size, base, s);
    var s' := DrainStep(s).value;
    if |s.buf| == 2 {
      assert s'.buf == [s.buf[1]];
    } else {
      assert s'.buf == [];
    }
  }

  lemma HeadDrainKeepsInv(size: nat, base: nat, s: State)
    requires Inv(size, base, s) && HeadPending(s)
    ensures DrainStep(s).Some? && Inv(size, base, DrainStep(s).value)
  {
    var s' := DrainStep(s).value;
    if |s.buf| == 3 {
      assert s'.buf == [s.buf[1], s.buf[2]];
    } else if |s.buf| == 2 {
      assert s'.buf == [s.buf[1]];
    } else {
      assert s'.buf == [];
    }
  }

  lemma LookKeepsInv(size: nat, base: nat, s: State)
    requires Inv(size, base, s) && s.cpc == Look && ConsumeStep(size, s).Some?
    ensures Inv(size, base, ConsumeStep(size, s).value)
  {
  }

  lemma ReadKeepsInv(size: nat, base: nat, s: State)
    requires Inv(size, base, s) && s.cpc in {ReadLo, ReadHi} && ConsumeStep(size, s).Some?
    ensures Inv(size, base, ConsumeStep(size, s).value)
  {
    ModOfMod(Consumed(base, s), size);
  }

  lemma ReleaseKeepsInv(size: nat, base: nat, s: State)
    requires Inv(size, base, s) && s.cpc == Release && ConsumeStep(size, s).Some?
    ensures Inv(size, base, ConsumeStep(size, s).value)
    ensures s.read == s.accepted[|s.received|]
  {
    ModNext(Consumed(base, s));
    var s' := ConsumeStep(size, s).value;
    assert s.slots[Mod(base + |s.received|, size)] == s.accepted[|s.received|];
    assert s'.received == s.accepted[..|s.received| + 1];
  }

  lemma StepKeepsInv(size: nat, base: nat, s: State, a: Action)
    requires Inv(size, base, s) && Step(size, s, a).Some?
    ensures Inv(size, base, Step(size, s, a).value)
  {
    match a {
      case Arrive(e) => ArriveKeepsInv(size, base, s, e);
      case Produce =>
        match s.ppc {
          case Test => TestKeepsInv(size, base, s);
          case StoreLo | StoreHi | Fence => StoreKeepsInv(size, base, s);
          case Publish => PublishKeepsInv(size, base, s);
        }
      case Drain =>
        if HeadPending(s) { HeadDrainKeepsInv(size, base, s); } else { SlotDrainKeepsInv(size, base, s); }
      case Consume =>
        match s.cpc {
          case Look => LookKeepsInv(size, base, s);
          case ReadLo | ReadHi => ReadKeepsInv(size, base, s);
          case Release => ReleaseKeepsInv(size, base, s);
        }
    }
  }

  lemma {:induction false} RunKeepsInv(size: nat, base: nat, s0: State, acts: seq<Action>)
    requires GoodSize(size) && Initial(size, base, s0) && Exec(size, s0, acts).Some?
    ensures Inv(size, base, Exec(size, s0, acts).value)
  {
    if acts != [] {
      var front, a := acts[..|acts| - 1], acts[|acts| - 1];
      RunKeepsInv(size, base, s0, front);
      StepKeepsInv(size, base, Exec(size, s0, front).value, a);
    }
  }

  // ----- whole-run theorems -----

  /** In every reachable state: the consumer has received a prefix of the accepted events, whole and in order;
      the rest is at most `ring_mask` events, each whole in its own slot. */
  lemma RingIsFifo(size: nat, base: nat, s0: State, acts: seq<Action>, s: State)
    requires GoodSize(size) && Initial(size, base, s0) && Exec(size, s0, acts) == Some(s)
    ensures s.received <= s.accepted && |s.slots| == size
    ensures |s.accepted| - |s.received| <= size - 1
    ensures forall j :: |s.received| <= j < |s.accepted| ==> s.slots[Mod(base + j, size)] == s.accepted[j]
  {
    RunKeepsInv(size, base, s0, acts);
  }

  /** A packet is refused exactly when, at the comparison, `ring_mask` events are unread. */
  lemma RefusedOnlyWhenFull(size: nat, base: nat, s0: State, acts: seq<Action>, s: State)
    requires GoodSize(size) && Initial(size, base, s0) && Exec(size, s0, acts) == Some(s) && s.ppc == Test
    ensures ProduceStep(size, s) == Some(s.(ppc := Start)) <==> |s.accepted| - |s.received| == size - 1
  {
    RunKeepsInv(size, base, s0, acts);
    TestIsFull(size, base, s);
  }

  /** No pending store of the producer lands on the slot of an unread event, and none it will issue: the slot
      it fills is another. */
  lemma NoOverwrite(size: nat, base: nat, s0: State, acts: seq<Action>, s: State, k: nat, j: nat)
    requires GoodSize(size) && Initial(size, base, s0) && Exec(size, s0, acts) == Some(s)
    requires |s.received| <= j < |s.accepted|
    ensures s.ppc != Start ==> Mod(s.head, size) != Mod(base + j, size)
    ensures k < |s.buf| ==> s.buf[k].loc != Lo(Mod(base + j, size)) && s.buf[k].loc != Hi(Mod(base + j, size))
  {
    RunKeepsInv(size, base, s0, acts);
    ModOfMod(Produced(base, s), size);
    SlotsDiffer(base + j, Produced(base, s), size);
  }

  /** When the consumer sees a head that differs from its own, the next event is already whole in its slot: the
      barrier has drained both parts before the head. */
  lemma NoTear(size: nat, base: nat, s0: State, acts: seq<Action>, s: State)
    requires GoodSize(size) && Initial(size, base, s0) && Exec(size, s0, acts) == Some(s)
    requires s.producerHead != s.consumerHead
    ensures |s.received| < |s.accepted| && |s.slots| == size
    ensures s.slots[Mod(s.consumerHead, size)] == s.accepted[|s.received|]
  {
    RunKeepsInv(size, base, s0, acts);
    ModOfMod(Consumed(base, s), size);
    assert s.slots[Mod(base + |s.received|, size)] == s.accepted[|s.received|];
  }

  /** `ring_mask` = 2^k - 1 for any k up to 64 is a good mask. */
  function Power2(k: nat): (p: nat)
    ensures p >= 1
  {
    if k == 0 then 1 else 2 * Power2(k - 1)
  }

  lemma {:induction false} PowerSplits(k: nat, m: nat)
    ensures Power2(k + m) == Power2(k) * Power2(m)
  {
    if k > 0 {
      PowerSplits(k - 1, m);
      assert 2 * (Power2(k - 1) * Power2(m)) == (2 * Power2(k - 1)) * Power2(m);
    }
  }

  lemma PowersAreGoodSizes(k: nat)
    requires k <= 64
    ensures GoodSize(Power2(k))
  {
    PowerSplits(64 - k, k);
    Heads64();
    var p, q := Power2(k), Power2(64 - k);
    assert HEADS == q * p + 0;
    ModUnique(HEADS, q, 0, p);
    ModIsRemainder(HEADS, p);
  }

  lemma Heads64()
    ensures Power2(64) == HEADS
  {
    assert Power2(4) == 16;
    PowerSplits(4, 4);
    assert Power2(8) == 0x100;
    PowerSplits(8, 8);
    assert Power2(16) == 0x1_0000;
    PowerSplits(16, 16);
    assert Power2(32) == 0x1_0000_0000;
    PowerSplits(32, 32);
  }

  /** Bitwise and, bit by bit from the lowest. */
  function And(a: nat, b: nat): nat {
    if a == 0 || b == 0 then 0 else (a % 2) * (b % 2) + 2 * And(a / 2, b / 2)
  }

  /** One more mask bit keeps one more bit of the head. */
  lemma OneMoreBit(a: nat, p: nat)
    requires p >= 1
    ensures And(a, 2 * p - 1) == a % 2 + 2 * And(a / 2, p - 1)
  {
    assert (2 * p - 1) / 2 == p - 1 && (2 * p - 1) % 2 == 1;
  }

  lemma DoubleRemainder(a: nat, p: nat)
    requires p >= 1
    ensures Mod(a, 2 * p) == a % 2 + 2 * Mod(a / 2, p)
  {
    var q := ModQuotient(a / 2, p);
    var r := Mod(a / 2, p);
    assert a == 2 * (a / 2) + a % 2;
    assert 2 * (q * p) == q * (2 * p);
    ModUnique(a, q, a % 2 + 2 * r, 2 * p);
  }

  /** `& ring_mask` with `ring_mask` = 2^k - 1 is the remainder that the theorems above use. */
  lemma {:induction false} MaskIsMod(head: nat, k: nat)
    ensures And(head, Power2(k) - 1) == Mod(head, Power2(k))
  {
    if k == 0 {
      var q := ModQuotient(head, 1);
    } else {
      OneMoreBit(head, Power2(k - 1));
      DoubleRemainder(head, Power2(k - 1));
      MaskIsMod(head / 2, k - 1);
    }
  }
}
