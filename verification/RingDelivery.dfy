/** What the ring delivers, told from the schedule alone: which packets arrive, which pass the producer's test, and
    what the consumer reads. */
module RingDelivery {
  import opened StoreBuffer
  import opened Ring

  // ----- the schedule's own account -----

  /** The packet that arrived last. */
  function LastArrival(acts: seq<Action>): Option<Event> {
    if acts == [] then None
    else if acts[|acts| - 1].Arrive? then Some(acts[|acts| - 1].e)
    else LastArrival(acts[..|acts| - 1])
  }

  /** The consumer's steps that release a slot. */
  function Releases(size: nat, s0: State, acts: seq<Action>): nat
    requires GoodSize(size)
  {
    if acts == [] then 0
    else
      var front := acts[..|acts| - 1];
      var s := Exec(size, s0, front);
      Releases(size, s0, front)
      + if s.Some? && acts[|acts| - 1] == Consume && s.value.cpc == Release then 1 else 0
  }

  /** Every packet that arrived, in order, except those whose test found `ring_mask` events unread: the passed ones
      before it without the released ones. */
  function Passed(size: nat, s0: State, acts: seq<Action>): seq<Event>
    requires GoodSize(size)
  {
    if acts == [] then []
    else
      var front := acts[..|acts| - 1];
      var s, before := Exec(size, s0, front), Passed(size, s0, front);
      if s.Some? && acts[|acts| - 1] == Produce && s.value.ppc == Test && LastArrival(front).Some?
         && |before| - Releases(size, s0, front) != size - 1
      then before + [LastArrival(front).value]
      else before
  }

  /** What the consumer has read out of each slot it released. */
  function Reads(size: nat, s0: State, acts: seq<Action>): seq<Event>
    requires GoodSize(size)
  {
    if acts == [] then []
    else
      var front := acts[..|acts| - 1];
      var s, before := Exec(size, s0, front), Reads(size, s0, front);
      if s.Some? && acts[|acts| - 1] == Consume && s.value.cpc == Release then before + [s.value.read] else before
  }

  // ----- the machine keeps it -----

  /** A packet that has passed is accepted, or is the one being stored. */
  ghost predicate Kept(size: nat, s0: State, acts: seq<Action>, s: State)
    requires GoodSize(size)
  {
    && (s.ppc != Start ==> LastArrival(acts) == Some(s.event))
    && Passed(size, s0, acts) == s.accepted + (if s.ppc in {Start, Test} then [] else [s.event])
    && Reads(size, s0, acts) == s.received && Releases(size, s0, acts) == |s.received|
  }

  lemma ProduceKeeps(size: nat, base: nat, s0: State, front: seq<Action>, s: State)
    requires GoodSize(size) && Initial(size, base, s0) && Exec(size, s0, front) == Some(s)
    requires Kept(size, s0, front, s) && Inv(size, base, s) && ProduceStep(size, s).Some?
    ensures Kept(size, s0, front + [Produce], ProduceStep(size, s).value)
  {
    assert (front + [Produce])[..|front|] == front;
    if s.ppc == Test {
      TestIsFull(size, base, s);
    }
  }

  lemma OtherKeeps(size: nat, base: nat, s0: State, front: seq<Action>, s: State, a: Action)
    requires GoodSize(size) && Initial(size, base, s0) && Exec(size, s0, front) == Some(s)
    requires Kept(size, s0, front, s) && Step(size, s, a).Some? && a != Produce
    ensures Kept(size, s0, front + [a], Step(size, s, a).value)
  {
    assert (front + [a])[..|front|] == front;
  }

  lemma {:induction false} RunKeeps(size: nat, base: nat, s0: State, acts: seq<Action>, s: State)
    requires GoodSize(size) && Initial(size, base, s0) && Exec(size, s0, acts) == Some(s)
    ensures Kept(size, s0, acts, s)
  {
    if acts != [] {
      var front, a := acts[..|acts| - 1], acts[|acts| - 1];
      var mid := Exec(size, s0, front).value;
      RunKeeps(size, base, s0, front, mid);
      RunKeepsInv(size, base, s0, front);
      assert acts == front + [a];
      if a == Produce {
        ProduceKeeps(size, base, s0, front, mid);
      } else {
        OtherKeeps(size, base, s0, front, mid, a);
      }
    }
  }

  /** In every run: whenever the producer is not in the middle of storing, the events published are exactly the
      packets that arrived, in order and unchanged, minus those whose test found the ring full; the consumer has
      read exactly the first of them; and the head it will see counts them. */
  lemma DeliversWhatPassed(size: nat, base: nat, s0: State, acts: seq<Action>, s: State)
    requires GoodSize(size) && Initial(size, base, s0) && Exec(size, s0, acts) == Some(s)
    ensures s.ppc in {Start, Test} ==> s.accepted == Passed(size, s0, acts)
    ensures Reads(size, s0, acts) == s.received <= Passed(size, s0, acts)
    ensures s.consumerHead == Mod(base + |Reads(size, s0, acts)|, HEADS)
    ensures s.ppc in {Start, Test} && s.buf == [] ==>
              s.producerHead == Mod(base + |Passed(size, s0, acts)|, HEADS)
  {
    RunKeeps(size, base, s0, acts, s);
    RunKeepsInv(size, base, s0, acts);
  }

  // ----- progress -----

  /** `acts` leads from `s` to `t`. */
  predicate Leads(size: nat, s: State, acts: seq<Action>, t: State)
    requires GoodSize(size)
  {
    Exec(size, s, acts) == Some(t)
  }

  lemma Append(size: nat, base: nat, s: State, acts: seq<Action>, t: State, a: Action) returns (t': State)
    requires GoodSize(size) && Leads(size, s, acts, t) && Inv(size, base, t) && Step(size, t, a).Some?
    ensures Step(size, t, a) == Some(t') && Leads(size, s, acts + [a], t') && Inv(size, base, t')
  {
    assert (acts + [a])[..|acts|] == acts;
    StepKeepsInv(size, base, t, a);
    t' := Step(size, t, a).value;
  }

  lemma {:induction false} AppendAll(size: nat, s: State, acts: seq<Action>, t: State, more: seq<Action>, u: State)
    requires GoodSize(size) && Leads(size, s, acts, t) && Leads(size, t, more, u)
    ensures Leads(size, s, acts + more, u)
  {
    if more == [] {
      assert acts + more == acts;
    } else {
      var front := more[..|more| - 1];
      AppendAll(size, s, acts, t, front, Exec(size, t, front).value);
      assert (acts + more)[..|acts + more| - 1] == acts + front;
    }
  }

  lemma CanDrain(size: nat, base: nat, s: State)
    requires Inv(size, base, s) && s.buf != []
    ensures GoodSize(size) && DrainStep(s).Some?
  {
    if HeadPending(s) {
      HeadDrainKeepsInv(size, base, s);
    } else {
      SlotDrainKeepsInv(size, base, s);
    }
  }

  lemma {:induction false} DrainAll(size: nat, base: nat, s: State) returns (acts: seq<Action>, t: State)
    requires Inv(size, base, s)
    ensures GoodSize(size) && Leads(size, s, acts, t) && Inv(size, base, t) && t.buf == []
    ensures t.ppc == s.ppc && t.event == s.event && t.head == s.head && t.consumerHead == s.consumerHead
    ensures t.accepted == s.accepted && t.received == s.received && t.cpc == s.cpc
    decreases |s.buf|
  {
    acts, t := [], s;
    if s.buf != [] {
      CanDrain(size, base, s);
      var next := Append(size, base, s, [], s, Drain);
      var more;
      more, t := DrainAll(size, base, next);
      AppendAll(size, s, [] + [Drain], next, more, t);
      acts := [] + [Drain] + more;
    }
  }

  /** From any point between the test and the publication the producer gets its event out. */
  lemma {:induction false} Publishes(size: nat, base: nat, s: State) returns (acts: seq<Action>, t: State)
    requires Inv(size, base, s) && s.ppc in {StoreLo, StoreHi, Fence, Publish}
    ensures GoodSize(size) && Leads(size, s, acts, t) && Inv(size, base, t) && t.buf == [] && t.ppc == Start
    ensures t.accepted == s.accepted + [s.event] && t.received == s.received
    decreases match s.ppc case StoreLo => 4 case StoreHi => 3 case Fence => 2 case _ => 1
  {
    var a1, s1 := DrainAll(size, base, s);
    var s2 := Append(size, base, s, a1, s1, Produce);
    var a3, s3;
    if s.ppc == Publish {
      a3, s3 := DrainAll(size, base, s2);
    } else {
      a3, s3 := Publishes(size, base, s2);
    }
    AppendAll(size, s, a1 + [Produce], s2, a3, s3);
    acts, t := a1 + [Produce] + a3, s3;
  }

  /** The consumer's next steps up to and with a release. */
  lemma {:induction false} Receives(size: nat, base: nat, s: State) returns (acts: seq<Action>, t: State)
    requires Inv(size, base, s) && s.buf == [] && s.ppc == Start && |s.received| < |s.accepted|
    ensures GoodSize(size) && Leads(size, s, acts, t) && Inv(size, base, t) && t.buf == [] && t.ppc == Start
    ensures t.accepted == s.accepted && |t.received| == |s.received| + 1
    decreases match s.cpc case Look => 4 case ReadLo => 3 case ReadHi => 2 case Release => 1
  {
    if s.cpc == Look {
      HeadsDiffer(size, base, s);
    }
    assert Mod(s.consumerHead, size) < size;
    var s1 := Append(size, base, s, [], s, Consume);
    if s.cpc == Release {
      acts, t := [] + [Consume], s1;
    } else {
      var more;
      more, t := Receives(size, base, s1);
      AppendAll(size, s, [] + [Consume], s1, more, t);
      acts := [] + [Consume] + more;
    }
  }

  /** Unread events show: the heads differ even after wrapping. */
  lemma HeadsDiffer(size: nat, base: nat, s: State)
    requires Inv(size, base, s) && s.buf == [] && |s.received| < |s.accepted|
    ensures s.producerHead != s.consumerHead
  {
    SizeAtMostHeads(size);
    SlotsDiffer(Consumed(base, s), Produced(base, s), HEADS);
  }

  lemma SizeAtMostHeads(size: nat)
    requires GoodSize(size)
    ensures size <= HEADS
  {
    var k := HeadsQuotient(size);
    if k == 0 {
      assert false;
    }
    assert k * size == (k - 1) * size + size;
  }

  lemma {:induction false} ReceivesAll(size: nat, base: nat, s: State) returns (acts: seq<Action>, t: State)
    requires Inv(size, base, s) && s.buf == [] && s.ppc == Start
    ensures GoodSize(size) && Leads(size, s, acts, t) && Inv(size, base, t)
    ensures t.accepted == s.accepted == t.received
    decreases |s.accepted| - |s.received|
  {
    acts, t := [], s;
    if |s.received| < |s.accepted| {
      var a1, s1 := Receives(size, base, s);
      var a2, s2 := ReceivesAll(size, base, s1);
      AppendAll(size, s, a1, s1, a2, s2);
      acts, t := a1 + a2, s2;
    }
  }

  /** From every reachable test with room, some continuation publishes this packet, the last that arrived, and a
      further one has the consumer receive everything up to and with it. */
  lemma PassedIsDelivered(size: nat, base: nat, s0: State, acts: seq<Action>, s: State)
    returns (publish: seq<Action>, t: State, consume: seq<Action>, u: State)
    requires GoodSize(size) && Initial(size, base, s0) && Leads(size, s0, acts, s)
    requires s.ppc == Test && |Passed(size, s0, acts)| - Releases(size, s0, acts) != size - 1
    ensures LastArrival(acts).Some?
    ensures Leads(size, s, publish, t) && t.ppc == Start && t.buf == []
    ensures t.accepted == Passed(size, s0, acts) + [LastArrival(acts).value]
    ensures t.producerHead == Mod(base + |t.accepted|, HEADS) && Mod(base + |t.accepted|, HEADS) != t.consumerHead
    ensures Leads(size, t, consume, u)
    ensures Reads(size, s0, acts + publish + consume) == t.accepted
  {
    RunKeeps(size, base, s0, acts, s);
    RunKeepsInv(size, base, s0, acts);
    TestIsFull(size, base, s);
    var s1 := Append(size, base, s, [], s, Produce);
    var more;
    more, t := Publishes(size, base, s1);
    publish := [] + [Produce] + more;
    AppendAll(size, s, [] + [Produce], s1, more, t);
    HeadsDiffer(size, base, t);
    consume, u := ReceivesAll(size, base, t);
    AppendAll(size, s0, acts, s, publish, t);
    AppendAll(size, s0, acts + publish, t, consume, u);
    RunKeeps(size, base, s0, acts + publish + consume, u);
  }
}
