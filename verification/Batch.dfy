/** The per-CPU batch buffer: hooks add events to an array of 64 and a full or periodic flush submits them in
    order to a ring buffer that may refuse any of them. Each hook is atomic on its CPU. */
module Batch {

  const MAX_BATCH_SIZE := 64

  /** `payload` stands for the fields the hook fills in; `batchId` is the count it read beforehand. */
  datatype Event = Event(payload: int, batchId: int)

  /** The events whose reservation was granted, in order. */
  function Granted(events: seq<Event>, outcomes: seq<bool>): (kept: seq<Event>)
    requires |events| == |outcomes|
  {
    if events == [] then []
    else
      var front := Granted(events[..|events| - 1], outcomes[..|events| - 1]);
      if outcomes[|events| - 1] then front + [events[|events| - 1]] else front
  }

  function Refusals(outcomes: seq<bool>): nat {
    if outcomes == [] then 0
    else Refusals(outcomes[..|outcomes| - 1]) + if outcomes[|outcomes| - 1] then 0 else 1
  }

  lemma GrantedNext(all: seq<Event>, outcomes: seq<bool>, granted: bool)
    requires |outcomes| < |all|
    ensures Granted(all[..|outcomes| + 1], outcomes + [granted])
            == Granted(all[..|outcomes|], outcomes) + if granted then [all[|outcomes|]] else []
  {
    assert all[..|outcomes| + 1][..|outcomes|] == all[..|outcomes|];
    assert (outcomes + [granted])[..|outcomes|] == outcomes;
  }

  /** Conservation: what is missing after submission is exactly what was refused. */
  lemma {:induction false} GrantedConserves(events: seq<Event>, outcomes: seq<bool>)
    requires |events| == |outcomes|
    ensures |Granted(events, outcomes)| + Refusals(outcomes) == |events|
  {
    if events != [] {
      GrantedConserves(events[..|events| - 1], outcomes[..|events| - 1]);
    }
  }

  /** Strictly increasing positions of `sub` in `all`. */
  predicate Embeds(sub: seq<Event>, all: seq<Event>, at: seq<int>) {
    && |at| == |sub|
    && (forall i :: 0 <= i < |at| ==> 0 <= at[i] < |all| && all[at[i]] == sub[i])
    && (forall i, j :: 0 <= i < j < |at| ==> at[i] < at[j])
  }

  lemma EmbedsLonger(sub: seq<Event>, all: seq<Event>, at: seq<int>, e: Event)
    requires Embeds(sub, all, at)
    ensures Embeds(sub, all + [e], at) && Embeds(sub + [e], all + [e], at + [|all|])
  {
    forall i | 0 <= i < |at| ensures (all + [e])[at[i]] == sub[i] {
      assert all[at[i]] == sub[i];
    }
  }

  /** Order: the submitted events are a subsequence of those flushed. */
  lemma {:induction false} GrantedEmbeds(events: seq<Event>, outcomes: seq<bool>) returns (at: seq<int>)
    requires |events| == |outcomes|
    ensures Embeds(Granted(events, outcomes), events, at)
  {
    if events == [] {
      at := [];
    } else {
      var n := |events| - 1;
      at := GrantedEmbeds(events[..n], outcomes[..n]);
      EmbedsLonger(Granted(events[..n], outcomes[..n]), events[..n], at, events[n]);
      assert events[..n] + [events[n]] == events;
      if outcomes[n] {
        at := at + [n];
      }
    }
  }

  /** The reservations that a hook makes when it finds `count` events: a full batch is flushed, slot by slot. */
  function HookOutcomes(count: int, grants: int -> bool): seq<bool> {
    if count == 64 then seq(64, i => grants(i)) else []
  }

  class BatchBuffer {
    var count: int
    var head: int
    var tail: int
    var dropped: int
    const events: array<Event>
    var batchFlushes: int
    var submitted: seq<Event>
    ghost var added: seq<Event>
    ghost var outcomes: seq<bool>

    constructor ()
      ensures Valid() && fresh(events) && dropped == 0
      ensures added == [] && submitted == [] && outcomes == [] && Pending() == []
    {
      count, head, tail, dropped, batchFlushes := 0, 0, 0, 0, 0;
      events := new Event[MAX_BATCH_SIZE](i => Event(0, 0));
      submitted, added, outcomes := [], [], [];
    }

    /** Everything added is, in order, either behind a reservation outcome or pending; the submitted events are
        the granted ones. A pending event carries its slot as `batchId`, except that the event that triggered a
        flush sits in slot 0 with 64. */
    ghost predicate Valid()
      reads this, events
    {
      && events.Length == MAX_BATCH_SIZE && 0 <= count <= MAX_BATCH_SIZE
      && |added| == |outcomes| + count
      && submitted == Granted(added[..|outcomes|], outcomes)
      && events[..count] == added[|outcomes|..]
      && forall i :: 0 <= i < count ==> events[i].batchId == i || (i == 0 && events[i].batchId == 64)
    }

    ghost function Pending(): seq<Event>
      reads this, events
      requires Valid()
    {
      events[..count]
    }

    /** One round of the flush loop: submit the event if its reservation is granted. */
    method ReserveAndSubmit(e: Event, granted: bool)
      requires |outcomes| < |added| && added[|outcomes|] == e && submitted == Granted(added[..|outcomes|], outcomes)
      modifies `submitted, `outcomes
      ensures outcomes == old(outcomes) + [granted] && submitted == Granted(added[..|outcomes|], outcomes)
    {
      GrantedNext(added, outcomes, granted);
      if granted {
        submitted := submitted + [e];
      }
      outcomes := outcomes + [granted];
    }

    /** `flush_batch_buffer`; `grants(i)` says whether the reservation for slot i succeeds. */
    method Flush(grants: int -> bool)
      requires Valid()
      modifies this
      ensures Valid() && count == 0 && added == old(added) && dropped == old(dropped)
      ensures outcomes == old(outcomes) + seq(old(count), i => grants(i))
      ensures batchFlushes == old(batchFlushes) + if old(count) == 0 then 0 else 1
    {
      if count == 0 {
        return;
      }
      ghost var before, pending := |outcomes|, events[..count];
      var i := 0;
      while i < count && i < MAX_BATCH_SIZE
        invariant 0 <= i <= count && count == |pending|
        invariant |outcomes| == before + i && |added| == before + |pending|
        invariant added[before..] == pending && events[..count] == pending
        invariant submitted == Granted(added[..|outcomes|], outcomes)
        invariant added == old(added) && dropped == old(dropped) && batchFlushes == old(batchFlushes)
        invariant outcomes == old(outcomes) + seq(i, k => grants(k))
      {
        assert events[i] == pending[i] == added[before + i];
        ReserveAndSubmit(events[i], grants(i));
        i := i + 1;
      }
      count := 0;
      head := 0;
      tail := 0;
      batchFlushes := batchFlushes + 1;
    }

    /** `add_to_batch`, called by a hook with the count it read as `batchId`. It never drops: a full batch has
        just been flushed when the second test runs. */
    method AddToBatch(e: Event, grants: int -> bool) returns (result: int)
      requires Valid() && e.batchId == count
      modifies this, events
      ensures Valid() && result == 0 && dropped == old(dropped)
      ensures added == old(added) + [e]
      ensures count == if old(count) == MAX_BATCH_SIZE then 1 else old(count) + 1
      ensures outcomes == old(outcomes) + HookOutcomes(old(count), grants)
    {
      if count >= MAX_BATCH_SIZE {
        Flush(grants);
      }
      if count < MAX_BATCH_SIZE {
        Append(e);
        return 0;
      }
      assert false;
    }

    method Append(e: Event)
      requires Valid() && count < MAX_BATCH_SIZE && (e.batchId == count || (count == 0 && e.batchId == MAX_BATCH_SIZE))
      modifies this, events
      ensures Valid() && added == old(added) + [e] && count == old(count) + 1
      ensures outcomes == old(outcomes) && dropped == old(dropped)
    {
      events[count] := e;
      count := count + 1;
      added := added + [e];
      assert added[..|outcomes|] == old(added)[..|outcomes|];
      assert events[..count] == old(events[..count]) + [e];
      assert added[|outcomes|..] == old(added)[|outcomes|..] + [e];
    }

    /** The batch part of an event hook. */
    method Record(payload: int, grants: int -> bool)
      requires Valid()
      modifies this, events
      ensures Valid() && dropped == old(dropped)
      ensures added == old(added) + [Event(payload, old(count))]
      ensures count == if old(count) == MAX_BATCH_SIZE then 1 else old(count) + 1
      ensures outcomes == old(outcomes) + HookOutcomes(old(count), grants)
    {
      var event := Event(payload, count);
      var _ := AddToBatch(event, grants);
    }

    /** `periodic_flush`. */
    method PeriodicFlush(grants: int -> bool)
      requires Valid()
      modifies this
      ensures Valid() && count == 0 && added == old(added) && dropped == old(dropped)
      ensures outcomes == old(outcomes) + seq(old(count), i => grants(i))
      ensures batchFlushes == old(batchFlushes) + if old(count) == 0 then 0 else 1
    {
      if count > 0 {
        Flush(grants);
      }
    }

    /** In every valid state nothing is unaccounted for: what was added and is neither submitted nor pending
        was refused, one for one, and submitted-then-pending is an order-preserving subsequence of added. */
    lemma Accounting() returns (at: seq<int>)
      requires Valid()
      ensures |added| == |submitted| + count + Refusals(outcomes)
      ensures Embeds(submitted + Pending(), added, at)
    {
      var n := |outcomes|;
      GrantedConserves(added[..n], outcomes);
      at := GrantedEmbeds(added[..n], outcomes);
      at := at + seq(count, i => n + i);
      assert forall i :: 0 <= i < count ==> added[n..][i] == added[n + i];
    }
  }

  // ----- whole runs -----

  datatype Op = Hook(payload: int) | Periodic

  function HookPayloads(ops: seq<Op>): seq<int> {
    if ops == [] then []
    else HookPayloads(ops[..|ops| - 1]) + if ops[|ops| - 1].Hook? then [ops[|ops| - 1].payload] else []
  }

  function Payloads(events: seq<Event>): (p: seq<int>)
    ensures |p| == |events|
  {
    seq(|events|, i requires 0 <= i < |events| => events[i].payload)
  }

  /** How many events are pending after the operations. */
  function PendingAfter(ops: seq<Op>): (n: nat)
    ensures n <= 64
  {
    if ops == [] || ops[|ops| - 1].Periodic? then 0
    else
      var before := PendingAfter(ops[..|ops| - 1]);
      if before == 64 then 1 else before + 1
  }

  /** Every reservation that the operations make, in order; `grants(k, i)` is the answer for slot i in operation k. */
  function Reservations(ops: seq<Op>, grants: (int, int) -> bool): seq<bool> {
    if ops == [] then []
    else
      var k := |ops| - 1;
      var before := PendingAfter(ops[..k]);
      Reservations(ops[..k], grants)
      + if ops[k].Hook? then HookOutcomes(before, i => grants(k, i)) else seq(before, i => grants(k, i))
  }

  /** Reservations are made for events only: each hook adds one, and what is still pending has had none. */
  lemma {:induction false} ReservationsCount(ops: seq<Op>, grants: (int, int) -> bool)
    ensures |Reservations(ops, grants)| + PendingAfter(ops) == |HookPayloads(ops)|
  {
    if ops != [] {
      ReservationsCount(ops[..|ops| - 1], grants);
    }
  }

  /** With every reservation granted nothing is refused, so nothing is lost. */
  lemma {:induction false} AllGranted(outcomes: seq<bool>)
    ensures Refusals(outcomes) == 0 <==> forall i :: 0 <= i < |outcomes| ==> outcomes[i]
  {
    if outcomes != [] {
      var front := outcomes[..|outcomes| - 1];
      AllGranted(front);
      assert forall i :: 0 <= i < |front| ==> front[i] == outcomes[i];
    }
  }

  /** Any sequence of hooks and periodic flushes, under any pattern of refusals: every hook's event is added in
      its place and none is dropped; the reservations are exactly those the operations make, with the answers of
      the pattern, and the submitted events are the granted ones; what is neither submitted nor pending was
      refused, one for one; and the order is kept. */
  method Replay(ops: seq<Op>, grants: (int, int) -> bool) returns (b: BatchBuffer, ghost at: seq<int>)
    ensures fresh(b) && fresh(b.events) && b.Valid() && b.dropped == 0
    ensures Payloads(b.added) == HookPayloads(ops)
    ensures b.outcomes == Reservations(ops, grants) && b.count == PendingAfter(ops)
    ensures b.submitted == Granted(b.added[..|b.outcomes|], Reservations(ops, grants))
    ensures |HookPayloads(ops)| == |b.submitted| + b.count + Refusals(Reservations(ops, grants))
    ensures Embeds(b.submitted + b.Pending(), b.added, at)
  {
    b := new BatchBuffer();
    var k := 0;
    while k < |ops|
      invariant 0 <= k <= |ops| && fresh(b) && fresh(b.events) && b.Valid() && b.dropped == 0
      invariant Payloads(b.added) == HookPayloads(ops[..k])
      invariant b.outcomes == Reservations(ops[..k], grants) && b.count == PendingAfter(ops[..k])
    {
      assert ops[..k + 1][..k] == ops[..k];
      match ops[k] {
        case Hook(payload) =>
          ghost var was := b.added;
          b.Record(payload, i => grants(k, i));
          assert Payloads(b.added) == Payloads(was) + [payload];
        case Periodic => b.PeriodicFlush(i => grants(k, i));
      }
      k := k + 1;
    }
    assert ops[..k] == ops;
    at := b.Accounting();
  }
}
