/** The memory analyzer's allocation accounting: two maps that the probes on malloc, free, mmap and exit update in
    place, with counters that wrap. The reference is unbounded counting over the whole history of events. */
module Allocations {
  import opened StoreBuffer

  const WORD: nat := 0x1_0000_0000
  const LONG: nat := 0x1_0000_0000_0000_0000
  const REGION_SIZE := 1024
  const LEAK_LIMIT := 1024 * 1024

  type u32 = x: nat | x < WORD
  type u64 = x: nat | x < LONG

  function W32(x: int): u32 { x % WORD }
  function W64(x: int): u64 { x % LONG }

  datatype Profile = Profile(
    totalAllocated: u64, totalFreed: u64, active: u32, mallocs: u32, frees: u32, mmaps: u32, peak: u64)
  datatype Region = Region(start: u64, end: u64, size: u64, pid: u32)
  datatype State = State(profiles: map<u32, Profile>, regions: map<u64, Region>)

  /** What a probe sees. `stored` is whether a map accepts a new entry. */
  datatype Event =
    | Malloc(pid: u32, size: u64, stored: bool)
    | MallocReturn(pid: u32, addr: u64, stored: bool)
    | Free(pid: u32, addr: u64)
    | Mmap(pid: u32, size: u64, stored: bool)
    | Exit(pid: u32)

  // ----- the probes, as functions of the two maps -----

  function OnMalloc(s: State, pid: u32, size: u64, stored: bool): State {
    if pid in s.profiles then
      s.(profiles := s.profiles[pid := CountMalloc(s.profiles[pid], size)])
    else if stored then s.(profiles := s.profiles[pid := Profile(size, 0, 1, 1, 0, 0, 0)])
    else s
  }

  function CountMalloc(p: Profile, size: u64): Profile {
    var total := W64(p.totalAllocated + size);
    p.(mallocs := W32(p.mallocs + 1), totalAllocated := total, active := W32(p.active + 1),
       peak := if total > p.peak then total else p.peak)
  }

  function OnMallocReturn(s: State, pid: u32, addr: u64, stored: bool): State {
    if addr == 0 || !stored then s
    else s.(regions := s.regions[addr := Region(addr, W64(addr + REGION_SIZE), REGION_SIZE, pid)])
  }

  function OnFree(s: State, pid: u32, addr: u64): State {
    if addr == 0 || addr !in s.regions then s
    else
      var profiles :=
        if pid in s.profiles then s.profiles[pid := CountFree(s.profiles[pid], s.regions[addr].size)] else s.profiles;
      State(profiles, s.regions - {addr})
  }

  function CountFree(p: Profile, size: u64): Profile {
    p.(frees := W32(p.frees + 1), totalFreed := W64(p.totalFreed + size), active := W32(p.active - 1))
  }

  function OnMmap(s: State, pid: u32, len: u64, stored: bool): State {
    if pid in s.profiles then
      s.(profiles := s.profiles[pid := CountMmap(s.profiles[pid], len)])
    else if stored then s.(profiles := s.profiles[pid := Profile(len, 0, 1, 0, 0, 1, 0)])
    else s
  }

  function CountMmap(p: Profile, len: u64): Profile {
    p.(mmaps := W32(p.mmaps + 1), totalAllocated := W64(p.totalAllocated + len), active := W32(p.active + 1))
  }

  function Apply(s: State, e: Event): State {
    match e
    case Malloc(pid, size, stored) => OnMalloc(s, pid, size, stored)
    case MallocReturn(pid, addr, stored) => OnMallocReturn(s, pid, addr, stored)
    case Free(pid, addr) => OnFree(s, pid, addr)
    case Mmap(pid, len, stored) => OnMmap(s, pid, len, stored)
    case Exit(pid) => s.(profiles := s.profiles - {pid})
  }

  predicate LeakSeen(p: Profile) { p.active > 0 && p.totalAllocated > W64(p.totalFreed + LEAK_LIMIT) }

  /** A free of this address is reported as a double free. */
  predicate DoubleFreeSeen(s: State, addr: u64) { addr != 0 && addr !in s.regions }

  /** What a probe reports, a double free or a leak, when it sees `e`. */
  predicate Reported(s: State, e: Event) {
    match e
    case Free(_, addr) => DoubleFreeSeen(s, addr)
    case Exit(pid) => pid in s.profiles && LeakSeen(s.profiles[pid])
    case _ => false
  }

  class Analyzer {
    var profiles: map<u32, Profile>
    var regions: map<u64, Region>

    ghost function Now(): State
      reads this
    {
      State(profiles, regions)
    }

    constructor ()
      ensures Now() == State(map[], map[])
    {
      profiles, regions := map[], map[];
    }

    /** `trace_malloc`. */
    method TraceMalloc(pid: u32, size: u64, stored: bool)
      modifies this
      ensures Now() == Apply(old(Now()), Malloc(pid, size, stored))
    {
      if pid !in profiles {
        if stored {
          profiles := profiles[pid := Profile(size, 0, 1, 1, 0, 0, 0)];
        }
      } else {
        var p := profiles[pid];
        p := p.(mallocs := W32(p.mallocs + 1));
        p := p.(totalAllocated := W64(p.totalAllocated + size));
        p := p.(active := W32(p.active + 1));
        if p.totalAllocated > p.peak {
          p := p.(peak := p.totalAllocated);
        }
        profiles := profiles[pid := p];
      }
    }

    /** `trace_malloc_ret`. */
    method TraceMallocRet(pid: u32, addr: u64, stored: bool)
      modifies this
      ensures Now() == Apply(old(Now()), MallocReturn(pid, addr, stored))
    {
      if addr == 0 {
        return;
      }
      if stored {
        regions := regions[addr := Region(addr, W64(addr + REGION_SIZE), REGION_SIZE, pid)];
      }
    }

    /** `trace_free`; `alarm` is the double-free report. */
    method TraceFree(pid: u32, addr: u64) returns (alarm: bool)
      modifies this
      ensures Now() == Apply(old(Now()), Free(pid, addr))
      ensures alarm == Reported(old(Now()), Free(pid, addr))
    {
      if addr == 0 {
        return false;
      }
      if addr !in regions {
        return true;
      }
      if pid in profiles {
        var p := profiles[pid];
        p := p.(frees := W32(p.frees + 1));
        p := p.(totalFreed := W64(p.totalFreed + regions[addr].size));
        p := p.(active := W32(p.active - 1));
        profiles := profiles[pid := p];
      }
      regions := regions - {addr};
      return false;
    }

    /** `trace_mmap`. */
    method TraceMmap(pid: u32, len: u64, stored: bool)
      modifies this
      ensures Now() == Apply(old(Now()), Mmap(pid, len, stored))
    {
      if pid !in profiles {
        if stored {
          profiles := profiles[pid := Profile(len, 0, 1, 0, 0, 1, 0)];
        }
      } else {
        var p := profiles[pid];
        p := p.(mmaps := W32(p.mmaps + 1));
        p := p.(totalAllocated := W64(p.totalAllocated + len));
        p := p.(active := W32(p.active + 1));
        profiles := profiles[pid := p];
      }
    }

    /** `trace_process_exit`; `leak` is the leak report. */
    method TraceProcessExit(pid: u32) returns (leak: bool)
      modifies this
      ensures Now() == Apply(old(Now()), Exit(pid))
      ensures leak == Reported(old(Now()), Exit(pid))
    {
      leak := false;
      if pid in profiles {
        var p := profiles[pid];
        leak := p.active > 0 && p.totalAllocated > W64(p.totalFreed + LEAK_LIMIT);
        profiles := profiles - {pid};
      }
    }

    /** The probe that fires on an event. */
    method Observe(e: Event) returns (report: bool)
      modifies this
      ensures Now() == Apply(old(Now()), e) && report == Reported(old(Now()), e)
    {
      report := false;
      match e {
        case Malloc(pid, size, stored) => TraceMalloc(pid, size, stored);
        case MallocReturn(pid, addr, stored) => TraceMallocRet(pid, addr, stored);
        case Free(pid, addr) => report := TraceFree(pid, addr);
        case Mmap(pid, len, stored) => TraceMmap(pid, len, stored);
        case Exit(pid) => report := TraceProcessExit(pid);
      }
    }
  }

  // ----- histories -----

  function Init(es: seq<Event>): seq<Event>
    requires es != []
  {
    es[..|es| - 1]
  }

  function Last(es: seq<Event>): Event
    requires es != []
  {
    es[|es| - 1]
  }

  /** The maps after a history. */
  function Run(es: seq<Event>): State {
    if es == [] then State(map[], map[]) else Apply(Run(Init(es)), Last(es))
  }

  /** The process that the last event about `addr` leaves as its owner. */
  function Holder(es: seq<Event>, addr: u64): Option<u32> {
    if es == [] then None
    else match Last(es)
      case MallocReturn(pid, a, stored) => if a == addr && a != 0 && stored then Some(pid) else Holder(Init(es), addr)
      case Free(pid, a) => if a == addr then None else Holder(Init(es), addr)
      case _ => Holder(Init(es), addr)
  }

  /** Unbounded counts since the profile came to be. `peak` is the total allocated at the last malloc after the
      event that made the profile. */
  datatype Tally = Tally(mallocs: nat, mmaps: nat, frees: nat, totalAllocated: nat, peak: nat) {
    function Net(): int { mallocs + mmaps - frees }
  }

  function Counts(es: seq<Event>, pid: u32): Option<Tally> {
    if es == [] then None
    else
      var before, e := Counts(Init(es), pid), Last(es);
      if e.pid != pid then before
      else match (e, before)
        case (Malloc(_, size, stored), None) => if stored then Some(Tally(1, 0, 0, size, 0)) else None
        case (Malloc(_, size, _), Some(t)) =>
          Some(t.(mallocs := t.mallocs + 1, totalAllocated := t.totalAllocated + size, peak := t.totalAllocated + size))
        case (Mmap(_, len, stored), None) => if stored then Some(Tally(0, 1, 0, len, 0)) else None
        case (Mmap(_, len, _), Some(t)) => Some(t.(mmaps := t.mmaps + 1, totalAllocated := t.totalAllocated + len))
        case (Free(_, addr), Some(t)) => Some(if Holder(Init(es), addr).Some? then t.(frees := t.frees + 1) else t)
        case (Exit(_), _) => None
        case _ => before
  }

  /** The region map is the history's owners. */
  ghost predicate RegionsAgree(es: seq<Event>, addr: u64) {
    var regions := Run(es).regions;
    match Holder(es, addr)
    case None => addr !in regions
    case Some(pid) => addr in regions && regions[addr] == Region(addr, W64(addr + 1024), 1024, pid)
  }

  lemma {:induction false} RegionsAreHolders(es: seq<Event>, addr: u64)
    ensures RegionsAgree(es, addr) && Holder(es, 0) == None
  {
    if es != [] {
      RegionsAreHolders(Init(es), addr);
    }
  }

  /** The wrapped counters of a profile against unbounded ones. */
  ghost predicate ProfileAgrees(p: Profile, t: Tally) {
    && p.mallocs == W32(t.mallocs) && p.mmaps == W32(t.mmaps) && p.frees == W32(t.frees)
    && p.active == W32(t.Net())
    && p.totalAllocated == W64(t.totalAllocated) && p.totalFreed == W64(1024 * t.frees)
    && t.peak <= t.totalAllocated && (t.totalAllocated < LONG ==> p.peak == t.peak)
  }

  ghost predicate Agree(es: seq<Event>, pid: u32) {
    var profiles := Run(es).profiles;
    match Counts(es, pid)
    case None => pid !in profiles
    case Some(t) => pid in profiles && ProfileAgrees(profiles[pid], t)
  }

  lemma AddWraps(a: int, b: int)
    ensures W32(W32(a) + b) == W32(a + b) && W64(W64(a) + b) == W64(a + b)
  {
  }

  lemma CountFreeAgrees(p: Profile, t: Tally)
    requires ProfileAgrees(p, t)
    ensures ProfileAgrees(CountFree(p, REGION_SIZE), t.(frees := t.frees + 1))
  {
    AddWraps(t.frees, 1);
    AddWraps(t.Net(), -1);
    AddWraps(REGION_SIZE * t.frees, REGION_SIZE);
  }

  /** Below overflow the new total is the new peak. */
  lemma PeakFollows(p: Profile, t: Tally, size: u64)
    requires ProfileAgrees(p, t) && t.totalAllocated + size < LONG
    ensures CountMalloc(p, size).peak == t.totalAllocated + size
  {
  }

  lemma CountMallocAgrees(p: Profile, t: Tally, size: u64)
    requires ProfileAgrees(p, t)
    ensures var total := t.totalAllocated + size;
            ProfileAgrees(CountMalloc(p, size), Tally(t.mallocs + 1, t.mmaps, t.frees, total, total))
  {
    AddWraps(t.mallocs, 1);
    AddWraps(t.Net(), 1);
    AddWraps(t.totalAllocated, size);
    if t.totalAllocated + size < LONG {
      PeakFollows(p, t, size);
    }
  }

  lemma CountMmapAgrees(p: Profile, t: Tally, len: u64)
    requires ProfileAgrees(p, t)
    ensures ProfileAgrees(CountMmap(p, len), t.(mmaps := t.mmaps + 1, totalAllocated := t.totalAllocated + len))
  {
    AddWraps(t.mmaps, 1);
    AddWraps(t.Net(), 1);
    AddWraps(t.totalAllocated, len);
  }

  /** After any history at all, every live profile holds its counts, wrapped. */
  lemma {:induction false} ProfilesCount(es: seq<Event>, pid: u32)
    ensures Agree(es, pid)
  {
    if es != [] {
      ProfilesCount(Init(es), pid);
      AgreeStep(es, pid);
    }
  }

  lemma AgreeStep(es: seq<Event>, pid: u32)
    requires es != [] && Agree(Init(es), pid)
    ensures Agree(es, pid)
  {
    var s, e, before := Run(Init(es)), Last(es), Counts(Init(es), pid);
    if e.pid == pid {
      match e {
        case Malloc(_, size, _) =>
          if before.Some? {
            CountMallocAgrees(s.profiles[pid], before.value, size);
          }
        case Mmap(_, len, _) =>
          if before.Some? {
            CountMmapAgrees(s.profiles[pid], before.value, len);
          }
        case Free(_, addr) =>
          RegionsAreHolders(Init(es), addr);
          if before.Some? {
            CountFreeAgrees(s.profiles[pid], before.value);
          }
        case _ =>
      }
    }
  }

  // ----- when the active count stays true -----

  /** Calls of malloc seen to begin and not yet seen to return, since the process last exited. */
  function Pending(es: seq<Event>, pid: u32): int {
    if es == [] then 0
    else
      var before, e := Pending(Init(es), pid), Last(es);
      if e.pid != pid then before
      else match e
        case Malloc(_, _, _) => before + 1
        case MallocReturn(_, _, _) => before - 1
        case Exit(_) => 0
        case _ => before
  }

  /** The profile exists or can be made; a return follows its entry; a process frees what it holds; and it holds
      nothing when it exits. */
  ghost predicate OrderlyLast(es: seq<Event>)
    requires es != []
  {
    var before := Init(es);
    match Last(es)
    case Malloc(pid, _, stored) => stored || Counts(before, pid).Some?
    case Mmap(pid, _, stored) => stored || Counts(before, pid).Some?
    case MallocReturn(pid, _, _) => Pending(before, pid) > 0
    case Free(pid, addr) => Holder(before, addr).Some? ==> Holder(before, addr).value == pid
    case Exit(pid) => forall addr :: Holder(before, addr) != Some(pid)
  }

  ghost predicate Orderly(es: seq<Event>) { es == [] || (Orderly(Init(es)) && OrderlyLast(es)) }

  /** The addresses tracked for a process. */
  function Held(regions: map<u64, Region>, pid: u32): set<u64> {
    set addr | addr in regions && regions[addr].pid == pid
  }

  /** A live process has at least as many active regions as it holds and is about to hold; any other has none. */
  ghost predicate Covered(es: seq<Event>, pid: u32) {
    var held := |Held(Run(es).regions, pid)|;
    && Pending(es, pid) >= 0
    && match Counts(es, pid)
       case None => held == 0 && Pending(es, pid) == 0
       case Some(t) => held + Pending(es, pid) <= t.Net()
  }

  lemma HeldAfterReturn(s: State, pid: u32, addr: u64, other: u32)
    requires addr != 0
    ensures var now, was := Held(OnMallocReturn(s, pid, addr, true).regions, other), Held(s.regions, other);
            |now| <= |was| + if other == pid then 1 else 0
  {
    var now, was := Held(OnMallocReturn(s, pid, addr, true).regions, other), Held(s.regions, other);
    assert now == if other == pid then was + {addr} else was - {addr};
    if other != pid {
      Smaller(now, was);
    }
  }

  lemma HeldAfterFree(s: State, pid: u32, addr: u64, other: u32)
    requires addr != 0 && addr in s.regions
    ensures var now, was := Held(OnFree(s, pid, addr).regions, other), Held(s.regions, other);
            |now| == |was| - if other == s.regions[addr].pid then 1 else 0
  {
    var now, was := Held(OnFree(s, pid, addr).regions, other), Held(s.regions, other);
    assert now == was - {addr};
    assert addr in was <==> other == s.regions[addr].pid;
  }

  lemma Smaller(a: set<u64>, b: set<u64>)
    requires a <= b
    ensures |a| <= |b|
  {
    assert b == a + (b - a);
  }

  lemma NothingHeld(es: seq<Event>, pid: u32)
    requires forall addr :: Holder(es, addr) != Some(pid)
    ensures Held(Run(es).regions, pid) == {}
  {
    forall addr | addr in Held(Run(es).regions, pid) ensures false {
      RegionsAreHolders(es, addr);
    }
  }

  lemma CoveredStep(es: seq<Event>, pid: u32)
    requires es != [] && OrderlyLast(es) && Covered(Init(es), pid)
    ensures Covered(es, pid)
  {
    var s, e := Run(Init(es)), Last(es);
    match e {
      case MallocReturn(p, addr, stored) =>
        if addr != 0 && stored {
          HeldAfterReturn(s, p, addr, pid);
        }
      case Free(p, addr) =>
        RegionsAreHolders(Init(es), addr);
        if addr in s.regions {
          HeldAfterFree(s, p, addr, pid);
        }
      case Exit(p) =>
        if p == pid {
          NothingHeld(Init(es), pid);
        }
      case _ =>
    }
  }

  lemma {:induction false} OrderlyIsCovered(es: seq<Event>, pid: u32)
    requires Orderly(es)
    ensures Covered(es, pid)
  {
    if es != [] {
      OrderlyIsCovered(Init(es), pid);
      CoveredStep(es, pid);
    }
  }

  /** With no assumption on the history, the active count is what it should be exactly while the net count fits. */
  lemma ActiveExactIff(es: seq<Event>, pid: u32)
    requires pid in Run(es).profiles
    ensures Counts(es, pid).Some?
    ensures var net := Counts(es, pid).value.Net(); Run(es).profiles[pid].active == net <==> 0 <= net < WORD
  {
    ProfilesCount(es, pid);
  }

  lemma UnwrappedIfCovered(p: Profile, t: Tally)
    requires ProfileAgrees(p, t) && t.Net() >= 0 && t.mallocs + t.mmaps < WORD
    ensures p.active == t.Net() && p.totalFreed == REGION_SIZE * t.frees < WORD * REGION_SIZE
  {
  }

  lemma LeakSeenIff(p: Profile, t: Tally)
    requires p.active == t.Net() && p.totalFreed == REGION_SIZE * t.frees < WORD * REGION_SIZE
    requires p.totalAllocated == t.totalAllocated
    ensures LeakSeen(p) <==> t.Net() > 0 && t.totalAllocated > REGION_SIZE * t.frees + LEAK_LIMIT
  {
  }

  ghost predicate Exact(es: seq<Event>, pid: u32) {
    var p := Run(es).profiles;
    match Counts(es, pid)
    case None => pid !in p
    case Some(t) =>
      pid in p &&
      (t.mallocs + t.mmaps < 0x1_0000_0000 ==>
         && p[pid].active == t.Net() >= |Held(Run(es).regions, pid)|
         && (t.totalAllocated < LONG ==>
              (LeakSeen(p[pid]) <==> t.Net() > 0 && t.totalAllocated > 1024 * t.frees + 0x10_0000)))
  }

  /** In an orderly history of fewer than 2^32 allocations, for every process and all along, the active count is
      exact, so never wraps, and is at least the number of tracked regions; and the leak report at exit means more
      than 1 MB allocated beyond 1024 bytes for each free. */
  lemma OrderlyIsExact(es: seq<Event>, pid: u32)
    requires Orderly(es)
    ensures Exact(es, pid)
  {
    OrderlyIsCovered(es, pid);
    ProfilesCount(es, pid);
    ExactIfCovered(es, pid);
  }

  lemma ExactIfCovered(es: seq<Event>, pid: u32)
    requires Covered(es, pid) && Agree(es, pid)
    ensures Exact(es, pid)
  {
    if Counts(es, pid).Some? {
      var t, p := Counts(es, pid).value, Run(es).profiles[pid];
      if t.mallocs + t.mmaps < WORD {
        UnwrappedIfCovered(p, t);
        if t.totalAllocated < LONG {
          LeakSeenIff(p, t);
        }
      }
    }
  }

  /** Nor does a free take the count below zero. */
  lemma FreeFindsOne(es: seq<Event>, pid: u32, addr: u64)
    requires Orderly(es + [Free(pid, addr)]) && addr in Run(es).regions && pid in Run(es).profiles
    requires Counts(es, pid).Some? ==> Counts(es, pid).value.mallocs + Counts(es, pid).value.mmaps < WORD
    ensures Run(es).profiles[pid].active > 0
  {
    assert Init(es + [Free(pid, addr)]) == es;
    OrderlyIsExact(es, pid);
    RegionsAreHolders(es, addr);
    assert addr in Held(Run(es).regions, pid);
  }

  // ----- what goes wrong otherwise -----

  /** A history with one more event. */
  function Plus(es: seq<Event>, e: Event): (r: seq<Event>)
    ensures r != [] && Init(r) == es && Last(r) == e && Run(r) == Apply(Run(es), e)
  {
    es + [e]
  }

  /** One allocation that a process makes. */
  function Allocation(es: seq<Event>, pid: u32, addr: u64): seq<Event> {
    Plus(Plus(es, Malloc(pid, 8, true)), MallocReturn(pid, addr, true))
  }

  /** A process id used again: regions outlive the profile, so the second life, which has one allocation of its
      own, frees that and the one left over, and the active count ends at 2^32 - 1. */
  lemma ReusedPidWraps(pid: u32)
    ensures var first := Plus(Allocation([], pid, 4096), Exit(pid));
            var second := Plus(Plus(Allocation(first, pid, 8192), Free(pid, 4096)), Free(pid, 8192));
            pid in Run(second).profiles && Run(second).profiles[pid].active == WORD - 1
  {
    var first := Plus(Allocation([], pid, 4096), Exit(pid));
    assert Run(first) == State(map[], map[4096 := Region(4096, 5120, 1024, pid)]);
  }

  /** Freeing an address that another process is on record for wraps the count as well. */
  lemma ForeignFreeWraps(one: u32, two: u32)
    requires one != two
    ensures var es := Allocation(Allocation([], one, 4096), two, 8192);
            var end := Plus(Plus(es, Free(two, 4096)), Free(two, 8192));
            two in Run(end).profiles && Run(end).profiles[two].active == WORD - 1
  {
    var start := Allocation([], one, 4096);
    var young := Profile(8, 0, 1, 1, 0, 0, 0);
    assert Run(start) == State(map[one := young], map[4096 := Region(4096, 5120, 1024, one)]);
    var es := Allocation(start, two, 8192);
    assert Run(es).profiles[two] == young && 4096 in Run(es).regions && 8192 in Run(es).regions;
    var next := Plus(es, Free(two, 4096));
    assert Run(next).profiles[two].active == 0 && 8192 in Run(next).regions;
  }

  /** One process, whose profile can be made, that does not exit and whose returns follow their entries. */
  ghost predicate OneProcess(es: seq<Event>, pid: u32) {
    forall n :: 0 < n <= |es| ==> OneProcessAt(es[..n], pid)
  }

  ghost predicate OneProcessAt(es: seq<Event>, pid: u32)
    requires es != []
  {
    Last(es).pid == pid
    && match Last(es)
       case Malloc(_, _, stored) => stored || Counts(Init(es), pid).Some?
       case Mmap(_, _, stored) => stored || Counts(Init(es), pid).Some?
       case MallocReturn(_, _, _) => Pending(Init(es), pid) > 0
       case Free(_, _) => true
       case Exit(_) => false
  }

  lemma {:induction false} OneProcessHolds(es: seq<Event>, pid: u32, addr: u64)
    requires OneProcess(es, pid)
    ensures Holder(es, addr).Some? ==> Holder(es, addr).value == pid
  {
    if es != [] {
      OneProcessShorter(es, pid);
      OneProcessHolds(Init(es), pid, addr);
    }
  }

  lemma OneProcessShorter(es: seq<Event>, pid: u32)
    requires es != [] && OneProcess(es, pid)
    ensures OneProcess(Init(es), pid) && OneProcessAt(es, pid)
  {
    assert es[..|es|] == es;
    forall n | 0 < n <= |es| - 1 ensures OneProcessAt(Init(es)[..n], pid) {
      assert Init(es)[..n] == es[..n];
    }
  }

  lemma {:induction false} OneProcessIsOrderly(es: seq<Event>, pid: u32)
    requires OneProcess(es, pid)
    ensures Orderly(es)
  {
    if es != [] {
      OneProcessShorter(es, pid);
      OneProcessIsOrderly(Init(es), pid);
      if Last(es).Free? {
        OneProcessHolds(Init(es), pid, Last(es).addr);
      }
    }
  }

  // ----- when the double-free report is right -----

  /** The region map changes at the address. */
  predicate Touches(e: Event, addr: u64) {
    match e
    case MallocReturn(_, a, stored) => a == addr && stored
    case Free(_, a) => a == addr
    case _ => false
  }

  /** An event of the process itself about the address: it gets it, whether or not the map took it, gives it back,
      or exits. */
  predicate OwnEvent(e: Event, pid: u32, addr: u64) {
    e.pid == pid
    && match e
       case MallocReturn(_, a, _) => a == addr
       case Free(_, a) => a == addr
       case Exit(_) => true
       case _ => false
  }

  /** The position of the last such event, or -1. */
  function LastTouch(es: seq<Event>, addr: u64): (t: int)
    ensures -1 <= t < |es| && (t >= 0 ==> Touches(es[t], addr))
    ensures forall k :: t < k < |es| ==> !Touches(es[k], addr)
  {
    if es == [] then -1 else if Touches(Last(es), addr) then |es| - 1 else LastTouch(Init(es), addr)
  }

  function LastOwn(es: seq<Event>, pid: u32, addr: u64): (o: int)
    ensures -1 <= o < |es| && (o >= 0 ==> OwnEvent(es[o], pid, addr))
    ensures forall k :: o < k < |es| ==> !OwnEvent(es[k], pid, addr)
  {
    if es == [] then -1 else if OwnEvent(Last(es), pid, addr) then |es| - 1 else LastOwn(Init(es), pid, addr)
  }

  /** The process's own view, which knows nothing of the maps: it has got the address and neither given it back
      nor exited since. */
  predicate Owns(es: seq<Event>, pid: u32, addr: u64) {
    var o := LastOwn(es, pid, addr);
    o >= 0 && es[o].MallocReturn?
  }

  /** A free by the process is reported exactly when the address is not its own to free. */
  predicate ReportRight(es: seq<Event>, pid: u32, addr: u64) {
    Reported(Run(es), Free(pid, addr)) <==> addr != 0 && !Owns(es, pid, addr)
  }

  /** What the history must be for that. If the map has recorded nothing about the address since the process's own
      last event, and that event itself was recorded, all is well. A later record is another process's, and must
      leave the address as the process has it. An earlier one means that the process's own event left no record: a
      refused return needs a region that stood already, an exit needs that none stood. */
  predicate RecordKept(es: seq<Event>, pid: u32, addr: u64) {
    var t, o := LastTouch(es, addr), LastOwn(es, pid, addr);
    if t == o then true
    else if t > o then es[t].MallocReturn? <==> o >= 0 && es[o].MallocReturn?
    else if es[o].MallocReturn? then t >= 0 && es[t].MallocReturn?
    else t >= 0 ==> es[t].Free?
  }

  lemma {:induction false} StandingIsTracked(es: seq<Event>, addr: u64)
    requires addr != 0
    ensures var t := LastTouch(es, addr); addr in Run(es).regions <==> t >= 0 && es[t].MallocReturn?
  {
    if es != [] {
      StandingIsTracked(Init(es), addr);
    }
  }

  /** Which record is whose: later than the process's last event only another's, and its own returns and frees
      leave one unless the map refuses it. */
  lemma RecordsAndEvents(es: seq<Event>, pid: u32, addr: u64)
    ensures var t, o := LastTouch(es, addr), LastOwn(es, pid, addr);
            && (t > o ==> es[t].pid != pid)
            && (t < o ==> es[o].Exit? || (es[o].MallocReturn? && !es[o].stored))
  {
    var t, o := LastTouch(es, addr), LastOwn(es, pid, addr);
    if t > o {
      assert !OwnEvent(es[t], pid, addr);
    } else if t < o {
      assert !Touches(es[o], addr);
    }
  }

  /** The report on a free is right exactly when the record was kept, whatever the history. */
  lemma ReportRightIff(es: seq<Event>, pid: u32, addr: u64)
    ensures ReportRight(es, pid, addr) <==> addr == 0 || RecordKept(es, pid, addr)
  {
    if addr != 0 {
      StandingIsTracked(es, addr);
      RecordsAndEvents(es, pid, addr);
    }
  }

  /** For one process alone, the only cause of a wrong report is a return that the full map refused. */
  lemma {:induction false} OneProcessReport(es: seq<Event>, pid: u32, addr: u64)
    requires OneProcess(es, pid) && addr != 0
    ensures var t, o := LastTouch(es, addr), LastOwn(es, pid, addr);
            ReportRight(es, pid, addr)
            <==> !(o >= 0 && es[o].MallocReturn? && !es[o].stored && (t >= 0 ==> es[t].Free?))
  {
    var t, o := LastTouch(es, addr), LastOwn(es, pid, addr);
    ReportRightIff(es, pid, addr);
    RecordsAndEvents(es, pid, addr);
    forall k | 0 <= k < |es| ensures es[k].pid == pid && !es[k].Exit? {
      assert OneProcessAt(es[..k + 1], pid);
    }
  }

  /** Regions are kept by address alone, so two processes that use the same address disturb each other: after the
      first one's free the second, which still has the address, is reported for a double free. */
  lemma SharedAddressFalseAlarm(one: u32, two: u32, addr: u64)
    requires one != two && addr != 0
    ensures var es := Plus(Allocation(Allocation([], one, addr), two, addr), Free(one, addr));
            Owns(es, two, addr) && Reported(Run(es), Free(two, addr))
  {
    var es := Plus(Allocation(Allocation([], one, addr), two, addr), Free(one, addr));
    assert OwnEvent(es[3], two, addr) && LastOwn(es, two, addr) == 3;
  }

  /** A full map is enough for one orderly process: its region is not recorded, and its first free is reported. */
  lemma RefusedRegionFalseAlarm(pid: u32, addr: u64)
    requires addr != 0
    ensures var es := Plus(Plus([], Malloc(pid, 8, true)), MallocReturn(pid, addr, false));
            Orderly(es) && OneProcess(es, pid) && Owns(es, pid, addr) && Reported(Run(es), Free(pid, addr))
  {
    var one := Plus([], Malloc(pid, 8, true));
    var es := Plus(one, MallocReturn(pid, addr, false));
    assert OneProcessAt(one, pid) && OneProcessAt(es, pid);
    assert es[..1] == one && es[..2] == es;
    OneProcessIsOrderly(es, pid);
  }

  /** And a free of what the process does not have goes unreported while another process has the address. */
  lemma ForeignFreeUnreported(one: u32, two: u32, addr: u64)
    requires one != two && addr != 0
    ensures var es := Allocation([], one, addr);
            !Owns(es, two, addr) && !Reported(Run(es), Free(two, addr))
  {
    var es := Allocation([], one, addr);
    assert LastOwn(es, two, addr) == -1;
  }

  // ----- whole histories through the probes -----

  /** The probes, fed a history: the maps are its state, and each report is read off the history before it. */
  method Replay(es: seq<Event>) returns (a: Analyzer, reports: seq<bool>)
    ensures a.Now() == Run(es)
    ensures |reports| == |es| && forall i :: 0 <= i < |es| ==> reports[i] == Reported(Run(es[..i]), es[i])
  {
    a := new Analyzer();
    reports := [];
    for i := 0 to |es|
      invariant fresh(a) && a.Now() == Run(es[..i])
      invariant |reports| == i && forall k :: 0 <= k < i ==> reports[k] == Reported(Run(es[..k]), es[k])
    {
      assert Init(es[..i + 1]) == es[..i];
      var report := a.Observe(es[i]);
      reports := reports + [report];
    }
    assert es[..|es|] == es;
  }
}
