/** Two unsynchronised workers incrementing one variable, each increment a load and a store that may stay in the
    worker's store buffer. What the variable can end up as, exactly. */
module Contention {
  import opened StoreBuffer

  datatype Loc = SharedVar

  datatype Pc = Load | Store | Done

  /** `stores` counts the increments issued so far, the loop counter of `worker`. */
  datatype Worker = Worker(pc: Pc, stores: nat, reg: int, buf: seq<Write<Loc>>)

  datatype State = State(mem: int, w1: Worker, w2: Worker) {
    function W(first: bool): Worker { if first then w1 else w2 }
    function SetW(first: bool, w: Worker): State { if first then this.(w1 := w) else this.(w2 := w) }
  }

  datatype Action = Run(first: bool) | Drain(first: bool)

  function LoopHead(n: nat, stores: nat): Pc { if stores < n then Load else Done }

  function RunStep(n: nat, s: State, first: bool): Option<State> {
    var w := s.W(first);
    match w.pc
    case Load => Some(s.SetW(first, w.(reg := Forward(w.buf, SharedVar, s.mem), pc := Store)))
    case Store =>
      Some(s.SetW(first, Worker(LoopHead(n, w.stores + 1), w.stores + 1, w.reg, w.buf + [Write(SharedVar, w.reg + 1)])))
    case Done => None
  }

  function DrainStep(s: State, first: bool): Option<State> {
    var w := s.W(first);
    if w.buf == [] then None else Some(s.(mem := w.buf[0].val).SetW(first, w.(buf := w.buf[1..])))
  }

  function Step(n: nat, s: State, a: Action): Option<State> {
    match a case Run(first) => RunStep(n, s, first) case Drain(first) => DrainStep(s, first)
  }

  function Init(n: nat): State {
    State(0, Worker(LoopHead(n, 0), 0, 0, []), Worker(LoopHead(n, 0), 0, 0, []))
  }

  function Exec(n: nat, s: State, acts: seq<Action>): Option<State> {
    if acts == [] then Some(s)
    else match Exec(n, s, acts[..|acts| - 1])
      case None => None
      case Some(mid) => Step(n, mid, acts[|acts| - 1])
  }

  predicate Finished(s: State) { s.w1.pc == Done && s.w2.pc == Done && s.w1.buf == [] && s.w2.buf == [] }

  // ----- bounds -----

  predicate WorkerInv(n: nat, s: State, first: bool) {
    var w, total := s.W(first), s.w1.stores + s.w2.stores;
    && w.stores <= n && w.pc == (if w.pc == Store then Store else LoopHead(n, w.stores))
    && (w.pc == Store ==> w.stores < n && 0 <= w.reg <= total && (w.stores >= 1 ==> w.reg >= 1))
    && |w.buf| <= w.stores
    && (forall j :: 0 <= j < |w.buf| ==> 1 <= w.buf[j].val <= total)
    && (|w.buf| > 0 && w.stores >= 2 ==> w.buf[|w.buf| - 1].val >= 2)
    && (w.stores > |w.buf| ==> s.mem >= 1)
  }

  /** Every value stays between 0 and the number of stores issued; a worker's second and later stores are at
      least 2; once both workers have drained two stores, so is memory. */
  predicate Inv(n: nat, s: State) {
    && WorkerInv(n, s, true) && WorkerInv(n, s, false)
    && 0 <= s.mem <= s.w1.stores + s.w2.stores
    && (s.w1.buf == [] && s.w2.buf == [] && s.w1.stores >= 2 && s.w2.stores >= 2 ==> s.mem >= 2)
  }

  /** The worker that does not move keeps its part when counts and memory only grow. */
  lemma PeerFrame(n: nat, s: State, s': State, first: bool)
    requires WorkerInv(n, s, first) && s'.W(first) == s.W(first)
    requires s'.w1.stores + s'.w2.stores >= s.w1.stores + s.w2.stores
    requires s.mem >= 1 ==> s'.mem >= 1
    ensures WorkerInv(n, s', first)
  {
  }

  lemma LoadKeepsInv(n: nat, s: State, first: bool)
    requires Inv(n, s) && s.W(first).pc == Load
    ensures Inv(n, RunStep(n, s, first).value)
  {
    var s', w := RunStep(n, s, first).value, s.W(first);
    assert w.buf != [] ==> w.buf[|w.buf| - 1].loc.SharedVar?;
    assert WorkerInv(n, s', first);
    PeerFrame(n, s, s', !first);
  }

  lemma StoreKeepsInv(n: nat, s: State, first: bool)
    requires Inv(n, s) && s.W(first).pc == Store
    ensures Inv(n, RunStep(n, s, first).value)
  {
    var s', w := RunStep(n, s, first).value, s.W(first);
    assert forall j :: 0 <= j < |w.buf| ==> s'.W(first).buf[j] == w.buf[j];
    assert WorkerInv(n, s', first);
    PeerFrame(n, s, s', !first);
  }

  lemma DrainKeepsInv(n: nat, s: State, first: bool)
    requires Inv(n, s) && s.W(first).buf != []
    ensures Inv(n, DrainStep(s, first).value)
  {
    var s', w := DrainStep(s, first).value, s.W(first);
    assert forall j :: 0 <= j < |w.buf| - 1 ==> s'.W(first).buf[j] == w.buf[j + 1];
    assert s'.mem >= 1;
    assert WorkerInv(n, s', first);
    PeerFrame(n, s, s', !first);
  }

  lemma StepKeepsInv(n: nat, s: State, a: Action)
    requires Inv(n, s) && Step(n, s, a).Some?
    ensures Inv(n, Step(n, s, a).value)
  {
    match a {
      case Run(first) =>
        if s.W(first).pc == Load { LoadKeepsInv(n, s, first); } else { StoreKeepsInv(n, s, first); }
      case Drain(first) => DrainKeepsInv(n, s, first);
    }
  }

  lemma {:induction false} RunKeepsInv(n: nat, acts: seq<Action>)
    requires Exec(n, Init(n), acts).Some?
    ensures Inv(n, Exec(n, Init(n), acts).value)
  {
    if acts != [] {
      var front, a := acts[..|acts| - 1], acts[|acts| - 1];
      RunKeepsInv(n, front);
      StepKeepsInv(n, Exec(n, Init(n), front).value, a);
    }
  }

  // ----- every value between the bounds -----

  predicate Leads(n: nat, acts: seq<Action>, s: State) { Exec(n, Init(n), acts) == Some(s) }

  lemma Append(n: nat, acts: seq<Action>, s: State, a: Action) returns (acts': seq<Action>, s': State)
    requires Leads(n, acts, s) && Step(n, s, a).Some?
    ensures Step(n, s, a) == Some(s') && Leads(n, acts', s')
  {
    acts', s' := acts + [a], Step(n, s, a).value;
    assert acts'[..|acts|] == acts;
  }

  /** A worker stores the increment it has loaded and the store drains. */
  lemma StoreNow(n: nat, acts: seq<Action>, s: State, first: bool) returns (acts': seq<Action>, s': State)
    requires Leads(n, acts, s) && s.W(first).pc == Store && s.W(first).buf == []
    ensures Leads(n, acts', s')
    ensures var w := s.W(first);
            s' == s.(mem := w.reg + 1).SetW(first, Worker(LoopHead(n, w.stores + 1), w.stores + 1, w.reg, []))
  {
    acts', s' := Append(n, acts, s, Run(first));
    assert s'.W(first).buf[1..] == [];
    acts', s' := Append(n, acts', s', Drain(first));
  }

  /** A worker makes `k` increments with nobody else in between. */
  lemma {:induction false} Solo(n: nat, acts: seq<Action>, s: State, first: bool, k: nat)
    returns (acts': seq<Action>, s': State)
    requires Leads(n, acts, s) && s.W(first).stores + k <= n
    requires s.W(first).pc == LoopHead(n, s.W(first).stores) && s.W(first).buf == []
    ensures Leads(n, acts', s') && s'.mem == s.mem + k && s'.W(!first) == s.W(!first)
    ensures var w := s.W(first);
            s'.W(first) == Worker(LoopHead(n, w.stores + k), w.stores + k, s'.W(first).reg, [])
    decreases k
  {
    acts', s' := acts, s;
    if k > 0 {
      acts', s' := Append(n, acts', s', Run(first));
      acts', s' := StoreNow(n, acts', s', first);
      acts', s' := Solo(n, acts', s', first, k - 1);
    }
  }

  /** Worker 1 loads 0, worker 2 makes `n - 1 - q` increments that worker 1's store then overwrites; worker 2
      makes `q` more and loads; worker 1 makes `r` increments that worker 2's last store overwrites; worker 1
      finishes. */
  lemma Interleave(n: nat, q: nat, r: nat) returns (acts: seq<Action>, s: State)
    requires q < n && r < n
    ensures Leads(n, acts, s) && Finished(s) && s.mem == 2 + q + (n - 1 - r)
  {
    acts, s := Append(n, [], Init(n), Run(true));
    acts, s := Solo(n, acts, s, false, n - 1 - q);
    acts, s := StoreNow(n, acts, s, true);
    assert s.mem == 1;
    acts, s := Solo(n, acts, s, false, q);
    acts, s := Append(n, acts, s, Run(false));
    acts, s := Solo(n, acts, s, true, r);
    acts, s := StoreNow(n, acts, s, false);
    assert s.mem == 2 + q;
    acts, s := Solo(n, acts, s, true, n - 1 - r);
  }

  /** With one iteration each, both workers may load 0. */
  lemma BothLoadZero() returns (acts: seq<Action>, s: State)
    ensures Leads(1, acts, s) && Finished(s) && s.mem == 1
  {
    acts, s := Append(1, [], Init(1), Run(true));
    acts, s := Append(1, acts, s, Run(false));
    acts, s := StoreNow(1, acts, s, true);
    acts, s := StoreNow(1, acts, s, false);
  }

  ghost predicate CanEndWith(n: nat, v: int) {
    exists acts, s :: Leads(n, acts, s) && Finished(s) && s.mem == v
  }

  /** The possible final values of `shared_var` for two workers of `n` iterations are exactly the integers from
      min(n, 2) to 2n. */
  lemma FinalValues(n: nat, v: int)
    ensures CanEndWith(n, v) <==> (if n < 2 then n else 2) <= v <= 2 * n
  {
    if CanEndWith(n, v) {
      var acts, s :| Leads(n, acts, s) && Finished(s) && s.mem == v;
      RunKeepsInv(n, acts);
      assert WorkerInv(n, s, true) && WorkerInv(n, s, false);
    }
    if (if n < 2 then n else 2) <= v <= 2 * n {
      if n == 0 {
        assert Leads(0, [], Init(0)) && Finished(Init(0));
      } else if v == 1 {
        var acts, s := BothLoadZero();
      } else {
        var q := if v - 2 < n then v - 2 else n - 1;
        var acts, s := Interleave(n, q, n - 1 - (v - 2 - q));
      }
    }
  }
}
