/** What every step machine of this project shares: partial results, and the x86-TSO store buffer of one
    hardware thread (Intel SDM Vol. 3A, section 8.2). A store is appended to the buffer of the thread that
    issues it, the oldest pending store drains to memory at any later moment, and a load takes the newest
    pending store of its own thread before it looks at memory. */
module StoreBuffer {

  datatype Option<+T> = None | Some(value: T)

  datatype Write<L> = Write(loc: L, val: int)

  /** The value a thread loads from `l` when its own pending stores are `buf` and memory holds `mem` there. */
  function Forward<L(==)>(buf: seq<Write<L>>, l: L, mem: int): int {
    if buf == [] then mem
    else if buf[|buf| - 1].loc == l then buf[|buf| - 1].val
    else Forward(buf[..|buf| - 1], l, mem)
  }

  /** Forwarding takes the newest pending store to the location and falls back to memory only without one. */
  lemma {:induction false} ForwardIsNewest<L>(buf: seq<Write<L>>, l: L, mem: int)
    ensures (forall j :: 0 <= j < |buf| ==> buf[j].loc != l) ==> Forward(buf, l, mem) == mem
    ensures forall j :: 0 <= j < |buf| && buf[j].loc == l && (forall m :: j < m < |buf| ==> buf[m].loc != l)
                        ==> Forward(buf, l, mem) == buf[j].val
  {
    if buf == [] {
    } else if buf[|buf| - 1].loc != l {
      var front := buf[..|buf| - 1];
      ForwardIsNewest(front, l, mem);
      forall j | 0 <= j < |buf| && buf[j].loc == l && (forall m :: j < m < |buf| ==> buf[m].loc != l)
        ensures Forward(buf, l, mem) == buf[j].val
      {
        assert front[j].loc == l;
        assert forall m :: j < m < |front| ==> front[m] == buf[m];
      }
      if forall j :: 0 <= j < |buf| ==> buf[j].loc != l {
        assert forall j :: 0 <= j < |front| ==> front[j] == buf[j];
      }
    }
  }
}
