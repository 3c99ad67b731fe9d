/** The scan-code ring that one resident program writes in a keyboard interrupt and a separate program reads out
    of memory later: words are 16 bits wide, the ring has 2048 bytes. */
module KeyRing {

  const BUFFER_SIZE := 2048
  const WORD := 0x1_0000

  predicate IsPress(code: int) { 0 <= code < 0x80 }

  /** The press codes among the codes the keyboard sent; releases have bit 7 set. */
  function Presses(codes: seq<int>): seq<int> {
    if codes == [] then []
    else Presses(codes[..|codes| - 1]) + if IsPress(codes[|codes| - 1]) then [codes[|codes| - 1]] else []
  }

  function Kept(n: nat): nat { if n < BUFFER_SIZE then n else BUFFER_SIZE }

  /** The last `BUFFER_SIZE` of them, or all when there are fewer. */
  function Last(pressed: seq<int>): seq<int> { pressed[|pressed| - Kept(|pressed|)..] }

  /** The shared area as the reader finds it. */
  datatype Shared = Shared(total: int, size: int, end: int, buffer: seq<int>)

  predicate GoodShared(s: Shared) {
    |s.buffer| == BUFFER_SIZE && 0 <= s.size <= BUFFER_SIZE && 0 <= s.end < BUFFER_SIZE
  }

  /** Where the oldest kept code stands. */
  function Start(s: Shared): int { if s.end >= s.size then s.end - s.size else s.end - s.size + BUFFER_SIZE }

  /** `size` codes from the start position on, round the ring. */
  function Unrolled(s: Shared): seq<int>
    requires GoodShared(s)
  {
    seq(s.size, i requires 0 <= i < s.size => s.buffer[(Start(s) + i) % BUFFER_SIZE])
  }

  class Monitor {
    var lastScancode: int
    var totalKeys: int
    var bufferSize: int
    var bufferEnd: int
    const buffer: array<int>
    ghost var pressed: seq<int>

    constructor ()
      ensures Valid() && pressed == [] && fresh(buffer)
    {
      lastScancode, totalKeys, bufferSize, bufferEnd := 0, 0, 0, 0;
      buffer := new int[BUFFER_SIZE](i => 0);
      pressed := [];
    }

    ghost predicate Valid()
      reads this, buffer
    {
      && buffer.Length == BUFFER_SIZE
      && totalKeys == |pressed| % WORD
      && bufferSize == Kept(|pressed|)
      && bufferEnd == |pressed| % BUFFER_SIZE
      && HoldsLast(pressed, buffer[..])
    }

    ghost function Snapshot(): Shared
      reads this, buffer
    {
      Shared(totalKeys, bufferSize, bufferEnd, buffer[..])
    }

    /** The circular-buffer part: store the code, advance and wrap the end, count up to the capacity. */
    method StoreCode(al: int)
      requires buffer.Length == BUFFER_SIZE && 0 <= bufferEnd < BUFFER_SIZE
      modifies `bufferEnd, `bufferSize, buffer
      ensures buffer[..] == old(buffer[..])[old(bufferEnd) := al]
      ensures bufferEnd == if old(bufferEnd) + 1 == BUFFER_SIZE then 0 else old(bufferEnd) + 1
      ensures bufferSize == if old(bufferSize) < BUFFER_SIZE then old(bufferSize) + 1 else old(bufferSize)
    {
      var bx := bufferEnd;
      buffer[bx] := al;
      bx := bx + 1;
      if bx >= BUFFER_SIZE {
        bx := 0;
      }
      bufferEnd := bx;
      if bufferSize < BUFFER_SIZE {
        bufferSize := bufferSize + 1;
      }
    }

    /** `keyboard_hook`, with the code read from the port. */
    method KeyboardHook(al: int)
      requires Valid() && 0 <= al < 0x100
      modifies this, buffer
      ensures Valid() && pressed == old(pressed) + if al < 0x80 then [al] else []
      ensures totalKeys == (old(totalKeys) + if al < 0x80 then 1 else 0) % WORD
      ensures al >= 0x80 ==> Snapshot() == old(Snapshot())
    {
      if al >= 0x80 {
        return;
      }
      HoldsNext(pressed, buffer[..], al);
      NextSlot(|pressed|, 0);
      NextTotal(|pressed|);
      lastScancode := al;
      totalKeys := (totalKeys + 1) % WORD;
      StoreCode(al);
      pressed := pressed + [al];
    }

    /** What a reader unrolls from the shared area is the last presses, oldest first. */
    lemma SnapshotHoldsLast()
      requires Valid()
      ensures GoodShared(Snapshot()) && 0 <= Start(Snapshot()) < 2048
      ensures Snapshot().total == |pressed| % 0x1_0000
      ensures Snapshot().size == if |pressed| < 2048 then |pressed| else 2048
      ensures Unrolled(Snapshot()) == Last(pressed)
    {
      UnrolledIsLast(pressed, Snapshot());
    }
  }

  /** Every kept press is in the slot of its number. */
  predicate HoldsLast(pressed: seq<int>, buffer: seq<int>) {
    |buffer| == BUFFER_SIZE &&
    forall i :: |pressed| - Kept(|pressed|) <= i < |pressed| ==> buffer[i % BUFFER_SIZE] == pressed[i]
  }

  /** Storing the next press overwrites only the press that is no longer kept. */
  lemma HoldsNext(pressed: seq<int>, buffer: seq<int>, al: int)
    requires HoldsLast(pressed, buffer)
    ensures HoldsLast(pressed + [al], buffer[|pressed| % BUFFER_SIZE := al])
  {
    var p, b := pressed + [al], buffer[|pressed| % BUFFER_SIZE := al];
    forall i | |p| - Kept(|p|) <= i < |p| ensures b[i % BUFFER_SIZE] == p[i] {
      if i < |pressed| {
        DifferentSlots(i, |pressed|);
      }
    }
  }

  lemma UnrolledIsLast(pressed: seq<int>, s: Shared)
    requires HoldsLast(pressed, s.buffer) && s.size == Kept(|pressed|) && s.end == |pressed| % BUFFER_SIZE
    ensures GoodShared(s) && 0 <= Start(s) < BUFFER_SIZE && Unrolled(s) == Last(pressed)
  {
    var first := |pressed| - s.size;
    StartIsFirst(|pressed|);
    assert Start(s) == first % BUFFER_SIZE;
    forall i | 0 <= i < s.size ensures Unrolled(s)[i] == Last(pressed)[i] {
      SlotOf(first, i);
      assert s.buffer[(first + i) % BUFFER_SIZE] == pressed[first + i];
    }
  }

  lemma NextTotal(n: nat)
    ensures (n % WORD + 1) % WORD == (n + 1) % WORD
  {
  }

  lemma DifferentSlots(i: nat, n: nat)
    requires n - BUFFER_SIZE < i < n
    ensures i % BUFFER_SIZE != n % BUFFER_SIZE
  {
  }

  lemma StartIsFirst(n: nat)
    ensures Start(Shared(0, Kept(n), n % BUFFER_SIZE, [])) == (n - Kept(n)) % BUFFER_SIZE
  {
  }

  lemma SlotOf(first: nat, i: nat)
    ensures (first % BUFFER_SIZE + i) % BUFFER_SIZE == (first + i) % BUFFER_SIZE
  {
  }

  // ----- the reader -----

  /** A 64 KB segment with the shared area at `bx`: signature, total, size, end, buffer. */
  predicate Layout(es: seq<int>, bx: int, s: Shared) {
    && |es| == WORD && 0 <= bx && bx + 8 + BUFFER_SIZE <= WORD && GoodShared(s)
    && WordAt(es, bx + 2) == s.total && WordAt(es, bx + 4) == s.size && WordAt(es, bx + 6) == s.end
    && es[bx + 8..bx + 8 + BUFFER_SIZE] == s.buffer
  }

  function WordAt(es: seq<int>, a: int): int
    requires 0 <= a && a + 1 < |es|
  {
    es[a] + 256 * es[a + 1]
  }

  /** The 16-bit start computation: subtract, and on a borrow add the buffer size. */
  function BufferStart(end: int, size: int): int {
    var ax := (end - size) % WORD;
    if end < size then (ax + 2048) % WORD else ax
  }

  lemma BufferStartIsStart(s: Shared)
    requires GoodShared(s)
    ensures BufferStart(s.end, s.size) == Start(s) && 0 <= Start(s) < BUFFER_SIZE
  {
  }

  /** `inc si`, then back to the first byte when the offset into the buffer has reached its size. */
  function NextSi(si: int, bx: int): int {
    var next := (si + 1) % WORD;
    var ax := ((next - bx) % WORD - 8) % WORD;
    if ax >= 2048 then (bx + 8) % WORD else next
  }

  lemma NextSiStaysInRing(bx: int, off: int)
    requires 0 <= bx && bx + 8 + BUFFER_SIZE <= WORD && 0 <= off < BUFFER_SIZE
    ensures NextSi(bx + 8 + off, bx) == bx + 8 + if off + 1 == BUFFER_SIZE then 0 else off + 1
  {
    var si := bx + 8 + off;
    if si + 1 < WORD {
      assert (si + 1) % WORD == si + 1;
      assert (si + 1 - bx) % WORD == off + 9;
      assert (off + 1) % WORD == off + 1;
    } else {
      assert off + 1 == BUFFER_SIZE;
      assert (si + 1) % WORD == 0;
      assert (0 - bx) % WORD == WORD - bx == BUFFER_SIZE + 8;
    }
    assert (bx + 8) % WORD == bx + 8;
  }

  lemma NextSlot(start: nat, i: nat)
    ensures (start + i + 1) % BUFFER_SIZE
            == if (start + i) % BUFFER_SIZE + 1 == BUFFER_SIZE then 0 else (start + i) % BUFFER_SIZE + 1
  {
  }

  lemma UnrolledNext(s: Shared, i: nat)
    requires GoodShared(s) && i < s.size
    ensures Unrolled(s)[..i + 1] == Unrolled(s)[..i] + [s.buffer[(Start(s) + i) % BUFFER_SIZE]]
  {
  }

  /** `write_keystrokes` without its text formatting: the loop walks SI through the ring while CX counts down. */
  method WriteKeystrokes(es: seq<int>, bx: int, ghost s: Shared) returns (keys: seq<int>)
    requires Layout(es, bx, s)
    ensures keys == Unrolled(s)
  {
    keys := [];
    var cx := WordAt(es, bx + 4);
    if cx == 0 {
      return;
    }
    BufferStartIsStart(s);
    var bufferStart := BufferStart(WordAt(es, bx + 6), cx);
    var si := (bufferStart + 8 + bx) % WORD;
    ghost var off := Start(s);
    while cx != 0
      invariant 0 <= cx <= s.size && |keys| == s.size - cx
      invariant 0 <= off < BUFFER_SIZE && si == bx + 8 + off
      invariant off == (Start(s) + |keys|) % BUFFER_SIZE
      invariant keys == Unrolled(s)[..|keys|]
    {
      assert es[si] == es[bx + 8..bx + 8 + BUFFER_SIZE][off];
      UnrolledNext(s, |keys|);
      NextSlot(Start(s), |keys|);
      NextSiStaysInRing(bx, off);
      keys := keys + [es[si]];
      si := NextSi(si, bx);
      off := if off + 1 == BUFFER_SIZE then 0 else off + 1;
      cx := cx - 1;
    }
  }

  /** The segment the writer leaves behind. */
  function Segment(s: Shared, bx: int): seq<int> {
    seq(WORD, a requires 0 <= a =>
      if a == bx + 2 then s.total % 256 else if a == bx + 3 then s.total / 256
      else if a == bx + 4 then s.size % 256 else if a == bx + 5 then s.size / 256
      else if a == bx + 6 then s.end % 256 else if a == bx + 7 then s.end / 256
      else if 0 <= a - bx - 8 < |s.buffer| then s.buffer[a - bx - 8]
      else 0)
  }

  lemma SegmentLayout(s: Shared, bx: int)
    requires GoodShared(s) && 0 <= bx && bx + 8 + BUFFER_SIZE <= WORD
    ensures Layout(Segment(s, bx), bx, s)
  {
    var es := Segment(s, bx);
    assert WordAt(es, bx + 2) == s.total % 256 + 256 * (s.total / 256);
    assert WordAt(es, bx + 4) == s.size % 256 + 256 * (s.size / 256);
    assert WordAt(es, bx + 6) == s.end % 256 + 256 * (s.end / 256);
    assert forall i :: 0 <= i < BUFFER_SIZE ==> es[bx + 8 + i] == s.buffer[i];
  }

  /** Writer and reader together: whatever codes the keyboard sends, the reader saves exactly the last 2048
      press codes, or all of them, oldest first. */
  method TypeThenSave(codes: seq<int>, bx: int) returns (keys: seq<int>)
    requires (forall i :: 0 <= i < |codes| ==> 0 <= codes[i] < 0x100) && 0 <= bx && bx + 8 + BUFFER_SIZE <= WORD
    ensures keys == Last(Presses(codes))
  {
    var m := new Monitor();
    var k := 0;
    while k < |codes|
      invariant 0 <= k <= |codes| && m.Valid() && fresh(m) && fresh(m.buffer) && m.pressed == Presses(codes[..k])
    {
      assert codes[..k + 1][..k] == codes[..k];
      m.KeyboardHook(codes[k]);
      k := k + 1;
    }
    assert codes[..k] == codes;
    m.SnapshotHoldsLast();
    var s := Shared(m.totalKeys, m.bufferSize, m.bufferEnd, m.buffer[..]);
    SegmentLayout(s, bx);
    keys := WriteKeystrokes(Segment(s, bx), bx, s);
  }
}
