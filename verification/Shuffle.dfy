/** The cache demo's access order: an in-place Fisher-Yates shuffle driven by a stream of random numbers, and the
    sum taken through it. */
module Shuffle {

  function Swapped<T>(s: seq<T>, i: nat, j: nat): (r: seq<T>)
    requires i < |s| && j < |s|
    ensures |r| == |s|
  {
    s[i := s[j]][j := s[i]]
  }

  /** One choice for each position from `i` down to 1, among the positions up to it. */
  ghost predicate Choosable(js: seq<nat>, i: nat) { |js| == i && forall k :: 0 <= k < i ==> js[k] <= i - k }

  /** The order after the swaps at positions `i`, `i - 1`, ..., 1. */
  function Shuffled<T>(s: seq<T>, i: nat, js: seq<nat>): (r: seq<T>)
    requires i < |s| && Choosable(js, i)
    ensures |r| == |s|
    decreases i
  {
    if i == 0 then s else Shuffled(Swapped(s, i, js[0]), i - 1, js[1..])
  }

  /** The choices that a stream of random numbers makes. */
  function Choices(rand: seq<nat>, i: nat): (js: seq<nat>)
    requires i <= |rand|
    ensures Choosable(js, i)
  {
    if i == 0 then [] else [rand[0] % (i + 1)] + Choices(rand[1..], i - 1)
  }

  ghost predicate Permutes<T>(t: seq<T>, s: seq<T>) { |t| == |s| && multiset(t) == multiset(s) }

  lemma SwapPermutes<T>(s: seq<T>, i: nat, j: nat)
    requires i < |s| && j < |s|
    ensures Permutes(Swapped(s, i, j), s)
  {
  }

  lemma {:induction false} ShuffledPermutes<T>(s: seq<T>, i: nat, js: seq<nat>)
    requires i < |s| && Choosable(js, i)
    ensures Permutes(Shuffled(s, i, js), s)
    decreases i
  {
    if i > 0 {
      SwapPermutes(s, i, js[0]);
      ShuffledPermutes(Swapped(s, i, js[0]), i - 1, js[1..]);
    }
  }

  /** Positions above `i` are final. */
  lemma {:induction false} ShuffledKeepsAbove<T>(s: seq<T>, i: nat, js: seq<nat>, k: nat)
    requires i < k < |s| && Choosable(js, i)
    ensures Shuffled(s, i, js)[k] == s[k]
    decreases i
  {
    if i > 0 {
      ShuffledKeepsAbove(Swapped(s, i, js[0]), i - 1, js[1..], k);
    }
  }

  // ----- every order, each in one way -----

  ghost predicate Distinct<T>(s: seq<T>) { forall i, j :: 0 <= i < j < |s| ==> s[i] != s[j] }

  lemma SwapDistinct<T>(s: seq<T>, i: nat, j: nat)
    requires i < |s| && j < |s| && Distinct(s)
    ensures Distinct(Swapped(s, i, j))
  {
  }

  ghost predicate AgreeAbove<T>(s: seq<T>, t: seq<T>, i: int) {
    |s| == |t| && forall k :: i < k < |s| && 0 <= k ==> s[k] == t[k]
  }

  /** Where `x` is in `s`. */
  function Find<T(==)>(s: seq<T>, x: T): (j: nat)
    requires x in s
    ensures j < |s| && s[j] == x
  {
    if s[0] == x then 0 else 1 + Find(s[1..], x)
  }

  lemma FoundBelow<T>(s: seq<T>, t: seq<T>, i: nat)
    requires i < |s| && Distinct(t) && Permutes(t, s) && AgreeAbove(s, t, i)
    ensures t[i] in s && Find(s, t[i]) <= i
  {
    assert t[i] in multiset(t);
    assert t[i] in multiset(s);
  }

  /** The choices that lead from `s` to `t`. */
  ghost function ChoicesFor<T>(s: seq<T>, t: seq<T>, i: nat): (js: seq<nat>)
    requires i < |s| && Distinct(t) && Permutes(t, s) && AgreeAbove(s, t, i)
    ensures Choosable(js, i)
    decreases i
  {
    if i == 0 then []
    else
      FoundBelow(s, t, i);
      var j := Find(s, t[i]);
      SwapPermutes(s, i, j);
      [j] + ChoicesFor(Swapped(s, i, j), t, i - 1)
  }

  lemma {:induction false} AgreeAboveZero<T>(s: seq<T>, t: seq<T>)
    requires s != [] && Permutes(t, s) && AgreeAbove(s, t, 0)
    ensures s == t
  {
    assert s == [s[0]] + s[1..] && t == [t[0]] + t[1..] && s[1..] == t[1..];
    assert multiset(s) == multiset{s[0]} + multiset(s[1..]);
    assert multiset(t) == multiset{t[0]} + multiset(t[1..]);
    assert multiset{s[0]} == multiset(s) - multiset(s[1..]) == multiset{t[0]};
    assert s[0] in multiset{t[0]};
  }

  /** Every order is reached, */
  lemma {:induction false} EveryOrderIsReached<T>(s: seq<T>, t: seq<T>, i: nat)
    requires i < |s| && Distinct(t) && Permutes(t, s) && AgreeAbove(s, t, i)
    ensures Shuffled(s, i, ChoicesFor(s, t, i)) == t
    decreases i
  {
    if i == 0 {
      AgreeAboveZero(s, t);
    } else {
      FoundBelow(s, t, i);
      var j := Find(s, t[i]);
      SwapPermutes(s, i, j);
      EveryOrderIsReached(Swapped(s, i, j), t, i - 1);
    }
  }

  /** and by one sequence of choices only. */
  lemma {:induction false} ChoicesAreUnique<T>(s: seq<T>, i: nat, js: seq<nat>, ks: seq<nat>)
    requires i < |s| && Distinct(s) && Choosable(js, i) && Choosable(ks, i)
    requires Shuffled(s, i, js) == Shuffled(s, i, ks)
    ensures js == ks
    decreases i
  {
    if i > 0 {
      var a, b := Swapped(s, i, js[0]), Swapped(s, i, ks[0]);
      ShuffledKeepsAbove(a, i - 1, js[1..], i);
      ShuffledKeepsAbove(b, i - 1, ks[1..], i);
      assert s[js[0]] == s[ks[0]];
      SwapDistinct(s, i, js[0]);
      ChoicesAreUnique(a, i - 1, js[1..], ks[1..]);
      assert js == [js[0]] + js[1..] && ks == [ks[0]] + ks[1..];
    }
  }

  /** The choices `js` shuffle `s` into `t`. */
  ghost predicate LeadsTo<T>(s: seq<T>, js: seq<nat>, t: seq<T>)
    requires s != []
  {
    Choosable(js, |s| - 1) && Shuffled(s, |s| - 1, js) == t
  }

  /** So shuffling is a bijection between choices and orders: equally likely choices give equally likely orders. */
  lemma ShuffleIsBijection<T>(s: seq<T>, t: seq<T>)
    requires s != [] && Distinct(s)
    ensures Permutes(t, s) <==> exists js :: LeadsTo(s, js, t)
    ensures forall js, ks :: LeadsTo(s, js, t) && LeadsTo(s, ks, t) ==> js == ks
  {
    var i := |s| - 1;
    if Permutes(t, s) {
      PermutedDistinct(s, t);
      EveryOrderIsReached(s, t, i);
      assert LeadsTo(s, ChoicesFor(s, t, i), t);
    }
    forall js | LeadsTo(s, js, t) ensures Permutes(t, s) {
      ShuffledPermutes(s, i, js);
    }
    forall js, ks | LeadsTo(s, js, t) && LeadsTo(s, ks, t) ensures js == ks {
      ChoicesAreUnique(s, i, js, ks);
    }
  }

  lemma {:induction false} CountDistinct<T>(s: seq<T>)
    ensures Distinct(s) <==> forall x :: x in s ==> multiset(s)[x] == 1
  {
    if s != [] {
      var t := s[1..];
      assert s == [s[0]] + t;
      CountDistinct(t);
      if Distinct(s) {
        assert s[0] !in t;
        assert Distinct(t);
      }
      if forall x :: x in s ==> multiset(s)[x] == 1 {
        assert multiset(s)[s[0]] == 1;
        assert s[0] !in multiset(t);
        assert forall x :: x in t ==> x in s && multiset(t)[x] == 1;
      }
    }
  }

  lemma PermutedDistinct<T>(s: seq<T>, t: seq<T>)
    requires Distinct(s) && Permutes(t, s)
    ensures Distinct(t)
  {
    CountDistinct(s);
    CountDistinct(t);
    forall x | x in t ensures multiset(t)[x] == 1 {
      assert x in multiset(s);
    }
  }

  // ----- the program -----

  /** `shuffle`; `rand` is what the calls of the random number generator return. */
  method ShuffleInPlace(idx: array<nat>, rand: seq<nat>)
    requires idx.Length >= 1 && |rand| == idx.Length - 1
    modifies idx
    ensures idx[..] == Shuffled(old(idx[..]), idx.Length - 1, Choices(rand, idx.Length - 1))
    ensures Permutes(idx[..], old(idx[..]))
  {
    ghost var was, n := idx[..], idx.Length;
    var i := idx.Length - 1;
    var next := 0;
    while i > 0
      invariant 0 <= i < n && next == n - 1 - i && Choosable(Choices(rand[next..], i), i)
      invariant Shuffled(idx[..], i, Choices(rand[next..], i)) == Shuffled(was, n - 1, Choices(rand, n - 1))
    {
      ghost var before := idx[..];
      ChoicesNext(rand, next, i);
      var j := rand[next] % (i + 1);
      var tmp := idx[i];
      idx[i] := idx[j];
      idx[j] := tmp;
      assert idx[..] == Swapped(before, i, j);
      next := next + 1;
      i := i - 1;
    }
    ShuffledPermutes(was, n - 1, Choices(rand, n - 1));
  }

  lemma ChoicesNext(rand: seq<nat>, next: nat, i: nat)
    requires i > 0 && next + i <= |rand|
    ensures Choices(rand[next..], i) == [rand[next] % (i + 1)] + Choices(rand[next + 1..], i - 1)
  {
    assert rand[next..][1..] == rand[next + 1..];
  }

  ghost predicate InBounds(order: seq<nat>, n: nat) { forall k :: 0 <= k < |order| ==> order[k] < n }

  function SumAt(arr: seq<int>, order: seq<nat>): int
    requires InBounds(order, |arr|)
  {
    if order == [] then 0 else SumAt(arr, order[..|order| - 1]) + arr[order[|order| - 1]]
  }

  function Without<T>(s: seq<T>, j: nat): (r: seq<T>)
    requires j < |s|
  {
    s[..j] + s[j + 1..]
  }

  lemma WithoutPermutes<T>(s: seq<T>, j: nat)
    requires j < |s|
    ensures multiset(Without(s, j)) == multiset(s) - multiset{s[j]}
  {
    assert s == s[..j] + [s[j]] + s[j + 1..];
  }

  lemma {:induction false} SumWithout(arr: seq<int>, order: seq<nat>, j: nat)
    requires InBounds(order, |arr|) && j < |order|
    ensures SumAt(arr, order) == SumAt(arr, Without(order, j)) + arr[order[j]]
  {
    var n := |order| - 1;
    if j == n {
      assert Without(order, j) == order[..n];
    } else {
      var init, less := order[..n], Without(order, j);
      SumWithout(arr, init, j);
      assert less[..|less| - 1] == Without(init, j);
      assert less[|less| - 1] == order[n];
    }
  }

  /** The order of the additions does not matter. */
  lemma {:induction false} SumPermuted(arr: seq<int>, s: seq<nat>, t: seq<nat>)
    requires Permutes(t, s) && InBounds(s, |arr|)
    ensures InBounds(t, |arr|) && SumAt(arr, t) == SumAt(arr, s)
    decreases |s|
  {
    PermutedInBounds(s, t, |arr|);
    if s != [] {
      var n := |s| - 1;
      assert s[n] in multiset(s);
      assert s[n] in multiset(t);
      var j := Find(t, s[n]);
      WithoutPermutes(t, j);
      WithoutPermutes(s, n);
      assert Without(s, n) == s[..n];
      SumWithout(arr, t, j);
      SumPermuted(arr, s[..n], Without(t, j));
    }
  }

  lemma PermutedInBounds(s: seq<nat>, t: seq<nat>, n: nat)
    requires Permutes(t, s) && InBounds(s, n)
    ensures InBounds(t, n)
  {
    forall k | 0 <= k < |t| ensures t[k] < n {
      assert t[k] in multiset(t);
      assert t[k] in multiset(s);
    }
  }

  /** The loops of `timed_access`, over `repeat` passes. */
  method TimedAccess(arr: array<int>, order: array<nat>, repeat: nat) returns (sum: int)
    requires InBounds(order[..], arr.Length)
    ensures sum == repeat * SumAt(arr[..], order[..])
  {
    sum := 0;
    ghost var pass := SumAt(arr[..], order[..]);
    for r := 0 to repeat
      invariant sum == r * pass
    {
      ghost var start := sum;
      for i := 0 to order.Length
        invariant sum == start + SumAt(arr[..], order[..i])
      {
        assert order[..i + 1][..i] == order[..i] && order[..][i] == order[i];
        sum := sum + arr[order[i]];
      }
      assert order[..order.Length] == order[..];
    }
  }

  /** The C conversion `(int)i`. */
  function ToInt(i: nat): (r: int)
    ensures i < 0x8000_0000 ==> r == i
  {
    var low := i % 0x1_0000_0000;
    if low < 0x8000_0000 then low else low - 0x1_0000_0000
  }

  function Identity(n: nat): (r: seq<nat>)
    ensures |r| == n && InBounds(r, n)
  {
    seq(n, i requires 0 <= i < n => i)
  }

  function Ints(n: nat): (r: seq<int>)
    ensures |r| == n
  {
    seq(n, i requires 0 <= i < n => ToInt(i))
  }

  lemma {:induction false} SequentialSum(n: nat, m: nat)
    requires m <= n <= 0x8000_0000
    ensures 2 * SumAt(Ints(n), Identity(m)) == m * (m - 1)
  {
    if m > 0 {
      SequentialSum(n, m - 1);
      assert Identity(m)[..m - 1] == Identity(m - 1);
      assert Ints(n)[m - 1] == m - 1;
    }
  }

  /** `main`: the sums of the sequential and of the random pass. */
  method Measure(n: nat, rand: seq<nat>, repeat: nat) returns (sequential: int, random: int)
    requires n >= 1 && |rand| == n - 1
    ensures sequential == random
    ensures n <= 0x8000_0000 ==> 2 * random == repeat * (n * (n - 1))
  {
    var arr, order := new int[n], new nat[n];
    for i := 0 to n
      invariant forall k :: 0 <= k < i ==> arr[k] == ToInt(k) && order[k] == k
    {
      arr[i] := ToInt(i);
      order[i] := i;
    }
    assert arr[..] == Ints(n) && order[..] == Identity(n);
    sequential := TimedAccess(arr, order, repeat);
    ShuffleInPlace(order, rand);
    SumPermuted(Ints(n), Identity(n), order[..]);
    random := TimedAccess(arr, order, repeat);
    if n <= 0x8000_0000 {
      SequentialSum(n, n);
      Double(repeat, SumAt(Ints(n), Identity(n)), n * (n - 1));
    }
  }

  lemma Double(r: nat, x: int, y: int)
    requires 2 * x == y
    ensures 2 * (r * x) == r * y
  {
  }
}
