/** The file cipher: a password line editor, an in-place XOR of one 512-byte chunk, and the encrypt and decrypt
    loops over a file. A read returns as many bytes as are left, up to the size asked for. */
module Cipher {
  import opened Remainders

  type Bytes = seq<bv8>

  const ENTER: bv8 := 0x0D
  const BACKSPACE: bv8 := 0x08
  const MAX_LENGTH := 15
  const CHUNK := 512
  const SIGNATURE: Bytes := [0x42, 0x54, 0x43, 0x4B]

  // ----- the password -----

  /** The line after one more key: backspace removes the last character if there is one, and a full line takes
      no more. */
  function Edit(line: Bytes, key: bv8): (r: Bytes)
    requires |line| <= MAX_LENGTH
    ensures |r| <= MAX_LENGTH
  {
    if key == BACKSPACE then (if line == [] then [] else line[..|line| - 1])
    else if |line| >= MAX_LENGTH then line
    else line + [key]
  }

  /** The line when Enter comes, or when the keys run out. */
  function Line(keys: Bytes, line: Bytes): (r: Bytes)
    requires |line| <= MAX_LENGTH
    ensures |r| <= MAX_LENGTH
  {
    if keys == [] || keys[0] == ENTER then line else Line(keys[1..], Edit(line, keys[0]))
  }

  /** The characters before the first NUL. */
  function Cut(line: Bytes): (key: Bytes)
    ensures key <= line && 0 !in key
    ensures |key| < |line| ==> line[|key|] == 0
  {
    if line == [] || line[0] == 0 then [] else [line[0]] + Cut(line[1..])
  }

  lemma {:induction false} CutIs(line: Bytes, n: nat)
    requires n < |line| && line[n] == 0 && forall i :: 0 <= i < n ==> line[i] != 0
    ensures Cut(line) == line[..n]
  {
    if n > 0 {
      CutIs(line[1..], n - 1);
      assert line[..n] == [line[0]] + line[1..][..n - 1];
    }
  }

  lemma {:induction false} CutIgnoresRest(line: Bytes, rest: Bytes)
    ensures Cut(line + [0] + rest) == Cut(line)
  {
    if line != [] && line[0] != 0 {
      assert (line + [0] + rest)[1..] == line[1..] + [0] + rest;
      CutIgnoresRest(line[1..], rest);
    }
  }

  function Password(keys: Bytes): Bytes { Cut(Line(keys, [])) }

  /** What the user has typed so far is all that matters to the keys that follow. */
  lemma {:induction false} LineGoesOn(a: Bytes, b: Bytes, line: Bytes)
    requires |line| <= MAX_LENGTH && 0x0D !in a
    ensures Line(a + b, line) == Line(b, Line(a, line))
  {
    if a == [] {
      assert a + b == b;
    } else {
      assert (a + b)[1..] == a[1..] + b;
      LineGoesOn(a[1..], b, Edit(line, a[0]));
    }
  }

  /** Nothing after Enter counts. */
  lemma {:induction false} EnterEnds(a: Bytes, b: Bytes, line: Bytes)
    requires |line| <= MAX_LENGTH
    ensures Line(a + [0x0D] + b, line) == Line(a, line)
  {
    if a != [] {
      assert (a + [0x0D] + b)[1..] == a[1..] + [0x0D] + b;
      if a[0] != 0x0D {
        EnterEnds(a[1..], b, Edit(line, a[0]));
      }
    }
  }

  /** Plain keys append themselves as long as there is room. */
  lemma {:induction false} PlainLine(keys: Bytes, line: Bytes)
    requires |line| <= 15 && 0x0D !in keys && 0x08 !in keys
    ensures Line(keys, line) == (line + keys)[..if |line + keys| < 15 then |line + keys| else 15]
  {
    if keys != [] {
      PlainLine(keys[1..], Edit(line, keys[0]));
      if |line| < 15 {
        assert line + keys == (line + [keys[0]]) + keys[1..];
      }
    }
  }

  /** Keys without Enter and backspace: the first 15, cut at the first NUL, whatever is typed behind Enter. */
  lemma PlainPassword(keys: Bytes, rest: Bytes)
    requires 0x0D !in keys && 0x08 !in keys
    ensures Password(keys + [0x0D] + rest) == Cut(keys[..if |keys| < 15 then |keys| else 15])
  {
    EnterEnds(keys, rest, []);
    PlainLine(keys, []);
    assert [] + keys == keys;
  }

  lemma SplitKeys(a: Bytes, mid: Bytes, b: Bytes)
    requires 0x0D !in a && 0x0D !in mid
    ensures Line(a + mid + b, []) == Line(b, Line(mid, Line(a, [])))
    ensures Line(a + b, []) == Line(b, Line(a, []))
  {
    LineGoesOn(a, mid + b, []);
    LineGoesOn(mid, b, Line(a, []));
    LineGoesOn(a, b, []);
    assert a + mid + b == a + (mid + b);
  }

  /** A character that the line has taken and a backspace right behind it are as if not typed, anywhere. */
  lemma BackspaceUndoes(a: Bytes, x: bv8, b: Bytes)
    requires x != 0x0D && x != 0x08 && (0x0D !in a ==> |Line(a, [])| < 15)
    ensures Password(a + [x, 0x08] + b) == Password(a + b)
  {
    if 0x0D in a {
      BehindEnter(a, [x, 0x08] + b, b);
      assert a + [x, 0x08] + b == a + ([x, 0x08] + b);
    } else {
      SplitKeys(a, [x, 0x08], b);
      TypedAndUndone(x, Line(a, []));
    }
  }

  lemma TypedAndUndone(x: bv8, line: Bytes)
    requires |line| < 15 && x != 0x0D && x != 0x08
    ensures Line([x, 0x08], line) == line
  {
    assert [x, 0x08][1..] == [0x08];
    assert Line([x, 0x08], line) == Line([0x08], line + [x]);
    OneKey(0x08, line + [x]);
    assert (line + [x])[..|line|] == line;
  }

  lemma OneKey(x: bv8, line: Bytes)
    requires |line| <= MAX_LENGTH && x != 0x0D
    ensures Line([x], line) == Edit(line, x)
  {
    assert [x][1..] == [];
  }

  lemma TypedOnFull(x: bv8, line: Bytes)
    requires |line| == 15 && x != 0x0D && x != 0x08
    ensures Line([x], line) == line
  {
    OneKey(x, line);
  }

  /** A backspace at the start of an empty line is as if not typed. */
  lemma BackspaceOnEmpty(a: Bytes, b: Bytes)
    requires 0x0D !in a ==> Line(a, []) == []
    ensures Password(a + [0x08] + b) == Password(a + b)
  {
    if 0x0D in a {
      BehindEnter(a, [0x08] + b, b);
      assert a + [0x08] + b == a + ([0x08] + b);
    } else {
      SplitKeys(a, [0x08], b);
      OneKey(0x08, []);
    }
  }

  /** So is a character typed on a line of 15. */
  lemma FullLineTakesNoMore(a: Bytes, x: bv8, b: Bytes)
    requires x != 0x0D && x != 0x08 && (0x0D !in a ==> |Line(a, [])| == 15)
    ensures Password(a + [x] + b) == Password(a + b)
  {
    if 0x0D in a {
      BehindEnter(a, [x] + b, b);
      assert a + [x] + b == a + ([x] + b);
    } else {
      SplitKeys(a, [x], b);
      TypedOnFull(x, Line(a, []));
    }
  }

  lemma BehindEnter(a: Bytes, b: Bytes, c: Bytes)
    requires 0x0D in a
    ensures Line(a + b, []) == Line(a + c, [])
  {
    var k :| 0 <= k < |a| && a[k] == 0x0D;
    assert a == a[..k] + [0x0D] + a[k + 1..];
    assert a + b == a[..k] + [0x0D] + (a[k + 1..] + b);
    assert a + c == a[..k] + [0x0D] + (a[k + 1..] + c);
    EnterEnds(a[..k], a[k + 1..] + b, []);
    EnterEnds(a[..k], a[k + 1..] + c, []);
  }

  // ----- words repeated for ever -----

  /** Letter `i` of `word` written again and again. */
  function Repeated<T>(word: seq<T>, i: nat): T
    requires word != []
  {
    if i < |word| then word[i] else Repeated(word, i - |word|)
  }

  lemma {:induction false} RepeatedIs<T>(word: seq<T>, i: nat)
    requires word != []
    ensures Repeated(word, i) == word[i % |word|]
  {
    var n := |word|;
    if i < n {
      RemainderIs(i, 0, i, n);
    } else {
      RepeatedIs(word, i - n);
      var q, r := (i - n) / n, (i - n) % n;
      assert i == (q + 1) * n + r;
      RemainderIs(i, q + 1, r, n);
    }
  }

  /** Putting `y` before `x` repeated changes nothing, if the two words commute. */
  lemma {:induction false} Absorbs<T>(x: seq<T>, y: seq<T>, i: nat)
    requires x != [] && y != [] && x + y == y + x
    ensures Repeated(x, i) == if i < |y| then y[i] else Repeated(x, i - |y|)
    decreases i
  {
    assert i < |x| + |y| ==> (x + y)[i] == (y + x)[i];
    if i >= |x| {
      Absorbs(x, y, i - |x|);
    }
  }

  lemma {:induction false} CommutingRepeatAlike<T>(x: seq<T>, y: seq<T>, i: nat)
    requires x != [] && y != [] && x + y == y + x
    ensures Repeated(x, i) == Repeated(y, i)
    decreases i
  {
    Absorbs(x, y, i);
    if i >= |y| {
      CommutingRepeatAlike(x, y, i - |y|);
    }
  }

  /** Agreeing on as many letters as the two have together is enough. */
  lemma AlikeCommute<T>(x: seq<T>, y: seq<T>)
    requires x != [] && y != [] && forall i :: 0 <= i < |x| + |y| ==> Repeated(x, i) == Repeated(y, i)
    ensures x + y == y + x
  {
    forall i | 0 <= i < |x| + |y| ensures (x + y)[i] == (y + x)[i] {
      assert Repeated(x, i) == Repeated(y, i);
      if i >= |x| {
        assert Repeated(x, i - |x|) == Repeated(y, i - |x|);
      }
      if i >= |y| {
        assert Repeated(x, i - |y|) == Repeated(y, i - |y|);
      }
    }
  }

  // ----- the key stream -----

  /** The byte that position `i` of a chunk is XORed with. */
  function KeyByte(key: Bytes, i: nat): bv8 { if key == [] then 0xFF else key[i % |key|] }

  function XorChunk(chunk: Bytes, key: Bytes): (r: Bytes)
    ensures |r| == |chunk|
  {
    seq(|chunk|, i requires 0 <= i < |chunk| => chunk[i] ^ KeyByte(key, i))
  }

  /** The bytes a file of `n` bytes is XORed with: the key starts over with every chunk. */
  function Stream(key: Bytes, n: nat): (r: Bytes)
    ensures |r| == n
  {
    seq(n, i requires 0 <= i < n => KeyByte(key, i % CHUNK))
  }

  function Zip<T>(s: seq<T>, t: seq<T>, op: (T, T) -> T): (r: seq<T>)
    requires |s| == |t|
    ensures |r| == |s|
  {
    seq(|s|, i requires 0 <= i < |s| => op(s[i], t[i]))
  }

  function Xor(a: bv8, b: bv8): bv8 { a ^ b }

  function XorFile(file: Bytes, key: Bytes): (r: Bytes)
    ensures |r| == |file|
  {
    Zip(file, Stream(key, |file|), Xor)
  }

  /** An operation whose second argument undoes itself, and nothing else undoes it. */
  ghost predicate Undoes<T(!new)>(op: (T, T) -> T) {
    && (forall a, b :: op(op(a, b), b) == a)
    && (forall a, b, c :: op(op(a, b), c) == a ==> b == c)
  }

  lemma XorUndone()
    ensures forall a, b :: Xor(Xor(a, b), b) == a
  {
  }

  lemma OnlyXorUndoes()
    ensures forall a, b, c :: Xor(Xor(a, b), c) == a ==> b == c
  {
  }

  /** Each byte of a file, in numbers. */
  lemma XorFileAt(file: Bytes, key: Bytes, i: nat)
    requires i < |file|
    ensures var k := if key == [] then 0xFF else key[(i % 512) % |key|]; XorFile(file, key)[i] == file[i] ^ k
  {
    var k := if key == [] then 0xFF else key[(i % 512) % |key|];
    assert Stream(key, |file|)[i] == KeyByte(key, i % CHUNK) == k;
    assert XorFile(file, key)[i] == Xor(file[i], k);
  }

  /** A second pass undoes the first exactly when it is with the same stream. */
  lemma UndoneIff<T(!new)>(s: seq<T>, one: seq<T>, two: seq<T>, op: (T, T) -> T)
    requires |one| == |two| == |s| && Undoes(op)
    ensures Zip(Zip(s, one, op), two, op) == s <==> one == two
  {
    var twice := Zip(Zip(s, one, op), two, op);
    assert forall i :: 0 <= i < |s| ==> twice[i] == op(op(s[i], one[i]), two[i]);
    if twice == s {
      assert forall i :: 0 <= i < |s| ==> twice[i] == s[i] && one[i] == two[i];
    }
  }

  /** The word a key repeats: no key at all works as the one byte 0xFF. */
  function Word(key: Bytes): (r: Bytes)
    ensures r != []
  {
    if key == [] then [0xFF] else key
  }

  predicate SameStream(k1: Bytes, k2: Bytes, n: nat) { Stream(k1, n) == Stream(k2, n) }

  lemma StreamAt(key: Bytes, n: nat, i: nat)
    requires i < n
    ensures Stream(key, n)[i] == Repeated(Word(key), i % CHUNK)
  {
    RepeatedIs(Word(key), i % CHUNK);
  }

  lemma SmallRemainder(i: nat)
    requires i < CHUNK
    ensures i % CHUNK == i
  {
  }

  /** Which passwords open each other's files: those whose words commute, such as `ab` and `abab`. A file as
      long as the two words together tells any others apart. */
  lemma SameStreamIff(k1: Bytes, k2: Bytes, n: nat)
    requires |Word(k1)| + |Word(k2)| <= CHUNK
    ensures Word(k1) + Word(k2) == Word(k2) + Word(k1) ==> SameStream(k1, k2, n)
    ensures n >= |Word(k1)| + |Word(k2)| && SameStream(k1, k2, n) ==> Word(k1) + Word(k2) == Word(k2) + Word(k1)
  {
    var x, y := Word(k1), Word(k2);
    if x + y == y + x {
      forall i | 0 <= i < n ensures Stream(k1, n)[i] == Stream(k2, n)[i] {
        StreamAt(k1, n, i);
        StreamAt(k2, n, i);
        CommutingRepeatAlike(x, y, i % CHUNK);
      }
    }
    if n >= |x| + |y| && SameStream(k1, k2, n) {
      forall i | 0 <= i < |x| + |y| ensures Repeated(x, i) == Repeated(y, i) {
        StreamAt(k1, n, i);
        StreamAt(k2, n, i);
        SmallRemainder(i);
      }
      AlikeCommute(x, y);
    }
  }

  lemma OffsetInChunk(pos: nat, j: nat)
    requires pos % CHUNK == 0 && j < CHUNK
    ensures (pos + j) % CHUNK == j
  {
  }

  /** The file's stream over one chunk is the chunk's own. */
  lemma ChunkOfFile(file: Bytes, key: Bytes, pos: nat, n: nat)
    requires ChunkStart(pos, |file|) && n <= CHUNK && pos + n <= |file|
    ensures XorFile(file, key)[..pos + n] == XorFile(file, key)[..pos] + XorChunk(file[pos..pos + n], key)
  {
    var all, part := XorFile(file, key), XorChunk(file[pos..pos + n], key);
    forall j | 0 <= j < n ensures all[pos..pos + n][j] == part[j] {
      OffsetInChunk(pos, j);
      assert all[pos + j] == Xor(file[pos + j], KeyByte(key, (pos + j) % CHUNK));
    }
    assert all[pos..pos + n] == part;
    assert all[..pos + n] == all[..pos] + all[pos..pos + n];
  }

  /** A place where a read begins: at a chunk boundary or at the end. */
  predicate ChunkStart(pos: nat, size: nat) { pos < size ==> pos % CHUNK == 0 }

  lemma NextChunk(pos: nat, n: nat, size: nat)
    requires pos < size && ChunkStart(pos, size) && n == if size - pos < CHUNK then size - pos else CHUNK
    ensures ChunkStart(pos + n, size)
  {
  }

  /** What a read of up to `n` bytes leaves in a buffer: the bytes it got, then what was there before. */
  function Overlay(buffer: Bytes, got: Bytes): Bytes
    requires |got| <= |buffer|
  {
    got + buffer[|got|..]
  }

  class Crypt {
    const password: array<bv8>
    const buffer: array<bv8>

    constructor ()
      ensures Valid() && fresh(password) && fresh(buffer)
    {
      password := new bv8[17](i => 0);
      buffer := new bv8[CHUNK](i => 0);
    }

    ghost predicate Valid() { password.Length == 17 && buffer.Length == CHUNK && password != buffer }

    /** The NUL-terminated key in the password buffer. */
    ghost function Key(): Bytes
      reads password
    {
      Cut(password[..])
    }

    /** A key that ends inside the buffer. */
    ghost predicate Terminated()
      reads password
    {
      |Key()| < password.Length
    }

    /** One key that is not Enter, at `cx` characters. */
    method EditKey(al: bv8, cx: nat) returns (cx': nat)
      requires Valid() && cx <= MAX_LENGTH
      modifies password
      ensures cx' <= MAX_LENGTH && password[..cx'] == Edit(old(password[..cx]), al)
    {
      cx' := cx;
      if al == BACKSPACE {
        if cx' != 0 {
          cx' := cx' - 1;
        }
      } else if cx' < MAX_LENGTH {
        password[cx'] := al;
        cx' := cx' + 1;
      }
    }

    /** `get_password` on the keys the user types; without an Enter among them it would wait for more. */
    method GetPassword(keys: Bytes)
      requires Valid() && ENTER in keys
      modifies password
      ensures Key() == Password(keys) && Terminated()
    {
      for z := 0 to 16
        invariant forall i :: 0 <= i < z ==> password[i] == 0
      {
        password[z] := 0;
      }
      var cx := 0;
      var k := 0;
      while keys[k] != ENTER
        invariant 0 <= k < |keys| && 0 <= cx <= MAX_LENGTH
        invariant ENTER in keys[k..]
        invariant Line(keys, []) == Line(keys[k..], password[..cx])
        decreases |keys| - k
      {
        ghost var line := password[..cx];
        cx := EditKey(keys[k], cx);
        assert keys[k..][1..] == keys[k + 1..] && keys[k..][0] == keys[k];
        assert Line(keys[k..], line) == Line(keys[k + 1..], Edit(line, keys[k]));
        k := k + 1;
      }
      ghost var line := password[..cx];
      password[cx] := 0;
      assert password[..] == line + [0] + password[cx + 1..];
      CutIgnoresRest(line, password[cx + 1..]);
    }

    /** `encrypt_buffer`: XOR the first `bytesRead` bytes in place, DI walking the password and starting over at
        its NUL. */
    method EncryptBuffer(bytesRead: nat)
      requires Valid() && Terminated() && bytesRead <= CHUNK
      modifies buffer
      ensures buffer[..] == XorChunk(old(buffer[..bytesRead]), Key()) + old(buffer[bytesRead..])
    {
      ghost var key, was := Key(), buffer[..];
      var si, di := 0, 0;
      while si < bytesRead
        invariant 0 <= si <= bytesRead && 0 <= di <= |key| && key == Key() && was == old(buffer[..])
        invariant Walks(key, si, di)
        invariant buffer[..] == XorChunk(was[..si], key) + was[si..]
      {
        var al: bv8;
        ghost var start := di;
        if password[di] == 0 {
          di := 0;
        }
        if password[di] == 0 {
          al := 0xFF;
        } else {
          al := password[di];
          di := di + 1;
        }
        WalkNext(password[..], key, si, start);
        XorNext(was, key, si);
        buffer[si] := buffer[si] ^ al;
        si := si + 1;
      }
    }

    /** One round of either loop: read up to 512 bytes at `pos`, XOR them in place, give them to be written. */
    method ProcessChunk(file: Bytes, pos: nat) returns (written: Bytes)
      requires Valid() && Terminated() && pos < |file| && ChunkStart(pos, |file|)
      modifies buffer
      ensures var n := if |file| - pos < CHUNK then |file| - pos else CHUNK;
              |written| == n && written == XorChunk(file[pos..pos + n], Key())
    {
      var bytesRead := if |file| - pos < CHUNK then |file| - pos else CHUNK;
      Read(file[pos..pos + bytesRead]);
      assert buffer[..bytesRead] == file[pos..pos + bytesRead];
      EncryptBuffer(bytesRead);
      written := buffer[..bytesRead];
    }

    /** A read that returns `got`: the rest of the buffer keeps what it held. */
    method Read(got: Bytes)
      requires Valid() && |got| <= CHUNK
      modifies buffer
      ensures buffer[..] == Overlay(old(buffer[..]), got)
    {
      ghost var was := buffer[..];
      for i := 0 to |got|
        invariant forall j :: 0 <= j < i ==> buffer[j] == got[j]
        invariant forall j :: i <= j < CHUNK ==> buffer[j] == was[j]
      {
        buffer[i] := got[i];
      }
    }

    /** `encrypt_loop` and `decrypt_loop`: chunk by chunk until a read returns nothing. */
    method ProcessFile(file: Bytes) returns (out: Bytes)
      requires Valid() && Terminated()
      modifies buffer
      ensures out == XorFile(file, Key())
    {
      ghost var key := Key();
      out := [];
      var pos := 0;
      while pos < |file|
        invariant key == Key() && 0 <= pos <= |file| && ChunkStart(pos, |file|)
        invariant out == XorFile(file, key)[..pos]
      {
        var chunk := ProcessChunk(file, pos);
        ChunkOfFile(file, key, pos, |chunk|);
        NextChunk(pos, |chunk|, |file|);
        out := out + chunk;
        pos := pos + |chunk|;
      }
    }

    /** `do_encrypt` once the files are open. */
    method Encrypt(keys: Bytes, plain: Bytes) returns (enc: Bytes)
      requires Valid() && ENTER in keys
      modifies password, buffer
      ensures enc == SIGNATURE + XorFile(plain, Password(keys)) && enc[..4] == [0x42, 0x54, 0x43, 0x4B]
    {
      GetPassword(keys);
      var body := ProcessFile(plain);
      enc := SIGNATURE + body;
    }

    /** `do_decrypt` once the file is open: it compares the first four bytes of the buffer, whatever the read of
        four returned, with the signature. */
    method Decrypt(keys: Bytes, enc: Bytes) returns (ok: bool, plain: Bytes)
      requires Valid() && ENTER in keys
      modifies password, buffer
      ensures ok <==> Overlay(old(buffer[..]), enc[..Header(enc)])[..4] == SIGNATURE
      ensures |enc| >= 4 ==> (ok <==> enc[..4] == SIGNATURE)
      ensures ok ==> plain == XorFile(enc[Header(enc)..], Password(keys))
    {
      GetPassword(keys);
      var got := enc[..Header(enc)];
      Read(got);
      ok, plain := buffer[..4] == SIGNATURE, [];
      if ok {
        plain := ProcessFile(enc[Header(enc)..]);
      }
    }
  }

  /** How many of the four signature bytes a file has. */
  function Header(enc: Bytes): (n: nat)
    ensures n <= |enc| && n <= 4
  {
    if |enc| < 4 then |enc| else 4
  }

  /** Encrypting with one typed line and decrypting with another: the signature is always accepted, and the file
      comes back if and only if the two passwords have the same stream over it; so always if the lines edit to
      the same password, and for a file of 30 bytes or more exactly if the passwords' words commute. */
  method RoundTrip(keys1: Bytes, keys2: Bytes, plain: Bytes) returns (ok: bool, back: Bytes)
    requires ENTER in keys1 && ENTER in keys2
    ensures ok
    ensures back == plain <==> SameStream(Password(keys1), Password(keys2), |plain|)
    ensures Password(keys1) == Password(keys2) ==> back == plain
    ensures var w1, w2 := Word(Password(keys1)), Word(Password(keys2));
            |plain| >= 2 * MAX_LENGTH ==> (back == plain <==> w1 + w2 == w2 + w1)
  {
    var c := new Crypt();
    var enc := c.Encrypt(keys1, plain);
    ok, back := c.Decrypt(keys2, enc);
    assert enc[..4] == SIGNATURE && enc[4..] == XorFile(plain, Password(keys1));
    RecoveredIff(plain, keys1, keys2);
  }

  lemma RecoveredIff(file: Bytes, keys1: Bytes, keys2: Bytes)
    ensures var k1, k2 := Password(keys1), Password(keys2);
            && (XorFile(XorFile(file, k1), k2) == file <==> SameStream(k1, k2, |file|))
            && (|file| >= 2 * MAX_LENGTH ==>
                  (SameStream(k1, k2, |file|) <==> Word(k1) + Word(k2) == Word(k2) + Word(k1)))
  {
    var k1, k2 := Password(keys1), Password(keys2);
    XorUndone();
    OnlyXorUndoes();
    UndoneIff(file, Stream(k1, |file|), Stream(k2, |file|), Xor);
    SameStreamIff(k1, k2, |file|);
  }

  /** One more byte of a chunk. */
  lemma XorNext(was: Bytes, key: Bytes, i: nat)
    requires i < |was|
    ensures var now := XorChunk(was[..i], key) + was[i..];
            now[i] == was[i] && now[i := was[i] ^ KeyByte(key, i)] == XorChunk(was[..i + 1], key) + was[i + 1..]
  {
  }

  /** Where DI may stand when position `i` is next: on its key byte, or still on the NUL after the last. */
  ghost predicate Walks(key: Bytes, i: nat, di: nat) {
    if key == [] then di == 0 else di == i % |key| || (di == |key| && i % |key| == 0)
  }

  /** What one step of the walk reads, and where it leaves DI. */
  lemma WalkNext(password: Bytes, key: Bytes, i: nat, di: nat)
    requires key == Cut(password) && |key| < |password| && Walks(key, i, di)
    ensures key == [] ==> password[0] == 0
    ensures var at := if password[di] == 0 then 0 else di;
            key != [] ==> password[at] == KeyByte(key, i) != 0 && Walks(key, i + 1, at + 1) && at < |key|
  {
    if key != [] {
      RemainderNext(i, |key|);
    }
  }
}
