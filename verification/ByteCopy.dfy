/** memcpy and memmove on a byte array, and memcmp: each fast form against the
    plain specification. */
module ByteCopy {
  import opened ByteType

  type Bytes = seq<Byte>

  /** All n bytes moved from s to d at once. */
  function Moved(m: Bytes, d: nat, s: nat, n: nat): Bytes
    requires d + n <= |m| && s + n <= |m|
  {
    seq(|m|, j requires 0 <= j < |m| => if d <= j < d + n then m[s + (j - d)] else m[j])
  }

  /** Bytes [0, a) and [b, c) of the copy have been made, nothing else changed. */
  ghost predicate Progress(m0: Bytes, m: Bytes, d: nat, s: nat, a: nat, b: nat, c: nat)
    requires d + a <= |m0| && d + c <= |m0| && s + a <= |m0| && s + c <= |m0|
  {
    && |m| == |m0|
    && (forall j {:trigger m[j]} :: 0 <= j < |m| && Made(d, a, b, c, j) ==> m[j] == m0[s + (j - d)])
    && (forall j {:trigger m[j]} :: 0 <= j < |m| && !Made(d, a, b, c, j) ==> m[j] == m0[j])
  }

  predicate Made(d: nat, a: nat, b: nat, c: nat, j: int) { d <= j < d + a || d + b <= j < d + c }

  lemma ProgressDone(m0: Bytes, m: Bytes, d: nat, s: nat, a: nat, b: nat, n: nat)
    requires d + n <= |m0| && s + n <= |m0| && b <= a <= n && Progress(m0, m, d, s, a, b, n)
    ensures m == Moved(m0, d, s, n)
  {
  }

  /** One store of `k` bytes that were loaded before any store. */
  lemma StoreAdvances(m0: Bytes, m: Bytes, d: nat, s: nat, a: nat, b: nat, c: nat, k: nat)
    requires d + a <= |m0| && d + c + k <= |m0| && s + a <= |m0| && s + c + k <= |m0| && b <= c
      && Progress(m0, m, d, s, a, b, c)
    ensures Progress(m0, m[..d + c] + m0[s + c..s + c + k] + m[d + c + k..], d, s, a, b, c + k)
  {
  }

  /** v is what a load at p sees. */
  ghost predicate Seen(m: Bytes, p: nat, v: Bytes) { p + |v| <= |m| && v == m[p..p + |v|] }

  /** A machine load: k bytes at p. */
  function Load(m: Bytes, p: nat, k: nat): (v: Bytes)
    requires p + k <= |m|
    ensures |v| == k && Seen(m, p, v)
  {
    m[p..p + k]
  }

  /** A machine store. */
  method Store(mem: array<Byte>, p: nat, v: Bytes)
    requires p + |v| <= mem.Length
    modifies mem
    ensures mem[..] == old(mem[..])[..p] + v + old(mem[..])[p + |v|..]
  {
    forall i | 0 <= i < |v| {
      mem[p + i] := v[i];
    }
  }

  /** A store at offset c of the copy to d, of k bytes loaded beforehand. */
  method StoreAt(mem: array<Byte>, p: nat, v: Bytes, ghost d: nat, ghost m0: Bytes, ghost s: nat, ghost a: nat,
      ghost b: nat, ghost c: nat, ghost e: nat)
    requires p == d + c && e == c + |v| && |m0| == mem.Length && d + a <= |m0| && p + |v| <= |m0| && s + a <= |m0|
      && s + c + |v| <= |m0| && b <= c
    requires Progress(m0, mem[..], d, s, a, b, c) && Seen(m0, s + c, v)
    modifies mem
    ensures Progress(m0, mem[..], d, s, a, b, e)
  {
    StoreAdvances(m0, mem[..], d, s, a, b, c, |v|);
    Store(mem, p, v);
  }

  /** Up to 64 bytes: every load comes before any store, so any overlap is fine. */
  method CopySmall(mem: array<Byte>, d: nat, s: nat, n: nat)
    requires n <= 64 && d + n <= mem.Length && s + n <= mem.Length
    modifies mem
    ensures mem[..] == Moved(old(mem[..]), d, s, n)
  {
    hide Progress, Seen, Moved, Load;
    ghost var m0 := mem[..];
    ProgressNone(m0, d, s, n);
    if n >= 16 {
      if n <= 32 {
        CopyTwoPairs(mem, d, s, n);
      } else {
        CopyTwoHalves(mem, d, s, n);
      }
    } else if n >= 8 {
      var a := Load(mem[..], s, 8);
      var b := Load(mem[..], s + (n - 8), 8);
      StoreAt(mem, d, a, d, m0, s, 0, 0, 0, 8);
      FrontDone(m0, mem[..], d, s, 8, n - 8);
      StoreAt(mem, d + (n - 8), b, d, m0, s, 8, n - 8, n - 8, n);
      ProgressDone(m0, mem[..], d, s, 8, n - 8, n);
    } else if n >= 4 {
      var a := Load(mem[..], s, 4);
      var b := Load(mem[..], s + (n - 4), 4);
      StoreAt(mem, d, a, d, m0, s, 0, 0, 0, 4);
      FrontDone(m0, mem[..], d, s, 4, n - 4);
      StoreAt(mem, d + (n - 4), b, d, m0, s, 4, n - 4, n - 4, n);
      ProgressDone(m0, mem[..], d, s, 4, n - 4, n);
    } else if n != 0 {
      CopyThree(mem, d, s, n);
    } else {
      ProgressDone(m0, mem[..], d, s, 0, 0, 0);
    }
  }

  /** One to three bytes: first, middle and last. */
  method CopyThree(mem: array<Byte>, d: nat, s: nat, n: nat)
    requires 1 <= n <= 3 && d + n <= mem.Length && s + n <= mem.Length
    modifies mem
    ensures mem[..] == Moved(old(mem[..]), d, s, n)
  {
    var a, b, c := mem[s], mem[s + n / 2], mem[s + n - 1];
    mem[d] := a;
    mem[d + n / 2] := b;
    mem[d + n - 1] := c;
  }

  /** 16 to 32 bytes as two pairs of words that may overlap. */
  method CopyTwoPairs(mem: array<Byte>, d: nat, s: nat, n: nat)
    requires 16 <= n <= 32 && d + n <= mem.Length && s + n <= mem.Length
    modifies mem
    ensures mem[..] == Moved(old(mem[..]), d, s, n)
  {
    hide Progress, Seen, Moved, Load;
    ghost var m0 := mem[..];
    ProgressNone(m0, d, s, n);
    var a := Load(mem[..], s, 8);
    var b := Load(mem[..], s + 8, 8);
    var c := Load(mem[..], s + (n - 16), 8);
    var e := Load(mem[..], s + (n - 8), 8);
    StoreAt(mem, d, a, d, m0, s, 0, 0, 0, 8);
    StoreAt(mem, d + 8, b, d, m0, s, 0, 0, 8, 16);
    FrontDone(m0, mem[..], d, s, 16, n - 16);
    StoreAt(mem, d + (n - 16), c, d, m0, s, 16, n - 16, n - 16, n - 8);
    StoreAt(mem, d + (n - 8), e, d, m0, s, 16, n - 16, n - 8, n);
    ProgressDone(m0, mem[..], d, s, 16, n - 16, n);
  }

  /** 33 to 64 bytes as two halves of four words that may overlap. */
  method CopyTwoHalves(mem: array<Byte>, d: nat, s: nat, n: nat)
    requires 32 < n <= 64 && d + n <= mem.Length && s + n <= mem.Length
    modifies mem
    ensures mem[..] == Moved(old(mem[..]), d, s, n)
  {
    hide Progress, Seen, Moved, Load;
    ghost var m0 := mem[..];
    ProgressNone(m0, d, s, n);
    var a0 := Load(mem[..], s, 8);
    var a1 := Load(mem[..], s + 8, 8);
    var a2 := Load(mem[..], s + 16, 8);
    var a3 := Load(mem[..], s + 24, 8);
    var b0 := Load(mem[..], s + (n - 32), 8);
    var b1 := Load(mem[..], s + (n - 24), 8);
    var b2 := Load(mem[..], s + (n - 16), 8);
    var b3 := Load(mem[..], s + (n - 8), 8);
    StoreAt(mem, d, a0, d, m0, s, 0, 0, 0, 8);
    StoreAt(mem, d + 8, a1, d, m0, s, 0, 0, 8, 16);
    StoreAt(mem, d + 16, a2, d, m0, s, 0, 0, 16, 24);
    StoreAt(mem, d + 24, a3, d, m0, s, 0, 0, 24, 32);
    FrontDone(m0, mem[..], d, s, 32, n - 32);
    StoreAt(mem, d + (n - 32), b0, d, m0, s, 32, n - 32, n - 32, n - 24);
    StoreAt(mem, d + (n - 24), b1, d, m0, s, 32, n - 32, n - 24, n - 16);
    StoreAt(mem, d + (n - 16), b2, d, m0, s, 32, n - 32, n - 16, n - 8);
    StoreAt(mem, d + (n - 8), b3, d, m0, s, 32, n - 32, n - 8, n);
    ProgressDone(m0, mem[..], d, s, 32, n - 32, n);
  }

  lemma ProgressNone(m0: Bytes, d: nat, s: nat, n: nat)
    requires d + n <= |m0| && s + n <= |m0|
    ensures Progress(m0, m0, d, s, 0, 0, 0)
  {
  }

  /** The front bytes are made; the back part starts at b. */
  lemma FrontDone(m0: Bytes, m: Bytes, d: nat, s: nat, a: nat, b: nat)
    requires d + a <= |m0| && s + a <= |m0| && d + b <= |m0| && s + b <= |m0| && Progress(m0, m, d, s, 0, 0, a)
    ensures Progress(m0, m, d, s, a, b, b)
  {
  }

  /** A forward copy never overtakes the bytes it has yet to read. */
  predicate ForwardSafe(d: nat, s: nat, n: nat) { d <= s || s + n <= d }

  ghost predicate Intact(m0: Bytes, m: Bytes, lo: nat, hi: nat)
    requires hi <= |m0| == |m|
  {
    forall j {:trigger m[j]} :: lo <= j < hi ==> m[j] == m0[j]
  }

  lemma SameSlice(m: Bytes, m0: Bytes, lo: nat, hi: nat, p: nat, k: nat)
    requires lo <= p && p + k <= hi <= |m0| == |m| && Intact(m0, m, lo, hi)
    ensures m[p..p + k] == m0[p..p + k]
  {
  }

  /** Loads at or past offset c still see the old memory. */
  lemma SourceIntact(m0: Bytes, m: Bytes, d: nat, s: nat, c: nat, k: nat, n: nat)
    requires d + n <= |m0| && s + n <= |m0| && c + k <= n && ForwardSafe(d, s, n) && Progress(m0, m, d, s, 0, 0, c)
    ensures Intact(m0, m, s + c, s + c + k)
  {
  }

  lemma TailDone(m0: Bytes, m: Bytes, d: nat, s: nat, c: nat, n: nat)
    requires c <= n && d + n <= |m0| && s + n <= |m0| && Progress(m0, m, d, s, 0, 0, c) && Intact(m0, m, s + c, s + n)
    ensures Progress(m0, Moved(m, d + c, s + c, n - c), d, s, 0, 0, n)
  {
  }

  /** The chunk loop and its tail. */
  method CopySse2(mem: array<Byte>, d: nat, s: nat, n: nat)
    requires d + n <= mem.Length && s + n <= mem.Length && ForwardSafe(d, s, n)
    modifies mem
    ensures mem[..] == Moved(old(mem[..]), d, s, n)
  {
    hide Progress, Intact, Moved;
    ghost var m0 := mem[..];
    ProgressNone(m0, d, s, n);
    var chunks, dst, src := n / 64, d, s;
    while chunks != 0
      invariant dst - d == src - s && dst - d == 64 * (n / 64 - chunks) && 0 <= chunks <= n / 64
      invariant 0 <= dst - d <= n && mem.Length == |m0| && Progress(m0, mem[..], d, s, 0, 0, dst - d)
    {
      ghost var c := dst - d;
      SourceIntact(m0, mem[..], d, s, c, 64, n);
      Chunk(mem, dst, src, d, m0, s);
      src, dst, chunks := src + 64, dst + 64, chunks - 1;
    }
    ghost var c := dst - d;
    if n % 64 != 0 {
      SourceIntact(m0, mem[..], d, s, c, n - c, n);
      ghost var m := mem[..];
      CopySmall(mem, dst, src, n % 64);
      TailDone(m0, m, d, s, c, n);
    }
    ProgressDone(m0, mem[..], d, s, 0, 0, n);
  }

  /** One turn of the loop: four 16-byte loads, then four 16-byte stores. */
  method Chunk(mem: array<Byte>, dst: nat, src: nat, ghost d: nat, ghost m0: Bytes, ghost s: nat)
    requires mem.Length == |m0| && dst + 64 <= |m0| && src + 64 <= |m0| && d <= dst && dst - d == src - s && s <= src
    requires Progress(m0, mem[..], d, s, 0, 0, dst - d) && Intact(m0, mem[..], src, src + 64)
    modifies mem
    ensures Progress(m0, mem[..], d, s, 0, 0, dst - d + 64)
  {
    hide Progress;
    ghost var m, c := mem[..], dst - d;
    var x0 := Load(mem[..], src, 16);
    var x1 := Load(mem[..], src + 16, 16);
    var x2 := Load(mem[..], src + 32, 16);
    var x3 := Load(mem[..], src + 48, 16);
    SameSlice(m, m0, src, src + 64, src, 16);
    SameSlice(m, m0, src, src + 64, src + 16, 16);
    SameSlice(m, m0, src, src + 64, src + 32, 16);
    SameSlice(m, m0, src, src + 64, src + 48, 16);
    StoreAt(mem, dst, x0, d, m0, s, 0, 0, c, c + 16);
    StoreAt(mem, dst + 16, x1, d, m0, s, 0, 0, c + 16, c + 32);
    StoreAt(mem, dst + 32, x2, d, m0, s, 0, 0, c + 32, c + 48);
    StoreAt(mem, dst + 48, x3, d, m0, s, 0, 0, c + 48, c + 64);
  }

  /** rep movsb with the direction flag clear. */
  method RepForward(mem: array<Byte>, d: nat, s: nat, n: nat)
    requires d + n <= mem.Length && s + n <= mem.Length && ForwardSafe(d, s, n)
    modifies mem
    ensures mem[..] == Moved(old(mem[..]), d, s, n)
  {
    ghost var m0 := mem[..];
    var i := 0;
    while i < n
      invariant 0 <= i <= n && mem.Length == |m0|
      invariant forall j {:trigger mem[j]} :: 0 <= j < |m0| && d <= j < d + i ==> mem[j] == m0[s + (j - d)]
      invariant forall j {:trigger mem[j]} :: 0 <= j < |m0| && !(d <= j < d + i) ==> mem[j] == m0[j]
    {
      mem[d + i] := mem[s + i];
      i := i + 1;
    }
  }

  /** std; rep movsb; cld. */
  method RepBackward(mem: array<Byte>, d: nat, s: nat, n: nat)
    requires d + n <= mem.Length && s + n <= mem.Length && s <= d
    modifies mem
    ensures mem[..] == Moved(old(mem[..]), d, s, n)
  {
    ghost var m0 := mem[..];
    var i := n;
    while i > 0
      invariant 0 <= i <= n && mem.Length == |m0|
      invariant forall j {:trigger mem[j]} :: 0 <= j < |m0| && d + i <= j < d + n ==> mem[j] == m0[s + (j - d)]
      invariant forall j {:trigger mem[j]} :: 0 <= j < |m0| && !(d + i <= j < d + n) ==> mem[j] == m0[j]
    {
      i := i - 1;
      mem[d + i] := mem[s + i];
    }
  }

  /** Right for every overlap at most 64 bytes long, and for longer ones when
      the destination does not run ahead into the source. */
  method Memcpy(mem: array<Byte>, d: nat, s: nat, n: nat) returns (r: nat)
    requires d + n <= mem.Length && s + n <= mem.Length && (n <= 64 || ForwardSafe(d, s, n))
    modifies mem
    ensures r == d && mem[..] == Moved(old(mem[..]), d, s, n)
  {
    r := d;
    if n <= 64 {
      CopySmall(mem, d, s, n);
    } else if n <= 4096 {
      CopySse2(mem, d, s, n);
    } else {
      RepForward(mem, d, s, n);
    }
  }

  /** One simultaneous copy, whatever the overlap. */
  method Memmove(mem: array<Byte>, d: nat, s: nat, n: nat) returns (r: nat)
    requires d + n <= mem.Length && s + n <= mem.Length
    modifies mem
    ensures r == d && mem[..] == Moved(old(mem[..]), d, s, n)
  {
    r := d;
    if n <= 64 {
      CopySmall(mem, d, s, n);
      return;
    }
    if d > s && d - s < n {
      RepBackward(mem, d, s, n);
    } else if n <= 4096 {
      CopySse2(mem, d, s, n);
    } else {
      RepForward(mem, d, s, n);
    }
  }

  // ----- comparison a word at a time -----

  /** The order of the first differing bytes. */
  function Lex(x: Bytes, y: Bytes): int
    requires |x| == |y|
  {
    if x == [] then 0 else if x[0] != y[0] then (if x[0] < y[0] then -1 else 1) else Lex(x[1..], y[1..])
  }

  function Power(k: nat): nat { if k == 0 then 1 else 256 * Power(k - 1) }

  /** The word a little-endian load yields. */
  function Little(v: Bytes): nat { if v == [] then 0 else v[0] + 256 * Little(v[1..]) }

  function Big(v: Bytes): nat { if v == [] then 0 else v[0] * Power(|v| - 1) + Big(v[1..]) }

  /** The bytes of a k-byte word reversed. */
  function Bswap(u: nat, k: nat): nat { if k == 0 then 0 else (u % 256) * Power(k - 1) + Bswap(u / 256, k - 1) }

  lemma {:induction false} BswapIsBig(v: Bytes)
    ensures Bswap(Little(v), |v|) == Big(v)
  {
    if v != [] {
      assert Little(v) % 256 == v[0] && Little(v) / 256 == Little(v[1..]);
      BswapIsBig(v[1..]);
    }
  }

  lemma TopByteDecides(a: nat, b: nat, p: nat, q: nat, r: nat)
    requires a < b && q < p
    ensures a * p + q < b * p + r
  {
    assert b * p == a * p + p + (b - a - 1) * p;
  }

  lemma {:induction false} BigIsBounded(v: Bytes)
    ensures Big(v) < Power(|v|)
  {
    if v != [] {
      BigIsBounded(v[1..]);
      TopByteDecides(v[0], 256, Power(|v| - 1), Big(v[1..]), 0);
    }
  }

  /** After the swap, word order is byte order. */
  lemma {:induction false} BigOrder(x: Bytes, y: Bytes)
    requires |x| == |y|
    ensures (Lex(x, y) < 0 <==> Big(x) < Big(y)) && (Lex(x, y) == 0 <==> Big(x) == Big(y)) && Lex(x, y) in {-1, 0, 1}
  {
    if x != [] {
      BigIsBounded(x[1..]);
      BigIsBounded(y[1..]);
      BigOrder(x[1..], y[1..]);
      var p := Power(|x| - 1);
      if x[0] < y[0] {
        TopByteDecides(x[0], y[0], p, Big(x[1..]), Big(y[1..]));
      } else if y[0] < x[0] {
        TopByteDecides(y[0], x[0], p, Big(y[1..]), Big(x[1..]));
      }
    }
  }

  lemma {:induction false} LittleIsExact(x: Bytes, y: Bytes)
    requires |x| == |y| && Little(x) == Little(y)
    ensures x == y
  {
    if x != [] {
      assert Little(x) % 256 == x[0] && Little(y) % 256 == y[0];
      LittleIsExact(x[1..], y[1..]);
      assert x == [x[0]] + x[1..] && y == [y[0]] + y[1..];
    }
  }

  /** Equal prefixes do not matter. */
  lemma {:induction false} LexSkips(x: Bytes, y: Bytes, i: nat)
    requires |x| == |y| && i <= |x| && x[..i] == y[..i]
    ensures Lex(x, y) == Lex(x[i..], y[i..])
  {
    if i > 0 {
      assert x[0] == x[..i][0] && y[0] == y[..i][0];
      assert x[1..][..i - 1] == x[..i][1..] && y[1..][..i - 1] == y[..i][1..];
      LexSkips(x[1..], y[1..], i - 1);
      assert x[1..][i - 1..] == x[i..] && y[1..][i - 1..] == y[i..];
    }
  }

  /** The first word that differs decides. */
  lemma {:induction false} LexByPrefix(x: Bytes, y: Bytes, k: nat)
    requires |x| == |y| && k <= |x| && x[..k] != y[..k]
    ensures Lex(x, y) == Lex(x[..k], y[..k])
  {
    LexUnfold(x, y);
    LexUnfold(x[..k], y[..k]);
    hide Lex;
    if x[0] == y[0] {
      LexTail(x, k);
      LexTail(y, k);
      LexByPrefix(x[1..], y[1..], k - 1);
    }
  }

  lemma LexUnfold(x: Bytes, y: Bytes)
    requires |x| == |y| > 0
    ensures Lex(x, y) == if x[0] != y[0] then (if x[0] < y[0] then -1 else 1) else Lex(x[1..], y[1..])
  {
  }

  lemma LexTail(x: Bytes, k: nat)
    requires 0 < k <= |x|
    ensures x[..k] == [x[0]] + x[1..][..k - 1] && x[..k][1..] == x[1..][..k - 1] && x[..k][0] == x[0]
  {
  }

  lemma WordDecides(x: Bytes, y: Bytes, i: nat, u: Bytes, v: Bytes)
    requires |x| == |y| && i + 8 <= |x| && x[..i] == y[..i] && u == x[i..i + 8] && v == y[i..i + 8]
      && Little(u) != Little(v)
    ensures Lex(x, y) == if Bswap(Little(u), 8) < Bswap(Little(v), 8) then -1 else 1
  {
    LexSkips(x, y, i);
    assert x[i..][..8] == u && y[i..][..8] == v;
    LexByPrefix(x[i..], y[i..], 8);
    BswapIsBig(u);
    BswapIsBig(v);
    BigOrder(u, v);
    if Big(u) == Big(v) { LexZero(u, v); }
  }

  lemma {:induction false} LexZero(x: Bytes, y: Bytes)
    requires |x| == |y| && Lex(x, y) == 0
    ensures x == y
  {
    if x != [] {
      LexZero(x[1..], y[1..]);
      assert x == [x[0]] + x[1..] && y == [y[0]] + y[1..];
    }
  }

  lemma LexSame(x: Bytes)
    ensures Lex(x, x) == 0
  {
  }

  method Memcmp(x: Bytes, y: Bytes) returns (r: int)
    requires |x| == |y|
    ensures r == Lex(x, y)
  {
    var i, n := 0, |x|;
    while i + 8 <= n
      invariant 0 <= i <= n && x[..i] == y[..i]
    {
      var u, v := Little(Load(x, i, 8)), Little(Load(y, i, 8));
      if u != v {
        WordDecides(x, y, i, x[i..i + 8], y[i..i + 8]);
        return if Bswap(u, 8) < Bswap(v, 8) then -1 else 1;
      }
      LittleIsExact(x[i..i + 8], y[i..i + 8]);
      assert x[..i + 8] == x[..i] + x[i..i + 8] && y[..i + 8] == y[..i] + y[i..i + 8];
      i := i + 8;
    }
    while i < n
      invariant 0 <= i <= n && x[..i] == y[..i]
    {
      if x[i] != y[i] {
        LexSkips(x, y, i);
        return if x[i] < y[i] then -1 else 1;
      }
      assert x[..i + 1] == x[..i] + [x[i]] && y[..i + 1] == y[..i] + [y[i]];
      i := i + 1;
    }
    assert x == x[..n] && y == y[..n];
    LexSame(x);
    return 0;
  }
}
