/** Signed base-128 numbers, the record reader and writer of the object
    sections, and the string table. */
module RecordCodec {
  import opened ByteType
  import opened Options
  import opened Varint

  // ----- signed numbers -----

  /** Seven bits at a time until what is left is only sign. */
  function Sleb(v: int): (b: seq<Byte>)
    ensures |b| > 0
    decreases if v >= 0 then v else -v - 1
  {
    var c, n := v % 128, v / 128;
    if (n == 0 && c < 64) || (n == -1 && c >= 64) then [c] else [c + 128] + Sleb(n)
  }

  /** The reader from byte i on, x the value of the bytes before. Ten bytes at
      most; the sign bit of a shorter number is extended. */
  function SlebRead(b: seq<Byte>, i: nat, x: nat): (r: Option<Num>)
    requires i <= |b|
    ensures r.Some? ==> i < r.value.len <= |b|
    decreases |b| - i
  {
    if i == |b| || i >= 10 then None else
      var y := x + Shifted(b[i] % 128, i);
      if b[i] < 128 then Some(Num(Wrap(if i < 9 && b[i] >= 64 then y - Pow(i + 1) else y), i + 1))
      else if i == 9 then None
      else SlebRead(b, i + 1, y)
  }

  lemma Peeled(x: nat, n: int, p: nat, v: int)
    requires p > 0 && 0 <= x < p && v == x + n * p
    ensures v == (x + (n % 128) * p) + (n / 128) * (128 * p) && 0 <= x + (n % 128) * p < 128 * p
  {
    assert n == 128 * (n / 128) + n % 128;
    PeelMath(n / 128, n % 128, p);
  }

  lemma PeelMath(q: int, c: nat, p: nat)
    requires c < 128
    ensures (128 * q + c) * p == c * p + q * (128 * p) && 0 <= c * p <= 127 * p
  {
    assert (128 * q + c) * p == (128 * q) * p + c * p;
    assert (128 * q) * p == q * (128 * p);
    assert 127 * p == c * p + (127 - c) * p;
  }

  /** At the tenth byte only the sign is left. */
  lemma SignOnly(x: nat, n: int, v: int)
    requires 0 <= x < TWO63 && v == x + n * TWO63 && IsI64(v)
    ensures n == 0 || n == -1
  {
  }

  lemma {:induction false} SlebReads(pre: seq<Byte>, n: int, rest: seq<Byte>, x: nat, v: int)
    requires |pre| <= 9 && x < Pow(|pre|) && v == x + n * Pow(|pre|) && IsI64(v)
    ensures SlebRead(pre + Sleb(n) + rest, |pre|, x) == Some(Num(v, |pre| + |Sleb(n)|))
    decreases if n >= 0 then n else -n - 1
  {
    hide Pow, Wrap, SlebRead, Sleb, IsLast;
    if IsLast(n) {
      SlebLast(pre, n, rest, x, v);
    } else {
      SlebMore(pre, n, rest, x, v);
      SlebReads(pre + [n % 128 + 128], n / 128, rest, x + n % 128 * Pow(|pre|), v);
    }
  }

  lemma SlebLast(pre: seq<Byte>, n: int, rest: seq<Byte>, x: nat, v: int)
    requires |pre| <= 9 && x < Pow(|pre|) && v == x + n * Pow(|pre|) && IsI64(v) && IsLast(n)
    ensures SlebRead(pre + Sleb(n) + rest, |pre|, x) == Some(Num(v, |pre| + |Sleb(n)|))
  {
    var b, i, c := pre + Sleb(n) + rest, |pre|, n % 128;
    SlebUnfold(n);
    PowPositive(i);
    Peeled(x, n, Pow(i), v);
    hide Pow, Wrap, SlebRead, Sleb;
    assert b[i] == c;
    SlebReadStep(b, i, x, c);
    LastByte(x + c * Pow(i), v, n / 128, i, c);
  }

  lemma SlebMore(pre: seq<Byte>, n: int, rest: seq<Byte>, x: nat, v: int)
    requires |pre| <= 9 && x < Pow(|pre|) && v == x + n * Pow(|pre|) && IsI64(v) && !IsLast(n)
    ensures |pre| < 9 && |Sleb(n)| == 1 + |Sleb(n / 128)|
    ensures (if n / 128 >= 0 then n / 128 else -(n / 128) - 1) < (if n >= 0 then n else -n - 1)
    ensures var y, more := x + n % 128 * Pow(|pre|), pre + [n % 128 + 128];
      && 0 <= y < Pow(|more|) && v == y + n / 128 * Pow(|more|) && pre + Sleb(n) + rest == more + Sleb(n / 128) + rest
      && SlebRead(pre + Sleb(n) + rest, |pre|, x) == SlebRead(pre + Sleb(n) + rest, |more|, y)
  {
    var b, i, c := pre + Sleb(n) + rest, |pre|, n % 128;
    SlebUnfold(n);
    PowPositive(i);
    Peeled(x, n, Pow(i), v);
    MoreToCome(x, n, v, i);
    hide Pow, Wrap, SlebRead, Sleb, IsLast;
    assert b[i] == c + 128;
    SlebReadStep(b, i, x, c);
    assert b == (pre + [c + 128]) + Sleb(n / 128) + rest;
  }

  /** Seven bits hold what is left, sign included. */
  predicate IsLast(n: int) { (n / 128 == 0 && n % 128 < 64) || (n / 128 == -1 && n % 128 >= 64) }

  lemma SlebUnfold(n: int)
    ensures Sleb(n) == if IsLast(n) then [n % 128] else [n % 128 + 128] + Sleb(n / 128)
    ensures !IsLast(n) ==> (if n / 128 >= 0 then n / 128 else -(n / 128) - 1) < (if n >= 0 then n else -n - 1)
  {
  }

  lemma MoreToCome(x: nat, n: int, v: int, i: nat)
    requires i <= 9 && x < Pow(i) && v == x + n * Pow(i) && IsI64(v) && !IsLast(n)
    ensures i < 9
  {
    PowersUpToTen();
    hide Pow;
    if i == 9 { SignOnly(x, n, v); }
  }

  /** One byte of the reader. */
  lemma SlebReadStep(b: seq<Byte>, i: nat, x: nat, c: nat)
    requires i < |b| && i < 10 && c < 128 && (b[i] == c || (b[i] == c + 128 && i < 9))
    ensures b[i] == c ==>
      SlebRead(b, i, x) == Some(Num(Wrap(if i < 9 && c >= 64 then x + c * Pow(i) - Pow(i + 1) else x + c * Pow(i)),
      i + 1))
    ensures b[i] == c + 128 ==> x + c * Pow(i) >= 0 && SlebRead(b, i, x) == SlebRead(b, i + 1, x + c * Pow(i))
  {
    hide Pow, Wrap;
  }

  lemma {:induction false} PowPositive(i: nat)
    ensures Pow(i) > 0 && Pow(i + 1) == 128 * Pow(i)
  {
    if i > 0 { PowPositive(i - 1); }
  }

  lemma LastByte(y: nat, v: int, q: int, i: nat, c: nat)
    requires i <= 9 && IsI64(v) && v == y + q * Pow(i + 1) && ((q == 0 && c < 64) || (q == -1 && 64 <= c < 128))
    ensures Wrap(if i < 9 && c >= 64 then y - Pow(i + 1) else y) == v
  {
    PowersUpToTen();
    hide Pow;
    if i == 9 && q == -1 {
      assert y == v + 64 * TWO64;
    }
  }

  lemma SlebRoundTrip(v: int, rest: seq<Byte>)
    requires IsI64(v)
    ensures SlebRead(Sleb(v) + rest, 0, 0) == Some(Num(v, |Sleb(v)|))
  {
    assert [] + Sleb(v) + rest == Sleb(v) + rest;
    SlebReads([], v, rest, 0, v);
  }

  // ----- the writer -----

  /** A length-prefixed record. */
  function Record(body: seq<Byte>): seq<Byte> { Uleb(|body|) + body }

  class Enc {
    var b: seq<Byte>

    constructor ()
      ensures b == []
    {
      b := [];
    }

    method U8(v: Byte)
      modifies this
      ensures b == old(b) + [v]
    {
      b := b + [v];
    }

    method PutUleb(v: nat)
      modifies this
      ensures b == old(b) + Uleb(v)
    {
      b := b + Uleb(v);
    }

    method Raw(v: seq<Byte>)
      modifies this
      ensures b == old(b) + v
    {
      b := b + v;
    }

    method PutSleb(v0: int)
      modifies this
      ensures b == old(b) + Sleb(v0)
    {
      var v := v0;
      while true
        invariant b + Sleb(v) == old(b) + Sleb(v0)
        decreases if v >= 0 then v else -v - 1
      {
        var c := v % 128;
        ghost var was := v;
        var n := v / 128;
        if (n == 0 && c < 64) || (n == -1 && c >= 64) {
          b := b + [c];
          return;
        }
        assert Sleb(v) == [c + 128] + Sleb(n);
        assert (b + [c + 128]) + Sleb(n) == b + ([c + 128] + Sleb(n));
        b := b + [c + 128];
        v := n;
      }
    }

    /** Appends body as one record; the result is where the record starts. */
    method AddRecord(body: seq<Byte>) returns (off: nat)
      modifies this
      ensures b == old(b) + Record(body) && off == |old(b)|
    {
      off := |b|;
      PutUleb(|body|);
      Raw(body);
      assert b == old(b) + Record(body);
    }
  }

  // ----- the reader -----

  class Buf {
    var b: seq<Byte>
    var err: bool

    constructor (bytes: seq<Byte>)
      ensures b == bytes && !err
    {
      b, err := bytes, false;
    }

    method U8() returns (v: Byte)
      modifies this
      ensures old(b) == [] ==> v == 0 && err && b == []
      ensures old(b) != [] ==> v == old(b)[0] && b == old(b)[1..] && err == old(err)
    {
      if |b| < 1 {
        err := true;
        return 0;
      }
      v := b[0];
      b := b[1..];
    }

    method GetUleb() returns (v: int)
      modifies this
      ensures var n := Uvarint(old(b), 0, 0);
        if n.None? then v == 0 && err && b == []
          else v == n.value.value && b == old(b)[n.value.len..] && err == old(err)
    {
      var n := Uvarint(b, 0, 0);
      if n.None? {
        err, b := true, [];
        return 0;
      }
      b := b[n.value.len..];
      v := n.value.value;
    }

    /** Byte by byte, with the shift that goes with it. */
    method GetSleb() returns (v: int)
      modifies this
      ensures var n := SlebRead(old(b), 0, 0);
        if n.None? then v == 0 && err else v == n.value.value && b == old(b)[n.value.len..] && err == old(err)
    {
      var x: nat := 0;
      var i: nat := 0;
      while true
        invariant i <= |old(b)| && i <= 9 && b == old(b)[i..] && err == old(err)
          && SlebRead(old(b), i, x) == SlebRead(old(b), 0, 0)
        decreases |old(b)| - i
      {
        if |b| == 0 {
          err := true;
          return 0;
        }
        var c := b[0];
        b := b[1..];
        var y := x + Shifted(c % 128, i);
        if c < 128 { return Wrap(if i < 9 && c >= 64 then y - Pow(i + 1) else y); }
        if i == 9 {
          err := true;
          return 0;
        }
        x, i := y, i + 1;
      }
    }

    method GetBytes(n: nat) returns (v: seq<Byte>)
      modifies this
      ensures if |old(b)| < n then v == [] && err && b == []
        else v == old(b)[..n] && b == old(b)[n..] && err == old(err)
    {
      if |b| < n {
        err, b := true, [];
        return [];
      }
      v := b[..n];
      b := b[n..];
    }
  }

  // ----- sections -----

  function Cat(bodies: seq<seq<Byte>>): seq<Byte> {
    if bodies == [] then [] else Cat(bodies[..|bodies| - 1]) + Record(bodies[|bodies| - 1])
  }

  datatype Rec = Rec(off: nat, body: seq<Byte>)

  /** The records of a section with their offsets. */
  function Split(b: seq<Byte>, off: nat): Option<seq<Rec>>
    decreases |b|
  {
    if b == [] then Some([]) else
      var n := Uvarint(b, 0, 0);
      if n.None? || |b| - n.value.len < n.value.value then None else
        var rest := b[n.value.len..];
        var more := Split(rest[n.value.value..], off + n.value.len + n.value.value);
        if more.None? then None else Some([Rec(off, rest[..n.value.value])] + more.value)
  }

  /** The loop over a section's records. */
  method Records(section: seq<Byte>) returns (out: Option<seq<Rec>>)
    ensures out == Split(section, 0)
  {
    hide Split, Uvarint;
    var b, off := section, 0;
    var recs: seq<Rec> := [];
    assert Split(section, 0).Some? ==> [] + Split(section, 0).value == Split(section, 0).value;
    while |b| > 0
      invariant off + |b| == |section|
      invariant Split(section, 0) == Prefixed(recs, Split(b, off))
      decreases |b|
    {
      SplitStep(b, off);
      var n := Uvarint(b, 0, 0);
      if n.None? || |b| - n.value.len < n.value.value { return None; }
      var rest := b[n.value.len..];
      var rec := Rec(off, rest[..n.value.value]);
      ghost var more := Split(rest[n.value.value..], off + n.value.len + n.value.value);
      assert more.Some? ==> recs + ([rec] + more.value) == (recs + [rec]) + more.value;
      recs, b, off := recs + [rec], rest[n.value.value..], off + n.value.len + n.value.value;
    }
    assert recs + [] == recs && b == [];
    SplitNone(off);
    return Some(recs);
  }

  function Prefixed(recs: seq<Rec>, more: Option<seq<Rec>>): Option<seq<Rec>> {
    if more.None? then None else Some(recs + more.value)
  }

  /** A section's records as they were written. */
  function Recs(bodies: seq<seq<Byte>>, off: nat): seq<Rec> {
    if bodies == [] then [] else [Rec(off, bodies[0])] + Recs(bodies[1..], off + |Record(bodies[0])|)
  }

  ghost predicate Small(bodies: seq<seq<Byte>>) { forall k :: 0 <= k < |bodies| ==> IsU64(|bodies[k]|) }

  lemma {:induction false} CatFront(bodies: seq<seq<Byte>>)
    requires bodies != []
    ensures Cat(bodies) == Record(bodies[0]) + Cat(bodies[1..])
    decreases |bodies|
  {
    var n := |bodies| - 1;
    var last := bodies[n];
    assert bodies == bodies[..n] + [last];
    CatMore(bodies[..n], last);
    if n == 0 {
      assert bodies[..0] == [] && bodies[1..] == [];
    } else {
      var mid := bodies[..n][1..];
      CatFront(bodies[..n]);
      CatMore(mid, last);
      hide Cat, Record;
      assert bodies[1..] == mid + [last] && bodies[..n][0] == bodies[0];
      calc {
        Cat(bodies);
        Cat(bodies[..n]) + Record(last);
        (Record(bodies[0]) + Cat(mid)) + Record(last);
        Record(bodies[0]) + (Cat(mid) + Record(last));
        Record(bodies[0]) + Cat(bodies[1..]);
      }
    }
  }

  lemma CatMore(bodies: seq<seq<Byte>>, body: seq<Byte>)
    ensures Cat(bodies + [body]) == Cat(bodies) + Record(body)
  {
    assert (bodies + [body])[..|bodies|] == bodies;
  }

  /** Reading a section gives back each record, at the offset the writer was told. */
  lemma {:induction false} SplitCat(bodies: seq<seq<Byte>>, off: nat)
    requires Small(bodies)
    ensures Split(Cat(bodies), off) == Some(Recs(bodies, off))
    decreases |bodies|
  {
    hide Record, Split;
    if bodies != [] {
      CatFront(bodies);
      SplitOne(bodies[0], Cat(bodies[1..]), off);
      SplitCat(bodies[1..], off + |Record(bodies[0])|);
    } else {
      SplitNone(off);
    }
  }

  /** One turn of the loop. */
  lemma SplitStep(b: seq<Byte>, off: nat)
    requires b != []
    ensures var n := Uvarint(b, 0, 0);
      if n.None? || |b| - n.value.len < n.value.value then Split(b, off) == None
      else var rest := b[n.value.len..];
        Split(b, off) == Prefixed([Rec(off, rest[..n.value.value])],
          Split(rest[n.value.value..], off + n.value.len + n.value.value))
  {
    hide Uvarint;
  }

  lemma SplitNone(off: nat)
    ensures Split([], off) == Some([])
  {
  }

  lemma SplitOne(body: seq<Byte>, tail: seq<Byte>, off: nat)
    requires IsU64(|body|)
    ensures Split(Record(body) + tail, off) == Prefixed([Rec(off, body)], Split(tail, off + |Record(body)|))
  {
    hide Uleb, Uvarint;
    var b, u := Record(body) + tail, Uleb(|body|);
    assert b == u + (body + tail);
    UlebRoundTrip(|body|, body + tail);
    assert b[|u|..] == body + tail;
    assert (body + tail)[..|body|] == body && (body + tail)[|body|..] == tail;
  }

  function Find(recs: seq<Rec>, off: nat): Option<seq<Byte>> {
    if recs == [] then None else if recs[0].off == off then Some(recs[0].body) else Find(recs[1..], off)
  }

  /** An offset the writer returned finds the record it was returned for. */
  lemma {:induction false} FindsRecord(bodies: seq<seq<Byte>>, off: nat, k: nat)
    requires k < |bodies|
    ensures Find(Recs(bodies, off), off + |Cat(bodies[..k])|) == Some(bodies[k])
    decreases |bodies|
  {
    var rs := Recs(bodies, off);
    assert rs[1..] == Recs(bodies[1..], off + |Record(bodies[0])|);
    if k == 0 {
      assert bodies[..0] == [];
    } else {
      CatFront(bodies[..k]);
      assert bodies[..k][1..] == bodies[1..][..k - 1];
      FindsRecord(bodies[1..], off + |Record(bodies[0])|, k - 1);
    }
  }

  // ----- strings -----

  function StrAt(strs: seq<Byte>, off: nat): Option<seq<Byte>>
    decreases |strs| - off
  {
    if off >= |strs| then None else if strs[off] == 0 then Some([]) else
      var more := StrAt(strs, off + 1);
      if more.None? then None else Some([strs[off]] + more.value)
  }

  lemma {:induction false} StrGrows(strs: seq<Byte>, more: seq<Byte>, off: nat)
    requires StrAt(strs, off).Some?
    ensures StrAt(strs + more, off) == StrAt(strs, off)
    decreases |strs| - off
  {
    if strs[off] != 0 { StrGrows(strs, more, off + 1); }
  }

  lemma {:induction false} StrReads(pre: seq<Byte>, v: seq<Byte>, post: seq<Byte>, i: nat)
    requires i <= |v| && forall k :: 0 <= k < |v| ==> v[k] != 0
    ensures StrAt(pre + v + [0] + post, |pre| + i) == Some(v[i..])
    decreases |v| - i
  {
    var s := pre + v + [0] + post;
    if i < |v| {
      assert s[|pre| + i] == v[i];
      StrReads(pre, v, post, i + 1);
      assert [v[i]] + v[i + 1..] == v[i..];
    } else {
      assert s[|pre| + i] == 0 && v[i..] == [];
    }
  }

  /** The table's bytes and the offsets handed out. */
  datatype Tab = Tab(strs: seq<Byte>, idx: map<seq<Byte>, nat>)

  const EMPTY := Tab([0], map[[] := 0])

  function Interned(t: Tab, v: seq<Byte>): Tab {
    if v in t.idx then t else Tab(t.strs + v + [0], t.idx[v := |t.strs|])
  }

  /** Interning: equal strings share an offset, and every offset ever handed
      out keeps reading as its string. */
  class Strtab {
    var strs: seq<Byte>
    var idx: map<seq<Byte>, nat>

    ghost function State(): Tab
      reads this
    {
      Tab(strs, idx)
    }

    ghost predicate Valid()
      reads this
    {
      forall v :: v in idx ==> StrAt(strs, idx[v]) == Some(v)
    }

    constructor ()
      ensures Valid() && State() == EMPTY
    {
      strs, idx := [0], map[[] := 0];
    }

    method Intern(v: seq<Byte>) returns (off: nat)
      requires Valid() && forall k :: 0 <= k < |v| ==> v[k] != 0
      modifies this
      ensures Valid() && StrAt(strs, off) == Some(v) && (v in old(idx) ==> off == old(idx)[v] && strs == old(strs))
      ensures old(strs) <= strs && idx == old(idx)[v := off] && State() == Interned(old(State()), v)
      ensures forall o: nat :: StrAt(old(strs), o).Some? ==> StrAt(strs, o) == StrAt(old(strs), o)
    {
      if v in idx { return idx[v]; }
      off := |strs|;
      ghost var was := strs;
      strs := strs + v + [0];
      idx := idx[v := off];
      assert was + v + [0] == was + v + [0] + [] && strs == was + (v + [0]);
      StrReads(was, v, [], 0);
      forall o: nat | StrAt(was, o).Some?
        ensures StrAt(strs, o) == StrAt(was, o)
      {
        StrGrows(was, v + [0], o);
      }
    }
  }
}
