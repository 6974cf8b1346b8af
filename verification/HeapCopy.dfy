/** The copy inside a moving realloc is one memcpy: live payloads are disjoint,
    so the fast copy is right whichever strategy its length selects. */
module HeapCopy {
  import opened ByteType
  import opened HeapShape
  import opened HeapAlloc
  import opened HeapSteps
  import ByteCopy

  /** The array is memory: it holds every byte the heap knows of. */
  ghost predicate Backs(mem: seq<Byte>, b: Bytes) { forall a :: a in b ==> a < |mem| && mem[a] == b[a] }

  /** Two live payloads do not overlap, in either order. */
  lemma PayloadsApart(m: Mem, s: Shape, arena: nat, g: nat, h: nat, n: nat)
    requires Inv(m, s, arena) && g in LiveBlocks(m.hs) && h in LiveBlocks(m.hs) && g != h
    requires n <= LiveBlocks(m.hs)[g].1 && n <= LiveBlocks(m.hs)[h].1
    ensures g + HEADER + n <= h + HEADER || h + HEADER + n <= g + HEADER
  {
    hide Inv, LiveBlocks;
    if g + HEADER <= h + HEADER < g + HEADER + n { LivePayloads(m, s, arena, g, h, h + HEADER); }
    if h + HEADER <= g + HEADER < h + HEADER + n { LivePayloads(m, s, arena, h, g, g + HEADER); }
  }

  lemma CopyBacked(before: seq<Byte>, b: Bytes, d: nat, s: nat, n: nat)
    requires Backs(before, b) && d + n <= |before| && s + n <= |before|
    ensures Backs(ByteCopy.Moved(before, d, s, n), Copied(b, d, s, n))
  {
    hide Copied;
    var c := Copied(b, d, s, n);
    forall a | a in c
      ensures a < |before| && ByteCopy.Moved(before, d, s, n)[a] == c[a]
    {
      CopiedByte(b, d, s, n, a);
    }
  }

  method CopyPayload(mem: array<Byte>, to: nat, from: nat, n: nat,
      ghost b: Bytes, ghost m: Mem, ghost s: Shape, ghost arena: nat)
    requires Inv(m, s, arena) && from >= HEADER && to >= HEADER && from != to
    requires from - HEADER in LiveBlocks(m.hs) && to - HEADER in LiveBlocks(m.hs)
    requires n <= LiveBlocks(m.hs)[from - HEADER].1 && n <= LiveBlocks(m.hs)[to - HEADER].1
    requires from + n <= mem.Length && to + n <= mem.Length && Backs(mem[..], b)
    modifies mem
    ensures Backs(mem[..], Copied(b, to, from, n))
  {
    hide Inv, LiveBlocks, Copied, Backs, ByteCopy.Moved;
    PayloadsApart(m, s, arena, from - HEADER, to - HEADER, n);
    CopyBacked(mem[..], b, to, from, n);
    var r := ByteCopy.Memcpy(mem, to, from, n);
  }
}
