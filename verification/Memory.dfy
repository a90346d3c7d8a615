/** Host memory: byte buffers that are copied, and seen by the GPU as buffers of words. */
module Memory {
  import opened Bytes

  // What a buffer holds after n bytes were copied to position at.
  function Overwrite(before: seq<byte>, at: nat, data: seq<byte>): (r: seq<byte>)
    requires at + |data| <= |before|
    ensures |r| == |before|
  {
    before[..at] + data + before[at + |data|..]
  }

  /** The range holds the data, and everything before and behind it is as it was. */
  lemma OverwriteSlices(before: seq<byte>, at: nat, data: seq<byte>)
    requires at + |data| <= |before|
    ensures var r := Overwrite(before, at, data);
            r[..at] == before[..at] && r[at..at + |data|] == data && r[at + |data|..] == before[at + |data|..]
  {}

  lemma OverwriteNothing(before: seq<byte>, at: nat)
    requires at <= |before|
    ensures Overwrite(before, at, []) == before
  {}

  lemma OverwriteAll(before: seq<byte>, data: seq<byte>)
    requires |data| == |before|
    ensures Overwrite(before, 0, data) == data
  {}

  lemma OverwriteTwice(before: seq<byte>, at: nat, a: seq<byte>, b: seq<byte>)
    requires at + |a| + |b| <= |before|
    ensures Overwrite(Overwrite(before, at, a), at + |a|, b) == Overwrite(before, at, a + b)
  {}

  lemma OverwriteOver(before: seq<byte>, at: nat, a: seq<byte>, b: seq<byte>)
    requires |a| <= |b| && at + |b| <= |before|
    ensures Overwrite(Overwrite(before, at, a), at, b) == Overwrite(before, at, b)
  {}

  /** memcpy between different buffers. */
  method Copy(src: array<byte>, srcOff: nat, dst: array<byte>, dstOff: nat, len: nat)
    requires src != dst
    requires srcOff + len <= src.Length && dstOff + len <= dst.Length
    modifies dst
    ensures dst[..dstOff] == old(dst[..dstOff])
    ensures dst[dstOff..dstOff + len] == src[srcOff..srcOff + len]
    ensures dst[dstOff + len..] == old(dst[dstOff + len..])
    ensures dst[..] == Overwrite(old(dst[..]), dstOff, src[srcOff..srcOff + len])
  {
    ghost var was := dst[..];
    var i: nat := 0;
    while i < len
      invariant 0 <= i <= len
      invariant forall p :: 0 <= p < dst.Length ==>
                  dst[p] == if dstOff <= p < dstOff + i then src[srcOff + p - dstOff] else was[p]
    {
      dst[dstOff + i] := src[srcOff + i];
      i := i + 1;
    }
    assert dst[..] == Overwrite(was, dstOff, src[srcOff..srcOff + len]);
  }

  // The part of a buffer that a descriptor with this offset and range binds.
  function Bound(a: array<byte>, base: nat, size: nat): seq<byte>
    requires base + size <= a.Length
    reads a
  {
    a[base..base + size]
  }

  lemma WholeRange(a: array<byte>)
    ensures Bound(a, 0, a.Length) == a[..]
  {}

  /** A shader store of word i of the bound range. */
  method Store(a: array<byte>, base: nat, size: nat, i: nat, w: word)
    requires base + size <= a.Length && 4 * i + 4 <= size
    modifies a
    ensures Bound(a, base, size) == StoreWord(old(Bound(a, base, size)), i, w)
    ensures a[..base] == old(a[..base]) && a[base + size..] == old(a[base + size..])
  {
    hide B0, B1, B2, B3;
    var p := base + 4 * i;
    a[p] := B0(w);
    a[p + 1] := B1(w);
    a[p + 2] := B2(w);
    a[p + 3] := B3(w);
  }
}
