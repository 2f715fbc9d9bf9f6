/** Little-endian fields of a byte buffer. */
module LittleEndian {
  type U8 = x: int | 0 <= x < 256

  const TWO32: nat := 0x1_0000_0000
  const TWO64: nat := 0x1_0000_0000_0000_0000

  function Pow256(w: nat): (p: nat)
    ensures p >= 1
  {
    if w == 0 then 1 else 256 * Pow256(w - 1)
  }

  lemma {:induction false} Widths()
    ensures Pow256(1) == 0x100 && Pow256(2) == 0x1_0000 && Pow256(4) == TWO32
  {
    assert Pow256(3) == 0x100_0000;
  }

  /** The w bytes at off. */
  function Get(b: seq<U8>, off: nat, w: nat): nat
    requires off + w <= |b|
    decreases |b| - off
  {
    if w == 0 then 0 else b[off] + 256 * Get(b, off + 1, w - 1)
  }

  /** b with v in the w bytes at off. */
  function Put(b: seq<U8>, off: nat, w: nat, v: nat): (r: seq<U8>)
    requires off + w <= |b|
    ensures |r| == |b|
    decreases |b| - off
  {
    if w == 0 then b else Put(b[off := v % 256], off + 1, w - 1, v / 256)
  }

  lemma {:induction false} PutElsewhere(b: seq<U8>, off: nat, w: nat, v: nat, k: nat)
    requires off + w <= |b| && k < |b| && (k < off || off + w <= k)
    ensures Put(b, off, w, v)[k] == b[k]
    decreases w
  {
    if w > 0 {
      PutElsewhere(b[off := v % 256], off + 1, w - 1, v / 256, k);
    }
  }

  lemma {:induction false} SameBytes(b: seq<U8>, c: seq<U8>, o: nat, w: nat)
    requires |b| == |c| && o + w <= |b| && forall k :: o <= k < o + w ==> b[k] == c[k]
    ensures Get(b, o, w) == Get(c, o, w)
    decreases w
  {
    if w > 0 {
      SameBytes(b, c, o + 1, w - 1);
    }
  }

  /** A field of a part of the buffer is a field of the buffer. */
  lemma {:induction false} GetSlice(b: seq<U8>, at: nat, len: nat, o: nat, w: nat)
    requires at + len <= |b| && o + w <= len
    ensures Get(b[at..at + len], o, w) == Get(b, at + o, w)
    decreases w
  {
    if w > 0 {
      GetSlice(b, at, len, o + 1, w - 1);
    }
  }

  lemma {:induction false} PutReads(b: seq<U8>, off: nat, w: nat, v: nat)
    requires off + w <= |b| && v < Pow256(w)
    ensures Get(Put(b, off, w, v), off, w) == v
    decreases w
  {
    if w > 0 {
      var c := b[off := v % 256];
      PutReads(c, off + 1, w - 1, v / 256);
      PutElsewhere(c, off + 1, w - 1, v / 256, off);
    }
  }

  lemma {:induction false} PutKeeps(b: seq<U8>, off: nat, w: nat, v: nat, o: nat, x: nat)
    requires off + w <= |b| && o + x <= |b| && (o + x <= off || off + w <= o)
    ensures Get(Put(b, off, w, v), o, x) == Get(b, o, x)
  {
    forall k | o <= k < o + x ensures Put(b, off, w, v)[k] == b[k] {
      PutElsewhere(b, off, w, v, k);
    }
    SameBytes(Put(b, off, w, v), b, o, x);
  }

  /** What was put is read back, and every other field is what it was. */
  lemma {:induction false} GetPut(b: seq<U8>, off: nat, w: nat, v: nat)
    requires off + w <= |b| && v < Pow256(w)
    ensures Get(Put(b, off, w, v), off, w) == v
    ensures forall o: nat, x: nat {:trigger Get(Put(b, off, w, v), o, x)} ::
      o + x <= |b| && (o + x <= off || off + w <= o) ==> Get(Put(b, off, w, v), o, x) == Get(b, o, x)
  {
    PutReads(b, off, w, v);
    forall o: nat, x: nat | o + x <= |b| && (o + x <= off || off + w <= o)
      ensures Get(Put(b, off, w, v), o, x) == Get(b, o, x)
    {
      PutKeeps(b, off, w, v, o, x);
    }
  }

  /** v as w bytes of their own. */
  function Le(v: nat, w: nat): (s: seq<U8>)
    ensures |s| == w
  {
    if w == 0 then [] else [v % 256] + Le(v / 256, w - 1)
  }

  lemma {:induction false} LeReads(b: seq<U8>, off: nat, v: nat, w: nat)
    requires off + w <= |b| && v < Pow256(w) && b[off..off + w] == Le(v, w)
    ensures Get(b, off, w) == v
    decreases w
  {
    if w > 0 {
      assert b[off] == b[off..off + w][0];
      assert b[off + 1..off + w] == b[off..off + w][1..] == Le(v, w)[1..] == Le(v / 256, w - 1);
      LeReads(b, off + 1, v / 256, w - 1);
    }
  }
}
