/** The short-term reference picture sets the Start command carries: how ave_cmd.c writes
    them into the command buffer, and what a decoder reads back (section 7.4.8 of
    ITU-T H.265). */
module HevcRps {
  import opened LittleEndian
  import opened Remainders

  /** struct ave_wr: a buffer that goes bad, and stays so, at the first write outside it. */
  class Writer {
    var buf: array<U8>
    var err: bool

    constructor (b: array<U8>)
      ensures buf == b && !err
    {
      buf, err := b, false;
    }

    method Write(off: nat, w: nat, v: nat)
      modifies this`err, buf
      ensures buf == old(buf)
      ensures err == (old(err) || off + w > buf.Length)
      ensures buf[..] == if err then old(buf[..]) else Put(old(buf[..]), off, w, v)
    {
      if err || off > buf.Length || w > buf.Length - off {
        err := true;
        return;
      }
      ghost var was := buf[..];
      var x := v;
      for i := 0 to w
        invariant !err && buf == old(buf)
        invariant Put(buf[..], off + i, w - i, x) == Put(was, off, w, v)
      {
        ghost var c := buf[..];
        buf[off + i] := x % 256;
        assert buf[..] == c[off + i := x % 256];
        x := x / 256;
      }
    }
  }

  // ---- one set entry ------------------------------------------------------------------

  const SET_SIZE: nat := 0x164

  const INTER_PRED: nat := 0x0
  const NUM_NEG: nat := 0x30
  const NUM_POS: nat := 0x34
  const DPOC_S0_M1: nat := 0x38      // u16[16]
  const USED_S0: nat := 0x58         // u8[16]
  const DPOC_S1_M1: nat := 0x68      // u32[16]
  const USED_S1: nat := 0xa8         // u8[16]
  const D_NUM_NEG: nat := 0xb8
  const D_NUM_POS: nat := 0xbc
  const D_USED_S0: nat := 0xc0
  const D_USED_S1: nat := 0xd0
  const D_DELTA_S0: nat := 0xe0      // s32[16]
  const D_DELTA_S1: nat := 0x120     // s32[16]
  const NUM_DELTA_POCS: nat := 0x160

  /** POC differences to the pictures a set names, all of them used by the current one. */
  datatype Rps = Rps(neg: seq<int>, pos: seq<int>)

  function Signed(v: nat): int {
    if v < 0x8000_0000 then v else v - TWO32
  }

  /** DeltaPocS0 by (7-67) and (7-69): each delta counts on from the one before. */
  function SyntaxS0(e: seq<U8>, n: nat): seq<int>
    requires |e| == SET_SIZE && n <= 16
  {
    if n == 0 then []
    else
      var before := SyntaxS0(e, n - 1);
      var last := if n == 1 then 0 else before[|before| - 1];
      before + [last - (Get(e, DPOC_S0_M1 + 2 * (n - 1), 2) + 1)]
  }

  function SyntaxS1(e: seq<U8>, n: nat): seq<int>
    requires |e| == SET_SIZE && n <= 16
  {
    if n == 0 then []
    else
      var before := SyntaxS1(e, n - 1);
      var last := if n == 1 then 0 else before[|before| - 1];
      before + [last + Get(e, DPOC_S1_M1 + 4 * (n - 1), 4) + 1]
  }

  predicate Used(e: seq<U8>, at: nat, i: nat)
    requires at + i < |e|
  {
    Get(e, at + i, 1) == 1
  }

  predicate AllUsed(e: seq<U8>, at: nat, n: nat)
    requires |e| == SET_SIZE && n <= 16 && at + 16 <= SET_SIZE
  {
    forall i: nat | i < n :: Used(e, at, i)
  }

  function DerivedDeltas(e: seq<U8>, at: nat, n: nat): seq<int>
    requires |e| == SET_SIZE && n <= 16 && at + 64 <= SET_SIZE
  {
    seq(n, i requires 0 <= i < n => Signed(Get(e, at + 4 * i, 4)))
  }

  /** The entry is the set r: coded explicitly, the syntax elements decode to r, and the
      derived fields the firmware's reference lists use say the same. */
  predicate Carries(e: seq<U8>, r: Rps)
    requires |e| == SET_SIZE
  {
    && |r.neg| <= 16 && |r.pos| <= 16
    && Get(e, INTER_PRED, 1) == 0
    && Get(e, NUM_NEG, 4) == |r.neg| && Get(e, NUM_POS, 4) == |r.pos|
    && Get(e, NUM_DELTA_POCS, 4) == |r.neg| + |r.pos|
    && SyntaxS0(e, |r.neg|) == r.neg && SyntaxS1(e, |r.pos|) == r.pos
    && AllUsed(e, USED_S0, |r.neg|) && AllUsed(e, USED_S1, |r.pos|)
    && Get(e, D_NUM_NEG, 4) == |r.neg| && Get(e, D_NUM_POS, 4) == |r.pos|
    && DerivedDeltas(e, D_DELTA_S0, |r.neg|) == r.neg && DerivedDeltas(e, D_DELTA_S1, |r.pos|) == r.pos
    && AllUsed(e, D_USED_S0, |r.neg|) && AllUsed(e, D_USED_S1, |r.pos|)
  }

  lemma {:induction false} CarriesOneSet(e: seq<U8>, r1: Rps, r2: Rps)
    requires |e| == SET_SIZE && Carries(e, r1) && Carries(e, r2)
    ensures r1 == r2
  {
  }

  // ---- the sets of a B GOP ------------------------------------------------------------

  /** Set idx of a GOP with b Bs between anchors, r = idx mod (b + 1): a P (r = 0) names the anchor
      before it; the picture r past an anchor names the anchors around it. */
  function BSet(b: nat, idx: nat): Rps {
    var g: int, r: int := b + 1, Rem(idx, b + 1);
    if r == 0 then Rps([-g], []) else Rps([-r], [g - r])
  }

  /** How many sets the builder writes. */
  function BSets(b: nat): nat {
    if b == 1 then 8 else if b == 2 then 10 else 0
  }

  /** The writes of ave_hevc_b_set, on the bytes of the entry, in three runs: the syntax
      elements of S0, the derived fields of S0, and both for S1 when there is one. */
  function PairBytes(e: seq<U8>, neg: nat, pos: nat): (r: seq<U8>)
    requires |e| == SET_SIZE && 1 <= neg <= 0x1_0000 && pos <= 0x1_0000
    ensures |r| == SET_SIZE
  {
    var x := PutDerived(PutSyntax(e, neg, pos > 0), neg, pos > 0);
    if pos == 0 then x else PutNext(x, pos)
  }

  /** Distances to the past and the coming anchor; 0: no coming one. */
  function BSetDistances(b: nat, idx: nat): (d: (nat, nat))
    ensures 1 <= d.0 <= b + 1 && d.1 <= b + 1
  {
    var g, r := b + 1, Rem(idx, b + 1);
    if r == 0 then (g, 0) else (r, g - r)
  }

  function BSetBytes(e: seq<U8>, b: nat, idx: nat): (r: seq<U8>)
    requires |e| == SET_SIZE && b < 0xffff
    ensures |r| == SET_SIZE
  {
    var (neg, pos) := BSetDistances(b, idx);
    PairBytes(e, neg, pos)
  }

  function PutSyntax(e: seq<U8>, neg: nat, two: bool): (r: seq<U8>)
    requires |e| == SET_SIZE && 1 <= neg <= 0x1_0000
    ensures |r| == SET_SIZE
  {
    var e4 := SyntaxCounts(e, two);
    var e5 := Put(e4, DPOC_S0_M1, 2, neg - 1);
    Put(e5, USED_S0, 1, 1)
  }

  function SyntaxCounts(e: seq<U8>, two: bool): (r: seq<U8>)
    requires |e| == SET_SIZE
    ensures |r| == SET_SIZE
  {
    var e1 := Put(e, INTER_PRED, 1, 0);
    var e2 := Put(e1, NUM_NEG, 4, 1);
    var e3 := Put(e2, NUM_POS, 4, if two then 1 else 0);
    Put(e3, NUM_DELTA_POCS, 4, if two then 2 else 1)
  }

  function PutDerived(e: seq<U8>, neg: nat, two: bool): (r: seq<U8>)
    requires |e| == SET_SIZE && 1 <= neg <= 0x1_0000
    ensures |r| == SET_SIZE
  {
    var e7 := Put(e, D_NUM_NEG, 4, 1);
    var e8 := Put(e7, D_USED_S0, 1, 1);
    var e9 := Put(e8, D_DELTA_S0, 4, TWO32 - neg);
    Put(e9, D_NUM_POS, 4, if two then 1 else 0)
  }

  function PutNext(e: seq<U8>, pos: nat): (r: seq<U8>)
    requires |e| == SET_SIZE && 1 <= pos <= 0x1_0000
    ensures |r| == SET_SIZE
  {
    var e11 := Put(e, DPOC_S1_M1, 4, pos - 1);
    var e12 := Put(e11, USED_S1, 1, 1);
    var e13 := Put(e12, D_USED_S1, 1, 1);
    Put(e13, D_DELTA_S1, 4, pos)
  }

  ghost predicate SyntaxFields(e: seq<U8>, neg: nat, two: bool)
    requires |e| == SET_SIZE && neg >= 1
  {
    && Get(e, INTER_PRED, 1) == 0
    && Get(e, NUM_NEG, 4) == 1 && Get(e, NUM_POS, 4) == (if two then 1 else 0)
    && Get(e, NUM_DELTA_POCS, 4) == (if two then 2 else 1)
    && Get(e, DPOC_S0_M1, 2) == neg - 1 && Get(e, USED_S0, 1) == 1
  }

  ghost predicate DerivedFields(e: seq<U8>, neg: nat, two: bool)
    requires |e| == SET_SIZE && neg <= TWO32
  {
    && Get(e, D_NUM_NEG, 4) == 1 && Get(e, D_NUM_POS, 4) == (if two then 1 else 0)
    && Get(e, D_USED_S0, 1) == 1 && Get(e, D_DELTA_S0, 4) == TWO32 - neg
  }

  ghost predicate NextFields(e: seq<U8>, pos: nat)
    requires |e| == SET_SIZE && pos >= 1
  {
    && Get(e, DPOC_S1_M1, 4) == pos - 1 && Get(e, USED_S1, 1) == 1
    && Get(e, D_USED_S1, 1) == 1 && Get(e, D_DELTA_S1, 4) == pos
  }

  lemma {:induction false} CountsOfSyntax(e: seq<U8>, two: bool)
    requires |e| == SET_SIZE
    ensures
      var e4 := SyntaxCounts(e, two);
      && Get(e4, INTER_PRED, 1) == 0 && Get(e4, NUM_NEG, 4) == 1
      && Get(e4, NUM_POS, 4) == (if two then 1 else 0)
      && Get(e4, NUM_DELTA_POCS, 4) == (if two then 2 else 1)
  {
    Widths();
    GetPut(e, INTER_PRED, 1, 0);
    var e1 := Put(e, INTER_PRED, 1, 0);
    GetPut(e1, NUM_NEG, 4, 1);
    var e2 := Put(e1, NUM_NEG, 4, 1);
    GetPut(e2, NUM_POS, 4, if two then 1 else 0);
    var e3 := Put(e2, NUM_POS, 4, if two then 1 else 0);
    GetPut(e3, NUM_DELTA_POCS, 4, if two then 2 else 1);
  }

  lemma {:induction false} SyntaxPut(e: seq<U8>, neg: nat, two: bool)
    requires |e| == SET_SIZE && 1 <= neg <= 0x1_0000
    ensures SyntaxFields(PutSyntax(e, neg, two), neg, two)
  {
    Widths();
    CountsOfSyntax(e, two);
    var e4 := SyntaxCounts(e, two);
    GetPut(e4, DPOC_S0_M1, 2, neg - 1);
    GetPut(Put(e4, DPOC_S0_M1, 2, neg - 1), USED_S0, 1, 1);
  }

  lemma {:induction false} DerivedPut(e: seq<U8>, neg: nat, two: bool)
    requires |e| == SET_SIZE && 1 <= neg <= 0x1_0000
    requires SyntaxFields(e, neg, two)
    ensures DerivedFields(PutDerived(e, neg, two), neg, two)
    ensures SyntaxFields(PutDerived(e, neg, two), neg, two)
  {
    Widths();
    GetPut(e, D_NUM_NEG, 4, 1);
    var e7 := Put(e, D_NUM_NEG, 4, 1);
    GetPut(e7, D_USED_S0, 1, 1);
    var e8 := Put(e7, D_USED_S0, 1, 1);
    GetPut(e8, D_DELTA_S0, 4, TWO32 - neg);
    GetPut(Put(e8, D_DELTA_S0, 4, TWO32 - neg), D_NUM_POS, 4, if two then 1 else 0);
  }

  lemma {:induction false} NextPut(e: seq<U8>, neg: nat, pos: nat)
    requires |e| == SET_SIZE && 1 <= neg <= 0x1_0000 && 1 <= pos <= 0x1_0000
    requires SyntaxFields(e, neg, true) && DerivedFields(e, neg, true)
    ensures NextFields(PutNext(e, pos), pos)
    ensures SyntaxFields(PutNext(e, pos), neg, true) && DerivedFields(PutNext(e, pos), neg, true)
  {
    Widths();
    GetPut(e, DPOC_S1_M1, 4, pos - 1);
    var e11 := Put(e, DPOC_S1_M1, 4, pos - 1);
    GetPut(e11, USED_S1, 1, 1);
    var e12 := Put(e11, USED_S1, 1, 1);
    GetPut(e12, D_USED_S1, 1, 1);
    GetPut(Put(e12, D_USED_S1, 1, 1), D_DELTA_S1, 4, pos);
  }

  lemma {:induction false} CarriesPast(e: seq<U8>, neg: nat, two: bool)
    requires |e| == SET_SIZE && 1 <= neg <= 0x1_0000
    requires SyntaxFields(e, neg, two) && DerivedFields(e, neg, two)
    ensures SyntaxS0(e, 1) == [0 - neg] && DerivedDeltas(e, D_DELTA_S0, 1) == [0 - neg]
    ensures AllUsed(e, USED_S0, 1) && AllUsed(e, D_USED_S0, 1)
  {
    assert SyntaxS0(e, 0) == [];
  }

  lemma {:induction false} CarriesNext(e: seq<U8>, pos: nat)
    requires |e| == SET_SIZE && 1 <= pos <= 0x1_0000 && NextFields(e, pos)
    ensures SyntaxS1(e, 1) == [pos] && DerivedDeltas(e, D_DELTA_S1, 1) == [pos]
    ensures AllUsed(e, USED_S1, 1) && AllUsed(e, D_USED_S1, 1)
  {
    assert SyntaxS1(e, 0) == [];
  }

  lemma {:induction false} PairCarries(e: seq<U8>, neg: nat, pos: nat)
    requires |e| == SET_SIZE && 1 <= neg <= 0x1_0000 && pos <= 0x1_0000
    ensures Carries(PairBytes(e, neg, pos), Rps([0 - neg], if pos > 0 then [pos] else []))
  {
    SyntaxPut(e, neg, pos > 0);
    var x := PutSyntax(e, neg, pos > 0);
    DerivedPut(x, neg, pos > 0);
    var y := PutDerived(x, neg, pos > 0);
    if pos > 0 {
      NextPut(y, neg, pos);
      CarriesPast(PutNext(y, pos), neg, true);
      CarriesNext(PutNext(y, pos), pos);
    } else {
      CarriesPast(y, neg, false);
    }
  }

  /** What a decoder reads from those bytes is the set, whatever the entry held before. */
  lemma {:induction false} BSetCarries(e: seq<U8>, b: nat, idx: nat)
    requires |e| == SET_SIZE && 1 <= b < 0xffff
    ensures Carries(BSetBytes(e, b, idx), BSet(b, idx))
  {
    var (neg, pos) := BSetDistances(b, idx);
    PairCarries(e, neg, pos);
  }

  // ---- the sets of an IPPP stream -----------------------------------------------------

  /** The nr pictures right before the current one. */
  function IpSet(nr: nat): Rps {
    Rps(seq(nr, j requires 0 <= j => 0 - (j + 1)), [])
  }

  /** With two references set 1 is for the picture that follows an IDR and has only that to refer to. */
  function IpRefs(refs: nat, idx: nat): nat {
    if refs == 2 && idx != 1 then 2 else 1
  }

  function PutPast(e: seq<U8>, j: nat): (r: seq<U8>)
    requires |e| == SET_SIZE && j < 16
    ensures |r| == SET_SIZE
  {
    var e2 := PutPastSyntax(e, j);
    var e3 := Put(e2, D_USED_S0 + j, 1, 1);
    Put(e3, D_DELTA_S0 + 4 * j, 4, TWO32 - (j + 1))
  }

  function PutPastSyntax(e: seq<U8>, j: nat): (r: seq<U8>)
    requires |e| == SET_SIZE && j < 16
    ensures |r| == SET_SIZE
  {
    Put(Put(e, DPOC_S0_M1 + 2 * j, 2, 0), USED_S0 + j, 1, 1)
  }

  function PutPasts(e: seq<U8>, nr: nat): (r: seq<U8>)
    requires |e| == SET_SIZE && nr <= 16
    ensures |r| == SET_SIZE
  {
    if nr == 0 then e else PutPast(PutPasts(e, nr - 1), nr - 1)
  }

  function PutCounts(e: seq<U8>, nr: nat): (r: seq<U8>)
    requires |e| == SET_SIZE && nr <= 16
    ensures |r| == SET_SIZE
  {
    var e1 := Put(e, INTER_PRED, 1, 0);
    var e2 := Put(e1, NUM_NEG, 4, nr);
    var e3 := Put(e2, NUM_POS, 4, 0);
    var e4 := Put(e3, NUM_DELTA_POCS, 4, nr);
    var e5 := Put(e4, D_NUM_NEG, 4, nr);
    Put(e5, D_NUM_POS, 4, 0)
  }

  function IpSetBytes(e: seq<U8>, nr: nat): (r: seq<U8>)
    requires |e| == SET_SIZE && nr <= 16
    ensures |r| == SET_SIZE
  {
    PutPasts(PutCounts(e, nr), nr)
  }

  ghost predicate CountFields(e: seq<U8>, nr: nat)
    requires |e| == SET_SIZE
  {
    && Get(e, INTER_PRED, 1) == 0
    && Get(e, NUM_NEG, 4) == nr && Get(e, NUM_POS, 4) == 0 && Get(e, NUM_DELTA_POCS, 4) == nr
    && Get(e, D_NUM_NEG, 4) == nr && Get(e, D_NUM_POS, 4) == 0
  }

  lemma {:induction false} CountsPut(e: seq<U8>, nr: nat)
    requires |e| == SET_SIZE && nr <= 16
    ensures CountFields(PutCounts(e, nr), nr)
  {
    Widths();
    GetPut(e, INTER_PRED, 1, 0);
    var e1 := Put(e, INTER_PRED, 1, 0);
    GetPut(e1, NUM_NEG, 4, nr);
    var e2 := Put(e1, NUM_NEG, 4, nr);
    GetPut(e2, NUM_POS, 4, 0);
    var e3 := Put(e2, NUM_POS, 4, 0);
    GetPut(e3, NUM_DELTA_POCS, 4, nr);
    var e4 := Put(e3, NUM_DELTA_POCS, 4, nr);
    GetPut(e4, D_NUM_NEG, 4, nr);
    GetPut(Put(e4, D_NUM_NEG, 4, nr), D_NUM_POS, 4, 0);
  }

  ghost predicate PastField(e: seq<U8>, j: nat)
    requires |e| == SET_SIZE && j < 16
  {
    && Get(e, DPOC_S0_M1 + 2 * j, 2) == 0
    && Used(e, USED_S0, j) && Used(e, D_USED_S0, j)
    && Get(e, D_DELTA_S0 + 4 * j, 4) == TWO32 - (j + 1)
  }

  /** Writing the j-th picture's four fields touches nothing else that is read back. */
  lemma {:induction false} PastPutFrame(e: seq<U8>, j: nat, o: nat, x: nat)
    requires |e| == SET_SIZE && j < 16 && o + x <= SET_SIZE
    requires o + x <= DPOC_S0_M1 + 2 * j || DPOC_S0_M1 + 2 * j + 2 <= o
    requires o + x <= USED_S0 + j || USED_S0 + j + 1 <= o
    requires o + x <= D_USED_S0 + j || D_USED_S0 + j + 1 <= o
    requires o + x <= D_DELTA_S0 + 4 * j || D_DELTA_S0 + 4 * j + 4 <= o
    ensures Get(PutPast(e, j), o, x) == Get(e, o, x)
  {
    Widths();
    GetPut(e, DPOC_S0_M1 + 2 * j, 2, 0);
    var e1 := Put(e, DPOC_S0_M1 + 2 * j, 2, 0);
    GetPut(e1, USED_S0 + j, 1, 1);
    var e2 := Put(e1, USED_S0 + j, 1, 1);
    GetPut(e2, D_USED_S0 + j, 1, 1);
    var e3 := Put(e2, D_USED_S0 + j, 1, 1);
    GetPut(e3, D_DELTA_S0 + 4 * j, 4, TWO32 - (j + 1));
  }

  lemma {:induction false} PastPutSets(e: seq<U8>, j: nat)
    requires |e| == SET_SIZE && j < 16
    ensures PastField(PutPast(e, j), j)
  {
    Widths();
    GetPut(e, DPOC_S0_M1 + 2 * j, 2, 0);
    var e1 := Put(e, DPOC_S0_M1 + 2 * j, 2, 0);
    GetPut(e1, USED_S0 + j, 1, 1);
    var e2 := Put(e1, USED_S0 + j, 1, 1);
    GetPut(e2, D_USED_S0 + j, 1, 1);
    var e3 := Put(e2, D_USED_S0 + j, 1, 1);
    GetPut(e3, D_DELTA_S0 + 4 * j, 4, TWO32 - (j + 1));
  }

  lemma {:induction false} PastKeepsCounts(e: seq<U8>, j: nat, nr: nat)
    requires |e| == SET_SIZE && j < 16 && CountFields(e, nr)
    ensures CountFields(PutPast(e, j), nr)
  {
    PastPutFrame(e, j, INTER_PRED, 1);
    PastPutFrame(e, j, NUM_NEG, 4);
    PastPutFrame(e, j, NUM_POS, 4);
    PastPutFrame(e, j, NUM_DELTA_POCS, 4);
    PastPutFrame(e, j, D_NUM_NEG, 4);
    PastPutFrame(e, j, D_NUM_POS, 4);
  }

  lemma {:induction false} PastKeepsPast(e: seq<U8>, j: nat, i: nat)
    requires |e| == SET_SIZE && i < j < 16 && PastField(e, i)
    ensures PastField(PutPast(e, j), i)
  {
    PastPutFrame(e, j, DPOC_S0_M1 + 2 * i, 2);
    PastPutFrame(e, j, USED_S0 + i, 1);
    PastPutFrame(e, j, D_USED_S0 + i, 1);
    PastPutFrame(e, j, D_DELTA_S0 + 4 * i, 4);
  }

  /** The first n pictures' fields are written. */
  ghost predicate PastFields(e: seq<U8>, n: nat)
    requires |e| == SET_SIZE && n <= 16
  {
    forall i: nat :: i < n ==> PastField(e, i)
  }

  lemma {:induction false} PastPut(e: seq<U8>, j: nat, nr: nat)
    requires |e| == SET_SIZE && j < 16 && CountFields(e, nr) && PastFields(e, j)
    ensures CountFields(PutPast(e, j), nr) && PastFields(PutPast(e, j), j + 1)
  {
    PastKeepsCounts(e, j, nr);
    PastPutSets(e, j);
    forall i: nat | i < j ensures PastField(PutPast(e, j), i) {
      PastKeepsPast(e, j, i);
    }
  }

  lemma {:induction false} PastsPut(e: seq<U8>, n: nat, nr: nat)
    requires |e| == SET_SIZE && n <= 16 && CountFields(e, nr)
    ensures CountFields(PutPasts(e, n), nr) && PastFields(PutPasts(e, n), n)
  {
    if n > 0 {
      PastsPut(e, n - 1, nr);
      PastPut(PutPasts(e, n - 1), n - 1, nr);
    }
  }

  lemma {:induction false} SyntaxOfPasts(e: seq<U8>, n: nat)
    requires |e| == SET_SIZE && n <= 16 && PastFields(e, n)
    ensures SyntaxS0(e, n) == IpSet(n).neg
  {
    if n > 0 {
      SyntaxOfPasts(e, n - 1);
      assert PastField(e, n - 1);
    }
  }

  lemma {:induction false} FieldsOfPasts(e: seq<U8>, n: nat)
    requires |e| == SET_SIZE && n <= 16 && PastFields(e, n)
    ensures DerivedDeltas(e, D_DELTA_S0, n) == IpSet(n).neg
    ensures AllUsed(e, USED_S0, n) && AllUsed(e, D_USED_S0, n)
  {
    forall i: nat | i < n
      ensures Signed(Get(e, D_DELTA_S0 + 4 * i, 4)) == 0 - (i + 1) && Used(e, USED_S0, i) && Used(e, D_USED_S0, i)
    {
      assert PastField(e, i);
    }
  }

  lemma {:induction false} IpSetCarries(e: seq<U8>, nr: nat)
    requires |e| == SET_SIZE && nr <= 16
    ensures Carries(IpSetBytes(e, nr), IpSet(nr))
  {
    CountsPut(e, nr);
    var c := PutCounts(e, nr);
    PastsPut(c, nr, nr);
    var x := PutPasts(c, nr);
    SyntaxOfPasts(x, nr);
    FieldsOfPasts(x, nr);
    CarriesIp(x, nr);
  }

  lemma {:induction false} CarriesIp(x: seq<U8>, nr: nat)
    requires |x| == SET_SIZE && nr <= 16 && CountFields(x, nr)
    requires SyntaxS0(x, nr) == IpSet(nr).neg && DerivedDeltas(x, D_DELTA_S0, nr) == IpSet(nr).neg
    requires AllUsed(x, USED_S0, nr) && AllUsed(x, D_USED_S0, nr)
    ensures Carries(x, IpSet(nr))
  {
  }

  // ---- writing the block --------------------------------------------------------------

  function Entry(b: seq<U8>, e: nat): seq<U8>
    requires e + SET_SIZE <= |b|
  {
    b[e..e + SET_SIZE]
  }

  /** Only the entry at e differs, and it is now x. */
  ghost predicate OnlyEntry(was: seq<U8>, b: seq<U8>, e: nat, x: seq<U8>) {
    && |b| == |was| && e + SET_SIZE <= |b|
    && Entry(b, e) == x
    && b[..e] == was[..e] && b[e + SET_SIZE..] == was[e + SET_SIZE..]
  }

  lemma {:induction false} PutInEntry(b: seq<U8>, e: nat, off: nat, w: nat, v: nat)
    requires e + SET_SIZE <= |b| && off + w <= SET_SIZE
    ensures OnlyEntry(b, Put(b, e + off, w, v), e, Put(Entry(b, e), off, w, v))
    decreases w
  {
    if w > 0 {
      var c := b[e + off := v % 256];
      assert Entry(c, e) == Entry(b, e)[off := v % 256];
      PutInEntry(c, e, off + 1, w - 1, v / 256);
      assert c[..e] == b[..e] && c[e + SET_SIZE..] == b[e + SET_SIZE..];
    }
  }

  /** wr8, wr16 or wr32 of one field of the entry at e. */
  method WriteField(w: Writer, e: nat, off: nat, width: nat, v: nat)
    requires off + width <= SET_SIZE
    modifies w`err, w.buf
    ensures w.buf == old(w.buf)
    ensures w.err == (old(w.err) || e + off + width > w.buf.Length)
    ensures old(w.err) ==> w.buf[..] == old(w.buf[..])
    ensures !w.err && e + SET_SIZE <= w.buf.Length ==>
      OnlyEntry(old(w.buf[..]), w.buf[..], e, Put(Entry(old(w.buf[..]), e), off, width, v))
  {
    ghost var was := w.buf[..];
    w.Write(e + off, width, v);
    if !w.err && e + SET_SIZE <= w.buf.Length {
      PutInEntry(was, e, off, width, v);
    }
  }

  method WriteSyntax(w: Writer, e: nat, neg: nat, two: bool)
    requires 1 <= neg <= 0x1_0000
    modifies w`err, w.buf
    ensures w.buf == old(w.buf)
    ensures w.err == (old(w.err) || e + SET_SIZE > w.buf.Length)
    ensures old(w.err) ==> w.buf[..] == old(w.buf[..])
    ensures !w.err ==>
      OnlyEntry(old(w.buf[..]), w.buf[..], e, PutSyntax(Entry(old(w.buf[..]), e), neg, two))
  {
    WriteField(w, e, INTER_PRED, 1, 0);
    WriteField(w, e, NUM_NEG, 4, 1);
    WriteField(w, e, NUM_POS, 4, if two then 1 else 0);
    WriteField(w, e, NUM_DELTA_POCS, 4, if two then 2 else 1);
    WriteField(w, e, DPOC_S0_M1, 2, neg - 1);
    WriteField(w, e, USED_S0, 1, 1);
  }

  method WriteDerived(w: Writer, e: nat, neg: nat, two: bool)
    requires 1 <= neg <= 0x1_0000 && (w.err || e + SET_SIZE <= w.buf.Length)
    modifies w`err, w.buf
    ensures w.buf == old(w.buf) && w.err == old(w.err)
    ensures old(w.err) ==> w.buf[..] == old(w.buf[..])
    ensures !w.err ==>
      OnlyEntry(old(w.buf[..]), w.buf[..], e, PutDerived(Entry(old(w.buf[..]), e), neg, two))
  {
    WriteField(w, e, D_NUM_NEG, 4, 1);
    WriteField(w, e, D_USED_S0, 1, 1);
    WriteField(w, e, D_DELTA_S0, 4, TWO32 - neg);
    WriteField(w, e, D_NUM_POS, 4, if two then 1 else 0);
  }

  method WriteNext(w: Writer, e: nat, pos: nat)
    requires 1 <= pos <= 0x1_0000 && (w.err || e + SET_SIZE <= w.buf.Length)
    modifies w`err, w.buf
    ensures w.buf == old(w.buf) && w.err == old(w.err)
    ensures old(w.err) ==> w.buf[..] == old(w.buf[..])
    ensures !w.err ==>
      OnlyEntry(old(w.buf[..]), w.buf[..], e, PutNext(Entry(old(w.buf[..]), e), pos))
  {
    WriteField(w, e, DPOC_S1_M1, 4, pos - 1);
    WriteField(w, e, USED_S1, 1, 1);
    WriteField(w, e, D_USED_S1, 1, 1);
    WriteField(w, e, D_DELTA_S1, 4, pos);
  }

  /** One set of a B GOP, with its derived fields. */
  method WriteBSet(w: Writer, e: nat, b: nat, idx: nat)
    requires 1 <= b < 0xffff
    modifies w`err, w.buf
    ensures w.buf == old(w.buf)
    ensures w.err == (old(w.err) || e + SET_SIZE > w.buf.Length)
    ensures old(w.err) ==> w.buf[..] == old(w.buf[..])
    ensures !w.err ==>
      OnlyEntry(old(w.buf[..]), w.buf[..], e, BSetBytes(Entry(old(w.buf[..]), e), b, idx))
  {
    var g := b + 1;
    var r := idx % g;
    RemIsMod(idx, g);
    var neg, pos := g, 0;
    if r > 0 {
      neg, pos := r, g - r;
    }
    WriteSyntax(w, e, neg, pos > 0);
    WriteDerived(w, e, neg, pos > 0);
    if pos > 0 {
      WriteNext(w, e, pos);
    }
  }

  method WritePastSyntax(w: Writer, e: nat, j: nat)
    requires j < 16 && (w.err || e + SET_SIZE <= w.buf.Length)
    modifies w`err, w.buf
    ensures w.buf == old(w.buf) && w.err == old(w.err)
    ensures old(w.err) ==> w.buf[..] == old(w.buf[..])
    ensures !w.err ==>
      OnlyEntry(old(w.buf[..]), w.buf[..], e, PutPastSyntax(Entry(old(w.buf[..]), e), j))
  {
    WriteField(w, e, DPOC_S0_M1 + 2 * j, 2, 0);
    WriteField(w, e, USED_S0 + j, 1, 1);
  }

  method WritePast(w: Writer, e: nat, j: nat)
    requires j < 16 && (w.err || e + SET_SIZE <= w.buf.Length)
    modifies w`err, w.buf
    ensures w.buf == old(w.buf) && w.err == old(w.err)
    ensures old(w.err) ==> w.buf[..] == old(w.buf[..])
    ensures !w.err ==>
      OnlyEntry(old(w.buf[..]), w.buf[..], e, PutPast(Entry(old(w.buf[..]), e), j))
  {
    WritePastSyntax(w, e, j);
    WriteField(w, e, D_USED_S0 + j, 1, 1);
    WriteField(w, e, D_DELTA_S0 + 4 * j, 4, TWO32 - (j + 1));
  }

  method WriteCounts(w: Writer, e: nat, nr: nat)
    requires nr <= 16
    modifies w`err, w.buf
    ensures w.buf == old(w.buf)
    ensures w.err == (old(w.err) || e + SET_SIZE > w.buf.Length)
    ensures old(w.err) ==> w.buf[..] == old(w.buf[..])
    ensures !w.err ==>
      OnlyEntry(old(w.buf[..]), w.buf[..], e, PutCounts(Entry(old(w.buf[..]), e), nr))
  {
    WriteField(w, e, INTER_PRED, 1, 0);
    WriteField(w, e, NUM_NEG, 4, nr);
    WriteField(w, e, NUM_POS, 4, 0);
    WriteField(w, e, NUM_DELTA_POCS, 4, nr);
    WriteField(w, e, D_NUM_NEG, 4, nr);
    WriteField(w, e, D_NUM_POS, 4, 0);
  }

  /** One set of an IPPP stream, with its derived fields. */
  method WriteIpSet(w: Writer, e: nat, nr: nat)
    requires 1 <= nr <= 16
    modifies w`err, w.buf
    ensures w.buf == old(w.buf)
    ensures w.err == (old(w.err) || e + SET_SIZE > w.buf.Length)
    ensures old(w.err) ==> w.buf[..] == old(w.buf[..])
    ensures !w.err ==>
      OnlyEntry(old(w.buf[..]), w.buf[..], e, IpSetBytes(Entry(old(w.buf[..]), e), nr))
  {
    ghost var was := w.buf[..];
    WriteCounts(w, e, nr);
    for j := 0 to nr
      invariant w.buf == old(w.buf)
      invariant w.err == (old(w.err) || e + SET_SIZE > w.buf.Length)
      invariant old(w.err) ==> w.buf[..] == was
      invariant !w.err ==>
        OnlyEntry(was, w.buf[..], e, PutPasts(PutCounts(Entry(was, e), nr), j))
    {
      WritePast(w, e, j);
    }
  }

  const ENTRY0: nat := 4

  function EntryAt(rps: nat, i: nat): nat {
    rps + ENTRY0 + i * SET_SIZE
  }

  /** Set i of the block, as the builder means it. */
  function SetOf(b: nat, refs: nat, i: nat): Rps {
    if b > 0 then BSet(b, i) else IpSet(IpRefs(refs, i))
  }

  /** Either kind of set. */
  method WriteSet(w: Writer, e: nat, b: nat, refs: nat, i: nat)
    requires b < 0xffff
    modifies w`err, w.buf
    ensures w.buf == old(w.buf)
    ensures w.err == (old(w.err) || e + SET_SIZE > w.buf.Length)
    ensures !w.err ==>
      && OnlyEntry(old(w.buf[..]), w.buf[..], e, Entry(w.buf[..], e))
      && Carries(Entry(w.buf[..], e), SetOf(b, refs, i))
  {
    ghost var was := w.buf[..];
    if b > 0 {
      WriteBSet(w, e, b, i);
      if !w.err { BSetCarries(Entry(was, e), b, i); }
    } else {
      WriteIpSet(w, e, IpRefs(refs, i));
      if !w.err { IpSetCarries(Entry(was, e), IpRefs(refs, i)); }
    }
  }

  ghost predicate BlockHolds(b: seq<U8>, rps: nat, n: nat, bs: nat, refs: nat) {
    && EntryAt(rps, n) <= |b|
    && forall i: nat :: i < n ==> SetHolds(b, rps, i, bs, refs)
  }

  ghost predicate SetHolds(b: seq<U8>, rps: nat, i: nat, bs: nat, refs: nat) {
    && EntryAt(rps, i) + SET_SIZE <= |b|
    && Carries(Entry(b, EntryAt(rps, i)), SetOf(bs, refs, i))
  }

  lemma {:induction false} SameEntry(was: seq<U8>, b: seq<U8>, e: nat, f: nat)
    requires f + SET_SIZE <= e <= |b| == |was| && b[..e] == was[..e]
    ensures Entry(b, f) == Entry(was, f)
  {
    forall k | 0 <= k < SET_SIZE ensures Entry(b, f)[k] == Entry(was, f)[k] {
      assert b[f + k] == b[..e][f + k] == was[..e][f + k] == was[f + k];
    }
  }

  lemma {:induction false} EntriesRise(rps: nat, j: nat, n: nat)
    requires j < n
    ensures EntryAt(rps, j) + SET_SIZE <= EntryAt(rps, n)
  {
  }

  lemma {:induction false} SetStays(was: seq<U8>, b: seq<U8>, rps: nat, n: nat, bs: nat, refs: nat, j: nat)
    requires j < n && SetHolds(was, rps, j, bs, refs) && |b| == |was| && EntryAt(rps, n) <= |b|
    requires b[..EntryAt(rps, n)] == was[..EntryAt(rps, n)]
    ensures SetHolds(b, rps, j, bs, refs)
  {
    EntriesRise(rps, j, n);
    SameEntry(was, b, EntryAt(rps, n), EntryAt(rps, j));
  }

  lemma {:induction false} CountStays(was: seq<U8>, b: seq<U8>, rps: nat, n: nat)
    requires |b| == |was| && EntryAt(rps, n) <= |b| && b[..EntryAt(rps, n)] == was[..EntryAt(rps, n)]
    ensures Get(b, rps, 4) == Get(was, rps, 4)
  {
    forall k | rps <= k < rps + 4 ensures b[k] == was[k] {
      assert b[k] == b[..EntryAt(rps, n)][k] == was[..EntryAt(rps, n)][k];
    }
    SameBytes(b, was, rps, 4);
  }

  lemma {:induction false} BlockGrows(was: seq<U8>, b: seq<U8>, rps: nat, n: nat, bs: nat, refs: nat)
    requires |b| == |was| && EntryAt(rps, n) + SET_SIZE <= |was| && BlockHolds(was, rps, n, bs, refs)
    requires OnlyEntry(was, b, EntryAt(rps, n), Entry(b, EntryAt(rps, n)))
    requires Carries(Entry(b, EntryAt(rps, n)), SetOf(bs, refs, n))
    ensures BlockHolds(b, rps, n + 1, bs, refs) && Get(b, rps, 4) == Get(was, rps, 4)
  {
    CountStays(was, b, rps, n);
    forall j: nat | j < n + 1 ensures SetHolds(b, rps, j, bs, refs) {
      if j < n {
        SetStays(was, b, rps, n, bs, refs, j);
      }
    }
  }

  /** The whole block: its count and n sets. A command buffer too short for the block is
      reported, never overrun. */
  method WriteBlock(w: Writer, rps: nat, n: nat, b: nat, refs: nat)
    requires b < 0xffff && n < TWO32 && !w.err
    modifies w`err, w.buf
    ensures w.buf == old(w.buf)
    ensures w.err == (EntryAt(rps, n) > w.buf.Length)
    ensures !w.err ==> Get(w.buf[..], rps, 4) == n && BlockHolds(w.buf[..], rps, n, b, refs)
  {
    ghost var was := w.buf[..];
    w.Write(rps, 4, n);
    if !w.err {
      Widths();
      GetPut(was, rps, 4, n);
    }
    for i := 0 to n
      invariant w.buf == old(w.buf)
      invariant w.err == (EntryAt(rps, i) > w.buf.Length)
      invariant !w.err ==> Get(w.buf[..], rps, 4) == n && BlockHolds(w.buf[..], rps, i, b, refs)
    {
      ghost var before := w.buf[..];
      WriteSet(w, EntryAt(rps, i), b, refs, i);
      if !w.err {
        BlockGrows(before, w.buf[..], rps, i, b, refs);
      }
    }
  }
}
