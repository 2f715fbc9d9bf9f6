/** The other side of CodedHdr: a frame's layout written into a header field by field, each at its
    own offset, and that the driver reads just that out of it. */
module CodedHdrPrint {
  import opened Basics
  import opened LittleEndian
  import opened CodedHdr

  const END := Rec(0, 0, 0, 0)

  /** The scalars in front of the records. */
  datatype Head = Head(spsPpsBits: nat, cabac: nat, frameNum: nat, frameType: nat)

  predicate HasHeaders(c: Layout, hevc: bool) {
    hevc ==> c.hdrLen.Some? && c.hdrIova.Some?
  }

  /** The fields of a record come in the table's order and fit between two records; the scalars
      come before them. */
  predicate Ordered(c: Layout, hevc: bool) {
    && HasHeaders(c, hevc) && c.stride > 0 && c.max < 0x1_0000_0000
    && c.cabac.Some? && c.spsPpsBits + 4 <= c.cabac.value && c.cabac.value + 4 <= c.frameNum
    && c.frameNum + 4 <= c.frameType && c.frameType + 4 <= c.written && c.frameType + 4 <= c.minBytes
    && c.written + 4 <= c.removed && c.removed + 1 <= c.written + c.stride
    && (hevc ==> c.removed + 1 <= c.hdrIova.value && c.hdrIova.value + 8 <= c.hdrLen.value
                 && c.hdrLen.value + 4 <= c.written + c.stride)
  }

  lemma {:induction false} TheTableIsOrdered(hevc: bool)
    ensures Ordered(LAYOUT_13_5, hevc)
  {
  }

  /** What the fields can hold; only HEVC has slice headers. */
  predicate Fits(r: Rec, hevc: bool) {
    && r.n < TWO32 && -128 <= r.trim < 128 && r.hdrLen < TWO32 && r.hdrIova < TWO64
    && (!hevc ==> r.hdrLen == 0 && r.hdrIova == 0)
  }

  function Unsigned(x: int): U8
    requires -128 <= x < 128
  {
    if x < 0 then x + 256 else x
  }

  // ---- one record ---------------------------------------------------------------------

  /** Count, trim and, with a slice header, its address and length, each at its place. */
  function PutFields(h: seq<U8>, w: nat, o: nat, hevc: bool, x: nat, l: nat, r: Rec): (p: seq<U8>)
    requires w + 4 <= |h| && o < |h| && (hevc ==> x + 8 <= |h| && l + 4 <= |h|) && Fits(r, hevc)
    ensures |p| == |h|
  {
    var p := Put(h, w, 4, r.n)[o := Unsigned(r.trim)];
    if hevc then Put(Put(p, x, 8, r.hdrIova), l, 4, r.hdrLen) else p
  }

  /** Where record i's two fields of HEVC are. */
  function IovaAt(c: Layout, hevc: bool, i: nat): nat
    requires HasHeaders(c, hevc)
  {
    if hevc then i * c.stride + c.hdrIova.value else 0
  }

  function LenAt(c: Layout, hevc: bool, i: nat): nat
    requires HasHeaders(c, hevc)
  {
    if hevc then i * c.stride + c.hdrLen.value else 0
  }

  /** Record i written into the header. */
  function PutRec(c: Layout, h: seq<U8>, hevc: bool, i: nat, r: Rec): (p: seq<U8>)
    requires Ordered(c, hevc) && Inside(c, |h|, hevc, i) && Fits(r, hevc)
    ensures |p| == |h|
  {
    PutFields(h, i * c.stride + c.written, i * c.stride + c.removed, hevc, IovaAt(c, hevc, i), LenAt(c, hevc, i), r)
  }

  /** The fields lie in this order in [w, hi). */
  predicate InOrder(w: nat, o: nat, hevc: bool, x: nat, l: nat, hi: nat) {
    w + 4 <= o < hi && (hevc ==> o < x && x + 8 <= l && l + 4 <= hi)
  }

  lemma {:induction false} InRecord(c: Layout, len: nat, hevc: bool, i: nat)
    requires Ordered(c, hevc) && Inside(c, len, hevc, i)
    ensures
      var w, o := i * c.stride + c.written, i * c.stride + c.removed;
      InOrder(w, o, hevc, IovaAt(c, hevc, i), LenAt(c, hevc, i), w + c.stride)
  {
  }

  lemma {:induction false} FieldsElsewhere(h: seq<U8>, w: nat, o: nat, hevc: bool, x: nat, l: nat, hi: nat, r: Rec, k: nat)
    requires w + 4 <= |h| && o < |h| && (hevc ==> x + 8 <= |h| && l + 4 <= |h|) && Fits(r, hevc)
    requires InOrder(w, o, hevc, x, l, hi) && k < |h| && (k < w || hi <= k)
    ensures PutFields(h, w, o, hevc, x, l, r)[k] == h[k]
  {
    PutElsewhere(h, w, 4, r.n, k);
    var p := Put(h, w, 4, r.n)[o := Unsigned(r.trim)];
    if hevc {
      PutElsewhere(p, x, 8, r.hdrIova, k);
      PutElsewhere(Put(p, x, 8, r.hdrIova), l, 4, r.hdrLen, k);
    }
  }

  /** Nothing outside the record's own bytes changes. */
  lemma {:induction false} PutRecElsewhere(c: Layout, h: seq<U8>, hevc: bool, i: nat, r: Rec, k: nat)
    requires Ordered(c, hevc) && Inside(c, |h|, hevc, i) && Fits(r, hevc) && k < |h|
    requires k < i * c.stride + c.written || i * c.stride + c.written + c.stride <= k
    ensures PutRec(c, h, hevc, i, r)[k] == h[k]
  {
    InRecord(c, |h|, hevc, i);
    var w, o := i * c.stride + c.written, i * c.stride + c.removed;
    FieldsElsewhere(h, w, o, hevc, IovaAt(c, hevc, i), LenAt(c, hevc, i), w + c.stride, r, k);
  }

  lemma {:induction false} UpdateKeeps(b: seq<U8>, k: nat, v: U8, o: nat, w: nat)
    requires k < |b| && o + w <= |b| && (k < o || o + w <= k)
    ensures Get(b[k := v], o, w) == Get(b, o, w)
  {
    SameBytes(b[k := v], b, o, w);
  }

  lemma {:induction false} Pows()
    ensures Pow256(4) == TWO32 && Pow256(8) == TWO64
  {
    Widths();
    assert Pow256(7) == 0x100_0000_0000_0000 && Pow256(6) == 0x1_0000_0000_0000 && Pow256(5) == 0x100_0000_0000;
  }

  /** The two fields every codec has. */
  lemma {:induction false} CountReads(h: seq<U8>, w: nat, o: nat, n: nat, v: U8)
    requires w + 4 <= o < |h| && n < TWO32
    ensures var p := Put(h, w, 4, n)[o := v]; Get(p, w, 4) == n && p[o] == v
  {
    Pows();
    PutReads(h, w, 4, n);
    UpdateKeeps(Put(h, w, 4, n), o, v, w, 4);
  }

  /** And the two of HEVC, which leave them alone. */
  lemma {:induction false} HeaderReads(p: seq<U8>, w: nat, o: nat, x: nat, l: nat, iova: nat, len: nat)
    requires w + 4 <= o < x && x + 8 <= l && l + 4 <= |p| && iova < TWO64 && len < TWO32
    ensures
      var q := Put(Put(p, x, 8, iova), l, 4, len);
      Get(q, w, 4) == Get(p, w, 4) && q[o] == p[o] && Get(q, x, 8) == iova && Get(q, l, 4) == len
  {
    Pows();
    var m := Put(p, x, 8, iova);
    PutReads(p, x, 8, iova);
    PutReads(m, l, 4, len);
    PutKeeps(p, x, 8, iova, w, 4);
    PutKeeps(m, l, 4, len, w, 4);
    PutKeeps(m, l, 4, len, x, 8);
    PutElsewhere(p, x, 8, iova, o);
    PutElsewhere(m, l, 4, len, o);
  }

  /** A record as it lies at those places. */
  function FieldsAt(h: seq<U8>, w: nat, o: nat, hevc: bool, x: nat, l: nat): Rec
    requires w + 4 <= |h| && o < |h| && (hevc ==> x + 8 <= |h| && l + 4 <= |h|)
  {
    Rec(Get(h, w, 4), Signed(h[o]), if hevc then Get(h, l, 4) else 0, if hevc then Get(h, x, 8) else 0)
  }

  lemma {:induction false} FieldsRead(h: seq<U8>, w: nat, o: nat, hevc: bool, x: nat, l: nat, hi: nat, r: Rec)
    requires w + 4 <= |h| && o < |h| && (hevc ==> x + 8 <= |h| && l + 4 <= |h|) && Fits(r, hevc)
    requires InOrder(w, o, hevc, x, l, hi)
    ensures FieldsAt(PutFields(h, w, o, hevc, x, l, r), w, o, hevc, x, l) == r
  {
    CountReads(h, w, o, r.n, Unsigned(r.trim));
    if hevc {
      HeaderReads(Put(h, w, 4, r.n)[o := Unsigned(r.trim)], w, o, x, l, r.hdrIova, r.hdrLen);
    }
  }

  lemma {:induction false} RecAtIs(c: Layout, h: seq<U8>, hevc: bool, i: nat)
    requires Wf(c) && Ordered(c, hevc) && Inside(c, |h|, hevc, i)
    ensures
      RecAt(c, h, hevc, i)
      == FieldsAt(h, i * c.stride + c.written, i * c.stride + c.removed, hevc, IovaAt(c, hevc, i), LenAt(c, hevc, i))
  {
  }

  lemma {:induction false} RecReads(c: Layout, h: seq<U8>, hevc: bool, i: nat, r: Rec)
    requires Wf(c) && Ordered(c, hevc) && Inside(c, |h|, hevc, i) && Fits(r, hevc)
    ensures RecAt(c, PutRec(c, h, hevc, i, r), hevc, i) == r
  {
    InRecord(c, |h|, hevc, i);
    var w, o := i * c.stride + c.written, i * c.stride + c.removed;
    FieldsRead(h, w, o, hevc, IovaAt(c, hevc, i), LenAt(c, hevc, i), w + c.stride, r);
    RecAtIs(c, PutRec(c, h, hevc, i, r), hevc, i);
  }

  lemma {:induction false} Apart(i: nat, j: nat, stride: nat)
    requires i < j
    ensures i * stride + stride <= j * stride
  {
    assert (i + 1) * stride <= j * stride;
  }

  /** Record i stays what it is when another one is written. */
  lemma {:induction false} RecKeeps(c: Layout, h: seq<U8>, hevc: bool, i: nat, j: nat, r: Rec)
    requires Wf(c) && Ordered(c, hevc) && Inside(c, |h|, hevc, i) && Inside(c, |h|, hevc, j) && Fits(r, hevc) && i != j
    ensures RecAt(c, PutRec(c, h, hevc, j, r), hevc, i) == RecAt(c, h, hevc, i)
  {
    var p, at := PutRec(c, h, hevc, j, r), i * c.stride;
    if i < j {
      Apart(i, j, c.stride);
    } else {
      Apart(j, i, c.stride);
    }
    forall k | at + c.written <= k < at + c.written + c.stride && k < |h| ensures p[k] == h[k] {
      PutRecElsewhere(c, h, hevc, j, r, k);
    }
    SameRec(c, h, p, hevc, i);
  }

  lemma {:induction false} SameFields(h: seq<U8>, p: seq<U8>, w: nat, o: nat, hevc: bool, x: nat, l: nat, hi: nat)
    requires w + 4 <= |h| && o < |h| && (hevc ==> x + 8 <= |h| && l + 4 <= |h|)
    requires InOrder(w, o, hevc, x, l, hi) && |p| == |h|
    requires forall k :: w <= k < hi && k < |h| ==> p[k] == h[k]
    ensures FieldsAt(p, w, o, hevc, x, l) == FieldsAt(h, w, o, hevc, x, l)
  {
    SameBytes(p, h, w, 4);
    if hevc {
      SameBytes(p, h, x, 8);
      SameBytes(p, h, l, 4);
    }
  }

  lemma {:induction false} SameRec(c: Layout, h: seq<U8>, p: seq<U8>, hevc: bool, i: nat)
    requires Wf(c) && Ordered(c, hevc) && Inside(c, |h|, hevc, i) && |p| == |h|
    requires forall k :: i * c.stride + c.written <= k < i * c.stride + c.written + c.stride && k < |h| ==> p[k] == h[k]
    ensures RecAt(c, p, hevc, i) == RecAt(c, h, hevc, i)
  {
    InRecord(c, |h|, hevc, i);
    var w, o := i * c.stride + c.written, i * c.stride + c.removed;
    SameFields(h, p, w, o, hevc, IovaAt(c, hevc, i), LenAt(c, hevc, i), w + c.stride);
    RecAtIs(c, h, hevc, i);
    RecAtIs(c, p, hevc, i);
  }

  // ---- the header ---------------------------------------------------------------------

  predicate CanHold(c: Layout, len: nat, hevc: bool, rs: seq<Rec>) {
    HasHeaders(c, hevc) && forall i :: 0 <= i < |rs| ==> Inside(c, len, hevc, i) && Fits(rs[i], hevc)
  }

  function PutRecs(c: Layout, h: seq<U8>, hevc: bool, rs: seq<Rec>): (p: seq<U8>)
    requires Ordered(c, hevc) && CanHold(c, |h|, hevc, rs)
    ensures |p| == |h|
  {
    if rs == [] then h
    else
      assert CanHold(c, |h|, hevc, rs[..|rs| - 1]);
      PutRec(c, PutRecs(c, h, hevc, rs[..|rs| - 1]), hevc, |rs| - 1, rs[|rs| - 1])
  }

  lemma {:induction false} PutRecsReads(c: Layout, h: seq<U8>, hevc: bool, rs: seq<Rec>, i: nat)
    requires Wf(c) && Ordered(c, hevc) && CanHold(c, |h|, hevc, rs) && i < |rs|
    ensures RecAt(c, PutRecs(c, h, hevc, rs), hevc, i) == rs[i]
    decreases |rs|
  {
    var m := |rs| - 1;
    assert CanHold(c, |h|, hevc, rs[..m]) && Fits(rs[m], hevc) && Inside(c, |h|, hevc, m) && Inside(c, |h|, hevc, i);
    var p := PutRecs(c, h, hevc, rs[..m]);
    if i == m {
      RecReads(c, p, hevc, m, rs[m]);
    } else {
      PutRecsReads(c, h, hevc, rs[..m], i);
      RecKeeps(c, p, hevc, i, m, rs[m]);
    }
  }

  /** What lies in front of the records stays. */
  lemma {:induction false} PutRecsBefore(c: Layout, h: seq<U8>, hevc: bool, rs: seq<Rec>, k: nat)
    requires Ordered(c, hevc) && CanHold(c, |h|, hevc, rs) && k < c.written && k < |h|
    ensures PutRecs(c, h, hevc, rs)[k] == h[k]
    decreases |rs|
  {
    if rs != [] {
      var m := |rs| - 1;
      assert CanHold(c, |h|, hevc, rs[..m]) && Fits(rs[m], hevc) && Inside(c, |h|, hevc, m);
      PutRecsBefore(c, h, hevc, rs[..m], k);
      PutRecElsewhere(c, PutRecs(c, h, hevc, rs[..m]), hevc, m, rs[m], k);
    }
  }

  function PutHead(c: Layout, h: seq<U8>, x: Head): (p: seq<U8>)
    requires c.cabac.Some? && c.cabac.value + 4 <= |h|
    requires c.spsPpsBits + 4 <= |h| && c.frameNum + 4 <= |h| && c.frameType + 4 <= |h|
    ensures |p| == |h|
  {
    Put(Put(Put(Put(h, c.spsPpsBits, 4, x.spsPpsBits), c.cabac.value, 4, x.cabac), c.frameNum, 4, x.frameNum),
        c.frameType, 4, x.frameType)
  }

  predicate HeadFits(x: Head) {
    x.spsPpsBits < TWO32 && x.cabac < TWO32 && x.frameNum < TWO32 && x.frameType < TWO32
  }

  /** The four scalars of h are those. */
  predicate HeadIs(c: Layout, h: seq<U8>, x: Head)
    requires c.cabac.Some? && c.cabac.value + 4 <= |h|
    requires c.spsPpsBits + 4 <= |h| && c.frameNum + 4 <= |h| && c.frameType + 4 <= |h|
  {
    && Get(h, c.spsPpsBits, 4) == x.spsPpsBits && Get(h, c.cabac.value, 4) == x.cabac
    && Get(h, c.frameNum, 4) == x.frameNum && Get(h, c.frameType, 4) == x.frameType
  }

  lemma {:induction false} HeadReads(c: Layout, h: seq<U8>, hevc: bool, x: Head)
    requires Ordered(c, hevc) && c.frameType + 4 <= |h| && HeadFits(x)
    ensures HeadIs(c, PutHead(c, h, x), x)
  {
    Pows();
    var h1 := Put(h, c.spsPpsBits, 4, x.spsPpsBits);
    var h2 := Put(h1, c.cabac.value, 4, x.cabac);
    var h3 := Put(h2, c.frameNum, 4, x.frameNum);
    PutReads(h, c.spsPpsBits, 4, x.spsPpsBits);
    PutReads(h1, c.cabac.value, 4, x.cabac);
    PutReads(h2, c.frameNum, 4, x.frameNum);
    PutReads(h3, c.frameType, 4, x.frameType);
    PutKeeps(h1, c.cabac.value, 4, x.cabac, c.spsPpsBits, 4);
    PutKeeps(h2, c.frameNum, 4, x.frameNum, c.spsPpsBits, 4);
    PutKeeps(h2, c.frameNum, 4, x.frameNum, c.cabac.value, 4);
    PutKeeps(h3, c.frameType, 4, x.frameType, c.spsPpsBits, 4);
    PutKeeps(h3, c.frameType, 4, x.frameType, c.cabac.value, 4);
    PutKeeps(h3, c.frameType, 4, x.frameType, c.frameNum, 4);
  }

  /** The records and, if there is room for one more, an empty one. */
  function Ended(c: Layout, len: nat, hevc: bool, rs: seq<Rec>): seq<Rec>
    requires HasHeaders(c, hevc)
  {
    if |rs| < c.max && Inside(c, len, hevc, |rs|) then rs + [END] else rs
  }

  /** A frame's layout printed over whatever h holds. */
  function Print(c: Layout, h: seq<U8>, hevc: bool, x: Head, rs: seq<Rec>): (p: seq<U8>)
    requires Ordered(c, hevc) && c.minBytes <= |h| && CanHold(c, |h|, hevc, rs)
    ensures |p| == |h|
  {
    assert CanHold(c, |h|, hevc, Ended(c, |h|, hevc, rs));
    PutRecs(c, PutHead(c, h, x), hevc, Ended(c, |h|, hevc, rs))
  }

  lemma {:induction false} HeadOfPrinted(c: Layout, h: seq<U8>, hevc: bool, x: Head, rs: seq<Rec>)
    requires Ordered(c, hevc) && c.minBytes <= |h| && CanHold(c, |h|, hevc, rs) && HeadFits(x)
    ensures HeadIs(c, Print(c, h, hevc, x, rs), x)
  {
    var p, q := PutHead(c, h, x), Print(c, h, hevc, x, rs);
    HeadReads(c, h, hevc, x);
    assert CanHold(c, |h|, hevc, Ended(c, |h|, hevc, rs));
    forall k | 0 <= k < c.written && k < |h| ensures q[k] == p[k] {
      PutRecsBefore(c, p, hevc, Ended(c, |h|, hevc, rs), k);
    }
    SameBytes(q, p, c.spsPpsBits, 4);
    SameBytes(q, p, c.cabac.value, 4);
    SameBytes(q, p, c.frameNum, 4);
    SameBytes(q, p, c.frameType, 4);
  }

  /** Nonempty records, no more than the array has. */
  predicate Real(c: Layout, rs: seq<Rec>) {
    |rs| <= c.max && forall i :: 0 <= i < |rs| ==> rs[i].n > 0
  }

  lemma {:induction false} RecsRead(c: Layout, p: seq<U8>, hevc: bool, rs: seq<Rec>, i: nat)
    requires Wf(c) && Ordered(c, hevc) && CanHold(c, |p|, hevc, rs) && Real(c, rs) && i <= |rs|
    requires forall j :: 0 <= j < |rs| ==> Inside(c, |p|, hevc, j) && RecAt(c, p, hevc, j) == rs[j]
    requires |rs| < c.max && Inside(c, |p|, hevc, |rs|) ==> RecAt(c, p, hevc, |rs|).n == 0
    ensures Recs(c, p, hevc, i) == rs[i..]
    decreases |rs| - i
  {
    if i < |rs| {
      RecsRead(c, p, hevc, rs, i + 1);
      assert rs[i..] == [rs[i]] + rs[i + 1..];
    }
  }

  lemma {:induction false} RecsOfPrinted(c: Layout, h: seq<U8>, hevc: bool, x: Head, rs: seq<Rec>)
    requires Wf(c) && Ordered(c, hevc) && c.minBytes <= |h| && CanHold(c, |h|, hevc, rs) && Real(c, rs)
    ensures Recs(c, Print(c, h, hevc, x, rs), hevc, 0) == rs
  {
    var p, es := PutHead(c, h, x), Ended(c, |h|, hevc, rs);
    assert CanHold(c, |h|, hevc, es);
    forall j | 0 <= j < |es|
      ensures Inside(c, |h|, hevc, j) && RecAt(c, PutRecs(c, p, hevc, es), hevc, j) == es[j]
    {
      PutRecsReads(c, p, hevc, es, j);
    }
    RecsRead(c, PutRecs(c, p, hevc, es), hevc, rs, 0);
    assert rs[0..] == rs;
  }

  /** The info the driver should give for a printed frame. */
  predicate Reports(f: Info, hevc: bool, x: Head, rs: seq<Rec>) {
    && f.spsPpsBits == x.spsPpsBits && f.frameNum == x.frameNum && f.frameType == x.frameType
    && f.cabac == (if hevc then 0 else x.cabac)
    && f.span == Written(rs) && f.removed == Trimmed(rs) && f.hdrBytes == Headers(rs)
    && f.bytes == Written(rs) - Trimmed(rs) + Headers(rs) && |f.slices| == |rs|
    && forall i :: 0 <= i < |rs| ==>
         var sl := f.slices[i];
         && sl.off == Written(rs[..i]) && sl.len == rs[i].n - rs[i].trim
         && sl.hdrIova == rs[i].hdrIova && sl.hdrLen == rs[i].hdrLen
  }

  /** One slice as the driver accepts it: no more trimmed than written, at most 2^30 bytes, and a
      header of at most 2^20 that fits the slot it is said to be in. */
  predicate GoodSlice(r: Rec, slotMax: nat) {
    && 0 <= r.trim <= r.n <= 0x4000_0000 && r.hdrLen <= 0x10_0000
    && (r.hdrLen == 0 || r.hdrIova != 0) && (slotMax == 0 || r.hdrLen <= slotMax)
  }

  /** All of them, and 2^30 bytes together; they fit the coded buffer if its size is known. */
  predicate GoodFrame(rs: seq<Rec>, codedSize: nat, slotMax: nat) {
    && (forall i :: 0 <= i < |rs| ==> GoodSlice(rs[i], slotMax))
    && Written(rs) <= 0x4000_0000 && (codedSize == 0 || Written(rs) <= codedSize)
  }

  lemma {:induction false} GoodIsSane(rs: seq<Rec>, codedSize: nat, slotMax: nat)
    ensures GoodFrame(rs, codedSize, slotMax) <==> Sane(rs, slotMax) && (codedSize > 0 ==> Written(rs) <= codedSize)
  {
    forall i | 0 <= i < |rs| ensures GoodSlice(rs[i], slotMax) <==> RecOk(rs[i], slotMax) {
    }
  }

  lemma {:induction false} Decodes(c: Layout, p: seq<U8>, hevc: bool, x: Head, rs: seq<Rec>, codedSize: nat, slotMax: nat)
    requires Wf(c) && Ordered(c, hevc) && c.minBytes <= |p| && HeadIs(c, p, x)
    requires Recs(c, p, hevc, 0) == rs && |rs| <= SLICE_MAX
    ensures
      var r := Decoded(c, p, codedSize, hevc, slotMax);
      if GoodFrame(rs, codedSize, slotMax) then r.Ok? && Reports(r.info, hevc, x, rs) else r == Proto
  {
    GoodIsSane(rs, codedSize, slotMax);
    if Sane(rs, slotMax) {
      SumsStaySmall(rs, slotMax);
    }
  }

  /** A printed frame of at most 16 slices is decoded, exactly if it is a good one, to the very
      slices, sums and scalars printed, whatever the header held before. */
  lemma {:induction false} DecodesWhatWasPrinted(c: Layout, h: seq<U8>, hevc: bool, x: Head, rs: seq<Rec>,
      codedSize: nat, slotMax: nat)
    requires Wf(c) && Ordered(c, hevc) && c.minBytes <= |h| && CanHold(c, |h|, hevc, rs) && Real(c, rs)
    requires HeadFits(x) && |rs| <= SLICE_MAX
    ensures
      var r := Decoded(c, Print(c, h, hevc, x, rs), codedSize, hevc, slotMax);
      if GoodFrame(rs, codedSize, slotMax) then r.Ok? && Reports(r.info, hevc, x, rs) else r == Proto
  {
    RecsOfPrinted(c, h, hevc, x, rs);
    HeadOfPrinted(c, h, hevc, x, rs);
    Decodes(c, Print(c, h, hevc, x, rs), hevc, x, rs, codedSize, slotMax);
  }

  /** A printed frame of more is refused: as too big if the first 17 records make sense. */
  lemma {:induction false} RefusesTooMany(c: Layout, h: seq<U8>, hevc: bool, x: Head, rs: seq<Rec>,
      codedSize: nat, slotMax: nat)
    requires Wf(c) && Ordered(c, hevc) && c.minBytes <= |h| && CanHold(c, |h|, hevc, rs) && Real(c, rs)
    requires |rs| > SLICE_MAX
    ensures
      Decoded(c, Print(c, h, hevc, x, rs), codedSize, hevc, slotMax)
      == if GoodFrame(rs[..SLICE_MAX + 1], 0, slotMax) then TooBig else Proto
  {
    RecsOfPrinted(c, h, hevc, x, rs);
    GoodIsSane(rs[..SLICE_MAX + 1], 0, slotMax);
  }
}
