/** ave_cmd_coded_length_codec: the slice records of a coded-data header, as one frame's layout.
    A table row gives the offsets; the header's bytes are the firmware's, so any at all. */
module CodedHdr {
  import opened Basics
  import opened LittleEndian

  const SLICE_MAX: nat := 16
  const LIMIT: nat := 0x4000_0000
  const HDR_LIMIT: nat := 0x10_0000

  /** struct ave_coded_hdr_layout; None: the field is not known for this ABI. */
  datatype Layout = Layout(
    minBytes: nat, frameType: nat, frameNum: nat, spsPpsBits: nat, cabac: Option<nat>,
    stride: nat, max: nat, written: nat, removed: nat, hdrIova: Option<nat>, hdrLen: Option<nat>)

  /** The row for 13.5. */
  const LAYOUT_13_5 := Layout(0x22c60, 0x110, 0x10c, 0x98, Some(0xf0), 0x220, 0x100, 0x180, 0x38c, Some(0x390), Some(0x398))

  /** Every scalar lies in the bytes that must be there, a record's count before its trim. */
  predicate Wf(c: Layout) {
    && c.frameType + 4 <= c.minBytes && c.frameNum + 4 <= c.minBytes && c.spsPpsBits + 4 <= c.minBytes
    && c.written + 4 <= c.removed + 1 && c.max < 0x1_0000_0000
  }

  datatype Rec = Rec(n: nat, trim: int, hdrLen: nat, hdrIova: nat)

  datatype Slice = Slice(off: U32, len: U32, hdrIova: nat, hdrLen: U32)

  datatype Info = Info(bytes: U32, span: U32, removed: U32, hdrBytes: U32,
                       frameType: nat, frameNum: nat, spsPpsBits: nat, cabac: nat, slices: seq<Slice>)

  datatype Result = Ok(info: Info) | Inval | Proto | TooBig

  function Signed(b: U8): int {
    if b < 128 then b else b - 256
  }

  // ---- the record array ---------------------------------------------------------------

  /** Record i lies inside the header. */
  predicate Inside(c: Layout, len: nat, hevc: bool, i: nat)
    requires hevc ==> c.hdrLen.Some? && c.hdrIova.Some?
  {
    && i * c.stride + c.removed + 1 <= len
    && (hevc ==> i * c.stride + c.hdrLen.value + 4 <= len && i * c.stride + c.hdrIova.value + 8 <= len)
  }

  function RecAt(c: Layout, h: seq<U8>, hevc: bool, i: nat): Rec
    requires Wf(c) && (hevc ==> c.hdrLen.Some? && c.hdrIova.Some?) && Inside(c, |h|, hevc, i)
  {
    var at := i * c.stride;
    Rec(Get(h, at + c.written, 4), Signed(h[at + c.removed]),
        if hevc then Get(h, at + c.hdrLen.value, 4) else 0,
        if hevc then Get(h, at + c.hdrIova.value, 8) else 0)
  }

  /** The records from i on: as far as the array and the header go, up to an empty one. */
  function Recs(c: Layout, h: seq<U8>, hevc: bool, i: nat): seq<Rec>
    requires Wf(c) && (hevc ==> c.hdrLen.Some? && c.hdrIova.Some?)
    decreases c.max - i
  {
    if i >= c.max || !Inside(c, |h|, hevc, i) || RecAt(c, h, hevc, i).n == 0 then []
    else [RecAt(c, h, hevc, i)] + Recs(c, h, hevc, i + 1)
  }

  // ---- what the records mean ----------------------------------------------------------

  function Written(rs: seq<Rec>): nat {
    if rs == [] then 0 else Written(rs[..|rs| - 1]) + rs[|rs| - 1].n
  }

  function Trimmed(rs: seq<Rec>): int {
    if rs == [] then 0 else Trimmed(rs[..|rs| - 1]) + rs[|rs| - 1].trim
  }

  function Headers(rs: seq<Rec>): nat {
    if rs == [] then 0 else Headers(rs[..|rs| - 1]) + rs[|rs| - 1].hdrLen
  }

  /** A record that makes sense by itself; slotMax 0: no limit but the fixed one. */
  predicate RecOk(r: Rec, slotMax: nat) {
    && 0 <= r.trim <= r.n <= LIMIT
    && (slotMax > 0 ==> r.hdrLen <= slotMax) && (r.hdrLen > 0 ==> r.hdrIova > 0) && r.hdrLen <= HDR_LIMIT
  }

  predicate Sane(rs: seq<Rec>, slotMax: nat) {
    (forall i :: 0 <= i < |rs| ==> RecOk(rs[i], slotMax)) && Written(rs) <= LIMIT
  }

  lemma {:induction false} SanePrefix(rs: seq<Rec>, slotMax: nat, k: nat)
    requires Sane(rs, slotMax) && k <= |rs|
    ensures Sane(rs[..k], slotMax)
    decreases |rs|
  {
    if k < |rs| {
      var t := rs[..|rs| - 1];
      assert Sane(t, slotMax);
      SanePrefix(t, slotMax, k);
      assert t[..k] == rs[..k];
    } else {
      assert rs[..k] == rs;
    }
  }

  /** Nothing wraps: with at most 16 sane records every sum is far below 2^32, and what is removed
      never exceeds what was written. */
  lemma {:induction false} SumsStaySmall(rs: seq<Rec>, slotMax: nat)
    requires Sane(rs, slotMax)
    ensures 0 <= Trimmed(rs) <= Written(rs) <= LIMIT
    ensures Headers(rs) <= HDR_LIMIT * |rs|
    decreases |rs|
  {
    if rs != [] {
      SanePrefix(rs, slotMax, |rs| - 1);
      SumsStaySmall(rs[..|rs| - 1], slotMax);
    }
  }

  function SliceOf(rs: seq<Rec>, slotMax: nat, i: nat): Slice
    requires Sane(rs, slotMax) && i < |rs|
  {
    SanePrefix(rs, slotMax, i);
    Slice(Written(rs[..i]), rs[i].n - rs[i].trim, rs[i].hdrIova, rs[i].hdrLen)
  }

  function Slices(rs: seq<Rec>, slotMax: nat): seq<Slice>
    requires Sane(rs, slotMax)
  {
    seq(|rs|, i requires 0 <= i < |rs| => SliceOf(rs, slotMax, i))
  }

  function InfoOf(c: Layout, h: seq<U8>, hevc: bool, rs: seq<Rec>, slotMax: nat): Info
    requires Wf(c) && |h| >= c.minBytes && Sane(rs, slotMax) && |rs| <= SLICE_MAX
  {
    SumsStaySmall(rs, slotMax);
    var w, t, d := Written(rs), Trimmed(rs), Headers(rs);
    Info(w - t + d, w, t, d, Get(h, c.frameType, 4), Get(h, c.frameNum, 4), Get(h, c.spsPpsBits, 4),
         CabacOf(c, h, hevc), Slices(rs, slotMax))
  }

  /** Never written for HEVC. */
  function CabacOf(c: Layout, h: seq<U8>, hevc: bool): nat {
    if !hevc && c.cabac.Some? && c.cabac.value + 4 <= |h| then Get(h, c.cabac.value, 4) else 0
  }

  /** What a header decodes to. Too many records is an answer of its own only if the first one
      past the limit is good as well. */
  function Decoded(c: Layout, h: seq<U8>, codedSize: nat, hevc: bool, slotMax: nat): Result
    requires Wf(c)
  {
    if c.stride == 0 || |h| < c.minBytes || (hevc && (c.hdrLen.None? || c.hdrIova.None?)) then Inval
    else
      var rs := Recs(c, h, hevc, 0);
      if |rs| > SLICE_MAX then
        if Sane(rs[..SLICE_MAX + 1], slotMax) then TooBig else Proto
      else if !Sane(rs, slotMax) || (codedSize > 0 && Written(rs) > codedSize) then Proto
      else Ok(InfoOf(c, h, hevc, rs, slotMax))
  }

  // ---- what success means -------------------------------------------------------------

  function Lens(ss: seq<Slice>): nat {
    if ss == [] then 0 else Lens(ss[..|ss| - 1]) + ss[|ss| - 1].len + ss[|ss| - 1].hdrLen
  }

  /** Ascending, disjoint, and inside the span. */
  predicate Tiled(ss: seq<Slice>, span: nat) {
    && (forall i :: 0 <= i < |ss| ==> ss[i].off + ss[i].len <= span)
    && (forall i, j :: 0 <= i < j < |ss| ==> ss[i].off + ss[i].len <= ss[j].off)
  }

  lemma {:induction false} WrittenGrows(rs: seq<Rec>, i: nat, j: nat)
    requires i <= j <= |rs|
    ensures Written(rs[..i]) <= Written(rs[..j])
    ensures i < j ==> Written(rs[..i]) + rs[i].n <= Written(rs[..j])
    decreases j
  {
    if i < j {
      WrittenGrows(rs, i, j - 1);
      assert rs[..j][..j - 1] == rs[..j - 1];
      if i == j - 1 {
        assert rs[..j][j - 1] == rs[i];
      }
    }
  }

  lemma {:induction false} SlicesTile(rs: seq<Rec>, slotMax: nat)
    requires Sane(rs, slotMax)
    ensures Tiled(Slices(rs, slotMax), Written(rs))
  {
    forall i, j | 0 <= i < j <= |rs| ensures Written(rs[..i]) + rs[i].n <= Written(rs[..j]) {
      WrittenGrows(rs, i, j);
    }
    assert rs[..|rs|] == rs;
    forall i | 0 <= i < |rs| ensures Slices(rs, slotMax)[i].off + Slices(rs, slotMax)[i].len <= Written(rs) {
      WrittenGrows(rs, i, |rs|);
      assert RecOk(rs[i], slotMax);
    }
    forall i, j | 0 <= i < j < |rs|
      ensures Slices(rs, slotMax)[i].off + Slices(rs, slotMax)[i].len <= Slices(rs, slotMax)[j].off
    {
      WrittenGrows(rs, i, j);
      assert RecOk(rs[i], slotMax);
    }
  }

  lemma {:induction false} LensAddUp(rs: seq<Rec>, slotMax: nat)
    requires Sane(rs, slotMax)
    ensures Lens(Slices(rs, slotMax)) == Written(rs) - Trimmed(rs) + Headers(rs)
    decreases |rs|
  {
    if rs != [] {
      var t := rs[..|rs| - 1];
      SanePrefix(rs, slotMax, |rs| - 1);
      LensAddUp(t, slotMax);
      var ss := Slices(rs, slotMax);
      assert ss[..|ss| - 1] == Slices(t, slotMax) by {
        forall i | 0 <= i < |t| ensures ss[i] == SliceOf(t, slotMax, i) {
          assert rs[..i] == t[..i];
        }
      }
    }
  }

  /** Success means: the slices are ascending, disjoint and inside the span, the span fits the
      coded buffer when that is known, and the frame's length is what its slices and their headers
      add up to. */
  lemma {:induction false} SuccessMeans(c: Layout, h: seq<U8>, codedSize: nat, hevc: bool, slotMax: nat)
    requires Wf(c) && Decoded(c, h, codedSize, hevc, slotMax).Ok?
    ensures
      var f := Decoded(c, h, codedSize, hevc, slotMax).info;
      && |f.slices| <= SLICE_MAX && Tiled(f.slices, f.span)
      && (codedSize > 0 ==> f.span <= codedSize) && f.span <= LIMIT && f.removed <= f.span
      && f.bytes == Lens(f.slices)
      && (forall i :: 0 <= i < |f.slices| && slotMax > 0 ==> f.slices[i].hdrLen <= slotMax)
      && (forall i :: 0 <= i < |f.slices| && f.slices[i].hdrLen > 0 ==> f.slices[i].hdrIova > 0)
  {
    var rs := Recs(c, h, hevc, 0);
    SlicesTile(rs, slotMax);
    LensAddUp(rs, slotMax);
    SumsStaySmall(rs, slotMax);
    forall i | 0 <= i < |rs| ensures RecOk(rs[i], slotMax) {
    }
  }

  /** With the real table the bounds checks inside the loop never end the walk: the bytes that must
      be there hold all 256 records. */
  lemma {:induction false} TheTableIsInside(len: nat, hevc: bool, i: nat)
    requires len >= LAYOUT_13_5.minBytes && i < LAYOUT_13_5.max
    ensures Wf(LAYOUT_13_5) && Inside(LAYOUT_13_5, len, hevc, i)
  {
  }

  // ---- the decoder --------------------------------------------------------------------

  lemma {:induction false} OneMoreRec(rs: seq<Rec>, i: nat)
    requires i < |rs|
    ensures Written(rs[..i + 1]) == Written(rs[..i]) + rs[i].n
    ensures Trimmed(rs[..i + 1]) == Trimmed(rs[..i]) + rs[i].trim
    ensures Headers(rs[..i + 1]) == Headers(rs[..i]) + rs[i].hdrLen
  {
    assert rs[..i + 1][..i] == rs[..i];
  }

  lemma {:induction false} SaneGrows(rs: seq<Rec>, slotMax: nat, i: nat)
    requires i < |rs| && Sane(rs[..i], slotMax)
    ensures Sane(rs[..i + 1], slotMax) <==> RecOk(rs[i], slotMax) && Written(rs[..i]) + rs[i].n <= LIMIT
  {
    OneMoreRec(rs, i);
    assert rs[..i + 1][i] == rs[i];
    forall j | 0 <= j < i ensures rs[..i + 1][j] == rs[..i][j] {
    }
  }

  /** A bad record at i is fatal wherever the array ends. */
  lemma {:induction false} BadIsProto(c: Layout, h: seq<U8>, codedSize: nat, hevc: bool, slotMax: nat, i: nat)
    requires Wf(c) && !Decoded(c, h, codedSize, hevc, slotMax).Inval?
    requires
      var rs := Recs(c, h, hevc, 0);
      i < |rs| && i <= SLICE_MAX && !Sane(rs[..i + 1], slotMax)
    ensures Decoded(c, h, codedSize, hevc, slotMax) == Proto
  {
    var rs := Recs(c, h, hevc, 0);
    if |rs| > SLICE_MAX {
      assert rs[..SLICE_MAX + 1][..i + 1] == rs[..i + 1];
      if Sane(rs[..SLICE_MAX + 1], slotMax) {
        SanePrefix(rs[..SLICE_MAX + 1], slotMax, i + 1);
      }
    } else if Sane(rs, slotMax) {
      SanePrefix(rs, slotMax, i + 1);
    }
  }

  /** After i records. */
  ghost predicate Walked(rs: seq<Rec>, slotMax: nat, i: nat, written: int, removed: int, hdrTotal: int, slices: seq<Slice>) {
    && i <= |rs| && i <= SLICE_MAX && Sane(rs[..i], slotMax)
    && written == Written(rs[..i]) && removed == Trimmed(rs[..i]) && hdrTotal == Headers(rs[..i])
    && slices == Slices(rs[..i], slotMax)
  }

  /** One more good record. */
  lemma {:induction false} WalkOn(rs: seq<Rec>, slotMax: nat, i: nat, written: nat, removed: nat, hdrTotal: nat, slices: seq<Slice>)
    requires Walked(rs, slotMax, i, written, removed, hdrTotal, slices) && i < |rs| && i < SLICE_MAX
    requires RecOk(rs[i], slotMax) && written + rs[i].n <= LIMIT
    ensures written + rs[i].n <= LIMIT && removed + rs[i].trim <= LIMIT && hdrTotal + rs[i].hdrLen <= HDR_LIMIT * SLICE_MAX
    ensures Walked(rs, slotMax, i + 1, written + rs[i].n, removed + rs[i].trim, hdrTotal + rs[i].hdrLen,
                   slices + [Slice(written, rs[i].n - rs[i].trim, rs[i].hdrIova, rs[i].hdrLen)])
  {
    SaneGrows(rs, slotMax, i);
    OneMoreRec(rs, i);
    AddSlice(rs, slotMax, i);
    SumsStaySmall(rs[..i + 1], slotMax);
  }

  /** What the checks on record i mean for the records up to it. */
  lemma {:induction false} Judged(rs: seq<Rec>, slotMax: nat, i: nat, written: nat, removed: nat, hdrTotal: nat,
      slices: seq<Slice>, ok: bool)
    requires Walked(rs, slotMax, i, written, removed, hdrTotal, slices) && i < |rs|
    requires ok <==> RecOk(rs[i], slotMax) && written + rs[i].n <= LIMIT
    ensures !ok ==> BadAt(rs, slotMax, i)
    ensures |slices| == i && (ok && i >= SLICE_MAX ==> |rs| > SLICE_MAX && Sane(rs[..SLICE_MAX + 1], slotMax))
  {
    SaneGrows(rs, slotMax, i);
  }

  /** The checks on one record. */
  method Check(rec: Rec, written: U32, slotMax: U32) returns (ok: bool)
    requires written <= LIMIT
    ensures ok <==> RecOk(rec, slotMax) && written + rec.n <= LIMIT
  {
    if rec.trim < 0 || rec.trim > rec.n {
      return false;
    }
    if rec.n > LIMIT || written > LIMIT - rec.n {
      return false;
    }
    if (slotMax > 0 && rec.hdrLen > slotMax) || (rec.hdrLen > 0 && rec.hdrIova == 0) || rec.hdrLen > HDR_LIMIT {
      return false;
    }
    return true;
  }

  lemma {:induction false} RecsFrom(c: Layout, h: seq<U8>, hevc: bool, i: nat)
    requires Wf(c) && (hevc ==> c.hdrLen.Some? && c.hdrIova.Some?) && i <= |Recs(c, h, hevc, 0)|
    ensures Recs(c, h, hevc, 0) == Recs(c, h, hevc, 0)[..i] + Recs(c, h, hevc, i)
    ensures
      var more := i < c.max && Inside(c, |h|, hevc, i) && RecAt(c, h, hevc, i).n > 0;
      && (more <==> i < |Recs(c, h, hevc, 0)|)
      && (more ==> Recs(c, h, hevc, 0)[i] == RecAt(c, h, hevc, i))
  {
    if i > 0 {
      RecsFrom(c, h, hevc, i - 1);
      assert Recs(c, h, hevc, i - 1) == [RecAt(c, h, hevc, i - 1)] + Recs(c, h, hevc, i);
    }
  }

  /** The walk has come to record i, or to the end. */
  lemma {:induction false} RecHere(c: Layout, h: seq<U8>, hevc: bool, i: nat)
    requires Wf(c) && (hevc ==> c.hdrLen.Some? && c.hdrIova.Some?) && i <= |Recs(c, h, hevc, 0)|
    ensures
      var rs, more := Recs(c, h, hevc, 0), i < c.max && Inside(c, |h|, hevc, i) && RecAt(c, h, hevc, i).n > 0;
      if more then i < |rs| && rs[i] == RecAt(c, h, hevc, i) else i == |rs| && rs[..i] == rs
  {
    RecsFrom(c, h, hevc, i);
  }

  /** Record i is the first that cannot be right. */
  ghost predicate BadAt(rs: seq<Rec>, slotMax: nat, i: int) {
    0 <= i <= SLICE_MAX && i < |rs| && !Sane(rs[..i + 1], slotMax)
  }

  /** How the walk ends, or that it goes on. */
  datatype Verdict = Done | Bad | Full | More

  /** The running sums, in 32 bits. */
  datatype Sums = Sums(written: U32, removed: U32, hdrTotal: U32, slices: seq<Slice>)

  ghost predicate After(rs: seq<Rec>, slotMax: nat, i: nat, t: Sums) {
    && Walked(rs, slotMax, i, t.written, t.removed, t.hdrTotal, t.slices)
    && t.written <= LIMIT && t.removed <= LIMIT && t.hdrTotal <= HDR_LIMIT * SLICE_MAX
  }

  /** Record i. */
  method Take(c: Layout, h: seq<U8>, hevc: bool, slotMax: U32, i: nat, t: Sums) returns (v: Verdict, u: Sums)
    requires Wf(c) && (hevc ==> c.hdrLen.Some? && c.hdrIova.Some?)
    requires i < c.max && Inside(c, |h|, hevc, i) && After(Recs(c, h, hevc, 0), slotMax, i, t)
    ensures
      var rs := Recs(c, h, hevc, 0);
      match v
      case Done => i == |rs| && After(rs, slotMax, i, u)
      case Full => |rs| > SLICE_MAX && Sane(rs[..SLICE_MAX + 1], slotMax)
      case Bad => BadAt(rs, slotMax, i)
      case More => After(rs, slotMax, i + 1, u)
  {
    ghost var rs := Recs(c, h, hevc, 0);
    RecHere(c, h, hevc, i);
    var rec := RecAt(c, h, hevc, i);
    if rec.n == 0 {
      return Done, t;
    }
    var ok := Check(rec, t.written, slotMax);
    Judged(rs, slotMax, i, t.written, t.removed, t.hdrTotal, t.slices, ok);
    if !ok {
      return Bad, t;
    }
    if |t.slices| >= SLICE_MAX {
      return Full, t;
    }
    WalkOn(rs, slotMax, i, t.written, t.removed, t.hdrTotal, t.slices);
    return More, Sums(t.written + rec.n, t.removed + rec.trim, t.hdrTotal + rec.hdrLen,
                      t.slices + [Slice(t.written, rec.n - rec.trim, rec.hdrIova, rec.hdrLen)]);
  }

  /** The walk over the records, all in 32 bits; the running sums never leave them. */
  method Walk(c: Layout, h: seq<U8>, hevc: bool, slotMax: U32) returns (v: Verdict, t: Sums)
    requires Wf(c) && (hevc ==> c.hdrLen.Some? && c.hdrIova.Some?)
    ensures
      var rs := Recs(c, h, hevc, 0);
      match v
      case Done => After(rs, slotMax, |rs|, t) && t.removed <= t.written
      case Full => |rs| > SLICE_MAX && Sane(rs[..SLICE_MAX + 1], slotMax)
      case Bad => exists i :: BadAt(rs, slotMax, i)
      case More => false
  {
    ghost var rs := Recs(c, h, hevc, 0);
    v, t := More, Sums(0, 0, 0, []);
    var i: nat := 0;
    while i < c.max && Inside(c, |h|, hevc, i)
      invariant v == More && After(rs, slotMax, i, t)
      decreases c.max - i
    {
      v, t := Take(c, h, hevc, slotMax, i, t);
      if !v.More? {
        break;
      }
      i := i + 1;
    }
    if v.More? {
      RecHere(c, h, hevc, i);
      v := Done;
    }
    if v.Done? {
      RemovedLess(rs, slotMax, t);
    }
  }

  lemma {:induction false} RemovedLess(rs: seq<Rec>, slotMax: nat, t: Sums)
    requires After(rs, slotMax, |rs|, t)
    ensures t.removed <= t.written
  {
    assert rs[..|rs|] == rs;
    SumsStaySmall(rs, slotMax);
  }

  /** ave_cmd_coded_length_codec. Its last test, more removed than written, cannot fail: Walk leaves
      removed <= written. */
  method Decode(c: Layout, h: seq<U8>, codedSize: U32, hevc: bool, slotMax: U32) returns (r: Result)
    requires Wf(c)
    ensures r == Decoded(c, h, codedSize, hevc, slotMax)
  {
    if c.stride == 0 || |h| < c.minBytes || (hevc && (c.hdrLen.None? || c.hdrIova.None?)) {
      return Inval;
    }
    ghost var rs := Recs(c, h, hevc, 0);
    var v, t := Walk(c, h, hevc, slotMax);
    if v.Bad? {
      ghost var i :| BadAt(rs, slotMax, i);
      BadIsProto(c, h, codedSize, hevc, slotMax, i);
      return Proto;
    }
    if v.Full? {
      return TooBig;
    }
    assert rs[..|rs|] == rs;
    if codedSize > 0 && t.written > codedSize {
      return Proto;
    }
    return Ok(Info(t.written - t.removed + t.hdrTotal, t.written, t.removed, t.hdrTotal, Get(h, c.frameType, 4),
                   Get(h, c.frameNum, 4), Get(h, c.spsPpsBits, 4), CabacOf(c, h, hevc), t.slices));
  }

  lemma {:induction false} AddSlice(rs: seq<Rec>, slotMax: nat, i: nat)
    requires i < |rs| && Sane(rs[..i], slotMax) && Sane(rs[..i + 1], slotMax)
    ensures Slices(rs[..i + 1], slotMax)
         == Slices(rs[..i], slotMax) + [Slice(Written(rs[..i]), rs[i].n - rs[i].trim, rs[i].hdrIova, rs[i].hdrLen)]
  {
    forall j | 0 <= j <= i ensures rs[..i + 1][..j] == rs[..i][..j] {
    }
    assert rs[..i][..i] == rs[..i];
  }
}
