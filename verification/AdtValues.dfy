/** What the device tree's values mean: the printer is given address ranges, segments and names, and
    the parser has to give them back. Nothing here uses the parser's own reading of a value. */
module AdtValues {
  import opened Basics
  import opened LittleEndian
  import opened Adt
  import opened AdtPrint

  const WORD64: nat := 0x1_0000_0000_0000_0000

  lemma {:induction false} WideWidths()
    ensures Pow256(8) == WORD64 && Pow256(4) == 0x1_0000_0000
  {
    Widths();
    assert Pow256(6) == 0x1_0000_0000_0000;
  }

  // ---- ranges -------------------------------------------------------------------------

  /** size addresses from bus on the bus are those from cpu on. */
  datatype Range = Range(bus: nat, cpu: nat, size: nat)

  predicate WfRange(r: Range) {
    r.bus < WORD64 && r.cpu < WORD64 && r.size < WORD64
  }

  function RangeBytes(r: Range): (s: seq<U8>)
    ensures |s| == 24
  {
    Le(r.bus, 8) + Le(r.cpu, 8) + Le(r.size, 8)
  }

  function RangesBytes(rs: seq<Range>): (s: seq<U8>)
    ensures |s| == 24 * |rs|
  {
    if rs == [] then [] else RangeBytes(rs[0]) + RangesBytes(rs[1..])
  }

  function Covers(bus: nat): Range -> bool {
    (r: Range) => r.bus <= bus < r.bus + r.size
  }

  /** A bus address through the first range that holds it, in 64 bits; none if none does. */
  function MapsTo(rs: seq<Range>, bus: nat): Option<nat> {
    match First(rs, Covers(bus))
    case Some(r) => if r.bus <= bus then Some((r.cpu + (bus - r.bus)) % WORD64) else None
    case None => None
  }

  lemma {:induction false} RangeBytesAt(rs: seq<Range>, j: nat)
    requires j < |rs|
    ensures RangesBytes(rs)[24 * j..24 * j + 24] == RangeBytes(rs[j])
  {
    if j > 0 {
      RangeBytesAt(rs[1..], j - 1);
      assert RangesBytes(rs)[24 * j..24 * j + 24] == RangesBytes(rs[1..])[24 * (j - 1)..24 * (j - 1) + 24];
    }
  }

  lemma {:induction false} PartOf(b: seq<U8>, at: nat, s: seq<U8>, o: nat, w: nat)
    requires at + |s| <= |b| && b[at..at + |s|] == s && o + w <= |s|
    ensures b[at + o..at + o + w] == s[o..o + w]
  {
    var x, y := b[at + o..at + o + w], s[o..o + w];
    forall k | 0 <= k < w ensures x[k] == y[k] {
      assert x[k] == b[at + o + k] == b[at..at + |s|][o + k];
    }
  }

  /** Field o of record s at place at in the buffer. */
  lemma {:induction false} FieldOf(b: seq<U8>, at: nat, s: seq<U8>, o: nat, v: nat, w: nat)
    requires at + |s| <= |b| && b[at..at + |s|] == s && o + w <= |s| && s[o..o + w] == Le(v, w) && v < Pow256(w)
    ensures Get(b, at + o, w) == v
  {
    PartOf(b, at, s, o, w);
    LeReads(b, at + o, v, w);
  }

  lemma {:induction false} RangeFields(r: Range)
    ensures
      var s := RangeBytes(r);
      s[0..8] == Le(r.bus, 8) && s[8..16] == Le(r.cpu, 8) && s[16..24] == Le(r.size, 8)
  {
  }

  lemma {:induction false} RangeFieldsAt(v: seq<U8>, at: nat, r: Range, s: seq<U8>)
    requires WfRange(r) && |s| == 24 && at + 24 <= |v| && v[at..at + 24] == s
    requires s[0..8] == Le(r.bus, 8) && s[8..16] == Le(r.cpu, 8) && s[16..24] == Le(r.size, 8)
    ensures Get(v, at, 8) == r.bus && Get(v, at + 8, 8) == r.cpu && Get(v, at + 16, 8) == r.size
  {
    WideWidths();
    FieldOf(v, at, s, 0, r.bus, 8);
    FieldOf(v, at, s, 8, r.cpu, 8);
    FieldOf(v, at, s, 16, r.size, 8);
  }

  lemma {:induction false} RangeReads(rs: seq<Range>, j: nat)
    requires j < |rs| && WfRange(rs[j])
    ensures
      var v := RangesBytes(rs);
      Get(v, 24 * j, 8) == rs[j].bus && Get(v, 24 * j + 8, 8) == rs[j].cpu && Get(v, 24 * j + 16, 8) == rs[j].size
  {
    RangeBytesAt(rs, j);
    RangeFields(rs[j]);
    RangeFieldsAt(RangesBytes(rs), 24 * j, rs[j], RangeBytes(rs[j]));
  }

  lemma {:induction false} TranslatesFrom(rs: seq<Range>, j: nat, bus: nat)
    requires j <= |rs| && forall i :: 0 <= i < |rs| ==> WfRange(rs[i])
    ensures Translate(RangesBytes(rs), j, bus) == MapsTo(rs[j..], bus)
    decreases |rs| - j
  {
    if j < |rs| {
      RangeReads(rs, j);
      TranslatesFrom(rs, j + 1, bus);
      FirstOrLater(rs[j..], Covers(bus));
      assert rs[j..][0] == rs[j] && rs[j..][1..] == rs[j + 1..];
    }
  }

  /** The parser translates through printed ranges as the ranges say. */
  lemma {:induction false} Translates(rs: seq<Range>, bus: nat)
    requires forall i :: 0 <= i < |rs| ==> WfRange(rs[i])
    ensures Translate(RangesBytes(rs), 0, bus) == MapsTo(rs, bus)
  {
    TranslatesFrom(rs, 0, bus);
    assert rs[0..] == rs;
  }

  // ---- segments -----------------------------------------------------------------------

  predicate WfSeg(g: Seg) {
    g.phys < WORD64 && g.iova < WORD64 && g.remap < WORD64 && g.size < 0x1_0000_0000 && g.flags < 0x1_0000_0000
  }

  function SegBytes(g: Seg): (s: seq<U8>)
    ensures |s| == 32
  {
    Le(g.phys, 8) + Le(g.iova, 8) + Le(g.remap, 8) + Le(g.size, 4) + Le(g.flags, 4)
  }

  function SegsBytes(gs: seq<Seg>): (s: seq<U8>)
    ensures |s| == 32 * |gs|
  {
    if gs == [] then [] else SegBytes(gs[0]) + SegsBytes(gs[1..])
  }

  lemma {:induction false} SegBytesAt(gs: seq<Seg>, j: nat)
    requires j < |gs|
    ensures SegsBytes(gs)[32 * j..32 * j + 32] == SegBytes(gs[j])
  {
    if j > 0 {
      SegBytesAt(gs[1..], j - 1);
      assert SegsBytes(gs)[32 * j..32 * j + 32] == SegsBytes(gs[1..])[32 * (j - 1)..32 * (j - 1) + 32];
    }
  }

  lemma {:induction false} SegFields(g: Seg)
    ensures
      var s := SegBytes(g);
      && s[0..8] == Le(g.phys, 8) && s[8..16] == Le(g.iova, 8) && s[16..24] == Le(g.remap, 8)
      && s[24..28] == Le(g.size, 4) && s[28..32] == Le(g.flags, 4)
  {
  }

  lemma {:induction false} SegFieldsAt(v: seq<U8>, at: nat, g: Seg, s: seq<U8>)
    requires WfSeg(g) && |s| == 32 && at + 32 <= |v| && v[at..at + 32] == s
    requires s[0..8] == Le(g.phys, 8) && s[8..16] == Le(g.iova, 8) && s[16..24] == Le(g.remap, 8)
    requires s[24..28] == Le(g.size, 4) && s[28..32] == Le(g.flags, 4)
    ensures g == Seg(Get(v, at, 8), Get(v, at + 8, 8), Get(v, at + 16, 8), Get(v, at + 24, 4), Get(v, at + 28, 4))
  {
    WideWidths();
    FieldOf(v, at, s, 0, g.phys, 8);
    FieldOf(v, at, s, 8, g.iova, 8);
    FieldOf(v, at, s, 16, g.remap, 8);
    FieldOf(v, at, s, 24, g.size, 4);
    FieldOf(v, at, s, 28, g.flags, 4);
  }

  lemma {:induction false} SegReads(gs: seq<Seg>, j: nat)
    requires j < |gs| && WfSeg(gs[j])
    ensures
      var v, o := SegsBytes(gs), 32 * j;
      gs[j] == Seg(Get(v, o, 8), Get(v, o + 8, 8), Get(v, o + 16, 8), Get(v, o + 24, 4), Get(v, o + 28, 4))
  {
    SegBytesAt(gs, j);
    SegFields(gs[j]);
    SegFieldsAt(SegsBytes(gs), 32 * j, gs[j], SegBytes(gs[j]));
  }

  /** Printed segments are read back, in order, field by field. */
  lemma {:induction false} SegmentsComeBack(gs: seq<Seg>, n: nat)
    requires n <= |gs| && forall i :: 0 <= i < |gs| ==> WfSeg(gs[i])
    ensures Segs(SegsBytes(gs), n) == gs[..n]
  {
    if n > 0 {
      SegmentsComeBack(gs, n - 1);
      SegReads(gs, n - 1);
      assert gs[..n] == gs[..n - 1] + [gs[n - 1]];
    }
  }

  // ---- names --------------------------------------------------------------------------

  /** s as C code reads it. */
  predicate IsCString(s: seq<U8>, r: seq<U8>) {
    r <= s && 0 !in r && (|r| < |s| ==> s[|r|] == 0)
  }

  lemma {:induction false} CStringIs(s: seq<U8>)
    ensures IsCString(s, CString(s))
  {
    if s != [] && s[0] != 0 {
      CStringIs(s[1..]);
      assert CString(s) == [s[0]] + CString(s[1..]);
    }
  }

  lemma {:induction false} OneCString(s: seq<U8>, r: seq<U8>, t: seq<U8>)
    requires IsCString(s, r) && IsCString(s, t)
    ensures r == t
  {
    assert r == s[..|r|] && t == s[..|t|];
  }

  /** The node's "name", at most 31 bytes of it. */
  predicate HasName(n: Node, name: seq<U8>) {
    match Lookup(n, Bytes("name"))
    case Some(v) => IsCString(v[..if |v| < 31 then |v| else 31], name)
    case None => name == []
  }

  lemma {:induction false} NameIsIt(n: Node, name: seq<U8>)
    ensures HasName(n, name) <==> NameOf(n) == name
  {
    if Lookup(n, NAME).Some? {
      var v := Lookup(n, NAME).value;
      var s := v[..if |v| < 31 then |v| else 31];
      CStringIs(s);
      if IsCString(s, name) {
        OneCString(s, name, CString(s));
      }
    }
  }

  predicate Digits(ds: string) {
    forall i :: 0 <= i < |ds| ==> ds[i] in "0123456789"
  }

  lemma {:induction false} DigitBytes(c: char)
    ensures c in "0123456789" <==> 0x30 <= c as int <= 0x39
  {
    if c in "0123456789" {
      var i :| 0 <= i < 10 && "0123456789"[i] == c;
    }
  }

  /** "ave", and nothing or an instance number. */
  ghost predicate AveName(n: seq<U8>) {
    exists ds: string :: Digits(ds) && IsAve(n, ds)
  }

  predicate IsAve(n: seq<U8>, ds: string) {
    |n| == 3 + |ds| && n[..3] == Bytes("ave") && forall i :: 0 <= i < |ds| ==> n[3 + i] == ds[i] as int
  }

  lemma {:induction false} EncoderNames(n: seq<U8>)
    ensures IsEncoderName(n) <==> AveName(n)
  {
    if IsEncoderName(n) {
      var ds := seq(|n| - 3, i requires 0 <= i < |n| - 3 => n[3 + i] as char);
      forall i | 0 <= i < |ds| ensures ds[i] in "0123456789" {
        DigitBytes(ds[i]);
      }
      assert IsAve(n, ds);
    }
    if AveName(n) {
      var ds: string :| Digits(ds) && IsAve(n, ds);
      forall i | 3 <= i < |n| ensures 0x30 <= n[i] <= 0x39 {
        DigitBytes(ds[i - 3]);
        assert n[3 + (i - 3)] == ds[i - 3] as int;
      }
    }
  }

  // ---- the whole search ---------------------------------------------------------------

  /** The first register bank's bus address; a bank takes sixteen bytes. */
  predicate HasReg(n: Node, bus: nat) {
    match Lookup(n, Bytes("reg"))
    case Some(v) => |v| >= 16 && v[..8] == Le(bus, 8) && bus < WORD64
    case None => false
  }

  predicate TwoCells(n: Node, name: seq<U8>) {
    match Lookup(n, name)
    case Some(v) => |v| >= 4 && v[..4] == [2, 0, 0, 0]
    case None => false
  }

  /** An encoder whose registers the CPU sees at cpu. */
  ghost predicate IsTheEncoder(n: Node, rs: seq<Range>, cpu: nat) {
    exists name, bus: nat :: HasName(n, name) && AveName(name) && HasReg(n, bus) && MapsTo(rs, bus) == Some(cpu)
  }

  lemma {:induction false} GetIsLe(b: seq<U8>, off: nat, w: nat)
    requires off + w <= |b|
    ensures Get(b, off, w) < Pow256(w) && b[off..off + w] == Le(Get(b, off, w), w)
    decreases w
  {
    if w > 0 {
      GetIsLe(b, off + 1, w - 1);
      LowByte(b[off], Get(b, off + 1, w - 1));
      assert b[off..off + w] == [b[off]] + b[off + 1..off + w];
    }
  }

  lemma {:induction false} LowByte(c: U8, y: nat)
    ensures (c + 256 * y) % 256 == c && (c + 256 * y) / 256 == y
  {
  }

  lemma {:induction false} RegIs(n: Node, bus: nat)
    ensures HasReg(n, bus) <==> Lookup(n, REG).Some? && |Lookup(n, REG).value| >= 16 && Get(Lookup(n, REG).value, 0, 8) == bus
  {
    WideWidths();
    if Lookup(n, REG).Some? && |Lookup(n, REG).value| >= 16 {
      var v := Lookup(n, REG).value;
      GetIsLe(v, 0, 8);
      if HasReg(n, bus) {
        LeReads(v, 0, bus, 8);
      }
    }
  }

  lemma {:induction false} CellsAre(n: Node, name: seq<U8>)
    ensures CellsOf(n, name) == 2 <==> TwoCells(n, name)
  {
    if Lookup(n, name).Some? && |Lookup(n, name).value| >= 4 {
      var v := Lookup(n, name).value;
      GetIsLe(v, 0, 4);
      Widths();
      TwoIsLe();
      if v[..4] == [2, 0, 0, 0] {
        LeReads(v, 0, 2, 4);
      }
    }
  }

  lemma {:induction false} TwoIsLe()
    ensures Le(2, 4) == [2, 0, 0, 0]
  {
    assert Le(0, 2) == [0] + Le(0, 1) == [0, 0];
    assert Le(0, 3) == [0] + Le(0, 2) == [0, 0, 0];
    assert Le(2, 4) == [2] + Le(0, 3);
  }

  lemma {:induction false} EncoderIs(n: Node, rs: seq<Range>, cpu: nat)
    requires forall i :: 0 <= i < |rs| ==> WfRange(rs[i])
    ensures EncoderWith(RangesBytes(rs), cpu)(n) <==> IsTheEncoder(n, rs, cpu)
  {
    var name := NameOf(n);
    NameIsIt(n, name);
    EncoderNames(name);
    if Lookup(n, REG).Some? && |Lookup(n, REG).value| >= 16 {
      var bus := Get(Lookup(n, REG).value, 0, 8);
      RegIs(n, bus);
      Translates(rs, bus);
    }
    forall nm: seq<U8>, bus: nat | HasName(n, nm) && HasReg(n, bus)
      ensures nm == name && Lookup(n, REG).Some? && |Lookup(n, REG).value| >= 16 && bus == Get(Lookup(n, REG).value, 0, 8)
    {
      NameIsIt(n, nm);
      RegIs(n, bus);
    }
  }

  /** Child a of the root is the first "arm-io", with two cells for addresses and sizes on both sides,
      and these ranges. */
  ghost predicate HasRanges(root: Node, a: nat, rs: seq<Range>) {
    && a < |root.kids| && HasName(root.kids[a], Bytes("arm-io"))
    && (forall i :: 0 <= i < a ==> !HasName(root.kids[i], Bytes("arm-io")))
    && TwoCells(root, Bytes("#address-cells"))
    && TwoCells(root.kids[a], Bytes("#address-cells")) && TwoCells(root.kids[a], Bytes("#size-cells"))
    && Lookup(root.kids[a], Bytes("ranges")) == Some(RangesBytes(rs))
    && forall i :: 0 <= i < |rs| ==> WfRange(rs[i])
  }

  lemma {:induction false} ArmIoIs(root: Node, a: nat, rs: seq<Range>)
    requires HasRanges(root, a, rs)
    ensures First(root.kids, Naming(ARM_IO)) == Some(root.kids[a])
    ensures RangesIn(root, root.kids[a]) == Ok(RangesBytes(rs))
  {
    forall i | 0 <= i <= a ensures Naming(ARM_IO)(root.kids[i]) <==> i == a {
      NameIsIt(root.kids[i], ARM_IO);
    }
    FirstAt(root.kids, Naming(ARM_IO), a);
    CellsAreTwo(root, root.kids[a]);
  }

  lemma {:induction false} CellsAreTwo(root: Node, io: Node)
    requires TwoCells(root, Bytes("#address-cells")) && TwoCells(io, Bytes("#address-cells")) && TwoCells(io, Bytes("#size-cells"))
    ensures CellsOf(root, ADDRESS_CELLS) == CellsOf(io, ADDRESS_CELLS) == CellsOf(io, SIZE_CELLS) == 2
  {
    CellsAre(root, ADDRESS_CELLS);
    CellsAre(io, ADDRESS_CELLS);
    CellsAre(io, SIZE_CELLS);
  }

  /** Child k is the first encoder at cpu. */
  ghost predicate FoundAt(io: Node, rs: seq<Range>, cpu: nat, k: nat) {
    && k < |io.kids| && IsTheEncoder(io.kids[k], rs, cpu)
    && forall i :: 0 <= i < k ==> !IsTheEncoder(io.kids[i], rs, cpu)
  }

  /** The search comes down to that child, or to none. */
  lemma {:induction false} SearchMeans(root: Node, cpu: nat, a: nat, rs: seq<Range>)
    requires Wf(root) && Fits(root, MAX_DEPTH) && HasRanges(root, a, rs)
    ensures
      var io, r := root.kids[a], FindEncoder(Print(root), cpu);
      && (forall k: nat :: FoundAt(io, rs, cpu, k) ==> r == EncoderOf(io.kids[k], cpu))
      && ((forall i :: 0 <= i < |io.kids| ==> !IsTheEncoder(io.kids[i], rs, cpu)) ==> r == NoEnt)
  {
    FindAgrees(root, cpu);
    ArmIoIs(root, a, rs);
    var io, q := root.kids[a], EncoderWith(RangesBytes(rs), cpu);
    forall i | 0 <= i < |io.kids| ensures q(io.kids[i]) <==> IsTheEncoder(io.kids[i], rs, cpu) {
      EncoderIs(io.kids[i], rs, cpu);
    }
    forall k: nat | FoundAt(io, rs, cpu, k) ensures First(io.kids, q) == Some(io.kids[k]) {
      FirstAt(io.kids, q, k);
    }
    FirstIsFirst(io.kids, q);
  }

  lemma {:induction false} EncoderOfIs(n: Node, cpu: nat, name: seq<U8>, gs: seq<Seg>)
    requires HasName(n, name) && |gs| <= 4 && forall i :: 0 <= i < |gs| ==> WfSeg(gs[i])
    requires
      var v := Lookup(n, Bytes("segment-ranges"));
      v == Some(SegsBytes(gs)) || (v == None && gs == [])
    ensures EncoderOf(n, cpu) == Ok(Encoder(name, cpu, Lookup(n, Bytes("pre-loaded")).Some?, gs))
  {
    NameIsIt(n, name);
    SegmentsComeBack(gs, |gs|);
    assert gs[..|gs|] == gs;
  }

  /** In a printed tree the encoder found at an address is the first one there, with its name, its
      segments as they were printed, and whether it has the property "pre-loaded". */
  lemma {:induction false} FindsWhatWasPrinted(root: Node, cpu: nat, a: nat, rs: seq<Range>, k: nat, name: seq<U8>, gs: seq<Seg>)
    requires Wf(root) && Fits(root, MAX_DEPTH) && HasRanges(root, a, rs) && FoundAt(root.kids[a], rs, cpu, k)
    requires HasName(root.kids[a].kids[k], name) && |gs| <= 4 && forall i :: 0 <= i < |gs| ==> WfSeg(gs[i])
    requires
      var v := Lookup(root.kids[a].kids[k], Bytes("segment-ranges"));
      v == Some(SegsBytes(gs)) || (v == None && gs == [])
    ensures FindEncoder(Print(root), cpu)
         == Ok(Encoder(name, cpu, Lookup(root.kids[a].kids[k], Bytes("pre-loaded")).Some?, gs))
  {
    SearchMeans(root, cpu, a, rs);
    EncoderOfIs(root.kids[a].kids[k], cpu, name, gs);
  }

  /** Not whole segments, or more than four. */
  predicate BadSegments(n: Node) {
    match Lookup(n, Bytes("segment-ranges"))
    case Some(v) => |v| % 32 != 0 || |v| > 128
    case None => false
  }

  ghost predicate NoneAt(io: Node, rs: seq<Range>, cpu: nat) {
    forall i :: 0 <= i < |io.kids| ==> !IsTheEncoder(io.kids[i], rs, cpu)
  }

  ghost predicate BadAt(io: Node, rs: seq<Range>, cpu: nat) {
    exists k: nat :: FoundAt(io, rs, cpu, k) && BadSegments(io.kids[k])
  }

  /** With the ranges in order nothing is found exactly if no encoder is at that address, and the tree is
      refused exactly if the first one's segments are not a list of at most four. */
  lemma {:induction false} FindsNothing(root: Node, cpu: nat, a: nat, rs: seq<Range>)
    requires Wf(root) && Fits(root, MAX_DEPTH) && HasRanges(root, a, rs)
    ensures FindEncoder(Print(root), cpu) == NoEnt <==> NoneAt(root.kids[a], rs, cpu)
    ensures FindEncoder(Print(root), cpu) == Inval <==> BadAt(root.kids[a], rs, cpu)
  {
    SearchMeans(root, cpu, a, rs);
    Verdicts(root.kids[a], rs, cpu, FindEncoder(Print(root), cpu));
  }

  lemma {:induction false} Verdicts(io: Node, rs: seq<Range>, cpu: nat, r: Result<Encoder>)
    requires forall k: nat :: FoundAt(io, rs, cpu, k) ==> r == EncoderOf(io.kids[k], cpu)
    requires NoneAt(io, rs, cpu) ==> r == NoEnt
    ensures r == NoEnt <==> NoneAt(io, rs, cpu)
    ensures r == Inval <==> BadAt(io, rs, cpu)
  {
    if !NoneAt(io, rs, cpu) {
      var k := FirstOne(io, rs, cpu, |io.kids|);
      assert r == EncoderOf(io.kids[k], cpu);
      forall m: nat | FoundAt(io, rs, cpu, m) ensures m == k {
      }
      assert r == Inval <==> BadSegments(io.kids[k]);
    }
  }

  lemma {:induction false} FirstOne(io: Node, rs: seq<Range>, cpu: nat, n: nat) returns (k: nat)
    requires n <= |io.kids| && exists i :: 0 <= i < n && IsTheEncoder(io.kids[i], rs, cpu)
    ensures FoundAt(io, rs, cpu, k)
  {
    if exists i :: 0 <= i < n - 1 && IsTheEncoder(io.kids[i], rs, cpu) {
      k := FirstOne(io, rs, cpu, n - 1);
    } else {
      k := n - 1;
    }
  }

  /** The cells or the ranges are not as they should be. */
  predicate BadRanges(root: Node, io: Node) {
    || !TwoCells(root, Bytes("#address-cells"))
    || !TwoCells(io, Bytes("#address-cells")) || !TwoCells(io, Bytes("#size-cells"))
    || match Lookup(io, Bytes("ranges"))
       case Some(v) => |v| % 24 != 0
       case None => true
  }

  lemma {:induction false} SearchNeeds(root: Node, cpu: nat, a: nat)
    requires a <= |root.kids| && forall i :: 0 <= i < a ==> !HasName(root.kids[i], Bytes("arm-io"))
    ensures a == |root.kids| ==> Search(root, cpu) == NoEnt
    ensures a < |root.kids| && HasName(root.kids[a], Bytes("arm-io")) && BadRanges(root, root.kids[a]) ==>
      Search(root, cpu) == Inval
  {
    forall i | 0 <= i < |root.kids| ensures Naming(ARM_IO)(root.kids[i]) <==> HasName(root.kids[i], Bytes("arm-io")) {
      NameIsIt(root.kids[i], ARM_IO);
    }
    if a == |root.kids| {
      FirstIsFirst(root.kids, Naming(ARM_IO));
    } else if HasName(root.kids[a], Bytes("arm-io")) {
      FirstAt(root.kids, Naming(ARM_IO), a);
      CellsAre(root, ADDRESS_CELLS);
      CellsAre(root.kids[a], ADDRESS_CELLS);
      CellsAre(root.kids[a], SIZE_CELLS);
    }
  }

  /** Without an "arm-io" nothing is found; one without proper cells or ranges is refused. */
  lemma {:induction false} NeedsRanges(root: Node, cpu: nat, a: nat)
    requires Wf(root) && Fits(root, MAX_DEPTH)
    requires a <= |root.kids| && forall i :: 0 <= i < a ==> !HasName(root.kids[i], Bytes("arm-io"))
    ensures a == |root.kids| ==> FindEncoder(Print(root), cpu) == NoEnt
    ensures a < |root.kids| && HasName(root.kids[a], Bytes("arm-io")) && BadRanges(root, root.kids[a]) ==>
      FindEncoder(Print(root), cpu) == Inval
  {
    FindAgrees(root, cpu);
    SearchNeeds(root, cpu, a);
  }
}
