/** The live device tree parser of ave_adt.c on arbitrary bytes. Every read below is inside
    the buffer, and every walk ends: that is part of these definitions being accepted. */
module Adt {
  import opened Basics
  import opened LittleEndian

  datatype Result<+T> = Ok(value: T) | Inval | NoEnt

  const NAME_LEN: nat := 32
  const PROP_HDR: nat := 36
  const MAX_DEPTH: nat := 16
  const MAX_COUNT: nat := 4096
  const MAX_SEGS: nat := 4

  /** Where a property's value is. */
  datatype Val = Val(at: nat, len: nat)

  /** One segment-ranges entry. */
  datatype Seg = Seg(phys: nat, iova: nat, remap: nat, size: nat, flags: nat)

  datatype Encoder = Encoder(name: seq<U8>, reg0: nat, preloaded: bool, segs: seq<Seg>)

  function Bytes(s: string): seq<U8>
    requires forall i :: 0 <= i < |s| ==> s[i] as int < 128
  {
    seq(|s|, i requires 0 <= i < |s| => s[i] as int)
  }

  const NAME := Bytes("name")
  const ARM_IO := Bytes("arm-io")
  const ADDRESS_CELLS := Bytes("#address-cells")
  const SIZE_CELLS := Bytes("#size-cells")
  const RANGES := Bytes("ranges")
  const REG := Bytes("reg")
  const PRE_LOADED := Bytes("pre-loaded")
  const SEGMENT_RANGES := Bytes("segment-ranges")
  const AVE := Bytes("ave")

  /** n rounded up to whole words of four. */
  function Pad4(n: nat): (r: nat)
    ensures n <= r <= n + 3
  {
    if n == 0 then 0 else if n <= 4 then 4 else 4 + Pad4(n - 4)
  }

  lemma {:induction false} PadMasks(n: nat)
    ensures Pad4(n) == n + 3 - (n + 3) % 4
  {
    if n > 4 {
      PadMasks(n - 4);
    }
  }

  /** How many properties a node has, and how many children. */
  datatype Counted = Counted(props: nat, kids: nat)

  /** Where a node's children start, and how many there are. */
  datatype Family = Family(at: nat, count: nat)

  /** The counts of the node at off. */
  function Counts(b: seq<U8>, off: nat): Result<Counted> {
    if off > |b| || |b| - off < 8 then Inval
    else
      var np, nk := Get(b, off, 4), Get(b, off + 4, 4);
      if np > MAX_COUNT || nk > MAX_COUNT then Inval else Ok(Counted(np, nk))
  }

  /** The property at off: its value, if it is all there. */
  function PropAt(b: seq<U8>, off: nat): (r: Result<Val>)
    requires off <= |b|
    ensures r.Ok? ==> r.value.at == off + PROP_HDR && r.value.at + Pad4(r.value.len) <= |b|
  {
    if |b| - off < PROP_HDR then Inval
    else
      var sz := Get(b, off + NAME_LEN, 4) % 0x8000_0000;
      if Pad4(sz) > |b| - off - PROP_HDR then Inval else Ok(Val(off + PROP_HDR, sz))
  }

  function PropsEnd(b: seq<U8>, off: nat, np: nat): (r: Result<nat>)
    requires off <= |b|
    ensures r.Ok? ==> off <= r.value <= |b|
    decreases np
  {
    if np == 0 then Ok(off)
    else
      match PropAt(b, off)
      case Ok(v) => PropsEnd(b, v.at + Pad4(v.len), np - 1)
      case _ => Inval
  }

  /** strncmp(b + off, name, 32) == 0, for a name of its own that is shorter than 32. */
  predicate NameIs(b: seq<U8>, off: nat, name: seq<U8>)
    requires off + NAME_LEN <= |b|
  {
    |name| < NAME_LEN && b[off..off + |name|] == name && b[off + |name|] == 0
  }

  function FindProp(b: seq<U8>, off: nat, np: nat, name: seq<U8>): (r: Result<Val>)
    requires off <= |b|
    ensures r.Ok? ==> r.value.at + r.value.len <= |b|
    decreases np
  {
    if np == 0 then NoEnt
    else
      match PropAt(b, off)
      case Ok(v) => if NameIs(b, off, name) then Ok(v) else FindProp(b, v.at + Pad4(v.len), np - 1, name)
      case _ => Inval
  }

  /** adt_props without a name: the first child's offset and how many there are. */
  function Shape(b: seq<U8>, off: nat): (r: Result<Family>)
    ensures r.Ok? ==> off + 8 <= r.value.at <= |b| && r.value.count <= MAX_COUNT
  {
    match Counts(b, off)
    case Ok(n) =>
      (match PropsEnd(b, off + 8, n.props) case Ok(end) => Ok(Family(end, n.kids)) case _ => Inval)
    case _ => Inval
  }

  /** adt_props with one. */
  function Prop(b: seq<U8>, off: nat, name: seq<U8>): (r: Result<Val>)
    ensures r.Ok? ==> r.value.at + r.value.len <= |b|
  {
    match Counts(b, off)
    case Ok(n) => FindProp(b, off + 8, n.props, name)
    case _ => Inval
  }

  function Below(depth: nat): nat {
    if depth > MAX_DEPTH then 0 else MAX_DEPTH + 1 - depth
  }

  function NodeEnd(b: seq<U8>, off: nat, depth: nat): (r: Result<nat>)
    ensures !r.NoEnt?
    ensures r.Ok? ==> off + 8 <= r.value <= |b|
    decreases Below(depth), MAX_COUNT + 1
  {
    if depth > MAX_DEPTH then Inval
    else
      match Shape(b, off)
      case Ok(f) => KidsEnd(b, f.at, depth, f.count)
      case _ => Inval
  }

  function KidsEnd(b: seq<U8>, off: nat, depth: nat, n: nat): (r: Result<nat>)
    requires depth <= MAX_DEPTH && off <= |b| && n <= MAX_COUNT
    ensures !r.NoEnt?
    ensures r.Ok? ==> off <= r.value <= |b|
    decreases Below(depth), n
  {
    if n == 0 then Ok(off)
    else
      match NodeEnd(b, off, depth + 1)
      case Ok(next) => KidsEnd(b, next, depth, n - 1)
      case _ => Inval
  }

  /** How many nodes the walk at off gets to see: those whose eight bytes of counts are in the
      buffer. */
  function Visits(b: seq<U8>, off: nat, depth: nat): nat
    decreases Below(depth), MAX_COUNT + 1
  {
    if depth > MAX_DEPTH || off > |b| || |b| - off < 8 then 0
    else
      match Shape(b, off)
      case Ok(f) => 1 + KidVisits(b, f.at, depth, f.count)
      case _ => 1
  }

  function KidVisits(b: seq<U8>, off: nat, depth: nat, n: nat): nat
    requires depth <= MAX_DEPTH && off <= |b| && n <= MAX_COUNT
    decreases Below(depth), n
  {
    if n == 0 then 0
    else
      Visits(b, off, depth + 1)
      + match NodeEnd(b, off, depth + 1)
        case Ok(next) => KidVisits(b, next, depth, n - 1)
        case _ => 0
  }

  /** On any bytes at all, a walk sees at most one node for every eight bytes it covers. */
  lemma {:induction false} VisitsAreFew(b: seq<U8>, off: nat, depth: nat)
    requires off <= |b|
    ensures 8 * Visits(b, off, depth) <= |b| - off
    ensures NodeEnd(b, off, depth).Ok? ==> 8 * Visits(b, off, depth) <= NodeEnd(b, off, depth).value - off
    decreases Below(depth), MAX_COUNT + 1
  {
    if depth <= MAX_DEPTH {
      match Shape(b, off)
      case Ok(f) => KidVisitsAreFew(b, f.at, depth, f.count);
      case _ =>
    }
  }

  lemma {:induction false} KidVisitsAreFew(b: seq<U8>, off: nat, depth: nat, n: nat)
    requires depth <= MAX_DEPTH && off <= |b| && n <= MAX_COUNT
    ensures 8 * KidVisits(b, off, depth, n) <= |b| - off
    ensures KidsEnd(b, off, depth, n).Ok? ==>
      8 * KidVisits(b, off, depth, n) <= KidsEnd(b, off, depth, n).value - off
    decreases Below(depth), n
  {
    if n > 0 {
      VisitsAreFew(b, off, depth + 1);
      match NodeEnd(b, off, depth + 1)
      case Ok(next) => KidVisitsAreFew(b, next, depth, n - 1);
      case _ =>
    }
  }

  /** The bytes before the first NUL. */
  function CString(s: seq<U8>): (r: seq<U8>)
    ensures |r| <= |s|
  {
    if s == [] || s[0] == 0 then [] else [s[0]] + CString(s[1..])
  }

  /** The node's "name", cut to 31 bytes, as the C string it is compared as. */
  function NodeName(b: seq<U8>, off: nat): seq<U8> {
    match Prop(b, off, NAME)
    case Ok(v) => CString(b[v.at..v.at + if v.len > NAME_LEN - 1 then NAME_LEN - 1 else v.len])
    case _ => []
  }

  /** The first of the n nodes at off that p takes. A walk that needs each node's end before it
      looks at the node fails where one that does not would already have found it. */
  function Scan(b: seq<U8>, off: nat, depth: nat, n: nat, p: nat -> bool, endFirst: bool): (r: Result<nat>)
    requires off <= |b|
    ensures r.Ok? ==> r.value <= |b|
    decreases n
  {
    if n == 0 then NoEnt
    else if !endFirst && p(off) then Ok(off)
    else
      match NodeEnd(b, off, depth)
      case Ok(next) => if endFirst && p(off) then Ok(off) else Scan(b, next, depth, n - 1, p, endFirst)
      case _ => Inval
  }

  function Named(b: seq<U8>, name: seq<U8>): nat -> bool {
    (off: nat) => NodeName(b, off) == name
  }

  /** adt_child: the first child of that name. */
  function Child(b: seq<U8>, off: nat, depth: nat, name: seq<U8>): (r: Result<nat>)
    ensures r.Ok? ==> r.value <= |b|
  {
    match Shape(b, off)
    case Ok(f) => Scan(b, f.at, depth + 1, f.count, Named(b, name), false)
    case _ => Inval
  }

  function PropU32(b: seq<U8>, off: nat, name: seq<U8>, dflt: nat): nat {
    match Prop(b, off, name)
    case Ok(v) => if v.len < 4 then dflt else Get(b, v.at, 4)
    case _ => dflt
  }

  /** "ave", or "ave" and digits only. */
  predicate IsEncoderName(n: seq<U8>) {
    AVE <= n && forall i :: 3 <= i < |n| ==> 0x30 <= n[i] <= 0x39
  }

  /** A bus address through the ranges j.. of a "ranges" value v: the first that holds it. */
  function Translate(v: seq<U8>, j: nat, bus: nat): Option<nat>
    decreases |v| - 24 * j
  {
    if 24 * j + 24 > |v| then None
    else
      var c, p, s := Get(v, 24 * j, 8), Get(v, 24 * j + 8, 8), Get(v, 24 * j + 16, 8);
      if bus >= c && bus - c < s then Some((p + (bus - c)) % 0x1_0000_0000_0000_0000) else Translate(v, j + 1, bus)
  }

  /** The first n entries of a "segment-ranges" value. */
  function Segs(v: seq<U8>, n: nat): (r: seq<Seg>)
    requires 32 * n <= |v|
    ensures |r| == n
  {
    if n == 0 then []
    else
      var o := 32 * (n - 1);
      Segs(v, n - 1)
      + [Seg(Get(v, o, 8), Get(v, o + 8, 8), Get(v, o + 16, 8), Get(v, o + 24, 4), Get(v, o + 28, 4))]
  }

  function Value(b: seq<U8>, v: Val): seq<U8>
    requires v.at + v.len <= |b|
  {
    b[v.at..v.at + v.len]
  }

  /** Is the node at off an encoder whose first register bank is cpu? */
  predicate IsEncoder(b: seq<U8>, off: nat, ranges: seq<U8>, cpu: nat) {
    && IsEncoderName(NodeName(b, off))
    && match Prop(b, off, REG)
       case Ok(v) => v.len >= 16 && Translate(ranges, 0, Get(b, v.at, 8)) == Some(cpu)
       case _ => false
  }

  function Encoders(b: seq<U8>, ranges: seq<U8>, cpu: nat): nat -> bool {
    (off: nat) => IsEncoder(b, off, ranges, cpu)
  }

  function EncoderAt(b: seq<U8>, off: nat, cpu: nat): Result<Encoder> {
    var name, pre := NodeName(b, off), Prop(b, off, PRE_LOADED).Ok?;
    match Prop(b, off, SEGMENT_RANGES)
    case NoEnt => Ok(Encoder(name, cpu, pre, []))
    case Inval => Inval
    case Ok(v) =>
      if v.len % 32 != 0 || v.len / 32 > MAX_SEGS then Inval
      else Ok(Encoder(name, cpu, pre, Segs(Value(b, v), v.len / 32)))
  }

  /** The value of /arm-io's "ranges", once the cell counts on both sides of it are checked. */
  function RangesAt(b: seq<U8>, armio: nat): (r: Result<seq<U8>>)
    ensures !r.NoEnt?
    ensures r.Ok? ==> |r.value| % 24 == 0
  {
    if PropU32(b, 0, ADDRESS_CELLS, 0) != 2 || PropU32(b, armio, ADDRESS_CELLS, 0) != 2
       || PropU32(b, armio, SIZE_CELLS, 0) != 2 then Inval
    else
      match Prop(b, armio, RANGES)
      case Ok(r) => if r.len % 24 != 0 then Inval else Ok(Value(b, r))
      case _ => Inval
  }

  /** The first child of the node at off that p takes, as an encoder. */
  function Among(b: seq<U8>, off: nat, p: nat -> bool, cpu: nat): Result<Encoder> {
    match Shape(b, off)
    case Ok(f) =>
      (match Scan(b, f.at, 2, f.count, p, true)
       case Ok(node) => EncoderAt(b, node, cpu)
       case NoEnt => NoEnt
       case Inval => Inval)
    case _ => Inval
  }

  function FindEncoder(b: seq<U8>, cpu: nat): Result<Encoder> {
    if |b| < 8 then Inval
    else
      match Child(b, 0, 0, ARM_IO)
      case Inval => Inval
      case NoEnt => NoEnt
      case Ok(armio) =>
        match RangesAt(b, armio)
        case Ok(ranges) => Among(b, armio, Encoders(b, ranges, cpu), cpu)
        case _ => Inval
  }
}
