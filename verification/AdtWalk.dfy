/** The loops of ave_adt.c, advancing an offset through the buffer. */
module AdtWalk {
  import opened Basics
  import opened LittleEndian
  import opened Adt

  /** One turn of adt_props' loop: the property at off, if all of it is in the buffer. */
  method OneProp(b: seq<U8>, off: nat) returns (r: Result<Val>)
    requires off <= |b|
    ensures r == PropAt(b, off)
  {
    if |b| - off < PROP_HDR {
      return Inval;
    }
    var sz := Get(b, off + NAME_LEN, 4) % 0x8000_0000;
    var padded := sz + 3 - (sz + 3) % 4;
    PadMasks(sz);
    if padded > |b| - off - PROP_HDR {
      return Inval;
    }
    return Ok(Val(off + PROP_HDR, sz));
  }

  /** The node's two counts. */
  method ReadCounts(b: seq<U8>, start: nat) returns (r: Result<Counted>)
    ensures r == Counts(b, start)
  {
    if start > |b| || |b| - start < 8 {
      return Inval;
    }
    var np, nk := Get(b, start, 4), Get(b, start + 4, 4);
    if np > MAX_COUNT || nk > MAX_COUNT {
      return Inval;
    }
    return Ok(Counted(np, nk));
  }

  /** What adt_props returns. */
  datatype Walked = Failed | Missing | Found(val: Val) | Through(end: nat, nkids: nat)

  function WalkOf(b: seq<U8>, start: nat, name: Option<seq<U8>>): Walked {
    match name
    case Some(n) =>
      (match Prop(b, start, n) case Ok(v) => Found(v) case NoEnt => Missing case Inval => Failed)
    case None =>
      (match Shape(b, start) case Ok(f) => Through(f.at, f.count) case _ => Failed)
  }

  /** adt_props: with a name, that property; without, the node's first child and how many. */
  method Props(b: seq<U8>, start: nat, name: Option<seq<U8>>) returns (r: Walked)
    ensures r == WalkOf(b, start, name)
  {
    var n := ReadCounts(b, start);
    if !n.Ok? {
      return Failed;
    }
    var np, first := n.value.props, start + 8;
    var off := first;
    for i := 0 to np
      invariant first <= off <= |b|
      invariant name.None? ==> PropsEnd(b, first, np) == PropsEnd(b, off, np - i)
      invariant name.Some? ==> FindProp(b, first, np, name.value) == FindProp(b, off, np - i, name.value)
    {
      var p := OneProp(b, off);
      if !p.Ok? {
        return Failed;
      }
      if name.Some? && NameIs(b, off, name.value) {
        return Found(p.value);
      }
      off := p.value.at + Pad4(p.value.len);
    }
    return if name.Some? then Missing else Through(off, n.value.kids);
  }

  /** adt_node_end: the offset just past the whole subtree. */
  method SubtreeEnd(b: seq<U8>, start: nat, depth: nat) returns (r: Result<nat>)
    ensures r == NodeEnd(b, start, depth)
    decreases Below(depth)
  {
    if depth > MAX_DEPTH {
      return Inval;
    }
    var w := Props(b, start, None);
    if !w.Through? {
      return Inval;
    }
    var nk, first := w.nkids, w.end;
    var off := first;
    for i := 0 to nk
      invariant 0 <= off <= |b|
      invariant KidsEnd(b, first, depth, nk) == KidsEnd(b, off, depth, nk - i)
    {
      var e := SubtreeEnd(b, off, depth + 1);
      if !e.Ok? {
        return Inval;
      }
      off := e.value;
    }
    return Ok(off);
  }

  /** adt_name */
  method Name(b: seq<U8>, off: nat) returns (name: seq<U8>)
    ensures name == NodeName(b, off)
  {
    var w := Props(b, off, Some(NAME));
    if !w.Found? {
      return [];
    }
    var v := w.val;
    var n := v.len;
    if n > NAME_LEN - 1 {
      n := NAME_LEN - 1;
    }
    return CString(b[v.at..v.at + n]);
  }

  method ScanChildren(b: seq<U8>, first: nat, nk: nat, depth: nat, name: seq<U8>) returns (r: Result<nat>)
    requires first <= |b|
    ensures r == Scan(b, first, depth + 1, nk, Named(b, name), false)
  {
    var off := first;
    for i := 0 to nk
      invariant 0 <= off <= |b|
      invariant Scan(b, first, depth + 1, nk, Named(b, name), false)
             == Scan(b, off, depth + 1, nk - i, Named(b, name), false)
    {
      var cn := Name(b, off);
      if cn == name {
        return Ok(off);
      }
      var e := SubtreeEnd(b, off, depth + 1);
      if !e.Ok? {
        return Inval;
      }
      off := e.value;
    }
    return NoEnt;
  }

  /** adt_child */
  method FindChild(b: seq<U8>, start: nat, depth: nat, name: seq<U8>) returns (r: Result<nat>)
    ensures r == Child(b, start, depth, name)
  {
    var w := Props(b, start, None);
    if !w.Through? {
      return Inval;
    }
    r := ScanChildren(b, w.end, w.nkids, depth, name);
  }

  /** adt_u32 */
  method U32(b: seq<U8>, off: nat, name: seq<U8>, dflt: nat) returns (v: nat)
    ensures v == PropU32(b, off, name, dflt)
  {
    var w := Props(b, off, Some(name));
    if !w.Found? || w.val.len < 4 {
      return dflt;
    }
    return Get(b, w.val.at, 4);
  }

  /** The first register bank of the node at off as a CPU address. */
  method MapsTo(ranges: seq<U8>, bus: nat) returns (cpu: Option<nat>)
    requires |ranges| % 24 == 0
    ensures cpu == Translate(ranges, 0, bus)
  {
    var n := |ranges| / 24;
    for j := 0 to n
      invariant Translate(ranges, 0, bus) == Translate(ranges, j, bus)
    {
      var c, p, s := Get(ranges, 24 * j, 8), Get(ranges, 24 * j + 8, 8), Get(ranges, 24 * j + 16, 8);
      if bus >= c && bus - c < s {
        return Some((p + (bus - c)) % 0x1_0000_0000_0000_0000);
      }
    }
    return None;
  }

  method ReadSegs(e: seq<U8>) returns (segs: seq<Seg>)
    requires |e| % 32 == 0
    ensures segs == Segs(e, |e| / 32)
  {
    segs := [];
    for j := 0 to |e| / 32
      invariant segs == Segs(e, j)
    {
      var o := 32 * j;
      segs := segs + [Seg(Get(e, o, 8), Get(e, o + 8, 8), Get(e, o + 16, 8), Get(e, o + 24, 4), Get(e, o + 28, 4))];
    }
  }

  method ReadEncoder(b: seq<U8>, node: nat, name: seq<U8>, cpu: nat) returns (r: Result<Encoder>)
    requires name == NodeName(b, node)
    ensures r == EncoderAt(b, node, cpu)
  {
    var pre := Props(b, node, Some(PRE_LOADED));
    r := ReadSegments(b, node, name, cpu, pre.Found?);
  }

  /** The rest of it, once "pre-loaded" has been looked for. */
  method ReadSegments(b: seq<U8>, node: nat, name: seq<U8>, cpu: nat, pre: bool) returns (r: Result<Encoder>)
    requires name == NodeName(b, node) && pre == Prop(b, node, PRE_LOADED).Ok?
    ensures r == EncoderAt(b, node, cpu)
  {
    var w := Props(b, node, Some(SEGMENT_RANGES));
    if w.Missing? {
      return Ok(Encoder(name, cpu, pre, []));
    }
    if !w.Found? || w.val.len % 32 != 0 || w.val.len / 32 > MAX_SEGS {
      return Inval;
    }
    var segs := ReadSegs(Value(b, w.val));
    return Ok(Encoder(name, cpu, pre, segs));
  }

  /** One node of the loop over the children of /arm-io: skip it, or take it? */
  method Matches(b: seq<U8>, node: nat, name: seq<U8>, ranges: seq<U8>, cpu: nat) returns (m: bool)
    requires name == NodeName(b, node) && |ranges| % 24 == 0
    ensures m == IsEncoder(b, node, ranges, cpu)
  {
    if !IsEncoderName(name) {
      return false;
    }
    var w := Props(b, node, Some(REG));
    if !w.Found? || w.val.len < 16 {
      return false;
    }
    var at := MapsTo(ranges, Get(b, w.val.at, 8));
    return at == Some(cpu);
  }

  /** The loop over the children of /arm-io, up to the one taken. */
  method FirstEncoder(b: seq<U8>, first: nat, nk: nat, ranges: seq<U8>, cpu: nat) returns (r: Result<nat>)
    requires first <= |b| && |ranges| % 24 == 0
    ensures r == Scan(b, first, 2, nk, Encoders(b, ranges, cpu), true)
  {
    var off := first;
    ghost var p := Encoders(b, ranges, cpu);
    for i := 0 to nk
      invariant 0 <= off <= |b|
      invariant Scan(b, first, 2, nk, p, true) == Scan(b, off, 2, nk - i, p, true)
    {
      var node := off;
      var e := SubtreeEnd(b, node, 2);
      if !e.Ok? {
        return Inval;
      }
      off := e.value;
      var name := Name(b, node);
      var take := Matches(b, node, name, ranges, cpu);
      if take {
        return Ok(node);
      }
    }
    return NoEnt;
  }

  method FindAmong(b: seq<U8>, armio: nat, ranges: seq<U8>, cpu: nat) returns (r: Result<Encoder>)
    requires |ranges| % 24 == 0
    ensures r == Among(b, armio, Encoders(b, ranges, cpu), cpu)
  {
    var w := Props(b, armio, None);
    if !w.Through? {
      return Inval;
    }
    var node := FirstEncoder(b, w.end, w.nkids, ranges, cpu);
    if !node.Ok? {
      return if node.NoEnt? then NoEnt else Inval;
    }
    var name := Name(b, node.value);
    r := ReadEncoder(b, node.value, name, cpu);
  }

  method ReadRanges(b: seq<U8>, armio: nat) returns (r: Result<seq<U8>>)
    ensures r == RangesAt(b, armio)
  {
    var rootAddr := U32(b, 0, ADDRESS_CELLS, 0);
    var addr := U32(b, armio, ADDRESS_CELLS, 0);
    var size := U32(b, armio, SIZE_CELLS, 0);
    if rootAddr != 2 || addr != 2 || size != 2 {
      return Inval;
    }
    var w := Props(b, armio, Some(RANGES));
    if !w.Found? || w.val.len % 24 != 0 {
      return Inval;
    }
    return Ok(Value(b, w.val));
  }

  /** ave_adt_find_encoder */
  method Find(b: seq<U8>, cpu: nat) returns (r: Result<Encoder>)
    ensures r == FindEncoder(b, cpu)
  {
    if |b| < 8 {
      return Inval;
    }
    var a := FindChild(b, 0, 0, ARM_IO);
    if !a.Ok? {
      return if a.NoEnt? then NoEnt else Inval;
    }
    var ranges := ReadRanges(b, a.value);
    if !ranges.Ok? {
      return Inval;
    }
    r := FindAmong(b, a.value, ranges.value, cpu);
  }
}
