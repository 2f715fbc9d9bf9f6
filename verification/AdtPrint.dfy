/** The device tree format as a printer, and the parser as its reader: on a printed tree, every
    walk of Adt returns what a search over the tree itself returns. */
module AdtPrint {
  import opened Basics
  import opened LittleEndian
  import opened Adt

  datatype Property = Property(name: seq<U8>, flag: bool, value: seq<U8>)
  datatype Node = Node(props: seq<Property>, kids: seq<Node>)

  function Zeros(n: nat): (s: seq<U8>)
    ensures |s| == n
  {
    seq(n, _ => 0)
  }

  function PrintProp(p: Property): (s: seq<U8>)
    requires WfProp(p)
    ensures |s| == PROP_HDR + Pad4(|p.value|)
  {
    p.name + Zeros(NAME_LEN - |p.name|)
    + Le(|p.value| + if p.flag then 0x8000_0000 else 0, 4)
    + p.value + Zeros(Pad4(|p.value|) - |p.value|)
  }

  function PrintProps(ps: seq<Property>): seq<U8>
    requires WfProps(ps)
  {
    if ps == [] then [] else PrintProp(ps[0]) + PrintProps(ps[1..])
  }

  function Print(n: Node): (s: seq<U8>)
    requires Wf(n)
    ensures |s| >= 8
  {
    Le(|n.props|, 4) + Le(|n.kids|, 4) + PrintProps(n.props) + PrintKids(n.kids)
  }

  function PrintKids(ks: seq<Node>): seq<U8>
    requires WfKids(ks)
  {
    if ks == [] then [] else Print(ks[0]) + PrintKids(ks[1..])
  }

  /** A name is what fits its field, up to the first NUL; a size is 31 bits. */
  predicate WfProp(p: Property) {
    |p.name| <= NAME_LEN && 0 !in p.name && |p.value| < 0x8000_0000
  }

  predicate WfProps(ps: seq<Property>) {
    forall i :: 0 <= i < |ps| ==> WfProp(ps[i])
  }

  predicate Wf(n: Node) {
    |n.props| <= MAX_COUNT && |n.kids| <= MAX_COUNT && WfProps(n.props) && WfKids(n.kids)
  }

  predicate WfKids(ks: seq<Node>) {
    forall i :: 0 <= i < |ks| ==> Wf(ks[i])
  }

  /** No path down from n is longer than h. */
  predicate Fits(n: Node, h: int)
    decreases n
  {
    h >= 0 && forall i :: 0 <= i < |n.kids| ==> Fits(n.kids[i], h - 1)
  }

  predicate KidsFit(ks: seq<Node>, h: int) {
    forall i :: 0 <= i < |ks| ==> Fits(ks[i], h)
  }

  function PropSize(p: Property): nat {
    PROP_HDR + Pad4(|p.value|)
  }

  function PropsSize(ps: seq<Property>): nat {
    if ps == [] then 0 else PropSize(ps[0]) + PropsSize(ps[1..])
  }

  function Size(n: Node): nat {
    8 + PropsSize(n.props) + KidsSize(n.kids)
  }

  function KidsSize(ks: seq<Node>): nat {
    if ks == [] then 0 else Size(ks[0]) + KidsSize(ks[1..])
  }

  // The search over the tree

  function First<T>(s: seq<T>, p: T -> bool): Option<T> {
    if s == [] then None else if p(s[0]) then Some(s[0]) else First(s[1..], p)
  }

  predicate IsFirst<T>(s: seq<T>, p: T -> bool, i: int) {
    0 <= i < |s| && p(s[i]) && forall j :: 0 <= j < i ==> !p(s[j])
  }

  lemma {:induction false} FirstIsFirst<T>(s: seq<T>, p: T -> bool)
    ensures First(s, p).Some? ==> exists i :: IsFirst(s, p, i) && s[i] == First(s, p).value
    ensures First(s, p).None? ==> forall i :: 0 <= i < |s| ==> !p(s[i])
  {
    if s != [] && p(s[0]) {
      assert IsFirst(s, p, 0);
    } else if s != [] {
      var t := s[1..];
      FirstIsFirst(t, p);
      if First(t, p).Some? {
        var i :| IsFirst(t, p, i) && t[i] == First(t, p).value;
        assert forall j :: 0 < j < |s| ==> s[j] == t[j - 1];
        assert IsFirst(s, p, i + 1);
      } else {
        assert forall j :: 0 < j < |s| ==> s[j] == t[j - 1];
      }
    }
  }

  lemma {:induction false} FirstAt<T>(s: seq<T>, p: T -> bool, i: nat)
    requires IsFirst(s, p, i)
    ensures First(s, p) == Some(s[i])
  {
    if i > 0 {
      FirstAt(s[1..], p, i - 1);
    }
  }

  function Called(name: seq<U8>): Property -> bool {
    (p: Property) => p.name == name
  }

  function ValueOf(p: Option<Property>): Option<seq<U8>> {
    match p
    case Some(p) => Some(p.value)
    case None => None
  }

  /** The value of the node's first property of that name. */
  function Lookup(n: Node, name: seq<U8>): Option<seq<U8>> {
    ValueOf(First(n.props, Called(name)))
  }

  function NameOf(n: Node): seq<U8> {
    match Lookup(n, NAME)
    case Some(v) => CString(v[..if |v| > NAME_LEN - 1 then NAME_LEN - 1 else |v|])
    case None => []
  }

  function CellsOf(n: Node, name: seq<U8>): nat {
    match Lookup(n, name)
    case Some(v) => if |v| < 4 then 0 else Get(v, 0, 4)
    case None => 0
  }

  function Naming(name: seq<U8>): Node -> bool {
    (n: Node) => NameOf(n) == name
  }

  function EncoderWith(ranges: seq<U8>, cpu: nat): Node -> bool {
    (n: Node) =>
      && IsEncoderName(NameOf(n))
      && match Lookup(n, REG)
         case Some(v) => |v| >= 16 && Translate(ranges, 0, Get(v, 0, 8)) == Some(cpu)
         case None => false
  }

  function EncoderOf(n: Node, cpu: nat): Result<Encoder> {
    var e := Encoder(NameOf(n), cpu, Lookup(n, PRE_LOADED).Some?, []);
    match Lookup(n, SEGMENT_RANGES)
    case None => Ok(e)
    case Some(v) =>
      if |v| % 32 != 0 || |v| / 32 > MAX_SEGS then Inval else Ok(e.(segs := Segs(v, |v| / 32)))
  }

  function Chosen(n: Option<Node>, cpu: nat): Result<Encoder> {
    match n
    case None => NoEnt
    case Some(n) => EncoderOf(n, cpu)
  }

  function RangesIn(root: Node, io: Node): Result<seq<U8>> {
    if CellsOf(root, ADDRESS_CELLS) != 2 || CellsOf(io, ADDRESS_CELLS) != 2 || CellsOf(io, SIZE_CELLS) != 2
    then Inval
    else
      match Lookup(io, RANGES)
      case None => Inval
      case Some(ranges) => if |ranges| % 24 != 0 then Inval else Ok(ranges)
  }

  /** The first encoder with its first register bank at cpu among the children of the root's first
      child named "arm-io". */
  function Search(root: Node, cpu: nat): Result<Encoder> {
    match First(root.kids, Naming(ARM_IO))
    case None => NoEnt
    case Some(io) =>
      match RangesIn(root, io)
      case Ok(ranges) => Chosen(First(io.kids, EncoderWith(ranges, cpu)), cpu)
      case _ => Inval
  }

  /** What a name looked for must be: shorter than the field, and a C string. */
  predicate Fixed(name: seq<U8>) {
    |name| < NAME_LEN && 0 !in name
  }

  lemma {:induction false} FixedNames()
    ensures Fixed(NAME) && Fixed(ADDRESS_CELLS) && Fixed(SIZE_CELLS) && Fixed(RANGES)
    ensures Fixed(REG) && Fixed(PRE_LOADED) && Fixed(SEGMENT_RANGES)
  {
  }

  // The tree in the bytes, field by field

  predicate PropHolds(b: seq<U8>, off: nat, p: Property) {
    && |p.name| <= NAME_LEN && off + PropSize(p) <= |b|
    && b[off..off + |p.name|] == p.name && (|p.name| < NAME_LEN ==> b[off + |p.name|] == 0)
    && Get(b, off + NAME_LEN, 4) % 0x8000_0000 == |p.value|
    && Value(b, Val(off + PROP_HDR, |p.value|)) == p.value
  }

  predicate PropsHold(b: seq<U8>, off: nat, ps: seq<Property>)
    decreases |ps|
  {
    if ps == [] then off <= |b| else PropHolds(b, off, ps[0]) && PropsHold(b, off + PropSize(ps[0]), ps[1..])
  }

  predicate NodeHolds(b: seq<U8>, off: nat, n: Node)
    decreases n
  {
    && off + 8 <= |b|
    && Get(b, off, 4) == |n.props| && Get(b, off + 4, 4) == |n.kids|
    && PropsHold(b, off + 8, n.props)
    && KidsHold(b, off + 8 + PropsSize(n.props), n.kids)
  }

  predicate KidsHold(b: seq<U8>, off: nat, ks: seq<Node>)
    decreases ks
  {
    if ks == [] then off <= |b| else NodeHolds(b, off, ks[0]) && KidsHold(b, off + Size(ks[0]), ks[1..])
  }

  // What is printed is held

  predicate At(b: seq<U8>, off: nat, s: seq<U8>) {
    off <= |b| && s <= b[off..]
  }

  lemma {:induction false} AtSlice(b: seq<U8>, off: nat, s: seq<U8>)
    ensures At(b, off, s) <==> off + |s| <= |b| && b[off..off + |s|] == s
  {
    if At(b, off, s) {
      assert b[off..off + |s|] == b[off..][..|s|];
    }
    if off + |s| <= |b| && b[off..off + |s|] == s {
      assert b[off..] == s + b[off + |s|..];
    }
  }

  lemma {:induction false} AtSplit(b: seq<U8>, off: nat, s: seq<U8>, t: seq<U8>)
    requires At(b, off, s + t)
    ensures At(b, off, s) && At(b, off + |s|, t)
  {
    AtSlice(b, off, s + t);
    AtSlice(b, off, s);
    AtSlice(b, off + |s|, t);
    assert s == (s + t)[..|s|];
    assert t == (s + t)[|s|..];
  }

  lemma {:induction false} NameAt(b: seq<U8>, off: nat, name: seq<U8>, k: nat)
    requires At(b, off, name + Zeros(k))
    ensures b[off..off + |name|] == name && (k > 0 ==> b[off + |name|] == 0)
  {
    AtSplit(b, off, name, Zeros(k));
    AtSlice(b, off, name);
    AtSlice(b, off + |name|, Zeros(k));
    assert k > 0 ==> b[off + |name|..off + |name| + k][0] == 0;
  }

  lemma {:induction false} SizeAt(b: seq<U8>, off: nat, w: nat)
    requires w < TWO32 && At(b, off, Le(w, 4))
    ensures Get(b, off, 4) == w
  {
    Widths();
    AtSlice(b, off, Le(w, 4));
    LeReads(b, off, w, 4);
  }

  lemma {:induction false} FourAt(b: seq<U8>, off: nat, s: seq<U8>, t: seq<U8>, u: seq<U8>, v: seq<U8>)
    requires At(b, off, s + t + u + v)
    ensures At(b, off, s) && At(b, off + |s|, t) && At(b, off + |s| + |t|, u) && At(b, off + |s| + |t| + |u|, v)
  {
    AtSplit(b, off, s + t + u, v);
    AtSplit(b, off, s + t, u);
    AtSplit(b, off, s, t);
  }

  lemma {:induction false} FieldsFollow(b: seq<U8>, off: nat, p: Property, w: nat)
    requires |p.name| <= NAME_LEN && off + PropSize(p) <= |b|
    requires b[off..off + |p.name|] == p.name && (NAME_LEN - |p.name| > 0 ==> b[off + |p.name|] == 0)
    requires Get(b, off + NAME_LEN, 4) == w && w == |p.value| + (if p.flag then 0x8000_0000 else 0)
    requires |p.value| < 0x8000_0000 && At(b, off + PROP_HDR, p.value)
    ensures PropHolds(b, off, p)
  {
    AtSlice(b, off + PROP_HDR, p.value);
  }

  lemma {:induction false} PrintedProp(b: seq<U8>, off: nat, p: Property)
    requires WfProp(p) && At(b, off, PrintProp(p))
    ensures PropHolds(b, off, p)
  {
    var name := p.name + Zeros(NAME_LEN - |p.name|);
    var w := |p.value| + if p.flag then 0x8000_0000 else 0;
    FourAt(b, off, name, Le(w, 4), p.value, Zeros(Pad4(|p.value|) - |p.value|));
    NameAt(b, off, p.name, NAME_LEN - |p.name|);
    SizeAt(b, off + NAME_LEN, w);
    FieldsFollow(b, off, p, w);
  }

  lemma {:induction false} PropsPrintSize(ps: seq<Property>)
    requires WfProps(ps)
    ensures |PrintProps(ps)| == PropsSize(ps)
    decreases |ps|
  {
    if ps != [] {
      PropsPrintSize(ps[1..]);
    }
  }

  lemma {:induction false} PrintSize(n: Node)
    requires Wf(n)
    ensures |Print(n)| == Size(n)
    decreases n
  {
    PropsPrintSize(n.props);
    KidsPrintSize(n.kids);
  }

  lemma {:induction false} KidsPrintSize(ks: seq<Node>)
    requires WfKids(ks)
    ensures |PrintKids(ks)| == KidsSize(ks)
    decreases ks
  {
    if ks != [] {
      PrintSize(ks[0]);
      KidsPrintSize(ks[1..]);
    }
  }

  lemma {:induction false} FirstPropAt(b: seq<U8>, off: nat, ps: seq<Property>)
    requires ps != [] && WfProps(ps) && At(b, off, PrintProps(ps))
    ensures At(b, off, PrintProp(ps[0])) && At(b, off + PropSize(ps[0]), PrintProps(ps[1..]))
  {
    AtSplit(b, off, PrintProp(ps[0]), PrintProps(ps[1..]));
  }

  /** What holds of the bytes wherever some properties are to be found, and passes from the first to
      the rest, is enough for the bytes to hold them all. */
  lemma {:induction false} PropByProp(b: seq<U8>, off: nat, ps: seq<Property>, p: (nat, seq<Property>) -> bool)
    requires p(off, ps)
    requires forall o: nat, qs: seq<Property> :: p(o, qs) ==> o <= |b|
    requires forall o: nat, qs: seq<Property> :: p(o, qs) && qs != [] ==>
      PropHolds(b, o, qs[0]) && p(o + PropSize(qs[0]), qs[1..])
    ensures PropsHold(b, off, ps)
    decreases |ps|
  {
    if ps != [] {
      PropByProp(b, off + PropSize(ps[0]), ps[1..], p);
    }
  }

  lemma {:induction false} PrintedProps(b: seq<U8>, off: nat, ps: seq<Property>)
    requires WfProps(ps) && At(b, off, PrintProps(ps))
    ensures PropsHold(b, off, ps)
  {
    var p := (o: nat, qs: seq<Property>) => WfProps(qs) && At(b, o, PrintProps(qs));
    forall o: nat, qs: seq<Property> | p(o, qs) && qs != []
      ensures PropHolds(b, o, qs[0]) && p(o + PropSize(qs[0]), qs[1..])
    {
      FirstPropAt(b, o, qs);
      PrintedProp(b, o, qs[0]);
    }
    PropByProp(b, off, ps, p);
  }

  lemma {:induction false} PrintedCounts(b: seq<U8>, off: nat, n: Node)
    requires Wf(n) && At(b, off, Print(n))
    ensures off + 8 <= |b| && Get(b, off, 4) == |n.props| && Get(b, off + 4, 4) == |n.kids|
    ensures At(b, off + 8, PrintProps(n.props)) && At(b, off + 8 + PropsSize(n.props), PrintKids(n.kids))
  {
    PropsPrintSize(n.props);
    FourAt(b, off, Le(|n.props|, 4), Le(|n.kids|, 4), PrintProps(n.props), PrintKids(n.kids));
    SizeAt(b, off, |n.props|);
    SizeAt(b, off + 4, |n.kids|);
  }

  lemma {:induction false} PropsOfPrinted(b: seq<U8>, off: nat, n: Node)
    requires Wf(n) && At(b, off, Print(n))
    ensures off + 8 <= |b| && Get(b, off, 4) == |n.props| && Get(b, off + 4, 4) == |n.kids|
    ensures PropsHold(b, off + 8, n.props)
    ensures At(b, off + 8 + PropsSize(n.props), PrintKids(n.kids))
  {
    PrintedCounts(b, off, n);
    PrintedProps(b, off + 8, n.props);
  }

  lemma {:induction false} HoldsWithKids(b: seq<U8>, off: nat, n: Node)
    requires off + 8 <= |b| && Get(b, off, 4) == |n.props| && Get(b, off + 4, 4) == |n.kids|
    requires PropsHold(b, off + 8, n.props) && WfKids(n.kids)
    requires At(b, off + 8 + PropsSize(n.props), PrintKids(n.kids))
    ensures NodeHolds(b, off, n)
    decreases Size(n), 0
  {
    PrintedKids(b, off + 8 + PropsSize(n.props), n.kids);
  }

  /** The bytes of a tree hold the tree. */
  lemma {:induction false} Printed(b: seq<U8>, off: nat, n: Node)
    requires Wf(n) && At(b, off, Print(n))
    ensures NodeHolds(b, off, n)
    decreases Size(n), 1
  {
    PropsOfPrinted(b, off, n);
    HoldsWithKids(b, off, n);
  }

  lemma {:induction false} PrintedKids(b: seq<U8>, off: nat, ks: seq<Node>)
    requires WfKids(ks) && At(b, off, PrintKids(ks))
    ensures KidsHold(b, off, ks)
    decreases KidsSize(ks) + 1
  {
    if ks != [] {
      AtSplit(b, off, Print(ks[0]), PrintKids(ks[1..]));
      PrintSize(ks[0]);
      Printed(b, off, ks[0]);
      PrintedKids(b, off + Size(ks[0]), ks[1..]);
    }
  }

  // The parser on a tree that is held

  lemma {:induction false} NoNul(s: seq<U8>, i: int)
    requires 0 !in s
    ensures 0 <= i < |s| ==> s[i] != 0
  {
  }

  /** Names compare as strncmp does over the field's 32 bytes. */
  lemma {:induction false} NameIsExactly(b: seq<U8>, off: nat, p: Property, want: seq<U8>)
    requires WfProp(p) && PropHolds(b, off, p) && Fixed(want)
    ensures NameIs(b, off, want) <==> p.name == want
  {
    NoNul(p.name, |want|);
    NoNul(want, |p.name|);
    assert forall i :: 0 <= i < |p.name| ==> b[off..off + |p.name|][i] == p.name[i];
    if NameIs(b, off, want) {
      assert forall i :: 0 <= i < |want| ==> b[off..off + |want|][i] == want[i];
    }
  }

  /** Induction along properties that the bytes hold. */
  lemma {:induction false} AlongProps(b: seq<U8>, off: nat, ps: seq<Property>, p: (nat, seq<Property>) -> bool)
    requires PropsHold(b, off, ps)
    requires forall o: nat :: o <= |b| ==> p(o, [])
    requires forall o: nat, qs: seq<Property> ::
      qs != [] && PropHolds(b, o, qs[0]) && p(o + PropSize(qs[0]), qs[1..]) ==> p(o, qs)
    ensures p(off, ps)
    decreases |ps|
  {
    if ps != [] {
      AlongProps(b, off + PropSize(ps[0]), ps[1..], p);
    }
  }

  /** And along children. */
  lemma {:induction false} AlongKids(b: seq<U8>, off: nat, ks: seq<Node>, p: (nat, seq<Node>) -> bool)
    requires KidsHold(b, off, ks)
    requires forall o: nat :: o <= |b| ==> p(o, [])
    requires forall o: nat, ms: seq<Node> ::
      ms != [] && NodeHolds(b, o, ms[0]) && p(o + Size(ms[0]), ms[1..]) ==> p(o, ms)
    ensures p(off, ks)
    decreases |ks|
  {
    if ks != [] {
      AlongKids(b, off + Size(ks[0]), ks[1..], p);
    }
  }

  lemma {:induction false} PropParses(b: seq<U8>, off: nat, p: Property)
    requires PropHolds(b, off, p)
    ensures PropAt(b, off) == Ok(Val(off + PROP_HDR, |p.value|))
  {
  }

  /** The walk over these properties ends at their end. */
  predicate PropsEndRight(b: seq<U8>, off: nat, ps: seq<Property>) {
    off <= |b| && PropsEnd(b, off, |ps|) == Ok(off + PropsSize(ps))
  }

  lemma {:induction false} PropsParseOn(b: seq<U8>, off: nat, ps: seq<Property>)
    requires ps != [] && PropHolds(b, off, ps[0]) && PropsEndRight(b, off + PropSize(ps[0]), ps[1..])
    ensures PropsEndRight(b, off, ps)
  {
    PropParses(b, off, ps[0]);
  }

  lemma {:induction false} PropsParse(b: seq<U8>, off: nat, ps: seq<Property>)
    requires PropsHold(b, off, ps)
    ensures PropsEndRight(b, off, ps)
  {
    var p := (o: nat, qs: seq<Property>) => PropsEndRight(b, o, qs);
    forall o: nat, qs: seq<Property> | qs != [] && PropHolds(b, o, qs[0]) && p(o + PropSize(qs[0]), qs[1..])
      ensures p(o, qs)
    {
      assert PropsEndRight(b, o + PropSize(qs[0]), qs[1..]);
      PropsParseOn(b, o, qs);
    }
    AlongProps(b, off, ps, p);
    assert p(off, ps);
  }

  /** What a lookup in the bytes found, against what one in the tree found. */
  predicate Agrees(b: seq<U8>, r: Result<Val>, v: Option<seq<U8>>) {
    match v
    case Some(value) => r.Ok? && r.value.at + r.value.len <= |b| && Value(b, r.value) == value
    case None => r == NoEnt
  }

  lemma {:induction false} FindSkips(b: seq<U8>, off: nat, ps: seq<Property>, name: seq<U8>)
    requires ps != [] && PropHolds(b, off, ps[0]) && !NameIs(b, off, name) && ps[0].name != name
    ensures FindProp(b, off, |ps|, name) == FindProp(b, off + PropSize(ps[0]), |ps| - 1, name)
    ensures First(ps, Called(name)) == First(ps[1..], Called(name))
  {
  }

  lemma {:induction false} FindTakes(b: seq<U8>, off: nat, ps: seq<Property>, name: seq<U8>)
    requires ps != [] && PropHolds(b, off, ps[0]) && NameIs(b, off, name) && ps[0].name == name
    ensures Agrees(b, FindProp(b, off, |ps|, name), ValueOf(First(ps, Called(name))))
  {
  }

  /** A lookup among these properties agrees with the tree. */
  predicate LookupAgrees(b: seq<U8>, off: nat, ps: seq<Property>, name: seq<U8>) {
    off <= |b| && Agrees(b, FindProp(b, off, |ps|, name), ValueOf(First(ps, Called(name))))
  }

  lemma {:induction false} PropFoundOn(b: seq<U8>, off: nat, ps: seq<Property>, name: seq<U8>)
    requires ps != [] && WfProp(ps[0]) && PropHolds(b, off, ps[0]) && Fixed(name)
    requires LookupAgrees(b, off + PropSize(ps[0]), ps[1..], name)
    ensures LookupAgrees(b, off, ps, name)
  {
    NameIsExactly(b, off, ps[0], name);
    if ps[0].name == name {
      FindTakes(b, off, ps, name);
    } else {
      FindSkips(b, off, ps, name);
    }
  }

  lemma {:induction false} PropFound(b: seq<U8>, off: nat, ps: seq<Property>, name: seq<U8>)
    requires WfProps(ps) && PropsHold(b, off, ps) && Fixed(name)
    ensures LookupAgrees(b, off, ps, name)
  {
    var p := (o: nat, qs: seq<Property>) => WfProps(qs) ==> LookupAgrees(b, o, qs, name);
    forall o: nat, qs: seq<Property> | qs != [] && PropHolds(b, o, qs[0]) && p(o + PropSize(qs[0]), qs[1..])
      ensures p(o, qs)
    {
      if WfProps(qs) {
        PropFoundOn(b, o, qs, name);
      }
    }
    AlongProps(b, off, ps, p);
  }

  /** Where the parser finds a node's children, and how many. */
  lemma {:induction false} ShapeParses(b: seq<U8>, off: nat, n: Node)
    requires Wf(n) && NodeHolds(b, off, n)
    ensures Shape(b, off) == Ok(Family(off + 8 + PropsSize(n.props), |n.kids|))
    ensures KidsHold(b, off + 8 + PropsSize(n.props), n.kids)
  {
    PropsParse(b, off + 8, n.props);
  }

  /** A lookup on a node finds the first property of that name, and nothing else. */
  lemma {:induction false} PropAgrees(b: seq<U8>, off: nat, n: Node, name: seq<U8>)
    requires Wf(n) && NodeHolds(b, off, n) && Fixed(name)
    ensures Agrees(b, Prop(b, off, name), Lookup(n, name))
  {
    PropFound(b, off + 8, n.props, name);
  }

  lemma {:induction false} EndParses(b: seq<U8>, off: nat, depth: nat, n: Node)
    requires Wf(n) && NodeHolds(b, off, n) && Fits(n, MAX_DEPTH - depth)
    ensures NodeEnd(b, off, depth) == Ok(off + Size(n))
    decreases Size(n)
  {
    ShapeParses(b, off, n);
    KidsEndParses(b, off + 8 + PropsSize(n.props), depth, n.kids);
    EndFollows(b, off, depth, n);
  }

  lemma {:induction false} EndFollows(b: seq<U8>, off: nat, depth: nat, n: Node)
    requires depth <= MAX_DEPTH && Shape(b, off) == Ok(Family(off + 8 + PropsSize(n.props), |n.kids|))
    requires off + 8 + PropsSize(n.props) <= |b|
    requires KidsEnd(b, off + 8 + PropsSize(n.props), depth, |n.kids|) == Ok(off + 8 + PropsSize(n.props) + KidsSize(n.kids))
    ensures NodeEnd(b, off, depth) == Ok(off + Size(n))
  {
  }

  lemma {:induction false} KidsEndParses(b: seq<U8>, off: nat, depth: nat, ks: seq<Node>)
    requires WfKids(ks) && KidsHold(b, off, ks) && |ks| <= MAX_COUNT
    requires depth <= MAX_DEPTH && KidsFit(ks, MAX_DEPTH - depth - 1)
    ensures off <= |b| && KidsEnd(b, off, depth, |ks|) == Ok(off + KidsSize(ks))
    decreases KidsSize(ks) + 1
  {
    if ks != [] {
      EndParses(b, off, depth + 1, ks[0]);
      KidsEndParses(b, off + Size(ks[0]), depth, ks[1..]);
    }
  }

  /** adt_node_end on a printed subtree is exactly its end. */
  lemma {:induction false} EndOfPrinted(b: seq<U8>, off: nat, depth: nat, n: Node)
    requires Wf(n) && At(b, off, Print(n)) && Fits(n, MAX_DEPTH - depth)
    ensures NodeEnd(b, off, depth) == Ok(off + |Print(n)|)
  {
    Printed(b, off, n);
    PrintSize(n);
    EndParses(b, off, depth, n);
  }

  /** A tree deeper than the limit is refused. */
  lemma {:induction false} TooDeep(b: seq<U8>, off: nat, depth: nat, n: Node)
    requires Wf(n) && NodeHolds(b, off, n) && !Fits(n, MAX_DEPTH - depth)
    ensures NodeEnd(b, off, depth) == Inval
    decreases Size(n)
  {
    if depth <= MAX_DEPTH {
      ShapeParses(b, off, n);
      KidsTooDeep(b, off + 8 + PropsSize(n.props), depth, n.kids);
    }
  }

  lemma {:induction false} KidsTooDeep(b: seq<U8>, off: nat, depth: nat, ks: seq<Node>)
    requires WfKids(ks) && KidsHold(b, off, ks) && |ks| <= MAX_COUNT
    requires depth <= MAX_DEPTH && !KidsFit(ks, MAX_DEPTH - depth - 1)
    ensures off <= |b| && KidsEnd(b, off, depth, |ks|) == Inval
    decreases KidsSize(ks) + 1
  {
    if Fits(ks[0], MAX_DEPTH - (depth + 1)) {
      EndParses(b, off, depth + 1, ks[0]);
      assert !KidsFit(ks[1..], MAX_DEPTH - depth - 1) by {
        var i :| 0 <= i < |ks| && !Fits(ks[i], MAX_DEPTH - depth - 1);
        assert ks[1..][i - 1] == ks[i];
      }
      KidsTooDeep(b, off + Size(ks[0]), depth, ks[1..]);
    } else {
      TooDeep(b, off, depth + 1, ks[0]);
    }
  }

  /** On a printed subtree the walk ends well exactly if no path down is longer than the limit. */
  lemma {:induction false} EndsWellExactly(b: seq<U8>, off: nat, depth: nat, n: Node)
    requires Wf(n) && At(b, off, Print(n))
    ensures NodeEnd(b, off, depth) == if Fits(n, MAX_DEPTH - depth) then Ok(off + |Print(n)|) else Inval
  {
    Printed(b, off, n);
    if Fits(n, MAX_DEPTH - depth) {
      EndOfPrinted(b, off, depth, n);
    } else {
      TooDeep(b, off, depth, n);
    }
  }

  /** adt_props by name on a printed node: the value of its first property of that name. */
  lemma {:induction false} PropOfPrinted(b: seq<U8>, off: nat, n: Node, name: seq<U8>)
    requires Wf(n) && At(b, off, Print(n)) && Fixed(name)
    ensures Agrees(b, Prop(b, off, name), Lookup(n, name))
  {
    Printed(b, off, n);
    PropAgrees(b, off, n, name);
  }

  lemma {:induction false} NameFollows(b: seq<U8>, off: nat, n: Node)
    requires Agrees(b, Prop(b, off, NAME), Lookup(n, NAME))
    ensures NodeName(b, off) == NameOf(n)
  {
    if Lookup(n, NAME).Some? {
      var v := Prop(b, off, NAME).value;
      var k := if v.len > NAME_LEN - 1 then NAME_LEN - 1 else v.len;
      assert b[v.at..v.at + k] == Value(b, v)[..k];
    }
  }

  lemma {:induction false} NameAgrees(b: seq<U8>, off: nat, n: Node)
    requires Wf(n) && NodeHolds(b, off, n)
    ensures NodeName(b, off) == NameOf(n)
  {
    FixedNames();
    PropAgrees(b, off, n, NAME);
    NameFollows(b, off, n);
  }

  lemma {:induction false} CellsAgree(b: seq<U8>, off: nat, n: Node, name: seq<U8>)
    requires Wf(n) && NodeHolds(b, off, n) && Fixed(name)
    ensures PropU32(b, off, name, 0) == CellsOf(n, name)
  {
    PropAgrees(b, off, n, name);
    if Lookup(n, name).Some? {
      var v := Prop(b, off, name).value;
      if v.len >= 4 {
        GetSlice(b, v.at, v.len, 0, 4);
      }
    }
  }

  /** p judges the bytes as q judges the node they hold. */
  ghost predicate Judges(b: seq<U8>, p: nat -> bool, q: Node -> bool) {
    forall o: nat, n: Node :: Wf(n) && NodeHolds(b, o, n) ==> p(o) == q(n)
  }

  /** What a search of children has to return. */
  predicate Located(b: seq<U8>, r: Result<nat>, n: Option<Node>, h: int) {
    match n
    case None => r == NoEnt
    case Some(n) => Wf(n) && Fits(n, h) && r.Ok? && NodeHolds(b, r.value, n)
  }

  /** A search of these children by p finds what one by q does. */
  predicate SearchAgrees(b: seq<U8>, off: nat, depth: nat, ks: seq<Node>, p: nat -> bool, q: Node -> bool, endFirst: bool) {
    off <= |b| && Located(b, Scan(b, off, depth, |ks|, p, endFirst), First(ks, q), MAX_DEPTH - depth)
  }

  lemma {:induction false} FirstOrLater<T>(s: seq<T>, p: T -> bool)
    requires s != []
    ensures First(s, p) == if p(s[0]) then Some(s[0]) else First(s[1..], p)
  {
  }

  lemma {:induction false} ScanAgreesOn(b: seq<U8>, off: nat, depth: nat, ks: seq<Node>, p: nat -> bool,
      q: Node -> bool, endFirst: bool)
    requires ks != [] && Wf(ks[0]) && Fits(ks[0], MAX_DEPTH - depth) && NodeHolds(b, off, ks[0]) && p(off) == q(ks[0])
    requires SearchAgrees(b, off + Size(ks[0]), depth, ks[1..], p, q, endFirst)
    ensures SearchAgrees(b, off, depth, ks, p, q, endFirst)
  {
    EndParses(b, off, depth, ks[0]);
    FirstOrLater(ks, q);
    if p(off) {
      ScanTakes(b, off, depth, |ks|, p, endFirst);
    } else {
      ScanSkips(b, off, depth, |ks|, p, endFirst, off + Size(ks[0]));
    }
  }

  /** Searching the children's bytes by p is searching the children by q. */
  lemma {:induction false} ScanAgrees(b: seq<U8>, off: nat, depth: nat, ks: seq<Node>, p: nat -> bool,
      q: Node -> bool, endFirst: bool)
    requires WfKids(ks) && KidsHold(b, off, ks) && KidsFit(ks, MAX_DEPTH - depth)
    requires Judges(b, p, q)
    ensures SearchAgrees(b, off, depth, ks, p, q, endFirst)
  {
    var r := (o: nat, ms: seq<Node>) =>
      WfKids(ms) && KidsFit(ms, MAX_DEPTH - depth) ==> SearchAgrees(b, o, depth, ms, p, q, endFirst);
    forall o: nat, ms: seq<Node> | ms != [] && NodeHolds(b, o, ms[0]) && r(o + Size(ms[0]), ms[1..])
      ensures r(o, ms)
    {
      if WfKids(ms) && KidsFit(ms, MAX_DEPTH - depth) {
        assert Wf(ms[0]);
        ScanAgreesOn(b, o, depth, ms, p, q, endFirst);
      }
    }
    AlongKids(b, off, ks, r);
  }

  lemma {:induction false} ScanTakes(b: seq<U8>, off: nat, depth: nat, n: nat, p: nat -> bool, endFirst: bool)
    requires off <= |b| && n > 0 && NodeEnd(b, off, depth).Ok? && p(off)
    ensures Scan(b, off, depth, n, p, endFirst) == Ok(off)
  {
  }

  lemma {:induction false} ScanSkips(b: seq<U8>, off: nat, depth: nat, n: nat, p: nat -> bool, endFirst: bool, next: nat)
    requires off <= |b| && next <= |b| && n > 0 && NodeEnd(b, off, depth) == Ok(next) && !p(off)
    ensures Scan(b, off, depth, n, p, endFirst) == Scan(b, next, depth, n - 1, p, endFirst)
  {
  }

  lemma {:induction false} RegAgrees(b: seq<U8>, off: nat, n: Node)
    requires Wf(n) && NodeHolds(b, off, n)
    ensures Agrees(b, Prop(b, off, REG), Lookup(n, REG))
    ensures Lookup(n, REG).Some? && |Lookup(n, REG).value| >= 8 ==>
      Get(b, Prop(b, off, REG).value.at, 8) == Get(Lookup(n, REG).value, 0, 8)
  {
    FixedNames();
    PropAgrees(b, off, n, REG);
    if Lookup(n, REG).Some? && |Lookup(n, REG).value| >= 8 {
      var v := Prop(b, off, REG).value;
      GetSlice(b, v.at, v.len, 0, 8);
    }
  }

  lemma {:induction false} IsEncoderAgrees(b: seq<U8>, off: nat, n: Node, ranges: seq<U8>, cpu: nat)
    requires Wf(n) && NodeHolds(b, off, n)
    ensures IsEncoder(b, off, ranges, cpu) == EncoderWith(ranges, cpu)(n)
  {
    NameAgrees(b, off, n);
    RegAgrees(b, off, n);
  }

  lemma {:induction false} EncoderFollows(b: seq<U8>, off: nat, n: Node, cpu: nat)
    requires NodeName(b, off) == NameOf(n)
    requires Agrees(b, Prop(b, off, PRE_LOADED), Lookup(n, PRE_LOADED))
    requires Agrees(b, Prop(b, off, SEGMENT_RANGES), Lookup(n, SEGMENT_RANGES))
    ensures EncoderAt(b, off, cpu) == EncoderOf(n, cpu)
  {
  }

  lemma {:induction false} EncoderAgrees(b: seq<U8>, off: nat, n: Node, cpu: nat)
    requires Wf(n) && NodeHolds(b, off, n)
    ensures EncoderAt(b, off, cpu) == EncoderOf(n, cpu)
  {
    FixedNames();
    NameAgrees(b, off, n);
    PropAgrees(b, off, n, PRE_LOADED);
    PropAgrees(b, off, n, SEGMENT_RANGES);
    EncoderFollows(b, off, n, cpu);
  }

  /** Among a node's children, the encoder p finds is the one q finds. */
  lemma {:induction false} AmongAgrees(b: seq<U8>, at: nat, io: Node, p: nat -> bool, q: Node -> bool, cpu: nat)
    requires Wf(io) && NodeHolds(b, at, io) && Fits(io, MAX_DEPTH - 1)
    requires Judges(b, p, q)
    ensures Among(b, at, p, cpu) == Chosen(First(io.kids, q), cpu)
  {
    ShapeParses(b, at, io);
    var first := at + 8 + PropsSize(io.props);
    ScanAgrees(b, first, 2, io.kids, p, q, true);
    var n := First(io.kids, q);
    if n.Some? {
      EncoderAgrees(b, Scan(b, first, 2, |io.kids|, p, true).value, n.value, cpu);
    }
  }

  lemma {:induction false} RangesAgree(b: seq<U8>, root: Node, at: nat, io: Node)
    requires Wf(root) && Wf(io) && NodeHolds(b, 0, root) && NodeHolds(b, at, io)
    ensures RangesAt(b, at) == RangesIn(root, io)
  {
    FixedNames();
    CellsAgree(b, 0, root, ADDRESS_CELLS);
    CellsAgree(b, at, io, ADDRESS_CELLS);
    CellsAgree(b, at, io, SIZE_CELLS);
    PropAgrees(b, at, io, RANGES);
  }

  lemma {:induction false} NamesJudge(b: seq<U8>, name: seq<U8>)
    ensures Judges(b, Named(b, name), Naming(name))
  {
    forall o: nat, n: Node | Wf(n) && NodeHolds(b, o, n)
      ensures Named(b, name)(o) == Naming(name)(n)
    {
      NameAgrees(b, o, n);
    }
  }

  lemma {:induction false} KidsAgree(b: seq<U8>, root: Node, p: nat -> bool, q: Node -> bool)
    requires Wf(root) && NodeHolds(b, 0, root) && Fits(root, MAX_DEPTH) && Judges(b, p, q)
    ensures Shape(b, 0).Ok?
    ensures var f := Shape(b, 0).value;
      Located(b, Scan(b, f.at, 1, f.count, p, false), First(root.kids, q), MAX_DEPTH - 1)
  {
    ShapeParses(b, 0, root);
    ScanAgrees(b, 8 + PropsSize(root.props), 1, root.kids, p, q, false);
  }

  lemma {:induction false} ChildAgrees(b: seq<U8>, root: Node, name: seq<U8>)
    requires Wf(root) && NodeHolds(b, 0, root) && Fits(root, MAX_DEPTH)
    ensures Located(b, Child(b, 0, 0, name), First(root.kids, Naming(name)), MAX_DEPTH - 1)
  {
    NamesJudge(b, name);
    KidsAgree(b, root, Named(b, name), Naming(name));
  }

  lemma {:induction false} EncodersJudge(b: seq<U8>, ranges: seq<U8>, cpu: nat)
    ensures Judges(b, Encoders(b, ranges, cpu), EncoderWith(ranges, cpu))
  {
    forall o: nat, n: Node | Wf(n) && NodeHolds(b, o, n)
      ensures Encoders(b, ranges, cpu)(o) == EncoderWith(ranges, cpu)(n)
    {
      IsEncoderAgrees(b, o, n, ranges, cpu);
    }
  }

  /** Finding an encoder in a printed tree is searching the tree. */
  lemma {:induction false} FindAgrees(root: Node, cpu: nat)
    requires Wf(root) && Fits(root, MAX_DEPTH)
    ensures FindEncoder(Print(root), cpu) == Search(root, cpu)
  {
    var b := Print(root);
    Printed(b, 0, root);
    ChildAgrees(b, root, ARM_IO);
    var io := First(root.kids, Naming(ARM_IO));
    if io.Some? {
      var at := Child(b, 0, 0, ARM_IO).value;
      RangesAgree(b, root, at, io.value);
      if RangesAt(b, at).Ok? {
        var ranges := RangesAt(b, at).value;
        EncodersJudge(b, ranges, cpu);
        AmongAgrees(b, at, io.value, Encoders(b, ranges, cpu), EncoderWith(ranges, cpu), cpu);
      }
    }
  }
}
