/** What ave_adt.h says an encoder's `preloaded` means, and what the parser makes of it. */
module AdtPreLoaded {
  import opened Basics
  import opened LittleEndian
  import opened Adt
  import opened AdtPrint

  /** As documented: the property is present, and not 0. */
  predicate PreLoaded(n: Node) {
    Lookup(n, PRE_LOADED).Some? && exists i :: 0 <= i < |Lookup(n, PRE_LOADED).value| && Lookup(n, PRE_LOADED).value[i] != 0
  }

  /** The node an encoder is found at. */
  function EncoderNode(root: Node, cpu: nat): Option<Node> {
    match First(root.kids, Naming(ARM_IO))
    case None => None
    case Some(io) =>
      match RangesIn(root, io)
      case Ok(ranges) => First(io.kids, EncoderWith(ranges, cpu))
      case _ => None
  }

  /** For an encoder found in a printed tree, `preloaded` says that its node has the property. That
      is what is documented exactly if the first property of that name is absent or not all 0. */
  lemma {:induction false} PreLoadedExactly(root: Node, cpu: nat)
    requires Wf(root) && Fits(root, MAX_DEPTH) && FindEncoder(Print(root), cpu).Ok?
    ensures EncoderNode(root, cpu).Some?
    ensures
      var n, e := EncoderNode(root, cpu).value, FindEncoder(Print(root), cpu).value;
      var v := Lookup(n, PRE_LOADED);
      && e.preloaded == v.Some?
      && (e.preloaded == PreLoaded(n) <==> (v.Some? ==> exists i :: 0 <= i < |v.value| && v.value[i] != 0))
  {
    FindAgrees(root, cpu);
  }

  // ---- a tree where it is not ----------------------------------------------------------

  lemma {:induction false} LookupAt(n: Node, name: seq<U8>, i: nat)
    requires i < |n.props| && n.props[i].name == name && forall j :: 0 <= j < i ==> n.props[j].name != name
    ensures Lookup(n, name) == Some(n.props[i].value)
  {
    FirstAt(n.props, Called(name), i);
  }

  lemma {:induction false} LookupNone(n: Node, name: seq<U8>)
    requires forall j :: 0 <= j < |n.props| ==> n.props[j].name != name
    ensures Lookup(n, name) == None
  {
    FirstIsFirst(n.props, Called(name));
  }

  lemma {:induction false} NoNulInside(s: seq<U8>)
    requires 0 !in s
    ensures CString(s) == s
  {
    if s != [] {
      NoNulInside(s[1..]);
    }
  }

  lemma {:induction false} NamedBy(n: Node, s: seq<U8>)
    requires Lookup(n, NAME) == Some(s) && |s| < NAME_LEN && 0 !in s
    ensures NameOf(n) == s
  {
    assert s[..|s|] == s;
    NoNulInside(s);
  }

  /** The number 2 in four bytes. */
  const TWO: seq<U8> := [2, 0, 0, 0]

  /** Bus addresses 0 and up to 0, one byte. */
  const ONE_RANGE: seq<U8> := Zeros(16) + [1] + Zeros(7)

  function Ave(preLoaded: seq<U8>): Node {
    Node([Property(NAME, false, AVE), Property(REG, false, Zeros(16)), Property(PRE_LOADED, false, preLoaded)], [])
  }

  function ArmIo(kid: Node): Node {
    Node([Property(NAME, false, ARM_IO), Property(ADDRESS_CELLS, false, TWO), Property(SIZE_CELLS, false, TWO),
          Property(RANGES, false, ONE_RANGE)], [kid])
  }

  function Tree(preLoaded: seq<U8>): Node {
    Node([Property(ADDRESS_CELLS, false, TWO)], [ArmIo(Ave(preLoaded))])
  }

  lemma {:induction false} ZeroReads(b: seq<U8>, off: nat, w: nat)
    requires off + w <= |b| && forall k :: off <= k < off + w ==> b[k] == 0
    ensures Get(b, off, w) == 0
    decreases w
  {
    if w > 0 {
      ZeroReads(b, off + 1, w - 1);
    }
  }

  lemma {:induction false} SmallReads(b: seq<U8>, off: nat, w: nat)
    requires 0 < w && off + w <= |b| && forall k :: off < k < off + w ==> b[k] == 0
    ensures Get(b, off, w) == b[off]
  {
    ZeroReads(b, off + 1, w - 1);
  }

  lemma {:induction false} CellsAreTwo(n: Node, name: seq<U8>)
    requires Lookup(n, name) == Some(TWO)
    ensures CellsOf(n, name) == 2
  {
    SmallReads(TWO, 0, 4);
  }

  lemma {:induction false} NamesDiffer()
    ensures |NAME| == 4 && |ADDRESS_CELLS| == 14 && |SIZE_CELLS| == 11 && |RANGES| == 6
    ensures |REG| == 3 && |PRE_LOADED| == 10 && |SEGMENT_RANGES| == 14
    ensures |ARM_IO| == 6 && 0 !in ARM_IO && |AVE| == 3 && 0 !in AVE
  {
  }

  lemma {:induction false} AveIsFound(preLoaded: seq<U8>)
    ensures EncoderWith(ONE_RANGE, 0)(Ave(preLoaded))
    ensures Lookup(Ave(preLoaded), PRE_LOADED) == Some(preLoaded) && Lookup(Ave(preLoaded), SEGMENT_RANGES) == None
  {
    var n := Ave(preLoaded);
    NamesDiffer();
    LookupAt(n, NAME, 0);
    LookupAt(n, REG, 1);
    LookupAt(n, PRE_LOADED, 2);
    LookupNone(n, SEGMENT_RANGES);
    NamedBy(n, AVE);
    ZeroReads(Zeros(16), 0, 8);
    ZeroReads(ONE_RANGE, 0, 8);
    ZeroReads(ONE_RANGE, 8, 8);
    SmallReads(ONE_RANGE, 16, 8);
    assert Translate(ONE_RANGE, 0, 0) == Some(0);
  }

  lemma {:induction false} TreeIsSearched(preLoaded: seq<U8>)
    ensures EncoderNode(Tree(preLoaded), 0) == Some(Ave(preLoaded))
    ensures Search(Tree(preLoaded), 0).Ok?
  {
    var kid, io, root := Ave(preLoaded), ArmIo(Ave(preLoaded)), Tree(preLoaded);
    NamesDiffer();
    LookupAt(io, NAME, 0);
    LookupAt(io, ADDRESS_CELLS, 1);
    LookupAt(io, SIZE_CELLS, 2);
    LookupAt(io, RANGES, 3);
    LookupAt(root, ADDRESS_CELLS, 0);
    NamedBy(io, ARM_IO);
    CellsAreTwo(root, ADDRESS_CELLS);
    CellsAreTwo(io, ADDRESS_CELLS);
    CellsAreTwo(io, SIZE_CELLS);
    AveIsFound(preLoaded);
    FirstAt(root.kids, Naming(ARM_IO), 0);
    FirstAt(io.kids, EncoderWith(ONE_RANGE, 0), 0);
  }

  lemma {:induction false} TreeIsWellFormed(preLoaded: seq<U8>)
    requires |preLoaded| < 0x8000_0000
    ensures Wf(Tree(preLoaded)) && Fits(Tree(preLoaded), MAX_DEPTH)
  {
    NamesDiffer();
    FixedNames();
    assert Wf(Ave(preLoaded));
    assert Wf(ArmIo(Ave(preLoaded)));
  }

  lemma {:induction false} AnyIsPreLoaded(preLoaded: seq<U8>)
    requires |preLoaded| < 0x8000_0000
    ensures Wf(Tree(preLoaded)) && Fits(Tree(preLoaded), MAX_DEPTH)
    ensures FindEncoder(Print(Tree(preLoaded)), 0).Ok? && FindEncoder(Print(Tree(preLoaded)), 0).value.preloaded
  {
    TreeIsWellFormed(preLoaded);
    TreeIsSearched(preLoaded);
    AveIsFound(preLoaded);
    FindAgrees(Tree(preLoaded), 0);
    PreLoadedExactly(Tree(preLoaded), 0);
  }

  lemma {:induction false} AllZero(preLoaded: seq<U8>)
    requires forall i :: 0 <= i < |preLoaded| ==> preLoaded[i] == 0
    ensures !PreLoaded(Ave(preLoaded))
  {
    AveIsFound(preLoaded);
  }

  /** A node whose "pre-loaded" is 0 is reported as pre-loaded all the same. */
  lemma {:induction false} ZeroIsPreLoaded()
    ensures
      var root := Tree(Zeros(4));
      && Wf(root) && Fits(root, MAX_DEPTH) && EncoderNode(root, 0) == Some(Ave(Zeros(4)))
      && !PreLoaded(Ave(Zeros(4)))
      && FindEncoder(Print(root), 0).Ok? && FindEncoder(Print(root), 0).value.preloaded
  {
    AnyIsPreLoaded(Zeros(4));
    AllZero(Zeros(4));
    TreeIsSearched(Zeros(4));
  }
}
