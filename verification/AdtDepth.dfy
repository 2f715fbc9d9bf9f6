/** Printed trees of any depth: which of them the parser refuses, and what it finds in the others. A
    child that is looked for by name need not be walked itself; an encoder is walked before it is
    looked at. */
module AdtDepth {
  import opened Basics
  import opened LittleEndian
  import opened Adt
  import opened AdtPrint

  /** The first child that q takes, unless one has to be walked that is deeper than h: those before it
      and, with endFirst, itself. */
  function Reached(ks: seq<Node>, q: Node -> bool, h: int, endFirst: bool): Result<Node> {
    if ks == [] then NoEnt
    else if q(ks[0]) && (!endFirst || Fits(ks[0], h)) then Ok(ks[0])
    else if !Fits(ks[0], h) then Inval
    else Reached(ks[1..], q, h, endFirst)
  }

  /** No child before i is taken, and all of them can be walked. */
  predicate Past(ks: seq<Node>, q: Node -> bool, h: int, i: nat)
    requires i <= |ks|
  {
    forall j :: 0 <= j < i ==> !q(ks[j]) && Fits(ks[j], h)
  }

  lemma {:induction false} PastOne(ks: seq<Node>, q: Node -> bool, h: int, i: nat)
    requires ks != [] && i < |ks|
    ensures Past(ks, q, h, i + 1) <==> !q(ks[0]) && Fits(ks[0], h) && Past(ks[1..], q, h, i)
  {
    var t := ks[1..];
    forall j | 0 <= j < i ensures t[j] == ks[j + 1] {
    }
    if !q(ks[0]) && Fits(ks[0], h) && Past(t, q, h, i) {
      forall j | 0 <= j < i + 1 ensures !q(ks[j]) && Fits(ks[j], h) {
        assert j > 0 ==> ks[j] == t[j - 1];
      }
    }
  }

  /** What a walk comes to once it is past the first i children. */
  lemma {:induction false} ReachedMeans(ks: seq<Node>, q: Node -> bool, h: int, endFirst: bool, i: nat)
    requires i <= |ks| && Past(ks, q, h, i)
    ensures i == |ks| ==> Reached(ks, q, h, endFirst) == NoEnt
    ensures i < |ks| && q(ks[i]) && (endFirst ==> Fits(ks[i], h)) ==> Reached(ks, q, h, endFirst) == Ok(ks[i])
    ensures i < |ks| && !Fits(ks[i], h) && (q(ks[i]) ==> endFirst) ==> Reached(ks, q, h, endFirst) == Inval
  {
    if i > 0 {
      PastOne(ks, q, h, i - 1);
      ReachedMeans(ks[1..], q, h, endFirst, i - 1);
    }
  }

  /** The bytes' walk ends as that says. */
  predicate ScanIs(b: seq<U8>, r: Result<nat>, n: Result<Node>) {
    match n
    case Ok(n) => Wf(n) && r.Ok? && NodeHolds(b, r.value, n)
    case NoEnt => r == NoEnt
    case Inval => r == Inval
  }

  predicate Scans(b: seq<U8>, off: nat, depth: nat, ks: seq<Node>, p: nat -> bool, q: Node -> bool, endFirst: bool) {
    off <= |b| && ScanIs(b, Scan(b, off, depth, |ks|, p, endFirst), Reached(ks, q, MAX_DEPTH - depth, endFirst))
  }

  lemma {:induction false} EndIs(b: seq<U8>, off: nat, depth: nat, n: Node)
    requires Wf(n) && NodeHolds(b, off, n)
    ensures NodeEnd(b, off, depth) == if Fits(n, MAX_DEPTH - depth) then Ok(off + Size(n)) else Inval
  {
    if Fits(n, MAX_DEPTH - depth) {
      EndParses(b, off, depth, n);
    } else {
      TooDeep(b, off, depth, n);
    }
  }

  /** One turn of the walk at a node: taken says that it is the one, fits that its end can be found. */
  predicate Turn<T(==)>(r: Result<T>, here: T, rest: Result<T>, taken: bool, fits: bool, endFirst: bool) {
    r == if taken && (!endFirst || fits) then Ok(here) else if !fits then Inval else rest
  }

  lemma {:induction false} TurnIs(b: seq<U8>, off: nat, n: Node, r: Result<nat>, rest: Result<nat>, m: Result<Node>,
      mrest: Result<Node>, taken: bool, fits: bool, endFirst: bool)
    requires Wf(n) && NodeHolds(b, off, n) && ScanIs(b, rest, mrest)
    requires Turn(r, off, rest, taken, fits, endFirst) && Turn(m, n, mrest, taken, fits, endFirst)
    ensures ScanIs(b, r, m)
  {
  }

  lemma {:induction false} ScanTurns(b: seq<U8>, off: nat, depth: nat, n: nat, p: nat -> bool, endFirst: bool, next: nat, fits: bool)
    requires off <= |b| && n > 0 && next <= |b| && NodeEnd(b, off, depth) == if fits then Ok(next) else Inval
    ensures Turn(Scan(b, off, depth, n, p, endFirst), off, Scan(b, next, depth, n - 1, p, endFirst), p(off), fits, endFirst)
  {
  }

  lemma {:induction false} ReachedTurns(ks: seq<Node>, q: Node -> bool, h: int, endFirst: bool, fits: bool)
    requires ks != [] && fits == Fits(ks[0], h)
    ensures Turn(Reached(ks, q, h, endFirst), ks[0], Reached(ks[1..], q, h, endFirst), q(ks[0]), fits, endFirst)
  {
  }

  lemma {:induction false} ScansOn(b: seq<U8>, off: nat, depth: nat, ks: seq<Node>, p: nat -> bool, q: Node -> bool,
      endFirst: bool, next: nat, fits: bool)
    requires ks != [] && Wf(ks[0]) && NodeHolds(b, off, ks[0]) && p(off) == q(ks[0]) && off <= |b|
    requires fits == Fits(ks[0], MAX_DEPTH - depth) && NodeEnd(b, off, depth) == if fits then Ok(next) else Inval
    requires Scans(b, next, depth, ks[1..], p, q, endFirst)
    ensures Scans(b, off, depth, ks, p, q, endFirst)
  {
    var h := MAX_DEPTH - depth;
    ScanTurns(b, off, depth, |ks|, p, endFirst, next, fits);
    ReachedTurns(ks, q, h, endFirst, fits);
    TurnIs(b, off, ks[0], Scan(b, off, depth, |ks|, p, endFirst), Scan(b, next, depth, |ks| - 1, p, endFirst),
           Reached(ks, q, h, endFirst), Reached(ks[1..], q, h, endFirst), q(ks[0]), fits, endFirst);
  }

  lemma {:induction false} KidScans(b: seq<U8>, off: nat, depth: nat, ks: seq<Node>, p: nat -> bool, q: Node -> bool,
      endFirst: bool)
    requires ks != [] && Wf(ks[0]) && NodeHolds(b, off, ks[0]) && p(off) == q(ks[0])
    requires Scans(b, off + Size(ks[0]), depth, ks[1..], p, q, endFirst)
    ensures Scans(b, off, depth, ks, p, q, endFirst)
  {
    EndIs(b, off, depth, ks[0]);
    ScansOn(b, off, depth, ks, p, q, endFirst, off + Size(ks[0]), Fits(ks[0], MAX_DEPTH - depth));
  }

  lemma {:induction false} AllScan(b: seq<U8>, off: nat, depth: nat, ks: seq<Node>, p: nat -> bool, q: Node -> bool,
      endFirst: bool)
    requires WfKids(ks) && KidsHold(b, off, ks) && Judges(b, p, q)
    ensures Scans(b, off, depth, ks, p, q, endFirst)
  {
    var r := (o: nat, ms: seq<Node>) => WfKids(ms) ==> Scans(b, o, depth, ms, p, q, endFirst);
    forall o: nat, ms: seq<Node> | ms != [] && NodeHolds(b, o, ms[0]) && r(o + Size(ms[0]), ms[1..])
      ensures r(o, ms)
    {
      if WfKids(ms) {
        assert Wf(ms[0]);
        KidScans(b, o, depth, ms, p, q, endFirst);
      }
    }
    AlongKids(b, off, ks, r);
  }

  function EncoderIn(n: Result<Node>, cpu: nat): Result<Encoder> {
    match n
    case Ok(n) => EncoderOf(n, cpu)
    case NoEnt => NoEnt
    case Inval => Inval
  }

  /** The search over a tree of any depth. */
  function DeepSearch(root: Node, cpu: nat): Result<Encoder> {
    match Reached(root.kids, Naming(ARM_IO), MAX_DEPTH - 1, false)
    case NoEnt => NoEnt
    case Inval => Inval
    case Ok(io) =>
      match RangesIn(root, io)
      case Ok(ranges) => EncoderIn(Reached(io.kids, EncoderWith(ranges, cpu), MAX_DEPTH - 2, true), cpu)
      case _ => Inval
  }

  lemma {:induction false} AmongIs(b: seq<U8>, at: nat, io: Node, p: nat -> bool, q: Node -> bool, cpu: nat)
    requires Wf(io) && NodeHolds(b, at, io) && Judges(b, p, q)
    ensures Among(b, at, p, cpu) == EncoderIn(Reached(io.kids, q, MAX_DEPTH - 2, true), cpu)
  {
    ShapeParses(b, at, io);
    var first := at + 8 + PropsSize(io.props);
    AllScan(b, first, 2, io.kids, p, q, true);
    var n := Reached(io.kids, q, MAX_DEPTH - 2, true);
    if n.Ok? {
      EncoderAgrees(b, Scan(b, first, 2, |io.kids|, p, true).value, n.value, cpu);
    }
  }

  lemma {:induction false} KidsAre(b: seq<U8>, root: Node, p: nat -> bool, q: Node -> bool)
    requires Wf(root) && NodeHolds(b, 0, root) && Judges(b, p, q)
    ensures Shape(b, 0).Ok?
    ensures var f := Shape(b, 0).value;
      ScanIs(b, Scan(b, f.at, 1, f.count, p, false), Reached(root.kids, q, MAX_DEPTH - 1, false))
  {
    ShapeParses(b, 0, root);
    AllScan(b, 8 + PropsSize(root.props), 1, root.kids, p, q, false);
  }

  lemma {:induction false} ChildIs(b: seq<U8>, root: Node, name: seq<U8>)
    requires Wf(root) && NodeHolds(b, 0, root)
    ensures ScanIs(b, Child(b, 0, 0, name), Reached(root.kids, Naming(name), MAX_DEPTH - 1, false))
  {
    NamesJudge(b, name);
    KidsAre(b, root, Named(b, name), Naming(name));
  }

  /** Finding an encoder in a printed tree is searching the tree, however deep it is. */
  lemma {:induction false} FindsAtAnyDepth(root: Node, cpu: nat)
    requires Wf(root)
    ensures FindEncoder(Print(root), cpu) == DeepSearch(root, cpu)
  {
    var b := Print(root);
    Printed(b, 0, root);
    ChildIs(b, root, ARM_IO);
    var io := Reached(root.kids, Naming(ARM_IO), MAX_DEPTH - 1, false);
    if io.Ok? {
      var at := Child(b, 0, 0, ARM_IO).value;
      RangesAgree(b, root, at, io.value);
      if RangesAt(b, at).Ok? {
        var ranges := RangesAt(b, at).value;
        EncodersJudge(b, ranges, cpu);
        AmongIs(b, at, io.value, Encoders(b, ranges, cpu), EncoderWith(ranges, cpu), cpu);
      }
    }
  }
}
