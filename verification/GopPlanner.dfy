/** The B-frame mini-GOP planner of ave_gop.h. Frame numbers are unbounded here; how far
    they can get is GopRuns.NumbersStayBelow. */
module GopPlanner {

  datatype Act = Nothing | Hold | Anchor | Key | Close

  datatype Kind = P | B | IDR

  datatype Gop = Gop(nb: nat, gop: nat, nHeld: nat, dist: nat, fnAnchor: nat, started: bool)

  /** src: 0..nHeld-1 is a held source, nHeld the new one. */
  datatype Frame = Frame(src: nat, kind: Kind, fn: nat)

  function Fresh(nb: nat, gop: nat): Gop {
    Gop(nb, gop, 0, 0, 0, false)
  }

  function Decide(g: Gop, hasNew: bool, force: bool, last: bool): Act {
    if !hasNew then
      if last && g.nHeld > 0 then Close else Nothing
    else if !g.started || force || (g.gop > 0 && g.dist >= g.gop) then Key
    else if last || g.nHeld >= g.nb || (g.gop > 0 && g.dist + 1 >= g.gop) then Anchor
    else Hold
  }

  /** CAPTURE buffers an action fills. */
  function Need(g: Gop, a: Act): nat {
    match a
    case Anchor => g.nHeld + 1
    case Key => g.nHeld + 1
    case Close => g.nHeld
    case _ => 0
  }

  /** Sources an action consumes from the head of the queue. */
  function Srcs(g: Gop, a: Act): nat {
    if a == Hold then 0 else Need(g, a)
  }

  function MiniGopFrames(g: Gop, nbs: nat): seq<Frame> {
    seq(nbs, i requires 0 <= i => Frame(i, B, g.fnAnchor + 1 + i)) + [Frame(nbs, P, g.fnAnchor + g.nb + 1)]
  }

  function AfterMiniGop(g: Gop): Gop {
    g.(fnAnchor := g.fnAnchor + g.nb + 1, nHeld := 0)
  }

  /** The number a key frame gets: above every number used so far. */
  function KeyNumber(g: Gop): nat {
    if g.started then g.fnAnchor + 1 else 0
  }

  function AfterCommit(g: Gop, a: Act): Gop {
    match a
    case Hold => g.(nHeld := g.nHeld + 1, dist := g.dist + 1)
    case Anchor => AfterMiniGop(g).(dist := g.dist + 1)
    case Close => if g.nHeld == 0 then g else AfterMiniGop(g)
    case Key =>
      var h := if g.nHeld == 0 then g else AfterMiniGop(g);
      h.(fnAnchor := KeyNumber(h), started := true, nHeld := 0, dist := 1)
    case Nothing => g
  }

  /** The batches to send, in order. */
  function Batches(g: Gop, a: Act): seq<seq<Frame>> {
    match a
    case Anchor => [MiniGopFrames(g, g.nHeld)]
    case Close => if g.nHeld == 0 then [] else [MiniGopFrames(g, g.nHeld - 1)]
    case Key =>
      if g.nHeld == 0 then [[Frame(0, IDR, KeyNumber(g))]]
      else [MiniGopFrames(g, g.nHeld - 1), [Frame(g.nHeld, IDR, KeyNumber(AfterMiniGop(g)))]]
    case _ => []
  }

  /** struct ave_gop, with the batch buffers its caller hands in. */
  class Planner {
    var nb: nat
    var gop: nat
    var nHeld: nat
    var dist: nat
    var fnAnchor: nat
    var started: bool

    function View(): Gop
      reads this
    {
      Gop(nb, gop, nHeld, dist, fnAnchor, started)
    }

    constructor (nb: nat, gop: nat)
      ensures View() == Fresh(nb, gop)
    {
      this.nb, this.gop := nb, gop;
      nHeld, dist, fnAnchor, started := 0, 0, 0, false;
    }

    method MiniGop(b: array<Frame>, withAnchor: bool) returns (n: nat)
      requires nHeld > 0 || withAnchor
      requires nHeld + 1 <= b.Length
      modifies this`fnAnchor, this`nHeld, b
      ensures View() == AfterMiniGop(old(View()))
      ensures n <= b.Length
      ensures b[..n] == MiniGopFrames(old(View()), old(nHeld) - if withAnchor then 0 else 1)
    {
      var nbs := if withAnchor then nHeld else nHeld - 1;
      ghost var g := View();
      n := nbs + 1;
      for i := 0 to nbs
        invariant View() == g
        invariant b[..i] == MiniGopFrames(g, nbs)[..i]
      {
        b[i] := Frame(i, B, fnAnchor + 1 + i);
        assert b[..i + 1] == b[..i] + [b[i]];
      }
      fnAnchor := fnAnchor + nb + 1;
      b[nbs] := Frame(nbs, P, fnAnchor);
      nHeld := 0;
      assert b[..n] == b[..nbs] + [b[nbs]];
    }

    /** Fills b0 and b1 with at most two batches of n0 and n1 frames. */
    method Commit(a: Act, b0: array<Frame>, b1: array<Frame>) returns (nbat: nat, n0: nat, n1: nat)
      requires b0 != b1 && nHeld + 1 <= b0.Length && 1 <= b1.Length
      modifies this, b0, b1
      ensures View() == AfterCommit(old(View()), a)
      ensures nbat <= 2 && n0 <= b0.Length && n1 <= b1.Length
      ensures [b0[..n0], b1[..n1]][..nbat] == Batches(old(View()), a)
    {
      nbat, n0, n1 := 0, 0, 0;
      match a
      case Hold =>
        nHeld := nHeld + 1;
        dist := dist + 1;
      case Anchor =>
        n0 := MiniGop(b0, true);
        dist := dist + 1;
        nbat := 1;
      case Close =>
        if nHeld > 0 {
          n0 := MiniGop(b0, false);
          nbat := 1;
        }
      case Key =>
        var k := nHeld;
        if k > 0 {
          n0 := MiniGop(b0, false);
          nbat := 1;
        }
        var fn := if started then fnAnchor + 1 else 0;
        if nbat == 0 {
          b0[0] := Frame(k, IDR, fn);
          n0 := 1;
          assert b0[..n0] == [b0[0]];
        } else {
          b1[0] := Frame(k, IDR, fn);
          n1 := 1;
          assert b1[..n1] == [b1[0]];
        }
        nbat := nbat + 1;
        fnAnchor := fn;
        started := true;
        nHeld := 0;
        dist := 1;
      case Nothing =>
    }
  }

  /** An action consumes as many sources as it codes frames, and names each of them once, in
      display order. */
  lemma {:induction false} BatchesUseTheSourcesOnce(g: Gop, a: Act)
    requires a == Close ==> g.nHeld > 0
    ensures
      var bs := Batches(g, a);
      && |bs| <= 2
      && (forall b :: b in bs ==> |b| > 0)
      && var fs := if |bs| == 0 then [] else if |bs| == 1 then bs[0] else bs[0] + bs[1];
      && |fs| == Srcs(g, a)
      && forall i :: 0 <= i < |fs| ==> fs[i].src == i
  {
    if a == Key && g.nHeld > 0 {
      var bs := Batches(g, a);
      assert |bs| == 2;
    }
  }
}
