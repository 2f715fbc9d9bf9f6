/** Whole runs of the planner: any sequence of sources, forced keys and drains, and the
    stream that comes out, in display order and in decode order. */
module GopRuns {
  import opened GopPlanner
  import opened Remainders

  /** What one job finds: is a source queued, was a key asked for, is it the drain's last. */
  datatype Input = Input(hasNew: bool, force: bool, last: bool)

  /** poc is frameNumber - frameNumber of the last IDR. */
  datatype Pic = Pic(disp: nat, kind: Kind, fn: nat, poc: int, forced: bool)

  datatype Run = Run(g: Gop, idrFn: nat, pics: seq<Pic>, decode: seq<Pic>)

  function Last<T>(s: seq<T>): T
    requires s != []
  {
    s[|s| - 1]
  }

  function Place(r: Run, base: nat, fs: seq<Frame>, forced: bool): seq<Pic>
    requires fs != []
  {
    var idr := if fs[0].kind == IDR then fs[0].fn else r.idrFn;
    seq(|fs|, i requires 0 <= i < |fs| => Pic(base + fs[i].src, fs[i].kind, fs[i].fn, fs[i].fn - idr, forced))
  }

  /** The firmware codes a batch's anchor, its last frame, first and then releases the Bs. */
  function InDecodeOrder(ps: seq<Pic>): seq<Pic>
    requires ps != []
  {
    [Last(ps)] + ps[..|ps| - 1]
  }

  function Send(r: Run, base: nat, fs: seq<Frame>, forced: bool): Run
    requires fs != []
  {
    var ps := Place(r, base, fs, forced);
    r.(idrFn := if fs[0].kind == IDR then fs[0].fn else r.idrFn,
       pics := r.pics + ps, decode := r.decode + InDecodeOrder(ps))
  }

  /** One job. The held sources are the head of the queue, so source i of this job is the
      picture |r.pics| + i of the stream. */
  function Job(r: Run, x: Input): Run {
    var a := Decide(r.g, x.hasNew, x.force, x.last);
    var bs := Batches(r.g, a);
    var base := |r.pics|;
    var r1 := if |bs| >= 1 && bs[0] != [] then Send(r, base, bs[0], x.force) else r;
    var r2 := if |bs| >= 2 && bs[1] != [] then Send(r1, base, bs[1], x.force) else r1;
    r2.(g := AfterCommit(r.g, a))
  }

  function Exec(nb: nat, gop: nat, xs: seq<Input>): Run {
    if xs == [] then Run(Fresh(nb, gop), 0, [], []) else Job(Exec(nb, gop, xs[..|xs| - 1]), Last(xs))
  }

  // ---- the stream in display order ----------------------------------------------------

  /** Distance of the last picture from its IDR. */
  function SinceIdr(ps: seq<Pic>): nat {
    if ps == [] || Last(ps).kind == IDR then 0 else 1 + SinceIdr(ps[..|ps| - 1])
  }

  /** How many Bs the stream ends with. */
  function TrailingBs(ps: seq<Pic>): nat {
    if ps == [] || Last(ps).kind != B then 0 else 1 + TrailingBs(ps[..|ps| - 1])
  }

  /** The last P or IDR. */
  function LastAnchor(ps: seq<Pic>): (p: Pic)
    requires ps != [] && ps[0].kind != B
    ensures p.kind != B && p in ps
  {
    if Last(ps).kind != B then Last(ps) else LastAnchor(ps[..|ps| - 1])
  }

  /** What each picture owes the ones displayed before it. */
  ghost predicate Follows(nb: nat, gop: nat, q: seq<Pic>, p: Pic) {
    && p.disp == |q|
    && (q == [] ==> p.kind == IDR && p.fn == 0)
    && (q != [] ==> q[0].kind == IDR && p.fn > Last(q).fn)
    && (q != [] && p.kind != P ==> p.fn == Last(q).fn + 1)
    && match p.kind
       case IDR =>
         && p.poc == 0
         && (q != [] ==> Last(q).kind != B)
         && (q != [] && gop > 0 ==> SinceIdr(q) + 1 <= gop && (!p.forced ==> SinceIdr(q) + 1 == gop))
         && (q != [] && gop == 0 ==> p.forced)
       case P =>
         && p.poc - Last(q).poc == p.fn - Last(q).fn
         && p.poc >= 0 && Rem(p.poc, nb + 1) == 0
         && p.fn == LastAnchor(q).fn + nb + 1
         && (gop > 0 ==> SinceIdr(q) + 1 < gop)
       case B =>
         && p.poc - Last(q).poc == p.fn - Last(q).fn
         && p.poc >= 0 && Rem(p.poc, nb + 1) != 0
         && TrailingBs(q) < nb
         && (gop > 0 ==> SinceIdr(q) + 1 < gop)
  }

  ghost predicate Good(nb: nat, gop: nat, ps: seq<Pic>) {
    ps == [] || (Good(nb, gop, ps[..|ps| - 1]) && Follows(nb, gop, ps[..|ps| - 1], Last(ps)))
  }

  // ---- the stream in decode order -----------------------------------------------------

  /** d holds the pictures of ps, each once. */
  ghost predicate Permutes(ps: seq<Pic>, d: seq<Pic>) {
    && |d| == |ps|
    && (forall k :: 0 <= k < |d| ==> d[k].disp < |ps| && ps[d[k].disp] == d[k])
    && (forall j, k :: 0 <= j < k < |d| ==> d[j].disp != d[k].disp)
  }

  /** No picture is decoded later than one place after its display position. */
  ghost predicate AtMostOneLate(d: seq<Pic>) {
    forall k :: 0 <= k < |d| ==> k <= d[k].disp + 1
  }

  /** At most one picture goes before another in decoding and after it in display. */
  ghost predicate AtMostOneAhead(d: seq<Pic>) {
    forall i, j, k :: 0 <= i < j < k < |d| ==> !(d[i].disp > d[k].disp && d[j].disp > d[k].disp)
  }

  ghost predicate Reordered(ps: seq<Pic>, d: seq<Pic>) {
    Permutes(ps, d) && AtMostOneLate(d) && AtMostOneAhead(d)
  }

  lemma {:induction false} PermutesGrows(ps: seq<Pic>, d: seq<Pic>, b: seq<Pic>)
    requires Permutes(ps, d) && b != []
    requires forall i :: 0 <= i < |b| ==> b[i].disp == |ps| + i
    ensures Permutes(ps + b, d + InDecodeOrder(b))
  {
    var d' := d + InDecodeOrder(b);
    forall k | 0 <= k < |d'| ensures d'[k].disp < |ps + b| && (ps + b)[d'[k].disp] == d'[k] {
      if k > |d| { assert d'[k] == b[k - |d| - 1]; }
    }
  }

  lemma {:induction false} OneAheadGrows(ps: seq<Pic>, d: seq<Pic>, b: seq<Pic>)
    requires Permutes(ps, d) && AtMostOneAhead(d) && AtMostOneLate(d) && b != []
    requires forall i :: 0 <= i < |b| ==> b[i].disp == |ps| + i
    ensures AtMostOneAhead(d + InDecodeOrder(b)) && AtMostOneLate(d + InDecodeOrder(b))
  {
    var d' := d + InDecodeOrder(b);
    assert forall k :: |d| < k < |d'| ==> d'[k] == b[k - |d| - 1];
    forall i, j, k | 0 <= i < j < k < |d'|
      ensures !(d'[i].disp > d'[k].disp && d'[j].disp > d'[k].disp)
    {
      if k < |d| {
        assert d'[i] == d[i] && d'[j] == d[j] && d'[k] == d[k];
      } else if i < |d| {
        assert d'[i] == d[i] && ps[d[i].disp] == d[i];
      }
    }
  }

  lemma {:induction false} ReorderedGrows(ps: seq<Pic>, d: seq<Pic>, b: seq<Pic>)
    requires Reordered(ps, d) && b != []
    requires forall i :: 0 <= i < |b| ==> b[i].disp == |ps| + i
    ensures Reordered(ps + b, d + InDecodeOrder(b))
  {
    PermutesGrows(ps, d, b);
    OneAheadGrows(ps, d, b);
  }

  // ---- the invariant ------------------------------------------------------------------

  ghost predicate Inv(r: Run) {
    var g := r.g;
    && g.nb >= 1
    && Good(g.nb, g.gop, r.pics)
    && Reordered(r.pics, r.decode)
    && g.nHeld <= g.nb
    && if !g.started then r.pics == [] && g.nHeld == 0 && g.fnAnchor == 0
       else
         && EndsInAnchor(g.nb, g.gop, r.pics)
         && Last(r.pics).fn == g.fnAnchor
         && Last(r.pics).poc == g.fnAnchor - r.idrFn
         && g.dist == SinceIdr(r.pics) + 1 + g.nHeld
         && (g.gop > 0 ==> g.dist <= g.gop)
         && (g.gop > 0 && g.nHeld > 0 ==> g.dist < g.gop)
  }

  lemma {:induction false} GoodIsPrefixClosed(nb: nat, gop: nat, ps: seq<Pic>, k: nat)
    requires Good(nb, gop, ps) && k <= |ps|
    ensures Good(nb, gop, ps[..k])
    ensures k < |ps| ==> Follows(nb, gop, ps[..k], ps[k])
    decreases |ps| - k
  {
    if k < |ps| {
      GoodIsPrefixClosed(nb, gop, ps, k + 1);
      assert ps[..k + 1][..k] == ps[..k];
    } else {
      assert ps[..k] == ps;
    }
  }

  lemma {:induction false} Append(nb: nat, gop: nat, q: seq<Pic>, p: Pic)
    requires q != [] && Good(nb, gop, q) && Follows(nb, gop, q, p)
    ensures
      var t := q + [p];
      && Good(nb, gop, t) && t[0] == q[0] && Last(t) == p
      && SinceIdr(t) == (if p.kind == IDR then 0 else SinceIdr(q) + 1)
      && TrailingBs(t) == (if p.kind == B then TrailingBs(q) + 1 else 0)
      && LastAnchor(t) == (if p.kind == B then LastAnchor(q) else p)
  {
    var t := q + [p];
    assert t[..|t| - 1] == q;
  }

  /** The pictures of a mini-GOP of nbs Bs behind the anchor `a`. */
  ghost predicate MiniGopPics(nb: nat, a: Pic, ps: seq<Pic>, nbs: nat) {
    && |ps| == nbs + 1
    && (forall i :: 0 <= i < nbs ==>
          ps[i].kind == B && ps[i].disp == a.disp + 1 + i
          && ps[i].fn == a.fn + 1 + i && ps[i].poc == a.poc + 1 + i)
    && ps[nbs].kind == P && ps[nbs].disp == a.disp + nbs + 1
    && ps[nbs].fn == a.fn + nb + 1 && ps[nbs].poc == a.poc + nb + 1
  }

  /** An anchor of the stream, ready to be referenced. */
  ghost predicate EndsInAnchor(nb: nat, gop: nat, q: seq<Pic>) {
    && q != [] && Good(nb, gop, q) && q[0].kind == IDR
    && Last(q).kind != B
    && Last(q).poc >= 0 && Rem(Last(q).poc, nb + 1) == 0
  }

  /** The stream t is q and the first i Bs of the mini-GOP after it. */
  ghost predicate BsAdded(nb: nat, gop: nat, q: seq<Pic>, t: seq<Pic>, i: nat)
    requires q != []
  {
    && t != [] && Good(nb, gop, t) && t[0] == q[0] && q[0].kind == IDR
    && LastAnchor(t) == Last(q)
    && TrailingBs(t) == i
    && SinceIdr(t) == SinceIdr(q) + i
    && Last(t).fn == Last(q).fn + i && Last(t).poc == Last(q).poc + i && Last(t).disp == Last(q).disp + i
  }

  lemma {:induction false} AddB(nb: nat, gop: nat, q: seq<Pic>, t: seq<Pic>, i: nat, p: Pic)
    requires q != [] && BsAdded(nb, gop, q, t, i) && i < nb
    requires Last(q).poc >= 0 && Rem(Last(q).poc, nb + 1) == 0
    requires gop > 0 ==> SinceIdr(q) + i + 1 < gop
    requires p.kind == B && p.disp == Last(q).disp + 1 + i && p.fn == Last(q).fn + 1 + i && p.poc == Last(q).poc + 1 + i
    ensures BsAdded(nb, gop, q, t + [p], i + 1)
  {
    RemShift(Last(q).poc, nb + 1, i + 1);
    DispIsIndex(nb, gop, t);
    Append(nb, gop, t, p);
  }

  /** What holds of the stream q and passes from each B of ps to the next holds with i of them. */
  lemma {:induction false} OneByOne(q: seq<Pic>, ps: seq<Pic>, nbs: nat, i: nat, p: (seq<Pic>, int) -> bool)
    requires i <= nbs <= |ps| && p(q, 0)
    requires forall t: seq<Pic>, j :: 0 <= j < nbs && p(t, j) ==> p(t + [ps[j]], j + 1)
    ensures p(q + ps[..i], i)
  {
    if i == 0 {
      assert q + ps[..0] == q;
    } else {
      OneByOne(q, ps, nbs, i - 1, p);
      assert q + ps[..i] == q + ps[..i - 1] + [ps[i - 1]];
    }
  }

  lemma {:induction false} NextB(nb: nat, gop: nat, q: seq<Pic>, ps: seq<Pic>, nbs: nat, t: seq<Pic>, i: nat)
    requires EndsInAnchor(nb, gop, q) && MiniGopPics(nb, Last(q), ps, nbs) && i < nbs <= nb
    requires gop > 0 ==> SinceIdr(q) + nbs + 1 < gop
    requires BsAdded(nb, gop, q, t, i)
    ensures BsAdded(nb, gop, q, t + [ps[i]], i + 1)
  {
    AddB(nb, gop, q, t, i, ps[i]);
  }

  /** The Bs of a mini-GOP, one by one. */
  lemma {:induction false} AddBs(nb: nat, gop: nat, q: seq<Pic>, ps: seq<Pic>, nbs: nat)
    requires EndsInAnchor(nb, gop, q) && MiniGopPics(nb, Last(q), ps, nbs) && nbs <= nb
    requires gop > 0 ==> SinceIdr(q) + nbs + 1 < gop
    ensures BsAdded(nb, gop, q, q + ps[..nbs], nbs)
  {
    var p := (t: seq<Pic>, i: int) => 0 <= i <= nbs && BsAdded(nb, gop, q, t, i);
    forall t: seq<Pic>, j | 0 <= j < nbs && p(t, j) ensures p(t + [ps[j]], j + 1) {
      NextB(nb, gop, q, ps, nbs, t, j);
    }
    NoBsYet(nb, gop, q);
    OneByOne(q, ps, nbs, nbs, p);
  }

  lemma {:induction false} NoBsYet(nb: nat, gop: nat, q: seq<Pic>)
    requires EndsInAnchor(nb, gop, q)
    ensures BsAdded(nb, gop, q, q, 0)
  {
  }

  /** The P behind the Bs. */
  lemma {:induction false} AddP(nb: nat, gop: nat, q: seq<Pic>, t: seq<Pic>, nbs: nat, p: Pic)
    requires EndsInAnchor(nb, gop, q) && BsAdded(nb, gop, q, t, nbs) && nbs <= nb
    requires gop > 0 ==> SinceIdr(q) + nbs + 1 < gop
    requires p.kind == P && p.disp == Last(q).disp + nbs + 1 && p.fn == Last(q).fn + nb + 1 && p.poc == Last(q).poc + nb + 1
    ensures EndsInAnchor(nb, gop, t + [p]) && SinceIdr(t + [p]) == SinceIdr(q) + nbs + 1
  {
    RemShift(Last(q).poc, nb + 1, 0);
    DispIsIndex(nb, gop, t);
    Append(nb, gop, t, p);
  }

  lemma {:induction false} DispIsIndex(nb: nat, gop: nat, q: seq<Pic>)
    requires q != [] && Good(nb, gop, q)
    ensures Last(q).disp == |q| - 1
  {
  }

  lemma {:induction false} ToTheLast(q: seq<Pic>, ps: seq<Pic>)
    requires ps != []
    ensures q + ps[..|ps| - 1] + [Last(ps)] == q + ps
  {
  }

  /** A mini-GOP of nbs Bs and its P. */
  lemma {:induction false} AddMiniGop(nb: nat, gop: nat, q: seq<Pic>, ps: seq<Pic>, nbs: nat)
    requires EndsInAnchor(nb, gop, q) && MiniGopPics(nb, Last(q), ps, nbs) && nbs <= nb
    requires gop > 0 ==> SinceIdr(q) + nbs + 1 < gop
    ensures EndsInAnchor(nb, gop, q + ps)
    ensures SinceIdr(q + ps) == SinceIdr(q) + nbs + 1
  {
    AddBs(nb, gop, q, ps, nbs);
    AddP(nb, gop, q, q + ps[..nbs], nbs, ps[nbs]);
    ToTheLast(q, ps);
  }

  lemma {:induction false} PlacedMiniGop(r: Run, nbs: nat, forced: bool)
    requires EndsInAnchor(r.g.nb, r.g.gop, r.pics)
    requires Last(r.pics).fn == r.g.fnAnchor && Last(r.pics).poc == r.g.fnAnchor - r.idrFn
    ensures MiniGopPics(r.g.nb, Last(r.pics), Place(r, |r.pics|, MiniGopFrames(r.g, nbs), forced), nbs)
  {
    DispIsIndex(r.g.nb, r.g.gop, r.pics);
  }

  lemma {:induction false} SendMiniGop(r: Run, nbs: nat, forced: bool, dist: nat)
    requires Inv(r) && r.g.started && nbs <= r.g.nb
    requires dist == SinceIdr(r.pics) + nbs + 2
    requires r.g.gop > 0 ==> dist <= r.g.gop
    ensures
      var t := Send(r, |r.pics|, MiniGopFrames(r.g, nbs), forced);
      Inv(t.(g := AfterMiniGop(r.g).(dist := dist)))
  {
    var ps := Place(r, |r.pics|, MiniGopFrames(r.g, nbs), forced);
    PlacedMiniGop(r, nbs, forced);
    AddMiniGop(r.g.nb, r.g.gop, r.pics, ps, nbs);
    ReorderedGrows(r.pics, r.decode, ps);
  }

  /** An IDR after everything held was closed. */
  lemma {:induction false} SendIdr(r: Run, base: nat, src: nat, forced: bool)
    requires Inv(r) && r.g.nHeld == 0 && base + src == |r.pics|
    requires r.g.started && !forced ==> r.g.gop > 0 && r.g.dist >= r.g.gop
    ensures
      var t := Send(r, base, [Frame(src, IDR, KeyNumber(r.g))], forced);
      Inv(t.(g := r.g.(fnAnchor := KeyNumber(r.g), started := true, dist := 1)))
  {
    var fs := [Frame(src, IDR, KeyNumber(r.g))];
    var ps := Place(r, base, fs, forced);
    var t := Send(r, base, fs, forced);
    assert t.pics[..|t.pics| - 1] == r.pics;
    assert Follows(r.g.nb, r.g.gop, r.pics, ps[0]);
    ReorderedGrows(r.pics, r.decode, ps);
  }

  /** A job that sends one mini-GOP, and nothing else. */
  lemma {:induction false} MiniGopJob(r: Run, x: Input)
    requires
      var a := Decide(r.g, x.hasNew, x.force, x.last);
      a == Anchor || (a == Close && r.g.nHeld > 0)
    ensures
      var a := Decide(r.g, x.hasNew, x.force, x.last);
      var nbs := if a == Anchor then r.g.nHeld else r.g.nHeld - 1;
      Job(r, x) == Send(r, |r.pics|, MiniGopFrames(r.g, nbs), x.force).(g := AfterCommit(r.g, a))
  {
  }

  lemma {:induction false} KeyJob(r: Run, x: Input)
    requires Decide(r.g, x.hasNew, x.force, x.last) == Key
    ensures
      var base, k := |r.pics|, r.g.nHeld;
      if k == 0 then
        Job(r, x) == Send(r, base, [Frame(0, IDR, KeyNumber(r.g))], x.force).(g := AfterCommit(r.g, Key))
      else
        var r1 := Send(r, base, MiniGopFrames(r.g, k - 1), x.force);
        Job(r, x) == Send(r1, base, [Frame(k, IDR, KeyNumber(AfterMiniGop(r.g)))], x.force).(g := AfterCommit(r.g, Key))
  {
  }

  lemma {:induction false} IdleJob(r: Run, x: Input)
    requires Decide(r.g, x.hasNew, x.force, x.last) in {Hold, Nothing}
    ensures Job(r, x) == r.(g := AfterCommit(r.g, Decide(r.g, x.hasNew, x.force, x.last)))
  {
  }

  lemma {:induction false} SendKeepsThePlan(r: Run, h: Gop, base: nat, fs: seq<Frame>, forced: bool)
    requires fs != []
    ensures Send(r.(g := h), base, fs, forced) == Send(r, base, fs, forced).(g := h)
  {
  }

  lemma {:induction false} SentLength(r: Run, base: nat, fs: seq<Frame>, forced: bool)
    requires fs != []
    ensures |Send(r, base, fs, forced).pics| == |r.pics| + |fs| && Send(r, base, fs, forced).g == r.g
  {
  }

  /** The IDR behind held sources, once r1 has them closed by a mini-GOP. */
  lemma {:induction false} KeyAfterClose(r1: Run, g: Gop, base: nat, forced: bool)
    requires r1.g == g && g.started && g.nHeld > 0 && Inv(r1.(g := AfterMiniGop(g)))
    requires |r1.pics| == base + g.nHeld && (!forced ==> g.gop > 0 && g.dist >= g.gop)
    ensures
      var fs := [Frame(g.nHeld, IDR, KeyNumber(AfterMiniGop(g)))];
      Inv(Send(r1, base, fs, forced).(g := AfterCommit(g, Key)))
  {
    var h := AfterMiniGop(g);
    SendIdr(r1.(g := h), base, g.nHeld, forced);
    SendKeepsThePlan(r1, h, base, [Frame(g.nHeld, IDR, KeyNumber(h))], forced);
  }

  /** Closing what is held. */
  lemma {:induction false} CloseInv(r: Run, forced: bool, r1: Run)
    requires Inv(r) && r.g.nHeld > 0
    requires r1 == Send(r, |r.pics|, MiniGopFrames(r.g, r.g.nHeld - 1), forced)
    ensures Inv(r1.(g := AfterMiniGop(r.g)))
    ensures |r1.pics| == |r.pics| + r.g.nHeld && r1.g == r.g
  {
    SendMiniGop(r, r.g.nHeld - 1, forced, r.g.dist);
    SentLength(r, |r.pics|, MiniGopFrames(r.g, r.g.nHeld - 1), forced);
  }

  lemma {:induction false} KeyBehindHeld(r: Run, x: Input, r1: Run)
    requires Inv(r) && Decide(r.g, x.hasNew, x.force, x.last) == Key && r.g.nHeld > 0
    requires r1 == Send(r, |r.pics|, MiniGopFrames(r.g, r.g.nHeld - 1), x.force)
    ensures Inv(Send(r1, |r.pics|, [Frame(r.g.nHeld, IDR, KeyNumber(AfterMiniGop(r.g)))], x.force).(g := AfterCommit(r.g, Key)))
  {
    CloseInv(r, x.force, r1);
    KeyAfterClose(r1, r.g, |r.pics|, x.force);
  }

  lemma {:induction false} KeyJobBehindHeld(r: Run, x: Input, r1: Run)
    requires Decide(r.g, x.hasNew, x.force, x.last) == Key && r.g.nHeld > 0
    requires r1 == Send(r, |r.pics|, MiniGopFrames(r.g, r.g.nHeld - 1), x.force)
    ensures Job(r, x)
         == Send(r1, |r.pics|, [Frame(r.g.nHeld, IDR, KeyNumber(AfterMiniGop(r.g)))], x.force).(g := AfterCommit(r.g, Key))
  {
    KeyJob(r, x);
  }

  lemma {:induction false} KeyAlone(r: Run, x: Input)
    requires Inv(r) && Decide(r.g, x.hasNew, x.force, x.last) == Key && r.g.nHeld == 0
    ensures Inv(Job(r, x))
  {
    KeyJob(r, x);
    SendIdr(r, |r.pics|, 0, x.force);
  }

  lemma {:induction false} KeyInv(r: Run, x: Input)
    requires Inv(r) && Decide(r.g, x.hasNew, x.force, x.last) == Key
    ensures Inv(Job(r, x))
  {
    if r.g.nHeld > 0 {
      var r1 := Send(r, |r.pics|, MiniGopFrames(r.g, r.g.nHeld - 1), x.force);
      KeyJobBehindHeld(r, x, r1);
      KeyBehindHeld(r, x, r1);
    } else {
      KeyAlone(r, x);
    }
  }

  lemma {:induction false} AnchorInv(r: Run, x: Input)
    requires Inv(r) && Decide(r.g, x.hasNew, x.force, x.last) == Anchor
    ensures Inv(Job(r, x))
  {
    MiniGopJob(r, x);
    SendMiniGop(r, r.g.nHeld, x.force, r.g.dist + 1);
  }

  lemma {:induction false} DrainJob(r: Run, x: Input, r1: Run)
    requires Decide(r.g, x.hasNew, x.force, x.last) == Close
    requires r1 == Send(r, |r.pics|, MiniGopFrames(r.g, r.g.nHeld - 1), x.force)
    ensures Job(r, x) == r1.(g := AfterMiniGop(r.g))
  {
    MiniGopJob(r, x);
  }

  lemma {:induction false} DrainInv(r: Run, x: Input)
    requires Inv(r) && Decide(r.g, x.hasNew, x.force, x.last) == Close
    ensures Inv(Job(r, x))
  {
    var r1 := Send(r, |r.pics|, MiniGopFrames(r.g, r.g.nHeld - 1), x.force);
    DrainJob(r, x, r1);
    CloseInv(r, x.force, r1);
  }

  lemma {:induction false} JobInv(r: Run, x: Input)
    requires Inv(r)
    ensures Inv(Job(r, x))
  {
    match Decide(r.g, x.hasNew, x.force, x.last)
    case Hold => IdleJob(r, x);
    case Nothing => IdleJob(r, x);
    case Anchor => AnchorInv(r, x);
    case Close => DrainInv(r, x);
    case Key => KeyInv(r, x);
  }

  lemma {:induction false} JobKeepsTheSizes(r: Run, x: Input)
    ensures Job(r, x).g.nb == r.g.nb && Job(r, x).g.gop == r.g.gop
  {
  }

  lemma {:induction false} ExecInv(nb: nat, gop: nat, xs: seq<Input>)
    requires nb >= 1
    ensures Inv(Exec(nb, gop, xs))
    ensures Exec(nb, gop, xs).g.nb == nb && Exec(nb, gop, xs).g.gop == gop
  {
    if xs != [] {
      ExecInv(nb, gop, xs[..|xs| - 1]);
      JobKeepsTheSizes(Exec(nb, gop, xs[..|xs| - 1]), Last(xs));
      JobInv(Exec(nb, gop, xs[..|xs| - 1]), Last(xs));
    }
  }

  // ---- what every run guarantees ------------------------------------------------------

  lemma {:induction false} NumbersRise(nb: nat, gop: nat, ps: seq<Pic>, i: nat, j: nat)
    requires Good(nb, gop, ps) && i < j < |ps|
    ensures ps[i].fn < ps[j].fn
    decreases j
  {
    GoodIsPrefixClosed(nb, gop, ps, j);
    if i < j - 1 {
      NumbersRise(nb, gop, ps, i, j - 1);
    }
  }

  lemma {:induction false} AnchorBefore(ps: seq<Pic>, i: nat, j: nat)
    requires i < j <= |ps| && ps[0].kind == IDR && ps[i].kind != B
    requires forall k :: i < k < j ==> ps[k].kind == B
    ensures LastAnchor(ps[..j]) == ps[i]
    decreases j
  {
    if i < j - 1 {
      AnchorBefore(ps, i, j - 1);
      assert ps[..j][..j - 1] == ps[..j - 1];
    }
  }

  lemma {:induction false} SinceIdrCounts(ps: seq<Pic>, i: nat, j: nat)
    requires i < j <= |ps| && ps[i].kind == IDR
    requires forall k :: i < k < j ==> ps[k].kind != IDR
    ensures SinceIdr(ps[..j]) == j - 1 - i
    decreases j
  {
    if i < j - 1 {
      SinceIdrCounts(ps, i, j - 1);
      assert ps[..j][..j - 1] == ps[..j - 1];
    }
  }

  lemma {:induction false} PocCounts(nb: nat, gop: nat, ps: seq<Pic>, i: nat, j: nat)
    requires Good(nb, gop, ps) && i <= j < |ps| && ps[i].kind == IDR
    requires forall k :: i < k <= j ==> ps[k].kind != IDR
    ensures ps[j].poc == ps[j].fn - ps[i].fn
    decreases j
  {
    GoodIsPrefixClosed(nb, gop, ps, j);
    if i < j {
      PocCounts(nb, gop, ps, i, j - 1);
    }
  }

  lemma {:induction false} AnchorSpacing(nb: nat, gop: nat, ps: seq<Pic>, i: nat, j: nat)
    requires Good(nb, gop, ps) && i < j < |ps| && ps[i].kind != B && ps[j].kind == P
    requires forall k :: i < k < j ==> ps[k].kind == B
    ensures ps[j].fn == ps[i].fn + nb + 1
  {
    GoodIsPrefixClosed(nb, gop, ps, j);
    assert ps[..j][0] == ps[0];
    AnchorBefore(ps, i, j);
  }

  lemma {:induction false} KindByPoc(nb: nat, gop: nat, ps: seq<Pic>, j: nat)
    requires Good(nb, gop, ps) && j < |ps|
    ensures ps[j].disp == j
    ensures ps[j].kind == B <==> ps[j].poc % (nb + 1) != 0
  {
    GoodIsPrefixClosed(nb, gop, ps, j);
    RemIsMod(ps[j].poc, nb + 1);
  }

  lemma {:induction false} BRun(nb: nat, gop: nat, ps: seq<Pic>, i: nat, j: nat)
    requires Good(nb, gop, ps) && i <= j <= |ps|
    requires forall k :: i <= k < j ==> ps[k].kind == B
    ensures j - i <= TrailingBs(ps[..j]) <= nb
    decreases j
  {
    if j > 0 {
      LastTrails(nb, gop, ps, j);
      if i < j {
        BRun(nb, gop, ps, i, j - 1);
      }
    }
  }

  lemma {:induction false} LastTrails(nb: nat, gop: nat, ps: seq<Pic>, j: nat)
    requires Good(nb, gop, ps) && 0 < j <= |ps|
    ensures TrailingBs(ps[..j]) == if ps[j - 1].kind == B then TrailingBs(ps[..j - 1]) + 1 else 0
    ensures TrailingBs(ps[..j]) <= nb
  {
    GoodIsPrefixClosed(nb, gop, ps, j - 1);
    assert ps[..j][..j - 1] == ps[..j - 1] && Last(ps[..j]) == ps[j - 1];
  }

  lemma {:induction false} IdrSpacing(nb: nat, gop: nat, ps: seq<Pic>, i: nat, j: nat)
    requires Good(nb, gop, ps) && i < j < |ps| && ps[i].kind == ps[j].kind == IDR
    requires forall k :: i < k < j ==> ps[k].kind != IDR
    ensures gop > 0 ==> j - i <= gop
    ensures !ps[j].forced ==> gop > 0 && j - i == gop
  {
    GoodIsPrefixClosed(nb, gop, ps, j);
    SinceIdrCounts(ps, i, j);
  }

  lemma {:induction false} NoBBeforeIdr(nb: nat, gop: nat, ps: seq<Pic>, j: nat)
    requires Good(nb, gop, ps) && 0 < j < |ps| && ps[j].kind == IDR
    ensures ps[0].kind == IDR && ps[j - 1].kind != B
  {
    GoodIsPrefixClosed(nb, gop, ps, j);
    GoodIsPrefixClosed(nb, gop, ps, 0);
    assert Last(ps[..j]) == ps[j - 1];
  }

  lemma {:induction false} StartsWithIdr(nb: nat, gop: nat, ps: seq<Pic>)
    requires Good(nb, gop, ps) && ps != []
    ensures ps[0].kind == IDR
  {
    GoodIsPrefixClosed(nb, gop, ps, 0);
  }

  /** No B right before an IDR in display order, never more than nb Bs together, and two
      IDRs are exactly `gop` frames apart unless a key was forced, then at most that. */
  lemma {:induction false} ClosedGops(nb: nat, gop: nat, xs: seq<Input>, i: nat, j: nat)
    requires nb >= 1 && i < j < |Exec(nb, gop, xs).pics|
    ensures
      var ps := Exec(nb, gop, xs).pics;
      && ps[0].kind == IDR
      && (ps[j].kind == IDR ==> ps[j - 1].kind != B)
      && ((forall k :: i <= k < j ==> ps[k].kind == B) ==> j - i <= nb)
      && (ps[i].kind == ps[j].kind == IDR && (forall k :: i < k < j ==> ps[k].kind != IDR) ==>
            && (gop > 0 ==> j - i <= gop)
            && (!ps[j].forced ==> gop > 0 && j - i == gop))
  {
    ExecInv(nb, gop, xs);
    ClosedIn(nb, gop, Exec(nb, gop, xs).pics, i, j);
  }

  lemma {:induction false} ClosedIn(nb: nat, gop: nat, ps: seq<Pic>, i: nat, j: nat)
    requires Good(nb, gop, ps) && i < j < |ps|
    ensures ps[0].kind == IDR && (ps[j].kind == IDR ==> ps[j - 1].kind != B)
    ensures (forall k :: i <= k < j ==> ps[k].kind == B) ==> j - i <= nb
    ensures ps[i].kind == ps[j].kind == IDR && (forall k :: i < k < j ==> ps[k].kind != IDR) ==>
            && (gop > 0 ==> j - i <= gop)
            && (!ps[j].forced ==> gop > 0 && j - i == gop)
  {
    StartsWithIdr(nb, gop, ps);
    if ps[j].kind == IDR {
      NoBBeforeIdr(nb, gop, ps, j);
    }
    if forall k :: i <= k < j ==> ps[k].kind == B {
      BRun(nb, gop, ps, i, j);
    }
    if ps[i].kind == ps[j].kind == IDR && forall k :: i < k < j ==> ps[k].kind != IDR {
      IdrSpacing(nb, gop, ps, i, j);
    }
  }

  /** An IDR that only the GOP length asked for finds nothing held. */
  lemma {:induction false} NothingHeldAtTheBoundary(nb: nat, gop: nat, xs: seq<Input>, x: Input)
    requires nb >= 1
    ensures
      var g := Exec(nb, gop, xs).g;
      && (Decide(g, x.hasNew, false, x.last) == Key ==> g.nHeld == 0)
      && g.nHeld <= nb
  {
    ExecInv(nb, gop, xs);
  }

  /** The decode order of any run permutes the display order; at most one picture precedes
      another in decoding and follows it in output, so a reorder depth of 1 is enough; and
      the DTS of packet n, taken from the input n - nb, never exceeds its PTS. */
  lemma {:induction false} ReorderBound(nb: nat, gop: nat, xs: seq<Input>, pts: seq<int>, n: nat)
    requires nb >= 1 && |pts| == |Exec(nb, gop, xs).pics|
    requires forall i, j :: 0 <= i <= j < |pts| ==> pts[i] <= pts[j]
    requires nb <= n < |pts|
    ensures
      var r := Exec(nb, gop, xs);
      && Permutes(r.pics, r.decode) && AtMostOneAhead(r.decode) && AtMostOneLate(r.decode)
      && pts[n - nb] <= pts[r.decode[n].disp]
  {
    ExecInv(nb, gop, xs);
  }

  function SourcesIn(xs: seq<Input>): nat {
    if xs == [] then 0 else SourcesIn(xs[..|xs| - 1]) + if Last(xs).hasNew then 1 else 0
  }

  lemma {:induction false} JobCountsItsSources(r: Run, x: Input)
    ensures |Job(r, x).pics| + Job(r, x).g.nHeld == |r.pics| + r.g.nHeld + if x.hasNew then 1 else 0
  {
    match Decide(r.g, x.hasNew, x.force, x.last)
    case Key => KeyJob(r, x);
    case Hold => IdleJob(r, x);
    case Nothing => IdleJob(r, x);
    case _ => MiniGopJob(r, x);
  }

  /** Every source is either coded, once, or held. */
  lemma {:induction false} EverySourceIsCodedOnceOrHeld(nb: nat, gop: nat, xs: seq<Input>)
    requires nb >= 1
    ensures |Exec(nb, gop, xs).pics| + Exec(nb, gop, xs).g.nHeld == SourcesIn(xs)
  {
    if xs != [] {
      EverySourceIsCodedOnceOrHeld(nb, gop, xs[..|xs| - 1]);
      JobCountsItsSources(Exec(nb, gop, xs[..|xs| - 1]), Last(xs));
    }
  }

  function Times(g: nat, i: nat): nat {
    if i == 0 then 0 else Times(g, i - 1) + g
  }

  lemma {:induction false} TimesIsProduct(g: nat, i: nat)
    ensures Times(g, i) == g * i
  {
    if i > 0 {
      TimesIsProduct(g, i - 1);
    }
  }

  lemma {:induction false} NextNumber(nb: nat, gop: nat, q: seq<Pic>, p: Pic)
    requires q != [] && q[0].kind == IDR && Follows(nb, gop, q, p) && LastAnchor(q).fn <= Last(q).fn
    ensures p.fn <= Last(q).fn + nb + 1 && LastAnchor(q + [p]).fn <= p.fn
  {
    assert (q + [p])[..|q|] == q;
  }

  lemma {:induction false} NumberBound(nb: nat, gop: nat, ps: seq<Pic>, i: nat)
    requires Good(nb, gop, ps) && i < |ps|
    ensures ps[0].kind == IDR && ps[i].fn <= Times(nb + 1, i)
    ensures LastAnchor(ps[..i + 1]).fn <= ps[i].fn
    decreases i
  {
    StartsWithIdr(nb, gop, ps);
    GoodIsPrefixClosed(nb, gop, ps, i);
    if i > 0 {
      NumberBound(nb, gop, ps, i - 1);
      assert Last(ps[..i]) == ps[i - 1] && ps[..i + 1] == ps[..i] + [ps[i]];
      NextNumber(nb, gop, ps[..i], ps[i]);
    } else {
      assert ps[..1] == [ps[0]];
    }
  }

  lemma {:induction false} NumberProduct(nb: nat, gop: nat, ps: seq<Pic>, i: nat, g: nat)
    requires Good(nb, gop, ps) && i < |ps| && g == nb + 1
    ensures ps[i].fn <= g * i
  {
    NumberBound(nb, gop, ps, i);
    TimesIsProduct(g, i);
  }

  /** A 32-bit frameNumber cannot wrap while (nb + 1) * sources stays below 2^32. */
  lemma {:induction false} NumbersStayBelow(nb: nat, gop: nat, xs: seq<Input>, i: nat, g: nat)
    requires nb >= 1 && i < |Exec(nb, gop, xs).pics| && g == nb + 1
    ensures Exec(nb, gop, xs).pics[i].fn <= g * i
  {
    ExecInv(nb, gop, xs);
    NumberProduct(nb, gop, Exec(nb, gop, xs).pics, i, g);
  }

  /** frameNumbers are the display order, unique and rising; consecutive anchors of one GOP
      are nb + 1 apart however short the mini-GOP between them; the POC is the distance from
      the IDR, and the pictures at multiples of nb + 1 from it are exactly the anchors. The
      driver's 32-bit counter holds them for the first 2^32 / (nb + 1) pictures. */
  lemma {:induction false} FrameNumbering(nb: nat, gop: nat, xs: seq<Input>, i: nat, j: nat)
    requires nb >= 1 && i < j < |Exec(nb, gop, xs).pics|
    ensures
      var ps := Exec(nb, gop, xs).pics;
      && ps[j].disp == j
      && ps[i].fn < ps[j].fn
      && (ps[i].kind != B && ps[j].kind == P && (forall k :: i < k < j ==> ps[k].kind == B) ==>
            ps[j].fn == ps[i].fn + nb + 1)
      && (ps[i].kind == IDR && (forall k :: i < k <= j ==> ps[k].kind != IDR) ==>
            ps[j].poc == ps[j].fn - ps[i].fn)
      && (ps[j].kind == B <==> ps[j].poc % (nb + 1) != 0)
      && (Times(nb + 1, j) < 0x1_0000_0000 ==> ps[j].fn < 0x1_0000_0000)
  {
    ExecInv(nb, gop, xs);
    var ps := Exec(nb, gop, xs).pics;
    NumbersRise(nb, gop, ps, i, j);
    KindByPoc(nb, gop, ps, j);
    NumberBound(nb, gop, ps, j);
    if ps[i].kind != B && ps[j].kind == P && forall k :: i < k < j ==> ps[k].kind == B {
      AnchorSpacing(nb, gop, ps, i, j);
    }
    if ps[i].kind == IDR && forall k :: i < k <= j ==> ps[k].kind != IDR {
      PocCounts(nb, gop, ps, i, j);
    }
  }

  // ---- what becomes of a source -------------------------------------------------------

  /** n pictures more, the last of that kind, and nothing held any more. */
  ghost predicate Coded(r: Run, t: Run, n: nat, kind: Kind) {
    && n > 0 && |t.pics| == |r.pics| + n && t.pics[..|r.pics|] == r.pics
    && Last(t.pics).kind == kind && Last(t.pics).disp == |t.pics| - 1 && t.g.nHeld == 0
  }

  ghost predicate HeldOn(r: Run, t: Run) {
    t.pics == r.pics && t.decode == r.decode && t.g.nHeld == r.g.nHeld + 1
  }

  lemma {:induction false} SentMiniGop(r: Run, nbs: nat, forced: bool, t: Run)
    requires Inv(r) && r.g.started && t == Send(r, |r.pics|, MiniGopFrames(r.g, nbs), forced)
    ensures |t.pics| == |r.pics| + nbs + 1 && t.pics[..|r.pics|] == r.pics
    ensures Last(t.pics).kind == P && Last(t.pics).disp == |t.pics| - 1
  {
    var ps := Place(r, |r.pics|, MiniGopFrames(r.g, nbs), forced);
    assert t.pics == r.pics + ps && Last(t.pics) == ps[nbs];
  }

  /** The IDR a key job ends with. */
  ghost predicate IsKey(p: Pic, place: nat) {
    p.kind == IDR && p.disp == place
  }

  lemma {:induction false} KeyAlonePics(r: Run, x: Input)
    requires Inv(r) && Decide(r.g, x.hasNew, x.force, x.last) == Key && r.g.nHeld == 0
    ensures
      var t := Job(r, x);
      && t.g == AfterCommit(r.g, Key) && t.pics != [] && t.pics == r.pics + [Last(t.pics)]
      && IsKey(Last(t.pics), |r.pics|)
  {
    KeyJob(r, x);
  }

  lemma {:induction false} KeyHeldPics(r: Run, x: Input)
    requires Inv(r) && Decide(r.g, x.hasNew, x.force, x.last) == Key && r.g.nHeld > 0
    ensures
      var t, ps := Job(r, x), Place(r, |r.pics|, MiniGopFrames(r.g, r.g.nHeld - 1), x.force);
      && t.g == AfterCommit(r.g, Key) && t.pics != [] && t.pics == r.pics + ps + [Last(t.pics)]
      && IsKey(Last(t.pics), |r.pics| + r.g.nHeld)
  {
    KeyJob(r, x);
  }

  lemma {:induction false} KeyCodes(r: Run, x: Input)
    requires Inv(r) && Decide(r.g, x.hasNew, x.force, x.last) == Key
    ensures Coded(r, Job(r, x), r.g.nHeld + 1, IDR)
  {
    if r.g.nHeld > 0 {
      KeyHeldPics(r, x);
    } else {
      KeyAlonePics(r, x);
    }
  }

  lemma {:induction false} MiniGopCodes(r: Run, x: Input)
    requires Inv(r)
    requires Decide(r.g, x.hasNew, x.force, x.last) in {Anchor, Close} && (x.hasNew || r.g.nHeld > 0)
    ensures Coded(r, Job(r, x), r.g.nHeld + (if x.hasNew then 1 else 0), P)
  {
    MiniGopJob(r, x);
    var nbs := if x.hasNew then r.g.nHeld else r.g.nHeld - 1;
    SentMiniGop(r, nbs, x.force, Send(r, |r.pics|, MiniGopFrames(r.g, nbs), x.force));
  }

  /** In every run a new source becomes an IDR if it is the first, if a key was asked for, or if the
      GOP is full; else the P of a mini-GOP if it is the drain's last, if nb sources are held, or if the
      next one begins a GOP; and else it is held. Whatever is held comes out with it. Without a new
      source the held ones come out exactly at a drain's end. */
  lemma {:induction false} WhatBecomesOfASource(nb: nat, gop: nat, xs: seq<Input>, x: Input)
    requires nb >= 1
    ensures
      var r := Exec(nb, gop, xs);
      var t, held := Exec(nb, gop, xs + [x]), r.g.nHeld;
      var away := SinceIdr(r.pics) + held + 1;     // how far the source is from the last IDR
      if !x.hasNew then
        if x.last && held > 0 then Coded(r, t, held, P) else t.pics == r.pics && t.g.nHeld == held
      else if r.pics == [] || x.force || (gop > 0 && away >= gop) then Coded(r, t, held + 1, IDR)
      else if x.last || held >= nb || (gop > 0 && away + 1 >= gop) then Coded(r, t, held + 1, P)
      else HeldOn(r, t)
  {
    var r := Exec(nb, gop, xs);
    ExecInv(nb, gop, xs);
    assert (xs + [x])[..|xs|] == xs && Last(xs + [x]) == x;
    match Decide(r.g, x.hasNew, x.force, x.last)
    case Key => KeyCodes(r, x);
    case Hold => IdleJob(r, x);
    case Nothing => IdleJob(r, x);
    case _ => MiniGopCodes(r, x);
  }

  // ---- full mini-GOPs -----------------------------------------------------------------

  /** The picture j is a P with fewer than nb Bs before it. */
  predicate ShortAt(nb: nat, ps: seq<Pic>, j: int)
    requires 0 <= j < |ps|
  {
    ps[j].kind == P && TrailingBs(ps[..j]) < nb
  }

  /** Every short mini-GOP is one that an IDR follows, or will follow with the next source. */
  ghost predicate OnlyShortBeforeIdr(r: Run) {
    forall j :: 0 <= j < |r.pics| && ShortAt(r.g.nb, r.pics, j) ==>
      if j + 1 < |r.pics| then r.pics[j + 1].kind == IDR else r.g.gop > 0 && r.g.dist >= r.g.gop
  }

  lemma {:induction false} ShortInPrefix(nb: nat, q: seq<Pic>, ps: seq<Pic>, j: int)
    requires 0 <= j < |q|
    ensures ShortAt(nb, q + ps, j) == ShortAt(nb, q, j) && (q + ps)[j] == q[j]
  {
    assert (q + ps)[..j] == q[..j];
  }

  /** Bs that no anchor has followed yet, behind one. */
  lemma {:induction false} TrailingOf(q: seq<Pic>, bs: seq<Pic>)
    requires q != [] && Last(q).kind != B && forall i :: 0 <= i < |bs| ==> bs[i].kind == B
    ensures TrailingBs(q + bs) == |bs|
  {
    if bs == [] {
      assert q + bs == q;
    } else {
      TrailingOf(q, bs[..|bs| - 1]);
      assert (q + bs)[..|q + bs| - 1] == q + bs[..|bs| - 1];
    }
  }

  /** A mini-GOP behind an anchor that is not short: only its own P can be. */
  lemma {:induction false} MiniGopShort(nb: nat, q: seq<Pic>, ps: seq<Pic>, nbs: nat, j: int)
    requires q != [] && Last(q).kind != B && MiniGopPics(nb, Last(q), ps, nbs) && 0 <= j < |q + ps|
    requires ShortAt(nb, q + ps, j)
    ensures (j < |q| && ShortAt(nb, q, j)) || (j == |q| + nbs && nbs < nb)
  {
    if j < |q| {
      ShortInPrefix(nb, q, ps, j);
    } else {
      assert (q + ps)[j] == ps[j - |q|];
      assert j == |q| + nbs;
      assert (q + ps)[..j] == q + ps[..nbs];
      TrailingOf(q, ps[..nbs]);
    }
  }

  lemma {:induction false} AnchorKeepsFull(r: Run, x: Input)
    requires Inv(r) && OnlyShortBeforeIdr(r) && !x.last
    requires Decide(r.g, x.hasNew, x.force, x.last) == Anchor
    ensures OnlyShortBeforeIdr(Job(r, x))
  {
    MiniGopJob(r, x);
    var t, ps := Job(r, x), Place(r, |r.pics|, MiniGopFrames(r.g, r.g.nHeld), x.force);
    PlacedMiniGop(r, r.g.nHeld, x.force);
    assert t.pics == r.pics + ps;
    forall j | 0 <= j < |t.pics| && ShortAt(t.g.nb, t.pics, j)
      ensures if j + 1 < |t.pics| then t.pics[j + 1].kind == IDR else t.g.gop > 0 && t.g.dist >= t.g.gop
    {
      MiniGopShort(r.g.nb, r.pics, ps, r.g.nHeld, j);
    }
  }

  /** Behind anything an IDR makes every short mini-GOP one that it follows. */
  lemma {:induction false} IdrEndsShort(q: seq<Pic>, nb: nat, p: Pic, j: int)
    requires p.kind == IDR && 0 <= j < |q + [p]| && ShortAt(nb, q + [p], j)
    ensures j < |q| && ShortAt(nb, q, j)
  {
    if j < |q| {
      ShortInPrefix(nb, q, [p], j);
    }
  }

  /** Each short mini-GOP of ps is followed by an IDR. */
  ghost predicate ShortEnd(nb: nat, ps: seq<Pic>) {
    forall j :: 0 <= j < |ps| && ShortAt(nb, ps, j) ==> j + 1 < |ps| && ps[j + 1].kind == IDR
  }

  /** But for the last picture. */
  ghost predicate ShortEndOr(nb: nat, ps: seq<Pic>) {
    forall j :: 0 <= j < |ps| - 1 && ShortAt(nb, ps, j) ==> ps[j + 1].kind == IDR
  }

  lemma {:induction false} IdrEnds(nb: nat, q: seq<Pic>, p: Pic)
    requires ShortEndOr(nb, q) && p.kind == IDR
    ensures ShortEnd(nb, q + [p])
  {
    forall j | 0 <= j < |q + [p]| && ShortAt(nb, q + [p], j) ensures j + 1 < |q + [p]| && (q + [p])[j + 1].kind == IDR {
      IdrEndsShort(q, nb, p, j);
    }
  }

  lemma {:induction false} ClosedBeforeIdr(nb: nat, q: seq<Pic>, ps: seq<Pic>, nbs: nat)
    requires q != [] && Last(q).kind != B && MiniGopPics(nb, Last(q), ps, nbs) && ShortEnd(nb, q)
    ensures ShortEndOr(nb, q + ps)
  {
    forall j | 0 <= j < |q + ps| - 1 && ShortAt(nb, q + ps, j) ensures (q + ps)[j + 1].kind == IDR {
      MiniGopShort(nb, q, ps, nbs, j);
    }
  }

  /** With something held nothing short is pending. */
  lemma {:induction false} NothingPending(r: Run)
    requires Inv(r) && OnlyShortBeforeIdr(r)
    ensures ShortEndOr(r.g.nb, r.pics) && (r.g.nHeld > 0 ==> ShortEnd(r.g.nb, r.pics))
  {
  }

  lemma {:induction false} KeyKeepsFull(r: Run, x: Input)
    requires Inv(r) && OnlyShortBeforeIdr(r) && Decide(r.g, x.hasNew, x.force, x.last) == Key
    ensures OnlyShortBeforeIdr(Job(r, x))
  {
    NothingPending(r);
    var nb := r.g.nb;
    if r.g.nHeld == 0 {
      KeyAlonePics(r, x);
      IdrEnds(nb, r.pics, Last(Job(r, x).pics));
    } else {
      KeyHeldPics(r, x);
      PlacedMiniGop(r, r.g.nHeld - 1, x.force);
      var ps, p := Place(r, |r.pics|, MiniGopFrames(r.g, r.g.nHeld - 1), x.force), Last(Job(r, x).pics);
      ClosedBeforeIdr(nb, r.pics, ps, r.g.nHeld - 1);
      IdrEnds(nb, r.pics + ps, p);
    }
  }

  lemma {:induction false} ExecFull(nb: nat, gop: nat, xs: seq<Input>)
    requires nb >= 1 && forall i :: 0 <= i < |xs| ==> !xs[i].last
    ensures OnlyShortBeforeIdr(Exec(nb, gop, xs))
  {
    if xs != [] {
      var r, x := Exec(nb, gop, xs[..|xs| - 1]), Last(xs);
      ExecFull(nb, gop, xs[..|xs| - 1]);
      ExecInv(nb, gop, xs[..|xs| - 1]);
      match Decide(r.g, x.hasNew, x.force, x.last)
      case Anchor => AnchorKeepsFull(r, x);
      case Key => KeyKeepsFull(r, x);
      case _ => IdleJob(r, x);
    }
  }

  /** Without a drain every P has exactly nb Bs before it, but for one right before an IDR; with no
      GOP length and no key asked for there is none, and the whole stream is IDR, nb Bs, P, nb Bs, P. */
  lemma {:induction false} MiniGopsAreFull(nb: nat, gop: nat, xs: seq<Input>, j: nat)
    requires nb >= 1 && j < |Exec(nb, gop, xs).pics| && forall i :: 0 <= i < |xs| ==> !xs[i].last
    ensures
      var ps := Exec(nb, gop, xs).pics;
      && (ps[j].kind == P ==>
            || TrailingBs(ps[..j]) == nb
            || (if j + 1 < |ps| then ps[j + 1].kind == IDR else gop > 0))
      && (gop == 0 && (forall i :: 0 <= i < |xs| ==> !xs[i].force) ==>
            ps[j].kind == if j == 0 then IDR else if j % (nb + 1) == 0 then P else B)
  {
    ExecInv(nb, gop, xs);
    ExecFull(nb, gop, xs);
    var r := Exec(nb, gop, xs);
    if r.pics[j].kind == P {
      GoodIsPrefixClosed(nb, gop, r.pics, j);
      assert r.pics[..j][0] == r.pics[0];
      BRun(nb, gop, r.pics, j, j);
      assert TrailingBs(r.pics[..j]) == nb || ShortAt(nb, r.pics, j);
    }
    if gop == 0 && forall i :: 0 <= i < |xs| ==> !xs[i].force {
      ExecUnforced(nb, gop, xs);
      Steady(nb, r, j);
    }
  }

  lemma {:induction false} ExecUnforced(nb: nat, gop: nat, xs: seq<Input>)
    requires nb >= 1 && forall i :: 0 <= i < |xs| ==> !xs[i].force
    ensures forall j :: 0 <= j < |Exec(nb, gop, xs).pics| ==> !Exec(nb, gop, xs).pics[j].forced
  {
    if xs != [] {
      ExecUnforced(nb, gop, xs[..|xs| - 1]);
    }
  }

  lemma {:induction false} TrailingMeans(ps: seq<Pic>, j: nat)
    requires 0 < j <= |ps| && ps[0].kind != B
    ensures
      var n := TrailingBs(ps[..j]);
      n < j && ps[j - 1 - n].kind != B && forall i :: j - n <= i < j ==> ps[i].kind == B
    decreases j
  {
    assert Last(ps[..j]) == ps[j - 1] && ps[..j][..j - 1] == ps[..j - 1];
    if ps[j - 1].kind == B {
      TrailingMeans(ps, j - 1);
    }
  }

  /** With every mini-GOP full the frameNumber is the place in the stream. */
  lemma {:induction false} Steady(nb: nat, r: Run, j: nat)
    requires Inv(r) && r.g.nb == nb && r.g.gop == 0 && OnlyShortBeforeIdr(r) && j < |r.pics|
    requires forall i :: 0 <= i < |r.pics| ==> !r.pics[i].forced
    ensures r.pics[j].fn == r.pics[j].poc == j && (r.pics[j].kind == IDR <==> j == 0)
    ensures r.pics[j].kind == if j == 0 then IDR else if j % (nb + 1) == 0 then P else B
    decreases j
  {
    KindByPoc(nb, 0, r.pics, j);
    NumberInSteady(nb, r, j);
  }

  lemma {:induction false} NoSecondIdr(nb: nat, r: Run, j: nat)
    requires Inv(r) && r.g.nb == nb && r.g.gop == 0 && j < |r.pics| && !r.pics[j].forced
    ensures (r.pics[j].kind == IDR <==> j == 0) && r.pics[0].poc == r.pics[0].fn == 0
  {
    GoodIsPrefixClosed(nb, 0, r.pics, j);
    GoodIsPrefixClosed(nb, 0, r.pics, 0);
  }

  lemma {:induction false} NumberInSteady(nb: nat, r: Run, j: nat)
    requires Inv(r) && r.g.nb == nb && r.g.gop == 0 && OnlyShortBeforeIdr(r) && j < |r.pics|
    requires forall i :: 0 <= i < |r.pics| ==> !r.pics[i].forced
    ensures r.pics[j].fn == r.pics[j].poc == j && (r.pics[j].kind == IDR <==> j == 0)
    decreases j
  {
    NoSecondIdr(nb, r, j);
    if j > 0 {
      NumberInSteady(nb, r, j - 1);
      GoodIsPrefixClosed(nb, 0, r.pics, j);
      assert Last(r.pics[..j]) == r.pics[j - 1];
      if r.pics[j].kind == P {
        var i := FullAnchor(nb, r, j);
        NumberInSteady(nb, r, i);
        NumberOfP(nb, r.pics[..j], r.pics[j]);
      } else {
        NumberOfB(nb, r.pics[..j], r.pics[j]);
      }
    }
  }

  lemma {:induction false} NumberOfB(nb: nat, q: seq<Pic>, p: Pic)
    requires q != [] && Follows(nb, 0, q, p) && p.kind == B && Last(q).fn == Last(q).poc == |q| - 1
    ensures p.fn == p.poc == |q|
  {
  }

  lemma {:induction false} NumberOfP(nb: nat, q: seq<Pic>, p: Pic)
    requires q != [] && q[0].kind != B && Follows(nb, 0, q, p) && p.kind == P && Last(q).fn == Last(q).poc == |q| - 1
    requires LastAnchor(q).fn + nb + 1 == |q|
    ensures p.fn == p.poc == |q|
  {
  }

  lemma {:induction false} FullAnchor(nb: nat, r: Run, j: nat) returns (i: nat)
    requires Inv(r) && r.g.nb == nb && r.g.gop == 0 && OnlyShortBeforeIdr(r) && 0 < j < |r.pics| && r.pics[j].kind == P
    requires forall k :: 0 <= k < |r.pics| ==> !r.pics[k].forced
    ensures i + nb + 1 == j && r.pics[..j][0].kind == IDR && LastAnchor(r.pics[..j]) == r.pics[i]
  {
    StartsWithIdr(nb, 0, r.pics);
    FullBefore(nb, r, j);
    TrailingMeans(r.pics, j);
    i := j - 1 - nb;
    AnchorBefore(r.pics, i, j);
  }

  lemma {:induction false} FullBefore(nb: nat, r: Run, j: nat)
    requires Inv(r) && r.g.nb == nb && r.g.gop == 0 && OnlyShortBeforeIdr(r) && 0 < j < |r.pics| && r.pics[j].kind == P
    requires forall i :: 0 <= i < |r.pics| ==> !r.pics[i].forced
    ensures TrailingBs(r.pics[..j]) == nb
  {
    BRun(nb, 0, r.pics, j, j);
    if ShortAt(nb, r.pics, j) && j + 1 < |r.pics| {
      NoSecondIdr(nb, r, j + 1);
    }
  }
}
