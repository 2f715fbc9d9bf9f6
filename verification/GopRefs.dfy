/** Planner and reference picture sets together: in every run, decoded in the order the
    firmware sends it, each picture finds what its set names. The decoder is the marking
    process of section 8.3.2 of ITU-T H.265: a picture not named by the current set stops
    being a reference, and the current picture becomes one. */
module GopRefs {
  import opened GopPlanner
  import opened GopRuns
  import opened GopOutput
  import opened HevcRps
  import opened LittleEndian
  import opened Remainders

  /** The POCs a set names when the picture p uses it. */
  function Named(p: Pic, s: Rps): set<int> {
    (set d | d in s.neg :: p.poc + d) + (set d | d in s.pos :: p.poc + d)
  }

  /** Decoded picture buffer: the reference pictures since the last IDR, by POC. */
  type Dpb = map<int, Pic>

  function Kept(dpb: Dpb, names: set<int>): Dpb {
    map q | q in dpb && q in names :: dpb[q]
  }

  function Mark(dpb: Dpb, p: Pic, names: set<int>): Dpb {
    if p.kind == IDR then map[p.poc := p] else Kept(dpb, names)[p.poc := p]
  }

  /** The buffer after decoding d, each picture with its set. */
  function After(d: seq<Pic>, sets: seq<Rps>): Dpb
    requires |d| == |sets|
  {
    if d == [] then map[]
    else Mark(After(d[..|d| - 1], sets[..|sets| - 1]), Last(d), Named(Last(d), Last(sets)))
  }

  // ---- what the sets amount to on the planner's grid ----------------------------------

  /** The anchors a picture at this POC must name: the one before it, and for a B the one
      after it too. */
  function GridNames(nb: nat, poc: nat): set<int> {
    var r := Rem(poc, nb + 1);
    if r == 0 then {poc - (nb + 1)} else {poc - r, poc - r + nb + 1}
  }

  lemma {:induction false} AtMostTwo(nb: nat, poc: nat)
    ensures |GridNames(nb, poc)| <= 2
  {
  }

  lemma {:induction false} BSetByRem(nb: nat, idx: nat)
    ensures
      var r: int := Rem(idx, nb + 1);
      BSet(nb, idx) == if r == 0 then Rps([0 - (nb + 1)], []) else Rps([0 - r], [nb + 1 - r])
  {
  }

  lemma {:induction false} NamesOne(p: Pic, x: int)
    ensures Named(p, Rps([x], [])) == {p.poc + x}
  {
    assert x in [x];
  }

  lemma {:induction false} NamesTwo(p: Pic, x: int, y: int)
    ensures Named(p, Rps([x], [y])) == {p.poc + x, p.poc + y}
  {
    assert x in [x] && y in [y];
  }

  /** Any set whose index is congruent to the POC names exactly those. */
  lemma {:induction false} SetNamesTheGrid(nb: nat, idx: nat, p: Pic)
    requires p.poc >= 0 && Rem(idx, nb + 1) == Rem(p.poc, nb + 1)
    ensures Named(p, BSet(nb, idx)) == GridNames(nb, p.poc)
  {
    var r: int := Rem(idx, nb + 1);
    BSetByRem(nb, idx);
    if r == 0 {
      NamesOne(p, 0 - (nb + 1));
    } else {
      NamesTwo(p, 0 - r, nb + 1 - r);
    }
  }

  /** The sets the builder writes cover every POC: a congruent index always exists. */
  lemma {:induction false} SomeSetFits(nb: nat, poc: nat) returns (idx: nat)
    requires nb == 1 || nb == 2
    ensures idx < BSets(nb) && Congruent(idx, poc, nb)
    ensures idx % (nb + 1) == poc % (nb + 1)
  {
    idx := Rem(poc, nb + 1);
    RemIsMod(poc, nb + 1);
    RemIsMod(idx, nb + 1);
  }

  // ---- the buffer along a run ---------------------------------------------------------

  /** After, with every picture naming its grid anchors. */
  ghost function Grid(nb: nat, d: seq<Pic>): Dpb {
    if d == [] then map[]
    else
      var p := Last(d);
      Mark(Grid(nb, d[..|d| - 1]), p, if p.poc >= 0 then GridNames(nb, p.poc) else {})
  }

  /** q is the anchor the Bs around position k of the stream wait for. */
  ghost predicate NextAnchor(ps: seq<Pic>, k: nat, q: Pic) {
    && k < q.disp < |ps| && ps[q.disp] == q && q.kind == P
    && forall i :: k <= i < q.disp ==> ps[i].kind == B
  }

  /** p finds, under the POCs it names, the anchor displayed before it and, for a B, the one
      displayed after it. */
  ghost predicate Finds(nb: nat, ps: seq<Pic>, dpb: Dpb, p: Pic) {
    p.kind != IDR ==>
      && p.poc >= 0 && 1 <= p.disp < |ps| && ps[0].kind == IDR
      && var r := Rem(p.poc, nb + 1);
      && (p.kind == P ==>
            && r == 0
            && p.poc - (nb + 1) in dpb && dpb[p.poc - (nb + 1)] == LastAnchor(ps[..p.disp]))
      && (p.kind == B ==>
            && r != 0
            && p.poc - r in dpb && dpb[p.poc - r] == LastAnchor(ps[..p.disp])
            && p.poc - r + nb + 1 in dpb && NextAnchor(ps, p.disp, dpb[p.poc - r + nb + 1]))
  }

  ghost predicate AllFind(nb: nat, ps: seq<Pic>, d: seq<Pic>) {
    d == [] || (AllFind(nb, ps, d[..|d| - 1]) && Finds(nb, ps, Grid(nb, d[..|d| - 1]), Last(d)))
  }

  lemma {:induction false} FindsGrows(nb: nat, ps: seq<Pic>, b: seq<Pic>, dpb: Dpb, p: Pic)
    requires Finds(nb, ps, dpb, p)
    ensures Finds(nb, ps + b, dpb, p)
  {
    if p.kind != IDR {
      assert (ps + b)[..p.disp] == ps[..p.disp];
    }
  }

  lemma {:induction false} AllFindGrows(nb: nat, ps: seq<Pic>, b: seq<Pic>, d: seq<Pic>)
    requires AllFind(nb, ps, d)
    ensures AllFind(nb, ps + b, d)
  {
    if d != [] {
      var e := d[..|d| - 1];
      AllFindGrows(nb, ps, b, e);
      FindsGrows(nb, ps, b, Grid(nb, e), Last(d));
    }
  }

  lemma {:induction false} AllFindAppend(nb: nat, ps: seq<Pic>, d: seq<Pic>, p: Pic)
    requires AllFind(nb, ps, d) && Finds(nb, ps, Grid(nb, d), p)
    ensures AllFind(nb, ps, d + [p])
    ensures Grid(nb, d + [p]) == Mark(Grid(nb, d), p, if p.poc >= 0 then GridNames(nb, p.poc) else {})
  {
    assert (d + [p])[..|d|] == d;
  }

  ghost predicate HasAnchor(dpb: Dpb, p: Pic) {
    p.poc in dpb && dpb[p.poc] == p
  }

  /** The picture p finds waiting to be shown is one it refers to. */
  ghost predicate Fits(nb: nat, dpb: Dpb, wait: seq<Pic>, p: Pic) {
    p.kind != IDR ==>
      p.poc >= 0 && |wait| == 1 && HasAnchor(dpb, wait[0]) && wait[0].poc in GridNames(nb, p.poc)
  }

  ghost predicate AllFit(nb: nat, d: seq<Pic>) {
    d == [] || (AllFit(nb, d[..|d| - 1]) && Fits(nb, Grid(nb, d[..|d| - 1]), Output(d[..|d| - 1]).wait, Last(d)))
  }

  lemma {:induction false} AllFitAppend(nb: nat, d: seq<Pic>, p: Pic)
    requires AllFit(nb, d) && Fits(nb, Grid(nb, d), Output(d).wait, p)
    ensures AllFit(nb, d + [p])
  {
    assert (d + [p])[..|d|] == d;
  }

  lemma {:induction false} AllFitAt(nb: nat, d: seq<Pic>, k: nat)
    requires AllFit(nb, d) && k < |d|
    ensures Fits(nb, Grid(nb, d[..k]), Output(d[..k]).wait, d[k])
    decreases |d|
  {
    if k < |d| - 1 {
      AllFitAt(nb, d[..|d| - 1], k);
      assert d[..|d| - 1][..k] == d[..k];
    }
  }

  /** What one picture of a mini-GOP does to the buffer. */
  lemma {:induction false} MarkP(nb: nat, dpb: Dpb, a: Pic, p: Pic)
    requires a.poc >= 0 && Rem(a.poc, nb + 1) == 0 && HasAnchor(dpb, a)
    requires p.kind == P && p.poc == a.poc + nb + 1
    ensures Rem(p.poc, nb + 1) == 0
    ensures
      var t := Mark(dpb, p, GridNames(nb, p.poc));
      HasAnchor(t, a) && HasAnchor(t, p)
  {
    RemShift(a.poc, nb + 1, 0);
  }

  lemma {:induction false} MarkB(nb: nat, dpb: Dpb, a: Pic, p: Pic, b: Pic, i: nat)
    requires a.poc >= 0 && Rem(a.poc, nb + 1) == 0 && HasAnchor(dpb, a) && HasAnchor(dpb, p)
    requires p.poc == a.poc + nb + 1 && 1 <= i <= nb && b.kind == B && b.poc == a.poc + i
    ensures Rem(b.poc, nb + 1) == i
    ensures
      var t := Mark(dpb, b, GridNames(nb, b.poc));
      HasAnchor(t, a) && HasAnchor(t, p)
  {
    RemShift(a.poc, nb + 1, i);
  }

  lemma {:induction false} BsAfterAnchor(q: seq<Pic>, bs: seq<Pic>)
    requires q != [] && q[0].kind == IDR && Last(q).kind != B
    requires forall i :: 0 <= i < |bs| ==> bs[i].kind == B
    ensures LastAnchor(q + bs) == Last(q)
  {
    if bs == [] {
      assert q + bs == q;
    } else {
      BsAfterAnchor(q, bs[..|bs| - 1]);
      assert (q + bs)[..|q + bs| - 1] == q + bs[..|bs| - 1];
    }
  }

  lemma {:induction false} FindsP(nb: nat, gop: nat, q: seq<Pic>, ps: seq<Pic>, nbs: nat, dpb: Dpb)
    requires EndsInAnchor(nb, gop, q) && MiniGopPics(nb, Last(q), ps, nbs)
    requires HasAnchor(dpb, Last(q))
    ensures Finds(nb, q + ps, dpb, ps[nbs])
  {
    DispIsIndex(nb, gop, q);
    RemShift(Last(q).poc, nb + 1, 0);
    assert (q + ps)[..ps[nbs].disp] == q + ps[..nbs];
    BsAfterAnchor(q, ps[..nbs]);
  }

  lemma {:induction false} FindsB(nb: nat, gop: nat, q: seq<Pic>, ps: seq<Pic>, nbs: nat, i: nat, dpb: Dpb)
    requires EndsInAnchor(nb, gop, q) && MiniGopPics(nb, Last(q), ps, nbs) && i < nbs <= nb
    requires HasAnchor(dpb, Last(q)) && HasAnchor(dpb, ps[nbs])
    ensures Finds(nb, q + ps, dpb, ps[i])
  {
    DispIsIndex(nb, gop, q);
    RemShift(Last(q).poc, nb + 1, i + 1);
    assert (q + ps)[..ps[i].disp] == q + ps[..i];
    BsAfterAnchor(q, ps[..i]);
    assert NextAnchor(q + ps, ps[i].disp, ps[nbs]);
  }

  /** The decoder is ready for a B between the anchors a and b. */
  ghost predicate Between(nb: nat, ps: seq<Pic>, e: seq<Pic>, a: Pic, b: Pic) {
    AllFind(nb, ps, e) && HasAnchor(Grid(nb, e), a) && HasAnchor(Grid(nb, e), b)
  }

  /** And b waits to be shown. */
  ghost predicate Waiting(nb: nat, e: seq<Pic>, b: Pic) {
    AllFit(nb, e) && Output(e).wait == [b]
  }

  lemma {:induction false} WaitingP(nb: nat, d: seq<Pic>, a: Pic, p: Pic)
    requires Waiting(nb, d, a) && HasAnchor(Grid(nb, d), a)
    requires p.kind == P && p.poc == a.poc + nb + 1 && p.poc >= 0 && Rem(p.poc, nb + 1) == 0
    ensures Waiting(nb, d + [p], p) && Output(d + [p]).shown == Output(d).shown + [a]
  {
    AllFitAppend(nb, d, p);
    OutputAppend(d, p);
    ShowsAnchor(Output(d), a, p);
  }

  lemma {:induction false} WaitingB(nb: nat, e: seq<Pic>, a: Pic, b: Pic, i: nat)
    requires Waiting(nb, e, a) && HasAnchor(Grid(nb, e), a) && 1 <= i <= nb
    requires b.kind == B && b.poc >= 0 && Rem(b.poc, nb + 1) == i && a.poc == b.poc - i + nb + 1
    ensures Waiting(nb, e + [b], a) && Output(e + [b]).shown == Output(e).shown + [b]
  {
    AllFitAppend(nb, e, b);
    OutputAppend(e, b);
    ShowsB(Output(e), a, b);
  }

  lemma {:induction false} DecodeP(nb: nat, gop: nat, q: seq<Pic>, d: seq<Pic>, ps: seq<Pic>, nbs: nat)
    requires EndsInAnchor(nb, gop, q) && MiniGopPics(nb, Last(q), ps, nbs)
    requires AllFind(nb, q, d) && HasAnchor(Grid(nb, d), Last(q)) && Waiting(nb, d, Last(q))
    ensures Between(nb, q + ps, d + [ps[nbs]], Last(q), ps[nbs])
    ensures Waiting(nb, d + [ps[nbs]], ps[nbs]) && Output(d + [ps[nbs]]).shown == Output(d).shown + [Last(q)]
  {
    AllFindGrows(nb, q, ps, d);
    FindsP(nb, gop, q, ps, nbs, Grid(nb, d));
    AllFindAppend(nb, q + ps, d, ps[nbs]);
    MarkP(nb, Grid(nb, d), Last(q), ps[nbs]);
    WaitingP(nb, d, Last(q), ps[nbs]);
  }

  lemma {:induction false} DecodeB(nb: nat, gop: nat, q: seq<Pic>, e: seq<Pic>, ps: seq<Pic>, nbs: nat, i: nat)
    requires EndsInAnchor(nb, gop, q) && MiniGopPics(nb, Last(q), ps, nbs) && i < nbs <= nb
    requires Between(nb, q + ps, e, Last(q), ps[nbs]) && Waiting(nb, e, ps[nbs])
    ensures Between(nb, q + ps, e + [ps[i]], Last(q), ps[nbs])
    ensures Waiting(nb, e + [ps[i]], ps[nbs]) && Output(e + [ps[i]]).shown == Output(e).shown + [ps[i]]
  {
    FindsB(nb, gop, q, ps, nbs, i, Grid(nb, e));
    AllFindAppend(nb, q + ps, e, ps[i]);
    MarkB(nb, Grid(nb, e), Last(q), ps[nbs], ps[i], i + 1);
    WaitingB(nb, e, ps[nbs], ps[i], i + 1);
  }

  /** What is decoded once a mini-GOP's P and its first i Bs are. */
  function WithBs(d: seq<Pic>, ps: seq<Pic>, i: nat): (e: seq<Pic>)
    requires i < |ps|
    ensures |e| == |d| + 1 + i
  {
    if i == 0 then d + [Last(ps)] else WithBs(d, ps, i - 1) + [ps[i - 1]]
  }

  lemma {:induction false} WithBsIsDecodeOrder(d: seq<Pic>, ps: seq<Pic>, i: nat)
    requires i < |ps|
    ensures WithBs(d, ps, i) == d + [Last(ps)] + ps[..i]
  {
    if i > 0 {
      WithBsIsDecodeOrder(d, ps, i - 1);
      assert ps[..i] == ps[..i - 1] + [ps[i - 1]];
    }
  }

  /** Where the decoder is once the P and i Bs are decoded. */
  ghost predicate InMiniGop(nb: nat, q: seq<Pic>, d: seq<Pic>, ps: seq<Pic>, e: seq<Pic>, i: nat)
    requires q != [] && i < |ps|
  {
    && Between(nb, q + ps, e, Last(q), Last(ps)) && Waiting(nb, e, Last(ps))
    && Output(e).shown == Output(d).shown + [Last(q)] + ps[..i]
  }

  lemma {:induction false} OneMoreShown(shown: seq<Pic>, ps: seq<Pic>, i: nat)
    requires i < |ps|
    ensures shown + ps[..i] + [ps[i]] == shown + ps[..i + 1]
  {
  }

  lemma {:induction false} NextB(nb: nat, gop: nat, q: seq<Pic>, d: seq<Pic>, ps: seq<Pic>, nbs: nat, e: seq<Pic>, i: nat)
    requires EndsInAnchor(nb, gop, q) && MiniGopPics(nb, Last(q), ps, nbs) && i < nbs <= nb
    requires Between(nb, q + ps, e, Last(q), ps[nbs]) && Waiting(nb, e, ps[nbs])
    requires Output(e).shown == Output(d).shown + [Last(q)] + ps[..i]
    ensures Between(nb, q + ps, e + [ps[i]], Last(q), ps[nbs]) && Waiting(nb, e + [ps[i]], ps[nbs])
    ensures Output(e + [ps[i]]).shown == Output(d).shown + [Last(q)] + ps[..i + 1]
  {
    DecodeB(nb, gop, q, e, ps, nbs, i);
    OneMoreShown(Output(d).shown + [Last(q)], ps, i);
  }

  lemma {:induction false} NextInMiniGop(nb: nat, gop: nat, q: seq<Pic>, d: seq<Pic>, ps: seq<Pic>, nbs: nat, e: seq<Pic>, i: nat)
    requires EndsInAnchor(nb, gop, q) && MiniGopPics(nb, Last(q), ps, nbs) && i < nbs <= nb
    requires InMiniGop(nb, q, d, ps, e, i)
    ensures InMiniGop(nb, q, d, ps, e + [ps[i]], i + 1)
  {
    NextB(nb, gop, q, d, ps, nbs, e, i);
  }

  /** What holds once the P is decoded, and goes on from each B to the next, holds for the mini-GOP. */
  lemma {:induction false} BByB(d: seq<Pic>, ps: seq<Pic>, i: nat, p: (seq<Pic>, int) -> bool)
    requires i < |ps| && p(d + [Last(ps)], 0)
    requires forall e: seq<Pic>, j :: 0 <= j < |ps| - 1 && p(e, j) ==> p(e + [ps[j]], j + 1)
    ensures p(WithBs(d, ps, i), i)
  {
    if i > 0 {
      BByB(d, ps, i - 1, p);
    }
  }

  lemma {:induction false} DecodeBs(nb: nat, gop: nat, q: seq<Pic>, d: seq<Pic>, ps: seq<Pic>, nbs: nat)
    requires EndsInAnchor(nb, gop, q) && MiniGopPics(nb, Last(q), ps, nbs) && nbs <= nb
    requires InMiniGop(nb, q, d, ps, d + [Last(ps)], 0)
    ensures InMiniGop(nb, q, d, ps, WithBs(d, ps, nbs), nbs)
  {
    var p := (e: seq<Pic>, i: int) => 0 <= i <= nbs && InMiniGop(nb, q, d, ps, e, i);
    forall e: seq<Pic>, j | 0 <= j < nbs && p(e, j) ensures p(e + [ps[j]], j + 1) {
      NextInMiniGop(nb, gop, q, d, ps, nbs, e, j);
    }
    BByB(d, ps, nbs, p);
  }

  lemma {:induction false} DecodeMiniGop(nb: nat, gop: nat, q: seq<Pic>, d: seq<Pic>, ps: seq<Pic>, nbs: nat)
    requires EndsInAnchor(nb, gop, q) && MiniGopPics(nb, Last(q), ps, nbs) && nbs <= nb
    requires AllFind(nb, q, d) && HasAnchor(Grid(nb, d), Last(q)) && Waiting(nb, d, Last(q))
    ensures InMiniGop(nb, q, d, ps, d + InDecodeOrder(ps), nbs)
  {
    DecodeP(nb, gop, q, d, ps, nbs);
    assert Output(d).shown + [Last(q)] == Output(d).shown + [Last(q)] + ps[..0];
    DecodeBs(nb, gop, q, d, ps, nbs);
    WithBsIsDecodeOrder(d, ps, nbs);
    AnchorFirst(d, ps);
  }

  ghost predicate RefOk(nb: nat, ps: seq<Pic>, d: seq<Pic>) {
    && AllFind(nb, ps, d)
    && (ps != [] ==> HasAnchor(Grid(nb, d), Last(ps)))
    && AllFit(nb, d) && Output(d) == ShownUpTo(ps)
  }

  /** All but the last are out. */
  function ShownUpTo(ps: seq<Pic>): Out {
    if ps == [] then Out([], []) else Out([Last(ps)], ps[..|ps| - 1])
  }

  lemma {:induction false} ShownOn(q: seq<Pic>, ps: seq<Pic>)
    requires q != [] && ps != []
    ensures ShownUpTo(q + ps) == Out([Last(ps)], q[..|q| - 1] + [Last(q)] + ps[..|ps| - 1])
  {
    assert q + ps == q[..|q| - 1] + [Last(q)] + ps[..|ps| - 1] + [Last(ps)];
  }

  lemma {:induction false} AnchorFirst(d: seq<Pic>, ps: seq<Pic>)
    requires ps != []
    ensures d + InDecodeOrder(ps) == d + [Last(ps)] + ps[..|ps| - 1]
  {
  }

  lemma {:induction false} MiniGopRefOk(r: Run, nbs: nat, forced: bool)
    requires EndsInAnchor(r.g.nb, r.g.gop, r.pics) && nbs <= r.g.nb
    requires Last(r.pics).fn == r.g.fnAnchor && Last(r.pics).poc == r.g.fnAnchor - r.idrFn
    requires RefOk(r.g.nb, r.pics, r.decode)
    ensures
      var t := Send(r, |r.pics|, MiniGopFrames(r.g, nbs), forced);
      RefOk(r.g.nb, t.pics, t.decode)
  {
    var ps := Place(r, |r.pics|, MiniGopFrames(r.g, nbs), forced);
    PlacedMiniGop(r, nbs, forced);
    DecodeMiniGop(r.g.nb, r.g.gop, r.pics, r.decode, ps, nbs);
    ShownOn(r.pics, ps);
  }

  lemma {:induction false} AddIdr(nb: nat, ps: seq<Pic>, d: seq<Pic>, p: Pic)
    requires RefOk(nb, ps, d) && p.kind == IDR
    ensures RefOk(nb, ps + [p], d + [p])
  {
    AllFindGrows(nb, ps, [p], d);
    AllFindAppend(nb, ps + [p], d, p);
    IdrShows(nb, ps, d, p);
  }

  lemma {:induction false} IdrShows(nb: nat, ps: seq<Pic>, d: seq<Pic>, p: Pic)
    requires AllFit(nb, d) && Output(d) == ShownUpTo(ps) && p.kind == IDR
    ensures AllFit(nb, d + [p]) && Output(d + [p]) == ShownUpTo(ps + [p])
  {
    AllFitAppend(nb, d, p);
    OutputAppend(d, p);
    ShowsIdr(Output(d), p);
    ShownAll(ps, p);
  }

  lemma {:induction false} ShownAll(ps: seq<Pic>, p: Pic)
    ensures ShownUpTo(ps).shown + ShownUpTo(ps).wait == ps && ShownUpTo(ps + [p]) == Out([p], ps)
  {
    assert (ps + [p])[..|ps|] == ps;
  }

  lemma {:induction false} IdrRefOk(r: Run, base: nat, src: nat, fn: nat, forced: bool)
    requires RefOk(r.g.nb, r.pics, r.decode)
    ensures
      var t := Send(r, base, [Frame(src, IDR, fn)], forced);
      RefOk(r.g.nb, t.pics, t.decode)
  {
    var ps := Place(r, base, [Frame(src, IDR, fn)], forced);
    AddIdr(r.g.nb, r.pics, r.decode, ps[0]);
    assert ps == [ps[0]] && InDecodeOrder(ps) == [ps[0]];
  }

  lemma {:induction false} CloseRefOk(r: Run, forced: bool, r1: Run)
    requires Inv(r) && r.g.nHeld > 0 && RefOk(r.g.nb, r.pics, r.decode)
    requires r1 == Send(r, |r.pics|, MiniGopFrames(r.g, r.g.nHeld - 1), forced)
    ensures r1.g == r.g && RefOk(r.g.nb, r1.pics, r1.decode)
  {
    MiniGopRefOk(r, r.g.nHeld - 1, forced);
    SentLength(r, |r.pics|, MiniGopFrames(r.g, r.g.nHeld - 1), forced);
  }

  lemma {:induction false} KeyRefOk(r: Run, x: Input)
    requires Inv(r) && RefOk(r.g.nb, r.pics, r.decode)
    requires Decide(r.g, x.hasNew, x.force, x.last) == Key
    ensures RefOk(r.g.nb, Job(r, x).pics, Job(r, x).decode)
  {
    KeyJob(r, x);
    if r.g.nHeld > 0 {
      var r1 := Send(r, |r.pics|, MiniGopFrames(r.g, r.g.nHeld - 1), x.force);
      CloseRefOk(r, x.force, r1);
      IdrRefOk(r1, |r.pics|, r.g.nHeld, KeyNumber(AfterMiniGop(r.g)), x.force);
    } else {
      IdrRefOk(r, |r.pics|, 0, KeyNumber(r.g), x.force);
    }
  }

  lemma {:induction false} MiniRefOk(r: Run, x: Input)
    requires Inv(r) && RefOk(r.g.nb, r.pics, r.decode)
    requires Decide(r.g, x.hasNew, x.force, x.last) in {Anchor, Close}
    ensures RefOk(r.g.nb, Job(r, x).pics, Job(r, x).decode)
  {
    MiniGopJob(r, x);
    if Decide(r.g, x.hasNew, x.force, x.last) == Anchor {
      MiniGopRefOk(r, r.g.nHeld, x.force);
    } else {
      CloseRefOk(r, x.force, Send(r, |r.pics|, MiniGopFrames(r.g, r.g.nHeld - 1), x.force));
    }
  }

  lemma {:induction false} JobRefOk(r: Run, x: Input)
    requires Inv(r) && RefOk(r.g.nb, r.pics, r.decode)
    ensures RefOk(r.g.nb, Job(r, x).pics, Job(r, x).decode)
  {
    var a := Decide(r.g, x.hasNew, x.force, x.last);
    if a == Key {
      KeyRefOk(r, x);
    } else if a == Anchor || a == Close {
      MiniRefOk(r, x);
    } else {
      IdleJob(r, x);
    }
  }

  lemma {:induction false} ExecRefOk(nb: nat, gop: nat, xs: seq<Input>)
    requires nb >= 1
    ensures RefOk(nb, Exec(nb, gop, xs).pics, Exec(nb, gop, xs).decode)
  {
    if xs != [] {
      var r := Exec(nb, gop, xs[..|xs| - 1]);
      ExecInv(nb, gop, xs[..|xs| - 1]);
      ExecRefOk(nb, gop, xs[..|xs| - 1]);
      JobRefOk(r, Last(xs));
    }
  }

  // ---- both files ---------------------------------------------------------------------

  /** The decoder's sets are the ones in the block the builder wrote: each P and B uses one
      whose index is congruent to its POC. */
  ghost predicate SetsFromBlock(blk: seq<U8>, rps: nat, n: nat, nb: nat, d: seq<Pic>, sets: seq<Rps>) {
    && |sets| == |d| && BlockHolds(blk, rps, n, nb, 0)
    && forall k: nat :: k < |d| && d[k].kind != IDR ==> SetPicked(blk, rps, n, nb, d[k].poc, sets[k])
  }

  ghost predicate SetPicked(blk: seq<U8>, rps: nat, n: nat, nb: nat, poc: int, s: Rps)
    requires BlockHolds(blk, rps, n, nb, 0)
  {
    poc >= 0 && exists idx: nat :: idx < n && Congruent(idx, poc, nb) && ReadAs(blk, rps, idx, s)
  }

  ghost predicate Congruent(idx: nat, poc: nat, nb: nat) {
    Rem(idx, nb + 1) == Rem(poc, nb + 1)
  }

  ghost predicate ReadAs(blk: seq<U8>, rps: nat, idx: nat, s: Rps) {
    EntryAt(rps, idx) + SET_SIZE <= |blk| && Carries(Entry(blk, EntryAt(rps, idx)), s)
  }

  lemma {:induction false} PickedNamesTheGrid(blk: seq<U8>, rps: nat, n: nat, nb: nat, p: Pic, s: Rps)
    requires nb >= 1 && BlockHolds(blk, rps, n, nb, 0) && SetPicked(blk, rps, n, nb, p.poc, s)
    ensures Named(p, s) == GridNames(nb, p.poc)
  {
    var idx: nat :| idx < n && Congruent(idx, p.poc, nb) && ReadAs(blk, rps, idx, s);
    assert SetHolds(blk, rps, idx, nb, 0);
    CarriesOneSet(Entry(blk, EntryAt(rps, idx)), s, BSet(nb, idx));
    SetNamesTheGrid(nb, idx, p);
  }

  lemma {:induction false} BlockKeepsTheGrid(blk: seq<U8>, rps: nat, n: nat, nb: nat, d: seq<Pic>, sets: seq<Rps>)
    requires nb >= 1 && SetsFromBlock(blk, rps, n, nb, d, sets)
    ensures After(d, sets) == Grid(nb, d)
  {
    if d != [] {
      var m := |d| - 1;
      assert forall k: nat :: k < m ==> d[..m][k] == d[k] && sets[..m][k] == sets[k];
      BlockKeepsTheGrid(blk, rps, n, nb, d[..m], sets[..m]);
      if d[m].kind != IDR {
        PickedNamesTheGrid(blk, rps, n, nb, d[m], sets[m]);
      }
    }
  }

  lemma {:induction false} AllFindAt(nb: nat, ps: seq<Pic>, d: seq<Pic>, k: nat)
    requires AllFind(nb, ps, d) && k < |d|
    ensures Finds(nb, ps, Grid(nb, d[..k]), d[k])
    decreases |d|
  {
    if k < |d| - 1 {
      AllFindAt(nb, ps, d[..|d| - 1], k);
      assert d[..|d| - 1][..k] == d[..k];
    }
  }

  /** The decoder at picture k, as the planner's grid has it. */
  lemma {:induction false} GridAt(nb: nat, d: seq<Pic>, blk: seq<U8>, rps: nat, n: nat, sets: seq<Rps>, k: nat)
    requires nb >= 1 && k < |d| && SetsFromBlock(blk, rps, n, nb, d, sets)
    ensures After(d[..k], sets[..k]) == Grid(nb, d[..k])
    ensures d[k].kind != IDR ==> d[k].poc >= 0 && Named(d[k], sets[k]) == GridNames(nb, d[k].poc)
  {
    assert forall j: nat :: j < k ==> d[..k][j] == d[j] && sets[..k][j] == sets[j];
    BlockKeepsTheGrid(blk, rps, n, nb, d[..k], sets[..k]);
    if d[k].kind != IDR {
      PickedNamesTheGrid(blk, rps, n, nb, d[k], sets[k]);
    }
  }

  lemma {:induction false} FoundNamed(nb: nat, ps: seq<Pic>, dpb: Dpb, p: Pic)
    requires p.kind != IDR && p.poc >= 0 && Finds(nb, ps, dpb, p)
    ensures GridNames(nb, p.poc) <= dpb.Keys && |Kept(dpb, GridNames(nb, p.poc))| <= 2
  {
    AtMostTwo(nb, p.poc);
    assert Kept(dpb, GridNames(nb, p.poc)).Keys == GridNames(nb, p.poc);
  }

  lemma {:induction false} FoundInRun(nb: nat, ps: seq<Pic>, d: seq<Pic>, blk: seq<U8>, rps: nat, n: nat, sets: seq<Rps>, k: nat)
    requires nb >= 1 && k < |d| && d[k].kind != IDR && AllFind(nb, ps, d) && SetsFromBlock(blk, rps, n, nb, d, sets)
    ensures
      var dpb, names := After(d[..k], sets[..k]), Named(d[k], sets[k]);
      names <= dpb.Keys && |Kept(dpb, names)| <= 2 && Finds(nb, ps, dpb, d[k])
  {
    AllFindAt(nb, ps, d, k);
    GridAt(nb, d, blk, rps, n, sets, k);
    FoundNamed(nb, ps, Grid(nb, d[..k]), d[k]);
  }

  /** In every run, with the block WriteBlock wrote: each picture, when its turn to be decoded
      comes, finds every picture its set names, at most two stay marked once the set is
      applied, and they are the right ones: the anchor displayed before it and, for a B, the
      anchor displayed next. */
  lemma {:induction false} ReferencesAlwaysExist(nb: nat, gop: nat, xs: seq<Input>, blk: seq<U8>, rps: nat, n: nat,
                              sets: seq<Rps>, k: nat)
    requires nb >= 1 && k < |Exec(nb, gop, xs).decode|
    requires SetsFromBlock(blk, rps, n, nb, Exec(nb, gop, xs).decode, sets)
    ensures
      var r := Exec(nb, gop, xs);
      var p, dpb := r.decode[k], After(r.decode[..k], sets[..k]);
      p.kind != IDR ==>
        && Named(p, sets[k]) <= dpb.Keys
        && |Kept(dpb, Named(p, sets[k]))| <= 2
        && Finds(nb, r.pics, dpb, p)
  {
    var r := Exec(nb, gop, xs);
    ExecRefOk(nb, gop, xs);
    if r.decode[k].kind != IDR {
      FoundInRun(nb, r.pics, r.decode, blk, rps, n, sets, k);
    }
  }

  // ---- how much the decoder has to keep ------------------------------------------------

  /** The references among these POCs. */
  function Pictures(dpb: Dpb, names: set<int>): set<Pic> {
    set q | q in names && q in dpb :: dpb[q]
  }

  /** The pictures in the buffer once p's set is applied and before p is stored: references still
      needed, and pictures not shown yet. */
  function Stored(dpb: Dpb, o: Out, p: Pic, names: set<int>): set<Pic> {
    if p.kind == IDR then {} else Pictures(dpb, names) + set q | q in o.wait
  }

  lemma {:induction false} SubsetSize<T>(a: set<T>, b: set<T>)
    requires a <= b
    ensures |a| <= |b|
  {
    assert b == a + (b - a);
  }

  lemma {:induction false} FewPictures(dpb: Dpb, x: int, y: int)
    ensures |Pictures(dpb, {x, y})| <= 2
  {
    var px, py := if x in dpb then {dpb[x]} else {}, if y in dpb then {dpb[y]} else {};
    SubsetSize(Pictures(dpb, {x, y}), px + py);
  }

  lemma {:induction false} StoredIsKept(nb: nat, dpb: Dpb, o: Out, p: Pic)
    requires p.kind != IDR && Fits(nb, dpb, o.wait, p)
    ensures |Stored(dpb, o, p, GridNames(nb, p.poc))| <= 2
  {
    var names := GridNames(nb, p.poc);
    assert o.wait[0] in Pictures(dpb, names);
    assert Stored(dpb, o, p, names) == Pictures(dpb, names);
    var r := Rem(p.poc, nb + 1);
    if r == 0 {
      assert names == {p.poc - (nb + 1), p.poc - (nb + 1)};
      FewPictures(dpb, p.poc - (nb + 1), p.poc - (nb + 1));
    } else {
      FewPictures(dpb, p.poc - r, p.poc - r + nb + 1);
    }
  }

  lemma {:induction false} StoredInRun(nb: nat, ps: seq<Pic>, d: seq<Pic>, blk: seq<U8>, rps: nat, n: nat, sets: seq<Rps>, k: nat)
    requires nb >= 1 && k < |d| && RefOk(nb, ps, d) && SetsFromBlock(blk, rps, n, nb, d, sets)
    ensures |Stored(After(d[..k], sets[..k]), Output(d[..k]), d[k], Named(d[k], sets[k]))| <= 2
  {
    GridAt(nb, d, blk, rps, n, sets, k);
    AllFitAt(nb, d, k);
    if d[k].kind != IDR {
      StoredIsKept(nb, Grid(nb, d[..k]), Output(d[..k]), d[k]);
    }
  }

  /** In every run, with the written block and a reorder delay of one picture: when a picture is to be
      stored, at most two others are in the buffer, so that the max_num_ref_frames + 1 >= 3 pictures
      of the parameter sets are enough and nothing is ever shown early for lack of room; and what is
      shown is the stream in display order, all of it but the last picture by then decoded. */
  lemma {:induction false} BufferIsLargeEnough(nb: nat, gop: nat, xs: seq<Input>, blk: seq<U8>, rps: nat, n: nat,
                              sets: seq<Rps>, k: nat)
    requires nb >= 1 && k < |Exec(nb, gop, xs).decode|
    requires SetsFromBlock(blk, rps, n, nb, Exec(nb, gop, xs).decode, sets)
    ensures
      var r := Exec(nb, gop, xs);
      var d := r.decode[..k];
      && |Stored(After(d, sets[..k]), Output(d), r.decode[k], Named(r.decode[k], sets[k]))| + 1 <= 3
      && k < |r.pics| && Output(r.decode[..k + 1]).shown == r.pics[..k]
  {
    var r := Exec(nb, gop, xs);
    ExecRefOk(nb, gop, xs);
    RoomAndOrder(nb, r.pics, r.decode, blk, rps, n, sets, k);
  }

  lemma {:induction false} RoomAndOrder(nb: nat, ps: seq<Pic>, d: seq<Pic>, blk: seq<U8>, rps: nat, n: nat, sets: seq<Rps>, k: nat)
    requires nb >= 1 && k < |d| && RefOk(nb, ps, d) && SetsFromBlock(blk, rps, n, nb, d, sets)
    ensures |Stored(After(d[..k], sets[..k]), Output(d[..k]), d[k], Named(d[k], sets[k]))| + 1 <= 3
    ensures |ps| == |d| && Output(d[..k + 1]).shown == ps[..k]
  {
    StoredInRun(nb, ps, d, blk, rps, n, sets, k);
    ShownInOrder(ps, d, k + 1);
  }

  lemma {:induction false} ShownInOrder(ps: seq<Pic>, d: seq<Pic>, k: nat)
    requires 1 <= k <= |d| && Output(d) == ShownUpTo(ps)
    ensures |ps| == |d| && Output(d[..k]).shown == ps[..k - 1]
  {
    ShownGrows(d, k);
  }
}
