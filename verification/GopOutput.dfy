/** When a decoder shows a stream's pictures: the bumping process of sections C.5.2.2 and C.5.2.3 of
    ITU-T H.265 with the num_reorder the parameter sets carry. A picture waits in the buffer until
    it is shown, whether or not it is a reference. */
module GopOutput {
  import opened GopPlanner
  import opened GopRuns

  /** vps_max_num_reorder_pics and sps_max_num_reorder_pics of a stream with B frames. */
  const NUM_REORDER: nat := 1

  /** wait: decoded and not shown, by POC; shown: what came out, in order. */
  datatype Out = Out(wait: seq<Pic>, shown: seq<Pic>)

  function Insert(w: seq<Pic>, p: Pic): (r: seq<Pic>)
    ensures |r| == |w| + 1
  {
    if w == [] || p.poc < w[0].poc then [p] + w else [w[0]] + Insert(w[1..], p)
  }

  /** The smallest POC comes out while too many wait. */
  function Bump(o: Out): (r: Out)
    ensures |r.wait| + |r.shown| == |o.wait| + |o.shown| && |r.wait| <= NUM_REORDER
    ensures o.shown <= r.shown && (o.wait != [] ==> r.wait != [])
    decreases |o.wait|
  {
    if |o.wait| <= NUM_REORDER then o else Bump(Out(o.wait[1..], o.shown + [o.wait[0]]))
  }

  /** An IDR first empties the buffer. */
  function Before(o: Out, p: Pic): (r: Out)
    ensures o.shown <= r.shown
  {
    if p.kind == IDR then Out([], o.shown + o.wait) else o
  }

  function Next(o: Out, p: Pic): (r: Out)
    ensures |r.wait| + |r.shown| == |o.wait| + |o.shown| + 1 && |r.wait| == NUM_REORDER
    ensures o.shown <= r.shown
  {
    var b := Before(o, p);
    Bump(Out(Insert(b.wait, p), b.shown))
  }

  /** After decoding d. */
  function Output(d: seq<Pic>): (o: Out)
    ensures |o.wait| + |o.shown| == |d| && (d != [] ==> |o.wait| == NUM_REORDER)
  {
    if d == [] then Out([], []) else Next(Output(d[..|d| - 1]), Last(d))
  }

  lemma {:induction false} OutputAppend(d: seq<Pic>, p: Pic)
    ensures Output(d + [p]) == Next(Output(d), p)
  {
    assert (d + [p])[..|d|] == d;
  }

  /** What has been shown stays shown. */
  lemma {:induction false} ShownGrows(d: seq<Pic>, k: nat)
    requires k <= |d|
    ensures Output(d[..k]).shown <= Output(d).shown
    decreases |d|
  {
    if k < |d| {
      ShownGrows(d[..|d| - 1], k);
      assert d[..|d| - 1][..k] == d[..k];
    } else {
      assert d[..k] == d;
    }
  }

  lemma {:induction false} BumpsOne(x: Pic, y: Pic, shown: seq<Pic>)
    ensures Bump(Out([x, y], shown)) == Out([y], shown + [x])
  {
    assert [x, y][1..] == [y];
    assert Bump(Out([y], shown + [x])) == Out([y], shown + [x]);
  }

  lemma {:induction false} ShowsAnchor(o: Out, a: Pic, p: Pic)
    requires o.wait == [a] && p.kind == P && p.poc > a.poc
    ensures Next(o, p) == Out([p], o.shown + [a])
  {
    assert Insert([a], p) == [a] + Insert([a][1..], p) == [a, p];
    BumpsOne(a, p, o.shown);
  }

  lemma {:induction false} ShowsB(o: Out, a: Pic, b: Pic)
    requires o.wait == [a] && b.kind == B && b.poc < a.poc
    ensures Next(o, b) == Out([a], o.shown + [b])
  {
    assert Insert([a], b) == [b, a];
    BumpsOne(b, a, o.shown);
  }

  lemma {:induction false} ShowsIdr(o: Out, p: Pic)
    requires p.kind == IDR
    ensures Next(o, p) == Out([p], o.shown + o.wait)
  {
  }
}
