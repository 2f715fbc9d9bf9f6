/** struct ave_ctx on the B-frame path: the queues popped in place, one job at a time. What a
    job does to the whole context is BJobs.Job. */
module BContext {
  import opened GopPlanner
  import opened BJobs

  class Context {
    const planner: Planner
    var outq: seq<nat>
    var queued: nat
    var caps: nat
    var drain: Drain
    var capSeq: nat
    ghost var done: seq<Done>
    ghost var finished: seq<(nat, bool)>

    ghost predicate Valid()
      reads this
    {
      capSeq == |done|
    }

    ghost function View(): State
      reads this, planner
    {
      State(planner.View(), outq, queued, caps, drain, done, finished)
    }

    constructor (nb: nat, gop: nat)
      requires nb >= 1
      ensures Valid() && fresh(planner) && Init(View())
    {
      planner := new Planner(nb, gop);
      outq, queued, caps, drain, capSeq := [], 0, 0, Running, 0;
      done, finished := [], [];
    }

    /** The frame CAPTURE buffer k goes to. */
    method Pick(n: nat, k: nat, comps: seq<nat>, coded: array<bool>) returns (i: nat)
      requires k < n == coded.Length
      requires CodedAre(coded, Order(n, comps, k))
      requires forall x :: 0 <= x < |comps| ==> comps[x] < n
      ensures i < n && Order(n, comps, k + 1) == Order(n, comps, k) + [i]
    {
      ghost var o := Order(n, comps, k);
      i := 0;
      if k < |comps| {
        i := comps[k];
      } else {
        while i < n - 1 && coded[i]
          invariant i < n
          invariant FirstFree(n, o, i) == FirstFree(n, o, 0)
        {
          i := i + 1;
        }
      }
    }

    /** One CAPTURE buffer after another to whichever frame Pick chooses. */
    method Deliver(fs: seq<Frame>, src: seq<nat>, a: Answer, last: bool)
      requires Valid() && NamesSources(fs, src) && |fs| <= caps && Honest(|fs|, a)
      modifies this`caps, this`drain, this`capSeq, this`done
      ensures Valid() && caps == old(caps) - |fs|
      ensures drain == if last then Stopped else old(drain)
      ensures done == old(done) + Buffers(|old(done)|, fs, src, a, last)
    {
      ghost var bs := Buffers(|done|, fs, src, a, last);
      var coded := new bool[|fs|](_ => false);
      for k := 0 to |fs|
        invariant Valid() && caps == old(caps) - k
        invariant drain == (if last && k == |fs| then Stopped else old(drain))
        invariant done == old(done) + bs[..k]
        invariant CodedAre(coded, Order(|fs|, a.comps, k))
      {
        DeliverOne(fs, src, a, last, k, coded);
      }
    }

    /** The frames that have their buffer. */
    ghost predicate CodedAre(coded: array<bool>, o: seq<nat>)
      reads coded
    {
      forall x: nat :: x < coded.Length ==> (coded[x] <==> x in o)
    }

    method DeliverOne(fs: seq<Frame>, src: seq<nat>, a: Answer, last: bool, k: nat, coded: array<bool>)
      requires Valid() && NamesSources(fs, src) && Honest(|fs|, a) && caps > 0
      requires k < |fs| == coded.Length && k <= |done| && CodedAre(coded, Order(|fs|, a.comps, k))
      modifies this`caps, this`drain, this`capSeq, this`done, coded
      ensures Valid() && caps == old(caps) - 1
      ensures drain == if last && k == |fs| - 1 then Stopped else old(drain)
      ensures done == old(done) + [Buffers(|old(done)| - k, fs, src, a, last)[k]]
      ensures CodedAre(coded, Order(|fs|, a.comps, k + 1))
    {
      var i := Pick(|fs|, k, a.comps, coded);
      BufferIs(|done| - k, fs, src, a, last, k, i);
      coded[i] := true;
      Return(src[fs[i].src], if k < |a.comps| then CodedAs(a.kinds[k]) else NotCoded, last && k == |fs| - 1);
    }

    /** The next CAPTURE buffer goes back to the client with the sequence number that is due; flagged
        LAST, it ends the drain. */
    method Return(source: nat, coded: Coded, last: bool)
      requires Valid() && caps > 0
      modifies this`caps, this`drain, this`capSeq, this`done
      ensures Valid() && caps == old(caps) - 1
      ensures done == old(done) + [Done(source, old(capSeq), coded, last)]
      ensures drain == if last then Stopped else old(drain)
    {
      done := done + [Done(source, capSeq, coded, last)];
      capSeq := capSeq + 1;
      if last {
        drain := Stopped;
      }
      caps := caps - 1;
    }

    /** The buffer for the frame picked at turn k. */
    lemma {:induction false} BufferIs(c: nat, fs: seq<Frame>, src: seq<nat>, a: Answer, last: bool, k: nat, i: nat)
      requires NamesSources(fs, src) && Honest(|fs|, a) && k < |fs| && i < |fs|
      requires Order(|fs|, a.comps, k + 1) == Order(|fs|, a.comps, k) + [i]
      ensures Buffers(c, fs, src, a, last)[k] == BufferFor(c, fs, src, a, last, k, i)
    {
      OrderPrefix(|fs|, a.comps, k, |fs|);
    }

    /** The sources, in display order. */
    method GiveBack(fs: seq<Frame>, src: seq<nat>, a: Answer)
      requires Valid() && NamesSources(fs, src)
      modifies this`outq, this`finished
      ensures outq == WithoutAll(old(outq), fs, src, |fs|)
      ensures finished == old(finished) + Finished(fs, src, a, |fs|)
    {
      for i := 0 to |fs|
        invariant outq == WithoutAll(old(outq), fs, src, i)
        invariant finished == old(finished) + Finished(fs, src, a, i)
      {
        outq := Without(outq, src[fs[i].src]);
        finished := finished + [(src[fs[i].src], i in a.comps)];
      }
    }

    /** One batch to the encoder, which answers a. */
    method RunBatch(fs: seq<Frame>, src: seq<nat>, a: Answer)
      requires Valid() && NamesSources(fs, src) && |fs| <= caps && Honest(|fs|, a)
      modifies this`outq, this`caps, this`drain, this`capSeq, this`done, this`finished
      ensures Valid() && View() == Batch(old(View()), fs, src, a)
    {
      // the encode, and whatever STOP came in meanwhile
      if a.stop && drain == Running && outq != [] {
        drain := Draining(outq[|outq| - 1]);
      }
      var last := false;
      for i := 0 to |fs|
        invariant last <==> exists j :: 0 <= j < i && drain == Draining(src[fs[j].src])
      {
        last := last || drain == Draining(src[fs[i].src]);
      }
      Deliver(fs, src, a, last);
      GiveBack(fs, src, a);
    }

    lemma {:induction false} OrderPrefix(n: nat, comps: seq<nat>, j: nat, k: nat)
      requires j < k <= n
      ensures Order(n, comps, j + 1)[j] == Order(n, comps, k)[j]
      decreases k
    {
      if j + 1 < k {
        OrderPrefix(n, comps, j, k - 1);
      }
    }

    /** The batches of a commit, in order. */
    method RunBatches(n: nat, fs0: seq<Frame>, fs1: seq<Frame>, src: seq<nat>, a0: Answer, a1: Answer)
      requires Valid() && n <= 2
      requires n >= 1 ==> NamesSources(fs0, src) && |fs0| <= caps && Honest(|fs0|, a0)
      requires n == 2 ==> NamesSources(fs1, src) && |fs0| + |fs1| <= caps && Honest(|fs1|, a1)
      modifies this`outq, this`caps, this`drain, this`capSeq, this`done, this`finished
      ensures Valid()
      ensures n == 0 ==> View() == old(View())
      ensures n == 1 ==> View() == Batch(old(View()), fs0, src, a0)
      ensures n == 2 ==> View() == Batch(Batch(old(View()), fs0, src, a0), fs1, src, a1)
    {
      if n >= 1 {
        RunBatch(fs0, src, a0);
      }
      if n == 2 {
        RunBatch(fs1, src, a1);
      }
    }

    /** ave_b_next: what to do, and the sources for it. */
    method Look(force: bool) returns (a: Act, src: seq<nat>)
      requires Valid()
      ensures a == NextAct(View(), force) && src == SourcesFor(View())
    {
      var k := planner.nHeld;
      src := outq[..if |outq| > k then k + 1 else |outq|];
      if |outq| < k {
        a := Nothing;
      } else if |outq| == k {
        a := Decide(planner.View(), false, false, k > 0 && drain == Draining(outq[k - 1]));
      } else {
        a := Decide(planner.View(), true, force, drain == Draining(outq[k]));
      }
    }

    /** The plan moves on, and the batches are there as values. */
    method Commit(a: Act) returns (n: nat, fs0: seq<Frame>, fs1: seq<Frame>)
      requires Valid()
      modifies planner
      ensures Valid() && View() == old(View()).(plan := AfterCommit(old(planner.View()), a))
      ensures
        var bs := Batches(old(planner.View()), a);
        n == |bs| <= 2 && (n >= 1 ==> fs0 == bs[0]) && (n == 2 ==> fs1 == bs[1])
    {
      var b0, b1 := new Frame[planner.nHeld + 1], new Frame[1];
      var nbat, n0, n1 := planner.Commit(a, b0, b1);
      n, fs0, fs1 := nbat, b0[..n0], b1[..n1];
      assert |[fs0, fs1][..n]| == n;
    }

    /** The B-frame job. */
    method RunWork(force: bool, a0: Answer, a1: Answer)
      requires Valid() && Inv(View()) && AnswersFit(View(), force, a0, a1)
      modifies this, planner
      ensures Valid() && View() == Job(old(View()), force, a0, a1)
    {
      var a, src := Look(force);
      if a == Nothing || caps < Need(planner.View(), a) || caps < 1 {
        return;
      }
      JobShape(View(), force);
      var n, fs0, fs1 := Commit(a);
      RunBatches(n, fs0, fs1, src, a0, a1);
    }
  }
}
