/** The B-frame job path of ave_v4l2.c: the OUTPUT and CAPTURE ready queues, one job after
    another, encode failures and drains included. A source is named by its place in the
    stream of queued sources. The session layer's promise is that completions name distinct
    frames of the batch. */
module BJobs {
  import opened GopPlanner

  /** A CAPTURE buffer as returned to the client. */
  datatype Done = Done(src: nat, sequence: nat, coded: Coded, last: bool)

  datatype Coded = NotCoded | CodedAs(kind: Kind)

  datatype Drain = Running | Draining(last: nat) | Stopped

  /** caps: CAPTURE buffers ready; done: those returned, in order; finished: sources returned,
      in order, with their state. */
  datatype State = State(plan: Gop, outq: seq<nat>, queued: nat, caps: nat, drain: Drain,
                         done: seq<Done>, finished: seq<(nat, bool)>)

  /** What the encoder answers to one batch: the frames in completion order, as coded, and
      whether a STOP came in meanwhile. */
  datatype Answer = Answer(comps: seq<nat>, kinds: seq<Kind>, stop: bool)

  ghost predicate Distinct(s: seq<nat>) {
    forall i, j :: 0 <= i < j < |s| ==> s[i] != s[j]
  }

  ghost predicate Honest(n: nat, a: Answer) {
    && |a.comps| <= n && |a.kinds| == |a.comps|
    && (forall i :: 0 <= i < |a.comps| ==> a.comps[i] < n)
    && Distinct(a.comps)
  }

  // ---- which completion goes with which source ----------------------------------------

  /** The first frame not in o, from i on; n - 1 when there is none before it. */
  function FirstFree(n: nat, o: seq<nat>, i: nat): (r: nat)
    requires i < n
    ensures i <= r < n
    ensures forall x :: i <= x < r ==> x in o
    ensures r < n - 1 ==> r !in o
    decreases n - i
  {
    if i < n - 1 && i in o then FirstFree(n, o, i + 1) else i
  }

  /** The frames of the first k CAPTURE buffers: completions first, then what did not
      complete, in batch order. */
  function Order(n: nat, comps: seq<nat>, k: nat): (o: seq<nat>)
    requires k <= n
    ensures |o| == k
  {
    if k <= |comps| then comps[..k]
    else var o := Order(n, comps, k - 1); o + [FirstFree(n, o, 0)]
  }

  ghost function Below(n: nat): (r: set<nat>)
    ensures forall x: nat :: x in r <==> x < n
    ensures |r| == n
  {
    if n == 0 then {} else Below(n - 1) + {n - 1}
  }

  ghost function SetOf(s: seq<nat>): set<nat> {
    set x | x in s
  }

  lemma {:induction false} SetOfSize(s: seq<nat>)
    requires Distinct(s)
    ensures |SetOf(s)| == |s|
  {
    if s != [] {
      var t := s[..|s| - 1];
      SetOfSize(t);
      assert SetOf(s) == SetOf(t) + {s[|s| - 1]};
    } else {
      assert SetOf(s) == {};
    }
  }

  lemma {:induction false} SubsetFull(a: set<nat>, b: set<nat>)
    requires a <= b && |a| == |b|
    ensures a == b
  {
    assert |b - a| == |b| - |a|;
  }

  /** With fewer than n frames used, one of the n is free, and FirstFree finds it. */
  lemma {:induction false} SomeFrameIsFree(n: nat, o: seq<nat>)
    requires |o| < n && Distinct(o) && forall i :: 0 <= i < |o| ==> o[i] < n
    ensures FirstFree(n, o, 0) !in o
  {
    var r := FirstFree(n, o, 0);
    if r in o {
      assert SetOf(o) == Below(n);
      SetOfSize(o);
    }
  }

  lemma {:induction false} OrderIsInjective(n: nat, comps: seq<nat>, k: nat)
    requires k <= n && |comps| <= n && Distinct(comps) && forall i :: 0 <= i < |comps| ==> comps[i] < n
    ensures Distinct(Order(n, comps, k)) && forall i :: 0 <= i < k ==> Order(n, comps, k)[i] < n
    ensures k >= |comps| ==> Order(n, comps, k)[..|comps|] == comps
    decreases k
  {
    if k > |comps| {
      OrderIsInjective(n, comps, k - 1);
      SomeFrameIsFree(n, Order(n, comps, k - 1));
    }
  }

  /** Whatever completed, every frame of the batch gets exactly one CAPTURE buffer, the
      completions in their own order first. */
  lemma {:induction false} CompletionsPermute(n: nat, comps: seq<nat>)
    requires |comps| <= n && Distinct(comps) && forall i :: 0 <= i < |comps| ==> comps[i] < n
    ensures
      var o := Order(n, comps, n);
      |o| == n && Distinct(o) && SetOf(o) == Below(n) && o[..|comps|] == comps
  {
    var o := Order(n, comps, n);
    OrderIsInjective(n, comps, n);
    SetOfSize(o);
    SubsetFull(SetOf(o), Below(n));
  }

  ghost predicate Rises(s: seq<nat>, from: nat) {
    forall i, j :: from <= i < j < |s| ==> s[i] < s[j]
  }

  /** Behind the completions come the frames that did not complete, in batch order. */
  lemma {:induction false} OrderTail(n: nat, comps: seq<nat>, k: nat)
    requires |comps| <= k <= n && Distinct(comps) && forall i :: 0 <= i < |comps| ==> comps[i] < n
    ensures
      var o := Order(n, comps, k);
      && Rises(o, |comps|)
      && (forall j :: |comps| <= j < k ==> o[j] !in comps)
      && (k > |comps| ==> forall x: nat :: x < o[k - 1] ==> x in o)
    decreases k
  {
    if k > |comps| {
      OrderTail(n, comps, k - 1);
      OrderIsInjective(n, comps, k - 1);
      var o := Order(n, comps, k - 1);
      SomeFrameIsFree(n, o);
      assert o[..|comps|] == comps;
      forall x | x in comps ensures x in o {
        var i :| 0 <= i < |comps| && comps[i] == x;
        assert o[i] == x;
      }
    }
  }

  // ---- one job, as values -------------------------------------------------------------

  /** The drain state once the batch is coded: a STOP that came in meanwhile named the last
      source then queued. */
  function DrainAfter(s: State, a: Answer): Drain {
    if a.stop && s.drain == Running && s.outq != [] then Draining(s.outq[|s.outq| - 1]) else s.drain
  }

  predicate NamesSources(fs: seq<Frame>, src: seq<nat>) {
    fs != [] && forall i :: 0 <= i < |fs| ==> fs[i].src < |src|
  }

  /** Does the batch hold the drain's last source? */
  predicate HasLast(fs: seq<Frame>, src: seq<nat>, d: Drain)
    requires NamesSources(fs, src)
  {
    exists i :: 0 <= i < |fs| && d == Draining(src[fs[i].src])
  }

  function Without(q: seq<nat>, x: nat): seq<nat> {
    if q == [] then [] else if q[0] == x then q[1..] else [q[0]] + Without(q[1..], x)
  }

  function WithoutAll(q: seq<nat>, fs: seq<Frame>, src: seq<nat>, n: nat): seq<nat>
    requires NamesSources(fs, src) && n <= |fs|
  {
    if n == 0 then q else Without(WithoutAll(q, fs, src, n - 1), src[fs[n - 1].src])
  }

  /** CAPTURE buffer k of the batch, given to frame i; c buffers came before the batch. */
  ghost function BufferFor(c: nat, fs: seq<Frame>, src: seq<nat>, a: Answer, last: bool, k: nat, i: nat): Done
    requires NamesSources(fs, src) && |a.kinds| == |a.comps| && i < |fs|
  {
    Done(src[fs[i].src], c + k, if k < |a.comps| then CodedAs(a.kinds[k]) else NotCoded,
         last && k == |fs| - 1)
  }

  ghost function Buffers(c: nat, fs: seq<Frame>, src: seq<nat>, a: Answer, last: bool): (r: seq<Done>)
    requires NamesSources(fs, src) && Honest(|fs|, a)
    ensures |r| == |fs|
  {
    OrderIsInjective(|fs|, a.comps, |fs|);
    var o := Order(|fs|, a.comps, |fs|);
    seq(|fs|, k requires 0 <= k < |fs| => BufferFor(c, fs, src, a, last, k, o[k]))
  }

  function Finished(fs: seq<Frame>, src: seq<nat>, a: Answer, n: nat): seq<(nat, bool)>
    requires NamesSources(fs, src) && n <= |fs|
  {
    if n == 0 then [] else Finished(fs, src, a, n - 1) + [(src[fs[n - 1].src], n - 1 in a.comps)]
  }

  /** One batch to the encoder and its completions to CAPTURE. */
  ghost function Batch(s: State, fs: seq<Frame>, src: seq<nat>, a: Answer): State
    requires NamesSources(fs, src) && |fs| <= s.caps && Honest(|fs|, a)
  {
    var d := DrainAfter(s, a);
    var last := HasLast(fs, src, d);
    s.(outq := WithoutAll(s.outq, fs, src, |fs|),
       caps := s.caps - |fs|,
       drain := if last then Stopped else d,
       done := s.done + Buffers(|s.done|, fs, src, a, last),
       finished := s.finished + Finished(fs, src, a, |fs|))
  }

  /** The planner's choice for these queues: the first nHeld sources of OUTPUT are its held ones. */
  function NextAct(s: State, force: bool): Act {
    var k := s.plan.nHeld;
    if |s.outq| < k then Nothing
    else if |s.outq| == k then Decide(s.plan, false, false, k > 0 && s.drain == Draining(s.outq[k - 1]))
    else Decide(s.plan, true, force, s.drain == Draining(s.outq[k]))
  }

  predicate Ready(s: State, force: bool) {
    var a := NextAct(s, force);
    a != Nothing && s.caps >= Need(s.plan, a) && s.caps >= 1
  }

  // ---- what every state keeps ---------------------------------------------------------

  /** The OUTPUT queue is what was queued and not coded yet, in order, held sources first. */
  ghost predicate QueueOk(s: State) {
    && |s.done| + |s.outq| == s.queued
    && (forall i :: 0 <= i < |s.outq| ==> s.outq[i] == |s.done| + i)
    && (s.drain.Draining? ==> |s.done| <= s.drain.last < s.queued)
  }

  /** The buffers returned so far are numbered in order and stand for the sources coded so
      far, each once. */
  ghost predicate Conserved(done: seq<Done>) {
    && (forall k :: 0 <= k < |done| ==> done[k].sequence == k && done[k].src < |done|)
    && (forall j, k :: 0 <= j < k < |done| ==> done[j].src != done[k].src)
  }

  /** Every coded source went back to the client too, in display order. */
  ghost predicate SourcesReturned(s: State) {
    && |s.finished| == |s.done|
    && forall i :: 0 <= i < |s.finished| ==> s.finished[i].0 == i
  }

  ghost predicate PlanOk(s: State) {
    && s.plan.nb >= 1
    && s.plan.nHeld <= s.plan.nb
    && s.plan.nHeld <= |s.outq|
    && (!s.plan.started ==> s.plan.nHeld == 0)
  }

  ghost predicate Inv(s: State) {
    PlanOk(s) && QueueOk(s) && Conserved(s.done) && SourcesReturned(s)
  }

  /** The batch is made of the first sources of the queue. */
  ghost predicate FromHead(s: State, fs: seq<Frame>, src: seq<nat>) {
    && NamesSources(fs, src) && |fs| <= |s.outq| && |fs| <= s.caps
    && forall i :: 0 <= i < |fs| ==> src[fs[i].src] == |s.done| + i
  }

  lemma {:induction false} WithoutHead(s: State, fs: seq<Frame>, src: seq<nat>, n: nat)
    requires QueueOk(s) && FromHead(s, fs, src) && n <= |fs|
    ensures WithoutAll(s.outq, fs, src, n) == s.outq[n..]
  {
    if n > 0 {
      WithoutHead(s, fs, src, n - 1);
      assert s.outq[n - 1..][0] == src[fs[n - 1].src];
    }
  }

  lemma {:induction false} FinishedAre(s: State, fs: seq<Frame>, src: seq<nat>, a: Answer, n: nat)
    requires FromHead(s, fs, src) && n <= |fs|
    ensures
      var r := Finished(fs, src, a, n);
      |r| == n && forall i :: 0 <= i < n ==> r[i] == (|s.done| + i, i in a.comps)
  {
    if n > 0 {
      FinishedAre(s, fs, src, a, n - 1);
    }
  }

  lemma {:induction false} ConservedGrows(done: seq<Done>, bs: seq<Done>, o: seq<nat>)
    requires Conserved(done) && |o| == |bs| && Distinct(o)
    requires forall k :: 0 <= k < |bs| ==>
      o[k] < |bs| && bs[k].src == |done| + o[k] && bs[k].sequence == |done| + k
    ensures Conserved(done + bs)
  {
  }

  lemma {:induction false} BatchConserves(s: State, fs: seq<Frame>, src: seq<nat>, a: Answer, last: bool)
    requires Conserved(s.done) && FromHead(s, fs, src) && Honest(|fs|, a)
    ensures Conserved(s.done + Buffers(|s.done|, fs, src, a, last))
  {
    OrderIsInjective(|fs|, a.comps, |fs|);
    ConservedGrows(s.done, Buffers(|s.done|, fs, src, a, last), Order(|fs|, a.comps, |fs|));
  }

  lemma {:induction false} LastInBatch(s: State, fs: seq<Frame>, src: seq<nat>, d: Drain)
    requires FromHead(s, fs, src) && (d.Draining? ==> |s.done| <= d.last)
    ensures HasLast(fs, src, d) <==> d.Draining? && d.last < |s.done| + |fs|
  {
    if d.Draining? && d.last < |s.done| + |fs| {
      var i := d.last - |s.done|;
      assert d == Draining(src[fs[i].src]);
    }
  }

  /** A batch from the head of the queue codes those sources, once each, and leaves the rest;
      LAST goes on its final buffer exactly when the drain's last source is in it. */
  lemma {:induction false} BatchKeeps(s: State, fs: seq<Frame>, src: seq<nat>, a: Answer)
    requires QueueOk(s) && Conserved(s.done) && SourcesReturned(s)
    requires FromHead(s, fs, src) && Honest(|fs|, a)
    ensures
      var t, n, d := Batch(s, fs, src, a), |fs|, DrainAfter(s, a);
      var last := d.Draining? && d.last < |t.done|;
      && QueueOk(t) && Conserved(t.done) && SourcesReturned(t)
      && t.plan == s.plan && t.queued == s.queued && t.caps == s.caps - n
      && |t.done| == |s.done| + n && t.done[..|s.done|] == s.done
      && t.outq == s.outq[n..]
      && (forall k :: |s.done| <= k < |t.done| ==> t.done[k].last == (last && k == |t.done| - 1))
      && t.drain == (if last then Stopped else d)
  {
    var n, d := |fs|, DrainAfter(s, a);
    WithoutHead(s, fs, src, n);
    LastInBatch(s, fs, src, d);
    FinishedAre(s, fs, src, a, n);
    BatchConserves(s, fs, src, a, HasLast(fs, src, d));
  }

  /** What a batch of n sources from c on gives back: buffer k holds the frame that completed k-th,
      with the metadata of its own source; the frames that did not complete have the other buffers,
      empty, in display order; and each source goes back with whether it was coded. */
  ghost predicate Delivers(c: nat, n: nat, out: seq<Done>, back: seq<(nat, bool)>, a: Answer) {
    && |out| == |back| == n && |a.comps| == |a.kinds| <= n
    && (forall k :: 0 <= k < n ==> c <= out[k].src < c + n)
    && (forall k :: 0 <= k < |a.comps| ==> out[k].src == c + a.comps[k] && out[k].coded == CodedAs(a.kinds[k]))
    && (forall k :: |a.comps| <= k < n ==>
          out[k].coded == NotCoded && out[k].src - c !in a.comps)
    && (forall j, k :: |a.comps| <= j < k < n ==> out[j].src < out[k].src)
    && (forall k :: 0 <= k < n ==> out[k].sequence == c + k)
    && (forall i :: 0 <= i < n ==> back[i] == (c + i, i in a.comps))
  }

  lemma {:induction false} BuffersDeliver(c: nat, fs: seq<Frame>, src: seq<nat>, a: Answer, last: bool, back: seq<(nat, bool)>)
    requires NamesSources(fs, src) && Honest(|fs|, a)
    requires forall i :: 0 <= i < |fs| ==> src[fs[i].src] == c + i
    requires |back| == |fs| && forall i :: 0 <= i < |fs| ==> back[i] == (c + i, i in a.comps)
    ensures Delivers(c, |fs|, Buffers(c, fs, src, a, last), back, a)
  {
    var n := |fs|;
    OrderIsInjective(n, a.comps, n);
    OrderTail(n, a.comps, n);
    var o, out := Order(n, a.comps, n), Buffers(c, fs, src, a, last);
    forall k | 0 <= k < n ensures out[k].src == c + o[k] && o[k] < n && (k < |a.comps| ==> o[k] == a.comps[k]) {
      assert k < |a.comps| ==> o[..|a.comps|][k] == a.comps[k];
    }
  }

  /** A STOP that comes in during a batch names the newest source then queued: the drain is over if
      the batch has it, and goes on to it if not. */
  lemma {:induction false} StopDuringBatch(s: State, fs: seq<Frame>, src: seq<nat>, a: Answer)
    requires QueueOk(s) && Conserved(s.done) && SourcesReturned(s)
    requires FromHead(s, fs, src) && Honest(|fs|, a) && a.stop && s.drain == Running
    ensures Batch(s, fs, src, a).drain == if s.queued == |s.done| + |fs| then Stopped else Draining(s.queued - 1)
  {
    BatchKeeps(s, fs, src, a);
    assert s.outq[|s.outq| - 1] == s.queued - 1;
  }

  // ---- a whole job --------------------------------------------------------------------

  /** src[0..nHeld], as far as the queue goes. */
  function SourcesFor(s: State): seq<nat> {
    s.outq[..if |s.outq| > s.plan.nHeld then s.plan.nHeld + 1 else |s.outq|]
  }

  ghost predicate AnswersFit(s: State, force: bool, a0: Answer, a1: Answer) {
    var bs := Batches(s.plan, NextAct(s, force));
    (|bs| >= 1 ==> Honest(|bs[0]|, a0)) && (|bs| >= 2 ==> Honest(|bs[1]|, a1))
  }

  /** The batches of a ready job take its sources from the head of the queue, and there is a
      CAPTURE buffer for every frame. */
  lemma {:induction false} JobShape(s: State, force: bool)
    requires Inv(s) && Ready(s, force)
    ensures
      var a, src := NextAct(s, force), SourcesFor(s);
      var bs := Batches(s.plan, a);
      && |bs| <= 2
      && (|bs| >= 1 ==> FromHead(s, bs[0], src))
      && (|bs| == 1 ==> |bs[0]| == Need(s.plan, a))
      && (|bs| == 2 ==>
            && a == Key && |bs[0]| == s.plan.nHeld && |s.outq| > s.plan.nHeld
            && |bs[0]| + 1 <= s.caps
            && |bs[1]| == 1 && NamesSources(bs[1], src) && src[bs[1][0].src] == |s.done| + |bs[0]|)
      && (|bs| == 0 <==> a == Hold)
      && (a != Close ==> |s.outq| > s.plan.nHeld)
      && (a == Close ==> |s.outq| == s.plan.nHeld)
  {
  }

  /** One job: the plan moves on, and its batches, if any, are coded one after the other. */
  ghost function Job(s: State, force: bool, a0: Answer, a1: Answer): State
    requires Inv(s) && AnswersFit(s, force, a0, a1)
  {
    if !Ready(s, force) then s
    else
      JobShape(s, force);
      var a, src := NextAct(s, force), SourcesFor(s);
      var bs := Batches(s.plan, a);
      var s0 := s.(plan := AfterCommit(s.plan, a));
      if |bs| == 0 then s0
      else
        var s1 := Batch(s0, bs[0], src, a0);
        if |bs| == 1 then s1 else Batch(s1, bs[1], src, a1)
  }

  /** What CAPTURE and OUTPUT have given back so far. */
  datatype Given = Given(done: seq<Done>, finished: seq<(nat, bool)>)

  function GivenOf(s: State): Given {
    Given(s.done, s.finished)
  }

  /** From g to h one batch of n sources was delivered. */
  ghost predicate Delivered(g: Given, h: Given, n: nat, a: Answer) {
    var c := |g.done|;
    && |g.finished| == c && |h.done| == |h.finished| == c + n && h.done[..c] == g.done && h.finished[..c] == g.finished
    && Delivers(c, n, h.done[c..], h.finished[c..], a)
  }

  /** Each completion of a batch goes to the source it is of. */
  lemma {:induction false} BatchDelivers(s: State, fs: seq<Frame>, src: seq<nat>, a: Answer)
    requires QueueOk(s) && Conserved(s.done) && SourcesReturned(s)
    requires FromHead(s, fs, src) && Honest(|fs|, a)
    ensures Delivered(GivenOf(s), GivenOf(Batch(s, fs, src, a)), |fs|, a)
  {
    var t, c := Batch(s, fs, src, a), |s.done|;
    FinishedAre(s, fs, src, a, |fs|);
    BuffersDeliver(c, fs, src, a, HasLast(fs, src, DrainAfter(s, a)), Finished(fs, src, a, |fs|));
    assert t.done[c..] == Buffers(c, fs, src, a, HasLast(fs, src, DrainAfter(s, a)));
    assert t.finished[c..] == Finished(fs, src, a, |fs|);
  }

  lemma {:induction false} BothDeliver(s: State, fs0: seq<Frame>, fs1: seq<Frame>, src: seq<nat>, a0: Answer, a1: Answer)
    requires QueueOk(s) && Conserved(s.done) && SourcesReturned(s)
    requires Follows(s, fs0, fs1, src) && Honest(|fs0|, a0) && Honest(1, a1)
    ensures
      var s1 := Batch(s, fs0, src, a0);
      && FromHead(s1, fs1, src)
      && Delivered(GivenOf(s), GivenOf(s1), |fs0|, a0)
      && Delivered(GivenOf(s1), GivenOf(Batch(s1, fs1, src, a1)), 1, a1)
  {
    SecondFromHead(s, fs0, fs1, src, a0);
    BatchDelivers(s, fs0, src, a0);
    BatchKeeps(s, fs0, src, a0);
    BatchDelivers(Batch(s, fs0, src, a0), fs1, src, a1);
  }

  /** Every ready job delivers each source it codes: a key frame behind held sources by a batch of
      its own, and everything else by one batch. Holding a source delivers nothing. */
  lemma {:induction false} JobDelivers(s: State, force: bool, a0: Answer, a1: Answer)
    requires Inv(s) && AnswersFit(s, force, a0, a1) && Ready(s, force)
    ensures
      var a, g, h := NextAct(s, force), GivenOf(s), GivenOf(Job(s, force, a0, a1));
      if a == Hold then h == g
      else if a == Key && s.plan.nHeld > 0 then
        exists m: Given :: Delivered(g, m, s.plan.nHeld, a0) && Delivered(m, h, 1, a1)
      else Delivered(g, h, s.plan.nHeld + (if a == Close then 0 else 1), a0)
  {
    JobShape(s, force);
    var a, src := NextAct(s, force), SourcesFor(s);
    var bs := Batches(s.plan, a);
    var s0 := s.(plan := AfterCommit(s.plan, a));
    assert GivenOf(s0) == GivenOf(s);
    if |bs| == 1 {
      BatchDelivers(s0, bs[0], src, a0);
    } else if |bs| == 2 {
      BothDeliver(s0, bs[0], bs[1], src, a0, a1);
    }
  }

  /** LAST flags in a run of buffers. */
  function Lasts(done: seq<Done>): nat {
    if done == [] then 0 else Lasts(done[..|done| - 1]) + if done[|done| - 1].last then 1 else 0
  }

  lemma {:induction false} LastsAppend(x: seq<Done>, y: seq<Done>)
    ensures Lasts(x + y) == Lasts(x) + Lasts(y)
  {
    if y == [] {
      assert x + y == x;
    } else {
      LastsAppend(x, y[..|y| - 1]);
      assert (x + y)[..|x + y| - 1] == x + y[..|y| - 1];
    }
  }

  lemma {:induction false} NoLasts(y: seq<Done>)
    requires forall k :: 0 <= k < |y| ==> !y[k].last
    ensures Lasts(y) == 0
  {
    if y != [] {
      NoLasts(y[..|y| - 1]);
    }
  }

  lemma {:induction false} OneLast(done: seq<Done>, c: nat, last: bool)
    requires c < |done|
    requires forall k :: c <= k < |done| ==> done[k].last == (last && k == |done| - 1)
    ensures Lasts(done) == Lasts(done[..c]) + if last then 1 else 0
  {
    var y := done[c..];
    LastsAppend(done[..c], y);
    assert done == done[..c] + y;
    NoLasts(y[..|y| - 1]);
  }

  lemma {:induction false} BatchLasts(s: State, fs: seq<Frame>, src: seq<nat>, a: Answer)
    requires QueueOk(s) && Conserved(s.done) && SourcesReturned(s)
    requires FromHead(s, fs, src) && Honest(|fs|, a)
    ensures
      var t, d := Batch(s, fs, src, a), DrainAfter(s, a);
      Lasts(t.done) == Lasts(s.done) + if d.Draining? && d.last < |t.done| then 1 else 0
  {
    BatchKeeps(s, fs, src, a);
    var t, d := Batch(s, fs, src, a), DrainAfter(s, a);
    OneLast(t.done, |s.done|, d.Draining? && d.last < |t.done|);
  }

  ghost predicate Extends(x: seq<Done>, y: seq<Done>) {
    |x| <= |y| && y[..|x|] == x
  }

  /** From s to t, n more sources were coded, each given its CAPTURE buffer, and a LAST flag
      appeared exactly if the drain ended. */
  ghost predicate Advanced(s: State, t: State, n: nat) {
    && QueueOk(t) && Conserved(t.done) && SourcesReturned(t)
    && t.queued == s.queued && Extends(s.done, t.done) && |t.done| == |s.done| + n
    && t.caps == s.caps - n
    && Lasts(t.done) == Lasts(s.done) + (if s.drain != Stopped && t.drain == Stopped then 1 else 0)
    && (s.drain == Stopped ==> t.drain == Stopped)
  }

  lemma {:induction false} BatchAdvances(s: State, fs: seq<Frame>, src: seq<nat>, a: Answer)
    requires QueueOk(s) && Conserved(s.done) && SourcesReturned(s)
    requires FromHead(s, fs, src) && Honest(|fs|, a)
    ensures Advanced(s, Batch(s, fs, src, a), |fs|)
  {
    BatchKeeps(s, fs, src, a);
    BatchLasts(s, fs, src, a);
  }

  lemma {:induction false} AdvancedChain(s: State, t: State, u: State, m: nat, n: nat)
    requires Advanced(s, t, m) && Advanced(t, u, n)
    ensures Advanced(s, u, m + n)
  {
    assert u.done[..|s.done|] == u.done[..|t.done|][..|s.done|];
  }

  /** A one-frame batch right behind another one. */
  ghost predicate Follows(s: State, fs0: seq<Frame>, fs1: seq<Frame>, src: seq<nat>) {
    && FromHead(s, fs0, src) && |fs0| < |s.outq| && |fs0| < s.caps
    && |fs1| == 1 && NamesSources(fs1, src) && src[fs1[0].src] == |s.done| + |fs0|
  }

  lemma {:induction false} SecondFromHead(s: State, fs0: seq<Frame>, fs1: seq<Frame>, src: seq<nat>, a0: Answer)
    requires QueueOk(s) && Conserved(s.done) && SourcesReturned(s)
    requires Follows(s, fs0, fs1, src) && Honest(|fs0|, a0)
    ensures FromHead(Batch(s, fs0, src, a0), fs1, src)
  {
    BatchKeeps(s, fs0, src, a0);
  }

  lemma {:induction false} BothAdvance(s: State, fs0: seq<Frame>, fs1: seq<Frame>, src: seq<nat>, a0: Answer, a1: Answer)
    requires QueueOk(s) && Conserved(s.done) && SourcesReturned(s)
    requires Follows(s, fs0, fs1, src) && Honest(|fs0|, a0) && Honest(1, a1)
    ensures
      var s1 := Batch(s, fs0, src, a0);
      FromHead(s1, fs1, src) && Advanced(s, Batch(s1, fs1, src, a1), |fs0| + 1)
  {
    SecondFromHead(s, fs0, fs1, src, a0);
    BatchAdvances(s, fs0, src, a0);
    var s1 := Batch(s, fs0, src, a0);
    BatchAdvances(s1, fs1, src, a1);
    AdvancedChain(s, s1, Batch(s1, fs1, src, a1), |fs0|, 1);
  }

  lemma {:induction false} JobAdvances(s: State, force: bool, a0: Answer, a1: Answer)
    requires Inv(s) && AnswersFit(s, force, a0, a1) && Ready(s, force)
    ensures Advanced(s, Job(s, force, a0, a1), Srcs(s.plan, NextAct(s, force)))
    ensures Job(s, force, a0, a1).plan == AfterCommit(s.plan, NextAct(s, force))
  {
    JobShape(s, force);
    var a, src := NextAct(s, force), SourcesFor(s);
    var bs := Batches(s.plan, a);
    var s0 := s.(plan := AfterCommit(s.plan, a));
    if |bs| == 1 {
      BatchAdvances(s0, bs[0], src, a0);
    } else if |bs| == 2 {
      BothAdvance(s0, bs[0], bs[1], src, a0, a1);
    }
  }

  /** What a job keeps: the queue stays the uncoded sources in order with the held ones at its
      head, every source coded has exactly one CAPTURE buffer, whatever failed, and a LAST
      flag appears exactly when the drain ends. */
  lemma {:induction false} JobKeeps(s: State, force: bool, a0: Answer, a1: Answer)
    requires Inv(s) && AnswersFit(s, force, a0, a1)
    ensures
      var t := Job(s, force, a0, a1);
      && Inv(t) && t.queued == s.queued && Extends(s.done, t.done)
      && Lasts(t.done) == Lasts(s.done) + (if s.drain != Stopped && t.drain == Stopped then 1 else 0)
      && (s.drain == Stopped ==> t.drain == Stopped)
      && (Ready(s, force) ==> |t.done| == |s.done| + Srcs(s.plan, NextAct(s, force)))
  {
    if Ready(s, force) {
      JobAdvances(s, force, a0, a1);
      JobShape(s, force);
    }
  }

  // ---- any run ------------------------------------------------------------------------

  ghost predicate Init(s: State) {
    && s.plan.nb >= 1
    && s == State(Fresh(s.plan.nb, s.plan.gop), [], 0, 0, Running, [], [])
  }

  datatype Event =
    | QueueSource | QueueBuffer
    | Stop | Start                 // ENCODER_CMD; an empty queue is the m2m core's to answer
    | RunJob(force: bool, a0: Answer, a1: Answer)   // the m2m core runs none while stopped

  ghost predicate Next(s: State, e: Event, t: State)
    requires Inv(s)
  {
    match e
    case QueueSource => t == s.(outq := s.outq + [s.queued], queued := s.queued + 1)
    case QueueBuffer => t == s.(caps := s.caps + 1)
    case Stop => s.drain == Running && s.outq != [] && t == s.(drain := Draining(s.queued - 1))
    case Start => s.drain == Stopped && t == s.(drain := Running)
    case RunJob(force, a0, a1) =>
      s.drain != Stopped && AnswersFit(s, force, a0, a1) && t == Job(s, force, a0, a1)
  }

  lemma {:induction false} NextKeeps(s: State, e: Event, t: State)
    requires Inv(s) && Next(s, e, t)
    ensures Inv(t) && Extends(s.done, t.done)
    ensures Lasts(t.done) == Lasts(s.done) + (if s.drain != Stopped && t.drain == Stopped then 1 else 0)
  {
    if e.RunJob? {
      JobKeeps(s, e.force, e.a0, e.a1);
    }
  }

  ghost predicate IsRun(tr: seq<State>, es: seq<Event>) {
    && |tr| == |es| + 1
    && Init(tr[0])
    && forall i :: 0 <= i < |es| ==> Inv(tr[i]) ==> Next(tr[i], es[i], tr[i + 1])
  }

  /** Over any sequence of sources, buffers, forced keys, failures, STOPs and STARTs: held
      sources are the head of the queue, the buffers returned name the sources coded so far
      exactly once each, and all the rest are still queued. */
  lemma {:induction false} JobsConserve(tr: seq<State>, es: seq<Event>)
    requires IsRun(tr, es)
    ensures
      var s := tr[|es|];
      && Inv(s)
      && s.plan.nHeld <= |s.outq|
      && (forall i :: 0 <= i < |s.outq| ==> s.outq[i] == |s.done| + i)
      && |s.done| + |s.outq| == s.queued
      && (forall k :: 0 <= k < |s.done| ==> s.done[k].src < |s.done|)
      && (forall j, k :: 0 <= j < k < |s.done| ==> s.done[j].src != s.done[k].src)
    decreases |es|
  {
    if |es| > 0 {
      var m := |es| - 1;
      JobsConserve(tr[..|es|], es[..m]);
      assert tr[..|es|][m] == tr[m];
      NextKeeps(tr[m], es[m], tr[m + 1]);
    }
  }

  /** A source went back as done exactly if its buffer holds a coded frame. */
  ghost predicate StatesAgree(g: Given) {
    && |g.finished| == |g.done|
    && forall k :: 0 <= k < |g.done| ==>
         g.done[k].src < |g.finished| && (g.done[k].coded.CodedAs? <==> g.finished[g.done[k].src].1)
  }

  lemma {:induction false} DeliveredAgrees(g: Given, h: Given, n: nat, a: Answer)
    requires StatesAgree(g) && Delivered(g, h, n, a)
    ensures StatesAgree(h)
  {
    var c := |g.done|;
    var out, back := h.done[c..], h.finished[c..];
    forall k | 0 <= k < |h.done|
      ensures h.done[k].src < |h.finished| && (h.done[k].coded.CodedAs? <==> h.finished[h.done[k].src].1)
    {
      if k < c {
        assert h.done[k] == h.done[..c][k] && h.finished[g.done[k].src] == h.finished[..c][g.done[k].src];
      } else {
        assert h.done[k] == out[k - c];
        var i := out[k - c].src - c;
        assert h.finished[c + i] == back[i];
        assert k - c < |a.comps| ==> i == a.comps[k - c] && a.comps[k - c] in a.comps;
      }
    }
  }

  lemma {:induction false} JobAgrees(s: State, force: bool, a0: Answer, a1: Answer)
    requires Inv(s) && AnswersFit(s, force, a0, a1) && StatesAgree(GivenOf(s))
    ensures StatesAgree(GivenOf(Job(s, force, a0, a1)))
  {
    if Ready(s, force) {
      JobDelivers(s, force, a0, a1);
      var a, g, h := NextAct(s, force), GivenOf(s), GivenOf(Job(s, force, a0, a1));
      if a == Key && s.plan.nHeld > 0 {
        var m: Given :| Delivered(g, m, s.plan.nHeld, a0) && Delivered(m, h, 1, a1);
        DeliveredAgrees(g, m, s.plan.nHeld, a0);
        DeliveredAgrees(m, h, 1, a1);
      } else if a != Hold {
        DeliveredAgrees(g, h, s.plan.nHeld + (if a == Close then 0 else 1), a0);
      }
    }
  }

  /** In every run: what a source's state says is what its buffer holds. */
  lemma {:induction false} SourcesSayWhatBuffersHold(tr: seq<State>, es: seq<Event>)
    requires IsRun(tr, es)
    ensures StatesAgree(GivenOf(tr[|es|]))
    decreases |es|
  {
    if |es| > 0 {
      var m := |es| - 1;
      SourcesSayWhatBuffersHold(tr[..|es|], es[..m]);
      JobsConserve(tr[..|es|], es[..m]);
      assert tr[..|es|][m] == tr[m];
      assert Next(tr[m], es[m], tr[m + 1]);
      if es[m].RunJob? {
        JobAgrees(tr[m], es[m].force, es[m].a0, es[m].a1);
      }
    }
  }

  /** With buffers for all a job could need, one can run exactly if a source is there that is not held,
      or the newest held one is the drain's last. */
  lemma {:induction false} RunsWhenItCan(s: State, force: bool)
    requires Inv(s) && s.caps >= s.plan.nHeld + 1
    ensures Ready(s, force) <==>
      s.queued > |s.done| + s.plan.nHeld || (s.plan.nHeld > 0 && s.drain == Draining(s.queued - 1))
  {
    assert s.plan.nHeld > 0 && |s.outq| == s.plan.nHeld ==> s.outq[s.plan.nHeld - 1] == s.queued - 1;
  }

  // ---- the drain ----------------------------------------------------------------------

  /** The drain's last source is held for a B frame. */
  predicate IsHeld(s: State, l: nat) {
    l < |s.done| + s.plan.nHeld
  }

  ghost predicate IsDraining(s: State, l: nat) {
    Inv(s) && s.drain == Draining(l)
  }

  /** Sources not held yet, up to the drain's last one. */
  function ToGo(s: State, l: nat): int {
    l + 1 - |s.done| - s.plan.nHeld
  }

  /** From s to t the drain ended as it should: everything up to source l is coded and nothing past
      it, nothing is held, and there is one LAST flag more, on the final buffer. */
  ghost predicate DrainedRight(s: State, t: State, l: nat) {
    && Inv(t) && t.drain == Stopped && |t.done| == l + 1 && t.plan.nHeld == 0
    && t.done[l].last && Lasts(t.done) == Lasts(s.done) + 1 && Extends(s.done, t.done)
  }

  /** What became of the drain from s to t; stop: a STOP came in on the way. */
  ghost predicate DrainKept(s: State, t: State, stop: bool) {
    && (s.drain.Draining? ==>
          var l := s.drain.last;
          t.drain == (if |t.done| <= l then s.drain else Stopped) && (|t.done| == l + 1 > |s.done| ==> t.done[l].last))
    && (s.drain == Running && t.drain.Draining? ==> stop && t.drain.last + 1 == s.queued)
  }

  lemma {:induction false} BatchDrain(s: State, fs: seq<Frame>, src: seq<nat>, a: Answer)
    requires QueueOk(s) && Conserved(s.done) && SourcesReturned(s)
    requires FromHead(s, fs, src) && Honest(|fs|, a)
    ensures DrainKept(s, Batch(s, fs, src, a), a.stop)
  {
    BatchKeeps(s, fs, src, a);
    assert s.outq[|s.outq| - 1] == s.queued - 1;
  }

  lemma {:induction false} DrainChain(s: State, t: State, u: State, m: nat, stop0: bool, stop1: bool)
    requires QueueOk(s) && Advanced(s, t, m) && Advanced(t, u, 1)
    requires DrainKept(s, t, stop0) && DrainKept(t, u, stop1)
    ensures DrainKept(s, u, stop0 || stop1)
  {
  }

  lemma {:induction false} BothDrain(s: State, fs0: seq<Frame>, fs1: seq<Frame>, src: seq<nat>, a0: Answer, a1: Answer)
    requires QueueOk(s) && Conserved(s.done) && SourcesReturned(s)
    requires Follows(s, fs0, fs1, src) && Honest(|fs0|, a0) && Honest(1, a1)
    ensures
      var s1 := Batch(s, fs0, src, a0);
      FromHead(s1, fs1, src) && DrainKept(s, Batch(s1, fs1, src, a1), a0.stop || a1.stop)
  {
    SecondFromHead(s, fs0, fs1, src, a0);
    var s1 := Batch(s, fs0, src, a0);
    BatchDrain(s, fs0, src, a0);
    BatchAdvances(s, fs0, src, a0);
    BatchDrain(s1, fs1, src, a1);
    BatchAdvances(s1, fs1, src, a1);
    DrainChain(s, s1, Batch(s1, fs1, src, a1), |fs0|, a0.stop, a1.stop);
  }

  lemma {:induction false} JobDrain(s: State, force: bool, a0: Answer, a1: Answer)
    requires Inv(s) && AnswersFit(s, force, a0, a1) && Ready(s, force)
    ensures DrainKept(s, Job(s, force, a0, a1), a0.stop || a1.stop)
  {
    JobShape(s, force);
    var a, src := NextAct(s, force), SourcesFor(s);
    var bs := Batches(s.plan, a);
    var s0 := s.(plan := AfterCommit(s.plan, a));
    if |bs| == 1 {
      BatchDrain(s0, bs[0], src, a0);
    } else if |bs| == 2 {
      BothDrain(s0, bs[0], bs[1], src, a0, a1);
    }
  }

  /** A job leaves the drain alone until the last source is coded, and then ends it. */
  lemma {:induction false} JobEndsWithLast(s: State, force: bool, a0: Answer, a1: Answer, l: nat)
    requires IsDraining(s, l) && AnswersFit(s, force, a0, a1) && Ready(s, force)
    ensures
      var t := Job(s, force, a0, a1);
      && t.drain == (if |t.done| <= l then s.drain else Stopped)
      && (|t.done| == l + 1 ==> t.done[l].last)
  {
    JobDrain(s, force, a0, a1);
  }

  /** What a drain's next job does while the last source is not held: it holds one more source
      before that, or codes up to it at most. */
  lemma {:induction false} NotHeldNext(s: State, force: bool, l: nat)
    requires IsDraining(s, l) && !IsHeld(s, l)
    ensures
      var a := NextAct(s, force);
      && (a == Hold || a == Anchor || a == Key) && (a == Hold ==> |s.done| + s.plan.nHeld < l)
      && (s.caps >= l + 1 - |s.done| ==> Ready(s, force))
  {
    assert s.outq[s.plan.nHeld] == |s.done| + s.plan.nHeld;
  }

  /** One job of a drain: one source fewer to go, or the end of it. */
  ghost predicate Drains(s: State, t: State, l: nat) {
    || DrainedRight(s, t, l)
    || (&& IsDraining(t, l) && !IsHeld(t, l) && ToGo(t, l) == ToGo(s, l) - 1
        && Lasts(t.done) == Lasts(s.done) && Extends(s.done, t.done))
  }

  lemma {:induction false} DrainsBy(s: State, t: State, a: Act, l: nat)
    requires IsDraining(s, l) && !IsHeld(s, l) && Inv(t) && Extends(s.done, t.done)
    requires a == Hold || a == Anchor || a == Key
    requires a == Hold ==> |s.done| + s.plan.nHeld < l && t.plan.nHeld == s.plan.nHeld + 1 && |t.done| == |s.done|
    requires a != Hold ==> t.plan.nHeld == 0 && |t.done| == |s.done| + s.plan.nHeld + 1
    requires t.drain == (if |t.done| <= l then s.drain else Stopped)
    requires Lasts(t.done) == Lasts(s.done) + (if t.drain == Stopped then 1 else 0)
    requires |t.done| == l + 1 ==> t.done[l].last
    ensures Drains(s, t, l)
  {
  }

  lemma {:induction false} NotHeldJob(s: State, force: bool, a0: Answer, a1: Answer, l: nat)
    requires IsDraining(s, l) && !IsHeld(s, l) && AnswersFit(s, force, a0, a1) && Ready(s, force)
    ensures Drains(s, Job(s, force, a0, a1), l)
  {
    NotHeldNext(s, force, l);
    JobKeeps(s, force, a0, a1);
    JobPlan(s, force, a0, a1);
    JobEndsWithLast(s, force, a0, a1, l);
    DrainsBy(s, Job(s, force, a0, a1), NextAct(s, force), l);
  }

  lemma {:induction false} JobPlan(s: State, force: bool, a0: Answer, a1: Answer)
    requires Inv(s) && AnswersFit(s, force, a0, a1) && Ready(s, force)
    ensures
      var t, a := Job(s, force, a0, a1), NextAct(s, force);
      && t.plan.nHeld == (if a == Hold then s.plan.nHeld + 1 else 0)
      && t.caps + |t.done| == s.caps + |s.done|
  {
    JobAdvances(s, force, a0, a1);
  }

  /** With the last source held and nothing behind it, the next job is the end. */
  lemma {:induction false} HeldNext(s: State, force: bool, l: nat)
    requires IsDraining(s, l) && IsHeld(s, l) && s.queued == l + 1
    ensures NextAct(s, force) == Close && (s.caps >= s.plan.nHeld ==> Ready(s, force))
  {
    assert s.outq[s.plan.nHeld - 1] == l;
  }

  lemma {:induction false} HeldJob(s: State, force: bool, a0: Answer, a1: Answer, l: nat)
    requires IsDraining(s, l) && IsHeld(s, l) && s.queued == l + 1
    requires AnswersFit(s, force, a0, a1) && Ready(s, force)
    ensures DrainedRight(s, Job(s, force, a0, a1), l)
  {
    HeldNext(s, force, l);
    JobKeeps(s, force, a0, a1);
    JobPlan(s, force, a0, a1);
    JobEndsWithLast(s, force, a0, a1, l);
  }

  /** With something queued behind a held last source, a job that can run at all holds that too or
      codes it as well. */
  lemma {:induction false} BehindNext(s: State, force: bool, l: nat)
    requires IsDraining(s, l) && IsHeld(s, l) && s.queued > l + 1 && Ready(s, force)
    ensures
      var a := NextAct(s, force);
      (a == Hold || a == Anchor || a == Key) && Srcs(s.plan, a) == if a == Hold then 0 else s.plan.nHeld + 1
  {
  }

  lemma {:induction false} BehindJob(s: State, force: bool, a0: Answer, a1: Answer, l: nat)
    requires IsDraining(s, l) && IsHeld(s, l) && s.queued > l + 1
    requires AnswersFit(s, force, a0, a1) && Ready(s, force)
    ensures
      var t := Job(s, force, a0, a1);
      Inv(t) && t.queued == s.queued && (|t.done| > l + 1 || (IsDraining(t, l) && IsHeld(t, l)))
  {
    BehindNext(s, force, l);
    JobKeeps(s, force, a0, a1);
    JobPlan(s, force, a0, a1);
    JobEndsWithLast(s, force, a0, a1, l);
  }

  /** A STOP, between jobs or during a batch, names the newest source queued: the drains below
      start there. */
  lemma {:induction false} StopNamesTheNewest(s: State, e: Event, t: State)
    requires Inv(s) && Next(s, e, t) && s.drain == Running && t.drain.Draining?
    ensures IsDraining(t, t.drain.last) && t.queued == t.drain.last + 1
  {
    NextKeeps(s, e, t);
    if e.RunJob? && Ready(s, e.force) {
      JobDrain(s, e.force, e.a0, e.a1);
      JobAdvances(s, e.force, e.a0, e.a1);
    }
  }

  // ---- a whole drain ------------------------------------------------------------------

  predicate IsReadyJob(s: State, e: Event) {
    e.RunJob? && Ready(s, e.force)
  }

  /** From a STOP on: jobs, and clients that go on queueing sources and buffers. */
  ghost predicate IsDrainRun(tr: seq<State>, es: seq<Event>, l: nat) {
    && |tr| == |es| + 1
    && IsDraining(tr[0], l) && tr[0].queued == l + 1
    && forall i :: 0 <= i < |es| ==>
         (es[i].RunJob? || es[i].QueueSource? || es[i].QueueBuffer?) && (Inv(tr[i]) ==> Next(tr[i], es[i], tr[i + 1]))
  }

  function ReadyJobs(tr: seq<State>, es: seq<Event>): nat
    requires |tr| >= |es|
  {
    if es == [] then 0
    else
      var m := |es| - 1;
      ReadyJobs(tr[..m], es[..m]) + if IsReadyJob(tr[m], es[m]) then 1 else 0
  }

  function Jobs(es: seq<Event>): nat {
    if es == [] then 0 else Jobs(es[..|es| - 1]) + if es[|es| - 1].RunJob? then 1 else 0
  }

  lemma {:induction false} ShorterRun(tr: seq<State>, es: seq<Event>, l: nat)
    requires IsDrainRun(tr, es, l) && |es| > 0
    ensures
      var m := |es| - 1;
      && IsDrainRun(tr[..|es|], es[..m], l) && tr[..|es|][m] == tr[m] && tr[..|es|][0] == tr[0]
      && (Inv(tr[m]) ==> Next(tr[m], es[m], tr[|es|]))
      && ReadyJobs(tr, es) == ReadyJobs(tr[..|es|], es[..m]) + if IsReadyJob(tr[m], es[m]) then 1 else 0
  {
    var m := |es| - 1;
    assert tr[..|es|][..m] == tr[..m];
    assert tr[m + 1] == tr[|es|];
    assert forall i :: 0 <= i < m ==> es[..m][i] == es[i];
    assert forall i :: 0 <= i <= m ==> tr[..|es|][i] == tr[i];
    OneMore(tr, tr[..|es|], es);
  }

  lemma {:induction false} OneMore(tr: seq<State>, tr': seq<State>, es: seq<Event>)
    requires |tr| >= |es| > 0 && |tr'| >= |es| - 1 && tr'[..|es| - 1] == tr[..|es| - 1]
    ensures ReadyJobs(tr, es) == ReadyJobs(tr', es[..|es| - 1]) + if IsReadyJob(tr[|es| - 1], es[|es| - 1]) then 1 else 0
  {
    SameJobs(tr[..|es| - 1], tr', es[..|es| - 1]);
  }

  lemma {:induction false} SameJobs(tr: seq<State>, tr': seq<State>, es: seq<Event>)
    requires |tr| >= |es| && |tr'| >= |es| && tr[..|es|] == tr'[..|es|]
    ensures ReadyJobs(tr, es) == ReadyJobs(tr', es)
  {
    if es != [] {
      var m := |es| - 1;
      assert tr[..m] == tr[..|es|][..m] && tr'[..m] == tr'[..|es|][..m];
      assert tr[m] == tr[..|es|][m] && tr'[m] == tr'[..|es|][m];
    }
  }

  /** t is s after some jobs of its drain, n of them ready. */
  ghost predicate NotHeldYet(s: State, t: State, l: nat, n: nat) {
    && IsDraining(t, l) && !IsHeld(t, l) && ToGo(t, l) == ToGo(s, l) - n
    && Lasts(t.done) == Lasts(s.done) && Extends(s.done, t.done)
  }

  lemma {:induction false} ExtendsChain(x: seq<Done>, y: seq<Done>, z: seq<Done>)
    requires Extends(x, y) && Extends(y, z)
    ensures Extends(x, z)
  {
    assert z[..|x|] == z[..|y|][..|x|];
  }

  lemma {:induction false} DrainsOn(s: State, t: State, u: State, l: nat, n: nat)
    requires NotHeldYet(s, t, l, n) && Drains(t, u, l)
    ensures DrainedRight(s, u, l) || NotHeldYet(s, u, l, n + 1)
  {
    ExtendsChain(s.done, t.done, u.done);
  }

  lemma {:induction false} NotHeldStep(s: State, t: State, e: Event, u: State, l: nat, n: nat)
    requires NotHeldYet(s, t, l, n) && Next(t, e, u) && (e.RunJob? || e.QueueSource? || e.QueueBuffer?)
    ensures DrainedRight(s, u, l) || NotHeldYet(s, u, l, if IsReadyJob(t, e) then n + 1 else n)
  {
    if e.RunJob? && Ready(t, e.force) {
      NotHeldJob(t, e.force, e.a0, e.a1, l);
      DrainsOn(s, t, u, l, n);
    } else {
      Waits(t, e, u);
    }
  }

  /** Without a ready job nothing is coded, held or ended. */
  lemma {:induction false} Waits(t: State, e: Event, u: State)
    requires Inv(t) && Next(t, e, u) && (e.RunJob? || e.QueueSource? || e.QueueBuffer?) && !IsReadyJob(t, e)
    ensures Inv(u) && u.done == t.done && u.plan == t.plan && u.drain == t.drain && u.queued >= t.queued
    ensures e.RunJob? ==> u == t
  {
    NextKeeps(t, e, u);
  }

  lemma {:induction false} DrainedStays(s: State, t: State, e: Event, u: State, l: nat)
    requires DrainedRight(s, t, l) && Next(t, e, u) && (e.RunJob? || e.QueueSource? || e.QueueBuffer?)
    ensures DrainedRight(s, u, l) && !e.RunJob?
  {
    NextKeeps(t, e, u);
  }

  lemma {:induction false} NotHeldRun(tr: seq<State>, es: seq<Event>, l: nat)
    requires IsDrainRun(tr, es, l) && !IsHeld(tr[0], l)
    ensures DrainedRight(tr[0], tr[|es|], l) || NotHeldYet(tr[0], tr[|es|], l, ReadyJobs(tr, es))
    decreases |es|
  {
    if |es| > 0 {
      var m := |es| - 1;
      ShorterRun(tr, es, l);
      NotHeldRun(tr[..|es|], es[..m], l);
      if DrainedRight(tr[0], tr[m], l) {
        DrainedStays(tr[0], tr[m], es[m], tr[|es|], l);
      } else {
        NotHeldStep(tr[0], tr[m], es[m], tr[|es|], l, ReadyJobs(tr[..|es|], es[..m]));
      }
    }
  }

  /** Nothing was queued behind source l before a job that could run. */
  ghost predicate NothingBehind(tr: seq<State>, es: seq<Event>, l: nat)
    requires |tr| >= |es|
  {
    forall i :: 0 <= i < |es| && IsReadyJob(tr[i], es[i]) ==> tr[i].queued == l + 1
  }

  /** Source l is held and something behind it is held or coded too. */
  ghost predicate WentPast(t: State, l: nat) {
    Inv(t) && t.queued > l + 1 && (|t.done| > l + 1 || (IsDraining(t, l) && IsHeld(t, l)))
  }

  /** Where the drain is when source l was held at the STOP. */
  ghost predicate HeldDrain(s: State, t: State, l: nat, n: nat, behind: bool) {
    if behind then WentPast(t, l)
    else if n > 0 then DrainedRight(s, t, l)
    else IsDraining(t, l) && IsHeld(t, l) && t.done == s.done && t.plan == s.plan && t.queued > l
  }

  lemma {:induction false} PastStays(t: State, e: Event, u: State, l: nat)
    requires WentPast(t, l) && Next(t, e, u) && (e.RunJob? || e.QueueSource? || e.QueueBuffer?)
    ensures WentPast(u, l)
  {
    NextKeeps(t, e, u);
    if e.RunJob? && Ready(t, e.force) {
      JobKeeps(t, e.force, e.a0, e.a1);
      if |t.done| <= l + 1 {
        BehindJob(t, e.force, e.a0, e.a1, l);
      }
    }
  }

  lemma {:induction false} HeldStep(s: State, t: State, e: Event, u: State, l: nat, n: nat)
    requires Inv(s) && HeldDrain(s, t, l, n, false) && Next(t, e, u) && (e.RunJob? || e.QueueSource? || e.QueueBuffer?)
    ensures
      var r := IsReadyJob(t, e);
      HeldDrain(s, u, l, if r then n + 1 else n, r && t.queued > l + 1)
  {
    if n > 0 {
      DrainedStays(s, t, e, u, l);
    } else if IsReadyJob(t, e) {
      if t.queued == l + 1 {
        HeldJob(t, e.force, e.a0, e.a1, l);
      } else {
        BehindJob(t, e.force, e.a0, e.a1, l);
      }
    } else {
      Waits(t, e, u);
    }
  }

  lemma {:induction false} HeldRun(tr: seq<State>, es: seq<Event>, l: nat)
    requires IsDrainRun(tr, es, l) && IsHeld(tr[0], l)
    ensures HeldDrain(tr[0], tr[|es|], l, ReadyJobs(tr, es), !NothingBehind(tr, es, l))
    decreases |es|
  {
    if |es| > 0 {
      var m := |es| - 1;
      ShorterRun(tr, es, l);
      HeldRun(tr[..|es|], es[..m], l);
      BehindGrows(tr, es, l);
      if NothingBehind(tr[..|es|], es[..m], l) {
        HeldStep(tr[0], tr[m], es[m], tr[|es|], l, ReadyJobs(tr[..|es|], es[..m]));
        assert tr[m].queued > l;
      } else {
        PastStays(tr[m], es[m], tr[|es|], l);
      }
    }
  }

  lemma {:induction false} BehindGrows(tr: seq<State>, es: seq<Event>, l: nat)
    requires |tr| == |es| + 1 && |es| > 0
    ensures
      var m := |es| - 1;
      NothingBehind(tr, es, l)
      <==> NothingBehind(tr[..|es|], es[..m], l) && (IsReadyJob(tr[m], es[m]) ==> tr[m].queued == l + 1)
  {
    var m := |es| - 1;
    assert forall i :: 0 <= i < m ==> es[..m][i] == es[i] && tr[..|es|][i] == tr[i];
  }

  /** After as many jobs with buffers for them as there were sources not yet held at the STOP, and
      at least one, whatever the clients queue meanwhile: the drain has ended as it should if and
      only if its last source was not held at the STOP, or nothing had been queued behind that. */
  lemma {:induction false} DrainEndsExactly(tr: seq<State>, es: seq<Event>, l: nat)
    requires IsDrainRun(tr, es, l)
    requires ReadyJobs(tr, es) >= 1 && ReadyJobs(tr, es) >= ToGo(tr[0], l)
    ensures DrainedRight(tr[0], tr[|es|], l) <==> !IsHeld(tr[0], l) || NothingBehind(tr, es, l)
  {
    if IsHeld(tr[0], l) {
      HeldRun(tr, es, l);
    } else {
      NotHeldRun(tr, es, l);
    }
  }

  lemma {:induction false} BuffersStay(tr: seq<State>, es: seq<Event>, l: nat)
    requires IsDrainRun(tr, es, l)
    ensures Inv(tr[|es|]) && tr[|es|].caps + |tr[|es|].done| >= tr[0].caps + |tr[0].done|
    decreases |es|
  {
    if |es| > 0 {
      var m := |es| - 1;
      ShorterRun(tr, es, l);
      BuffersStay(tr[..|es|], es[..m], l);
      NextKeeps(tr[m], es[m], tr[|es|]);
      if IsReadyJob(tr[m], es[m]) {
        JobPlan(tr[m], es[m].force, es[m].a0, es[m].a1);
      }
    }
  }

  lemma {:induction false} NextReady(tr: seq<State>, es: seq<Event>, l: nat, force: bool)
    requires IsDrainRun(tr, es, l) && tr[0].caps >= l + 1 - |tr[0].done|
    requires !IsHeld(tr[0], l) || (NothingBehind(tr, es, l) && tr[|es|].queued == l + 1)
    ensures Inv(tr[|es|]) && (tr[|es|].drain != Stopped ==> Ready(tr[|es|], force))
  {
    BuffersStay(tr, es, l);
    if tr[|es|].drain != Stopped {
      if IsHeld(tr[0], l) {
        HeldRun(tr, es, l);
        HeldNext(tr[|es|], force, l);
      } else {
        NotHeldRun(tr, es, l);
        NotHeldNext(tr[|es|], force, l);
      }
    }
  }

  /** Whenever a job runs, nothing has been queued behind source l. */
  ghost predicate NoneBehind(tr: seq<State>, es: seq<Event>, l: nat)
    requires |tr| >= |es|
  {
    forall i :: 0 <= i < |es| && es[i].RunJob? ==> tr[i].queued == l + 1
  }

  lemma {:induction false} NoneBehindShorter(tr: seq<State>, es: seq<Event>, l: nat)
    requires |tr| == |es| + 1 && |es| > 0 && NoneBehind(tr, es, l)
    ensures NoneBehind(tr[..|es|], es[..|es| - 1], l)
  {
    var m := |es| - 1;
    forall i | 0 <= i < m && es[..m][i].RunJob? ensures tr[..|es|][i].queued == l + 1 {
      assert es[..m][i] == es[i];
    }
  }

  lemma {:induction false} AllReady(tr: seq<State>, es: seq<Event>, l: nat)
    requires IsDrainRun(tr, es, l) && tr[0].caps >= l + 1 - |tr[0].done|
    requires !IsHeld(tr[0], l) || NoneBehind(tr, es, l)
    ensures ReadyJobs(tr, es) == Jobs(es)
    decreases |es|
  {
    if |es| > 0 {
      var m := |es| - 1;
      ShorterRun(tr, es, l);
      if IsHeld(tr[0], l) {
        NoneBehindShorter(tr, es, l);
      }
      AllReady(tr[..|es|], es[..m], l);
      if es[m].RunJob? {
        NextReady(tr[..|es|], es[..m], l, es[m].force);
      }
    }
  }

  /** Given a CAPTURE buffer for every source up to the last, each job of such a drain can run, so
      that it is over after at most one job for each source not yet held, and at least one. */
  lemma {:induction false} DrainEnds(tr: seq<State>, es: seq<Event>, l: nat)
    requires IsDrainRun(tr, es, l) && tr[0].caps >= l + 1 - |tr[0].done|
    requires !IsHeld(tr[0], l) || NoneBehind(tr, es, l)
    requires Jobs(es) >= 1 && Jobs(es) >= ToGo(tr[0], l)
    ensures DrainedRight(tr[0], tr[|es|], l)
  {
    AllReady(tr, es, l);
    DrainEndsExactly(tr, es, l);
  }

  // ---- a source queued behind a STOP --------------------------------------------------

  /** A job that codes the drain's last source codes nothing after it, except when that source
      was already held and another one is queued behind the held ones: then the newcomer is
      coded along with it. */
  lemma {:induction false} CodesPastTheLast(s: State, force: bool, a0: Answer, a1: Answer)
    requires Inv(s) && AnswersFit(s, force, a0, a1) && Ready(s, force) && s.drain.Draining?
    ensures
      var t, l := Job(s, force, a0, a1), s.drain.last;
      |t.done| > l ==>
        (|t.done| > l + 1 <==> l < |s.done| + s.plan.nHeld && |s.outq| > s.plan.nHeld)
  {
    JobShape(s, force);
    JobAdvances(s, force, a0, a1);
    assert forall i :: 0 <= i < |s.outq| ==> s.outq[i] == |s.done| + i;
  }

  /** And a drain is stuck when its last source is held with another held source behind it and
      nothing else queued. */
  lemma {:induction false} DrainStalls(s: State, force: bool)
    requires Inv(s) && s.drain.Draining? && |s.outq| == s.plan.nHeld
    ensures s.caps >= |s.outq| ==> (Ready(s, force) <==> s.drain.last == s.queued - 1)
  {
    assert |s.outq| > 0 && s.outq[|s.outq| - 1] == s.queued - 1;
  }

  lemma {:induction false} Extend(tr: seq<State>, es: seq<Event>, e: Event, t: State) returns (tr': seq<State>, es': seq<Event>)
    requires IsRun(tr, es) && (Inv(tr[|es|]) ==> Next(tr[|es|], e, t))
    ensures IsRun(tr', es') && tr'[|es'|] == t && Inv(t)
  {
    tr', es' := tr + [t], es + [e];
    forall i | 0 <= i < |es'| ensures Inv(tr'[i]) ==> Next(tr'[i], es'[i], tr'[i + 1]) {
      if i < |es| {
        assert tr'[i] == tr[i] && es'[i] == es[i] && tr'[i + 1] == tr[i + 1];
      }
    }
    JobsConserve(tr', es');
  }

  /** Any number of CAPTURE buffers may be there from the start. */
  lemma {:induction false} WithBuffers(g: Gop, n: nat) returns (tr: seq<State>, es: seq<Event>)
    requires g == Fresh(g.nb, g.gop) && g.nb >= 1
    ensures IsRun(tr, es) && tr[|es|] == State(g, [], 0, n, Running, [], [])
  {
    if n == 0 {
      tr, es := [State(g, [], 0, 0, Running, [], [])], [];
    } else {
      tr, es := WithBuffers(g, n - 1);
      tr, es := Extend(tr, es, QueueBuffer, State(g, [], 0, n, Running, [], []));
    }
  }

  lemma {:induction false} FirstKey(s: State, key: Answer)
    requires Inv(s) && s == State(Fresh(2, 0), [0], 1, 4, Running, [], []) && key == Answer([0], [IDR], false)
    ensures NextAct(s, false) == Key && Ready(s, false) && AnswersFit(s, false, key, key)
  {
    var bs := Batches(s.plan, Key);
    assert |bs| == 1 && |bs[0]| == 1;
  }

  lemma {:induction false} FirstKeyCoded(s: State, key: Answer)
    requires Inv(s) && s == State(Fresh(2, 0), [0], 1, 4, Running, [], []) && key == Answer([0], [IDR], false)
    requires AnswersFit(s, false, key, key) && Ready(s, false) && NextAct(s, false) == Key
    ensures
      var t := Job(s, false, key, key);
      && t.plan == Gop(2, 0, 0, 1, 0, true) && t.outq == [] && t.caps == 3
      && t.drain == Running && |t.done| == 1 && t.queued == 1
  {
    JobAdvances(s, false, key, key);
    var bs := Batches(s.plan, Key);
    assert |bs| == 1 && |bs[0]| == 1;
    JobShape(s, false);
    BatchKeeps(s.(plan := AfterCommit(s.plan, Key)), bs[0], SourcesFor(s), key);
  }

  lemma {:induction false} KeyCoded() returns (tr: seq<State>, es: seq<Event>)
    ensures IsRun(tr, es)
    ensures
      var s := tr[|es|];
      && Inv(s) && s.plan == Gop(2, 0, 0, 1, 0, true) && s.outq == [] && s.caps == 3
      && s.drain == Running && |s.done| == 1 && s.queued == 1
  {
    tr, es := WithBuffers(Fresh(2, 0), 4);
    tr, es := Extend(tr, es, QueueSource, tr[|es|].(outq := [0], queued := 1));
    var s, key := tr[|es|], Answer([0], [IDR], false);
    FirstKey(s, key);
    FirstKeyCoded(s, key);
    tr, es := Extend(tr, es, RunJob(false, key, key), Job(s, false, key, key));
  }

  lemma {:induction false} QueueOne(tr: seq<State>, es: seq<Event>) returns (tr': seq<State>, es': seq<Event>)
    requires IsRun(tr, es)
    ensures IsRun(tr', es') && Inv(tr'[|es'|])
    ensures tr'[|es'|] == tr[|es|].(outq := tr[|es|].outq + [tr[|es|].queued], queued := tr[|es|].queued + 1)
  {
    var s := tr[|es|];
    tr', es' := Extend(tr, es, QueueSource, s.(outq := s.outq + [s.queued], queued := s.queued + 1));
  }

  lemma {:induction false} HoldOne(tr: seq<State>, es: seq<Event>) returns (tr': seq<State>, es': seq<Event>)
    requires IsRun(tr, es) && NextAct(tr[|es|], false) == Hold && tr[|es|].caps >= 1 && tr[|es|].drain != Stopped
    ensures IsRun(tr', es') && Inv(tr'[|es'|])
    ensures tr'[|es'|] == tr[|es|].(plan := AfterCommit(tr[|es|].plan, Hold))
  {
    var s, key := tr[|es|], Answer([0], [IDR], false);
    tr', es' := Extend(tr, es, RunJob(false, key, key), s.(plan := AfterCommit(s.plan, Hold)));
  }

  /** A key frame coded, source 1 held, STOP, and source 2 queued and held behind it: the
      state of the example below. */
  lemma {:induction false} HeldBehindStop() returns (tr: seq<State>, es: seq<Event>)
    ensures IsRun(tr, es)
    ensures
      var s := tr[|es|];
      && Inv(s) && s.plan == Gop(2, 0, 2, 3, 0, true) && s.outq == [1, 2] && s.caps == 3
      && s.drain == Draining(1) && s.queued == 3
  {
    tr, es := KeyCoded();
    tr, es := QueueOne(tr, es);
    tr, es := HoldOne(tr, es);
    tr, es := Extend(tr, es, Stop, tr[|es|].(drain := Draining(1)));
    tr, es := QueueOne(tr, es);
    tr, es := HoldOne(tr, es);
  }

  /** One job codes sources 1, 2 and 3 although STOP named source 1 as the last. */
  lemma {:induction false} CodedBehindStop(s: State, a: Answer)
    requires Inv(s) && s.plan == Gop(2, 0, 2, 3, 0, true) && s.caps == 3
    requires s.outq == [1, 2, 3] && s.drain == Draining(1)
    requires a == Answer([2, 0, 1], [P, B, B], false)
    ensures NextAct(s, false) == Anchor && AnswersFit(s, false, a, a)
    ensures Job(s, false, a, a).drain == Stopped && |Job(s, false, a, a).done| == 4
  {
    var bs := Batches(s.plan, Anchor);
    assert |bs| == 1 && |bs[0]| == 3;
    JobAdvances(s, false, a, a);
    JobShape(s, false);
    BatchKeeps(s.(plan := AfterCommit(s.plan, Anchor)), bs[0], SourcesFor(s), a);
  }

  /** Both happen in a real run: the drain stalls, and once source 3 is queued as well, one
      job codes everything behind STOP's last source along with it. */
  lemma {:induction false} SourcesBehindStop() returns (tr: seq<State>, es: seq<Event>, s: State)
    ensures IsRun(tr, es) && tr[|es|].drain == Draining(1) && !Ready(tr[|es|], false)
    ensures Inv(tr[|es|]) && Next(tr[|es|], QueueSource, s) && Inv(s)
    ensures
      var a := Answer([2, 0, 1], [P, B, B], false);
      && AnswersFit(s, false, a, a)
      && Job(s, false, a, a).drain == Stopped && |Job(s, false, a, a).done| == 4
  {
    tr, es := HeldBehindStop();
    s := tr[|es|].(outq := [1, 2, 3], queued := 4);
    NextKeeps(tr[|es|], QueueSource, s);
    CodedBehindStop(s, Answer([2, 0, 1], [P, B, B], false));
  }
}
