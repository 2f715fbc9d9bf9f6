/** The jobs of ave_v4l2.c against the planner's runs: what a job finds in its queues is what the
    planner is told, so every run of jobs is a run of the planner, and what is proved of those
    streams holds of what the jobs send. */
module BPlans {
  import opened GopPlanner
  import opened BJobs
  import R = GopRuns

  /** What a job finds: a source that is not held yet, whether a key was asked for, and whether the
      newest source it could code is the drain's last. */
  function Finds(s: State, force: bool): R.Input {
    var hasNew := s.queued > |s.done| + s.plan.nHeld;
    var newest := |s.done| + s.plan.nHeld + (if hasNew then 0 else -1);
    R.Input(hasNew, force, s.drain.Draining? && s.drain.last == newest)
  }

  /** What the jobs of a run found, those that could not run left out. */
  ghost function Found(tr: seq<State>, es: seq<Event>): seq<R.Input>
    requires |tr| == |es| + 1
  {
    if es == [] then []
    else
      var m := |es| - 1;
      Found(tr[..|es|], es[..m])
      + if es[m].RunJob? && Ready(tr[m], es[m].force) then [Finds(tr[m], es[m].force)] else []
  }

  lemma {:induction false} ActOf(s: State, force: bool)
    requires Inv(s) && Ready(s, force)
    ensures var x := Finds(s, force); NextAct(s, force) == Decide(s.plan, x.hasNew, x.force, x.last)
  {
    var k := s.plan.nHeld;
    if |s.outq| > k {
      assert s.outq[k] == |s.done| + k;
    } else if k > 0 {
      assert s.outq[k - 1] == |s.done| + k - 1;
    }
  }

  lemma {:induction false} PicsGrow(r: R.Run, x: R.Input)
    ensures
      var a := Decide(r.g, x.hasNew, x.force, x.last);
      R.Job(r, x).g == AfterCommit(r.g, a) && |R.Job(r, x).pics| == |r.pics| + Srcs(r.g, a)
  {
    BatchesUseTheSourcesOnce(r.g, Decide(r.g, x.hasNew, x.force, x.last));
  }

  lemma {:induction false} DoneGrows(s: State, force: bool, a0: Answer, a1: Answer)
    requires Inv(s) && AnswersFit(s, force, a0, a1) && Ready(s, force)
    ensures
      var a, t := NextAct(s, force), Job(s, force, a0, a1);
      t.plan == AfterCommit(s.plan, a) && |t.done| == |s.done| + Srcs(s.plan, a)
  {
    JobDelivers(s, force, a0, a1);
    JobShape(s, force);
  }

  lemma {:induction false} JobIsPlanned(s: State, e: Event, t: State, r: R.Run)
    requires Inv(s) && Next(s, e, t) && e.RunJob? && Ready(s, e.force)
    requires r.g == s.plan && |r.pics| == |s.done|
    ensures R.Job(r, Finds(s, e.force)).g == t.plan && |R.Job(r, Finds(s, e.force)).pics| == |t.done|
  {
    ActOf(s, e.force);
    DoneGrows(s, e.force, e.a0, e.a1);
    PicsGrow(r, Finds(s, e.force));
  }

  /** In every run, whatever is queued, forced, drained or fails: the plan and the number of sources
      coded are those of the planner's run over what the jobs found. */
  lemma {:induction false} JobsArePlanned(tr: seq<State>, es: seq<Event>)
    requires IsRun(tr, es)
    ensures
      var s, r := tr[|es|], R.Exec(tr[0].plan.nb, tr[0].plan.gop, Found(tr, es));
      s.plan == r.g && |s.done| == |r.pics|
    decreases |es|
  {
    if |es| > 0 {
      var m := |es| - 1;
      JobsArePlanned(tr[..|es|], es[..m]);
      JobsConserve(tr[..|es|], es[..m]);
      assert tr[..|es|][m] == tr[m] && tr[..|es|][0] == tr[0];
      assert Next(tr[m], es[m], tr[m + 1]);
      var xs := Found(tr[..|es|], es[..m]);
      if es[m].RunJob? && Ready(tr[m], es[m].force) {
        var x := Finds(tr[m], es[m].force);
        assert (xs + [x])[..|xs|] == xs && R.Last(xs + [x]) == x;
        JobIsPlanned(tr[m], es[m], tr[m + 1], R.Exec(tr[0].plan.nb, tr[0].plan.gop, xs));
      } else {
        assert Found(tr, es) == xs;
      }
    }
  }

  /** So a key asked for is one: the job that finds a new source codes it, as an IDR, with all the held
      sources before it, and holds nothing. */
  lemma {:induction false} ForcedIsAnIdr(tr: seq<State>, es: seq<Event>)
    requires IsRun(tr, es) && |es| > 0
    requires
      var e, s := es[|es| - 1], tr[|es| - 1];
      e.RunJob? && e.force && Ready(s, true) && s.queued > |s.done| + s.plan.nHeld
    ensures
      var s, t, ps := tr[|es| - 1], tr[|es|], R.Exec(tr[0].plan.nb, tr[0].plan.gop, Found(tr, es)).pics;
      && |t.done| == |ps| == |s.done| + s.plan.nHeld + 1 && t.plan.nHeld == 0
      && ps[|ps| - 1].kind == IDR && ps[|ps| - 1].disp == |s.done| + s.plan.nHeld
  {
    var m := |es| - 1;
    JobsArePlanned(tr, es);
    var before := tr[..|es|];
    assert IsRun(before, es[..m]) by {
      forall i | 0 <= i < m ensures Inv(before[i]) ==> Next(before[i], es[..m][i], before[i + 1]) {
        assert before[i] == tr[i] && before[i + 1] == tr[i + 1];
      }
    }
    JobsArePlanned(before, es[..m]);
    var nb, gop, xs, x := tr[0].plan.nb, tr[0].plan.gop, Found(before, es[..m]), Finds(tr[m], true);
    assert Found(tr, es) == xs + [x];
    R.WhatBecomesOfASource(nb, gop, xs, x);
  }
}
