/** Which encoder an open file uses (ave_v4l2.c): its node's own while that is free, else the
    free compatible one with the lowest instance. A context and a file each count as a user. A
    hung encoder is re-probed by a work item, which frees its node whoever has it open by then. */
module Binding {

  /** What two encoders must share for a context to move between them. */
  datatype Kind = Kind(abi: nat, fwName: Name, hevc: bool, twoRefs: bool, h264TwoRefs: bool)

  datatype Name = NoName | Name(text: string)

  /** recovering: the re-probe is scheduled. looked: a sleep path has seen the encoder idle and is
      about to schedule it. */
  datatype Encoder = Encoder(kind: Kind, inst: nat, ctxs: nat, users: nat, hung: bool, recovering: bool, looked: bool)

  /** An open file: the node it was opened on, and the encoder it is bound to. late: when it was
      opened, the re-probe of its node was already decided on. */
  datatype File = File(nav: nat, av: nat, late: bool)

  /** fault: a re-probe freed an encoder or a node that somebody still had open. */
  datatype State = State(encs: seq<Encoder>, files: seq<File>, fault: bool)

  predicate Compatible(a: Kind, b: Kind) {
    a.abi == b.abi && a.fwName.Name? && a.fwName == b.fwName
    && a.hevc == b.hevc && a.twoRefs == b.twoRefs && a.h264TwoRefs == b.h264TwoRefs
  }

  predicate Free(e: Encoder) {
    e.ctxs == 0 && !e.hung && !e.recovering
  }

  predicate Candidate(encs: seq<Encoder>, nav: nat, i: nat)
    requires nav < |encs| && i < |encs|
  {
    i != nav && Free(encs[i]) && Compatible(encs[nav].kind, encs[i].kind)
  }

  /** The walk over the list, up to entry n. */
  function Best(encs: seq<Encoder>, nav: nat, n: nat): (b: nat)
    requires nav < |encs| && n <= |encs|
    ensures b < |encs|
  {
    if n == 0 then nav
    else
      var b := Best(encs, nav, n - 1);
      if Candidate(encs, nav, n - 1) && (b == nav || encs[n - 1].inst < encs[b].inst) then n - 1 else b
  }

  function Choose(encs: seq<Encoder>, nav: nat, balance: bool): (b: nat)
    requires nav < |encs|
    ensures b < |encs|
  {
    if balance && !Free(encs[nav]) then Best(encs, nav, |encs|) else nav
  }

  lemma {:induction false} BestIsLowest(encs: seq<Encoder>, nav: nat, n: nat)
    requires nav < |encs| && n <= |encs|
    ensures
      var b := Best(encs, nav, n);
      && (b == nav <==> forall i :: 0 <= i < n ==> !Candidate(encs, nav, i))
      && (b != nav ==>
            && Candidate(encs, nav, b) && b < n
            && forall i :: 0 <= i < n && Candidate(encs, nav, i) ==> encs[b].inst <= encs[i].inst)
  {
    if n > 0 {
      BestIsLowest(encs, nav, n - 1);
    }
  }

  /** No context on it, not hung, and not about to be re-probed. */
  predicate Idle(e: Encoder) {
    e.ctxs == 0 && !e.hung && !e.recovering
  }

  /** Another encoder of the very same kind, its firmware's name known, that is idle. */
  predicate StandsIn(encs: seq<Encoder>, nav: nat, i: nat)
    requires nav < |encs| && i < |encs|
  {
    i != nav && Idle(encs[i]) && encs[i].kind == encs[nav].kind && encs[i].kind.fwName != NoName
  }

  /** An open gets its own encoder when that is idle or nothing can stand in for it, and otherwise
      the stand-in with the lowest instance. */
  lemma {:induction false} ChoosesTheLowestFree(encs: seq<Encoder>, nav: nat, balance: bool)
    requires nav < |encs|
    ensures
      var b := Choose(encs, nav, balance);
      && (b == nav <==> !balance || Idle(encs[nav]) || forall i :: 0 <= i < |encs| ==> !StandsIn(encs, nav, i))
      && (b != nav ==>
            && StandsIn(encs, nav, b)
            && forall i :: 0 <= i < |encs| && StandsIn(encs, nav, i) ==> encs[b].inst <= encs[i].inst)
  {
    forall i | 0 <= i < |encs| ensures Candidate(encs, nav, i) <==> StandsIn(encs, nav, i) {
    }
    BestIsLowest(encs, nav, |encs|);
  }

  // ---- opens and closes ---------------------------------------------------------------

  function CountIn(e: Encoder): Encoder {
    e.(users := e.users + 1)
  }

  function Bound(encs: seq<Encoder>, nav: nat, av: nat): (r: seq<Encoder>)
    requires nav < |encs| && av < |encs|
    ensures |r| == |encs|
  {
    var t := encs[av := encs[av].(ctxs := encs[av].ctxs + 1, users := encs[av].users + 1)];
    t[nav := CountIn(t[nav])]
  }

  /** ave_schedule_recover; mem: there is memory for the work item. */
  function Schedule(e: Encoder, mem: bool): Encoder {
    e.(recovering := e.recovering || mem)
  }

  /** A close leaves a hung encoder without users. */
  function Recover(e: Encoder, mem: bool): Encoder {
    if e.users == 0 && e.hung then Schedule(e, mem) else e
  }

  predicate CanUnbind(encs: seq<Encoder>, nav: nat, av: nat) {
    && nav < |encs| && av < |encs| && encs[av].ctxs > 0
    && encs[av].users > (if nav == av then 1 else 0) && encs[nav].users > 0
  }

  function Unbound(encs: seq<Encoder>, nav: nat, av: nat, memAv: bool, memNav: bool): (r: seq<Encoder>)
    requires CanUnbind(encs, nav, av)
    ensures |r| == |encs|
  {
    var t := encs[av := encs[av].(ctxs := encs[av].ctxs - 1, users := encs[av].users - 1)];
    var u := t[nav := t[nav].(users := t[nav].users - 1)];
    var w := u[av := Recover(u[av], memAv)];
    if nav != av then w[nav := Recover(w[nav], memNav)] else w
  }

  datatype Event =
    | Open(nav: nat)
    | Close(i: nat, memAv: bool, memNav: bool)
    | Hang(k: nat)
    | Forget(k: nat)                    // ave_pm_forget_core: a sleep took the core down
    | Look(k: nat)                      // a sleep path asks ave_v4l2_idle ...
    | LookEnds(k: nat, mem: bool)       // ... and schedules, the list lock dropped in between
    | Reprobe(k: nat)                   // the work item

  function WithoutFile(files: seq<File>, i: nat): seq<File>
    requires i < |files|
  {
    files[..i] + files[i + 1..]
  }

  /** A re-probe of this encoder will come, or is about to be scheduled. */
  predicate Decided(e: Encoder) {
    e.recovering || e.looked
  }

  /** The re-probed encoder's node and encoder are new ones. */
  function Renewed(e: Encoder): Encoder {
    Encoder(e.kind, e.inst, 0, 0, false, false, false)
  }

  /** The sleep paths of an encoder exclude each other, and its removal waits for them. */
  ghost predicate Next(s: State, balance: bool, e: Event, t: State) {
    !s.fault &&
    match e
    case Open(nav) =>
      && nav < |s.encs|
      && var av := Choose(s.encs, nav, balance);
      t == State(Bound(s.encs, nav, av), s.files + [File(nav, av, Decided(s.encs[nav]))], false)
    case Close(i, memAv, memNav) =>
      && i < |s.files| && CanUnbind(s.encs, s.files[i].nav, s.files[i].av)
      && t == State(Unbound(s.encs, s.files[i].nav, s.files[i].av, memAv, memNav), WithoutFile(s.files, i), false)
    case Hang(k) => k < |s.encs| && t == s.(encs := s.encs[k := s.encs[k].(hung := true)])
    case Forget(k) =>
      k < |s.encs| && !s.encs[k].looked && t == s.(encs := s.encs[k := s.encs[k].(hung := false)])
    case Look(k) =>
      k < |s.encs| && s.encs[k].hung && !s.encs[k].looked
      && t == s.(encs := s.encs[k := s.encs[k].(looked := s.encs[k].users == 0)])
    case LookEnds(k, mem) =>
      k < |s.encs| && s.encs[k].looked
      && t == s.(encs := s.encs[k := Schedule(s.encs[k], mem).(looked := false)])
    case Reprobe(k) =>
      k < |s.encs| && s.encs[k].recovering && !s.encs[k].looked
      && t == s.(encs := s.encs[k := Renewed(s.encs[k])], fault := s.encs[k].users > 0)
  }

  // ---- the invariant ------------------------------------------------------------------

  function OnNode(files: seq<File>, e: nat): nat {
    if files == [] then 0 else OnNode(files[1..], e) + if files[0].nav == e then 1 else 0
  }

  function BoundTo(files: seq<File>, e: nat): nat {
    if files == [] then 0 else BoundTo(files[1..], e) + if files[0].av == e then 1 else 0
  }

  /** ctxs: contexts bound; users: those, and the files open on the node. */
  ghost predicate Counted(s: State) {
    forall e: nat :: e < |s.encs| ==>
      s.encs[e].ctxs == BoundTo(s.files, e) && s.encs[e].users == OnNode(s.files, e) + BoundTo(s.files, e)
  }

  predicate On(f: File, k: nat) {
    f.nav == k || f.av == k
  }

  /** Once a re-probe is decided on, only later opens of the node itself can be using it. */
  ghost predicate OnlyLate(s: State) {
    && (forall k, i :: 0 <= k < |s.encs| && 0 <= i < |s.files| && Decided(s.encs[k]) && On(s.files[i], k)
          ==> s.files[i].nav == k && s.files[i].late)
    && (forall k :: 0 <= k < |s.encs| && s.encs[k].looked ==> s.encs[k].hung || s.encs[k].recovering)
  }

  ghost predicate Inv(s: State) {
    && Counted(s)
    && OnlyLate(s)
    && forall i :: 0 <= i < |s.files| ==> s.files[i].nav < |s.encs| && s.files[i].av < |s.encs|
  }

  ghost predicate Init(s: State) {
    && s.files == [] && !s.fault
    && forall e :: 0 <= e < |s.encs| ==> s.encs[e] == Renewed(s.encs[e])
  }

  lemma {:induction false} CountAdd(files: seq<File>, f: File, e: nat)
    ensures OnNode(files + [f], e) == OnNode(files, e) + if f.nav == e then 1 else 0
    ensures BoundTo(files + [f], e) == BoundTo(files, e) + if f.av == e then 1 else 0
    decreases |files|
  {
    if files != [] {
      CountAdd(files[1..], f, e);
      assert (files + [f])[1..] == files[1..] + [f];
    } else {
      assert files + [f] == [f];
    }
  }

  lemma {:induction false} CountRemove(files: seq<File>, i: nat, e: nat)
    requires i < |files|
    ensures OnNode(files, e) == OnNode(WithoutFile(files, i), e) + if files[i].nav == e then 1 else 0
    ensures BoundTo(files, e) == BoundTo(WithoutFile(files, i), e) + if files[i].av == e then 1 else 0
    decreases |files|
  {
    if i > 0 {
      CountRemove(files[1..], i - 1, e);
      assert WithoutFile(files, i)[1..] == WithoutFile(files[1..], i - 1);
    } else {
      assert WithoutFile(files, 0) == files[1..];
    }
  }

  lemma {:induction false} NoneOn(files: seq<File>, k: nat)
    ensures OnNode(files, k) + BoundTo(files, k) == 0 <==> forall i :: 0 <= i < |files| ==> !On(files[i], k)
    decreases |files|
  {
    if files != [] {
      NoneOn(files[1..], k);
      assert forall i :: 0 <= i < |files| ==> files[i] == if i == 0 then files[0] else files[1..][i - 1];
    }
  }

  lemma {:induction false} OpenCounts(s: State, balance: bool, nav: nat, t: State)
    requires Counted(s) && Next(s, balance, Open(nav), t)
    ensures Counted(t)
  {
    var f := File(nav, Choose(s.encs, nav, balance), Decided(s.encs[nav]));
    forall e: nat | e < |t.encs|
      ensures t.encs[e].ctxs == BoundTo(t.files, e) && t.encs[e].users == OnNode(t.files, e) + BoundTo(t.files, e)
    {
      CountAdd(s.files, f, e);
    }
  }

  lemma {:induction false} OpenInv(s: State, balance: bool, nav: nat, t: State)
    requires Inv(s) && Next(s, balance, Open(nav), t)
    ensures Inv(t)
  {
    OpenCounts(s, balance, nav, t);
    ChoosesTheLowestFree(s.encs, nav, balance);
  }

  lemma {:induction false} CloseCounts(s: State, balance: bool, e: Event, t: State)
    requires Counted(s) && e.Close? && Next(s, balance, e, t)
    ensures Counted(t)
  {
    forall k: nat | k < |t.encs|
      ensures t.encs[k].ctxs == BoundTo(t.files, k) && t.encs[k].users == OnNode(t.files, k) + BoundTo(t.files, k)
    {
      CountRemove(s.files, e.i, k);
    }
  }

  /** A close schedules a re-probe exactly of what it used, if that is hung and now neither has a
      file open on its node nor a context bound to it, and there is memory for the work item. */
  lemma {:induction false} RecoversOnlyTheUnused(s: State, balance: bool, e: Event, t: State, k: nat)
    requires Counted(s) && e.Close? && Next(s, balance, e, t) && k < |s.encs|
    ensures t.encs[k].looked == s.encs[k].looked && t.encs[k].hung == s.encs[k].hung
    ensures t.encs[k].recovering <==>
      || s.encs[k].recovering
      || (On(s.files[e.i], k) && s.encs[k].hung && OnNode(t.files, k) == 0 && BoundTo(t.files, k) == 0
          && if k == s.files[e.i].av then e.memAv else e.memNav)
  {
    CloseCounts(s, balance, e, t);
  }

  lemma {:induction false} FewerFiles(files: seq<File>, i: nat, j: nat)
    requires i < |files| && j < |files| - 1
    ensures WithoutFile(files, i)[j] == files[if j < i then j else j + 1]
  {
  }

  lemma {:induction false} CloseKeepsLate(s: State, balance: bool, e: Event, t: State, k: nat, j: nat)
    requires Inv(s) && e.Close? && Next(s, balance, e, t) && k < |t.encs| && j < |t.files|
    requires Decided(t.encs[k]) && On(t.files[j], k)
    ensures t.files[j].nav == k && t.files[j].late
  {
    RecoversOnlyTheUnused(s, balance, e, t, k);
    NoneOn(t.files, k);
    FewerFiles(s.files, e.i, j);
    assert Decided(s.encs[k]);
  }

  lemma {:induction false} CloseInv(s: State, balance: bool, e: Event, t: State)
    requires Inv(s) && e.Close? && Next(s, balance, e, t)
    ensures Inv(t)
  {
    CloseCounts(s, balance, e, t);
    forall k, j | 0 <= k < |t.encs| && 0 <= j < |t.files| && Decided(t.encs[k]) && On(t.files[j], k)
      ensures t.files[j].nav == k && t.files[j].late
    {
      CloseKeepsLate(s, balance, e, t, k, j);
    }
    forall k | 0 <= k < |t.encs| && t.encs[k].looked ensures t.encs[k].hung || t.encs[k].recovering {
      RecoversOnlyTheUnused(s, balance, e, t, k);
    }
    forall j | 0 <= j < |t.files| ensures t.files[j].nav < |t.encs| && t.files[j].av < |t.encs| {
      FewerFiles(s.files, e.i, j);
    }
  }

  /** The look comes out only with nobody there. */
  lemma {:induction false} LookInv(s: State, balance: bool, k: nat, t: State)
    requires Inv(s) && Next(s, balance, Look(k), t)
    ensures Inv(t)
  {
    NoneOn(s.files, k);
  }

  lemma {:induction false} ReprobeInv(s: State, balance: bool, k: nat, t: State)
    requires Inv(s) && Next(s, balance, Reprobe(k), t)
    ensures !t.fault ==> Inv(t)
  {
    NoneOn(s.files, k);
  }

  lemma {:induction false} StepInv(s: State, balance: bool, e: Event, t: State)
    requires Inv(s) && Next(s, balance, e, t)
    ensures |t.encs| == |s.encs| && (!t.fault ==> Inv(t)) && (t.fault ==> e.Reprobe?)
  {
    match e
    case Open(nav) => OpenInv(s, balance, nav, t);
    case Close(_, _, _) => CloseInv(s, balance, e, t);
    case Look(k) => LookInv(s, balance, k, t);
    case Reprobe(k) => ReprobeInv(s, balance, k, t);
    case _ =>
  }

  ghost predicate IsRun(tr: seq<State>, balance: bool, es: seq<Event>) {
    && |tr| == |es| + 1 && Init(tr[0])
    && forall i :: 0 <= i < |es| ==> Next(tr[i], balance, es[i], tr[i + 1])
  }

  lemma {:induction false} RunInv(tr: seq<State>, balance: bool, es: seq<Event>)
    requires IsRun(tr, balance, es)
    ensures |tr[|es|].encs| == |tr[0].encs| && (!tr[|es|].fault ==> Inv(tr[|es|]))
    decreases |es|
  {
    if |es| > 0 {
      var m := |es| - 1;
      RunInv(tr[..|es|], balance, es[..m]);
      assert tr[..|es|][m] == tr[m];
      assert Next(tr[m], balance, es[m], tr[m + 1]);
      StepInv(tr[m], balance, es[m], tr[m + 1]);
    }
  }

  /** In every run of opens and closes, hangs, sleeps and re-probes, as long as no re-probe came
      under an open file: an encoder's contexts are the files bound to it, its users those and the
      files on its node, and any open file can be closed. */
  lemma {:induction false} UsersAreCounted(tr: seq<State>, balance: bool, es: seq<Event>, i: nat)
    requires IsRun(tr, balance, es)
    ensures
      var s := tr[|es|];
      !s.fault ==> Counted(s) && (i < |s.files| ==> CanUnbind(s.encs, s.files[i].nav, s.files[i].av))
  {
    RunInv(tr, balance, es);
    var s := tr[|es|];
    if !s.fault && i < |s.files| {
      CountRemove(s.files, i, s.files[i].av);
      CountRemove(s.files, i, s.files[i].nav);
    }
  }

  /** Only a re-probe pulls something from under an open file, and it does so exactly if a file
      opened on that very node after the re-probe was decided on is still open then. A file of
      another node is never among them. */
  lemma {:induction false} ReprobedUnderAFileExactly(tr: seq<State>, balance: bool, es: seq<Event>, k: nat)
    requires IsRun(tr, balance, es) && |es| > 0
    ensures tr[|es|].fault ==> es[|es| - 1].Reprobe?
    ensures es[|es| - 1] == Reprobe(k) ==>
      var s := tr[|es| - 1];
      && (tr[|es|].fault <==> exists i :: 0 <= i < |s.files| && s.files[i].nav == k && s.files[i].late)
      && (forall i :: 0 <= i < |s.files| && On(s.files[i], k) ==> s.files[i].nav == k)
  {
    var m := |es| - 1;
    RunInv(tr[..|es|], balance, es[..m]);
    assert tr[..|es|][m] == tr[m];
    assert Next(tr[m], balance, es[m], tr[m + 1]);
    if es[m] == Reprobe(k) {
      NoneOn(tr[m].files, k);
      assert tr[m].fault == false;
      forall i | 0 <= i < |tr[m].files| && tr[m].files[i].nav == k ensures On(tr[m].files[i], k) {
      }
    }
  }

  /** An encoder nobody uses and that hangs comes back: a sleep path's look, the scheduling and the
      work item leave it renewed, without taking anything from anybody, and an open finds it idle. */
  lemma {:induction false} IdleOneComesBack(s: State, balance: bool, k: nat) returns (t: State, u: State, v: State)
    requires Inv(s) && !s.fault && k < |s.encs| && s.encs[k].hung && !s.encs[k].looked
    requires OnNode(s.files, k) == 0 && BoundTo(s.files, k) == 0
    ensures Next(s, balance, Look(k), t) && Next(t, balance, LookEnds(k, true), u) && Next(u, balance, Reprobe(k), v)
    ensures !v.fault && v.files == s.files && v.encs == s.encs[k := v.encs[k]]
    ensures Idle(v.encs[k]) && !v.encs[k].looked && v.encs[k].users == 0
    ensures v.encs[k].kind == s.encs[k].kind && v.encs[k].inst == s.encs[k].inst
  {
    var e := s.encs[k];
    assert e.users == 0;
    t := s.(encs := s.encs[k := e.(looked := true)]);
    u := t.(encs := t.encs[k := e.(recovering := true, looked := false)]);
    v := u.(encs := u.encs[k := Renewed(e)]);
  }

  /** And one whose last user goes while it hangs, by that close and the work item. */
  lemma {:induction false} ClosedOneComesBack(s: State, balance: bool, e: Event, t: State, k: nat) returns (u: State)
    requires Inv(s) && e.Close? && Next(s, balance, e, t) && k < |s.encs| && s.encs[k].hung && !s.encs[k].looked
    requires e.memAv && e.memNav && On(s.files[e.i], k) && OnNode(t.files, k) == 0 && BoundTo(t.files, k) == 0
    ensures Next(t, balance, Reprobe(k), u) && !u.fault && u.files == t.files && u.encs == t.encs[k := u.encs[k]]
    ensures Idle(u.encs[k]) && u.encs[k].users == 0 && u.encs[k].kind == s.encs[k].kind
  {
    RecoversOnlyTheUnused(s, balance, e, t, k);
    CloseCounts(s, balance, e, t);
    u := t.(encs := t.encs[k := Renewed(t.encs[k])]);
  }

  // ---- a file opened too late ---------------------------------------------------------

  /** The only encoder there is. */
  function Alone(users: nat, hung: bool, recovering: bool, looked: bool): Encoder {
    Encoder(Kind(0, NoName, false, false, false), 0, users / 2, users, hung, recovering, looked)
  }

  lemma {:induction false} OpensAlone(s: State, e: Encoder, f: File)
    requires s == State([e], [], false) && f == File(0, 0, Decided(e))
    ensures Next(s, true, Open(0), State([e.(ctxs := e.ctxs + 1, users := e.users + 2)], [f], false))
  {
    ChoosesTheLowestFree(s.encs, 0, true);
    assert Bound(s.encs, 0, 0) == [e.(ctxs := e.ctxs + 1, users := e.users + 2)];
    assert s.files + [f] == [f];
  }

  lemma {:induction false} ClosesAlone(s: State, f: File)
    requires s == State([Alone(2, true, false, false)], [f], false) && f.nav == f.av == 0
    ensures Next(s, true, Close(0, true, true), State([Alone(0, true, true, false)], [], false))
  {
    assert WithoutFile([f], 0) == [];
  }

  lemma {:induction false} ReprobesAlone(e: Encoder, f: File)
    requires e.recovering && !e.looked && e.users > 0
    ensures Next(State([e], [f], false), true, Reprobe(0), State([Renewed(e)], [f], true))
  {
    assert [e][0 := Renewed(e)] == [Renewed(e)];
  }

  lemma {:induction false} HangsAlone(e: Encoder, files: seq<File>)
    ensures Next(State([e], files, false), true, Hang(0), State([e.(hung := true)], files, false))
  {
    assert [e][0 := e.(hung := true)] == [e.(hung := true)];
  }

  /** One encoder: its only file is closed after a hang, and the node is opened again before the
      work item runs. */
  lemma {:induction false} ReopenedBeforeTheWork() returns (tr: seq<State>, es: seq<Event>)
    ensures IsRun(tr, true, es) && tr[|es|].fault
    ensures es == [Open(0), Hang(0), Close(0, true, true), Open(0), Reprobe(0)]
  {
    var f, late := File(0, 0, false), File(0, 0, true);
    es := [Open(0), Hang(0), Close(0, true, true), Open(0), Reprobe(0)];
    var s0, s1 := State([Alone(0, false, false, false)], [], false), State([Alone(2, false, false, false)], [f], false);
    var s2, s3 := State([Alone(2, true, false, false)], [f], false), State([Alone(0, true, true, false)], [], false);
    var s4 := State([Alone(2, true, true, false)], [late], false);
    OpensAlone(s0, s0.encs[0], f);
    HangsAlone(s1.encs[0], [f]);
    ClosesAlone(s2, f);
    OpensAlone(s3, s3.encs[0], late);
    var s5 := State([Alone(0, false, false, false)], [late], true);
    ReprobesAlone(s4.encs[0], late);
    tr := [s0, s1, s2, s3, s4, s5];
    SixStates(tr, es);
  }

  /** And a sleep path that looks, and schedules after the open it has not seen. */
  lemma {:induction false} OpenedAfterTheLook() returns (tr: seq<State>, es: seq<Event>)
    ensures IsRun(tr, true, es) && tr[|es|].fault
    ensures es == [Hang(0), Look(0), Open(0), LookEnds(0, true), Reprobe(0)]
  {
    var late := File(0, 0, true);
    es := [Hang(0), Look(0), Open(0), LookEnds(0, true), Reprobe(0)];
    var s0, s1 := State([Alone(0, false, false, false)], [], false), State([Alone(0, true, false, false)], [], false);
    var s2, s3 := State([Alone(0, true, false, true)], [], false), State([Alone(2, true, false, true)], [late], false);
    var s4 := State([Alone(2, true, true, false)], [late], false);
    HangsAlone(s0.encs[0], []);
    assert Next(s1, true, Look(0), s2);
    OpensAlone(s2, s2.encs[0], late);
    assert Next(s3, true, LookEnds(0, true), s4);
    var s5 := State([Alone(0, false, false, false)], [late], true);
    ReprobesAlone(s4.encs[0], late);
    tr := [s0, s1, s2, s3, s4, s5];
    SixStates(tr, es);
  }

  lemma {:induction false} SixStates(tr: seq<State>, es: seq<Event>)
    requires |tr| == 6 && |es| == 5 && Init(tr[0])
    requires Next(tr[0], true, es[0], tr[1]) && Next(tr[1], true, es[1], tr[2]) && Next(tr[2], true, es[2], tr[3])
    requires Next(tr[3], true, es[3], tr[4]) && Next(tr[4], true, es[4], tr[5])
    ensures IsRun(tr, true, es)
  {
    forall i | 0 <= i < |es| ensures Next(tr[i], true, es[i], tr[i + 1]) {
      assert i == 0 || i == 1 || i == 2 || i == 3 || i == 4;
    }
  }

  // ---- enough encoders for everybody --------------------------------------------------

  /** All the same kind and none hung. */
  ghost predicate Interchangeable(s: State) {
    && (forall i, j :: 0 <= i < |s.encs| && 0 <= j < |s.encs| ==> Compatible(s.encs[i].kind, s.encs[j].kind))
    && (forall i :: 0 <= i < |s.encs| ==> !s.encs[i].hung && !Decided(s.encs[i]))
  }

  ghost predicate NobodyShares(s: State) {
    forall i, j :: 0 <= i < j < |s.files| ==> s.files[i].av != s.files[j].av
  }

  ghost function UpTo(n: nat): (r: set<nat>)
    ensures |r| == n && forall x: nat :: x in r <==> x < n
  {
    if n == 0 then {} else UpTo(n - 1) + {n - 1}
  }

  ghost function Taken(files: seq<File>): set<nat> {
    set f | f in files :: f.av
  }

  lemma {:induction false} TakenSize(files: seq<File>)
    ensures |Taken(files)| <= |files|
    decreases |files|
  {
    if files != [] {
      TakenSize(files[1..]);
      assert Taken(files) == Taken(files[1..]) + {files[0].av};
    } else {
      assert Taken(files) == {};
    }
  }

  lemma {:induction false} NotTaken(files: seq<File>, e: nat)
    ensures BoundTo(files, e) == 0 <==> e !in Taken(files)
    decreases |files|
  {
    if files != [] {
      NotTaken(files[1..], e);
      assert Taken(files) == Taken(files[1..]) + {files[0].av};
    }
  }

  /** With fewer files than encoders, one has no context. */
  lemma {:induction false} SomeFree(s: State) returns (e: nat)
    requires Inv(s) && |s.files| < |s.encs|
    ensures e < |s.encs| && s.encs[e].ctxs == 0
  {
    TakenSize(s.files);
    if UpTo(|s.encs|) <= Taken(s.files) {
      Smaller(UpTo(|s.encs|), Taken(s.files));
      assert false;
    }
    e :| e in UpTo(|s.encs|) && e !in Taken(s.files);
    NotTaken(s.files, e);
  }

  lemma {:induction false} Smaller(a: set<nat>, b: set<nat>)
    requires a <= b
    ensures |a| <= |b|
  {
    assert b == a + (b - a);
  }

  lemma {:induction false} OpenFindsAFreeOne(s: State, nav: nat, t: State)
    requires Inv(s) && Interchangeable(s) && NobodyShares(s) && |s.files| < |s.encs|
    requires Next(s, true, Open(nav), t)
    ensures NobodyShares(t) && Interchangeable(t)
  {
    var av := Choose(s.encs, nav, true);
    ChoosesAFreeOne(s, nav);
    NotTaken(s.files, av);
    forall i | 0 <= i < |s.files| ensures s.files[i].av != av {
      assert s.files[i].av in Taken(s.files);
    }
  }

  lemma {:induction false} ChoosesAFreeOne(s: State, nav: nat)
    requires Inv(s) && Interchangeable(s) && |s.files| < |s.encs| && nav < |s.encs|
    ensures s.encs[Choose(s.encs, nav, true)].ctxs == 0
  {
    var e := SomeFree(s);
    ChoosesTheLowestFree(s.encs, nav, true);
    assert Compatible(s.encs[nav].kind, s.encs[e].kind);
    assert !Idle(s.encs[nav]) ==> StandsIn(s.encs, nav, e);
  }

  /** n interchangeable encoders, open_balance, and never more than n files open: no two contexts
      ever share one. */
  lemma {:induction false} EnoughForEverybody(tr: seq<State>, es: seq<Event>)
    requires IsRun(tr, true, es) && Interchangeable(tr[0])
    requires forall i :: 0 <= i < |es| ==> !es[i].Hang?
    requires forall i :: 0 <= i <= |es| ==> |tr[i].files| <= |tr[0].encs|
    ensures NobodyShares(tr[|es|]) && Interchangeable(tr[|es|])
    decreases |es|
  {
    if |es| > 0 {
      var m := |es| - 1;
      EnoughForEverybody(tr[..|es|], es[..m]);
      assert tr[..|es|][m] == tr[m] && tr[..|es|][0] == tr[0];
      RunInv(tr[..|es|], true, es[..m]);
      assert Next(tr[m], true, es[m], tr[m + 1]);
      match es[m]
      case Open(nav) => OpenFindsAFreeOne(tr[m], nav, tr[m + 1]);
      case Close(_, _, _) => CloseKeepsApart(tr[m], es[m], tr[m + 1]);
      case _ =>
    }
  }

  lemma {:induction false} CloseKeepsApart(s: State, e: Event, t: State)
    requires NobodyShares(s) && Interchangeable(s) && e.Close? && Next(s, true, e, t)
    ensures NobodyShares(t) && Interchangeable(t)
  {
    FewerApart(s.files, e.i);
    CloseHangsNone(s, e, t);
  }

  lemma {:induction false} FewerApart(files: seq<File>, i: nat)
    requires i < |files| && forall j, k :: 0 <= j < k < |files| ==> files[j].av != files[k].av
    ensures
      var fewer := WithoutFile(files, i);
      forall j, k :: 0 <= j < k < |fewer| ==> fewer[j].av != fewer[k].av
  {
    var fewer := WithoutFile(files, i);
    forall j, k | 0 <= j < k < |fewer| ensures fewer[j].av != fewer[k].av {
      FewerFiles(files, i, j);
      FewerFiles(files, i, k);
    }
  }

  lemma {:induction false} CloseHangsNone(s: State, e: Event, t: State)
    requires Interchangeable(s) && e.Close? && Next(s, true, e, t)
    ensures Interchangeable(t)
  {
    assert forall i :: 0 <= i < |t.encs| ==> t.encs[i].kind == s.encs[i].kind;
  }

  // ---- as the driver does it ----------------------------------------------------------

  /** The list of registered encoders, under the list lock. */
  class Registry {
    const encs: array<Encoder>
    const openBalance: bool

    constructor (encs: array<Encoder>, openBalance: bool)
      ensures this.encs == encs && this.openBalance == openBalance
    {
      this.encs, this.openBalance := encs, openBalance;
    }

    method Bind(nav: nat) returns (av: nat)
      requires nav < encs.Length
      modifies encs
      ensures av == Choose(old(encs[..]), nav, openBalance)
      ensures encs[..] == Bound(old(encs[..]), nav, av)
    {
      av := nav;
      if openBalance && !Free(encs[nav]) {
        for i := 0 to encs.Length
          invariant encs[..] == old(encs[..])
          invariant av < encs.Length && av == Best(encs[..], nav, i)
        {
          if i == nav || !Free(encs[i]) || !Compatible(encs[nav].kind, encs[i].kind) {
            continue;
          }
          if av == nav || encs[i].inst < encs[av].inst {
            av := i;
          }
        }
      }
      encs[av] := encs[av].(ctxs := encs[av].ctxs + 1);
      encs[av] := encs[av].(users := encs[av].users + 1);
      encs[nav] := encs[nav].(users := encs[nav].users + 1);
    }

    /** The work item, unless it is on its way already. */
    method ScheduleRecover(k: nat, mem: bool)
      requires k < encs.Length
      modifies encs
      ensures encs[..] == old(encs[..])[k := Schedule(old(encs[k]), mem)]
    {
      if encs[k].recovering || !mem {
        return;
      }
      encs[k] := encs[k].(recovering := true);
    }

    /** The counts of a close. */
    method Uncount(nav: nat, av: nat)
      requires CanUnbind(encs[..], nav, av)
      modifies encs
      ensures
        var t := old(encs[..])[av := old(encs[av]).(ctxs := old(encs[av]).ctxs - 1, users := old(encs[av]).users - 1)];
        encs[..] == t[nav := t[nav].(users := t[nav].users - 1)]
    {
      encs[av] := encs[av].(ctxs := encs[av].ctxs - 1);
      encs[av] := encs[av].(users := encs[av].users - 1);
      encs[nav] := encs[nav].(users := encs[nav].users - 1);
    }

    method RecoverUnused(k: nat, mem: bool)
      requires k < encs.Length
      modifies encs
      ensures encs[..] == old(encs[..])[k := Recover(old(encs[k]), mem)]
    {
      if encs[k].users == 0 && encs[k].hung {
        ScheduleRecover(k, mem);
      }
    }

    method Unbind(nav: nat, av: nat, memAv: bool, memNav: bool)
      requires CanUnbind(encs[..], nav, av)
      modifies encs
      ensures encs[..] == Unbound(old(encs[..]), nav, av, memAv, memNav)
    {
      Uncount(nav, av);
      RecoverUnused(av, memAv);
      if nav != av {
        RecoverUnused(nav, memNav);
      }
    }
  }
}
