/** Who owns an encoder's one firmware session (ave_v4l2.c): start, stop and release of any
    contexts, and a system suspend that ends the running one. What the code does outside the hw
    mutex is a step of its own. */
module Session {
  import opened Basics

  /** sessions: the contexts with ctx->session set. client: whose client the firmware has open.
      ending: contexts whose ave_end_session has seen the flag and not taken the mutex yet. */
  datatype State = State(owner: Option<nat>, sessions: set<nat>, client: Option<nat>, ending: set<nat>,
                         awake: bool, hung: bool)

  datatype Event =
    | Start(c: nat, ok: bool, leaves: bool)   // STREAMON on the second queue; leaves: a failed start that leaves its client open
    | EndCheck(c: nat)                        // STREAMOFF or release: ctx->session, no lock held
    | EndLocked(c: nat, ok: bool)             // the rest of ave_end_session, under the mutex
    | Suspend(ok: bool)                       // ave_v4l2_pm_quiesce, and the core is taken down
    | Abort(ok: bool, closes: bool, hangs: bool) // or it is not: the sleep is refused
    | Resume(boot: Boot)
    | Hang

  /** How a resume boot ends: up, given up before the core ran, or after. */
  datatype Boot = Booted | Dead | Stuck

  /** ave_enc_start */
  predicate CanOpen(s: State) {
    s.awake && !s.hung && s.client.None?
  }

  function Started(s: State, c: nat, ok: bool, leaves: bool): State {
    if c in s.sessions then s                                     // the flag is looked at first
    else if s.owner.Some? && s.owner.value != c then s            // -EBUSY
    else if !CanOpen(s) then s
    else if !ok then (if leaves then s.(client := Some(c)) else s)
    else s.(owner := Some(c), sessions := s.sessions + {c}, client := Some(c))
  }

  /** ave_enc_stop: Stop and Close of whatever client is open. */
  function Stopped(s: State, ok: bool): State {
    if s.client.Some? && !s.hung && ok then s.(client := None) else s
  }

  function Ended(s: State, c: nat, ok: bool): State {
    var t := Stopped(s, ok);
    t.(owner := if t.owner == Some(c) then None else t.owner, sessions := t.sessions - {c}, ending := t.ending - {c})
  }

  /** The running session is ended. */
  function Quiesced(s: State, ok: bool): State {
    if s.owner.None? then s
    else
      var t := Stopped(s, ok);
      t.(sessions := t.sessions - {s.owner.value}, owner := None)
  }

  /** ave_pm_forget_core: with the firmware stopped nothing of it is left. */
  function Forgotten(s: State): State {
    s.(client := None, hung := false)
  }

  /** The core could not be stopped; closes: it did give the client back. */
  function Aborted(s: State, ok: bool, closes: bool, hangs: bool): State {
    var t := Quiesced(s, ok);
    t.(client := if closes && !t.hung then None else t.client, hung := t.hung || hangs)
  }

  function Resumed(s: State, b: Boot): State {
    if s.awake then s else Forgotten(s).(awake := !b.Dead?, hung := !b.Booted?)
  }

  function Step(s: State, e: Event): State {
    match e
    case Start(c, ok, leaves) => Started(s, c, ok, leaves)
    case EndCheck(c) => if c in s.sessions then s.(ending := s.ending + {c}) else s
    case EndLocked(c, ok) => if c in s.ending then Ended(s, c, ok) else s
    case Suspend(ok) => Forgotten(Quiesced(s, ok)).(awake := false)
    case Abort(ok, closes, hangs) => Aborted(s, ok, closes, hangs)
    case Resume(b) => Resumed(s, b)
    case Hang => s.(hung := true)
  }

  function Fresh(): State {
    State(None, {}, None, {}, true, false)
  }

  function Run(es: seq<Event>): State {
    if es == [] then Fresh() else Step(Run(es[..|es| - 1]), es[|es| - 1])
  }

  /** A context has a session exactly when it is the owner, and nobody has one during a sleep. */
  predicate Inv(s: State) {
    s.sessions == (if s.owner.Some? then {s.owner.value} else {}) && (s.owner.Some? ==> s.awake)
  }

  lemma {:induction false} StepInv(s: State, e: Event)
    requires Inv(s)
    ensures Inv(Step(s, e))
  {
  }

  /** In every run: session and ownership are the same thing, so at most one context of an
      encoder has a session. */
  lemma {:induction false} SessionIsOwnership(es: seq<Event>, c: nat, d: nat)
    ensures c in Run(es).sessions <==> Run(es).owner == Some(c)
    ensures c in Run(es).sessions && d in Run(es).sessions ==> c == d
  {
    RunInv(es);
  }

  lemma {:induction false} RunInv(es: seq<Event>)
    ensures Inv(Run(es))
  {
    if es != [] {
      RunInv(es[..|es| - 1]);
      StepInv(Run(es[..|es| - 1]), es[|es| - 1]);
    }
  }

  // ---- does the owner's session exist in the firmware? --------------------------------

  /** The owner's client is the one the firmware has open. */
  predicate Served(s: State) {
    s.owner.Some? ==> s.client == s.owner
  }

  /** The locked half of ave_end_session about to run for a context that is not the owner any
      more, while another one is: it does not look again. */
  predicate Stale(s: State, e: Event) {
    e.EndLocked? && e.c in s.ending && s.owner.Some? && s.owner != Some(e.c)
  }

  /** A boot gives everybody a clean start: after a sleep a stream can be started again exactly if the
      resume boot got through, whatever was left open or hung before. */
  lemma {:induction false} ResumeStartsAfresh(es: seq<Event>, ok: bool, b: Boot, c: nat)
    ensures
      var s := Run(es);
      Started(Step(Step(s, Suspend(ok)), Resume(b)), c, true, false).owner == Some(c) <==> b == Booted
  {
    RunInv(es);
  }

  /** The owner keeps its firmware session through every step but one kind: a stale end whose
      Stop and Close get through close the owner's client under it. */
  lemma {:induction false} ServedExactly(s: State, e: Event)
    requires Inv(s) && Served(s)
    ensures Served(Step(s, e)) <==> !(Stale(s, e) && e.ok && !s.hung)
  {
  }

  /** No sleep is tried. */
  ghost predicate NoSuspend(es: seq<Event>) {
    forall i :: 0 <= i < |es| ==> !es[i].Suspend? && !es[i].Abort?
  }

  /** Without a suspend only the owner itself can end its session, so no end is ever stale and
      every owner is served. */
  lemma {:induction false} ServedWithoutSuspend(es: seq<Event>)
    requires NoSuspend(es)
    ensures Served(Run(es))
    ensures Run(es).awake && forall c :: c in Run(es).ending ==> Run(es).owner == Some(c)
  {
    if es != [] {
      var m := |es| - 1;
      ServedWithoutSuspend(es[..m]);
      RunInv(es[..m]);
      assert !es[m].Suspend? && !es[m].Abort?;
      ServedExactly(Run(es[..m]), es[m]);
    }
  }

  /** A run goes on with e. */
  lemma {:induction false} GoOn(es: seq<Event>, e: Event) returns (fs: seq<Event>)
    ensures Run(fs) == Step(Run(es), e)
  {
    fs := es + [e];
    assert fs[..|fs| - 1] == es;
  }

  /** The run that makes it stale: 1 is about to end its session, a suspend ends it first, 2 starts
      one after the resume, and then 1 goes on. */
  lemma {:induction false} StaleEnd() returns (es: seq<Event>)
    ensures Run(es).owner == Some(2) && 2 in Run(es).sessions && Run(es).client == None
    ensures !Served(Run(es))
  {
    es := [];
    es := GoOn(es, Start(1, true, false));
    assert Run(es) == State(Some(1), {1}, Some(1), {}, true, false);
    es := GoOn(es, EndCheck(1));
    assert Run(es) == State(Some(1), {1}, Some(1), {1}, true, false);
    es := GoOn(es, Suspend(true));
    assert Run(es) == State(None, {}, None, {1}, false, false);
    es := GoOn(es, Resume(Booted));
    es := GoOn(es, Start(2, true, false));
    assert Run(es) == State(Some(2), {2}, Some(2), {1}, true, false);
    es := GoOn(es, EndLocked(1, true));
  }

  // ---- starting, ending, starting again -----------------------------------------------

  /** Nobody else owns the encoder, and the firmware is up, trusted and has no client. */
  predicate CanStart(s: State) {
    s.owner.None? && s.awake && !s.hung && s.client.None?
  }

  /** A context owns the encoder after its STREAMON exactly if it did before, or nobody did, the
      firmware could take a client and took it. A start that fails changes the client at most. */
  lemma {:induction false} StartsExactly(s: State, c: nat, ok: bool, leaves: bool)
    requires Inv(s)
    ensures
      var t := Step(s, Start(c, ok, leaves));
      && (t.owner == Some(c) <==> s.owner == Some(c) || (CanStart(s) && ok))
      && t == (if CanStart(s) && ok then s.(owner := Some(c), sessions := {c}, client := Some(c))
               else if CanStart(s) && leaves then s.(client := Some(c)) else s)
  {
  }

  /** The owner's ordinary end: nobody owns the encoder after it, and its client is closed exactly
      if Stop and Close got through to a firmware that is not given up on. */
  lemma {:induction false} EndsExactly(s: State, c: nat, ok: bool)
    requires Inv(s) && Served(s) && s.owner == Some(c)
    ensures
      Step(Step(s, EndCheck(c)), EndLocked(c, ok))
      == s.(owner := None, sessions := {}, ending := s.ending - {c}, client := if ok && !s.hung then None else s.client)
  {
    assert c in s.sessions && (s.ending + {c}) - {c} == s.ending - {c};
  }

  /** So anybody can start after it, exactly then, and no sleep is needed. */
  lemma {:induction false} StartsAfterEnd(s: State, c: nat, ok: bool, d: nat)
    requires Inv(s) && Served(s) && s.owner == Some(c)
    ensures
      Step(Step(Step(s, EndCheck(c)), EndLocked(c, ok)), Start(d, true, false)).owner == Some(d) <==> ok && !s.hung
  {
    EndsExactly(s, c, ok);
    StartsExactly(Step(Step(s, EndCheck(c)), EndLocked(c, ok)), d, true, false);
  }

  /** A sleep ends the running session and forgets the firmware; one that is refused ends it too,
      and keeps a client exactly if it could not be given back. */
  lemma {:induction false} SleepsEnd(s: State, ok: bool, closes: bool, hangs: bool)
    requires Inv(s)
    ensures Step(s, Suspend(ok)) == State(None, {}, None, s.ending, false, false)
    ensures
      var t := Step(s, Abort(ok, closes, hangs));
      && t.owner.None? && t.sessions == {} && t.awake == s.awake && t.hung == (s.hung || hangs)
      && t.client == if !s.hung && (closes || (ok && s.owner.Some?)) then None else s.client
  {
  }

  // ---- as the driver does it ----------------------------------------------------------

  /** struct ave_v4l2 and the flags of its contexts. */
  class Encoder {
    var owner: Option<nat>
    var sessions: set<nat>
    var client: Option<nat>
    ghost var ending: set<nat>
    var awake: bool
    var hung: bool

    ghost function View(): State
      reads this
    {
      State(owner, sessions, client, ending, awake, hung)
    }

    constructor ()
      ensures View() == Fresh()
    {
      owner, sessions, client, ending, awake, hung := None, {}, None, {}, true, false;
    }

    /** ave_enc_stop, with the firmware's answer. */
    method Stop(ok: bool)
      modifies this`client
      ensures View() == Stopped(old(View()), ok)
    {
      if client.None? || hung || !ok {
        return;
      }
      client := None;
    }

    /** ave_start_streaming on the second queue. */
    method StartStreaming(c: nat, ok: bool, leaves: bool) returns (err: bool)
      modifies this
      ensures View() == Started(old(View()), c, ok, leaves)
      ensures !err <==> c in sessions
    {
      if c in sessions {
        return false;
      }
      if owner.Some? && owner.value != c {
        return true;
      }
      if !awake || hung || client.Some? {
        return true;
      }
      if !ok {
        if leaves {
          client := Some(c);
        }
        return true;
      }
      client := Some(c);
      owner := Some(c);
      sessions := sessions + {c};
      return false;
    }

    /** The look ave_end_session takes without the mutex. */
    method LooksOpen(c: nat) returns (open: bool)
      modifies this`ending
      ensures View() == Step(old(View()), EndCheck(c)) && open == (c in sessions)
    {
      open := c in sessions;
      if open {
        ending := ending + {c};
      }
    }

    /** The rest of it, under the mutex. */
    method EndUnderLock(c: nat, ok: bool)
      modifies this
      ensures View() == Ended(old(View()), c, ok)
    {
      Stop(ok);
      if owner == Some(c) {
        owner := None;
      }
      sessions := sessions - {c};
      ending := ending - {c};
    }

    /** ave_end_session with nobody in between. */
    method EndSession(c: nat, ok: bool)
      requires c !in ending
      modifies this
      ensures View() == Step(Step(old(View()), EndCheck(c)), EndLocked(c, ok))
      ensures c !in sessions
    {
      var open := LooksOpen(c);
      if open {
        EndUnderLock(c, ok);
      }
    }

    /** ave_v4l2_pm_quiesce */
    method Quiesce(ok: bool)
      modifies this
      ensures View() == Quiesced(old(View()), ok)
    {
      if owner.Some? {
        Stop(ok);
        sessions := sessions - {owner.value};
        owner := None;
      }
    }
  }
}
