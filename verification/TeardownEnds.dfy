/** What the teardown of ave_drv.c achieves: when a core comes down, when a sleep goes on, what is
    left of a refused one, and when remove() lets go, all by the state before and by what the
    firmware and the bus answer. */
module TeardownEnds {
  import opened Teardown

  /** The Halt is turned on and can get to the firmware. */
  predicate HaltSent(s: Dev) {
    s.conf.fwHalt && s.fw.running && s.fw.mcpu
  }

  /** Stop and Close, and then a Halt, can be sent, get through, and stop the core. */
  predicate HaltsWhenAsked(s: Dev, client: bool, a: Answers) {
    && s.fw.running && s.fw.mcpu && !s.fw.hung && (client ==> a.closes)
    && s.conf.fwHalt && a.haltStops
  }

  predicate ResetStops(s: Dev, a: Answers) {
    s.conf.hungReset && a.pulseOk && a.pulseStops
  }

  predicate ComesDown(s: Dev, client: bool, a: Answers) {
    !s.hw.executing || HaltsWhenAsked(s, client, a) || ResetStops(s, a)
  }

  /** Nothing runs, nothing is mapped, the domains are gated, and nothing went wrong. */
  const OFF := Hw(false, false, true, false)

  /** What the driver knows of a firmware that is gone. */
  const GONE := Fw(false, false, false, false, false)

  /** s with another client and another state of the core. */
  function With(s: Dev, client: bool, executing: bool): Dev {
    s.(fw := s.fw.(client := client), hw := s.hw.(executing := executing))
  }

  /** Stop and Close do not get through, or are not sent. */
  predicate ClientStays(s: Dev, client: bool, a: Answers) {
    client && (s.fw.hung || !s.fw.running || !a.closes)
  }

  lemma {:induction false} TouchIsHarmless(h: Hw)
    requires !h.gated
    ensures h.Touch() == h
  {
  }

  lemma {:induction false} Closes(s: Dev, a: Answers)
    requires Sound(s) && s.powered
    ensures
      CloseClient(s, a)
      == (With(s, s.fw.client && !(s.fw.running && a.closes), s.hw.executing), s.fw.client ==> s.fw.running && a.closes)
  {
    TouchIsHarmless(s.hw);
  }

  lemma {:induction false} Halts(s: Dev, a: Answers)
    requires Sound(s) && s.powered
    ensures
      Halt(s, a)
      == (With(s, s.fw.client, s.hw.executing && !(HaltSent(s) && a.haltStops)), s.conf.fwHalt ==> HaltSent(s) && a.haltOk)
  {
    TouchIsHarmless(s.hw);
  }

  lemma {:induction false} HaltsIfIdle(s: Dev, a: Answers)
    requires Sound(s) && s.powered
    ensures
      HaltIfIdle(s, a)
      == With(s, s.fw.client, s.hw.executing && !(!s.fw.client && !s.fw.hung && HaltSent(s) && a.haltStops))
  {
    Halts(s, a);
  }

  lemma {:induction false} Asked(s: Dev, a: Answers)
    requires Sound(s) && s.powered
    ensures AskToStop(s, a) == With(s, ClientStays(s, s.fw.client, a), s.hw.executing && !HaltsWhenAsked(s, s.fw.client, a))
  {
    Closes(s, a);
    var s1 := With(s, ClientStays(s, s.fw.client, a), s.hw.executing);
    HaltsIfIdle(s1, a);
    TouchIsHarmless(s1.hw);
  }

  /** s off and forgotten. */
  function Down(s: Dev): Dev {
    s.(powered := false, irqOn := false, smmu := false, holder := Released, fw := GONE, hw := OFF)
  }

  lemma {:induction false} Quieted(s: Dev)
    requires !s.hw.gated
    ensures SmmuQuiesced(s) == s.(smmu := false)
  {
    TouchIsHarmless(s.hw);
  }

  lemma {:induction false} TakesDown(s: Dev)
    requires Sound(s) && s.powered && !s.hw.executing
    ensures TakeDown(s) == Down(s)
  {
    Quieted(s.(irqOn := false));
    var t := Forget(ReleaseAll(s));
    assert t == s.(irqOn := false, smmu := false, fw := GONE, hw := Hw(false, false, false, false));
    Quieted(t);
    TouchIsHarmless(t.hw);
  }

  lemma {:induction false} Pulses(s: Dev, a: Answers)
    requires Sound(s) && s.powered
    ensures Pulse(s, a) == (With(s, s.fw.client, s.hw.executing && !a.pulseStops), a.pulseOk)
  {
    TouchIsHarmless(s.hw);
  }

  /** What the suspend path makes of u. */
  function Quiesced(u: Dev, a: Answers): (Dev, Outcome) {
    if ComesDown(u, u.fw.client, a) then (Down(u), Stopped)
    else (With(u, ClientStays(u, u.fw.client, a), !(u.conf.hungReset && a.pulseStops)), Failed(true))
  }

  /** The suspend path takes a core down exactly if it is not executing any more after having been
      asked to stop, or the reset may be pulsed, was, and stopped it; then nothing is left on. If
      not, the client may be gone, and the core stopped by a reset that was not seen to work. */
  lemma {:induction false} QuiescesExactly(s: Dev, a: Answers)
    requires Sound(s) && s.powered
    ensures QuiesceCore(s, a).1.Stopped? <==> ComesDown(s, s.fw.client, a)
    ensures QuiesceCore(s, a) == Quiesced(s, a)
  {
    Asked(s, a);
    var t := AskToStop(s, a);
    TouchIsHarmless(t.hw);
    if !t.hw.executing {
      TakesDown(t);
    } else if s.conf.hungReset {
      Pulses(t, a);
      if a.pulseStops {
        TakesDown(With(t, t.fw.client, false));
      }
    }
  }

  /** A firmware given up on. */
  function GivenUp(s: Dev): Dev {
    s.(fw := s.fw.(hung := true))
  }

  lemma {:induction false} SuspendedIs(s: Dev, stopsStreams: bool)
    requires Sound(s) && s.powered
    ensures Suspended(s, stopsStreams) == With(s, s.fw.client && !stopsStreams, s.hw.executing).(pm := Suspending)
  {
    TouchIsHarmless(s.hw);
  }

  /** What is left of s by a sleep that is tried. */
  function TriedOf(s: Dev, client: bool, a: Answers): (Dev, bool) {
    if ComesDown(s, client, a) then (Down(s).(pm := Off), true)
    else (GivenUp(With(s, ClientStays(s, client, a), !(s.conf.hungReset && a.pulseStops))), false)
  }

  lemma {:induction false} SettledDown(s: Dev, client: bool, x: bool)
    ensures Settled((Down(With(s, client, x).(pm := Suspending)), Stopped)) == (Down(s).(pm := Off), true)
  {
  }

  lemma {:induction false} SettledUp(s: Dev, client: bool, x: bool, c: bool, y: bool)
    requires s.pm == On
    ensures Settled((With(With(s, client, x).(pm := Suspending), c, y), Failed(true))) == (GivenUp(With(s, c, y)), false)
  {
  }

  lemma {:induction false} SameAnswers(s: Dev, client: bool, a: Answers)
    ensures
      var u := With(s, client, s.hw.executing).(pm := Suspending);
      && u.fw.client == client && u.conf == s.conf
      && ComesDown(u, client, a) == ComesDown(s, client, a) && ClientStays(u, client, a) == ClientStays(s, client, a)
  {
  }

  lemma {:induction false} SettledIs(s: Dev, client: bool, a: Answers, u: Dev)
    requires s.pm == On && u == With(s, client, s.hw.executing).(pm := Suspending)
    ensures Settled(Quiesced(u, a)) == TriedOf(s, client, a)
  {
    SameAnswers(s, client, a);
    if ComesDown(s, client, a) {
      SettledDown(s, client, s.hw.executing);
      assert Quiesced(u, a) == (Down(u), Stopped);
    } else {
      var c, y := ClientStays(s, client, a), !(s.conf.hungReset && a.pulseStops);
      SettledUp(s, client, s.hw.executing, c, y);
      assert Quiesced(u, a) == (With(u, c, y), Failed(true));
    }
  }

  lemma {:induction false} PrepareIs(s: Dev, canResume: bool, stopsStreams: bool, a: Answers, u: Dev, r: (Dev, Outcome))
    requires s.pm == On && s.powered && s.conf.sleep != SleepRefuse && canResume && u == Suspended(s, stopsStreams)
    requires r == QuiesceCore(u, a)
    ensures Prepare(s, canResume, stopsStreams, a) == Settled(r)
  {
  }

  lemma {:induction false} Tried(s: Dev, canResume: bool, stopsStreams: bool, a: Answers)
    requires Inv(s) && !s.removed && s.pm == On && s.conf.sleep != SleepRefuse && canResume
    ensures Prepare(s, canResume, stopsStreams, a) == TriedOf(s, s.fw.client && !stopsStreams, a)
  {
    var client := s.fw.client && !stopsStreams;
    SuspendedIs(s, stopsStreams);
    var u := With(s, client, s.hw.executing).(pm := Suspending);
    QuiescesExactly(u, a);
    PrepareIs(s, canResume, stopsStreams, a, u, Quiesced(u, a));
    SettledIs(s, client, a, u);
  }

  /** A sleep goes on exactly if there is nothing to take down, or pm_sleep and a DAPF capture
      allow it and the core comes down; then everything is off and forgotten. One that may not be
      tried changes nothing. One that was tried gives the firmware up and leaves the rest. */
  lemma {:induction false} SleepsExactly(s: Dev, canResume: bool, stopsStreams: bool, a: Answers)
    requires Inv(s) && !s.removed
    ensures
      var (t, ok) := Prepare(s, canResume, stopsStreams, a);
      var client, allowed := s.fw.client && !stopsStreams, s.conf.sleep != SleepRefuse && canResume;
      && (ok <==> s.pm != On || (allowed && ComesDown(s, client, a)))
      && (s.pm != On || !allowed ==> t == s)
      && (s.pm == On && ok ==> t == Down(s).(pm := Off))
      && (s.pm == On && allowed && !ok ==>
            t == GivenUp(With(s, ClientStays(s, client, a), !(s.conf.hungReset && a.pulseStops))))
  {
    if s.pm == On && s.conf.sleep != SleepRefuse && canResume {
      Tried(s, canResume, stopsStreams, a);
    }
  }

  /** A resume boot that gets through leaves what a probe does; one that fails before the core was
      started leaves nothing on, and any that fails gives the firmware up. */
  lemma {:induction false} BootsExactly(s: Dev, b: Boot)
    requires Inv(s) && !s.removed && s.pm == Booting
    ensures
      var t := Work(s, b);
      && (t.fw.hung <==> !b.Up?)
      && (t.pm == Dead <==> !b.Up? && !b.AfterStart?)
      && (b.Up? ==>
            t == s.(pm := On, powered := true, irqOn := true, smmu := s.conf.watch, holder := Holding,
                    fw := Fw(true, b.mcpu, false, false, true), hw := Hw(b.executing, true, false, false)))
      && (b.AfterStart? ==>
            t == s.(pm := On, powered := true, irqOn := true, smmu := s.conf.watch, holder := Holding,
                    fw := Fw(b.running, b.mcpu, false, true, true), hw := Hw(b.executing, true, false, false)))
      && (!b.Up? && !b.AfterStart? ==>
            t == s.(pm := Dead, irqOn := false, smmu := false, fw := GONE.(hung := true), hw := OFF,
                    holder := if b.NoPower? then s.holder else Released))
  {
  }

  /** A sleep and the resume after it: an encoder that came down for the one is up again after
      the other, with nothing left of what was open or hung. */
  lemma {:induction false} SleepAndWake(s: Dev, canResume: bool, stopsStreams: bool, a: Answers, x: bool, mcpu: bool)
    requires Inv(s) && !s.removed && s.pm == On && Prepare(s, canResume, stopsStreams, a).1
    ensures
      Work(Post(Prepare(s, canResume, stopsStreams, a).0), Up(x, mcpu))
      == s.(irqOn := true, smmu := s.conf.watch, holder := Holding,
            fw := Fw(true, mcpu, false, false, true), hw := Hw(x, true, false, false))
  {
    SleepsExactly(s, canResume, stopsStreams, a);
    PrepareInv(s, canResume, stopsStreams, a);
    BootsExactly(Post(Prepare(s, canResume, stopsStreams, a).0), Up(x, mcpu));
  }

  predicate Closed(s: Dev, client: bool, a: Answers) {
    client ==> s.fw.running && a.closes
  }

  predicate Halted(s: Dev, a: Answers) {
    if s.conf.fwHalt then HaltSent(s) && a.haltOk else !s.fw.running
  }

  /** The core goes on executing: the Halt was not sent, or did not stop it. */
  predicate StillRuns(s: Dev, a: Answers) {
    s.hw.executing && !(HaltSent(s) && a.haltStops)
  }

  /** The client is given back, nothing is left running in the driver's eyes, and the core is not
      executing at the last look. */
  predicate LetsGo(s: Dev, client: bool, a: Answers) {
    Closed(s, client, a) && Halted(s, a) && !StillRuns(s, a)
  }

  lemma {:induction false} HaltsToGo(s: Dev, a: Answers)
    requires Sound(s) && s.powered
    ensures
      HaltToGo(s, a)
      == (With(s, s.fw.client, StillRuns(s, a)), Halted(s, a))
  {
    Halts(s, a);
  }

  /** s as remove() has it before it decides. */
  function AskedOf(s: Dev, client: bool, executing: bool): Dev {
    s.(fw := s.fw.(client := client, running := false), hw := s.hw.(executing := executing))
  }

  lemma {:induction false} StreamsStop(s: Dev, stopsStreams: bool)
    requires Sound(s) && s.powered
    ensures StreamsStopped(s, stopsStreams) == With(s, s.fw.client && !stopsStreams, s.hw.executing)
  {
    TouchIsHarmless(s.hw);
  }

  lemma {:induction false} AskToGoIs(s: Dev, stopsStreams: bool, a: Answers, d: bool, y: bool, closed: bool, halted: bool)
    requires CloseClient(StreamsStopped(s, stopsStreams), a) == (With(s, d, s.hw.executing), closed)
    requires HaltToGo(With(s, d, s.hw.executing), a) == (With(s, d, y), halted)
    ensures AskToGo(s, stopsStreams, a) == (AskedOf(s, d, y), closed && halted)
  {
  }

  lemma {:induction false} CloseStage(s: Dev, stopsStreams: bool, client: bool, a: Answers)
    requires Sound(s) && s.powered && client == (s.fw.client && !stopsStreams)
    ensures
      CloseClient(StreamsStopped(s, stopsStreams), a)
      == (With(s, client && !(s.fw.running && a.closes), s.hw.executing), Closed(s, client, a))
  {
    StreamsStop(s, stopsStreams);
    Closes(With(s, client, s.hw.executing), a);
  }

  lemma {:induction false} HaltStage(s: Dev, d: bool, a: Answers)
    requires Sound(s) && s.powered
    ensures
      HaltToGo(With(s, d, s.hw.executing), a)
      == (With(s, d, StillRuns(s, a)), Halted(s, a))
  {
    HaltsToGo(With(s, d, s.hw.executing), a);
  }

  lemma {:induction false} AskedToGo(s: Dev, stopsStreams: bool, client: bool, a: Answers, d: bool, y: bool)
    requires Sound(s) && s.powered && client == (s.fw.client && !stopsStreams)
    requires d == (client && !(s.fw.running && a.closes)) && y == StillRuns(s, a)
    ensures AskToGo(s, stopsStreams, a) == (AskedOf(s, d, y), Closed(s, client, a) && Halted(s, a))
  {
    CloseStage(s, stopsStreams, client, a);
    HaltStage(s, d, a);
    AskToGoIs(s, stopsStreams, a, d, y, Closed(s, client, a), Halted(s, a));
  }

  lemma {:induction false} LeaveIs(s: Dev, d: bool, y: bool, clean: bool)
    requires Sound(s) && s.powered
    ensures
      Leave(AskedOf(s, d, y), clean)
      == if clean && !y then Down(s).(fw := AskedOf(s, d, y).fw) else AskedOf(s, d, y).(keep := true)
  {
    TouchIsHarmless(s.hw);
    if clean && !y {
      var t := AskedOf(s, d, false);
      Quieted(t.(irqOn := false));
      assert ReleaseAll(t) == t.(irqOn := false, smmu := false, hw := Hw(false, false, false, false));
    }
  }

  lemma {:induction false} RemoveIs(s: Dev, stopsStreams: bool, a: Answers, t: Dev, clean: bool)
    requires s.pm == On && AskToGo(s.(removed := true), stopsStreams, a) == (t, clean)
    ensures Remove(s, stopsStreams, a) == Leave(t, clean)
  {
  }

  lemma {:induction false} Removed(s: Dev, stopsStreams: bool, a: Answers, r: Dev, d: bool, y: bool, clean: bool)
    requires s.pm == On && r == s.(removed := true) && Sound(r) && r.powered
    requires AskToGo(r, stopsStreams, a) == (AskedOf(r, d, y), clean)
    ensures
      Remove(s, stopsStreams, a)
      == if clean && !y then Down(r).(fw := AskedOf(r, d, y).fw) else AskedOf(r, d, y).(keep := true)
  {
    RemoveIs(s, stopsStreams, a, AskedOf(r, d, y), clean);
    LeaveIs(r, d, y, clean);
  }

  /** Everything released and gated. */
  predicate AllGone(t: Dev) {
    !t.keep && !t.powered && !t.irqOn && !t.smmu && t.hw == OFF
  }

  /** Everything as it was, but for a core that may have stopped. */
  predicate AllKept(s: Dev, t: Dev, executing: bool) {
    && t.keep && t.powered && t.irqOn == s.irqOn && t.smmu == s.smmu && t.holder == s.holder
    && t.hw == s.hw.(executing := executing)
  }

  lemma {:induction false} RemoveOff(s: Dev, stopsStreams: bool, a: Answers)
    requires Inv(s) && !s.removed && s.pm != On
    ensures AllGone(Remove(s, stopsStreams, a)) && Remove(s, stopsStreams, a).holder == s.holder
  {
    assert !s.powered && !s.smmu && s.hw == OFF;
  }

  lemma {:induction false} RemoveOn(s: Dev, stopsStreams: bool, a: Answers, r: Dev, d: bool, y: bool, clean: bool)
    requires s.pm == On && !s.removed && r == s.(removed := true) && Inv(s)
    requires AskToGo(r, stopsStreams, a) == (AskedOf(r, d, y), clean)
    ensures
      var t := Remove(s, stopsStreams, a);
      if clean && !y then AllGone(t) && t.holder == Released else AllKept(s, t, y)
  {
    Removed(s, stopsStreams, a, r, d, y, clean);
  }

  /** remove() takes everything down exactly if the encoder is off already, or the client is given
      back, nothing is left running and the core has stopped; it keeps everything as it is,
      powered and mapped, if not. */
  lemma {:induction false} RemovesExactly(s: Dev, stopsStreams: bool, a: Answers)
    requires Inv(s) && !s.removed
    ensures
      var t := Remove(s, stopsStreams, a);
      if s.pm != On || LetsGo(s, s.fw.client && !stopsStreams, a)
      then AllGone(t) && (s.pm == On ==> t.holder == Released)
      else AllKept(s, t, StillRuns(s, a))
  {
    if s.pm != On {
      RemoveOff(s, stopsStreams, a);
    } else {
      var r, client := s.(removed := true), s.fw.client && !stopsStreams;
      var d, y := client && !(s.fw.running && a.closes), StillRuns(s, a);
      AskedToGo(r, stopsStreams, client, a, d, y);
      RemoveOn(s, stopsStreams, a, r, d, y, Closed(s, client, a) && Halted(s, a));
    }
  }
}
