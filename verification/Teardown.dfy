/** Power, mappings and the running core across system sleep and removal (ave_drv.c). The
    hardware is three facts and a verdict: is the core executing, is anything mapped for it, is
    its power domain gated, and has the driver done something it must never do. What the
    firmware and the bus answer is the environment's choice. CPU_STATUS reads STOPPED exactly
    when the core is not executing. */
module Teardown {

  datatype Hw = Hw(executing: bool, mapped: bool, gated: bool, fault: bool) {
    /** Any register access: never in a gated block. */
    function Touch(): Hw {
      this.(fault := fault || gated)
    }

    /** Unmapping and freeing: never under a core that may use it, never in a gated block. */
    function Unmap(): Hw {
      this.(mapped := false, fault := fault || (mapped && (executing || gated)))
    }

    /** Gating: never under a live core. */
    function Gate(): Hw {
      this.(gated := true, fault := fault || executing)
    }
  }

  datatype Pm = On | Suspending | Off | Booting | Dead

  /** pm_sleep */
  datatype Sleep = SleepOff | SleepRefuse | SleepFull

  /** The venc_me1 holder keeps the domains up; an abandoned one outlives the driver. */
  datatype Holder = Holding | Released | Abandoned

  /** What the driver knows of the firmware: handshake done, Config sent, a client open, given up
      on, and the core started in this boot. */
  datatype Fw = Fw(running: bool, mcpu: bool, client: bool, hung: bool, asc: bool)

  /** Module parameters: pm_sleep, pm_hung_reset, fw_halt, smmu_watch. */
  datatype Conf = Conf(sleep: Sleep, hungReset: bool, fwHalt: bool, watch: bool)

  /** smmu: the handler on the shared fault line may read the block. */
  datatype Dev = Dev(pm: Pm, powered: bool, irqOn: bool, smmu: bool, keep: bool, holder: Holder, removed: bool,
                     fw: Fw, conf: Conf, hw: Hw)

  /** What the firmware does with a Stop and Close, with a Halt, and what a block reset does. */
  datatype Answers = Answers(closes: bool, haltOk: bool, haltStops: bool, pulseOk: bool, pulseStops: bool)

  /** How far a resume boot gets. */
  datatype Boot =
    | NoPower
    | PowerFailed
    | BeforeStart(mapped: bool, watching: bool)
    | AfterStart(executing: bool, running: bool, mcpu: bool)
    | Up(executing: bool, mcpu: bool)

  // ---- the pieces ---------------------------------------------------------------------

  /** ave_smmu_quiesce: a last read, and no more from the fault handler. */
  function SmmuQuiesced(s: Dev): Dev {
    if s.smmu then s.(smmu := false, hw := s.hw.Touch()) else s
  }

  function PowerOff(s: Dev): Dev {
    if !s.powered then s
    else if s.keep then s.(holder := Abandoned)
    else
      var t := SmmuQuiesced(s);
      t.(irqOn := false, holder := Released, powered := false, hw := t.hw.Touch().Gate())
  }

  function ReleaseAll(s: Dev): Dev {
    var t := SmmuQuiesced(s.(irqOn := false));
    t.(hw := t.hw.Unmap())
  }

  function Forget(s: Dev): Dev {
    s.(fw := Fw(false, false, false, false, false))
  }

  /** Stop and Close; true if there is no client left. */
  function CloseClient(s: Dev, a: Answers): (Dev, bool) {
    if !s.fw.client then (s, true)
    else if !s.fw.running || !s.powered then (s, false)
    else (s.(fw := s.fw.(client := s.fw.client && !a.closes), hw := s.hw.Touch()), a.closes)
  }

  function Halt(s: Dev, a: Answers): (Dev, bool) {
    if !s.conf.fwHalt then (s, true)
    else if !s.fw.mcpu || !s.powered || !s.fw.running then (s, false)
    else
      var h := s.hw.Touch();
      (s.(hw := h.(executing := h.executing && !a.haltStops)), a.haltOk)
  }

  /** ave_core_pulse: true once the reset was pulsed. */
  function Pulse(s: Dev, a: Answers): (Dev, bool) {
    var h := s.hw.Touch();
    (s.(hw := h.(executing := h.executing && !a.pulseStops)), a.pulseOk)
  }

  datatype Outcome = Stopped | Failed(touched: bool)

  function TakeDown(s: Dev): Dev {
    PowerOff(Forget(ReleaseAll(s)))
  }

  /** Stop, Close and Halt, as far as the firmware can be asked, and a look at CPU_STATUS. */
  function AskToStop(s: Dev, a: Answers): Dev {
    var s1 := if s.fw.client && !s.fw.hung then CloseClient(s, a).0 else s;
    var s2 := HaltIfIdle(s1, a);
    s2.(hw := s2.hw.Touch())
  }

  function HaltIfIdle(s: Dev, a: Answers): Dev {
    if s.fw.running && s.fw.mcpu && !s.fw.client && !s.fw.hung then Halt(s, a).0 else s
  }

  function QuiesceCore(s: Dev, a: Answers): (Dev, Outcome) {
    var t := AskToStop(s, a);
    if !t.hw.executing then (TakeDown(t), Stopped)
    else if !s.conf.hungReset then (t, Failed(true))
    else
      var (u, ok) := Pulse(t, a);
      if !ok || u.hw.executing then (u, Failed(true)) else (TakeDown(u), Stopped)
  }

  // ---- the entry points ---------------------------------------------------------------

  /** PM_SUSPEND_PREPARE. true: the sleep may go on. canResume: a full load with a DAPF capture;
      stopsStreams: stopping the open streams also gave the client back. */
  function Prepare(s: Dev, canResume: bool, stopsStreams: bool, a: Answers): (Dev, bool) {
    if s.pm != On || !s.powered then (s, true)
    else if s.conf.sleep == SleepRefuse || !canResume then (s, false)
    else Settled(QuiesceCore(Suspended(s, stopsStreams), a))
  }

  function Settled(r: (Dev, Outcome)): (Dev, bool) {
    match r
    case (t, Stopped) => (t.(pm := Off), true)
    case (t, Failed(touched)) => (t.(pm := On, fw := t.fw.(hung := t.fw.hung || touched)), false)
  }

  /** PM_POST_SUSPEND: queue the resume boot. */
  function Post(s: Dev): Dev {
    if s.pm == Off then s.(pm := Booting) else s
  }

  function PowerUp(s: Dev): Dev {
    s.(powered := true, irqOn := true, holder := Holding, hw := s.hw.(gated := false).Touch())
  }

  /** The core is released: it executes, or has stopped again already. */
  function CoreStarted(s: Dev, executing: bool, running: bool, mcpu: bool): Dev {
    s.(smmu := s.conf.watch, fw := s.fw.(asc := true, running := running, mcpu := mcpu),
       hw := s.hw.(mapped := true, executing := executing))
  }

  /** ave_power_up and ave_boot_core, as far as they get. */
  function BootCore(s: Dev, b: Boot): Dev {
    match b
    case NoPower => s
    case PowerFailed => PowerUp(s)
    case BeforeStart(m, w) => var up := PowerUp(s); up.(smmu := w && s.conf.watch, hw := up.hw.(mapped := m))
    case AfterStart(x, r, m) => CoreStarted(PowerUp(s), x, r, m)
    case Up(x, m) => CoreStarted(PowerUp(s), x, true, m)
  }

  function Work(s: Dev, b: Boot): Dev {
    if s.pm != Booting then s
    else
      var t := BootCore(Forget(s), b);
      if b.Up? then t.(pm := On)
      else if !t.fw.asc then var d := PowerOff(ReleaseAll(t)); d.(fw := d.fw.(hung := true), pm := Dead)
      else t.(fw := t.fw.(hung := true), pm := On)
  }

  function StreamsStopped(s: Dev, stopsStreams: bool): Dev {
    if s.powered then s.(fw := s.fw.(client := s.fw.client && !stopsStreams), hw := s.hw.Touch()) else s
  }

  function HaltToGo(s: Dev, a: Answers): (Dev, bool) {
    if s.conf.fwHalt then Halt(s, a) else (s, !s.fw.running)
  }

  /** Stop the streams, give the client back, and halt if that was asked for; true if nothing of it
      leaves the firmware possibly at work. */
  function AskToGo(s: Dev, stopsStreams: bool, a: Answers): (Dev, bool) {
    var s1 := StreamsStopped(s, stopsStreams);
    var (s2, closed) := CloseClient(s1, a);
    var (s3, halted) := HaltToGo(s2, a);
    (s3.(fw := s3.fw.(running := false)), closed && halted)
  }

  /** The last look, with power still on, and the decision. */
  function Leave(s: Dev, clean: bool): Dev {
    var t := if s.powered then s.(hw := s.hw.Touch()) else s;
    if clean && !(s.powered && t.hw.executing) then PowerOff(ReleaseAll(t)) else t.(keep := true)
  }

  function Remove(s: Dev, stopsStreams: bool, a: Answers): Dev {
    var r := s.(removed := true);
    if s.pm == Off || s.pm == Booting || s.pm == Dead then PowerOff(ReleaseAll(r))
    else
      var (t, clean) := AskToGo(r, stopsStreams, a);
      Leave(t, clean)
  }

  /** After remove: the power-off action, then the domains are detached. */
  function Devres(s: Dev): Dev {
    var t := PowerOff(s);
    if t.holder == Abandoned then t else t.(hw := if t.hw.gated then t.hw else t.hw.Gate())
  }

  /** The device callback on the way into a sleep: true lets it go on. */
  function DeviceSuspend(s: Dev): bool {
    s.conf.sleep == SleepOff || !s.powered
  }

  // ---- runs ---------------------------------------------------------------------------

  datatype Event =
    | Interrupt                                       // the handler reads the status register
    | SmmuInterrupt                                   // the shared line, at any time: whoever else raised it
    | Use(client: bool, mcpu: bool, hangs: bool, stops: bool)
    | PrepareEvent(canResume: bool, stopsStreams: bool, a: Answers)
    | PostEvent
    | WorkEvent(b: Boot)
    | RemoveEvent(stopsStreams: bool, a: Answers)
    | DevresEvent

  /** What a successful full probe leaves behind. */
  predicate Probed(s: Dev) {
    && s.pm == On && s.powered && s.fw.running && s.fw.asc && !s.keep && !s.fw.hung && !s.removed && s.holder == Holding
    && !s.hw.gated && !s.hw.fault && s.hw.mapped
  }

  /** The notifier exists only with pm_sleep. */
  predicate CanHappen(s: Dev, e: Event) {
    match e
    case Interrupt => s.irqOn
    case SmmuInterrupt => true
    case Use(_, _, _, _) => !s.removed && s.pm == On && s.powered
    case PrepareEvent(_, _, _) => !s.removed && s.conf.sleep != SleepOff
    case PostEvent => !s.removed && s.conf.sleep != SleepOff
    case WorkEvent(_) => !s.removed && s.pm == Booting
    case RemoveEvent(_, _) => !s.removed
    case DevresEvent => s.removed
  }

  function Step(s: Dev, e: Event): Dev {
    match e
    case Interrupt => s.(hw := s.hw.Touch())
    case SmmuInterrupt => if s.smmu then s.(hw := s.hw.Touch()) else s
    case Use(c, m, hangs, stops) =>
      s.(fw := s.fw.(client := c, mcpu := s.fw.mcpu || m, hung := s.fw.hung || hangs),
         hw := s.hw.Touch().(executing := s.hw.executing && !stops))
    case PrepareEvent(ok, streams, a) => Prepare(s, ok, streams, a).0
    case PostEvent => Post(s)
    case WorkEvent(b) => Work(s, b)
    case RemoveEvent(streams, a) => Remove(s, streams, a)
    case DevresEvent => Devres(s)
  }

  ghost predicate IsRun(tr: seq<Dev>, es: seq<Event>) {
    && |tr| == |es| + 1 && Probed(tr[0])
    && forall i :: 0 <= i < |es| ==> CanHappen(tr[i], es[i]) && tr[i + 1] == Step(tr[i], es[i])
  }

  // ---- the invariant ------------------------------------------------------------------

  predicate Inv(s: Dev) {
    && !s.hw.fault
    && (s.powered <==> !s.hw.gated)
    && (s.hw.executing ==> s.hw.mapped) && (s.hw.mapped ==> s.powered) && (s.irqOn || s.smmu ==> s.powered)
    && s.pm != Suspending && (s.pm == On && !s.removed ==> s.powered)
    && (s.pm == Off || s.pm == Booting || s.pm == Dead ==> !s.powered)
    && (s.keep ==> s.removed && s.powered)
    && (s.removed && !s.keep ==> !s.powered)
    && (s.holder == Abandoned ==> s.keep)
  }

  /** Inside the suspend path the state is transient, everything else holds. */
  predicate Sound(s: Dev) {
    && !s.hw.fault && (s.powered <==> !s.hw.gated)
    && (s.hw.executing ==> s.hw.mapped) && (s.hw.mapped ==> s.powered) && (s.irqOn || s.smmu ==> s.powered)
    && !s.keep && s.holder != Abandoned
  }

  lemma {:induction false} TakeDownIsSafe(s: Dev)
    requires Sound(s) && s.powered && !s.hw.executing
    ensures
      var t := TakeDown(s);
      && Sound(t) && !t.powered && !t.hw.mapped && !t.hw.executing && !t.irqOn && !t.smmu && t.hw.gated
      && t.removed == s.removed && t.conf == s.conf
  {
  }

  /** From s to t the driver only talked to the firmware. */
  predicate OnlyAsked(s: Dev, t: Dev) {
    && Sound(t) && t.powered && t.hw.mapped == s.hw.mapped && t.irqOn == s.irqOn
    && t.removed == s.removed && t.conf == s.conf && (t.hw.executing ==> s.hw.executing)
  }

  lemma {:induction false} HaltIfIdleIsSafe(s: Dev, a: Answers)
    requires Sound(s) && s.powered
    ensures OnlyAsked(s, HaltIfIdle(s, a))
  {
  }

  lemma {:induction false} AskToStopIsSafe(s: Dev, a: Answers)
    requires Sound(s) && s.powered
    ensures OnlyAsked(s, AskToStop(s, a))
  {
    var s1 := if s.fw.client && !s.fw.hung then CloseClient(s, a).0 else s;
    assert OnlyAsked(s, s1);
    HaltIfIdleIsSafe(s1, a);
  }

  /** The suspend path, from s: either the core is stopped and all is released and off, or nothing
      is unmapped or gated at all. */
  predicate DownOrUp(s: Dev, t: Dev, o: Outcome) {
    && Sound(t) && t.removed == s.removed && t.conf == s.conf
    && (o.Stopped? ==> !t.powered && !t.hw.mapped && !t.hw.executing && t.hw.gated)
    && (o.Failed? ==> t.powered && t.hw.mapped == s.hw.mapped && t.irqOn == s.irqOn)
  }

  /** The state the notifier leaves for the suspend path. */
  function Suspended(s: Dev, stopsStreams: bool): Dev {
    s.(pm := Suspending, fw := s.fw.(client := s.fw.client && !stopsStreams), hw := s.hw.Touch())
  }

  lemma {:induction false} QuiesceIsSafe(s: Dev, a: Answers)
    requires Sound(s) && s.powered
    ensures var (t, o) := QuiesceCore(s, a); DownOrUp(s, t, o)
  {
    AskToStopIsSafe(s, a);
    var t := AskToStop(s, a);
    if !t.hw.executing {
      TakeDownIsSafe(t);
    } else if s.conf.hungReset {
      var (u, ok) := Pulse(t, a);
      if ok && !u.hw.executing {
        TakeDownIsSafe(u);
      }
    }
  }

  /** What PM_SUSPEND_PREPARE may leave of s. */
  predicate Prepared(s: Dev, t: Dev, ok: bool) {
    && Inv(t) && t.removed == s.removed && t.conf == s.conf
    && (ok ==> !t.powered)
    && (!ok ==> t.powered && t.hw.mapped == s.hw.mapped && t.pm == On)
  }

  lemma {:induction false} PreparedFrom(s: Dev, t: Dev, o: Outcome)
    requires Inv(s) && !s.removed && DownOrUp(s, t, o)
    ensures Prepared(s, if o.Stopped? then t.(pm := Off) else t.(pm := On, fw := t.fw.(hung := t.fw.hung || o.touched)), o.Stopped?)
  {
  }

  lemma {:induction false} PrepareInv(s: Dev, canResume: bool, stopsStreams: bool, a: Answers)
    requires Inv(s) && !s.removed
    ensures var (t, ok) := Prepare(s, canResume, stopsStreams, a); Prepared(s, t, ok)
  {
    if s.pm == On && s.powered && s.conf.sleep != SleepRefuse && canResume {
      var s1 := Suspended(s, stopsStreams);
      QuiesceIsSafe(s1, a);
      var (t, o) := QuiesceCore(s1, a);
      PreparedFrom(s, t, o);
    }
  }

  /** A resume boot never releases anything once the core was started, and gives everything back
      if it was not. */
  lemma {:induction false} WorkInv(s: Dev, b: Boot)
    requires Inv(s) && !s.removed && s.pm == Booting
    ensures
      var t := Work(s, b);
      && Inv(t) && t.removed == s.removed && t.conf == s.conf
      && (b.AfterStart? || b.Up? ==> t.powered && t.hw.mapped && t.pm == On)
      && (b.NoPower? || b.PowerFailed? || b.BeforeStart? ==> !t.powered && !t.hw.mapped && t.pm == Dead)
  {
  }

  /** What remove() has done before it decides: nothing that cannot be undone. */
  predicate Asked(s: Dev, t: Dev, clean: bool) {
    && Sound(t) && t.powered && t.hw.mapped == s.hw.mapped && t.irqOn == s.irqOn
    && t.removed == s.removed && t.pm == s.pm && (t.hw.executing ==> s.hw.executing)
    && (clean && !s.conf.fwHalt ==> !s.fw.running)
  }

  lemma {:induction false} CloseIsSafe(s: Dev, a: Answers)
    requires Sound(s) && s.powered
    ensures var t := CloseClient(s, a).0; OnlyAsked(s, t) && t.fw.running == s.fw.running && t.pm == s.pm
  {
  }

  lemma {:induction false} HaltToGoIsSafe(s: Dev, a: Answers)
    requires Sound(s) && s.powered
    ensures
      var (t, halted) := HaltToGo(s, a);
      OnlyAsked(s, t) && t.pm == s.pm && (halted && !s.conf.fwHalt ==> !s.fw.running)
  {
  }

  lemma {:induction false} AskToGoIsSafe(s: Dev, stopsStreams: bool, a: Answers)
    requires Sound(s) && s.powered
    ensures var (t, clean) := AskToGo(s, stopsStreams, a); Asked(s, t, clean)
  {
    var s1 := StreamsStopped(s, stopsStreams);
    CloseIsSafe(s1, a);
    HaltToGoIsSafe(CloseClient(s1, a).0, a);
  }

  /** From s, remove() took everything down, or kept it all. */
  predicate BothOrNeither(s: Dev, t: Dev) {
    && Inv(t) && t.removed && (t.hw.executing ==> s.hw.executing)
    && (t.keep ==> t.powered && t.hw.mapped == s.hw.mapped && !t.hw.gated)
    && (!t.keep ==> !t.powered && !t.hw.mapped && t.hw.gated && !t.irqOn && !t.hw.executing)
    && (!s.conf.fwHalt && s.fw.running ==> t.keep)
  }

  lemma {:induction false} LeaveIsSafe(s: Dev, t: Dev, clean: bool)
    requires Asked(s, t, clean) && t.removed && t.pm == On
    ensures BothOrNeither(s, Leave(t, clean))
  {
  }

  lemma {:induction false} RemoveAsks(s: Dev, stopsStreams: bool, a: Answers)
    requires Inv(s) && !s.removed && s.pm == On
    ensures BothOrNeither(s, Remove(s, stopsStreams, a))
  {
    var r := s.(removed := true);
    AskToGoIsSafe(r, stopsStreams, a);
    var (t, clean) := AskToGo(r, stopsStreams, a);
    LeaveIsSafe(r, t, clean);
  }

  lemma {:induction false} RemoveInv(s: Dev, stopsStreams: bool, a: Answers)
    requires Inv(s) && !s.removed
    ensures Inv(Remove(s, stopsStreams, a)) && Remove(s, stopsStreams, a).removed
    ensures Remove(s, stopsStreams, a).hw.executing ==> Remove(s, stopsStreams, a).keep
  {
    if s.pm == On {
      RemoveAsks(s, stopsStreams, a);
    }
  }

  lemma {:induction false} DevresInv(s: Dev)
    requires Inv(s) && s.removed
    ensures Inv(Devres(s)) && (s.keep ==> Devres(s).hw == s.hw)
  {
  }

  lemma {:induction false} StepInv(s: Dev, e: Event)
    requires Inv(s) && CanHappen(s, e)
    ensures Inv(Step(s, e))
  {
    match e
    case PrepareEvent(ok, streams, a) => PrepareInv(s, ok, streams, a);
    case WorkEvent(b) => WorkInv(s, b);
    case RemoveEvent(streams, a) => RemoveInv(s, streams, a);
    case DevresEvent => DevresInv(s);
    case _ =>
  }

  lemma {:induction false} RunInv(tr: seq<Dev>, es: seq<Event>)
    requires IsRun(tr, es)
    ensures Inv(tr[|es|])
    decreases |es|
  {
    if |es| > 0 {
      var m := |es| - 1;
      RunInv(tr[..|es|], es[..m]);
      assert tr[..|es|][m] == tr[m] && CanHappen(tr[m], es[m]) && tr[m + 1] == Step(tr[m], es[m]);
      StepInv(tr[m], es[m]);
    }
  }

  /** No run of suspend notifier, resume boot and remove, whatever the firmware answers, ever
      unmaps or gates while the core may be executing, or touches a gated block; a core that is
      executing keeps its mappings and its power, after remove and devres too. */
  lemma {:induction false} NeverUnderALiveCore(tr: seq<Dev>, es: seq<Event>)
    requires IsRun(tr, es)
    ensures !tr[|es|].hw.fault
    ensures tr[|es|].hw.executing ==> tr[|es|].hw.mapped && !tr[|es|].hw.gated
  {
    RunInv(tr, es);
  }

  /** When the notifier lets a sleep go on, everything is stopped, released and off, and the
      device callback agrees; when it does not, nothing was unmapped or gated. */
  lemma {:induction false} SleepIsClean(s: Dev, canResume: bool, stopsStreams: bool, a: Answers)
    requires Inv(s) && !s.removed && s.conf.sleep != SleepOff
    ensures
      var (t, ok) := Prepare(s, canResume, stopsStreams, a);
      && (ok <==> DeviceSuspend(t))
      && (ok ==> !t.hw.executing && !t.hw.mapped && t.hw.gated && !t.irqOn)
      && (!ok ==> t.hw.mapped == s.hw.mapped && t.hw.gated == s.hw.gated)
  {
    PrepareInv(s, canResume, stopsStreams, a);
  }

  /** The device callback lets a sleep gate the domains of a live core exactly with pm_sleep=0. */
  lemma {:induction false} CallbackGuards(s: Dev)
    requires Inv(s) && s.hw.executing
    ensures DeviceSuspend(s) <==> s.conf.sleep == SleepOff
  {
  }

  /** Once remove() and devres are through, either everything is released and gated and the core
      is not executing, or mappings and power both stay: always when the core is left executing,
      and always when it was running and no Halt may be sent (fw_halt=0). */
  lemma {:induction false} RemoveKeepsBothOrNeither(s: Dev, stopsStreams: bool, a: Answers)
    requires Inv(s) && !s.removed
    ensures
      var t, u := Remove(s, stopsStreams, a), Devres(Remove(s, stopsStreams, a));
      && (t.keep ==> u.hw.mapped == s.hw.mapped && !u.hw.gated && u.holder == Abandoned)
      && (!t.keep ==> !u.hw.mapped && u.hw.gated && !u.hw.executing)
      && (s.pm != On ==> !t.keep)
      && (s.pm == On && (t.hw.executing || (!s.conf.fwHalt && s.fw.running)) ==> t.keep)
  {
    RemoveInv(s, stopsStreams, a);
    DevresInv(Remove(s, stopsStreams, a));
    if s.pm == On {
      RemoveAsks(s, stopsStreams, a);
    }
  }
}
