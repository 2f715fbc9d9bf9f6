/** The same teardown as the driver runs it, statement by statement on its own fields. Each entry
    point computes the function of Teardown, and so keeps what is proved of that. */
module TeardownCode {
  import opened Teardown

  class Encoder {
    var pm: Pm
    var powered: bool
    var irqOn: bool
    var smmuLive: bool
    var keepPowered: bool
    var holder: Holder
    var removed: bool
    var fw: Fw
    const conf: Conf
    var hw: Hw

    function View(): Dev
      reads this
    {
      Dev(pm, powered, irqOn, smmuLive, keepPowered, holder, removed, fw, conf, hw)
    }

    /** Between two entry points. */
    predicate Valid()
      reads this
    {
      Inv(View())
    }

    constructor (conf: Conf, mcpu: bool, client: bool, executing: bool)
      ensures Valid() && Probed(View()) && View().conf == conf && View().hw.executing == executing
    {
      pm, powered, irqOn, keepPowered, holder, removed := On, true, true, false, Holding, false;
      smmuLive := conf.watch;
      this.conf := conf;
      fw := Fw(true, mcpu, client, false, true);
      hw := Hw(executing, true, false, false);
    }

    /** CPU_STATUS & STOPPED */
    method CoreStopped() returns (stopped: bool)
      modifies this`hw
      ensures View() == old(View()).(hw := old(hw).Touch()) && stopped == !hw.executing
    {
      hw := hw.Touch();
      stopped := !hw.executing;
    }

    /** ave_smmu_quiesce */
    method DoSmmuQuiesce()
      modifies this`smmuLive, this`hw
      ensures View() == SmmuQuiesced(old(View()))
    {
      if !smmuLive {
        return;
      }
      smmuLive := false;
      hw := hw.Touch();
    }

    /** Here a clean one reads the SMMU a last time, then the interrupt goes, then comes the last
        access to the block, and then the gate. */
    method DoPowerOff()
      modifies this
      ensures View() == PowerOff(old(View()))
    {
      if !powered {
        return;
      }
      if keepPowered {
        holder := Abandoned;
        return;
      }
      DoSmmuQuiesce();
      if irqOn {
        irqOn := false;
      }
      hw := hw.Touch();
      holder := Released;
      powered := false;
      hw := hw.Gate();
    }

    method DoReleaseAll()
      modifies this
      ensures View() == ReleaseAll(old(View()))
    {
      if irqOn {
        irqOn := false;
      }
      DoSmmuQuiesce();
      hw := hw.Unmap();
    }

    method DoCloseClient(a: Answers) returns (ok: bool)
      modifies this
      ensures (View(), ok) == CloseClient(old(View()), a)
    {
      if !fw.client {
        return true;
      }
      if !fw.running || !powered {
        return false;
      }
      hw := hw.Touch();
      if !a.closes {
        return false;
      }
      fw := fw.(client := false);
      return true;
    }

    method DoHalt(a: Answers) returns (ok: bool)
      modifies this
      ensures (View(), ok) == Halt(old(View()), a)
    {
      if !conf.fwHalt {
        return true;
      }
      if !fw.mcpu || !powered || !fw.running {
        return false;
      }
      hw := hw.Touch();
      if a.haltStops {
        hw := hw.(executing := false);
      }
      return a.haltOk;
    }

    method DoPulse(a: Answers) returns (ok: bool)
      modifies this
      ensures (View(), ok) == Pulse(old(View()), a)
    {
      hw := hw.Touch();
      if a.pulseStops {
        hw := hw.(executing := false);
      }
      return a.pulseOk;
    }

    method DoAskToStop(a: Answers) returns (stopped: bool)
      modifies this
      ensures View() == AskToStop(old(View()), a) && stopped == !hw.executing
    {
      if fw.client && !fw.hung {
        var _ := DoCloseClient(a);
      }
      if fw.running && fw.mcpu && !fw.client && !fw.hung {
        var _ := DoHalt(a);
      }
      stopped := CoreStopped();
    }

    /** The end of a core that has stopped. */
    method DoTakeDown()
      modifies this
      ensures View() == TakeDown(old(View()))
    {
      DoReleaseAll();
      fw := Fw(false, false, false, false, false);
      DoPowerOff();
    }

    method DoStopCore(a: Answers) returns (o: Outcome)
      modifies this
      ensures (View(), o) == QuiesceCore(old(View()), a)
    {
      var stopped := DoAskToStop(a);
      if !stopped {
        if !conf.hungReset {
          return Failed(true);
        }
        var ok := DoPulse(a);
        if !ok || hw.executing {
          return Failed(true);
        }
      }
      DoTakeDown();
      return Stopped;
    }

    /** ave_pm_quiesce_core: everything is stopped, released and off, or nothing is released. */
    method DoQuiesceCore(a: Answers) returns (o: Outcome)
      requires Sound(View()) && powered
      modifies this
      ensures (View(), o) == QuiesceCore(old(View()), a)
      ensures DownOrUp(old(View()), View(), o)
    {
      o := DoStopCore(a);
      QuiesceIsSafe(old(View()), a);
    }

    /** ave_pm_prepare: a sleep goes on only with the encoder off. */
    method DoPrepare(canResume: bool, stopsStreams: bool, a: Answers) returns (ok: bool)
      requires Valid() && !removed
      modifies this
      ensures (View(), ok) == Prepare(old(View()), canResume, stopsStreams, a)
      ensures Valid() && Prepared(old(View()), View(), ok)
    {
      PrepareInv(View(), canResume, stopsStreams, a);
      if pm != On || !powered {
        return true;
      }
      if conf.sleep == SleepRefuse || !canResume {
        return false;
      }
      Suspend(stopsStreams);
      ok := QuiesceAndSettle(a);
    }

    method Suspend(stopsStreams: bool)
      modifies this
      ensures View() == Suspended(old(View()), stopsStreams)
    {
      pm := Suspending;
      hw := hw.Touch();
      if stopsStreams {
        fw := fw.(client := false);
      }
    }

    method QuiesceAndSettle(a: Answers) returns (ok: bool)
      requires Sound(View()) && powered
      modifies this
      ensures (View(), ok) == Settled(QuiesceCore(old(View()), a))
    {
      var o := DoQuiesceCore(a);
      ok := DoSettle(o);
    }

    /** The verdict on a suspend. */
    method DoSettle(o: Outcome) returns (ok: bool)
      modifies this`fw, this`pm
      ensures (View(), ok) == Settled((old(View()), o))
    {
      if o.Failed? && o.touched {
        fw := fw.(hung := true);
      }
      pm := if o.Stopped? then Off else On;
      ok := o.Stopped?;
    }

    /** ave_pm_work, around the boot: everything stays once the core was started, and goes if not. */
    method DoWork(b: Boot)
      requires Valid() && !removed && pm == Booting
      modifies this
      ensures View() == Work(old(View()), b)
      ensures Valid() && (if b.AfterStart? || b.Up? then powered && hw.mapped else !powered && !hw.mapped)
    {
      WorkInv(View(), b);
      fw := Fw(false, false, false, false, false);
      DoBoot(b);
      if b.Up? {
        pm := On;
      } else if !fw.asc {
        DoReleaseAll();
        DoPowerOff();
        fw := fw.(hung := true);
        pm := Dead;
      } else {
        fw := fw.(hung := true);
        pm := On;
      }
    }

    method DoPowerUp()
      modifies this
      ensures View() == PowerUp(old(View()))
    {
      powered, irqOn, holder := true, true, Holding;
      hw := hw.(gated := false).Touch();
    }

    method DoStartCore(executing: bool, isRunning: bool, mcpu: bool)
      modifies this
      ensures View() == CoreStarted(old(View()), executing, isRunning, mcpu)
    {
      smmuLive := conf.watch;
      fw := fw.(asc := true, running := isRunning, mcpu := mcpu);
      hw := hw.(mapped := true, executing := executing);
    }

    method DoBoot(b: Boot)
      modifies this
      ensures View() == BootCore(old(View()), b)
    {
      if b.NoPower? {
        return;
      }
      DoPowerUp();
      match b
      case BeforeStart(m, w) =>
        smmuLive := w && conf.watch;
        hw := hw.(mapped := m);
      case AfterStart(x, r, m) => DoStartCore(x, r, m);
      case Up(x, m) => DoStartCore(x, true, m);
      case _ =>
    }

    method DoTearDown(stopsStreams: bool, a: Answers)
      modifies this
      ensures View() == Remove(old(View()), stopsStreams, a)
    {
      removed := true;
      if pm == Off || pm == Booting || pm == Dead {
        DoReleaseAll();
        DoPowerOff();
        return;
      }
      var clean := DoAskToGo(stopsStreams, a);
      DoLeave(clean);
    }

    /** ave_remove: both mappings and power go, or both stay. */
    method DoRemove(stopsStreams: bool, a: Answers)
      requires Valid() && !removed
      modifies this
      ensures View() == Remove(old(View()), stopsStreams, a)
      ensures Valid() && removed && (hw.executing ==> keepPowered)
      ensures old(pm) == On ==> BothOrNeither(old(View()), View())
    {
      DoTearDown(stopsStreams, a);
      RemoveInv(old(View()), stopsStreams, a);
      if old(pm) == On {
        RemoveAsks(old(View()), stopsStreams, a);
      }
    }

    method DoLeave(asked: bool)
      modifies this
      ensures View() == Leave(old(View()), asked)
    {
      var clean := asked;
      if powered {
        var stopped := CoreStopped();
        if !stopped {
          clean := false;
        }
      }
      if !clean {
        keepPowered := true;
        return;
      }
      DoReleaseAll();
      DoPowerOff();
    }

    method DoAskToGo(stopsStreams: bool, a: Answers) returns (clean: bool)
      modifies this
      ensures (View(), clean) == AskToGo(old(View()), stopsStreams, a)
    {
      StopStreams(stopsStreams);
      clean := DoCloseClient(a);
      ghost var closed := View();
      var halted := DoHaltToGo(a);
      if !halted {
        clean := false;
      }
      DoStop();
      assert View() == HaltToGo(closed, a).0.(fw := HaltToGo(closed, a).0.fw.(running := false));
    }

    /** ave_stop */
    method DoStop()
      modifies this`fw
      ensures View() == old(View()).(fw := old(fw).(running := false))
    {
      fw := fw.(running := false);
    }

    method StopStreams(stopsStreams: bool)
      modifies this
      ensures View() == StreamsStopped(old(View()), stopsStreams)
    {
      if powered {
        hw := hw.Touch();
        if stopsStreams {
          fw := fw.(client := false);
        }
      }
    }

    method DoHaltToGo(a: Answers) returns (halted: bool)
      modifies this
      ensures (View(), halted) == HaltToGo(old(View()), a)
    {
      halted := true;
      if conf.fwHalt {
        halted := DoHalt(a);
      } else if fw.running {
        halted := false;
      }
    }
  }
}
