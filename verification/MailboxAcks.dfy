/** One pass of the interrupt handler inside any interleaving: what it has read is what it clears
    and what it hands on. */
module MailboxAcks {
  import opened Basics
  import opened Mailbox

  /** The handler is at work on the status word st. */
  predicate WorksOn(s: State, st: set<nat>, up: bool, log: seq<set<nat>>) {
    !s.irq.Quiet? && s.irq.st == st && s.ipcUp == up && s.dispatched == log
  }

  /** It has acknowledged all of it and handed it on. */
  predicate DoneWith(s: State, st: set<nat>, up: bool, log: seq<set<nat>>) {
    s.status !! st && s.dispatched == if up then log + [st] else log
  }

  /** What one step, of anybody, does to the handler's pass. */
  predicate Passes(s: State, t: State) {
    && (s.irq.Quiet? && !t.irq.Quiet? ==> s.status != {} && WorksOn(t, s.status, s.ipcUp, s.dispatched))
    && (!s.irq.Quiet? && !t.irq.Quiet? ==> WorksOn(t, s.irq.st, s.ipcUp, s.dispatched))
    && (!s.irq.Quiet? && t.irq.Quiet? ==> DoneWith(t, s.irq.st, s.ipcUp, s.dispatched))
  }

  lemma {:induction false} IrqPasses(s: State, t: State)
    requires Inv(s) && IrqStep(s, t)
    ensures Passes(s, t)
  {
  }

  /** The handler begins exactly on a status word that is not empty. */
  lemma {:induction false} IrqStarts(s: State, t: State)
    requires Inv(s) && IrqStep(s, t) && s.irq.Quiet?
    ensures !t.irq.Quiet? <==> s.status != {}
  {
  }

  lemma {:induction false} HostWaits(s: State, t: State)
    requires Inv(s) && HostStep(s, t)
    ensures t.irq == s.irq && t.dispatched == s.dispatched && (!s.irq.Quiet? ==> t.ipcUp == s.ipcUp)
  {
  }

  lemma {:induction false} FirmwareWaits(s: State, t: State)
    requires Inv(s) && FirmwareStep(s, t)
    ensures t.irq == s.irq && t.dispatched == s.dispatched && t.ipcUp == s.ipcUp
  {
  }

  lemma {:induction false} StepPasses(s: State, t: State)
    requires Inv(s) && Next(s, t)
    ensures Passes(s, t)
  {
    if HostStep(s, t) {
      HostWaits(s, t);
    } else if IrqStep(s, t) {
      IrqPasses(s, t);
    } else {
      FirmwareWaits(s, t);
    }
  }

  lemma {:induction false} RunPasses(tr: seq<State>, m: nat)
    requires IsRun(tr) && m + 1 < |tr|
    ensures Passes(tr[m], tr[m + 1])
  {
    var before := tr[..m + 1];
    forall i | 0 <= i < |before| - 1 ensures Wf(before[i]) && Next(before[i], before[i + 1]) {
      assert before[i] == tr[i] && before[i + 1] == tr[i + 1];
    }
    RunInv(before);
    StepPasses(tr[m], tr[m + 1]);
  }

  /** The handler's pass in tr[i..j + 1]: quiet at both ends and at work in between. */
  ghost predicate IsPass(tr: seq<State>, i: nat, j: nat) {
    i + 1 < j < |tr| && tr[i].irq.Quiet? && tr[j].irq.Quiet? && forall m :: i < m < j ==> !tr[m].irq.Quiet?
  }

  lemma {:induction false} StillWorks(tr: seq<State>, i: nat, j: nat, m: nat)
    requires IsPass(tr, i, j) && i < m < j
    requires forall l :: i <= l < j ==> Passes(tr[l], tr[l + 1])
    ensures tr[i].status != {} && WorksOn(tr[m], tr[i].status, tr[i].ipcUp, tr[i].dispatched)
    decreases m
  {
    assert Passes(tr[m - 1], tr[m - 1 + 1]);
    if m > i + 1 {
      StillWorks(tr, i, j, m - 1);
    }
  }

  /** Whatever the receiver and the firmware do meanwhile: when the handler is through, every bit it
      found set when it came in has been acknowledged, and once ipcUp is set that status word has
      gone to the dispatcher, once. */
  lemma {:induction false} EveryPassAcknowledges(tr: seq<State>, i: nat, j: nat)
    requires IsRun(tr) && IsPass(tr, i, j)
    ensures tr[i].status != {} && tr[j].status !! tr[i].status
    ensures tr[j].dispatched == if tr[i].ipcUp then tr[i].dispatched + [tr[i].status] else tr[i].dispatched
  {
    forall l | i <= l < j ensures Passes(tr[l], tr[l + 1]) {
      RunPasses(tr, l);
    }
    PassEnds(tr, i, j);
  }

  lemma {:induction false} PassEnds(tr: seq<State>, i: nat, j: nat)
    requires IsPass(tr, i, j) && forall l :: i <= l < j ==> Passes(tr[l], tr[l + 1])
    ensures tr[i].status != {} && DoneWith(tr[j], tr[i].status, tr[i].ipcUp, tr[i].dispatched)
  {
    StillWorks(tr, i, j, j - 1);
    assert Passes(tr[j - 1], tr[j - 1 + 1]);
  }
}
