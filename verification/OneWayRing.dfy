/** The one-way ring: a type-3 sender and a type-2 receiver. Neither asks its cursors
    whether it may go on; the slot's phase bit alone says so, and the receiver hands the
    slot back by writing it. Every slot access is a step of its own. */
module OneWayRing {
  import opened Basics
  import opened Remainders
  import opened Rings

  datatype SendPc = SIdle | SChecked(m: Message) | SArg1(m: Message) | SArg2(m: Message)
  datatype RecvPc = RIdle | RWord(w0: U64) | RArg1(w0: U64, a1: U64) | RArg2(w0: U64, a1: U64, a2: U64)

  datatype State = State(
    slots: seq<Slot>,
    hs: Handle, spc: SendPc, sent: seq<Message>,
    hr: Handle, rpc: RecvPc, rcvd: seq<Message>)

  datatype Action =
    | Check(m: Message) | PutArg1 | PutArg2 | PutWord
    | GetWord | GetArg1 | GetArg2 | HandBack

  ghost predicate Shaped(s: State) {
    && s.hs.nslots == s.hr.nslots == |s.slots| >= 1
    && s.hs.typ == 3 && s.hr.typ == 2
    && -1 <= s.hs.wr < |s.slots|
    && -1 <= s.hr.rd < |s.slots|
  }

  ghost function SendAt(s: State): nat { ClampNeg(s.hs.wr) }
  ghost function RecvAt(s: State): nat { ClampNeg(s.hr.rd) }

  ghost predicate CanStep(s: State, a: Action)
    requires Shaped(s)
  {
    match a
    case Check(m) => s.spc == SIdle && m.payload % 4 == 0 && Phase(s.slots[SendAt(s)].w0) == s.hs.typ % 2
    case PutArg1 => s.spc.SChecked?
    case PutArg2 => s.spc.SArg1?
    case PutWord => s.spc.SArg2?
    case GetWord => s.rpc == RIdle && Phase(s.slots[RecvAt(s)].w0) == s.hr.typ % 2
    case GetArg1 => s.rpc.RWord?
    case GetArg2 => s.rpc.RArg1?
    case HandBack => s.rpc.RArg2?
  }

  ghost function Step(s: State, a: Action): State
    requires Shaped(s) && CanStep(s, a)
  {
    var i, j := SendAt(s), RecvAt(s);
    match a
    case Check(m) => s.(spc := SChecked(m))
    case PutArg1 => s.(spc := SArg1(s.spc.m), slots := s.slots[i := s.slots[i].(a1 := s.spc.m.arg1)])
    case PutArg2 => s.(spc := SArg2(s.spc.m), slots := s.slots[i := s.slots[i].(a2 := s.spc.m.arg2)])
    case PutWord =>
      s.(spc := SIdle, hs := AfterUSend(s.hs), sent := s.sent + [s.spc.m],
         slots := s.slots[i := s.slots[i].(w0 := Word(s.spc.m.payload, s.hs.typ))])
    case GetWord => s.(rpc := RWord(s.slots[j].w0))
    case GetArg1 => s.(rpc := RArg1(s.rpc.w0, s.slots[j].a1))
    case GetArg2 => s.(rpc := RArg2(s.rpc.w0, s.rpc.a1, s.slots[j].a2))
    case HandBack =>
      s.(rpc := RIdle, hr := AfterURecv(s.hr),
         rcvd := s.rcvd + [ReadSlot(Slot(s.rpc.w0, s.rpc.a1, s.rpc.a2))],
         slots := s.slots[j := s.slots[j].(w0 := FlipLow(s.hr.typ))])
  }

  /** Four steps with nobody in between are what Ring.USend and Ring.URecv do. */
  lemma {:induction false} CallsAreFourSteps(s: State, m: Message)
    requires Shaped(s)
    ensures CanStep(s, Check(m)) ==>
      var t := Step(Step(Step(Step(s, Check(m)), PutArg1), PutArg2), PutWord);
      t.hs == AfterUSend(s.hs) && t.slots == s.slots[SendAt(s) := FilledSlot(m, 3)]
    ensures CanStep(s, GetWord) ==>
      var t := Step(Step(Step(Step(s, GetWord), GetArg1), GetArg2), HandBack);
      var x := s.slots[RecvAt(s)];
      && t.hr == AfterURecv(s.hr) && t.rcvd == s.rcvd + [ReadSlot(x)]
      && t.slots == s.slots[RecvAt(s) := x.(w0 := FlipLow(2))]
  {
  }

  ghost predicate Init(s: State, before: seq<Slot>) {
    && |before| >= 1
    && s == State(InitSlots(before, 3), InitHandle(|before|, 3), SIdle, [], InitHandle(|before|, 2), RIdle, [])
  }

  ghost predicate Next(s: State, t: State) {
    exists a: Action :: Shaped(s) && CanStep(s, a) && t == Step(s, a)
  }

  // ---- the invariant ----------------------------------------------------------------

  ghost predicate Counts(s: State) {
    && Shaped(s)
    && |s.rcvd| <= |s.sent| <= |s.rcvd| + |s.slots|
    && s.rcvd == s.sent[..|s.rcvd|]
    && s.hs.wr == Rem(|s.sent|, |s.slots|)
    && s.hr.rd == Rem(|s.rcvd|, |s.slots|)
    && forall i :: 0 <= i < |s.sent| ==> s.sent[i].payload % 4 == 0
  }

  ghost predicate SlotOk(s: State, i: nat, x: Slot) {
    if i < |s.sent| then x == FilledSlot(s.sent[i], 3) else Phase(x.w0) == 1
  }

  ghost predicate Slots(s: State)
    requires Counts(s)
  {
    forall i: nat :: |s.rcvd| <= i < |s.rcvd| + |s.slots| ==> SlotOk(s, i, At(s.slots, i))
  }

  ghost predicate Pcs(s: State)
    requires Counts(s)
  {
    && var x := At(s.slots, |s.sent|);
    && (s.spc != SIdle ==> |s.sent| < |s.rcvd| + |s.slots| && s.spc.m.payload % 4 == 0)
    && (s.spc.SArg1? ==> x.a1 == s.spc.m.arg1)
    && (s.spc.SArg2? ==> x.a1 == s.spc.m.arg1 && x.a2 == s.spc.m.arg2)
    && var y := At(s.slots, |s.rcvd|);
    && (s.rpc != RIdle ==> |s.rcvd| < |s.sent| && y.w0 == s.rpc.w0)
    && (s.rpc.RArg1? ==> y.a1 == s.rpc.a1)
    && (s.rpc.RArg2? ==> y.a1 == s.rpc.a1 && y.a2 == s.rpc.a2)
  }

  ghost predicate Inv(s: State) {
    Counts(s) && Slots(s) && Pcs(s)
  }

  /** The phase bit alone tells both ends how full the ring is. */
  lemma {:induction false} PhaseTellsFill(s: State)
    requires Inv(s)
    ensures Phase(s.slots[SendAt(s)].w0) == 1 <==> |s.sent| < |s.rcvd| + |s.slots|
    ensures Phase(s.slots[RecvAt(s)].w0) == 0 <==> |s.rcvd| < |s.sent|
  {
    var b, k := |s.rcvd|, |s.sent|;
    assert SlotOk(s, b, At(s.slots, b));
    if b < k {
      FilledSlotReads(s.sent[b], 3);
    }
    if k < b + |s.slots| {
      assert SlotOk(s, k, At(s.slots, k));
    } else {
      AtWraps(s.slots, b);
    }
  }

  lemma {:induction false} SenderFills(s: State, a: Action, t: State)
    requires Inv(s) && CanStep(s, a) && t == Step(s, a) && (a.PutArg1? || a.PutArg2? || a.PutWord?)
    ensures Inv(t)
  {
    var b, k := |s.rcvd|, |s.sent|;
    RemNext(k, |s.slots|);
    AtUpdate(s.slots, b, k, t.slots[SendAt(s)]);
    forall i: nat | b <= i < b + |s.slots| ensures SlotOk(t, i, At(t.slots, i)) {
      assert SlotOk(s, i, At(s.slots, i));
    }
  }

  lemma {:induction false} SenderChecks(s: State, a: Action, t: State)
    requires Inv(s) && CanStep(s, a) && t == Step(s, a) && a.Check?
    ensures Inv(t)
  {
    PhaseTellsFill(s);
    forall i: nat | |s.rcvd| <= i < |s.rcvd| + |s.slots| ensures SlotOk(t, i, At(t.slots, i)) {
      assert SlotOk(s, i, At(s.slots, i));
    }
  }

  lemma {:induction false} ReceiverLooks(s: State, a: Action, t: State)
    requires Inv(s) && CanStep(s, a) && t == Step(s, a) && (a.GetWord? || a.GetArg1? || a.GetArg2?)
    ensures Inv(t)
  {
    PhaseTellsFill(s);
    forall i: nat | |s.rcvd| <= i < |s.rcvd| + |s.slots| ensures SlotOk(t, i, At(t.slots, i)) {
      assert SlotOk(s, i, At(s.slots, i));
    }
  }

  /** What is handed back is what was sent, and its slot is free again. */
  lemma {:induction false} HandsBackCounts(s: State, t: State)
    requires Inv(s) && CanStep(s, HandBack) && t == Step(s, HandBack)
    ensures Counts(t) && |s.rcvd| < |s.sent| && t.sent == s.sent
  {
    var b := |s.rcvd|;
    RemNext(b, |s.slots|);
    assert SlotOk(s, b, At(s.slots, b));
    FilledSlotReads(s.sent[b], 3);
    assert t.rcvd == s.sent[..b] + [s.sent[b]] == s.sent[..b + 1];
  }

  lemma {:induction false} HandsBackSlots(s: State, t: State)
    requires Inv(s) && CanStep(s, HandBack) && t == Step(s, HandBack) && Counts(t)
    ensures Slots(t)
    ensures forall i: nat :: |s.rcvd| < i < |s.rcvd| + |s.slots| ==> At(t.slots, i) == At(s.slots, i)
    ensures Phase(At(t.slots, |s.rcvd| + |s.slots|).w0) == 1
  {
    var b := |s.rcvd|;
    AtUpdate(s.slots, b, b, t.slots[RecvAt(s)]);
    AtWraps(t.slots, b);
    forall i: nat | b < i <= b + |s.slots| ensures SlotOk(t, i, At(t.slots, i)) {
      if i < b + |s.slots| { assert SlotOk(s, i, At(s.slots, i)); }
    }
  }

  lemma {:induction false} HandsBack(s: State, t: State)
    requires Inv(s) && CanStep(s, HandBack) && t == Step(s, HandBack)
    ensures Inv(t)
  {
    HandsBackCounts(s, t);
    HandsBackSlots(s, t);
  }

  lemma {:induction false} StepInv(s: State, a: Action)
    requires Inv(s) && CanStep(s, a)
    ensures Inv(Step(s, a))
  {
    if a.Check? {
      SenderChecks(s, a, Step(s, a));
    } else if a.PutArg1? || a.PutArg2? || a.PutWord? {
      SenderFills(s, a, Step(s, a));
    } else if a.HandBack? {
      HandsBack(s, Step(s, a));
    } else {
      ReceiverLooks(s, a, Step(s, a));
    }
  }

  ghost predicate IsRun(tr: seq<State>, before: seq<Slot>) {
    && |tr| >= 1
    && Init(tr[0], before)
    && forall i :: 0 <= i < |tr| - 1 ==> Next(tr[i], tr[i + 1])
  }

  lemma {:induction false} RunInv(tr: seq<State>, before: seq<Slot>)
    requires IsRun(tr, before)
    ensures Inv(tr[|tr| - 1]) && |tr[|tr| - 1].slots| == |before|
    decreases |tr|
  {
    if |tr| > 1 {
      RunInv(tr[..|tr| - 1], before);
      var s := tr[|tr| - 2];
      assert Next(s, tr[|tr| - 2 + 1]);
      var a :| Shaped(s) && CanStep(s, a) && tr[|tr| - 1] == Step(s, a);
      StepInv(s, a);
    }
  }

  ghost function QueueOf(s: State): seq<Message>
    requires |s.rcvd| <= |s.sent|
  {
    s.sent[|s.rcvd|..]
  }

  /** What a step does to the queue: a finished USend appends the message it was given, a finished
      URecv takes the head, and nothing else shows. */
  ghost predicate QueueStep(s: State, a: Action, t: State, n: nat)
    requires |s.rcvd| <= |s.sent| && |t.rcvd| <= |t.sent|
  {
    var q := QueueOf(s);
    && (a.PutWord? ==> s.spc.SArg2? && |q| < n && QueueOf(t) == q + [s.spc.m])
    && (a.HandBack? ==> q != [] && QueueOf(t) == q[1..] && t.rcvd == s.rcvd + [q[0]])
    && (!a.PutWord? && !a.HandBack? ==> QueueOf(t) == q && t.rcvd == s.rcvd)
  }

  lemma {:induction false} StepsOnTheQueue(s: State, a: Action)
    requires Inv(s) && CanStep(s, a)
    ensures Inv(Step(s, a)) && QueueStep(s, a, Step(s, a), |s.slots|)
  {
    var t := Step(s, a);
    StepInv(s, a);
    if a.HandBack? {
      assert t.rcvd[|s.rcvd|] == t.sent[|s.rcvd|];
    }
  }

  /** Every reachable step of the ring is a step of a FIFO of capacity N, or changes nothing
      it shows, and a call is refused exactly when the FIFO is full or empty. */
  lemma {:induction false} RefinesBoundedFifo(tr: seq<State>, before: seq<Slot>, a: Action)
    requires IsRun(tr, before)
    ensures
      var s := tr[|tr| - 1];
      Inv(s) && |QueueOf(s)| <= |before|
      && (s.spc == SIdle && a.Check? && a.m.payload % 4 == 0 ==>
            (CanStep(s, a) <==> |QueueOf(s)| < |before|))
      && (s.rpc == RIdle && a.GetWord? ==> (CanStep(s, a) <==> QueueOf(s) != []))
      && (CanStep(s, a) ==> Inv(Step(s, a)) && QueueStep(s, a, Step(s, a), |before|))
  {
    RunInv(tr, before);
    var s := tr[|tr| - 1];
    PhaseTellsFill(s);
    if CanStep(s, a) {
      StepsOnTheQueue(s, a);
    }
  }
}
