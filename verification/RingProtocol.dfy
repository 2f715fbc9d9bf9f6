/** Two parties running Send and Receive over one slot array. Every slot access is a step
    of its own, so the parties interleave between any two of them; a party's cursors are
    private and move with its last access. */
module RingProtocol {
  import opened Basics
  import opened Remainders
  import opened Rings

  datatype Pc =
    | Idle
    | Sent1(m: Message)            // arg1 written
    | Sent2(m: Message)            // arg2 written
    | Got1(w0: U64)                // phase word read, and it was ours
    | Got2(w0: U64, a1: U64)       // arg1 read

  datatype Party = Party(h: Handle, pc: Pc, sent: seq<Message>, rcvd: seq<Message>)

  datatype Action = SendArg1(m: Message) | SendArg2 | SendWord | RecvWord | RecvArg1 | RecvArg2

  /** `odd` has ring type 1 and speaks first, `even` has type 0. */
  datatype State = State(slots: seq<Slot>, odd: Party, even: Party)

  predicate Sendable(m: Message) {
    m.payload % 4 == 0
  }

  ghost predicate Shaped(p: Party, slots: seq<Slot>) {
    && p.h.nslots == |slots| >= 1
    && p.h.typ < 2
    && -1 <= p.h.rd < |slots|
    && -1 <= p.h.wr < |slots|
  }

  ghost predicate CanStep(p: Party, slots: seq<Slot>, a: Action)
    requires Shaped(p, slots)
  {
    match a
    case SendArg1(m) => p.pc == Idle && p.h.wr >= 0 && Sendable(m)
    case SendArg2 => p.pc.Sent1? && p.h.wr >= 0
    case SendWord => p.pc.Sent2? && p.h.wr >= 0
    case RecvWord => p.pc == Idle && p.h.rd >= 0 && Phase(slots[p.h.rd].w0) == p.h.typ % 2
    case RecvArg1 => p.pc.Got1? && p.h.rd >= 0
    case RecvArg2 => p.pc.Got2? && p.h.rd >= 0
  }

  /** One access by one party: Send writes arg1, arg2, then the phase word; Receive reads
      the phase word, arg1, then arg2. */
  ghost function Step(p: Party, slots: seq<Slot>, a: Action): (r: (Party, seq<Slot>))
    requires Shaped(p, slots) && CanStep(p, slots, a)
    ensures |r.1| == |slots|
  {
    match a
    case SendArg1(m) =>
      (p.(pc := Sent1(m)), slots[p.h.wr := slots[p.h.wr].(a1 := m.arg1)])
    case SendArg2 =>
      (p.(pc := Sent2(p.pc.m)), slots[p.h.wr := slots[p.h.wr].(a2 := p.pc.m.arg2)])
    case SendWord =>
      (p.(pc := Idle, h := AfterSend(p.h), sent := p.sent + [p.pc.m]),
       slots[p.h.wr := slots[p.h.wr].(w0 := Word(p.pc.m.payload, p.h.typ))])
    case RecvWord =>
      (p.(pc := Got1(slots[p.h.rd].w0)), slots)
    case RecvArg1 =>
      (p.(pc := Got2(p.pc.w0, slots[p.h.rd].a1)), slots)
    case RecvArg2 =>
      var m := ReadSlot(Slot(p.pc.w0, p.pc.a1, slots[p.h.rd].a2));
      (p.(pc := Idle, h := AfterRecv(p.h), rcvd := p.rcvd + [m]), slots)
  }

  /** Three accesses with nobody in between are what Ring.Send does. */
  lemma {:induction false} SendIsThreeSteps(p: Party, slots: seq<Slot>, m: Message)
    requires Shaped(p, slots) && CanStep(p, slots, SendArg1(m))
    ensures
      var (p1, s1) := Step(p, slots, SendArg1(m));
      var (p2, s2) := Step(p1, s1, SendArg2);
      var (p3, s3) := Step(p2, s2, SendWord);
      p3.h == AfterSend(p.h) && p3.pc == Idle && s3 == slots[p.h.wr := FilledSlot(m, p.h.typ)]
  {
  }

  /** And likewise Ring.Recv. */
  lemma {:induction false} RecvIsThreeSteps(p: Party, slots: seq<Slot>)
    requires Shaped(p, slots) && CanStep(p, slots, RecvWord)
    ensures
      var (p1, s1) := Step(p, slots, RecvWord);
      var (p2, s2) := Step(p1, s1, RecvArg1);
      var (p3, s3) := Step(p2, s2, RecvArg2);
      p3.h == AfterRecv(p.h) && p3.rcvd == p.rcvd + [ReadSlot(slots[p.h.rd])] && s3 == slots
  {
  }

  ghost predicate Init(s: State, before: seq<Slot>) {
    && |before| >= 1
    && s.slots == InitSlots(before, 1)
    && s.odd == Party(InitHandle(|before|, 1), Idle, [], [])
    && s.even == Party(InitHandle(|before|, 0), Idle, [], [])
  }

  ghost predicate OddStep(s: State, a: Action, t: State) {
    && Shaped(s.odd, s.slots) && CanStep(s.odd, s.slots, a)
    && t == s.(odd := Step(s.odd, s.slots, a).0, slots := Step(s.odd, s.slots, a).1)
  }

  ghost predicate EvenStep(s: State, a: Action, t: State) {
    && Shaped(s.even, s.slots) && CanStep(s.even, s.slots, a)
    && t == s.(even := Step(s.even, s.slots, a).0, slots := Step(s.even, s.slots, a).1)
  }

  ghost predicate Next(s: State, t: State) {
    exists a: Action :: OddStep(s, a, t) || EvenStep(s, a, t)
  }

  // ---- the invariant ----------------------------------------------------------------

  /** replies received <= replies sent <= messages received <= messages sent <= window end */
  ghost predicate Counts(s: State) {
    && |s.slots| >= 1
    && |s.odd.rcvd| <= |s.even.sent| <= |s.even.rcvd| <= |s.odd.sent| <= |s.odd.rcvd| + |s.slots|
  }

  ghost predicate Handles(s: State) {
    && Counts(s)
    && s.odd.h.nslots == s.even.h.nslots == |s.slots|
    && s.odd.h.typ == 1 && s.even.h.typ == 0
    && Tracks(s.odd.h, |s.odd.sent|, |s.odd.rcvd|)
    && Tracks(s.even.h, |s.even.sent|, |s.even.rcvd|)
  }

  ghost predicate Logs(s: State)
    requires Counts(s)
  {
    && s.even.rcvd == s.odd.sent[..|s.even.rcvd|]
    && s.odd.rcvd == s.even.sent[..|s.odd.rcvd|]
    && (forall i :: 0 <= i < |s.odd.sent| ==> Sendable(s.odd.sent[i]))
    && (forall i :: 0 <= i < |s.even.sent| ==> Sendable(s.even.sent[i]))
  }

  ghost predicate SlotOk(s: State, i: nat, x: Slot)
    requires Counts(s) && |s.odd.rcvd| <= i < |s.odd.rcvd| + |s.slots|
  {
    if i < |s.even.sent| then x == FilledSlot(s.even.sent[i], 0)       // reply waiting
    else if i < |s.even.rcvd| then Phase(x.w0) == 0                    // held by even
    else if i < |s.odd.sent| then x == FilledSlot(s.odd.sent[i], 1)    // message waiting
    else Phase(x.w0) == 1                                              // free
  }

  ghost predicate Slots(s: State)
    requires Counts(s)
  {
    forall i: nat :: |s.odd.rcvd| <= i < |s.odd.rcvd| + |s.slots| ==> SlotOk(s, i, At(s.slots, i))
  }

  ghost predicate PcOk(p: Party, x: Slot, y: Slot, canSend: bool, canRecv: bool) {
    match p.pc
    case Idle => true
    case Sent1(m) => canSend && Sendable(m) && x.a1 == m.arg1
    case Sent2(m) => canSend && Sendable(m) && x.a1 == m.arg1 && x.a2 == m.arg2
    case Got1(w0) => canRecv && y.w0 == w0
    case Got2(w0, a1) => canRecv && y.w0 == w0 && y.a1 == a1
  }

  ghost predicate Pcs(s: State)
    requires Counts(s)
  {
    && PcOk(s.odd, At(s.slots, |s.odd.sent|), At(s.slots, |s.odd.rcvd|),
            |s.odd.sent| < |s.odd.rcvd| + |s.slots|, |s.odd.rcvd| < |s.even.sent|)
    && PcOk(s.even, At(s.slots, |s.even.sent|), At(s.slots, |s.even.rcvd|),
            |s.even.sent| < |s.even.rcvd|, |s.even.rcvd| < |s.odd.sent|)
  }

  ghost predicate Inv(s: State) {
    Handles(s) && Logs(s) && Slots(s) && Pcs(s)
  }

  lemma {:induction false} InitInv(s: State, before: seq<Slot>)
    requires Init(s, before)
    ensures Inv(s)
  {
  }

  /** Receive sees its phase exactly when something is waiting. */
  lemma {:induction false} PhaseMeansWaiting(s: State)
    requires Inv(s)
    ensures s.odd.h.rd >= 0 ==>
      (Phase(s.slots[s.odd.h.rd].w0) == 1 <==> |s.odd.rcvd| < |s.even.sent|)
    ensures s.even.h.rd >= 0 ==>
      (Phase(s.slots[s.even.h.rd].w0) == 0 <==> |s.even.rcvd| < |s.odd.sent|)
  {
    var b, r := |s.odd.rcvd|, |s.even.rcvd|;
    assert SlotOk(s, b, At(s.slots, b));
    if b < |s.even.sent| {
      FilledSlotReads(s.even.sent[b], 0);
    }
    if r < b + |s.slots| {
      assert SlotOk(s, r, At(s.slots, r));
      if r < |s.odd.sent| {
        FilledSlotReads(s.odd.sent[r], 1);
      }
    } else {
      AtWraps(s.slots, b);
    }
  }

  lemma {:induction false} OddSendArgs(s: State, a: Action, t: State)
    requires Inv(s) && OddStep(s, a, t) && (a.SendArg1? || a.SendArg2?)
    ensures Inv(t)
  {
    var b, n, k := |s.odd.rcvd|, |s.slots|, |s.odd.sent|;
    AtUpdate(s.slots, b, k, t.slots[s.odd.h.wr]);
    assert SlotOk(s, k, At(s.slots, k));
    forall i: nat | b <= i < b + n ensures SlotOk(t, i, At(t.slots, i)) {
      assert SlotOk(s, i, At(s.slots, i));
    }
  }

  lemma {:induction false} OddSendWordSlots(s: State, t: State)
    requires Inv(s) && OddStep(s, SendWord, t)
    ensures Counts(t) && |t.slots| == |s.slots| && Slots(t)
    ensures forall i: nat :: |s.odd.rcvd| <= i < |s.odd.rcvd| + |s.slots| && i != |s.odd.sent| ==> At(t.slots, i) == At(s.slots, i)
  {
    var b, n, k := |s.odd.rcvd|, |s.slots|, |s.odd.sent|;
    AtUpdate(s.slots, b, k, t.slots[s.odd.h.wr]);
    forall i: nat | b <= i < b + n ensures SlotOk(t, i, At(t.slots, i)) {
      assert SlotOk(s, i, At(s.slots, i));
    }
  }

  /** What sending adds to odd's account. */
  lemma {:induction false} OddAccount(s: State, t: State)
    requires Inv(s) && OddStep(s, SendWord, t)
    ensures t == s.(odd := t.odd, slots := t.slots) && t.odd.pc == Idle && t.odd.rcvd == s.odd.rcvd
    ensures t.odd.sent == s.odd.sent + [s.odd.pc.m] && Sendable(s.odd.pc.m) && t.odd.h == AfterSend(s.odd.h)
    ensures |s.odd.sent| < |s.odd.rcvd| + |s.slots|
  {
  }

  lemma {:induction false} OddSendWord(s: State, t: State)
    requires Inv(s) && OddStep(s, SendWord, t)
    ensures Inv(t)
  {
    OddWordCounts(s, t);
    OddSendWordSlots(s, t);
    OddWordKeepsEven(s, t);
  }

  lemma {:induction false} OddWordCounts(s: State, t: State)
    requires Inv(s) && OddStep(s, SendWord, t)
    ensures Handles(t) && Logs(t)
  {
    CursorsTrack(s.odd.h, |s.odd.sent|, |s.odd.rcvd|);
    OddAccount(s, t);
    LogsGrow(s.even.rcvd, s.odd.sent, s.odd.pc.m);
  }

  /** One message more, and what has been received is still a part of what was sent. */
  lemma {:induction false} LogsGrow(rcvd: seq<Message>, sent: seq<Message>, m: Message)
    requires |rcvd| <= |sent| && rcvd == sent[..|rcvd|]
    ensures rcvd == (sent + [m])[..|rcvd|]
  {
  }

  /** The slots even is at are not the one written. */
  lemma {:induction false} OddWordKeepsEven(s: State, t: State)
    requires Inv(s) && OddStep(s, SendWord, t)
    ensures Counts(t) && Pcs(t)
  {
    OddAccount(s, t);
    OddSendWordSlots(s, t);
  }

  lemma {:induction false} OddLooks(s: State, a: Action, t: State)
    requires Inv(s) && OddStep(s, a, t) && (a.RecvWord? || a.RecvArg1?)
    ensures Inv(t)
  {
    PhaseMeansWaiting(s);
    forall i: nat | |s.odd.rcvd| <= i < |s.odd.rcvd| + |s.slots| ensures SlotOk(t, i, At(t.slots, i)) {
      assert SlotOk(s, i, At(s.slots, i));
    }
  }

  /** What odd takes is the oldest reply, and its slot is free again. */
  lemma {:induction false} OddTakesReply(s: State, t: State)
    requires Inv(s) && OddStep(s, RecvArg2, t)
    ensures |s.odd.rcvd| < |s.even.sent| && t.odd.rcvd == s.odd.rcvd + [s.even.sent[|s.odd.rcvd|]]
    ensures t == s.(odd := t.odd) && t.odd.pc == Idle && t.odd.sent == s.odd.sent && t.odd.h == AfterRecv(s.odd.h)
    ensures Phase(At(s.slots, |s.odd.rcvd|).w0) == 1
  {
    var b := |s.odd.rcvd|;
    assert SlotOk(s, b, At(s.slots, b));
    FilledSlotReads(s.even.sent[b], 0);
  }

  lemma {:induction false} OddTakesSlots(s: State, t: State)
    requires Inv(s) && OddStep(s, RecvArg2, t) && Counts(t)
    ensures Slots(t)
  {
    var b, n := |s.odd.rcvd|, |s.slots|;
    OddTakesReply(s, t);
    AtWraps(s.slots, b);
    forall i: nat | b < i <= b + n ensures SlotOk(t, i, At(t.slots, i)) {
      if i < b + n { assert SlotOk(s, i, At(s.slots, i)); }
    }
  }

  lemma {:induction false} OddTakesLast(s: State, t: State)
    requires Inv(s) && OddStep(s, RecvArg2, t)
    ensures Inv(t)
  {
    OddTakesCounts(s, t);
    OddTakesSlots(s, t);
    OddTakesPcs(s, t);
  }

  lemma {:induction false} OddTakesCounts(s: State, t: State)
    requires Inv(s) && OddStep(s, RecvArg2, t)
    ensures Handles(t) && Logs(t)
  {
    CursorsTrack(s.odd.h, |s.odd.sent|, |s.odd.rcvd|);
    OddTakesReply(s, t);
    TakesNext(s.odd.rcvd, s.even.sent);
  }

  lemma {:induction false} OddTakesPcs(s: State, t: State)
    requires Inv(s) && OddStep(s, RecvArg2, t)
    ensures Counts(t) && Pcs(t)
  {
    OddTakesReply(s, t);
  }

  lemma {:induction false} EvenSendArgs(s: State, a: Action, t: State)
    requires Inv(s) && EvenStep(s, a, t) && (a.SendArg1? || a.SendArg2?)
    ensures Inv(t)
  {
    var b, n, k := |s.odd.rcvd|, |s.slots|, |s.even.sent|;
    AtUpdate(s.slots, b, k, t.slots[s.even.h.wr]);
    assert SlotOk(s, k, At(s.slots, k));
    forall i: nat | b <= i < b + n ensures SlotOk(t, i, At(t.slots, i)) {
      assert SlotOk(s, i, At(s.slots, i));
    }
  }

  lemma {:induction false} EvenSendWordSlots(s: State, t: State)
    requires Inv(s) && EvenStep(s, SendWord, t)
    ensures Counts(t) && |t.slots| == |s.slots| && Slots(t)
    ensures forall i: nat :: |s.odd.rcvd| <= i < |s.odd.rcvd| + |s.slots| && i != |s.even.sent| ==> At(t.slots, i) == At(s.slots, i)
  {
    var b, n, k := |s.odd.rcvd|, |s.slots|, |s.even.sent|;
    AtUpdate(s.slots, b, k, t.slots[s.even.h.wr]);
    forall i: nat | b <= i < b + n ensures SlotOk(t, i, At(t.slots, i)) {
      assert SlotOk(s, i, At(s.slots, i));
    }
  }

  /** What sending adds to even's account. */
  lemma {:induction false} EvenAccount(s: State, t: State)
    requires Inv(s) && EvenStep(s, SendWord, t)
    ensures t == s.(even := t.even, slots := t.slots) && t.even.pc == Idle && t.even.rcvd == s.even.rcvd
    ensures t.even.sent == s.even.sent + [s.even.pc.m] && Sendable(s.even.pc.m) && t.even.h == AfterSend(s.even.h)
    ensures |s.even.sent| < |s.even.rcvd|
  {
  }

  lemma {:induction false} EvenWordKeepsOdd(s: State, t: State)
    requires Inv(s) && EvenStep(s, SendWord, t)
    ensures Counts(t) && Pcs(t)
  {
    EvenAccount(s, t);
    EvenSendWordSlots(s, t);
  }

  lemma {:induction false} EvenSendWord(s: State, t: State)
    requires Inv(s) && EvenStep(s, SendWord, t)
    ensures Inv(t)
  {
    EvenWordCounts(s, t);
    EvenSendWordSlots(s, t);
    EvenWordKeepsOdd(s, t);
  }

  lemma {:induction false} EvenWordCounts(s: State, t: State)
    requires Inv(s) && EvenStep(s, SendWord, t)
    ensures Handles(t) && Logs(t)
  {
    CursorsTrack(s.even.h, |s.even.sent|, |s.even.rcvd|);
    EvenAccount(s, t);
    LogsGrow(s.odd.rcvd, s.even.sent, s.even.pc.m);
  }

  /** What even takes is the oldest message; the slot stays even's until the reply. */
  lemma {:induction false} EvenTakesMessage(s: State, t: State)
    requires Inv(s) && EvenStep(s, RecvArg2, t)
    ensures |s.even.rcvd| < |s.odd.sent| && t.even.rcvd == s.even.rcvd + [s.odd.sent[|s.even.rcvd|]]
    ensures t == s.(even := t.even) && t.even.pc == Idle && t.even.sent == s.even.sent && t.even.h == AfterRecv(s.even.h)
    ensures Phase(At(s.slots, |s.even.rcvd|).w0) == 0
  {
    var r := |s.even.rcvd|;
    assert SlotOk(s, r, At(s.slots, r));
    FilledSlotReads(s.odd.sent[r], 1);
  }

  lemma {:induction false} EvenTakesSlots(s: State, t: State)
    requires Inv(s) && EvenStep(s, RecvArg2, t)
    ensures Counts(t) && Slots(t)
  {
    var b, n := |s.odd.rcvd|, |s.slots|;
    EvenTakesMessage(s, t);
    forall i: nat | b <= i < b + n ensures SlotOk(t, i, At(t.slots, i)) {
      assert SlotOk(s, i, At(s.slots, i));
    }
  }

  lemma {:induction false} EvenTakesLast(s: State, t: State)
    requires Inv(s) && EvenStep(s, RecvArg2, t)
    ensures Inv(t)
  {
    EvenTakesCounts(s, t);
    EvenTakesSlots(s, t);
    EvenTakesPcs(s, t);
  }

  lemma {:induction false} EvenTakesCounts(s: State, t: State)
    requires Inv(s) && EvenStep(s, RecvArg2, t)
    ensures Handles(t) && Logs(t)
  {
    CursorsTrack(s.even.h, |s.even.sent|, |s.even.rcvd|);
    EvenTakesMessage(s, t);
    TakesNext(s.even.rcvd, s.odd.sent);
  }

  lemma {:induction false} EvenTakesPcs(s: State, t: State)
    requires Inv(s) && EvenStep(s, RecvArg2, t)
    ensures Counts(t) && Pcs(t)
  {
    EvenTakesMessage(s, t);
  }

  lemma {:induction false} TakesNext(rcvd: seq<Message>, sent: seq<Message>)
    requires |rcvd| < |sent| && rcvd == sent[..|rcvd|]
    ensures rcvd + [sent[|rcvd|]] == sent[..|rcvd| + 1]
  {
  }

  lemma {:induction false} EvenLooks(s: State, a: Action, t: State)
    requires Inv(s) && EvenStep(s, a, t) && (a.RecvWord? || a.RecvArg1?)
    ensures Inv(t)
  {
    PhaseMeansWaiting(s);
    forall i: nat | |s.odd.rcvd| <= i < |s.odd.rcvd| + |s.slots| ensures SlotOk(t, i, At(t.slots, i)) {
      assert SlotOk(s, i, At(s.slots, i));
    }
  }

  lemma {:induction false} StepInv(s: State, t: State)
    requires Inv(s) && Next(s, t)
    ensures Inv(t)
  {
    var a :| OddStep(s, a, t) || EvenStep(s, a, t);
    if OddStep(s, a, t) {
      match a
      case SendArg1(_) => OddSendArgs(s, a, t);
      case SendArg2 => OddSendArgs(s, a, t);
      case SendWord => OddSendWord(s, t);
      case RecvArg2 => OddTakesLast(s, t);
      case _ => OddLooks(s, a, t);
    } else {
      match a
      case SendArg1(_) => EvenSendArgs(s, a, t);
      case SendArg2 => EvenSendArgs(s, a, t);
      case SendWord => EvenSendWord(s, t);
      case RecvArg2 => EvenTakesLast(s, t);
      case _ => EvenLooks(s, a, t);
    }
  }

  // ---- what the two parties can rely on -----------------------------------------------

  ghost predicate IsRun(tr: seq<State>, before: seq<Slot>) {
    && |tr| >= 1
    && Init(tr[0], before)
    && forall i :: 0 <= i < |tr| - 1 ==> Next(tr[i], tr[i + 1])
  }

  lemma {:induction false} RunInv(tr: seq<State>, before: seq<Slot>)
    requires IsRun(tr, before)
    ensures Inv(tr[|tr| - 1])
    decreases |tr|
  {
    if |tr| == 1 {
      InitInv(tr[0], before);
    } else {
      var prev := tr[..|tr| - 1];
      RunInv(prev, before);
      assert Next(tr[|tr| - 2], tr[|tr| - 2 + 1]);
      StepInv(prev[|prev| - 1], tr[|tr| - 1]);
    }
  }

  /** In every reachable state: each side has received a prefix of what the other sent,
      unaltered and in order, at most N messages are outstanding, and the sentinels say
      exactly when nothing or everything is. */
  lemma {:induction false} TwoPartySafety(tr: seq<State>, before: seq<Slot>)
    requires IsRun(tr, before)
    ensures
      var s, n := tr[|tr| - 1], |before|;
      && s.even.rcvd <= s.odd.sent
      && s.odd.rcvd <= s.even.sent
      && |s.even.sent| <= |s.even.rcvd|
      && |s.odd.sent| - |s.odd.rcvd| <= n
      && (s.odd.h.rd == -1 <==> |s.odd.sent| == |s.odd.rcvd|)
      && (s.odd.h.wr == -1 <==> |s.odd.sent| - |s.odd.rcvd| == n)
      && (s.even.h.wr == -1 <==> |s.even.rcvd| == |s.even.sent|)
      && (s.even.h.rd == -1 <==> |s.even.rcvd| - |s.even.sent| == n)
  {
    RunInv(tr, before);
    SlotCount(tr, before);
  }

  lemma {:induction false} SlotCount(tr: seq<State>, before: seq<Slot>)
    requires IsRun(tr, before)
    ensures |tr[|tr| - 1].slots| == |before|
    decreases |tr|
  {
    if |tr| > 1 {
      SlotCount(tr[..|tr| - 1], before);
      assert Next(tr[|tr| - 2], tr[|tr| - 2 + 1]);
    }
  }

  /** No step changes a slot holding something its receiver has not taken yet. */
  lemma {:induction false} NoUnreadSlotIsOverwritten(s: State, t: State, i: nat)
    requires Inv(s) && Next(s, t)
    requires |s.odd.rcvd| <= i < |s.even.sent| || |s.even.rcvd| <= i < |s.odd.sent|
    ensures At(t.slots, i) == At(s.slots, i)
  {
    var a :| OddStep(s, a, t) || EvenStep(s, a, t);
    if OddStep(s, a, t) {
      OddWritesOne(s, a, t, i);
    } else {
      EvenWritesOne(s, a, t, i);
    }
  }

  lemma {:induction false} OddWritesOne(s: State, a: Action, t: State, i: nat)
    requires Inv(s) && OddStep(s, a, t)
    requires |s.odd.rcvd| <= i < |s.even.sent| || |s.even.rcvd| <= i < |s.odd.sent|
    ensures At(t.slots, i) == At(s.slots, i)
  {
    if a.SendArg1? || a.SendArg2? || a.SendWord? {
      AtUpdate(s.slots, |s.odd.rcvd|, |s.odd.sent|, t.slots[s.odd.h.wr]);
    }
  }

  lemma {:induction false} EvenWritesOne(s: State, a: Action, t: State, i: nat)
    requires Inv(s) && EvenStep(s, a, t)
    requires |s.odd.rcvd| <= i < |s.even.sent| || |s.even.rcvd| <= i < |s.odd.sent|
    ensures At(t.slots, i) == At(s.slots, i)
  {
    if a.SendArg1? || a.SendArg2? || a.SendWord? {
      AtUpdate(s.slots, |s.odd.rcvd|, |s.even.sent|, t.slots[s.even.h.wr]);
    }
  }

  /** Two FIFOs drawing on one pool of credits: requests under way, messages the even side
      holds, replies under way. */
  datatype Queues = Queues(reqs: seq<Message>, held: nat, reps: seq<Message>)

  datatype Event =
    | Silent
    | OddSends(m: Message) | EvenTakes(m: Message)
    | EvenSends(m: Message) | OddTakes(m: Message)

  ghost predicate QueueStep(n: nat, x: Queues, e: Event, y: Queues) {
    match e
    case Silent => y == x
    case OddSends(m) => |x.reqs| + x.held + |x.reps| < n && y == x.(reqs := x.reqs + [m])
    case EvenTakes(m) => x.reqs != [] && m == x.reqs[0] && y == x.(reqs := x.reqs[1..], held := x.held + 1)
    case EvenSends(m) => x.held > 0 && y == x.(held := x.held - 1, reps := x.reps + [m])
    case OddTakes(m) => x.reps != [] && m == x.reps[0] && y == x.(reps := x.reps[1..])
  }

  ghost function QueuesOf(s: State): Queues
    requires Counts(s)
  {
    Queues(s.odd.sent[|s.even.rcvd|..], |s.even.rcvd| - |s.even.sent|, s.even.sent[|s.odd.rcvd|..])
  }

  /** The call that the access completes, with the message Send was given or Receive
      returned. */
  ghost function EventOf(s: State, odd: bool, a: Action, t: State): Event
    requires if odd then OddStep(s, a, t) else EvenStep(s, a, t)
  {
    match a
    case SendWord => if odd then OddSends(s.odd.pc.m) else EvenSends(s.even.pc.m)
    case RecvArg2 =>
      if odd then OddTakes(t.odd.rcvd[|t.odd.rcvd| - 1]) else EvenTakes(t.even.rcvd[|t.even.rcvd| - 1])
    case _ => Silent
  }

  ghost predicate Accounts(s: State) {
    Counts(s) && Logs(s)
  }

  lemma {:induction false} SendRefines(s: State, odd: bool, t: State)
    requires Accounts(s) && Accounts(t) && if odd then OddStep(s, SendWord, t) else EvenStep(s, SendWord, t)
    ensures QueueStep(|s.slots|, QueuesOf(s), EventOf(s, odd, SendWord, t), QueuesOf(t))
  {
    var x, y := QueuesOf(s), QueuesOf(t);
    if odd {
      assert y.reqs == x.reqs + [s.odd.pc.m];
    } else {
      assert y.reps == x.reps + [s.even.pc.m];
    }
  }

  lemma {:induction false} TakeRefines(s: State, odd: bool, t: State)
    requires Accounts(s) && Accounts(t) && if odd then OddStep(s, RecvArg2, t) else EvenStep(s, RecvArg2, t)
    ensures QueueStep(|s.slots|, QueuesOf(s), EventOf(s, odd, RecvArg2, t), QueuesOf(t))
  {
    var x, y := QueuesOf(s), QueuesOf(t);
    if odd {
      assert y.reps == x.reps[1..];
      assert t.odd.rcvd[|s.odd.rcvd|] == s.even.sent[|s.odd.rcvd|] == x.reps[0];
    } else {
      assert y.reqs == x.reqs[1..];
      assert t.even.rcvd[|s.even.rcvd|] == s.odd.sent[|s.even.rcvd|] == x.reqs[0];
    }
  }

  lemma {:induction false} StepRefines(s: State, odd: bool, a: Action, t: State)
    requires Accounts(s) && Accounts(t) && if odd then OddStep(s, a, t) else EvenStep(s, a, t)
    ensures QueueStep(|s.slots|, QueuesOf(s), EventOf(s, odd, a, t), QueuesOf(t))
  {
    match a
    case SendWord => SendRefines(s, odd, t);
    case RecvArg2 => TakeRefines(s, odd, t);
    case _ =>
  }

  /** The ring refines the pair of FIFOs sharing N credits. */
  lemma {:induction false} RefinesSharedCredits(s: State, odd: bool, a: Action, t: State)
    requires Inv(s) && if odd then OddStep(s, a, t) else EvenStep(s, a, t)
    ensures Inv(t) && QueueStep(|s.slots|, QueuesOf(s), EventOf(s, odd, a, t), QueuesOf(t))
  {
    assert Next(s, t);
    StepInv(s, t);
    StepRefines(s, odd, a, t);
  }

  /** Send fails exactly when the credits are used up and Receive exactly when its queue is
      empty; a call that has begun can always finish. */
  lemma {:induction false} CallsSucceedExactlyWhen(s: State, m: Message)
    requires Inv(s) && Sendable(m)
    ensures
      var q := QueuesOf(s);
      && (s.odd.pc == Idle ==>
            (CanStep(s.odd, s.slots, SendArg1(m)) <==> |q.reqs| + q.held + |q.reps| < |s.slots|))
      && (s.odd.pc == Idle ==> (CanStep(s.odd, s.slots, RecvWord) <==> q.reps != []))
      && (s.even.pc == Idle ==> (CanStep(s.even, s.slots, SendArg1(m)) <==> q.held > 0))
      && (s.even.pc == Idle ==> (CanStep(s.even, s.slots, RecvWord) <==> q.reqs != []))
    ensures s.odd.pc != Idle ==>
      exists a: Action :: Shaped(s.odd, s.slots) && CanStep(s.odd, s.slots, a)
    ensures s.even.pc != Idle ==>
      exists a: Action :: Shaped(s.even, s.slots) && CanStep(s.even, s.slots, a)
  {
    PhaseMeansWaiting(s);
    if s.odd.pc != Idle {
      assert CanStep(s.odd, s.slots, Pending(s.odd.pc));
    }
    if s.even.pc != Idle {
      assert CanStep(s.even, s.slots, Pending(s.even.pc));
    }
  }

  ghost function Pending(pc: Pc): Action
    requires pc != Idle
  {
    match pc
    case Sent1(_) => SendArg2
    case Sent2(_) => SendWord
    case Got1(_) => RecvArg1
    case Got2(_, _) => RecvArg2
  }
}
