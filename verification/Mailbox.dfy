/** The boot mailbox: the interrupt handler of ave_drv.c and the polling receiver of
    ave_ipc.c take turns, under one lock, at a write-1-to-clear status register and four
    scratch words, while the firmware converses in lock step. Every register access is a step
    of its own. Status bit 0 is the mailbox until the host flips `ipcUp`, and a channel
    doorbell after the firmware has seen the ready flag. */
module Mailbox {
  import opened Basics

  const MAGIC: U32 := 0x0804_2006
  const WORDS: nat := 4

  /** enum ave_boot_phase */
  datatype Phase = Idle | ArgsWritten | Msg1 | ReadyPhase | FailedPhase

  function Rank(p: Phase): nat {
    match p
    case Idle => 0
    case ArgsWritten => 1
    case Msg1 => 2
    case ReadyPhase => 3
    case FailedPhase => 4
  }

  /** The handshake thread. In Clear and Read it holds the lock. */
  datatype Host =
    | Args(k: nat)                       // boot_config: k of the three boot arguments written
    | Recv(n: nat)                       // waiting for the n-th message of the firmware
    | Clear(n: nat)                      // it has seen bit 0
    | Read(n: nat, acc: seq<U32>)        // it has cleared bit 0 and reads the words
    | Send(n: nat, k: nat)               // k words of its n-th message written
    | Flip                               // all three messages are in
    | Flag                               // ipcUp is set, the ready flag is not written yet
    | Poll                               // waiting for the firmware to clear it
    | Ready
    | Failed

  /** The interrupt handler; it holds the lock unless Quiet. */
  datatype Irq =
    | Quiet
    | Capture(st: set<nat>, acc: seq<U32>)
    | Ack(st: set<nat>)                  // about to write back what it read

  datatype Firmware =
    | Off
    | Compose(n: nat, k: nat)            // k words of its n-th message written
    | Await(n: nat)                      // it has sent that message and wants the host's
    | AwaitFlag
    | Live

  /** msgs: what the firmware has to say (messages 1, 3 and 5). delivered: what the receiver
      returned, in order. heard: what the firmware read of the host's. dispatched: the status
      words handed to the channel dispatcher. */
  datatype State = State(
    status: set<nat>, scratch: seq<U32>, bell: bool, flag: bool,
    ipcUp: bool, pending: bool, mbox: seq<U32>, phase: Phase, msg1: seq<U32>,
    host: Host, irq: Irq, fw: Firmware,
    msgs: seq<seq<U32>>, replies: seq<seq<U32>>, delivered: seq<seq<U32>>, heard: seq<seq<U32>>,
    dispatched: seq<set<nat>>)

  predicate Wf(s: State) {
    && |s.scratch| == WORDS && |s.msgs| == 3 && |s.replies| == 2
    && (forall i :: 0 <= i < 3 ==> |s.msgs[i]| == WORDS)
    && (forall i :: 0 <= i < 2 ==> |s.replies[i]| == WORDS)
  }

  predicate HostLocks(s: State) {
    s.host.Clear? || s.host.Read?
  }

  // ---- the handshake thread -----------------------------------------------------------

  /** The receiver has message m in its hands: the rest of ave_recv_iop_msg. */
  function Got(s: State, n: nat, m: seq<U32>): State {
    var t := s.(delivered := s.delivered + [m], host := if n < 2 then Send(n, 0) else Flip);
    if s.phase == ArgsWritten then t.(phase := Msg1, msg1 := m) else t
  }

  ghost predicate HostStep(s: State, t: State)
    requires Wf(s)
  {
    match s.host
    case Args(k) =>
      if k < 3 then exists v: U32 :: WritesArgument(s, k, v, t)
      else t == s.(host := Recv(0), fw := Compose(0, 0))
    case Recv(n) =>
      || (s.irq.Quiet? && t ==
            if s.pending then Got(s.(pending := false), n, s.mbox)
            else if 0 in s.status then s.(host := Clear(n)) else s)
      || t == Fail(s)
    case Clear(n) => t == s.(status := s.status - {0}, host := Read(n, []))
    case Read(n, acc) =>
      if |acc| < WORDS then t == s.(host := Read(n, acc + [s.scratch[|acc|]])) else t == Got(s, n, acc)
    case Send(n, k) =>
      || (n < 2 && k < WORDS && t == s.(scratch := s.scratch[k := s.replies[n][k]], host := Send(n, k + 1)))
      || (k == WORDS && t == s.(bell := true, host := Recv(n + 1)))
      || t == Fail(s)
    case Flip => (s.irq.Quiet? && t == s.(ipcUp := true, pending := false, host := Flag)) || t == Fail(s)
    case Flag => t == s.(scratch := s.scratch[3 := MAGIC], flag := true, host := Poll)
    case Poll => (s.scratch[3] == 0 && s.irq.Quiet? && t == s.(phase := ReadyPhase, host := Ready)) || t == Fail(s)
    case Ready => t == s
    case Failed => t == s
  }

  ghost predicate WritesArgument(s: State, k: nat, v: U32, t: State)
    requires Wf(s) && k < 3
  {
    t == s.(scratch := s.scratch[k := v], host := Args(k + 1))
  }

  /** A timeout, a rejected message, no memory. Taken under the lock, so while the handler is
      quiet. */
  function Fail(s: State): State {
    if s.irq.Quiet? then s.(ipcUp := false, phase := FailedPhase, host := Failed) else s
  }

  // ---- the interrupt handler ----------------------------------------------------------

  ghost predicate IrqStep(s: State, t: State)
    requires Wf(s)
  {
    match s.irq
    case Quiet =>
      && !HostLocks(s)
      && t ==
         if s.status == {} then s
         else if !s.ipcUp && 0 in s.status then s.(irq := Capture(s.status, []))
         else s.(irq := Ack(s.status))
    case Capture(st, acc) =>
      t == if |acc| < WORDS then s.(irq := Capture(st, acc + [s.scratch[|acc|]]))
           else s.(irq := Ack(st), mbox := acc, pending := true)
    case Ack(st) =>
      t == s.(status := s.status - st, irq := Quiet,
              dispatched := if s.ipcUp then s.dispatched + [st] else s.dispatched)
  }

  // ---- the firmware -------------------------------------------------------------------

  ghost predicate FirmwareStep(s: State, t: State)
    requires Wf(s)
  {
    || (exists b: nat :: (b > 0 || s.fw == Live) && Raises(s, b, t))
    || match s.fw
       case Off => t == s
       case Compose(n, k) =>
         && n < 3
         && t == if k < WORDS then s.(scratch := s.scratch[k := s.msgs[n][k]], fw := Compose(n, k + 1))
                 else s.(status := s.status + {0}, fw := if n < 2 then Await(n) else AwaitFlag)
       case Await(n) =>
         t == if s.bell then s.(bell := false, heard := s.heard + [s.scratch], fw := Compose(n + 1, 0)) else s
       case AwaitFlag =>
         t == if s.flag then s.(scratch := s.scratch[3 := 0], flag := false, fw := Live) else s
       case Live => t == s
  }

  /** Any bit but the mailbox's at any time, and any at all once the rings are live. */
  ghost predicate Raises(s: State, b: nat, t: State) {
    t == s.(status := s.status + {b})
  }

  /** After ave_boot_config's reset, the core not started yet. */
  ghost predicate Init(s: State) {
    && Wf(s)
    && 0 !in s.status && !s.bell && !s.flag && !s.ipcUp && !s.pending && s.phase == ArgsWritten
    && s.host == Args(0) && s.irq == Quiet && s.fw == Off
    && s.delivered == [] && s.heard == [] && s.dispatched == []
  }

  ghost predicate Next(s: State, t: State)
    requires Wf(s)
  {
    HostStep(s, t) || IrqStep(s, t) || FirmwareStep(s, t)
  }

  // ---- the invariant ------------------------------------------------------------------

  /** acc are the first words of m. */
  predicate Reading(acc: seq<U32>, m: seq<U32>) {
    acc <= m
  }

  /** No message is under way. */
  predicate NoMessage(s: State) {
    0 !in s.status && !s.pending && IrqIdle(s)
  }

  /** The handler, if it runs, has not seen bit 0. */
  predicate IrqIdle(s: State) {
    s.irq.Quiet? || (s.irq.Ack? && 0 !in s.irq.st)
  }

  /** Message m is under way to the receiver, in exactly one place: the register, the handler's
      hands, or the driver's mailbox. */
  predicate UnderWay(s: State, m: seq<U32>) {
    match s.irq
    case Capture(st, acc) => 0 in st && 0 in s.status && !s.pending && s.scratch == m && Reading(acc, m)
    case Ack(st) =>
      if 0 in st then 0 in s.status && s.pending && s.mbox == m
      else InOnePlace(s, m)
    case Quiet => InOnePlace(s, m)
  }

  predicate InOnePlace(s: State, m: seq<U32>) {
    if s.pending then 0 !in s.status && s.mbox == m else 0 in s.status && s.scratch == m
  }

  /** The firmware has sent message n, and the host has not answered it. */
  predicate SentBy(fw: Firmware, n: nat) {
    fw == if n < 2 then Await(n) else AwaitFlag
  }

  predicate ComposingBy(s: State, n: nat)
    requires Wf(s)
  {
    && s.fw.Compose? && s.fw.n == n && s.fw.k <= WORDS
    && n < 3 && s.scratch[..s.fw.k] == s.msgs[n][..s.fw.k]
  }

  predicate Answered(s: State, n: nat)
    requires Wf(s)
  {
    0 < n < 3 && s.fw == Await(n - 1) && s.bell && s.scratch == s.replies[n - 1]
  }

  predicate Delivered(s: State, n: nat)
    requires Wf(s)
  {
    n <= 3 && s.delivered == s.msgs[..n]
  }

  predicate Heard(s: State, n: nat)
    requires Wf(s)
  {
    n <= 2 && s.heard == s.replies[..n]
  }

  predicate PhaseOk(s: State, n: nat)
    requires Wf(s)
  {
    && s.phase == (if n == 0 then ArgsWritten else Msg1)
    && (n > 0 ==> s.msg1 == s.msgs[0])
  }

  /** The handshake before the flip: n messages received, m answers read by the firmware. */
  predicate Before(s: State, n: nat, m: nat)
    requires Wf(s)
  {
    !s.ipcUp && !s.flag && Delivered(s, n) && Heard(s, m) && PhaseOk(s, n)
  }

  predicate HostOk(s: State)
    requires Wf(s)
  {
    match s.host
    case Args(k) => k <= 3 && s.fw == Off && !s.bell && Before(s, 0, 0) && NoMessage(s)
    case Recv(n) =>
      && n < 3
      && (|| (Answered(s, n) && Before(s, n, n - 1) && NoMessage(s))
          || (ComposingBy(s, n) && !s.bell && Before(s, n, n) && NoMessage(s))
          || (SentBy(s.fw, n) && !s.bell && Before(s, n, n) && UnderWay(s, s.msgs[n])))
    case Clear(n) =>
      && n < 3 && SentBy(s.fw, n) && !s.bell && Before(s, n, n)
      && s.irq == Quiet && !s.pending && 0 in s.status && s.scratch == s.msgs[n]
    case Read(n, acc) =>
      && n < 3 && SentBy(s.fw, n) && !s.bell && Before(s, n, n)
      && s.irq == Quiet && !s.pending && 0 !in s.status && s.scratch == s.msgs[n] && Reading(acc, s.msgs[n])
    case Send(n, k) =>
      && n < 2 && k <= WORDS && SentBy(s.fw, n) && !s.bell && Before(s, n + 1, n) && NoMessage(s)
      && s.scratch[..k] == s.replies[n][..k]
    case Flip => s.fw == AwaitFlag && !s.bell && Before(s, 3, 2) && NoMessage(s)
    case Flag => s.fw == AwaitFlag && !s.flag && Up(s)
    case Poll => Up(s) && ((s.fw == AwaitFlag && s.flag && s.scratch[3] == MAGIC) || (s.fw == Live && s.scratch[3] == 0))
    case Ready => s.ipcUp && !s.pending && !s.irq.Capture? && s.fw == Live && Delivered(s, 3) && Heard(s, 2)
      && s.phase == ReadyPhase && s.msg1 == s.msgs[0]
    case Failed => s.phase == FailedPhase && !s.ipcUp && s.delivered <= s.msgs
  }

  predicate Up(s: State)
    requires Wf(s)
  {
    s.ipcUp && !s.pending && !s.irq.Capture? && Delivered(s, 3) && Heard(s, 2) && PhaseOk(s, 3)
  }

  /** Under the lock nobody else clears a bit: all the handler has read is still set. */
  predicate IrqOk(s: State) {
    match s.irq
    case Quiet => true
    case Capture(st, acc) => st <= s.status && |acc| <= WORDS && !HostLocks(s)
    case Ack(st) => st <= s.status && !HostLocks(s)
  }

  predicate Inv(s: State) {
    Wf(s) && HostOk(s) && IrqOk(s)
  }

  lemma {:induction false} InitInv(s: State)
    requires Init(s)
    ensures Inv(s)
  {
  }

  lemma {:induction false} FailInv(s: State)
    requires Inv(s) && (s.host.Recv? || s.host.Send? || s.host.Flip? || s.host.Poll?)
    ensures Inv(Fail(s))
  {
  }

  lemma {:induction false} GotInv(s: State, n: nat, m: seq<U32>)
    requires Wf(s) && n < 3 && SentBy(s.fw, n) && !s.bell && Before(s, n, n) && NoMessage(s) && m == s.msgs[n] && s.irq.Quiet?
    ensures Inv(Got(s, n, m))
  {
    assert s.msgs[..n + 1] == s.msgs[..n] + [s.msgs[n]];
  }

  lemma {:induction false} ReceiveInv(s: State, t: State)
    requires Inv(s) && HostStep(s, t) && s.host.Recv?
    ensures Inv(t)
  {
    FailInv(s);
    if s.irq.Quiet? && s.pending {
      GotInv(s.(pending := false), s.host.n, s.mbox);
    }
  }

  lemma {:induction false} ReadInv(s: State, t: State)
    requires Inv(s) && HostStep(s, t) && (s.host.Clear? || s.host.Read?)
    ensures Inv(t)
  {
    if s.host.Read? {
      var n, acc := s.host.n, s.host.acc;
      if |acc| == WORDS {
        GotInv(s, n, acc);
      }
    }
  }

  lemma {:induction false} SendInv(s: State, t: State)
    requires Inv(s) && HostStep(s, t) && s.host.Send?
    ensures Inv(t)
  {
    FailInv(s);
    var n, k := s.host.n, s.host.k;
    if k < WORDS {
      assert s.replies[n][..k + 1] == s.replies[n][..k] + [s.replies[n][k]];
    }
  }

  lemma {:induction false} ComeUpInv(s: State, t: State)
    requires Inv(s) && HostStep(s, t)
    requires s.host.Args? || s.host.Flip? || s.host.Flag? || s.host.Poll? || s.host.Ready? || s.host.Failed?
    ensures Inv(t)
  {
    if s.host.Flip? || s.host.Poll? {
      FailInv(s);
    }
  }

  lemma {:induction false} HostInv(s: State, t: State)
    requires Inv(s) && HostStep(s, t)
    ensures Inv(t)
  {
    match s.host
    case Recv(_) => ReceiveInv(s, t);
    case Clear(_) => ReadInv(s, t);
    case Read(_, _) => ReadInv(s, t);
    case Send(_, _) => SendInv(s, t);
    case _ => ComeUpInv(s, t);
  }

  lemma {:induction false} StartsCapture(s: State)
    requires Inv(s) && s.irq.Quiet? && !HostLocks(s) && !s.ipcUp && 0 in s.status
    ensures Inv(s.(irq := Capture(s.status, [])))
  {
  }

  lemma {:induction false} StartsAck(s: State)
    requires Inv(s) && s.irq.Quiet? && !HostLocks(s) && (s.ipcUp || 0 !in s.status)
    ensures Inv(s.(irq := Ack(s.status)))
  {
  }

  lemma {:induction false} IrqEnters(s: State, t: State)
    requires Inv(s) && IrqStep(s, t) && s.irq.Quiet?
    ensures Inv(t)
  {
    if !s.ipcUp && 0 in s.status {
      StartsCapture(s);
    } else {
      StartsAck(s);
    }
  }

  lemma {:induction false} IrqCaptures(s: State, t: State)
    requires Inv(s) && IrqStep(s, t) && s.irq.Capture?
    ensures Inv(t)
  {
  }

  lemma {:induction false} IrqAcks(s: State, t: State)
    requires Inv(s) && IrqStep(s, t) && s.irq.Ack?
    ensures Inv(t)
  {
  }

  lemma {:induction false} RaiseInv(s: State, b: nat)
    requires Inv(s) && (b > 0 || s.fw == Live)
    ensures Inv(s.(status := s.status + {b}))
  {
  }

  lemma {:induction false} ComposeInv(s: State, t: State)
    requires Inv(s) && s.fw.Compose? && s.fw.n < 3
    requires t == if s.fw.k < WORDS then s.(scratch := s.scratch[s.fw.k := s.msgs[s.fw.n][s.fw.k]], fw := Compose(s.fw.n, s.fw.k + 1))
                  else s.(status := s.status + {0}, fw := if s.fw.n < 2 then Await(s.fw.n) else AwaitFlag)
    ensures Inv(t)
  {
    var n, k := s.fw.n, s.fw.k;
    if k < WORDS {
      assert s.msgs[n][..k + 1] == s.msgs[n][..k] + [s.msgs[n][k]];
    }
  }

  lemma {:induction false} HearInv(s: State, t: State)
    requires Inv(s) && s.fw.Await? && s.bell
    requires t == s.(bell := false, heard := s.heard + [s.scratch], fw := Compose(s.fw.n + 1, 0))
    ensures Inv(t)
  {
    var n := s.fw.n;
    if n < 2 {
      assert s.replies[..n + 1] == s.replies[..n] + [s.replies[n]];
    }
  }

  lemma {:induction false} SeesFlagInv(s: State, t: State)
    requires Inv(s) && s.fw == AwaitFlag && s.flag
    requires t == s.(scratch := s.scratch[3 := 0], flag := false, fw := Live)
    ensures Inv(t)
  {
  }

  lemma {:induction false} FirmwareInv(s: State, t: State)
    requires Inv(s) && FirmwareStep(s, t)
    ensures Inv(t)
  {
    if b: nat :| (b > 0 || s.fw == Live) && Raises(s, b, t) {
      RaiseInv(s, b);
    } else if s.fw.Compose? {
      ComposeInv(s, t);
    } else if s.fw.Await? && s.bell {
      HearInv(s, t);
    } else if s.fw.AwaitFlag? && s.flag {
      SeesFlagInv(s, t);
    }
  }

  lemma {:induction false} StepInv(s: State, t: State)
    requires Inv(s) && Next(s, t)
    ensures Inv(t)
  {
    if HostStep(s, t) {
      HostInv(s, t);
    } else if IrqStep(s, t) {
      match s.irq
      case Quiet => IrqEnters(s, t);
      case Capture(_, _) => IrqCaptures(s, t);
      case Ack(_) => IrqAcks(s, t);
    } else {
      FirmwareInv(s, t);
    }
  }

  // ---- what every run guarantees ------------------------------------------------------

  ghost predicate IsRun(tr: seq<State>) {
    && |tr| >= 1 && Init(tr[0])
    && forall i :: 0 <= i < |tr| - 1 ==> Wf(tr[i]) && Next(tr[i], tr[i + 1])
  }

  lemma {:induction false} ReceiverKeepsTalk(s: State, t: State)
    requires Wf(s) && HostStep(s, t) && (s.host.Args? || s.host.Recv? || s.host.Clear? || s.host.Read?)
    ensures t.msgs == s.msgs && t.replies == s.replies
  {
  }

  lemma {:induction false} SenderKeepsTalk(s: State, t: State)
    requires Wf(s) && HostStep(s, t) && !s.host.Args? && !s.host.Recv? && !s.host.Clear? && !s.host.Read?
    ensures t.msgs == s.msgs && t.replies == s.replies
  {
  }

  lemma {:induction false} HostKeepsTalk(s: State, t: State)
    requires Wf(s) && HostStep(s, t)
    ensures t.msgs == s.msgs && t.replies == s.replies
  {
    if s.host.Args? || s.host.Recv? || s.host.Clear? || s.host.Read? {
      ReceiverKeepsTalk(s, t);
    } else {
      SenderKeepsTalk(s, t);
    }
  }

  lemma {:induction false} HostMovesForward(s: State, t: State)
    requires Inv(s) && HostStep(s, t)
    ensures Rank(s.phase) <= Rank(t.phase)
  {
  }

  lemma {:induction false} HostKeeps(s: State, t: State)
    requires Inv(s) && HostStep(s, t)
    ensures t.msgs == s.msgs && t.replies == s.replies && Rank(s.phase) <= Rank(t.phase)
  {
    HostKeepsTalk(s, t);
    HostMovesForward(s, t);
  }

  lemma {:induction false} IrqKeeps(s: State, t: State)
    requires Wf(s) && IrqStep(s, t)
    ensures t.msgs == s.msgs && t.replies == s.replies && t.phase == s.phase && t.host == s.host && t.fw == s.fw
  {
  }

  lemma {:induction false} FirmwareKeeps(s: State, t: State)
    requires Wf(s) && FirmwareStep(s, t)
    ensures t.msgs == s.msgs && t.replies == s.replies && t.phase == s.phase && t.host == s.host && t.irq == s.irq
    ensures s.status <= t.status
  {
  }

  lemma {:induction false} OthersKeep(s: State, t: State)
    requires Wf(s) && (IrqStep(s, t) || FirmwareStep(s, t))
    ensures t.msgs == s.msgs && t.replies == s.replies && t.phase == s.phase
  {
    if IrqStep(s, t) {
      IrqKeeps(s, t);
    } else {
      FirmwareKeeps(s, t);
    }
  }

  lemma {:induction false} KeepsTalk(s: State, t: State)
    requires Inv(s) && Next(s, t)
    ensures Inv(t) && t.msgs == s.msgs && t.replies == s.replies
  {
    StepInv(s, t);
    if HostStep(s, t) {
      HostKeeps(s, t);
    } else {
      OthersKeep(s, t);
    }
  }

  lemma {:induction false} RunInv(tr: seq<State>)
    requires IsRun(tr)
    ensures Inv(tr[|tr| - 1])
    ensures tr[|tr| - 1].msgs == tr[0].msgs && tr[|tr| - 1].replies == tr[0].replies
    decreases |tr|
  {
    if |tr| > 1 {
      RunInv(tr[..|tr| - 1]);
      assert Next(tr[|tr| - 2], tr[|tr| - 2 + 1]);
      KeepsTalk(tr[|tr| - 2], tr[|tr| - 1]);
    }
  }

  /** However the handler, the receiver and the firmware interleave: messages 1, 3 and 5 are
      received once each and in order, all three before the flip, the firmware hears the
      host's two in order, and no doorbell is ever taken for a message once ipcUp is set. */
  lemma {:induction false} ExactlyOnce(tr: seq<State>)
    requires IsRun(tr)
    ensures
      var s := tr[|tr| - 1];
      && s.delivered <= tr[0].msgs
      && (s.host in {Flip, Flag, Poll, Ready} ==> s.delivered == tr[0].msgs && s.heard == tr[0].replies)
      && (s.phase in {Msg1, ReadyPhase} ==> s.msg1 == tr[0].msgs[0])
      && (s.ipcUp ==> !s.pending && !s.irq.Capture?)
      && (s.ipcUp <==> s.host in {Flag, Poll, Ready})
  {
    RunInv(tr);
    var s := tr[|tr| - 1];
    assert s.msgs[..3] == s.msgs && s.replies[..2] == s.replies;
  }

  /** boot_phase only moves forward. */
  lemma {:induction false} PhaseMovesForward(s: State, t: State)
    requires Inv(s) && Next(s, t)
    ensures Rank(s.phase) <= Rank(t.phase)
  {
    if HostStep(s, t) {
      HostKeeps(s, t);
    } else {
      OthersKeep(s, t);
    }
  }

  lemma {:induction false} HostClears(s: State, t: State, b: nat)
    requires Inv(s) && HostStep(s, t) && b in s.status && b !in t.status
    ensures s.host.Clear? && b == 0 && t.status == s.status - {0} && !s.ipcUp
  {
  }

  lemma {:induction false} IrqClears(s: State, t: State, b: nat)
    requires Inv(s) && IrqStep(s, t) && b in s.status && b !in t.status
    ensures s.irq.Ack? && b in s.irq.st && s.irq.st <= s.status && t.status == s.status - s.irq.st
    ensures s.ipcUp ==> t.dispatched == s.dispatched + [s.irq.st]
  {
  }

  /** A status bit disappears only when somebody who has read it writes it back: the receiver
      bit 0, or the handler what it read. Bits raised in between stay; and once the rings are
      live every bit that disappears has reached the dispatcher. */
  lemma {:induction false} ClearsOnlyWhatItRead(s: State, t: State, b: nat)
    requires Inv(s) && Next(s, t) && b in s.status && b !in t.status
    ensures (s.irq.Ack? && b in s.irq.st && s.irq.st <= s.status && t.status == s.status - s.irq.st)
         || (s.host.Clear? && b == 0 && t.status == s.status - {0})
    ensures s.ipcUp ==> s.irq.Ack? && t.dispatched == s.dispatched + [s.irq.st] && b in s.irq.st
  {
    if HostStep(s, t) {
      HostClears(s, t, b);
    } else if IrqStep(s, t) {
      IrqClears(s, t, b);
    } else {
      FirmwareKeeps(s, t);
    }
  }

  /** A look by the receiver succeeds exactly when the firmware has sent the message. */
  lemma {:induction false} ReceiveFindsTheMessage(s: State, n: nat)
    requires Inv(s) && s.host == Recv(n) && s.irq == Quiet
    ensures s.pending || 0 in s.status <==> SentBy(s.fw, n) && !s.bell
  {
  }

  // ---- the handshake can always finish ------------------------------------------------

  function HostLeft(h: Host): int {
    match h
    case Args(k) => 103 - k
    case Recv(n) => 20 * (3 - n) + 12
    case Clear(n) => 20 * (3 - n) + 11
    case Read(n, acc) => 20 * (3 - n) + 10 - |acc|
    case Send(n, k) => 20 * (3 - n) + 4 - k
    case Flip => 3
    case Flag => 2
    case Poll => 1
    case _ => 0
  }

  function FirmwareLeft(f: Firmware): int {
    match f
    case Off => 40
    case Compose(n, k) => 8 * (3 - n) + 5 - k
    case Await(n) => 8 * (3 - n)
    case AwaitFlag => 1
    case Live => 0
  }

  function IrqLeft(i: Irq): int {
    match i
    case Capture(_, acc) => 7 - |acc|
    case Ack(_) => 1
    case Quiet => 0
  }

  /** t is closer to the end than s. */
  predicate Closer(s: State, t: State) {
    || 0 <= HostLeft(t.host) < HostLeft(s.host)
    || (t.host == s.host && 0 <= FirmwareLeft(t.fw) < FirmwareLeft(s.fw))
    || (t.host == s.host && t.fw == s.fw && 0 <= IrqLeft(t.irq) < IrqLeft(s.irq))
  }

  /** The handler on its own way out. */
  lemma {:induction false} IrqFinishes(s: State) returns (t: State)
    requires Inv(s) && !s.irq.Quiet?
    ensures IrqStep(s, t) && Closer(s, t) && t.host == s.host
  {
    match s.irq
    case Capture(st, acc) =>
      t := if |acc| < WORDS then s.(irq := Capture(st, acc + [s.scratch[|acc|]]))
           else s.(irq := Ack(st), mbox := acc, pending := true);
    case Ack(st) =>
      t := s.(status := s.status - st, irq := Quiet,
              dispatched := if s.ipcUp then s.dispatched + [st] else s.dispatched);
  }

  /** The firmware's next step where the host is waiting for it. */
  lemma {:induction false} FirmwareAnswers(s: State) returns (t: State)
    requires Inv(s) && s.irq.Quiet?
    requires (s.host.Recv? && !s.pending && 0 !in s.status) || (s.host.Poll? && s.scratch[3] != 0)
    ensures FirmwareStep(s, t) && Closer(s, t) && t.host == s.host
  {
    match s.fw
    case Compose(n, k) =>
      t := if k < WORDS then s.(scratch := s.scratch[k := s.msgs[n][k]], fw := Compose(n, k + 1))
           else s.(status := s.status + {0}, fw := if n < 2 then Await(n) else AwaitFlag);
    case Await(n) => t := s.(bell := false, heard := s.heard + [s.scratch], fw := Compose(n + 1, 0));
    case AwaitFlag => t := s.(scratch := s.scratch[3 := 0], flag := false, fw := Live);
    case _ => t := s;
  }

  /** A step of the host towards the end. */
  ghost predicate GoesOn(s: State, t: State)
    requires Wf(s)
  {
    HostStep(s, t) && HostLeft(t.host) < HostLeft(s.host) && t.host != Failed
  }

  lemma {:induction false} ArgsGoOn(s: State) returns (t: State)
    requires Inv(s) && s.host.Args?
    ensures GoesOn(s, t)
  {
    var k := s.host.k;
    if k < 3 {
      t := s.(scratch := s.scratch[k := 0], host := Args(k + 1));
      assert WritesArgument(s, k, 0, t);
    } else {
      t := s.(host := Recv(0), fw := Compose(0, 0));
    }
  }

  lemma {:induction false} RecvGoesOn(s: State) returns (t: State)
    requires Inv(s) && s.irq.Quiet? && s.host.Recv? && (s.pending || 0 in s.status)
    ensures GoesOn(s, t)
  {
    var n := s.host.n;
    t := if s.pending then Got(s.(pending := false), n, s.mbox) else s.(host := Clear(n));
  }

  lemma {:induction false} ReadGoesOn(s: State) returns (t: State)
    requires Inv(s) && (s.host.Clear? || s.host.Read?)
    ensures GoesOn(s, t)
  {
    match s.host
    case Clear(n) => t := s.(status := s.status - {0}, host := Read(n, []));
    case Read(n, acc) =>
      t := if |acc| < WORDS then s.(host := Read(n, acc + [s.scratch[|acc|]])) else Got(s, n, acc);
  }

  lemma {:induction false} SendGoesOn(s: State) returns (t: State)
    requires Inv(s) && s.host.Send?
    ensures GoesOn(s, t)
  {
    var n, k := s.host.n, s.host.k;
    t := if k < WORDS then s.(scratch := s.scratch[k := s.replies[n][k]], host := Send(n, k + 1))
         else s.(bell := true, host := Recv(n + 1));
  }

  lemma {:induction false} ComesUp(s: State) returns (t: State)
    requires Inv(s) && s.irq.Quiet? && (s.host.Flip? || s.host.Flag? || (s.host.Poll? && s.scratch[3] == 0))
    ensures GoesOn(s, t)
  {
    match s.host
    case Flip => t := s.(ipcUp := true, pending := false, host := Flag);
    case Flag => t := s.(scratch := s.scratch[3 := MAGIC], flag := true, host := Poll);
    case Poll => t := s.(phase := ReadyPhase, host := Ready);
  }

  lemma {:induction false} HostGoesOn(s: State) returns (t: State)
    requires Inv(s) && s.irq.Quiet? && s.host != Ready && s.host != Failed
    requires s.host.Recv? ==> s.pending || 0 in s.status
    requires s.host.Poll? ==> s.scratch[3] == 0
    ensures GoesOn(s, t)
  {
    match s.host
    case Args(_) => t := ArgsGoOn(s);
    case Recv(_) => t := RecvGoesOn(s);
    case Clear(_) => t := ReadGoesOn(s);
    case Read(_, _) => t := ReadGoesOn(s);
    case Send(_, _) => t := SendGoesOn(s);
    case _ => t := ComesUp(s);
  }

  lemma {:induction false} LeftIsNat(s: State)
    requires Inv(s)
    ensures 0 <= HostLeft(s.host)
  {
  }

  /** Somebody can always bring the handshake closer to its end. */
  lemma {:induction false} SomebodyGoesOn(s: State) returns (t: State)
    requires Inv(s) && s.host != Ready && s.host != Failed
    ensures Next(s, t) && t.host != Failed
    ensures HostLeft(t.host) < HostLeft(s.host) || Closer(s, t)
  {
    if !s.irq.Quiet? {
      t := IrqFinishes(s);
    } else if (s.host.Recv? && !s.pending && 0 !in s.status) || (s.host.Poll? && s.scratch[3] != 0) {
      t := FirmwareAnswers(s);
    } else {
      t := HostGoesOn(s);
    }
  }

  ghost predicate IsPath(tr: seq<State>, s: State) {
    && |tr| >= 1 && tr[0] == s
    && forall i :: 0 <= i < |tr| - 1 ==> Wf(tr[i]) && Next(tr[i], tr[i + 1])
  }

  lemma {:induction false} LongerPath(s: State, t: State, tr: seq<State>)
    requires Wf(s) && Next(s, t) && IsPath(tr, t)
    ensures IsPath([s] + tr, s)
  {
    var p := [s] + tr;
    forall i | 0 <= i < |p| - 1 ensures Wf(p[i]) && Next(p[i], p[i + 1]) {
      assert i > 0 ==> p[i] == tr[i - 1] && p[i + 1] == tr[i - 1 + 1];
    }
  }

  /** Whoever holds what, the three can take the handshake to its end from here, unless the
      host has given up: nobody waits for something that cannot come. */
  lemma {:induction false} CanFinish(s: State) returns (tr: seq<State>)
    requires Inv(s) && s.host != Failed
    ensures IsPath(tr, s)
    ensures var t := tr[|tr| - 1]; t.host == Ready && t.delivered == s.msgs && t.heard == s.replies
    decreases HostLeft(s.host), FirmwareLeft(s.fw), IrqLeft(s.irq)
  {
    if s.host == Ready {
      tr := [s];
      assert s.msgs[..3] == s.msgs && s.replies[..2] == s.replies;
    } else {
      var t := SomebodyGoesOn(s);
      KeepsTalk(s, t);
      LeftIsNat(t);
      var rest := CanFinish(t);
      LongerPath(s, t, rest);
      tr := [s] + rest;
    }
  }
}
