/** The handler and one look by the receiver as the code runs them, each under the lock from end
    to end, and that this is what their steps add up to when nobody comes in between. */
module MailboxCode {
  import opened Basics
  import opened Mailbox

  /** The registers and the driver's fields the two share. */
  datatype Regs = Regs(status: set<nat>, scratch: seq<U32>, ipcUp: bool, pending: bool, mbox: seq<U32>,
                       phase: Phase, msg1: seq<U32>)

  function RegsOf(s: State): Regs {
    Regs(s.status, s.scratch, s.ipcUp, s.pending, s.mbox, s.phase, s.msg1)
  }

  function Handled(r: Regs): Regs {
    if !r.ipcUp && 0 in r.status then r.(status := {}, mbox := r.scratch, pending := true) else r.(status := {})
  }

  /** Is there a message, which, and what is left. */
  function Looked(r: Regs): (bool, seq<U32>, Regs) {
    var got, m := r.pending || 0 in r.status, if r.pending then r.mbox else r.scratch;
    var t := if r.pending then r.(pending := false) else r.(status := r.status - {0});
    (got, m, if got && r.phase == ArgsWritten then t.(phase := Msg1, msg1 := m) else t)
  }

  class Device {
    var status: set<nat>
    var scratch: array<U32>
    var ipcUp: bool
    var pending: bool
    var mbox: array<U32>
    var phase: Phase
    var msg1: array<U32>

    predicate Valid()
      reads this
    {
      scratch.Length == WORDS && mbox.Length == WORDS && msg1.Length == WORDS
      && scratch != mbox && mbox != msg1 && scratch != msg1
    }

    function View(): Regs
      reads this, scratch, mbox, msg1
    {
      Regs(status, scratch[..], ipcUp, pending, mbox[..], phase, msg1[..])
    }

    /** ave_irq_handler, up to the dispatch: which status word it goes out with, if any. */
    method Handle() returns (handled: bool, dispatch: bool, st: set<nat>)
      requires Valid()
      modifies this`status, this`pending, mbox
      ensures Valid() && View() == Handled(old(View()))
      ensures handled == (old(status) != {}) && st == old(status)
      ensures dispatch == (handled && ipcUp)
    {
      st := status;
      if st == {} {
        return false, false, st;
      }
      if !ipcUp && 0 in st {
        for i := 0 to WORDS
          invariant Valid() && mbox[..i] == scratch[..i]
          invariant unchanged(`status, `pending) && scratch[..] == old(scratch[..]) && msg1[..] == old(msg1[..])
        {
          mbox[i] := scratch[i];
        }
        assert mbox[..] == mbox[..WORDS] == scratch[..WORDS] == scratch[..];
        pending := true;
      }
      status := status - st;
      return true, ipcUp, st;
    }

    /** One turn of ave_recv_iop_msg's loop. */
    method Look(out: array<U32>) returns (got: bool)
      requires Valid() && out.Length == WORDS && out != scratch && out != mbox && out != msg1
      modifies this`status, this`pending, this`phase, msg1, out
      ensures Valid()
      ensures
        var (g, m, t) := Looked(old(View()));
        got == g && View() == t && (got ==> out[..] == m)
    {
      got := false;
      if pending {
        Copy(mbox, out);
        pending := false;
        got := true;
      } else if 0 in status {
        status := status - {0};
        Copy(scratch, out);
        got := true;
      }
      if got && phase == ArgsWritten {
        Copy(out, msg1);
        phase := Msg1;
      }
    }

    static method Copy(from: array<U32>, to: array<U32>)
      requires from.Length == to.Length && from != to
      modifies to
      ensures to[..] == from[..]
    {
      for i := 0 to from.Length
        invariant to[..i] == from[..i]
      {
        to[i] := from[i];
      }
      assert to[..] == to[..from.Length] == from[..from.Length] == from[..];
    }
  }

  // ---- the steps add up to the code ---------------------------------------------------

  ghost predicate IrqAlone(tr: seq<State>) {
    forall i :: 0 <= i < |tr| - 1 ==> Wf(tr[i]) && IrqStep(tr[i], tr[i + 1])
  }

  ghost predicate HostAlone(tr: seq<State>) {
    forall i :: 0 <= i < |tr| - 1 ==> Wf(tr[i]) && HostStep(tr[i], tr[i + 1])
  }

  lemma {:induction false} IrqThen(tr: seq<State>, t: State)
    requires |tr| >= 1 && IrqAlone(tr) && Wf(tr[|tr| - 1]) && IrqStep(tr[|tr| - 1], t)
    ensures IrqAlone(tr + [t])
  {
  }

  /** Reading the four words, then handing them over and clearing. */
  lemma {:induction false} CaptureAlone(s: State) returns (tr: seq<State>)
    requires Wf(s) && s.status != {} && s.irq == Capture(s.status, []) && !s.ipcUp
    ensures |tr| >= 1 && tr[0] == s && IrqAlone(tr)
    ensures tr[|tr| - 1] == s.(status := {}, mbox := s.scratch, pending := true, irq := Quiet)
  {
    var a, st := s.scratch, s.status;
    tr := [s];
    for k := 0 to WORDS
      invariant |tr| == k + 1 && tr[0] == s && IrqAlone(tr) && tr[k] == s.(irq := Capture(st, a[..k]))
    {
      var t := s.(irq := Capture(st, a[..k + 1]));
      assert a[..k + 1] == a[..k] + [a[k]];
      IrqThen(tr, t);
      tr := tr + [t];
    }
    assert a[..WORDS] == a;
    var t := s.(irq := Ack(st), mbox := a, pending := true);
    IrqThen(tr, t);
    tr := tr + [t];
    var u := s.(status := {}, mbox := a, pending := true, irq := Quiet);
    assert st - st == {};
    IrqThen(tr, u);
    tr := tr + [u];
  }

  lemma {:induction false} HandlerSteps(s: State) returns (tr: seq<State>)
    requires Wf(s) && s.irq == Quiet && !HostLocks(s)
    ensures |tr| >= 1 && tr[0] == s && IrqAlone(tr)
    ensures
      var t := tr[|tr| - 1];
      && t.irq == Quiet && RegsOf(t) == Handled(RegsOf(s)) && t.status == {}
      && (if !s.ipcUp && 0 in s.status then t.pending && t.mbox == s.scratch else t.pending == s.pending && t.mbox == s.mbox)
      && t.dispatched == (if s.status != {} && s.ipcUp then s.dispatched + [s.status] else s.dispatched)
  {
    if s.status == {} {
      tr := [s];
    } else if !s.ipcUp && 0 in s.status {
      var c := s.(irq := Capture(s.status, []));
      var rest := CaptureAlone(c);
      tr := [s] + rest;
      forall i | 0 <= i < |tr| - 1 ensures Wf(tr[i]) && IrqStep(tr[i], tr[i + 1]) {
        assert i > 0 ==> tr[i] == rest[i - 1] && tr[i + 1] == rest[i - 1 + 1];
      }
    } else {
      var t := s.(status := s.status - s.status, irq := Quiet,
                  dispatched := if s.ipcUp then s.dispatched + [s.status] else s.dispatched);
      tr := [s, s.(irq := Ack(s.status)), t];
    }
  }

  lemma {:induction false} HostThen(tr: seq<State>, t: State)
    requires |tr| >= 1 && HostAlone(tr) && Wf(tr[|tr| - 1]) && HostStep(tr[|tr| - 1], t)
    ensures HostAlone(tr + [t])
  {
  }

  lemma {:induction false} ReadAlone(tr0: seq<State>, s: State, n: nat) returns (tr: seq<State>)
    requires |tr0| >= 1 && HostAlone(tr0) && tr0[|tr0| - 1] == s && Wf(s) && s.host == Read(n, [])
    ensures |tr| >= 1 && tr[0] == tr0[0] && HostAlone(tr)
    ensures tr[|tr| - 1] == Got(s, n, s.scratch)
  {
    var a := s.scratch;
    tr := tr0;
    for k := 0 to WORDS
      invariant |tr| >= 1 && tr[0] == tr0[0] && HostAlone(tr) && tr[|tr| - 1] == s.(host := Read(n, a[..k]))
    {
      var t := s.(host := Read(n, a[..k + 1]));
      assert a[..k + 1] == a[..k] + [a[k]];
      HostThen(tr, t);
      tr := tr + [t];
    }
    assert a[..WORDS] == a;
    HostThen(tr, Got(s, n, a));
    tr := tr + [Got(s, n, a)];
  }

  lemma {:induction false} LookSteps(s: State, n: nat) returns (tr: seq<State>)
    requires Wf(s) && s.host == Recv(n) && s.irq == Quiet
    ensures |tr| >= 1 && tr[0] == s && HostAlone(tr)
    ensures
      var t, (got, m, r) := tr[|tr| - 1], Looked(RegsOf(s));
      && (got <==> s.pending || 0 in s.status)
      && (got ==> RegsOf(t) == r && t.delivered == s.delivered + [if s.pending then s.mbox else s.scratch])
      && (got ==> !t.pending && t.status == if s.pending then s.status else s.status - {0})
      && (!got ==> t == s)
  {
    if s.pending {
      HostThen([s], Got(s.(pending := false), n, s.mbox));
      tr := [s] + [Got(s.(pending := false), n, s.mbox)];
    } else if 0 in s.status {
      var c := s.(host := Clear(n));
      var d := c.(status := c.status - {0}, host := Read(n, []));
      HostThen([s], c);
      HostThen([s] + [c], d);
      tr := ReadAlone([s] + [c] + [d], d, n);
    } else {
      tr := [s];
    }
  }
}
