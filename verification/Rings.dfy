/** The slot ring of ave_abi_boot.h: one array of slots shared by two parties, a
    private handle on each side, one phase bit per slot. */
module Rings {
  import opened Basics
  import opened Remainders

  /** A slot: the phase word and the two argument words, each little-endian u64. */
  datatype Slot = Slot(w0: U64, a1: U64, a2: U64)

  datatype Message = Message(payload: U64, arg1: U32, arg2: U32)

  /** The private half of struct ave_ring; nothing in it is shared. */
  datatype Handle = Handle(nslots: nat, typ: nat, rd: int, wr: int, nrecv: U32, nsend: U32)

  /** type ^ 1 */
  function FlipLow(t: nat): nat {
    if t % 2 == 0 then t + 1 else t - 1
  }

  /** p | f for f < 4: only the two low bits can change. */
  function OrLow(p: U64, f: nat): U64
    requires f < 4
  {
    p - p % 4
    + (if p % 2 == 1 || f % 2 == 1 then 1 else 0)
    + (if p / 2 % 2 == 1 || f / 2 % 2 == 1 then 2 else 0)
  }

  /** The word a sender of type t writes. */
  function Word(payload: U64, t: nat): U64
    requires t < 4
  {
    OrLow(payload, FlipLow(t))
  }

  function Phase(w: U64): nat {
    w % 2
  }

  /** w & ~3 */
  function PayloadOf(w: U64): U64 {
    w - w % 4
  }

  /** The receiver facing a sender of type t waits for this phase and gets the payload
      back, exactly when the payload is a multiple of 4. */
  lemma {:induction false} WordRoundTrip(p: U64, t: nat)
    requires t < 4
    ensures Phase(Word(p, t)) == FlipLow(t) % 2 && PayloadOf(Word(p, t)) == p <==> p % 4 == 0
  {
    if t % 2 == 0 {
      assert FlipLow(t) % 2 == 1;
    }
  }

  /** dir -> host ring type */
  function DirToType(dir: U32): nat {
    if dir == 0 then 1 else if dir == 1 then 0 else 2
  }

  /** dir -> firmware ring type, 13.5 */
  function FwType(dir: U32): nat {
    if dir == 2 then 3 else if dir == 1 then 1 else 0
  }

  /** Two ends understand each other when each waits for the phase the other writes and
      both run the same one of the two algorithms (type bit 1). */
  predicate Paired(host: nat, fw: nat) {
    host / 2 == fw / 2 && host % 2 != fw % 2
  }

  /** The two type maps agree on exactly the three directions the firmware uses. */
  lemma {:induction false} DirectionsPair(dir: U32)
    ensures Paired(DirToType(dir), FwType(dir)) <==> dir <= 2
  {
    if dir > 2 {
      assert DirToType(dir) == 2 && FwType(dir) == 0;
    }
  }

  // ---- cursor arithmetic, as values -------------------------------------------------

  function InitHandle(n: nat, t: nat): Handle {
    if t % 2 == 1 then Handle(n, t, -1, 0, 0, 0) else Handle(n, t, 0, -1, 0, 0)
  }

  function AfterSend(h: Handle): Handle {
    var rd := if h.rd < 0 then h.wr else h.rd;
    var w := Advance(h.nslots, h.wr);
    h.(rd := rd, wr := if rd == w then -1 else w, nsend := (h.nsend + 1) % 0x1_0000_0000)
  }

  function AfterRecv(h: Handle): Handle {
    var wr := if h.wr < 0 then h.rd else h.wr;
    var r := Advance(h.nslots, h.rd);
    h.(wr := wr, rd := if wr == r then -1 else r, nrecv := (h.nrecv + 1) % 0x1_0000_0000)
  }

  function AfterUSend(h: Handle): Handle {
    h.(wr := Advance(h.nslots, h.wr), nsend := (h.nsend + 1) % 0x1_0000_0000)
  }

  function AfterURecv(h: Handle): Handle {
    h.(rd := Advance(h.nslots, h.rd), nrecv := (h.nrecv + 1) % 0x1_0000_0000)
  }

  /** What the cursors mean. `mine` messages went out of this end and `theirs` came in.
      An odd end starts with every slot to give away, an even end with none. */
  predicate Tracks(h: Handle, mine: nat, theirs: nat) {
    && h.nslots >= 1
    && var lead := if h.typ % 2 == 1 then mine - theirs else mine + h.nslots - theirs;
    && 0 <= lead <= h.nslots
    && h.rd == (if lead == 0 then -1 else Rem(theirs, h.nslots))
    && h.wr == (if lead == h.nslots then -1 else Rem(mine, h.nslots))
  }

  /** The sentinels and wrap-around of Send and Receive keep the cursors exact, for any
      number of slots. */
  lemma {:induction false} CursorsTrack(h: Handle, mine: nat, theirs: nat)
    requires Tracks(h, mine, theirs)
    ensures h.wr >= 0 ==> Tracks(AfterSend(h), mine + 1, theirs)
    ensures h.rd >= 0 ==> Tracks(AfterRecv(h), mine, theirs + 1)
  {
    var n := h.nslots;
    RemNext(mine, n);
    RemNext(theirs, n);
    if h.typ % 2 == 1 {
      SameRem(n, theirs, mine);
      if h.wr >= 0 { SameRem(n, theirs, mine + 1); }
      if h.rd >= 0 { SameRem(n, theirs + 1, mine); }
    } else {
      SameRem(n, mine, theirs);
      if h.wr >= 0 { SameRem(n, mine + 1, theirs); }
      if h.rd >= 0 { SameRem(n, mine, theirs + 1); }
    }
  }

  // ---- slots, as values -------------------------------------------------------------

  function FilledSlot(m: Message, t: nat): Slot
    requires t < 4
  {
    Slot(Word(m.payload, t), m.arg1, m.arg2)
  }

  function ReadSlot(s: Slot): Message {
    Message(PayloadOf(s.w0), s.a1 % 0x1_0000_0000, s.a2 % 0x1_0000_0000)
  }

  lemma {:induction false} FilledSlotReads(m: Message, t: nat)
    requires t < 4 && m.payload % 4 == 0
    ensures Phase(FilledSlot(m, t).w0) == FlipLow(t) % 2 && ReadSlot(FilledSlot(m, t)) == m
  {
    WordRoundTrip(m.payload, t);
  }

  function InitSlots(slots: seq<Slot>, t: nat): seq<Slot>
    requires t < 4
  {
    if t % 2 == 1 then seq(|slots|, _ => Slot(t, 0, 0)) else slots
  }

  function ClampNeg(c: int): int {
    if c < 0 then 0 else c
  }

  /** struct ave_ring with its slot array, as one side uses it. */
  class Ring {
    var slots: array<Slot>
    var nslots: nat
    var typ: nat
    var rd: int
    var wr: int
    var nrecv: U32
    var nsend: U32

    ghost predicate Valid()
      reads this
    {
      slots.Length == nslots && nslots >= 1 && typ < 4 && -1 <= rd < nslots && -1 <= wr < nslots
    }

    function View(): Handle
      reads this
    {
      Handle(nslots, typ, rd, wr, nrecv, nsend)
    }

    /** An odd end owns the array at the start and marks every slot free; an even end
        touches nothing. */
    constructor (mem: array<Slot>, t: nat)
      requires mem.Length >= 1 && t < 4
      modifies mem
      ensures Valid() && slots == mem && View() == InitHandle(mem.Length, t)
      ensures mem[..] == InitSlots(old(mem[..]), t)
    {
      slots := mem;
      nslots := mem.Length;
      typ := t;
      nrecv, nsend := 0, 0;
      rd := if t % 2 == 1 then -1 else 0;
      wr := if t % 2 == 1 then 0 else -1;
      new;
      if t % 2 == 1 {
        for i := 0 to mem.Length
          invariant View() == InitHandle(mem.Length, t) && slots == mem && Valid()
          invariant forall k :: 0 <= k < i ==> mem[k] == Slot(t, 0, 0)
        {
          mem[i] := Slot(t, 0, 0);
        }
      }
    }

    method Send(m: Message) returns (ok: bool)
      requires Valid()
      modifies this`rd, this`wr, this`nsend, slots
      ensures Valid()
      ensures ok <==> old(wr) >= 0
      ensures !ok ==> View() == old(View()) && slots[..] == old(slots[..])
      ensures ok ==> View() == AfterSend(old(View()))
      ensures ok ==> slots[..] == old(slots[..])[old(wr) := FilledSlot(m, typ)]
    {
      if wr < 0 {
        return false;
      }
      slots[wr] := slots[wr].(a1 := m.arg1);
      slots[wr] := slots[wr].(a2 := m.arg2);
      slots[wr] := slots[wr].(w0 := Word(m.payload, typ));
      var w := wr;
      if rd < 0 {
        rd := w;
      }
      w := if w == nslots - 1 then 0 else w + 1;
      wr := if rd == w then -1 else w;
      nsend := (nsend + 1) % 0x1_0000_0000;
      ok := true;
    }

    /** Receive never writes a slot. */
    method Recv() returns (ok: bool, m: Message)
      requires Valid()
      modifies this`rd, this`wr, this`nrecv
      ensures Valid()
      ensures ok <==> old(rd) >= 0 && Phase(slots[old(rd)].w0) == typ % 2
      ensures !ok ==> View() == old(View())
      ensures ok ==> View() == AfterRecv(old(View())) && m == ReadSlot(slots[old(rd)])
    {
      ok, m := false, Message(0, 0, 0);
      if rd < 0 {
        return;
      }
      var s := slots[rd];
      if s.w0 % 2 != typ % 2 {
        return;
      }
      m := Message(PayloadOf(s.w0), s.a1 % 0x1_0000_0000, s.a2 % 0x1_0000_0000);
      var r := rd;
      if wr < 0 {
        wr := r;
      }
      r := if r == nslots - 1 then 0 else r + 1;
      rd := if wr == r then -1 else r;
      nrecv := (nrecv + 1) % 0x1_0000_0000;
      ok := true;
    }

    /** The one-way sender asks the slot, not the cursors, whether it is free. */
    method USend(m: Message) returns (ok: bool)
      requires Valid()
      modifies this`wr, this`nsend, slots
      ensures Valid()
      ensures ok <==> Phase(old(slots[ClampNeg(wr)].w0)) == typ % 2
      ensures !ok ==> View() == old(View()) && slots[..] == old(slots[..])
      ensures ok ==> View() == AfterUSend(old(View()))
      ensures ok ==> slots[..] == old(slots[..])[ClampNeg(old(wr)) := FilledSlot(m, typ)]
    {
      var k := if wr < 0 then 0 else wr;
      if slots[k].w0 % 2 != typ % 2 {
        return false;
      }
      slots[k] := slots[k].(a1 := m.arg1);
      slots[k] := slots[k].(a2 := m.arg2);
      slots[k] := slots[k].(w0 := Word(m.payload, typ));
      wr := if wr == nslots - 1 then 0 else wr + 1;
      nsend := (nsend + 1) % 0x1_0000_0000;
      ok := true;
    }

    /** The one-way receiver hands the slot back through its phase word. */
    method URecv() returns (ok: bool, m: Message)
      requires Valid()
      modifies this`rd, this`nrecv, slots
      ensures Valid()
      ensures ok <==> Phase(old(slots[ClampNeg(rd)].w0)) == typ % 2
      ensures !ok ==> View() == old(View()) && slots[..] == old(slots[..])
      ensures ok ==> View() == AfterURecv(old(View())) && m == ReadSlot(old(slots[ClampNeg(rd)]))
      ensures ok ==>
        slots[..] == old(slots[..])[ClampNeg(old(rd)) := old(slots[ClampNeg(rd)]).(w0 := FlipLow(typ))]
    {
      ok, m := false, Message(0, 0, 0);
      var k := if rd < 0 then 0 else rd;
      var s := slots[k];
      if s.w0 % 2 != typ % 2 {
        return;
      }
      m := Message(PayloadOf(s.w0), s.a1 % 0x1_0000_0000, s.a2 % 0x1_0000_0000);
      slots[k] := slots[k].(w0 := FlipLow(typ));
      rd := if rd == nslots - 1 then 0 else rd + 1;
      nrecv := (nrecv + 1) % 0x1_0000_0000;
      ok := true;
    }
  }

  // ---- counting messages instead of slots ---------------------------------------------

  /** The slot of the i-th message. */
  ghost function At(slots: seq<Slot>, i: nat): Slot
    requires |slots| >= 1
  {
    slots[Rem(i, |slots|)]
  }

  lemma {:induction false} AtUpdate(slots: seq<Slot>, b: nat, p: nat, x: Slot)
    requires |slots| >= 1 && b <= p < b + |slots|
    ensures forall i: nat :: b <= i < b + |slots| ==>
      At(slots[Rem(p, |slots|) := x], i) == if i == p then x else At(slots, i)
  {
    forall i: nat | b <= i < b + |slots|
      ensures At(slots[Rem(p, |slots|) := x], i) == if i == p then x else At(slots, i)
    {
      if i <= p { SameRem(|slots|, i, p); } else { SameRem(|slots|, p, i); }
    }
  }

  lemma {:induction false} AtWraps(slots: seq<Slot>, b: nat)
    requires |slots| >= 1
    ensures At(slots, b + |slots|) == At(slots, b)
  {
    SameRem(|slots|, b, b + |slots|);
  }
}
