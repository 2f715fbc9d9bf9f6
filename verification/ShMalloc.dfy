/** The FwIPC pool of ave_ipc.c: 64-byte granules handed out by gen_pool, the table of
    allocations the firmware asked for (SHAREDMALLOC), and the blocks the boot handshake holds.
    Requests may be served by several drainers at once, so a request is a sequence of steps. */
module ShMalloc {
  import opened Basics

  const GRANULE: nat := 64
  const SLOTS: nat := 64
  const INFO_SIZE: nat := 0x50
  const CFG_SIZE: nat := 0x38
  const DESC_STRIDE: nat := 0x100
  const TWO64: nat := 0x1_0000_0000_0000_0000

  /** What gen_pool takes for a size. */
  function Granules(size: nat): nat {
    (size + 63) / 64
  }

  predicate InRun(at: nat, n: nat, g: nat) {
    at <= g < at + n
  }

  ghost function Cells(at: nat, n: nat): set<nat> {
    set g: nat | g < at + n && InRun(at, n, g)
  }

  /** shm[i]: granule and size in bytes. */
  datatype Entry = Empty | Held(at: nat, size: nat)

  /** A request between its steps: allocated and not yet in the table, refused by a full table,
      or out of the table and not yet back in the pool. */
  datatype Flight = New(at: nat, size: nat) | Refused(at: nat, size: nat) | Gone(at: nat, size: nat)

  /** Who has a granule. */
  datatype Owner = Table(i: nat) | Request(k: nat) | FwCfg | ChanMem | IpcInfo | InfoLog

  datatype Reply = Reply(fw: nat, size: nat)

  /** The ABI row and boot_lenient. cap: granules of FwIPC; logSize: 0 is no log block; chSize, nch:
      what message 1 should say; below: what its size has to be below. */
  datatype Conf = Conf(cap: nat, logSize: nat, cfgBlock: bool, chSize: nat, nch: nat, maxCh: nat, below: nat, lenient: bool)

  /** macOS 13.5 */
  function Abi13(lenient: bool): Conf {
    Conf(0x70_0000 / GRANULE, 0, false, 0x9bc0, 7, 8, 0x1_0000_0000, lenient)
  }

  /** macOS 26.6.2 */
  function Abi26(lenient: bool): Conf {
    Conf(0x140_0000 / GRANULE, 0x1_0000, true, 0x1_f280, 2, 3, 0x8000_0000, lenient)
  }

  /** Does the handshake go on after this message 1? */
  predicate Accepts(c: Conf, nch: nat, size: nat) {
    && 1 <= nch <= c.maxCh && 0 < size < c.below && size >= nch * DESC_STRIDE
    && (c.lenient || (nch == c.nch && size == c.chSize))
  }

  /** own: the allocated granules, by owner. chan: where the channel block is and how much was
      asked for; chanSize: what the driver remembers of that, from this boot or an earlier one. */
  datatype State = State(
    conf: Conf, base: nat, own: map<nat, Owner>,
    shm: seq<Entry>, flights: map<nat, Flight>,
    cfg: Option<nat>, chan: Option<(nat, nat)>, chanSize: nat, info: Option<nat>, log: Option<nat>,
    shaken: bool, sent: seq<Reply>)

  // ---- addresses ----------------------------------------------------------------------

  /** Kernel2FwAddr of a byte offset in FwIPC. */
  function ToFw(base: nat, off: nat): nat {
    (off + base) % TWO64
  }

  /** Fw2KernelAddr for one byte. */
  function FromFw(base: nat, size: nat, fw: nat): Option<nat> {
    if fw < base || fw - base >= size then None else Some(fw - base)
  }

  /** An address handed out comes back to the same block exactly if FwIPC, as the firmware sees
      it, does not run past the end of the address space. */
  lemma {:induction false} AddressComesBack(base: nat, size: nat, off: nat)
    requires off < size && base < TWO64 && size < TWO64
    ensures FromFw(base, size, ToFw(base, off)) == Some(off) <==> base + off < TWO64
  {
    if base + off >= TWO64 {
      assert ToFw(base, off) == base + off - TWO64;
    }
  }

  // ---- the table ----------------------------------------------------------------------

  /** The first entry of the block at granule `at`, from i on. */
  function IndexOf(shm: seq<Entry>, at: nat, i: nat): (r: nat)
    requires i <= |shm|
    ensures i <= r <= |shm| && (r < |shm| ==> shm[r].Held? && shm[r].at == at)
    ensures forall j :: i <= j < r ==> !(shm[j].Held? && shm[j].at == at)
    decreases |shm| - i
  {
    if i == |shm| || (shm[i].Held? && shm[i].at == at) then i else IndexOf(shm, at, i + 1)
  }

  function FirstEmpty(shm: seq<Entry>, i: nat): (r: nat)
    requires i <= |shm|
    ensures i <= r <= |shm| && (r < |shm| ==> shm[r].Empty?)
    ensures forall j :: i <= j < r ==> shm[j].Held?
    decreases |shm| - i
  {
    if i == |shm| || shm[i].Empty? then i else FirstEmpty(shm, i + 1)
  }

  // ---- steps --------------------------------------------------------------------------

  /** There is a free run there. */
  ghost predicate Free(s: State, at: nat, size: nat) {
    size > 0 && at + Granules(size) <= s.conf.cap && s.own.Keys !! Cells(at, Granules(size))
  }

  /** gen_pool_alloc: the lowest free run, or none if there is none. */
  ghost predicate FirstFit(s: State, size: nat, r: Option<nat>) {
    match r
    case Some(at) => Free(s, at, size) && forall x: nat :: x < at ==> !Free(s, x, size)
    case None => forall x: nat :: !Free(s, x, size)
  }

  ghost function Give(own: map<nat, Owner>, at: nat, size: nat, o: Owner): map<nat, Owner> {
    map g | g in own.Keys + Cells(at, Granules(size)) :: if g in Cells(at, Granules(size)) then o else own[g]
  }

  /** The same granules under another name. */
  ghost function Hand(own: map<nat, Owner>, from: Owner, to: Owner): map<nat, Owner> {
    map g | g in own :: if own[g] == from then to else own[g]
  }

  /** Where the handshake's blocks come to lie. */
  datatype Blocks = Blocks(chan: Option<nat>, info: Option<nat>, log: Option<nat>)

  datatype Event =
    | AllocTaken(k: nat, at: nat, size: nat)   // the firmware asks, and the pool has a run
    | AllocFailed(size: nat)                   // or none: the firmware is left waiting
    | Insert(k: nat)                           // the table under the lock
    | FreeAsked(k: nat, fw: nat)               // the firmware frees: the table under the lock
    | Return(k: nat)                           // gen_pool_free
    | Config(cfg: Option<nat>)
    | Handshake(nch: nat, size: nat, blocks: Blocks)
    | Restart(base: nat)                       // ave_ipc_fini, and ave_ipc_init for the next boot

  ghost predicate Fresh(s: State, k: nat) {
    k !in s.flights
  }

  ghost function WithChan(s: State, size: nat, at: Option<nat>): State {
    if at.Some? then s.(own := Give(s.own, at.value, size, ChanMem), chan := Some((at.value, size))) else s
  }

  ghost function WithInfo(s: State, at: Option<nat>): State {
    if at.Some? then s.(own := Give(s.own, at.value, INFO_SIZE, IpcInfo), info := at) else s
  }

  ghost function WithLog(s: State, at: Option<nat>): State {
    if at.Some? then s.(own := Give(s.own, at.value, s.conf.logSize, InfoLog), log := at) else s
  }

  /** The handshake's blocks, in the order it allocates them. */
  ghost function Shake(s: State, size: nat, b: Blocks): State {
    var s2 := WithInfo(WithChan(s, size, b.chan), b.info);
    if b.chan.None? || b.info.None? then s2 else WithLog(s2.(chanSize := size), b.log)
  }

  ghost predicate CanShake(s: State, nch: nat, size: nat, b: Blocks) {
    && !s.shaken && Accepts(s.conf, nch, size)
    && FirstFit(s, size, b.chan)
    && var s1 := WithChan(s, size, b.chan);
    && FirstFit(s1, INFO_SIZE, b.info)
    && FirstFit(WithInfo(s1, b.info), s.conf.logSize, b.log)
  }

  /** The channels are there: the handshake got past its allocations. */
  predicate Up(s: State) {
    s.shaken && s.chan.Some? && s.info.Some?
  }

  ghost predicate Next(s: State, e: Event, t: State)
    requires |s.shm| == SLOTS
  {
    match e
    case AllocTaken(k, at, size) =>
      && Up(s) && Fresh(s, k) && FirstFit(s, size, Some(at))
      && t == s.(own := Give(s.own, at, size, Request(k)), flights := s.flights[k := New(at, size)])
    case AllocFailed(size) => Up(s) && FirstFit(s, size, None) && t == s
    case Insert(k) =>
      && k in s.flights && s.flights[k].New?
      && var f, i := s.flights[k], FirstEmpty(s.shm, 0);
      t == if i < SLOTS then
             s.(own := Hand(s.own, Request(k), Table(i)), shm := s.shm[i := Held(f.at, f.size)],
                flights := s.flights - {k}, sent := s.sent + [Reply(ToFw(s.base, GRANULE * f.at), f.size)])
           else s.(flights := s.flights[k := Refused(f.at, f.size)])
    case FreeAsked(k, fw) =>
      && Up(s) && Fresh(s, k) && fw != 0
      && t == Freeing(s, k, fw)
    case Return(k) =>
      && k in s.flights && !s.flights[k].New?
      && var f := s.flights[k];
      t == s.(own := s.own - Cells(f.at, Granules(f.size)), flights := s.flights - {k},
              sent := if f.Gone? then s.sent + [Reply(ToFw(s.base, GRANULE * f.at), 0)] else s.sent)
    case Config(at) =>
      && s.conf.cfgBlock && !s.shaken
      && (s.cfg.None? ==> FirstFit(s, CFG_SIZE, at))
      && t == if s.cfg.None? && at.Some? then s.(own := Give(s.own, at.value, CFG_SIZE, FwCfg), cfg := at) else s
    case Handshake(nch, size, b) => CanShake(s, nch, size, b) && t == Shake(s, size, b).(shaken := true)
    case Restart(base) =>
      && s.flights == map[]
      && t == State(s.conf, base, map[], seq(SLOTS, _ => Empty), map[], None, None, s.chanSize, None, None, false, [])
  }

  /** What the firmware gave back: out of the table if it is there, and answered either way
      unless it is outside FwIPC. */
  ghost function Freeing(s: State, k: nat, fw: nat): State
    requires |s.shm| == SLOTS
  {
    match FromFw(s.base, GRANULE * s.conf.cap, fw)
    case None => s
    case Some(off) =>
      var i := Tracked(s.shm, off);
      if i < SLOTS then
        var e := s.shm[i];
        s.(own := Hand(s.own, Table(i), Request(k)), shm := s.shm[i := Empty],
           flights := s.flights[k := Gone(e.at, e.size)])
      else s.(sent := s.sent + [Reply(fw, 0)])
  }

  /** The entry of the block that starts at this byte. */
  function Tracked(shm: seq<Entry>, off: nat): (i: nat)
    ensures i <= |shm| && (i < |shm| ==> shm[i].Held? && GRANULE * shm[i].at == off)
  {
    if off % GRANULE == 0 then IndexOf(shm, off / GRANULE, 0) else |shm|
  }

  // ---- the invariant ------------------------------------------------------------------

  /** The block an owner has, as granule and size. */
  function Holding(s: State, o: Owner): Option<(nat, nat)> {
    match o
    case Table(i) => if i < |s.shm| && s.shm[i].Held? then Some((s.shm[i].at, s.shm[i].size)) else None
    case Request(k) => if k in s.flights then Some((s.flights[k].at, s.flights[k].size)) else None
    case FwCfg => if s.cfg.Some? then Some((s.cfg.value, CFG_SIZE)) else None
    case ChanMem => s.chan
    case IpcInfo => if s.info.Some? then Some((s.info.value, INFO_SIZE)) else None
    case InfoLog => if s.log.Some? then Some((s.log.value, s.conf.logSize)) else None
  }

  ghost predicate Has(s: State, o: Owner, g: nat) {
    Holding(s, o).Some? && g in Cells(Holding(s, o).value.0, Granules(Holding(s, o).value.1))
  }

  /** Every granule taken from the pool is in exactly one live block, and every live block has
      all its granules. */
  ghost predicate Exact(s: State) {
    forall g: nat, o: Owner :: (g in s.own && s.own[g] == o) <==> Has(s, o, g)
  }

  /** No block is empty. */
  ghost predicate Sized(s: State) {
    forall o: Owner :: Holding(s, o).Some? ==> Holding(s, o).value.1 > 0
  }

  ghost predicate Inv(s: State) {
    && |s.shm| == SLOTS
    && (forall g :: g in s.own ==> g < s.conf.cap)
    && Exact(s)
    && Sized(s)
    && (!s.shaken ==> s.chan.None? && s.info.None? && s.log.None?)
  }

  ghost predicate Init(s: State) {
    && s.own == map[] && s.shm == seq(SLOTS, _ => Empty) && s.flights == map[]
    && s.cfg == None && s.chan == None && s.info == None && s.log == None && !s.shaken && s.sent == []
  }

  lemma {:induction false} InitInv(s: State)
    requires Init(s)
    ensures Inv(s)
  {
  }

  /** Taking a free run for an owner that had none. */
  lemma {:induction false} GiveKeeps(s: State, t: State, at: nat, size: nat, o: Owner)
    requires Exact(s) && Free(s, at, size) && Holding(s, o).None?
    requires t.own == Give(s.own, at, size, o) && t.conf == s.conf && Holding(t, o) == Some((at, size))
    requires forall p: Owner :: p != o ==> Holding(t, p) == Holding(s, p)
    ensures Exact(t)
  {
    forall g: nat, p: Owner ensures (g in t.own && t.own[g] == p) <==> Has(t, p, g) {
      assert (g in s.own && s.own[g] == p) <==> Has(s, p, g);
      assert p != o ==> (Has(t, p, g) <==> Has(s, p, g));
    }
  }

  /** What one owner has before and after a block changes hands. */
  lemma {:induction false} HandAt(s: State, t: State, from: Owner, to: Owner, p: Owner, g: nat)
    requires Exact(s) && from != to && Holding(s, to).None? && Holding(t, from).None?
    requires t.own == Hand(s.own, from, to) && Holding(t, to) == Holding(s, from)
    requires p != from && p != to ==> Holding(t, p) == Holding(s, p)
    ensures (g in t.own && t.own[g] == p) <==> Has(t, p, g)
  {
    assert (g in s.own && s.own[g] == p) <==> Has(s, p, g);
    assert (g in s.own && s.own[g] == from) <==> Has(s, from, g);
    assert (g in s.own && s.own[g] == to) <==> Has(s, to, g);
  }

  /** A block changes hands. */
  lemma {:induction false} HandKeeps(s: State, t: State, from: Owner, to: Owner)
    requires Exact(s) && from != to && Holding(s, to).None? && Holding(t, from).None?
    requires t.own == Hand(s.own, from, to) && Holding(t, to) == Holding(s, from)
    requires forall p: Owner :: p != from && p != to ==> Holding(t, p) == Holding(s, p)
    ensures Exact(t)
  {
    forall g: nat, p: Owner ensures (g in t.own && t.own[g] == p) <==> Has(t, p, g) {
      HandAt(s, t, from, to, p, g);
    }
  }

  lemma {:induction false} ReturnKeeps(s: State, t: State, o: Owner)
    requires Exact(s) && Holding(s, o).Some? && Holding(t, o).None?
    requires t.own == s.own - Cells(Holding(s, o).value.0, Granules(Holding(s, o).value.1))
    requires forall p: Owner :: p != o ==> Holding(t, p) == Holding(s, p)
    ensures Exact(t)
  {
    forall g: nat, p: Owner ensures (g in t.own && t.own[g] == p) <==> Has(t, p, g) {
      assert (g in s.own && s.own[g] == p) <==> Has(s, p, g);
      assert (g in s.own && s.own[g] == o) <==> Has(s, o, g);
    }
  }

  lemma {:induction false} WithChanInv(s: State, size: nat, at: Option<nat>)
    requires Inv(s) && s.chan.None? && (at.Some? ==> Free(s, at.value, size))
    ensures
      var t := WithChan(s, size, at);
      Exact(t) && Sized(t) && t == s.(own := t.own, chan := t.chan) && (forall g :: g in t.own ==> g < t.conf.cap)
  {
    if at.Some? {
      GiveKeeps(s, WithChan(s, size, at), at.value, size, ChanMem);
    }
  }

  lemma {:induction false} WithInfoInv(s: State, at: Option<nat>)
    requires Exact(s) && Sized(s) && s.info.None? && (forall g :: g in s.own ==> g < s.conf.cap)
    requires at.Some? ==> Free(s, at.value, INFO_SIZE)
    ensures
      var t := WithInfo(s, at);
      Exact(t) && Sized(t) && t == s.(own := t.own, info := t.info) && (forall g :: g in t.own ==> g < t.conf.cap)
  {
    if at.Some? {
      GiveKeeps(s, WithInfo(s, at), at.value, INFO_SIZE, IpcInfo);
    }
  }

  lemma {:induction false} WithLogInv(s: State, at: Option<nat>)
    requires Exact(s) && Sized(s) && s.log.None? && (forall g :: g in s.own ==> g < s.conf.cap)
    requires at.Some? ==> Free(s, at.value, s.conf.logSize)
    ensures
      var t := WithLog(s, at);
      Exact(t) && Sized(t) && t == s.(own := t.own, log := t.log) && (forall g :: g in t.own ==> g < t.conf.cap)
  {
    if at.Some? {
      GiveKeeps(s, WithLog(s, at), at.value, s.conf.logSize, InfoLog);
    }
  }

  /** Nothing changed hands. */
  lemma {:induction false} Relabelled(s: State, t: State)
    requires Exact(s) && Sized(s) && t.own == s.own && t.shm == s.shm && t.flights == s.flights && t.conf == s.conf
    requires t.cfg == s.cfg && t.chan == s.chan && t.info == s.info && t.log == s.log
    ensures Exact(t) && Sized(t)
  {
    forall o: Owner ensures Holding(t, o) == Holding(s, o) {
    }
    SameOwners(s, t);
  }

  lemma {:induction false} ShakeInv(s: State, e: Event, t: State)
    requires Inv(s) && e.Handshake? && Next(s, e, t)
    ensures Inv(t)
  {
    var b := e.blocks;
    WithChanInv(s, e.size, b.chan);
    var s1 := WithChan(s, e.size, b.chan);
    WithInfoInv(s1, b.info);
    var s2 := WithInfo(s1, b.info);
    if b.chan.Some? && b.info.Some? {
      var s3 := s2.(chanSize := e.size);
      Relabelled(s2, s3);
      WithLogInv(s3, b.log);
      Relabelled(WithLog(s3, b.log), t);
    } else {
      Relabelled(s2, t);
    }
  }

  lemma {:induction false} SameOwners(s: State, t: State)
    requires Exact(s) && t.own == s.own && forall o: Owner :: Holding(t, o) == Holding(s, o)
    ensures Exact(t)
  {
    forall g: nat, p: Owner ensures (g in t.own && t.own[g] == p) <==> Has(t, p, g) {
      assert (g in s.own && s.own[g] == p) <==> Has(s, p, g);
    }
  }

  lemma {:induction false} AllocInv(s: State, k: nat, at: nat, size: nat, t: State)
    requires Inv(s) && Next(s, AllocTaken(k, at, size), t)
    ensures Inv(t)
  {
    GiveKeeps(s, t, at, size, Request(k));
  }

  lemma {:induction false} InsertInv(s: State, k: nat, t: State)
    requires Inv(s) && Next(s, Insert(k), t)
    ensures Inv(t)
  {
    var i := FirstEmpty(s.shm, 0);
    if i < SLOTS {
      HandKeeps(s, t, Request(k), Table(i));
    } else {
      SameOwners(s, t);
    }
  }

  lemma {:induction false} FreeInv(s: State, k: nat, fw: nat, t: State)
    requires Inv(s) && Next(s, FreeAsked(k, fw), t)
    ensures Inv(t)
  {
    var off := FromFw(s.base, GRANULE * s.conf.cap, fw);
    if off.Some? && Tracked(s.shm, off.value) < SLOTS {
      HandKeeps(s, t, Table(Tracked(s.shm, off.value)), Request(k));
    } else {
      SameOwners(s, t);
    }
  }

  lemma {:induction false} ReturnInv(s: State, k: nat, t: State)
    requires Inv(s) && Next(s, Return(k), t)
    ensures Inv(t)
  {
    ReturnKeeps(s, t, Request(k));
  }

  lemma {:induction false} StepInv(s: State, e: Event, t: State)
    requires Inv(s) && Next(s, e, t)
    ensures Inv(t)
  {
    match e
    case Config(at) =>
      if s.cfg.None? && at.Some? {
        GiveKeeps(s, t, at.value, CFG_SIZE, FwCfg);
      }
    case Handshake(_, _, _) => ShakeInv(s, e, t);
    case AllocTaken(k, at, size) => AllocInv(s, k, at, size, t);
    case Insert(k) => InsertInv(s, k, t);
    case FreeAsked(k, fw) => FreeInv(s, k, fw, t);
    case Return(k) => ReturnInv(s, k, t);
    case _ =>
  }

  // ---- what every run guarantees ------------------------------------------------------

  ghost predicate IsRun(tr: seq<State>, es: seq<Event>) {
    && |tr| == |es| + 1 && Init(tr[0])
    && forall i :: 0 <= i < |es| ==> |tr[i].shm| == SLOTS && Next(tr[i], es[i], tr[i + 1])
  }

  lemma {:induction false} RunInv(tr: seq<State>, es: seq<Event>)
    requires IsRun(tr, es)
    ensures Inv(tr[|es|])
    decreases |es|
  {
    if |es| == 0 {
      InitInv(tr[0]);
    } else {
      var m := |es| - 1;
      RunInv(tr[..|es|], es[..m]);
      assert tr[..|es|][m] == tr[m];
      StepInv(tr[m], es[m], tr[m + 1]);
    }
  }

  ghost predicate Disjoint(s: State, o: Owner, p: Owner)
    requires Holding(s, o).Some? && Holding(s, p).Some?
  {
    Cells(Holding(s, o).value.0, Granules(Holding(s, o).value.1))
    !! Cells(Holding(s, p).value.0, Granules(Holding(s, p).value.1))
  }

  /** Over any requests, however they overlap: blocks of different owners are disjoint and inside
      FwIPC, and a granule is out of the pool exactly while somebody holds it. */
  lemma {:induction false} Conserved(tr: seq<State>, es: seq<Event>, o: Owner, p: Owner, g: nat)
    requires IsRun(tr, es)
    ensures
      var s := tr[|es|];
      && (o != p && Holding(s, o).Some? && Holding(s, p).Some? ==> Disjoint(s, o, p))
      && (Has(s, o, g) ==> g < s.conf.cap)
      && (g in s.own <==> exists q: Owner :: Has(s, q, g))
  {
    RunInv(tr, es);
    var s := tr[|es|];
    if g in s.own {
      assert Has(s, s.own[g], g);
    }
    if o != p && Holding(s, o).Some? && Holding(s, p).Some? && !Disjoint(s, o, p) {
      var h :| h in Cells(Holding(s, o).value.0, Granules(Holding(s, o).value.1))
               && h in Cells(Holding(s, p).value.0, Granules(Holding(s, p).value.1));
      assert Has(s, o, h) && Has(s, p, h);
      assert false;
    }
  }

  /** A free of something that is not in the table, a second free of the same block included,
      changes neither the table nor the pool; inside FwIPC it is echoed all the same. */
  lemma {:induction false} UntrackedFree(s: State, k: nat, fw: nat, t: State)
    requires Inv(s) && Next(s, FreeAsked(k, fw), t)
    requires forall i :: 0 <= i < SLOTS && s.shm[i].Held? ==> s.base + GRANULE * s.shm[i].at != fw
    ensures t == s.(sent := s.sent + if s.base <= fw < s.base + GRANULE * s.conf.cap then [Reply(fw, 0)] else [])
  {
    var off := FromFw(s.base, GRANULE * s.conf.cap, fw);
    if off.Some? {
      var i := Tracked(s.shm, off.value);
      assert i == SLOTS;
    }
  }

  // ---- ave_ipc_fini -------------------------------------------------------------------

  /** gen_pool_free of a block: None is its BUG on a granule that is not allocated. */
  ghost function Release(used: Option<set<nat>>, at: nat, size: nat): Option<set<nat>> {
    match used
    case None => None
    case Some(u) =>
      if Cells(at, Granules(size)) <= u then Some(u - Cells(at, Granules(size))) else None
  }

  ghost function ReleaseTable(u: set<nat>, shm: seq<Entry>, n: nat): Option<set<nat>>
    requires n <= |shm|
  {
    if n == 0 then Some(u)
    else
      var r := ReleaseTable(u, shm, n - 1);
      if shm[n - 1].Held? then Release(r, shm[n - 1].at, shm[n - 1].size) else r
  }

  ghost function ReleaseMaybe(used: Option<set<nat>>, at: Option<nat>, size: nat): Option<set<nat>> {
    if at.Some? then Release(used, at.value, size) else used
  }

  /** The granules still allocated after ave_ipc_fini has freed what it remembers. */
  ghost function Fini(s: State): Option<set<nat>>
    requires |s.shm| == SLOTS
  {
    var r0 := ReleaseTable(s.own.Keys, s.shm, SLOTS);
    var r1 := ReleaseMaybe(r0, s.cfg, CFG_SIZE);
    var r2 := if s.chan.Some? then Release(r1, s.chan.value.0, s.chanSize) else r1;
    var r3 := ReleaseMaybe(r2, s.info, INFO_SIZE);
    ReleaseMaybe(r3, s.log, s.conf.logSize)
  }

  /** The order in which it frees. */
  function Stage(o: Owner): nat {
    match o
    case Table(i) => if i < SLOTS then i else SLOTS + 4
    case FwCfg => SLOTS
    case ChanMem => SLOTS + 1
    case IpcInfo => SLOTS + 2
    case InfoLog => SLOTS + 3
    case Request(_) => SLOTS + 4
  }

  ghost function Rest(s: State, m: nat): set<nat> {
    set g | g in s.own && Stage(s.own[g]) >= m
  }

  /** Freeing one owner's block, all of it, at its turn. */
  lemma {:induction false} StageFrees(s: State, o: Owner)
    requires Inv(s) && Stage(o) < SLOTS + 4
    ensures Holding(s, o).Some? ==>
      Release(Some(Rest(s, Stage(o))), Holding(s, o).value.0, Holding(s, o).value.1) == Some(Rest(s, Stage(o) + 1))
    ensures Holding(s, o).None? ==> Rest(s, Stage(o)) == Rest(s, Stage(o) + 1)
  {
    var m := Stage(o);
    forall p: Owner | Stage(p) == m ensures p == o {
    }
    forall g | g in Rest(s, m) && g !in Rest(s, m + 1) ensures Has(s, o, g) {
      assert s.own[g] == o;
    }
    if Holding(s, o).Some? {
      var c := Cells(Holding(s, o).value.0, Granules(Holding(s, o).value.1));
      forall g | g in c ensures g in Rest(s, m) && g !in Rest(s, m + 1) {
        assert Has(s, o, g);
      }
      forall g | g in Rest(s, m) ensures g in c <==> g !in Rest(s, m + 1) {
        assert (g in s.own && s.own[g] == o) <==> Has(s, o, g);
      }
      assert Rest(s, m) - c == Rest(s, m + 1);
    } else {
      assert Rest(s, m) == Rest(s, m + 1);
    }
  }

  lemma {:induction false} TableFrees(s: State, n: nat)
    requires Inv(s) && n <= SLOTS
    ensures ReleaseTable(s.own.Keys, s.shm, n) == Some(Rest(s, n))
  {
    if n == 0 {
      assert Rest(s, 0) == s.own.Keys;
    } else {
      TableFrees(s, n - 1);
      StageFrees(s, Table(n - 1));
    }
  }

  /** The driver remembers how big the channel block is, to the granule. */
  predicate ChanRemembered(s: State) {
    s.chan.Some? ==> Granules(s.chanSize) == Granules(s.chan.value.1)
  }

  /** What is left of the pool once the table, the cfg block and as much as the driver remembers of
      the channel block are free. */
  ghost function UpToChan(s: State): Option<set<nat>> {
    if s.chan.Some? then Release(Some(Rest(s, SLOTS + 1)), s.chan.value.0, s.chanSize) else Some(Rest(s, SLOTS + 1))
  }

  lemma {:induction false} FiniFromChan(s: State)
    requires Inv(s)
    ensures Fini(s) == ReleaseMaybe(ReleaseMaybe(UpToChan(s), s.info, INFO_SIZE), s.log, s.conf.logSize)
  {
    TableFrees(s, SLOTS);
    StageFrees(s, FwCfg);
  }

  lemma {:induction false} RememberedIsEmpty(s: State)
    requires Inv(s) && s.flights == map[] && ChanRemembered(s)
    ensures Fini(s) == Some({})
  {
    FiniFromChan(s);
    StageFrees(s, ChanMem);
    StageFrees(s, IpcInfo);
    StageFrees(s, InfoLog);
    assert Rest(s, SLOTS + 4) == {} by {
      forall g | g in s.own ensures Stage(s.own[g]) < SLOTS + 4 {
        assert Has(s, s.own[g], g);
      }
    }
  }

  /** A granule of somebody else stays. */
  lemma {:induction false} Survives(s: State, u: Option<set<nat>>, o: Owner, at: Option<nat>, size: nat, g: nat)
    requires Inv(s) && g in s.own && s.own[g] != o
    requires Holding(s, o) == if at.Some? then Some((at.value, size)) else None
    requires u.Some? ==> g in u.value
    ensures ReleaseMaybe(u, at, size).Some? ==> g in ReleaseMaybe(u, at, size).value
  {
    assert !Has(s, o, g);
  }

  /** A block with a granule gone cannot be freed. */
  lemma {:induction false} CannotFree(s: State, u: Option<set<nat>>, o: Owner, at: Option<nat>, size: nat, g: nat)
    requires Inv(s) && g in s.own && s.own[g] == o
    requires Holding(s, o) == if at.Some? then Some((at.value, size)) else None
    requires u.Some? ==> g !in u.value
    ensures ReleaseMaybe(u, at, size).None?
  {
    assert Has(s, o, g);
  }

  lemma {:induction false} TooFew(s: State)
    requires Inv(s) && s.flights == map[] && s.chan.Some? && Granules(s.chanSize) < Granules(s.chan.value.1)
    ensures Fini(s) != Some({})
  {
    FiniFromChan(s);
    var g := s.chan.value.0 + Granules(s.chanSize);
    assert Has(s, ChanMem, g);
    assert !InRun(s.chan.value.0, Granules(s.chanSize), g);
    var u := UpToChan(s);
    Survives(s, u, IpcInfo, s.info, INFO_SIZE, g);
    Survives(s, ReleaseMaybe(u, s.info, INFO_SIZE), InfoLog, s.log, s.conf.logSize, g);
  }

  lemma {:induction false} TooMany(s: State)
    requires Inv(s) && s.flights == map[] && s.chan.Some? && Granules(s.chanSize) > Granules(s.chan.value.1)
    ensures Fini(s) != Some({})
  {
    FiniFromChan(s);
    var at, n, m := s.chan.value.0, Granules(s.chan.value.1), Granules(s.chanSize);
    var g := at + n;
    assert g in Cells(at, m);
    var u := UpToChan(s);
    if u.Some? {
      assert g in s.own && Has(s, s.own[g], g) && !Has(s, ChanMem, g);
      if s.own[g] == IpcInfo {
        CannotFree(s, u, IpcInfo, s.info, INFO_SIZE, g);
      } else {
        assert s.own[g] == InfoLog;
        CannotFree(s, ReleaseMaybe(u, s.info, INFO_SIZE), InfoLog, s.log, s.conf.logSize, g);
      }
    }
  }

  /** The pool ends empty, so that it can be destroyed, exactly when the driver remembers the
      size of the channel block: not a granule is lost otherwise. */
  lemma {:induction false} FiniEmptiesThePool(tr: seq<State>, es: seq<Event>)
    requires IsRun(tr, es) && tr[|es|].flights == map[]
    ensures Inv(tr[|es|]) && (Fini(tr[|es|]) == Some({}) <==> ChanRemembered(tr[|es|]))
  {
    RunInv(tr, es);
    var s := tr[|es|];
    if ChanRemembered(s) {
      RememberedIsEmpty(s);
    } else if Granules(s.chanSize) < Granules(s.chan.value.1) {
      TooFew(s);
    } else {
      TooMany(s);
    }
  }

  // ---- which boots lose something ------------------------------------------------------

  /** The granules in front of the channel block: the cfg block's. */
  function Front(s: State): nat {
    if s.cfg.Some? then 1 else 0
  }

  /** The channel block fits, and leaves no room for the info block. */
  predicate Tight(s: State, size: nat) {
    s.conf.cap < Front(s) + Granules(size) + 2 <= s.conf.cap + 2
  }

  /** What is known of a boot's blocks besides who owns what. */
  ghost predicate BootOk(s: State) {
    && (!Up(s) ==> s.flights == map[] && forall i :: 0 <= i < |s.shm| ==> s.shm[i].Empty?)
    && (s.cfg.Some? ==> s.cfg == Some(0))
    && (s.chan.Some? && s.info.None? ==> Tight(s, s.chan.value.1))
    && (s.chan.Some? && s.info.Some? ==> !Tight(s, s.chan.value.1) && s.chanSize == s.chan.value.1)
    && (s.chan.Some? && !s.conf.lenient ==> s.chan.value.1 == s.conf.chSize)
  }

  lemma {:induction false} InCells(at: nat, n: nat, g: nat)
    ensures g in Cells(at, n) <==> InRun(at, n, g)
  {
  }

  /** Before the handshake the pool is empty but for the cfg block. */
  lemma {:induction false} OnlyCfg(s: State, g: nat)
    requires Inv(s) && BootOk(s) && !s.shaken
    ensures g in s.own <==> g < Front(s)
  {
    if g in s.own {
      assert Has(s, s.own[g], g);
    }
    if g < Front(s) {
      InCells(0, 1, 0);
      assert Has(s, FwCfg, 0);
    }
  }

  /** The first n granules taken and no other: a request gets the next ones, if there are enough. */
  lemma {:induction false} NextFit(s: State, n: nat, size: nat, r: Option<nat>)
    requires size > 0 && FirstFit(s, size, r)
    requires forall g: nat :: g in s.own <==> g < n
    ensures r == if n + Granules(size) <= s.conf.cap then Some(n) else None
  {
    forall x: nat | x < n ensures !Free(s, x, size) {
      InCells(x, Granules(size), x);
      assert x in s.own.Keys && x in Cells(x, Granules(size));
    }
    if n + Granules(size) <= s.conf.cap {
      forall g | g in Cells(n, Granules(size)) ensures g !in s.own.Keys {
      }
      assert Free(s, n, size);
    }
  }

  lemma {:induction false} GivenNext(s: State, n: nat, size: nat, o: Owner, g: nat)
    requires forall g: nat :: g in s.own <==> g < n
    ensures g in Give(s.own, n, size, o) <==> g < n + Granules(size)
  {
    InCells(n, Granules(size), g);
  }

  lemma {:induction false} ShakeBoots(s: State, e: Event, t: State)
    requires Inv(s) && BootOk(s) && e.Handshake? && Next(s, e, t)
    ensures BootOk(t)
  {
    forall g: nat ensures g in s.own <==> g < Front(s) {
      OnlyCfg(s, g);
    }
    NextFit(s, Front(s), e.size, e.blocks.chan);
    if e.blocks.chan.Some? {
      var s1 := WithChan(s, e.size, e.blocks.chan);
      forall g: nat ensures g in s1.own <==> g < Front(s) + Granules(e.size) {
        GivenNext(s, Front(s), e.size, ChanMem, g);
      }
      NextFit(s1, Front(s) + Granules(e.size), INFO_SIZE, e.blocks.info);
    }
    ShakeIs(s, e, t);
  }

  lemma {:induction false} ShakeIs(s: State, e: Event, t: State)
    requires Inv(s) && e.Handshake? && Next(s, e, t)
    ensures t.conf == s.conf && t.cfg == s.cfg && t.shm == s.shm && t.flights == s.flights && t.shaken
    ensures t.chan == if e.blocks.chan.Some? then Some((e.blocks.chan.value, e.size)) else None
    ensures t.info == e.blocks.info
    ensures t.chanSize == if e.blocks.chan.Some? && e.blocks.info.Some? then e.size else s.chanSize
    ensures !s.conf.lenient ==> e.size == s.conf.chSize
  {
  }

  lemma {:induction false} ConfigBoots(s: State, e: Event, t: State)
    requires Inv(s) && BootOk(s) && e.Config? && Next(s, e, t)
    ensures BootOk(t)
  {
    if s.cfg.None? {
      forall g: nat ensures g in s.own <==> g < 0 {
        OnlyCfg(s, g);
      }
      NextFit(s, 0, CFG_SIZE, e.cfg);
    }
  }

  lemma {:induction false} StepBoots(s: State, e: Event, t: State)
    requires Inv(s) && BootOk(s) && Next(s, e, t)
    ensures BootOk(t) && t.conf == s.conf
  {
    match e
    case Config(_) => ConfigBoots(s, e, t);
    case Handshake(_, _, _) => ShakeBoots(s, e, t);
    case _ =>
  }

  lemma {:induction false} RunBoots(tr: seq<State>, es: seq<Event>)
    requires IsRun(tr, es)
    ensures Inv(tr[|es|]) && BootOk(tr[|es|]) && tr[|es|].conf == tr[0].conf
    decreases |es|
  {
    RunInv(tr, es);
    if |es| > 0 {
      var m := |es| - 1;
      RunBoots(tr[..|es|], es[..m]);
      assert tr[..|es|][m] == tr[m] && tr[..|es|][0] == tr[0];
      StepBoots(tr[m], es[m], tr[m + 1]);
    }
  }

  /** In every run, over any number of boots, fini leaves something in the pool exactly if the
      channel block of this boot came to fill FwIPC up to less than the info block needs, and the
      size remembered, that of an earlier boot or none, is another one. */
  lemma {:induction false} FiniLosesExactly(tr: seq<State>, es: seq<Event>)
    requires IsRun(tr, es) && tr[|es|].flights == map[]
    ensures Inv(tr[|es|])
    ensures
      var s := tr[|es|];
      Fini(s) != Some({})
      <==> s.chan.Some? && Tight(s, s.chan.value.1) && Granules(s.chanSize) != Granules(s.chan.value.1)
  {
    RunBoots(tr, es);
    FiniEmptiesThePool(tr, es);
  }

  /** With boot_lenient=0 the firmware's size has to be the ABI's, and that is never so big. */
  lemma {:induction false} StrictBootsLoseNothing(tr: seq<State>, es: seq<Event>)
    requires IsRun(tr, es) && tr[|es|].flights == map[]
    requires tr[0].conf == Abi13(false) || tr[0].conf == Abi26(false)
    ensures Inv(tr[|es|]) && Fini(tr[|es|]) == Some({})
  {
    RunBoots(tr, es);
    FiniLosesExactly(tr, es);
  }

  /** With boot_lenient=1, a first boot whose firmware asks for all of FwIPC: never returned. */
  lemma {:induction false} LeakWitness() returns (tr: seq<State>, es: seq<Event>)
    ensures IsRun(tr, es) && tr[0].conf == Abi13(true) && es == [Handshake(7, 0x70_0000, Blocks(Some(0), None, None))]
    ensures tr[|es|].flights == map[] && Fini(tr[|es|]) != Some({})
  {
    var b := Blocks(Some(0), None, None);
    var s := State(Abi13(true), 0, map[], seq(SLOTS, _ => Empty), map[], None, None, 0, None, None, false, []);
    var e, t := Handshake(7, 0x70_0000, b), Shake(s, 0x70_0000, b).(shaken := true);
    tr, es := [s, t], [e];
    assert Granules(0x70_0000) == s.conf.cap;
    assert Free(s, 0, 0x70_0000);
    var s1 := WithChan(s, 0x70_0000, b.chan);
    forall x: nat ensures !Free(s1, x, INFO_SIZE) && !Free(s1, x, 0) {
      if x < s.conf.cap {
        GivenNext(s, 0, 0x70_0000, ChanMem, x);
        InCells(x, Granules(INFO_SIZE), x);
        assert x in s1.own.Keys && x in Cells(x, Granules(INFO_SIZE));
      }
    }
    assert FirstFit(s1, INFO_SIZE, b.info) && FirstFit(WithInfo(s1, b.info), 0, b.log);
    assert Next(s, e, t);
    FiniLosesExactly(tr, es);
  }

  // ---- the table as the driver keeps it -----------------------------------------------

  /** ave->shm[], under ipc_lock. */
  class Shm {
    const slots: array<Entry>

    constructor ()
      ensures slots.Length == SLOTS && fresh(slots) && slots[..] == seq(SLOTS, _ => Empty)
    {
      slots := new Entry[SLOTS](_ => Empty);
    }

    /** The free path: forget the block at this byte. 0: it is not there. */
    method Remove(off: nat) returns (size: nat)
      modifies slots
      ensures
        var i := Tracked(old(slots[..]), off);
        if i < slots.Length then slots[..] == old(slots[..])[i := Empty] && size == old(slots[..])[i].size
        else slots[..] == old(slots[..]) && size == 0
    {
      size := 0;
      for i := 0 to slots.Length
        invariant slots[..] == old(slots[..])
        invariant size == 0 && Tracked(slots[..], off) >= i
      {
        if slots[i].Held? && GRANULE * slots[i].at == off {
          size := slots[i].size;
          slots[i] := Empty;
          return;
        }
      }
    }

    /** The allocation path: false if the table is full. */
    method Insert(at: nat, size: nat) returns (ok: bool)
      modifies slots
      ensures
        var i := FirstEmpty(old(slots[..]), 0);
        if i < slots.Length then ok && slots[..] == old(slots[..])[i := Held(at, size)]
        else !ok && slots[..] == old(slots[..])
    {
      var i := 0;
      while i < slots.Length && slots[i].Held?
        invariant 0 <= i <= slots.Length && slots[..] == old(slots[..])
        invariant FirstEmpty(slots[..], 0) >= i
      {
        i := i + 1;
      }
      ok := i < slots.Length;
      if ok {
        slots[i] := Held(at, size);
      }
    }
  }
}
