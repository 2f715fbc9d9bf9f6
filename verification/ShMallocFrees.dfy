/** One request after the other on the FwIPC pool: what an allocation gives the firmware, and that
    a free of that address undoes it. */
module ShMallocFrees {
  import opened Basics
  import opened ShMalloc

  /** The block's address does not run past 2^64, so that it comes back as it is. */
  predicate InReach(s: State, at: nat) {
    s.base + GRANULE * at < TWO64
  }

  lemma {:induction false} HasFirst(s: State, o: Owner)
    requires Inv(s) && Holding(s, o).Some?
    ensures var g := Holding(s, o).value.0; Has(s, o, g) && g in s.own && s.own[g] == o && g < s.conf.cap
  {
    var g := Holding(s, o).value.0;
    InCells(g, Granules(Holding(s, o).value.1), g);
    assert Has(s, o, g);
  }

  /** No two entries start at the same granule, so the search finds the entry itself. */
  lemma {:induction false} OnlyEntry(s: State, i: nat)
    requires Inv(s) && i < SLOTS && s.shm[i].Held?
    ensures IndexOf(s.shm, s.shm[i].at, 0) == i
  {
    var j := IndexOf(s.shm, s.shm[i].at, 0);
    HasFirst(s, Table(i));
    assert j <= i;
    HasFirst(s, Table(j));
  }

  /** The firmware's address of a tracked block is found again, in that entry. */
  lemma {:induction false} FindsEntry(s: State, i: nat, fw: nat)
    requires Inv(s) && i < SLOTS && s.shm[i].Held? && InReach(s, s.shm[i].at)
    requires fw == ToFw(s.base, GRANULE * s.shm[i].at)
    ensures fw == s.base + GRANULE * s.shm[i].at
    ensures FromFw(s.base, GRANULE * s.conf.cap, fw) == Some(GRANULE * s.shm[i].at)
    ensures Tracked(s.shm, GRANULE * s.shm[i].at) == i
  {
    HasFirst(s, Table(i));
    OnlyEntry(s, i);
    assert (GRANULE * s.shm[i].at) / GRANULE == s.shm[i].at;
  }

  /** What is allocated in s, but for the granules of one block, and by whom. */
  ghost predicate Without(u: map<nat, Owner>, own: map<nat, Owner>, at: nat, size: nat) {
    && (forall g :: g in u <==> g in own && !InRun(at, Granules(size), g))
    && (forall g :: g in u ==> u[g] == own[g])
  }

  lemma {:induction false} HandedAndGone(s: State, o: Owner, p: Owner)
    requires Inv(s) && Holding(s, o).Some?
    ensures
      var (at, size) := Holding(s, o).value;
      Without(Hand(s.own, o, p) - Cells(at, Granules(size)), s.own, at, size)
  {
    var (at, size) := Holding(s, o).value;
    var u := Hand(s.own, o, p) - Cells(at, Granules(size));
    forall g: nat ensures g in u <==> g in s.own && !InRun(at, Granules(size), g) {
      InCells(at, Granules(size), g);
    }
    forall g | g in u ensures u[g] == s.own[g] {
      InCells(at, Granules(size), g);
      assert (g in s.own && s.own[g] == o) <==> Has(s, o, g);
    }
  }

  /** The firmware frees a block it was given: that makes the entry empty and leaves the request with
      the block, and then, and only then, the request gives it back: exactly that block's granules
      are back in the pool, everybody else's stay, and one reply is sent. */
  lemma {:induction false} FreesTheBlock(s: State, i: nat, k: nat, fw: nat, t: State) returns (u: State)
    requires Inv(s) && i < SLOTS && s.shm[i].Held? && InReach(s, s.shm[i].at)
    requires fw == ToFw(s.base, GRANULE * s.shm[i].at) && Next(s, FreeAsked(k, fw), t)
    ensures t == s.(own := t.own, shm := s.shm[i := Empty], flights := s.flights[k := Gone(s.shm[i].at, s.shm[i].size)])
    ensures t.own.Keys == s.own.Keys && Next(t, Return(k), u) && forall x :: Next(t, Return(k), x) ==> x == u
    ensures u == s.(own := u.own, shm := s.shm[i := Empty], sent := s.sent + [Reply(fw, 0)])
    ensures Without(u.own, s.own, s.shm[i].at, s.shm[i].size)
  {
    FindsEntry(s, i, fw);
    var e := s.shm[i];
    assert t == s.(own := Hand(s.own, Table(i), Request(k)), shm := s.shm[i := Empty],
                   flights := s.flights[k := Gone(e.at, e.size)]);
    u := t.(own := t.own - Cells(e.at, Granules(e.size)), flights := t.flights - {k}, sent := t.sent + [Reply(fw, 0)]);
    HandedAndGone(s, Table(i), Request(k));
    assert t.flights - {k} == s.flights;
  }

  /** A request that the pool has a run for and that finds an empty entry is answered with the block's
      address and its size; the pool is short of exactly the block's granules. */
  lemma {:induction false} Allocates(s: State, k: nat, at: nat, size: nat, i: nat) returns (t: State, u: State)
    requires Inv(s) && Up(s) && Fresh(s, k) && FirstFit(s, size, Some(at)) && i == FirstEmpty(s.shm, 0) < SLOTS
    ensures Next(s, AllocTaken(k, at, size), t) && |t.shm| == SLOTS && Next(t, Insert(k), u)
    ensures forall x :: Next(s, AllocTaken(k, at, size), x) ==> x == t
    ensures forall x :: Next(t, Insert(k), x) ==> x == u
    ensures Inv(u) && u.sent == s.sent + [Reply(ToFw(s.base, GRANULE * at), size)]
    ensures u == s.(own := u.own, shm := s.shm[i := Held(at, size)], sent := u.sent)
    ensures Without(s.own, u.own, at, size) && forall g: nat :: InRun(at, Granules(size), g) ==> g in u.own && g !in s.own
  {
    t := s.(own := Give(s.own, at, size, Request(k)), flights := s.flights[k := New(at, size)]);
    u := t.(own := Hand(t.own, Request(k), Table(i)), shm := s.shm[i := Held(at, size)], flights := t.flights - {k},
            sent := s.sent + [Reply(ToFw(s.base, GRANULE * at), size)]);
    AllocInv(s, k, at, size, t);
    InsertInv(t, k, u);
    assert t.flights - {k} == s.flights;
    Taken(s, k, at, size, i, t, u);
  }

  lemma {:induction false} Taken(s: State, k: nat, at: nat, size: nat, i: nat, t: State, u: State)
    requires Inv(s) && Fresh(s, k) && Free(s, at, size)
    requires t.own == Give(s.own, at, size, Request(k)) && u.own == Hand(t.own, Request(k), Table(i))
    ensures Without(s.own, u.own, at, size) && forall g: nat :: InRun(at, Granules(size), g) ==> g in u.own && g !in s.own
  {
    forall g: nat ensures g in u.own <==> g in s.own || InRun(at, Granules(size), g) {
      InCells(at, Granules(size), g);
    }
    forall g: nat | InRun(at, Granules(size), g) ensures g !in s.own {
      InCells(at, Granules(size), g);
      assert g in Cells(at, Granules(size));
    }
    forall g | g in s.own ensures u.own[g] == s.own[g] {
      assert (g in s.own && s.own[g] == Request(k)) <==> Has(s, Request(k), g);
    }
  }

  /** One that finds the table full takes nothing: its granules go back, and nobody is answered. */
  lemma {:induction false} RefusedTakesNothing(s: State, k: nat, at: nat, size: nat) returns (t: State, u: State, v: State)
    requires Inv(s) && Up(s) && Fresh(s, k) && FirstFit(s, size, Some(at)) && forall i :: 0 <= i < SLOTS ==> s.shm[i].Held?
    ensures Next(s, AllocTaken(k, at, size), t) && |t.shm| == SLOTS && Next(t, Insert(k), u) && |u.shm| == SLOTS
    ensures (forall x :: Next(t, Insert(k), x) ==> x == u) && Next(u, Return(k), v)
    ensures v == s && forall x :: Next(u, Return(k), x) ==> x == v
  {
    t := s.(own := Give(s.own, at, size, Request(k)), flights := s.flights[k := New(at, size)]);
    u := t.(flights := t.flights[k := Refused(at, size)]);
    v := u.(own := u.own - Cells(at, Granules(size)), flights := u.flights - {k});
    assert v.flights == s.flights;
    assert v.own == s.own;
  }

  lemma {:induction false} SameMap(u: map<nat, Owner>, own: map<nat, Owner>, mid: map<nat, Owner>, at: nat, size: nat)
    requires Without(u, mid, at, size) && Without(own, mid, at, size)
    ensures u == own
  {
    assert forall g :: g in u <==> g in own;
    assert forall g :: g in u ==> u[g] == own[g];
  }

  /** A block allocated and freed again: the address in the reply is found to be that block, and
      afterwards table, pool and requests are what they were before, with the two replies sent. An
      address of 0 cannot be freed: that asks for memory. */
  lemma {:induction false} AllocatedAndFreed(s: State, k: nat, at: nat, size: nat, l: nat)
      returns (t: State, u: State, v: State, w: State)
    requires Inv(s) && Up(s) && Fresh(s, k) && Fresh(s, l) && FirstFit(s, size, Some(at))
    requires (exists i :: 0 <= i < SLOTS && s.shm[i].Empty?) && InReach(s, at) && s.base + GRANULE * at > 0
    ensures Next(s, AllocTaken(k, at, size), t) && |t.shm| == SLOTS && Next(t, Insert(k), u) && |u.shm| == SLOTS
    ensures u.sent == s.sent + [Reply(s.base + GRANULE * at, size)]
    ensures FromFw(s.base, GRANULE * s.conf.cap, s.base + GRANULE * at) == Some(GRANULE * at)
    ensures Next(u, FreeAsked(l, s.base + GRANULE * at), v) && |v.shm| == SLOTS && Next(v, Return(l), w)
    ensures w == s.(sent := s.sent + [Reply(s.base + GRANULE * at, size), Reply(s.base + GRANULE * at, 0)])
  {
    var i := FirstEmpty(s.shm, 0);
    assert i < SLOTS;
    t, u := Allocates(s, k, at, size, i);
    var fw := ToFw(s.base, GRANULE * at);
    assert u.shm[i] == Held(at, size);
    FindsEntry(u, i, fw);
    v := u.(own := Hand(u.own, Table(i), Request(l)), shm := u.shm[i := Empty], flights := u.flights[l := Gone(at, size)]);
    w := FreesTheBlock(u, i, l, fw, v);
    SameMap(w.own, s.own, u.own, at, size);
    assert u.shm[i := Empty] == s.shm;
    assert u.sent + [Reply(fw, 0)] == s.sent + [Reply(fw, size), Reply(fw, 0)];
  }
}
