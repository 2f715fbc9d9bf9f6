/** IO_T2H: every message the host takes off its type-0 ring is sent straight back as a
    credit, by whichever of any number of concurrent drainers took it. The ring lock is
    dropped between the two, and the result of the echo is ignored. */
module CreditReturn {
  import opened Basics
  import opened Remainders
  import opened Rings

  /** `due`: the echo each drainer still owes; `lost`: echoes Send refused. */
  datatype State = State(h: Handle, due: map<nat, Message>, taken: seq<Message>,
                         echoed: seq<Message>, lost: seq<Message>)

  datatype Action = Take(drainer: nat, m: Message) | EchoBack(drainer: nat)

  function Echo(m: Message): Message {
    Message(m.payload, m.arg1, 0)
  }

  ghost predicate CanStep(s: State, a: Action) {
    match a
    case Take(d, m) => d !in s.due && s.h.rd >= 0
    case EchoBack(d) => d in s.due
  }

  ghost function Step(s: State, a: Action): State
    requires CanStep(s, a)
  {
    match a
    case Take(d, m) => s.(h := AfterRecv(s.h), due := s.due[d := m], taken := s.taken + [m])
    case EchoBack(d) =>
      var e := Echo(s.due[d]);
      if s.h.wr < 0 then s.(due := s.due - {d}, lost := s.lost + [e])
      else s.(h := AfterSend(s.h), due := s.due - {d}, echoed := s.echoed + [e])
  }

  ghost predicate Init(s: State) {
    s.h.nslots >= 1 && s == State(InitHandle(s.h.nslots, 0), map[], [], [], [])
  }

  ghost predicate Next(s: State, t: State) {
    exists a :: CanStep(s, a) && t == Step(s, a)
  }

  ghost predicate IsRun(tr: seq<State>) {
    && |tr| >= 1
    && Init(tr[0])
    && forall i :: 0 <= i < |tr| - 1 ==> Next(tr[i], tr[i + 1])
  }

  /** e goes back for m: the same buffer and size, and no flags. */
  predicate IsEcho(m: Message, e: Message) {
    e.payload == m.payload && e.arg1 == m.arg1 && e.arg2 == 0
  }

  /** How many of `ms` would echo as e. */
  ghost function EchoesOf(ms: seq<Message>, e: Message): nat {
    if ms == [] then 0
    else EchoesOf(ms[..|ms| - 1], e) + if IsEcho(ms[|ms| - 1], e) then 1 else 0
  }

  ghost function DueAs(due: map<nat, Message>, e: Message): set<nat> {
    set d | d in due && IsEcho(due[d], e)
  }

  ghost predicate Cursors(s: State) {
    && s.h.typ == 0
    && s.lost == []
    && |s.taken| == |s.echoed| + |s.due|
    && Tracks(s.h, |s.echoed|, |s.taken|)
  }

  ghost predicate Balanced(s: State, e: Message) {
    EchoesOf(s.taken, e) == multiset(s.echoed)[e] + |DueAs(s.due, e)|
  }

  lemma {:induction false} TakeKeeps(s: State, d: nat, m: Message)
    requires Cursors(s) && CanStep(s, Take(d, m))
    ensures Cursors(Step(s, Take(d, m)))
  {
    CursorsTrack(s.h, |s.echoed|, |s.taken|);
    assert s.due[d := m].Keys == s.due.Keys + {d};
  }

  lemma {:induction false} EchoFits(s: State, d: nat)
    requires Cursors(s) && d in s.due
    ensures s.h.wr >= 0 && |s.due - {d}| == |s.due| - 1
  {
    assert s.due.Keys == (s.due.Keys - {d}) + {d};
    assert (s.due - {d}).Keys == s.due.Keys - {d};
  }

  /** An owed echo means a slot to put it in. */
  lemma {:induction false} CursorsStep(s: State, a: Action)
    requires Cursors(s) && CanStep(s, a)
    ensures Cursors(Step(s, a))
    ensures a.EchoBack? ==> s.h.wr >= 0
  {
    match a
    case Take(d, m) => TakeKeeps(s, d, m);
    case EchoBack(d) =>
      EchoFits(s, d);
      CursorsTrack(s.h, |s.echoed|, |s.taken|);
  }

  lemma {:induction false} DueGrows(due: map<nat, Message>, d: nat, m: Message, e: Message)
    requires d !in due
    ensures |DueAs(due[d := m], e)| == |DueAs(due, e)| + if IsEcho(m, e) then 1 else 0
  {
    if IsEcho(m, e) {
      assert DueAs(due[d := m], e) == DueAs(due, e) + {d};
    } else {
      assert DueAs(due[d := m], e) == DueAs(due, e);
    }
  }

  lemma {:induction false} DueShrinks(due: map<nat, Message>, d: nat, e: Message)
    requires d in due
    ensures |DueAs(due, e)| == |DueAs(due - {d}, e)| + if IsEcho(due[d], e) then 1 else 0
  {
    if IsEcho(due[d], e) {
      assert DueAs(due, e) == DueAs(due - {d}, e) + {d};
    } else {
      assert DueAs(due, e) == DueAs(due - {d}, e);
    }
  }

  lemma {:induction false} BalancedStep(s: State, a: Action, e: Message)
    requires CanStep(s, a) && Balanced(s, e)
    requires a.EchoBack? ==> s.h.wr >= 0
    ensures Balanced(Step(s, a), e)
  {
    match a
    case Take(d, m) =>
      assert (s.taken + [m])[..|s.taken|] == s.taken;
      DueGrows(s.due, d, m, e);
    case EchoBack(d) =>
      DueShrinks(s.due, d, e);
  }

  ghost predicate Inv(s: State) {
    Cursors(s) && forall e :: Balanced(s, e)
  }

  lemma {:induction false} RunInv(tr: seq<State>)
    requires IsRun(tr)
    ensures Inv(tr[|tr| - 1])
    decreases |tr|
  {
    if |tr| > 1 {
      RunInv(tr[..|tr| - 1]);
      var s := tr[|tr| - 2];
      assert Next(s, tr[|tr| - 2 + 1]);
      var a :| CanStep(s, a) && tr[|tr| - 1] == Step(s, a);
      CursorsStep(s, a);
      forall e ensures Balanced(Step(s, a), e) {
        BalancedStep(s, a, e);
      }
    }
  }

  /** However many drainers interleave, the ignored result is always success: no echo is
      lost, every owed one finds a slot, and message by message what was taken is what was
      echoed plus what some drainer still owes. */
  lemma {:induction false} CreditReturnsCannotFail(tr: seq<State>, e: Message, d: nat)
    requires IsRun(tr)
    ensures
      var s := tr[|tr| - 1];
      && s.lost == []
      && (d in s.due ==> s.h.wr >= 0)
      && |s.due| <= s.h.nslots
      && EchoesOf(s.taken, e) == multiset(s.echoed)[e] + |DueAs(s.due, e)|
  {
    RunInv(tr);
    var s := tr[|tr| - 1];
    assert Balanced(s, e);
    if d in s.due {
      CursorsStep(s, EchoBack(d));
    }
  }
}
