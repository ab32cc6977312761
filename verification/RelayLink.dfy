/**
 Sending through a relay link from any number of threads. The opening frame is
 injected by whoever swaps the flag first, outside the lock under which data
 frames are numbered and injected.
 */
module RelayLink {
  import opened Bytes
  import opened Queues

  datatype Packet = Packet(octets: bytes, control: bool)

  datatype Frame = Open | Data(number: nat, packet: Packet)

  /** How far a thread has come in its current send. */
  datatype Phase = Idle
                 | Opening(packet: Packet)
                 | OpenEncoded(packet: Packet)
                 | Waiting(packet: Packet)
                 | Locked(packet: Packet)
                 | Framed(number: nat, packet: Packet)
                 | Encoded(number: nat, packet: Packet)

  datatype Link = Link(isOpen: bool, next: nat, lock: Option<nat>, threads: map<nat, Phase>, bus: seq<Frame>)

  /** One atomic step of a thread; encoding and injecting may fail, which ends the send. */
  datatype Step = Begin(thread: nat, packet: Packet)
                | EncodeOpen(thread: nat, ok: bool)
                | InjectOpen(thread: nat, ok: bool)
                | Acquire(thread: nat)
                | TakeNumber(thread: nat)
                | EncodeData(thread: nat, ok: bool)
                | InjectData(thread: nat, ok: bool)

  function At(l: Link, t: nat): Phase {
    if t in l.threads then l.threads[t] else Idle
  }

  function Set(l: Link, t: nat, phase: Phase): Link {
    l.(threads := l.threads[t := phase])
  }

  function Release(l: Link, t: nat): Link {
    Set(l, t, Idle).(lock := None)
  }

  /** A step that its thread cannot take changes nothing. */
  function Next(l: Link, s: Step): Link {
    var t, phase := s.thread, At(l, s.thread);
    if s.Begin? then
      if !phase.Idle? then l
      else if l.isOpen then Set(l, t, Waiting(s.packet))
      else Set(l, t, Opening(s.packet)).(isOpen := true)
    else if s.EncodeOpen? then
      if !phase.Opening? then l else Set(l, t, if s.ok then OpenEncoded(phase.packet) else Idle)
    else if s.InjectOpen? then
      if !phase.OpenEncoded? then l
      else if s.ok then Set(l, t, Waiting(phase.packet)).(bus := l.bus + [Open])
      else Set(l, t, Idle)
    else if s.Acquire? then
      if !phase.Waiting? || l.lock.Some? then l else Set(l, t, Locked(phase.packet)).(lock := Some(t))
    else if s.TakeNumber? then
      if !phase.Locked? then l
      else Set(l, t, Framed(l.next, phase.packet)).(next := SaturatingIncrement(l.next))
    else if s.EncodeData? then
      if !phase.Framed? then l
      else if s.ok then Set(l, t, Encoded(phase.number, phase.packet))
      else Release(l, t)
    else
      if !phase.Encoded? then l
      else if s.ok then Release(l, t).(bus := l.bus + [Data(phase.number, phase.packet)])
      else Release(l, t)
  }

  function Run(l: Link, steps: seq<Step>): Link {
    if steps == [] then l else Next(Run(l, steps[..|steps| - 1]), steps[|steps| - 1])
  }

  function Fresh(isOpen: bool): Link {
    Link(isOpen, 0, None, map[], [])
  }

  // ----- what the bus has seen ----------------------------------------------

  function Opens(bus: seq<Frame>): nat {
    if bus == [] then 0 else Opens(bus[..|bus| - 1]) + if bus[|bus| - 1].Open? then 1 else 0
  }

  function Numbers(bus: seq<Frame>): seq<nat> {
    if bus == [] then []
    else
      var front, last := Numbers(bus[..|bus| - 1]), bus[|bus| - 1];
      if last.Data? then front + [last.number] else front
  }

  lemma Push(bus: seq<Frame>, f: Frame)
    ensures Opens(bus + [f]) == Opens(bus) + if f.Open? then 1 else 0
    ensures Numbers(bus + [f]) == if f.Data? then Numbers(bus) + [f.number] else Numbers(bus)
  {
    assert (bus + [f])[..|bus|] == bus;
  }

  ghost predicate AllBelow(s: seq<nat>, bound: nat) {
    forall i :: 0 <= i < |s| ==> s[i] < bound
  }

  // ----- the invariant ------------------------------------------------------

  predicate IsOpening(phase: Phase) {
    phase.Opening? || phase.OpenEncoded?
  }

  predicate Holds(phase: Phase) {
    phase.Locked? || phase.Framed? || phase.Encoded?
  }

  /** Whoever swapped the flag opens alone and at most once. */
  ghost predicate OneOpener(l: Link) {
    Opens(l.bus) <= 1
    && (forall t: nat {:trigger At(l, t)} :: IsOpening(At(l, t)) ==> l.isOpen && Opens(l.bus) == 0)
    && (forall t: nat, u: nat {:trigger At(l, t), At(l, u)} ::
          IsOpening(At(l, t)) && IsOpening(At(l, u)) ==> t == u)
    && (!l.isOpen ==> Opens(l.bus) == 0)
  }

  /** The lock is held by exactly the thread between acquiring and injecting. */
  ghost predicate OneHolder(l: Link) {
    forall t: nat {:trigger At(l, t)} :: Holds(At(l, t)) <==> l.lock == Some(t)
  }

  /** Numbers on the bus increase, and the number taken by the holder comes after them. */
  ghost predicate InOrder(l: Link) {
    Increasing(Numbers(l.bus)) && AllBelow(Numbers(l.bus), l.next)
    && forall t: nat {:trigger At(l, t)} :: At(l, t).Framed? || At(l, t).Encoded? ==>
         At(l, t).number < l.next && AllBelow(Numbers(l.bus), At(l, t).number)
  }

  /** A step moves its own thread only. */
  lemma OthersStay(l: Link, s: Step, t: nat)
    requires t != s.thread
    ensures At(Next(l, s), t) == At(l, t)
  {
  }

  lemma BusStep(l: Link, s: Step)
    ensures var after := Next(l, s);
            var phase := At(l, s.thread);
            (Opens(after.bus) == Opens(l.bus)
             || (s.InjectOpen? && phase.OpenEncoded? && Opens(after.bus) == Opens(l.bus) + 1))
            && Numbers(after.bus)
               == if s.InjectData? && phase.Encoded? && s.ok then Numbers(l.bus) + [phase.number] else Numbers(l.bus)
  {
    Push(l.bus, Open);
    if s.InjectData? && At(l, s.thread).Encoded? {
      Push(l.bus, Data(At(l, s.thread).number, At(l, s.thread).packet));
    }
  }

  lemma OneHolderKept(l: Link, s: Step)
    requires OneHolder(l)
    ensures OneHolder(Next(l, s))
  {
    var after := Next(l, s);
    assert Holds(At(l, s.thread)) <==> l.lock == Some(s.thread);
    forall t: nat ensures Holds(At(after, t)) <==> after.lock == Some(t) {
      if t != s.thread {
        OthersStay(l, s, t);
        assert Holds(At(l, t)) <==> l.lock == Some(t);
      }
    }
  }

  lemma OneOpenerKept(l: Link, s: Step)
    requires OneOpener(l)
    ensures OneOpener(Next(l, s))
  {
    var after := Next(l, s);
    BusStep(l, s);
    assert IsOpening(At(l, s.thread)) ==> l.isOpen && Opens(l.bus) == 0;
    forall t: nat | IsOpening(At(after, t)) ensures after.isOpen && Opens(after.bus) == 0 {
      OpenerWas(l, s, t);
    }
    forall t: nat, u: nat | IsOpening(At(after, t)) && IsOpening(At(after, u)) ensures t == u {
      OpenerWas(l, s, t);
      OpenerWas(l, s, u);
    }
  }

  /** A thread that is opening after a step was opening before, or has just swapped the flag. */
  lemma OpenerWas(l: Link, s: Step, t: nat)
    requires OneOpener(l) && IsOpening(At(Next(l, s), t))
    ensures var after := Next(l, s);
            after.isOpen && Opens(after.bus) == 0
            && (IsOpening(At(l, t)) || (t == s.thread && !l.isOpen && forall u: nat :: !IsOpening(At(l, u))))
  {
    BusStep(l, s);
    if t != s.thread {
      OthersStay(l, s, t);
      assert IsOpening(At(l, t)) && !(IsOpening(At(l, s.thread)));
    }
  }

  lemma NumbersKept(l: Link, s: Step)
    requires InOrder(l) && l.next < U64_MAX
    ensures Increasing(Numbers(Next(l, s).bus)) && AllBelow(Numbers(Next(l, s).bus), Next(l, s).next)
  {
    BusStep(l, s);
    NextGrows(l, s);
    if s.InjectData? && At(l, s.thread).Encoded? && s.ok {
      IncreasingPush(Numbers(l.bus), At(l, s.thread).number, Next(l, s).next);
    }
  }

  lemma NextGrows(l: Link, s: Step)
    requires l.next < U64_MAX
    ensures l.next <= Next(l, s).next
  {
  }

  lemma IncreasingPush(s: seq<nat>, n: nat, bound: nat)
    requires Increasing(s) && AllBelow(s, n) && n < bound
    ensures Increasing(s + [n]) && AllBelow(s + [n], bound)
  {
  }

  lemma HolderKept(l: Link, s: Step, t: nat)
    requires OneHolder(l) && InOrder(l) && l.next < U64_MAX
    requires At(Next(l, s), t).Framed? || At(Next(l, s), t).Encoded?
    ensures At(Next(l, s), t).number < Next(l, s).next
    ensures AllBelow(Numbers(Next(l, s).bus), At(Next(l, s), t).number)
  {
    BusStep(l, s);
    assert Holds(At(l, s.thread)) <==> l.lock == Some(s.thread);
    if t != s.thread {
      OthersStay(l, s, t);
      assert Holds(At(l, t)) <==> l.lock == Some(t);
    } else {
      assert At(l, t).Framed? || At(l, t).Locked? || At(l, t).Encoded?;
    }
  }

  lemma InOrderKept(l: Link, s: Step)
    requires OneHolder(l) && InOrder(l) && l.next < U64_MAX
    ensures InOrder(Next(l, s))
  {
    NumbersKept(l, s);
    forall t: nat | At(Next(l, s), t).Framed? || At(Next(l, s), t).Encoded?
      ensures At(Next(l, s), t).number < Next(l, s).next
      ensures AllBelow(Numbers(Next(l, s).bus), At(Next(l, s), t).number)
    {
      HolderKept(l, s, t);
    }
  }

  lemma NextAtMostOne(l: Link, s: Step)
    ensures Next(l, s).next <= l.next + 1
  {
  }

  /** Every interleaving keeps all of it; counting steps bounds the sequence counter. */
  lemma {:induction false} RunInv(isOpen: bool, steps: seq<Step>)
    requires |steps| < U64_MAX
    ensures var l := Run(Fresh(isOpen), steps);
            OneOpener(l) && OneHolder(l) && InOrder(l) && l.next <= |steps|
  {
    if steps != [] {
      var before := Run(Fresh(isOpen), steps[..|steps| - 1]);
      RunInv(isOpen, steps[..|steps| - 1]);
      OneHolderKept(before, steps[|steps| - 1]);
      OneOpenerKept(before, steps[|steps| - 1]);
      InOrderKept(before, steps[|steps| - 1]);
      NextAtMostOne(before, steps[|steps| - 1]);
    }
  }

  /** At most one opening frame, and data frames in strictly increasing order, for every interleaving. */
  lemma EveryInterleaving(isOpen: bool, steps: seq<Step>)
    requires |steps| < U64_MAX
    ensures var bus := Run(Fresh(isOpen), steps).bus;
            Opens(bus) <= 1 && Increasing(Numbers(bus))
  {
    RunInv(isOpen, steps);
  }

  /** Nobody opens and nobody will. */
  ghost predicate PastOpening(l: Link) {
    l.isOpen && forall t: nat {:trigger At(l, t)} :: !IsOpening(At(l, t))
  }

  /** Then no opening frame follows in any interleaving. */
  lemma {:induction false} NoMoreOpening(l: Link, steps: seq<Step>)
    requires PastOpening(l)
    ensures PastOpening(Run(l, steps)) && Opens(Run(l, steps).bus) == Opens(l.bus)
  {
    if steps != [] {
      var before := Run(l, steps[..|steps| - 1]);
      var s := steps[|steps| - 1];
      NoMoreOpening(l, steps[..|steps| - 1]);
      BusStep(before, s);
      assert !IsOpening(At(before, s.thread));
      forall t: nat ensures !IsOpening(At(Next(before, s), t)) {
        if t != s.thread {
          OthersStay(before, s, t);
        }
      }
    }
  }

  /** A link that starts opened never injects an opening frame. */
  lemma NeverOpensAgain(steps: seq<Step>)
    ensures Opens(Run(Fresh(true), steps).bus) == 0
  {
    NoMoreOpening(Fresh(true), steps);
  }

  /** Nor does a link whose opening failed, at encoding or at injecting. */
  lemma FailedOpeningIsFinal(l: Link, s: Step, steps: seq<Step>)
    requires OneOpener(l) && IsOpening(At(l, s.thread)) && Next(l, s) != l
    requires (s.EncodeOpen? || s.InjectOpen?) && !s.ok
    ensures Opens(Run(Next(l, s), steps).bus) == 0
  {
    NobodyElseOpens(l, s);
    BusStep(l, s);
    NoMoreOpening(Next(l, s), steps);
  }

  lemma NobodyElseOpens(l: Link, s: Step)
    requires OneOpener(l) && IsOpening(At(l, s.thread)) && Next(l, s) != l
    requires (s.EncodeOpen? || s.InjectOpen?) && !s.ok
    ensures PastOpening(Next(l, s)) && Next(l, s).bus == l.bus && At(Next(l, s), s.thread).Idle?
    ensures Next(l, s).lock == l.lock
  {
    forall t: nat ensures !IsOpening(At(Next(l, s), t)) {
      if t != s.thread {
        OthersStay(l, s, t);
        assert IsOpening(At(l, t)) && IsOpening(At(l, s.thread)) ==> t == s.thread;
      }
    }
  }

  // ----- data before the opening frame --------------------------------------

  lemma RunPush(l: Link, steps: seq<Step>, s: Step)
    ensures Run(l, steps + [s]) == Next(Run(l, steps), s)
  {
    assert (steps + [s])[..|steps|] == steps;
  }

  lemma RunTwo(l: Link, a: Step, b: Step)
    ensures Run(l, [a, b]) == Next(Next(l, a), b)
  {
    RunPush(l, [], a);
    RunPush(l, [a], b);
    assert [] + [a] == [a] && [a] + [b] == [a, b];
  }

  lemma RunFour(l: Link, a: Step, b: Step, c: Step, d: Step)
    ensures Run(l, [a, b, c, d]) == Next(Next(Next(Next(l, a), b), c), d)
  {
    RunTwo(l, a, b);
    RunTwo(Run(l, [a, b]), c, d);
    RunAppend(l, [a, b], [c, d]);
    assert [a, b] + [c, d] == [a, b, c, d];
  }

  lemma {:induction false} RunAppend(l: Link, a: seq<Step>, b: seq<Step>)
    ensures Run(l, a + b) == Run(Run(l, a), b)
  {
    if b == [] {
      assert a + b == a;
    } else {
      var front, last := b[..|b| - 1], b[|b| - 1];
      assert a + b == (a + front) + [last] && b == front + [last];
      RunAppend(l, a, front);
      RunPush(l, a + front, last);
      RunPush(Run(l, a), front, last);
    }
  }

  /** Two threads begin; the second one numbers its frame. */
  lemma Overtaking(a: Packet, b: Packet)
    ensures Run(Fresh(false), [Begin(1, a), Begin(2, b), Acquire(2), TakeNumber(2)])
            == Link(true, 1, Some(2), map[1 := Opening(a), 2 := Framed(0, b)], [])
  {
    RunFour(Fresh(false), Begin(1, a), Begin(2, b), Acquire(2), TakeNumber(2));
  }

  /** The second one injects it before the first has opened. */
  lemma Overtaken(a: Packet, b: Packet)
    ensures Run(Link(true, 1, Some(2), map[1 := Opening(a), 2 := Framed(0, b)], []),
                [EncodeData(2, true), InjectData(2, true), EncodeOpen(1, true), InjectOpen(1, true)]).bus
            == [Data(0, b), Open]
  {
    RunFour(Link(true, 1, Some(2), map[1 := Opening(a), 2 := Framed(0, b)], []),
            EncodeData(2, true), InjectData(2, true), EncodeOpen(1, true), InjectOpen(1, true));
  }

  /** An interleaving of two threads in which a data frame reaches the bus first. */
  lemma DataCanComeFirst(a: Packet, b: Packet)
    ensures Run(Fresh(false),
                [Begin(1, a), Begin(2, b), Acquire(2), TakeNumber(2)]
                + [EncodeData(2, true), InjectData(2, true), EncodeOpen(1, true), InjectOpen(1, true)]).bus
            == [Data(0, b), Open]
  {
    Overtaking(a, b);
    Overtaken(a, b);
    RunAppend(Fresh(false), [Begin(1, a), Begin(2, b), Acquire(2), TakeNumber(2)],
              [EncodeData(2, true), InjectData(2, true), EncodeOpen(1, true), InjectOpen(1, true)]);
  }

  /** No send begins while another is still opening, and opening does not fail. */
  ghost predicate Calm(l: Link, s: Step) {
    (s.Begin? ==> forall t: nat :: !IsOpening(At(l, t)))
    && (s.EncodeOpen? ==> s.ok) && (s.InjectOpen? ==> s.ok)
  }

  ghost predicate CalmRun(l: Link, steps: seq<Step>) {
    forall i :: 0 <= i < |steps| ==> Calm(Run(l, steps[..i]), steps[i])
  }

  /** Nobody is past opening before the opening frame is out. */
  ghost predicate OpenFirst(l: Link) {
    if l.bus == [] then
      (forall t: nat {:trigger At(l, t)} :: At(l, t).Idle? || IsOpening(At(l, t)))
      && (forall t: nat {:trigger At(l, t)} :: IsOpening(At(l, t)) ==> l.isOpen)
      && (l.isOpen ==> exists t: nat :: IsOpening(At(l, t)))
    else l.bus[0] == Open && l.isOpen
  }

  lemma OpenFirstKept(l: Link, s: Step)
    requires OpenFirst(l) && Calm(l, s)
    ensures OpenFirst(Next(l, s))
  {
    var after := Next(l, s);
    if l.bus == [] && after.bus == [] {
      forall t: nat
        ensures At(after, t).Idle? || IsOpening(At(after, t))
        ensures IsOpening(At(after, t)) ==> after.isOpen
      {
        assert At(l, t).Idle? || IsOpening(At(l, t));
        if t != s.thread {
          OthersStay(l, s, t);
        }
      }
      if after.isOpen {
        var t := if l.isOpen then OpenerOf(l) else s.thread;
        assert At(l, s.thread).Idle? || IsOpening(At(l, s.thread));
        if t != s.thread {
          OthersStay(l, s, t);
        }
        assert IsOpening(At(after, t));
      }
    } else if l.bus == [] {
      assert At(l, s.thread).Idle? || IsOpening(At(l, s.thread));
    }
  }

  ghost function OpenerOf(l: Link): (t: nat)
    requires exists t: nat :: IsOpening(At(l, t))
    ensures IsOpening(At(l, t))
  {
    var t: nat :| IsOpening(At(l, t));
    t
  }

  // ----- the discipline is exact --------------------------------------------

  /** What is on the bus, if anything, starts with the opening frame. */
  predicate Ordered(l: Link) {
    l.bus == [] || l.bus[0] == Open
  }

  /** However the link goes on without a further breach of the discipline, it stays ordered. */
  ghost predicate StaysOrdered(l: Link) {
    forall more: seq<Step> :: CalmRun(l, more) ==> Ordered(Run(l, more))
  }

  lemma {:induction false} CalmKeepsOpenFirst(l: Link, more: seq<Step>)
    requires OpenFirst(l) && CalmRun(l, more)
    ensures OpenFirst(Run(l, more))
  {
    if more != [] {
      var front := more[..|more| - 1];
      forall i | 0 <= i < |front| ensures Calm(Run(l, front[..i]), front[i]) {
        assert front[..i] == more[..i];
        assert Calm(Run(l, more[..i]), more[i]);
      }
      CalmKeepsOpenFirst(l, front);
      assert Calm(Run(l, more[..|front|]), more[|front|]);
      OpenFirstKept(Run(l, front), more[|front|]);
    }
  }

  /** The rest of a send that waits for the lock. */
  function Overtake(t: nat): seq<Step> {
    [Acquire(t), TakeNumber(t), EncodeData(t, true), InjectData(t, true)]
  }

  lemma OvertakeCalm(l: Link, t: nat)
    ensures CalmRun(l, Overtake(t))
  {
  }

  /** A thread that waits for a free lock can put its data on the bus next. */
  lemma OvertakeWorks(l: Link, t: nat)
    requires At(l, t).Waiting? && l.lock.None?
    ensures Run(l, Overtake(t)).bus == l.bus + [Data(l.next, At(l, t).packet)]
  {
    RunFour(l, Acquire(t), TakeNumber(t), EncodeData(t, true), InjectData(t, true));
    var l2 := Next(Next(l, Acquire(t)), TakeNumber(t));
    assert At(l2, t) == Framed(l.next, At(l, t).packet);
  }

  /** Before the first frame of an ordered link nobody holds the lock. */
  lemma LockFree(l: Link)
    requires OpenFirst(l) && OneHolder(l) && l.bus == []
    ensures l.lock.None?
  {
    var t := if l.lock.Some? then l.lock.value else 0;
    assert At(l, t).Idle? || IsOpening(At(l, t));
    assert Holds(At(l, t)) <==> l.lock == Some(t);
  }

  /** A send that begins while another is opening can put its data first. */
  lemma OvertakesOpening(l: Link, s: Step)
    requires OpenFirst(l) && OneHolder(l) && l.bus == []
    requires s.Begin? && !Calm(l, s) && Next(l, s) != l
    ensures !StaysOrdered(Next(l, s))
  {
    LockFree(l);
    var opener := OpenerOf(l);
    assert IsOpening(At(l, opener)) ==> l.isOpen;
    OvertakeCalm(Next(l, s), s.thread);
    OvertakeWorks(Next(l, s), s.thread);
  }

  /** After an opening that failed the next send goes out without it. */
  lemma FollowsFailure(l: Link, s: Step)
    requires OpenFirst(l) && OneHolder(l) && OneOpener(l) && l.bus == []
    requires !s.Begin? && !Calm(l, s) && Next(l, s) != l
    ensures !StaysOrdered(Next(l, s))
  {
    LockFree(l);
    NobodyElseOpens(l, s);
    var (failed, t, p) := (Next(l, s), s.thread, Packet([], false));
    var again := Next(failed, Begin(t, p));
    OvertakeWorks(again, t);
    RunAppend(failed, [Begin(t, p)], Overtake(t));
    RunPush(failed, [], Begin(t, p));
    assert [] + [Begin(t, p)] == [Begin(t, p)];
    CalmAfterBegin(failed, t, p);
  }

  lemma CalmAfterBegin(l: Link, t: nat, p: Packet)
    requires PastOpening(l)
    ensures CalmRun(l, [Begin(t, p)] + Overtake(t))
  {
    var more := [Begin(t, p)] + Overtake(t);
    forall i | 0 <= i < |more| ensures Calm(Run(l, more[..i]), more[i]) {
      if i == 0 {
        assert more[..0] == [];
      }
    }
  }

  /**
   Before the first frame, a step that does anything keeps the discipline exactly when the opening frame comes first
   in every continuation that keeps it from there on.
   */
  lemma CalmExactly(l: Link, s: Step)
    requires OpenFirst(l) && OneHolder(l) && OneOpener(l) && l.bus == [] && Next(l, s) != l
    ensures Calm(l, s) <==> StaysOrdered(Next(l, s))
  {
    if Calm(l, s) {
      OpenFirstKept(l, s);
      OpenFirstIsSafe(Next(l, s));
    } else if s.Begin? {
      OvertakesOpening(l, s);
    } else {
      FollowsFailure(l, s);
    }
  }

  /** Step `i` keeps the discipline if it comes before the first frame. */
  ghost predicate CalmStep(steps: seq<Step>, i: nat)
    requires i < |steps|
  {
    Run(Fresh(false), steps[..i]).bus == [] ==> Calm(Run(Fresh(false), steps[..i]), steps[i])
  }

  ghost predicate CalmUpTo(steps: seq<Step>, n: nat)
    requires n <= |steps|
  {
    forall i {:trigger CalmStep(steps, i)} :: 0 <= i < n ==> CalmStep(steps, i)
  }

  /** No step was one that its thread could not take. */
  ghost predicate AllTaken(steps: seq<Step>) {
    forall i {:trigger steps[..i]} :: 0 <= i < |steps| ==>
      Next(Run(Fresh(false), steps[..i]), steps[i]) != Run(Fresh(false), steps[..i])
  }

  ghost predicate AlwaysOrdered(steps: seq<Step>) {
    forall i {:trigger steps[..i]} :: 0 <= i <= |steps| ==> StaysOrdered(Run(Fresh(false), steps[..i]))
  }

  lemma OpenFirstStays(l: Link, s: Step)
    requires OpenFirst(l) && l.bus != []
    ensures OpenFirst(Next(l, s))
  {
  }

  lemma {:induction false} DisciplineSuffices(steps: seq<Step>, n: nat)
    requires n <= |steps| && CalmUpTo(steps, n)
    ensures OpenFirst(Run(Fresh(false), steps[..n]))
  {
    if n > 0 {
      DisciplineSuffices(steps, n - 1);
      var l, s := Run(Fresh(false), steps[..n - 1]), steps[n - 1];
      assert steps[..n] == steps[..n - 1] + [s];
      RunPush(Fresh(false), steps[..n - 1], s);
      assert CalmStep(steps, n - 1);
      if l.bus == [] {
        OpenFirstKept(l, s);
      } else {
        OpenFirstStays(l, s);
      }
    }
  }

  /** The first breach from `n` on. */
  lemma {:induction false} FirstBreach(steps: seq<Step>, n: nat) returns (i: nat)
    requires n <= |steps| && CalmUpTo(steps, n) && !CalmUpTo(steps, |steps|)
    ensures i < |steps| && CalmUpTo(steps, i) && !CalmStep(steps, i)
    decreases |steps| - n
  {
    if CalmStep(steps, n) {
      i := FirstBreach(steps, n + 1);
    } else {
      i := n;
    }
  }

  lemma OpenFirstIsSafe(l: Link)
    requires OpenFirst(l)
    ensures StaysOrdered(l)
  {
    forall more: seq<Step> | CalmRun(l, more) ensures Ordered(Run(l, more)) {
      CalmKeepsOpenFirst(l, more);
    }
  }

  /** A breach lets data come first. */
  lemma BreachIsUnsafe(steps: seq<Step>, i: nat)
    requires i < |steps| < U64_MAX && CalmUpTo(steps, i) && !CalmStep(steps, i)
    requires Next(Run(Fresh(false), steps[..i]), steps[i]) != Run(Fresh(false), steps[..i])
    ensures !StaysOrdered(Run(Fresh(false), steps[..i + 1]))
  {
    DisciplineSuffices(steps, i);
    RunInv(false, steps[..i]);
    CalmExactly(Run(Fresh(false), steps[..i]), steps[i]);
    assert steps[..i + 1] == steps[..i] + [steps[i]];
    RunPush(Fresh(false), steps[..i], steps[i]);
  }

  /**
   A run in which every step is taken has the opening frame first, in every continuation from any of its points that
   keeps the discipline from there on, exactly when every step up to the first frame keeps it.
   */
  lemma DisciplineExactly(steps: seq<Step>)
    requires AllTaken(steps) && |steps| < U64_MAX
    ensures AlwaysOrdered(steps) <==> CalmUpTo(steps, |steps|)
  {
    if CalmUpTo(steps, |steps|) {
      forall i | 0 <= i <= |steps| ensures StaysOrdered(Run(Fresh(false), steps[..i])) {
        DisciplineSuffices(steps, i);
        OpenFirstIsSafe(Run(Fresh(false), steps[..i]));
      }
    } else {
      var i := FirstBreach(steps, 0);
      BreachIsUnsafe(steps, i);
    }
  }

  // ----- without any discipline ---------------------------------------------

  /** The opening frame is first whatever happens next. */
  ghost predicate OrderedWhatever(l: Link) {
    forall more: seq<Step> :: Ordered(Run(l, more))
  }

  lemma {:induction false} BusGrows(l: Link, more: seq<Step>)
    ensures l.bus <= Run(l, more).bus
  {
    if more != [] {
      BusGrows(l, more[..|more| - 1]);
      BusKept(Run(l, more[..|more| - 1]), more[|more| - 1]);
    }
  }

  lemma BusKept(l: Link, s: Step)
    ensures l.bus <= Next(l, s).bus
  {
  }

  lemma {:induction false} UnusedThread(used: set<nat>) returns (t: nat)
    ensures forall u :: u in used ==> u < t
  {
    if used == {} {
      t := 0;
    } else {
      var u :| u in used;
      var rest := UnusedThread(used - {u});
      t := if u < rest then rest else u + 1;
      forall w | w in used ensures w < t {
        assert w == u || w in used - {u};
      }
    }
  }

  /** What is left of the send of the thread that holds the lock. */
  function RestOfSend(t: nat, phase: Phase): seq<Step>
    requires Holds(phase)
  {
    if phase.Locked? then [TakeNumber(t), EncodeData(t, true), InjectData(t, true)]
    else if phase.Framed? then [EncodeData(t, true), InjectData(t, true)]
    else [InjectData(t, true)]
  }

  lemma EncodedInjects(l: Link, t: nat)
    requires At(l, t).Encoded?
    ensures Next(l, InjectData(t, true)).bus == l.bus + [Data(At(l, t).number, At(l, t).packet)]
  {
  }

  lemma FramedInjects(l: Link, t: nat)
    requires At(l, t).Framed?
    ensures Run(l, [EncodeData(t, true), InjectData(t, true)]).bus
            == l.bus + [Data(At(l, t).number, At(l, t).packet)]
  {
    RunTwo(l, EncodeData(t, true), InjectData(t, true));
    EncodedInjects(Next(l, EncodeData(t, true)), t);
  }

  /** The holder's data can come next. */
  lemma HolderInjects(l: Link, t: nat)
    requires Holds(At(l, t)) && l.bus == []
    ensures !Ordered(Run(l, RestOfSend(t, At(l, t))))
  {
    if At(l, t).Locked? {
      var numbered := Next(l, TakeNumber(t));
      FramedInjects(numbered, t);
      RunAppend(l, [TakeNumber(t)], [EncodeData(t, true), InjectData(t, true)]);
      RunPush(l, [], TakeNumber(t));
      assert [] + [TakeNumber(t)] == [TakeNumber(t)];
      assert [TakeNumber(t)] + [EncodeData(t, true), InjectData(t, true)] == RestOfSend(t, At(l, t));
    } else if At(l, t).Framed? {
      FramedInjects(l, t);
    } else {
      RunPush(l, [], InjectData(t, true));
      assert [] + [InjectData(t, true)] == [InjectData(t, true)];
      EncodedInjects(l, t);
    }
  }

  /** With the lock free, two new threads are enough for data to come first. */
  lemma NewcomersInject(l: Link, t: nat, p: Packet)
    requires l.bus == [] && l.lock.None? && t !in l.threads && t + 1 !in l.threads
    ensures !Ordered(Run(l, [Begin(t, p), Begin(t + 1, p)] + Overtake(t + 1)))
  {
    var begun := Run(l, [Begin(t, p), Begin(t + 1, p)]);
    RunTwo(l, Begin(t, p), Begin(t + 1, p));
    assert At(begun, t + 1) == Waiting(p);
    OvertakeWorks(begun, t + 1);
    RunAppend(l, [Begin(t, p), Begin(t + 1, p)], Overtake(t + 1));
  }

  /** The opening frame is first whatever the threads do exactly when it is on the bus already. */
  lemma OrderedWhateverExactly(l: Link)
    requires OneHolder(l)
    ensures OrderedWhatever(l) <==> l.bus != [] && l.bus[0] == Open
  {
    if l.bus != [] {
      assert Run(l, []) == l;
      forall more: seq<Step> ensures Run(l, more).bus != [] && Run(l, more).bus[0] == l.bus[0] {
        BusGrows(l, more);
      }
    } else if l.lock.Some? {
      var t := l.lock.value;
      assert Holds(At(l, t)) <==> l.lock == Some(t);
      HolderInjects(l, t);
    } else {
      var t := UnusedThread(l.threads.Keys);
      NewcomersInject(l, t, Packet([], false));
    }
  }

  // ----- sends one after the other ------------------------------------------

  /** Nobody is sending. */
  ghost predicate Quiet(l: Link) {
    l.lock == None && forall t: nat :: At(l, t).Idle?
  }

  /** The seven steps of one send by a single thread, with nothing failing. */
  function SendOne(l: Link, t: nat, p: Packet): Link {
    var l1 := Next(l, Begin(t, p));
    var l2 := Next(Next(l1, EncodeOpen(t, true)), InjectOpen(t, true));
    var l3 := Next(Next(l2, Acquire(t)), TakeNumber(t));
    Next(Next(l3, EncodeData(t, true)), InjectData(t, true))
  }

  lemma SendOneIsRun(l: Link, t: nat, p: Packet)
    ensures Run(l, [Begin(t, p), EncodeOpen(t, true), InjectOpen(t, true), Acquire(t)]
                   + [TakeNumber(t), EncodeData(t, true), InjectData(t, true)])
            == SendOne(l, t, p)
  {
    var first := [Begin(t, p), EncodeOpen(t, true), InjectOpen(t, true), Acquire(t)];
    var second := [TakeNumber(t), EncodeData(t, true), InjectData(t, true)];
    RunAppend(l, first, second);
    RunFour(l, Begin(t, p), EncodeOpen(t, true), InjectOpen(t, true), Acquire(t));
    var m := Run(l, first);
    RunPush(m, [], TakeNumber(t));
    RunPush(m, [TakeNumber(t)], EncodeData(t, true));
    RunPush(m, [TakeNumber(t), EncodeData(t, true)], InjectData(t, true));
    assert [] + [TakeNumber(t)] == [TakeNumber(t)];
    assert [TakeNumber(t)] + [EncodeData(t, true)] == [TakeNumber(t), EncodeData(t, true)];
    assert [TakeNumber(t), EncodeData(t, true)] + [InjectData(t, true)] == second;
  }

  lemma SendOneEffect(l: Link, t: nat, p: Packet)
    requires Quiet(l)
    ensures var after := SendOne(l, t, p);
            Quiet(after) && after.isOpen && after.next == SaturatingIncrement(l.next)
            && after.bus == l.bus + (if l.isOpen then [] else [Open]) + [Data(l.next, p)]
  {
    var l1 := Next(l, Begin(t, p));
    var l2 := Next(Next(l1, EncodeOpen(t, true)), InjectOpen(t, true));
    assert At(l2, t) == Waiting(p) && l2.bus == l.bus + if l.isOpen then [] else [Open];
    var l3 := Next(Next(l2, Acquire(t)), TakeNumber(t));
    assert At(l3, t) == Framed(l.next, p);
    forall u: nat ensures At(SendOne(l, t, p), u).Idle? {
      if u != t {
        SendOneOthers(l, t, p, u);
      }
    }
  }

  lemma SendOneOthers(l: Link, t: nat, p: Packet, u: nat)
    requires u != t
    ensures At(SendOne(l, t, p), u) == At(l, u)
  {
    var l1 := Next(l, Begin(t, p));
    var l2 := Next(Next(l1, EncodeOpen(t, true)), InjectOpen(t, true));
    var l3 := Next(Next(l2, Acquire(t)), TakeNumber(t));
    OthersStay(l, Begin(t, p), u);
    OthersStay(l1, EncodeOpen(t, true), u);
    OthersStay(Next(l1, EncodeOpen(t, true)), InjectOpen(t, true), u);
    OthersStay(l2, Acquire(t), u);
    OthersStay(Next(l2, Acquire(t)), TakeNumber(t), u);
    OthersStay(l3, EncodeData(t, true), u);
    OthersStay(Next(l3, EncodeData(t, true)), InjectData(t, true), u);
  }

  function SendAll(l: Link, sends: seq<(nat, Packet)>): Link {
    if sends == [] then l
    else SendOne(SendAll(l, sends[..|sends| - 1]), sends[|sends| - 1].0, sends[|sends| - 1].1)
  }

  function DataFrames(sends: seq<(nat, Packet)>): seq<Frame> {
    seq(|sends|, i requires 0 <= i < |sends| => Data(i, sends[i].1))
  }

  /** Sequential sends put the opening frame first and then the data frames 0, 1, 2 and so on. */
  lemma {:induction false} SequentialTrace(sends: seq<(nat, Packet)>)
    requires |sends| < U64_MAX
    ensures var l := SendAll(Fresh(false), sends);
            Quiet(l) && l.next == |sends| && (l.isOpen <==> sends != [])
            && l.bus == (if sends == [] then [] else [Open]) + DataFrames(sends)
  {
    if sends != [] {
      var front, last := sends[..|sends| - 1], sends[|sends| - 1];
      SequentialTrace(front);
      SendOneEffect(SendAll(Fresh(false), front), last.0, last.1);
      DataFramesPush(sends);
    }
  }

  lemma DataFramesPush(sends: seq<(nat, Packet)>)
    requires sends != []
    ensures var front, last := sends[..|sends| - 1], sends[|sends| - 1];
            (if front == [] then [Open] else [Open] + DataFrames(front)) + [Data(|front|, last.1)]
            == [Open] + DataFrames(sends)
    ensures sends[..|sends| - 1] == [] ==> DataFrames(sends[..|sends| - 1]) == []
  {
    var front, last := sends[..|sends| - 1], sends[|sends| - 1];
    assert DataFrames(sends) == DataFrames(front) + [Data(|front|, last.1)];
  }
}
