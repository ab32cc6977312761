/** No packet is lost on the relay link unless its send fails, and a send that fails lets go of the link. */
module RelayPackets {
  import opened Bytes
  import opened RelayLink

  // ----- counting -----------------------------------------------------------

  predicate Carries(phase: Phase, p: Packet) {
    !phase.Idle? && phase.packet == p
  }

  /** The threads that are sending `p`. */
  function Sending(l: Link, p: Packet): set<nat> {
    set t | t in l.threads && Carries(l.threads[t], p)
  }

  /** The data frames with `p` on the bus. */
  function OnBus(bus: seq<Frame>, p: Packet): nat {
    if bus == [] then 0
    else OnBus(bus[..|bus| - 1], p)
         + if bus[|bus| - 1].Data? && bus[|bus| - 1].packet == p then 1 else 0
  }

  /** An idle thread begins to send `p`. */
  predicate Begins(l: Link, s: Step, p: Packet) {
    s.Begin? && s.packet == p && At(l, s.thread).Idle?
  }

  /** Encoding or injecting fails for a thread that sends `p`. */
  predicate Fails(l: Link, s: Step, p: Packet) {
    var phase := At(l, s.thread);
    Carries(phase, p)
    && ((s.EncodeOpen? && !s.ok && phase.Opening?) || (s.InjectOpen? && !s.ok && phase.OpenEncoded?)
        || (s.EncodeData? && !s.ok && phase.Framed?) || (s.InjectData? && !s.ok && phase.Encoded?))
  }

  /** The frame with `p` reaches the bus. */
  predicate Delivers(l: Link, s: Step, p: Packet) {
    s.InjectData? && s.ok && At(l, s.thread).Encoded? && At(l, s.thread).packet == p
  }

  function Begun(l: Link, steps: seq<Step>, p: Packet): nat {
    if steps == [] then 0 else
    var n := |steps| - 1;
    Begun(l, steps[..n], p) + if Begins(Run(l, steps[..n]), steps[n], p) then 1 else 0
  }

  function Failed(l: Link, steps: seq<Step>, p: Packet): nat {
    if steps == [] then 0 else
    var n := |steps| - 1;
    Failed(l, steps[..n], p) + if Fails(Run(l, steps[..n]), steps[n], p) then 1 else 0
  }

  // ----- one step -----------------------------------------------------------

  /** A thread goes on with its packet until the frame is on the bus or the send fails. */
  lemma ThreadStep(l: Link, s: Step, p: Packet)
    ensures Carries(At(Next(l, s), s.thread), p)
            <==> Begins(l, s, p) || (Carries(At(l, s.thread), p) && !Fails(l, s, p) && !Delivers(l, s, p))
  {
  }

  lemma SendingStep(l: Link, s: Step, p: Packet)
    ensures var others := Sending(l, p) - {s.thread};
            Sending(Next(l, s), p) - {s.thread} == others
            && |Sending(l, p)| == |others| + (if Carries(At(l, s.thread), p) then 1 else 0)
            && |Sending(Next(l, s), p)| == |others| + (if Carries(At(Next(l, s), s.thread), p) then 1 else 0)
  {
    var others, after := Sending(l, p) - {s.thread}, Sending(Next(l, s), p);
    forall t ensures t in after - {s.thread} <==> t in others {
      if t >= 0 && t != s.thread {
        OthersStay(l, s, t);
        assert t in others <==> Carries(At(l, t), p);
        assert t in after <==> Carries(At(Next(l, s), t), p);
      }
    }
    Without(Sending(l, p), s.thread);
    Without(after, s.thread);
  }

  lemma Without(s: set<nat>, t: nat)
    ensures |s| == |s - {t}| + if t in s then 1 else 0
  {
    if t in s {
      assert s == (s - {t}) + {t};
    } else {
      assert s == s - {t};
    }
  }

  lemma BusNext(l: Link, s: Step, p: Packet)
    ensures OnBus(Next(l, s).bus, p) == OnBus(l.bus, p) + if Delivers(l, s, p) then 1 else 0
  {
    BusStep(l, s);
    var after := Next(l, s).bus;
    if after != l.bus {
      assert after[..|after| - 1] == l.bus;
    }
  }

  // ----- every run ----------------------------------------------------------

  /** In every interleaving each packet that was begun is on the bus, on its way, or failed: none is lost or doubled. */
  lemma {:induction false} PacketsConserved(isOpen: bool, steps: seq<Step>, p: Packet)
    ensures var l := Run(Fresh(isOpen), steps);
            Begun(Fresh(isOpen), steps, p)
            == OnBus(l.bus, p) + |Sending(l, p)| + Failed(Fresh(isOpen), steps, p)
    decreases |steps|
  {
    if steps == [] {
      assert Sending(Fresh(isOpen), p) == {};
    } else {
      var front, s := steps[..|steps| - 1], steps[|steps| - 1];
      PacketsConserved(isOpen, front, p);
      var l := Run(Fresh(isOpen), front);
      SendingStep(l, s, p);
      ThreadStep(l, s, p);
      BusNext(l, s, p);
    }
  }

  lemma {:induction false} HolderThroughout(isOpen: bool, steps: seq<Step>)
    ensures OneHolder(Run(Fresh(isOpen), steps))
  {
    if steps != [] {
      HolderThroughout(isOpen, steps[..|steps| - 1]);
      OneHolderKept(Run(Fresh(isOpen), steps[..|steps| - 1]), steps[|steps| - 1]);
    }
  }

  /** A send that fails is over: its thread is idle, the bus is as it was, and the lock is free if the thread had it. */
  lemma FailedSendEnds(isOpen: bool, steps: seq<Step>, s: Step, p: Packet)
    requires Fails(Run(Fresh(isOpen), steps), s, p)
    ensures var l := Run(Fresh(isOpen), steps);
            At(Next(l, s), s.thread).Idle? && Next(l, s).bus == l.bus && Next(l, s).next == l.next
            && Next(l, s).lock == if l.lock == Some(s.thread) then None else l.lock
  {
    HolderThroughout(isOpen, steps);
  }

  /** And so is one whose frame reached the bus, with the number it took. */
  lemma DeliveredSendEnds(isOpen: bool, steps: seq<Step>, s: Step, p: Packet)
    requires Delivers(Run(Fresh(isOpen), steps), s, p)
    ensures var l := Run(Fresh(isOpen), steps);
            At(Next(l, s), s.thread).Idle? && l.lock == Some(s.thread) && Next(l, s).lock == None
            && Next(l, s).bus == l.bus + [Data(At(l, s.thread).number, p)]
  {
    HolderThroughout(isOpen, steps);
  }
}
