/**
 * The forwarding loop of the router under virtual time: the plain loop with a charge after each
 * call, a notice before blocking, `goto skip` after it, and an exit wherever it may be stopped.
 * What the protocol decides at a charge, going on or leaving, is left open here.
 */
module Instrumented {
  import opened Routing
  import opened Forwarding

  datatype VCtl =
    | Top                                                     // at `repeat`, about to look at `stop`
    | PollNow                                                 // about to poll
    | PollCharge(ready: seq<bool>)
    | InterruptedCharge                                       // poll was interrupted, charge still due
    | Scanning(i: nat, ready: seq<bool>, runnable: bool)      // in the for loop, or at `skip`
    | FlushCharge(i: nat, ready: seq<bool>, runnable: bool)
    | Receiving(i: nat, ready: seq<bool>, runnable: bool)
    | ReceiveCharge(i: nat, ready: seq<bool>, pkt: Packet)
    | Received(i: nat, ready: seq<bool>, pkt: Packet)
    | RouteCharge(i: nat, ready: seq<bool>, pkt: Packet, dst: int)
    | HasRoute(i: nat, ready: seq<bool>, pkt: Packet, dst: int)
    | SendCharge(i: nat, ready: seq<bool>)
    | Blocked                                                 // is_blocked set, in the blocking poll
    | Resuming(ready: seq<bool>)                              // reading the next budget
    | Halted(at: Ctl)                                         // finish_thread, leaving the loop there

  datatype VState = VState(w: World, ctl: VCtl)

  /** The point of the plain loop that a point of the instrumented loop stands for. */
  function PlainCtl(v: VCtl): Ctl {
    match v
    case Top => Poll
    case PollNow => Poll
    case PollCharge(ready) => Scan(0, ready, false)
    case InterruptedCharge => Poll
    case Scanning(i, ready, runnable) => Scan(i, ready, runnable)
    case FlushCharge(i, ready, runnable) => Scan(i, ready, runnable)
    case Receiving(i, ready, runnable) => Scan(i, ready, runnable)
    case ReceiveCharge(i, ready, p) => Got(i, ready, p)
    case Received(i, ready, p) => Got(i, ready, p)
    case RouteCharge(i, ready, p, dst) => Routed(i, ready, p, dst)
    case HasRoute(i, ready, p, dst) => Routed(i, ready, p, dst)
    case SendCharge(i, ready) => Scan(i + 1, ready, true)
    case Blocked => BlockPoll
    case Resuming(ready) => Scan(0, ready, false)
    case Halted(at) => at
  }

  function Plain(s: VState): State {
    State(s.w, PlainCtl(s.ctl))
  }

  /** Points where the thread may be told to leave: the look at `stop`, each charge, and the resume. */
  predicate MayHalt(v: VCtl) {
    v.Top? || v.PollCharge? || v.InterruptedCharge? || v.FlushCharge? || v.ReceiveCharge? || v.RouteCharge?
    || v.SendCharge? || v.Resuming?
  }

  ghost predicate VMove(c: Config, s: VState, t: VState)
    requires c.names != []
  {
    match s.ctl
    case Top => t == s.(ctl := PollNow)
    case PollNow => t == s.(ctl := PollCharge(Snapshot(s.w))) || t == s.(ctl := InterruptedCharge)
    case PollCharge(ready) => t == s.(ctl := Scanning(0, ready, false))
    case InterruptedCharge => t == s.(ctl := Top)
    case Scanning(i, ready, runnable) =>
      if i >= |ready| then t == s.(ctl := if runnable then Top else Blocked)
      else if !ready[i] then t == s.(ctl := Scanning(i + 1, ready, runnable))
      else t == s.(ctl := FlushCharge(i, ready, runnable))
    case FlushCharge(i, ready, runnable) => t == s.(ctl := Receiving(i, ready, runnable))
    case Receiving(i, ready, runnable) =>
      Waiting(s.w, i) && t == VState(Take(s.w, i), ReceiveCharge(i, ready, Head(s.w, i)))
    case ReceiveCharge(i, ready, p) => t == s.(ctl := Received(i, ready, p))
    case Received(i, ready, p) =>
      if p == [] then t == VState(s.w.(lost := s.w.lost + [Lost(i, p)]), Scanning(i + 1, ready, true))
      else t == s.(ctl := RouteCharge(i, ready, p, SockIdx(c.routes, c.names, DstText(p))))
    case RouteCharge(i, ready, p, dst) => t == s.(ctl := HasRoute(i, ready, p, dst))
    case HasRoute(i, ready, p, dst) =>
      if dst == -1 then t == VState(s.w.(lost := s.w.lost + [Lost(i, p)]), Top)
      else t == VState(s.w.(sent := s.w.sent + [Sent(i, dst, p)]), SendCharge(i, ready))
    case SendCharge(i, ready) => t == s.(ctl := Scanning(i + 1, ready, true))
    case Blocked => (exists i :: Waiting(s.w, i)) && t == s.(ctl := Resuming(Snapshot(s.w)))
    case Resuming(ready) => t == s.(ctl := Scanning(0, ready, false))
    case Halted(at) => false
  }

  ghost predicate VStep(c: Config, s: VState, t: VState)
    requires c.names != []
  {
    || t == s
    || (t.ctl == s.ctl && Arrival(s.w, t.w))
    || VMove(c, s, t)
    || (MayHalt(s.ctl) && t == s.(ctl := Halted(PlainCtl(s.ctl))))
  }

  ghost predicate IsVRun(c: Config, tr: seq<VState>)
    requires c.names != []
  {
    && tr != [] && tr[0] == VState(Start(c).w, Top)
    && forall k :: 0 <= k < |tr| - 1 ==> VStep(c, tr[k], tr[k + 1])
  }

  /** At Receiving and FlushCharge the current input is one the scan found ready. */
  predicate ReadyHere(v: VCtl) {
    (v.FlushCharge? || v.Receiving?) ==> v.i < |v.ready| && v.ready[v.i]
  }

  lemma ReadyKept(c: Config, s: VState, t: VState)
    requires c.names != [] && VStep(c, s, t) && ReadyHere(s.ctl)
    ensures ReadyHere(t.ctl)
  {
    hide SockIdx, DstText, Waiting, Take, Head;
  }

  /** A move of the instrumented loop is a plain move, or one the plain loop does not see. */
  lemma SimulateMove(c: Config, s: VState, t: VState)
    requires c.names != [] && VMove(c, s, t) && ReadyHere(s.ctl) && !s.ctl.Blocked?
    ensures Plain(t) == Plain(s) || Move(c, Plain(s), Plain(t))
  {
    hide SockIdx, DstText, Waiting, Take, Head;
  }

  /** Leaving the blocking poll is its return and an immediate re-poll. */
  lemma SimulateResume(c: Config, s: VState, t: VState)
    requires c.names != [] && VMove(c, s, t) && s.ctl.Blocked?
    ensures Move(c, Plain(s), State(s.w, Poll)) && Move(c, State(s.w, Poll), Plain(t))
  {
    hide Waiting;
  }

  /** One instrumented step is at most two plain ones: the second is the re-poll after a blocking poll. */
  lemma Simulate(c: Config, s: VState, t: VState) returns (m: State)
    requires c.names != [] && VStep(c, s, t) && ReadyHere(s.ctl)
    ensures Step(c, Plain(s), m) && Step(c, m, Plain(t)) && ReadyHere(t.ctl)
  {
    ReadyKept(c, s, t);
    m := Plain(s);
    if VMove(c, s, t) {
      if s.ctl.Blocked? {
        SimulateResume(c, s, t);
        m := State(s.w, Poll);
      } else {
        SimulateMove(c, s, t);
      }
    }
    hide VMove, Move, Arrival;
  }

  /**
   * The instrumented router is transparent: every run of it, stopped or not, is matched by a run of
   * the plain loop on the same arrivals that took and sent the very same packets.
   */
  lemma {:induction false} Transparent(c: Config, vtr: seq<VState>) returns (tr: seq<State>)
    requires c.names != [] && IsVRun(c, vtr)
    ensures IsRun(c, tr) && tr[|tr| - 1] == Plain(vtr[|vtr| - 1])
    ensures ReadyHere(vtr[|vtr| - 1].ctl)
    decreases |vtr|
  {
    hide Step, VStep;
    var n := |vtr|;
    if n == 1 {
      tr := [Start(c)];
    } else {
      tr := Transparent(c, vtr[..n - 1]);
      assert VStep(c, vtr[n - 2], vtr[n - 2 + 1]);
      var m := Simulate(c, vtr[n - 2], vtr[n - 1]);
      var sofar := tr;
      tr := sofar + [m, Plain(vtr[n - 1])];
      forall k | 0 <= k < |tr| - 1
        ensures Step(c, tr[k], tr[k + 1])
      {
        assert k < |sofar| - 1 ==> Step(c, sofar[k], sofar[k + 1]);
      }
    }
  }

  /** So the instrumented router, too, conserves packets and keeps their order, wherever it is stopped. */
  lemma ConservationUnderVirtualTime(c: Config, vtr: seq<VState>, i: nat, o: nat)
    requires c.names != [] && IsVRun(c, vtr) && i < |c.names| && o < |c.names|
    ensures var s := Plain(vtr[|vtr| - 1]);
            && Shaped(c, s.w)
            && s.w.taken[i] == |From(s.w.sent, i)| + |LostFrom(s.w.lost, i)| + (if InHand(s.ctl, i) then 1 else 0)
            && ToOutput(From(s.w.sent, i), o) == RoutedTo(c, Done(s, i), o)
            && LostFrom(s.w.lost, i) == RoutedTo(c, Done(s, i), -1)
  {
    var tr := Transparent(c, vtr);
    ConservationAndOrder(c, tr, |tr| - 1, i, o);
  }

  /** recvfrom never blocks, however long the charges before it took: it needs no notice to the controller. */
  lemma ReceiveNeverBlocks(c: Config, vtr: seq<VState>)
    requires c.names != [] && IsVRun(c, vtr) && vtr[|vtr| - 1].ctl.Receiving?
    ensures Waiting(vtr[|vtr| - 1].w, vtr[|vtr| - 1].ctl.i)
  {
    var tr := Transparent(c, vtr);
    RunHolds(c, tr, |tr| - 1);
  }
}
