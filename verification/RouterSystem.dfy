/**
 * The whole router: controller, worker and packets in one state machine. The worker's protocol
 * state and its forwarding loop move together, so what the protocol guarantees holds of packets.
 */
module RouterSystem {
  import opened Decimal
  import P = RoundProtocol
  import G = RoundGuarantees
  import F = Forwarding
  import opened Instrumented
  import opened WorkerPrograms

  datatype System = System(proto: P.State, loop: VState)

  function Start(c: F.Config): System {
    System(P.START, VState(F.Start(c).w, Top))
  }

  /** Points at which the worker is within update_stub, or resuming after a block. */
  predicate Pausing(v: VCtl) {
    v.PollCharge? || v.InterruptedCharge? || v.FlushCharge? || v.ReceiveCharge? || v.RouteCharge? || v.SendCharge?
    || v.Resuming?
  }

  /** Where the loop goes on from there. */
  function AfterPause(v: VCtl): VCtl
    requires Pausing(v)
  {
    match v
    case PollCharge(ready) => Scanning(0, ready, false)
    case InterruptedCharge => Top
    case FlushCharge(i, ready, runnable) => Receiving(i, ready, runnable)
    case ReceiveCharge(i, ready, p) => Received(i, ready, p)
    case RouteCharge(i, ready, p, dst) => HasRoute(i, ready, p, dst)
    case SendCharge(i, ready) => Scanning(i + 1, ready, true)
    case Resuming(ready) => Scanning(0, ready, false)
  }

  /** finish_thread. */
  function Leave(s: VState): VState {
    s.(ctl := Halted(PlainCtl(s.ctl)))
  }

  function EdgeOf(v: VCtl, u: VCtl): P.Edge {
    P.Edge(Node(v), OpOf(v, u), Node(u))
  }

  /** The worker's operation at a point of the loop: a charge is made there, and the loop goes on once it is over. */
  ghost predicate RunStep(c: F.Config, costs: P.Costs, s: System, t: System)
    requires c.names != []
  {
    exists u :: VMove(c, s.loop, u) && RunOn(costs, s, t, u)
  }

  predicate RunOn(costs: P.Costs, s: System, t: System, u: VState) {
    var e := EdgeOf(s.loop.ctl, u.ctl);
    && t.proto == P.Perform(costs, s.proto, e)
    && t.loop == if t.proto.worker.Finished? then Leave(s.loop) else if e.op.Charge? then s.loop else u
  }

  ghost predicate WorkerMove(c: F.Config, costs: P.Costs, s: System, t: System)
    requires c.names != []
  {
    match s.proto.worker
    case Run(_) => RunStep(c, costs, s, t)
    case Asleep(_) => P.WorkerStep(ROUTER, costs, s.proto, t.proto) && VMove(c, s.loop, t.loop)
    case AfterStub(_) =>
      && P.WorkerStep(ROUTER, costs, s.proto, t.proto)
      && t.loop == if t.proto.worker.Finished? then Leave(s.loop)
                   else if Pausing(s.loop.ctl) then s.loop.(ctl := AfterPause(s.loop.ctl)) else s.loop
    case _ =>
      && P.WorkerStep(ROUTER, costs, s.proto, t.proto)
      && t.loop == if t.proto.worker.Finished? then Leave(s.loop) else s.loop
  }

  ghost predicate CtlMove(s: System, t: System) {
    P.CtlStep(s.proto, t.proto) && t.loop == s.loop
  }

  ghost predicate Arrives(s: System, t: System) {
    t.proto == s.proto && t.loop.ctl == s.loop.ctl && F.Arrival(s.loop.w, t.loop.w)
  }

  ghost predicate Step(c: F.Config, costs: P.Costs, s: System, t: System)
    requires c.names != []
  {
    CtlMove(s, t) || WorkerMove(c, costs, s, t) || Arrives(s, t)
  }

  ghost predicate IsRun(c: F.Config, costs: P.Costs, tr: seq<System>)
    requires c.names != []
  {
    && tr != [] && tr[0] == Start(c)
    && forall k :: 0 <= k < |tr| - 1 ==> Step(c, costs, tr[k], tr[k + 1])
  }

  // ----- the two halves agree

  predicate Coupled(s: System) {
    var v := s.loop.ctl;
    && s.proto.log.sent == |s.loop.w.sent|
    && match s.proto.worker
       case FirstRead => v.Top?
       case Run(pc) => pc == Node(v) && !v.Blocked? && !v.Resuming? && !v.Halted?
       case AfterStub(pc) => Pausing(v) && pc == Node(AfterPause(v))
       case Report(pc) => Pausing(v) && pc == Node(AfterPause(v))
       case RoundRead(pc) => Pausing(v) && pc == Node(AfterPause(v))
       case BlockSend(pc) => v.Blocked? && pc == 3
       case Asleep(pc) => v.Blocked? && pc == 3
       case BlockRead(pc) => v.Resuming? && pc == 3
       case Finished => v.Halted?
  }

  /** At a pausing point the loop has one move, and a charge point makes a charge. */
  lemma PauseMoves(c: F.Config, s: VState, u: VState)
    requires c.names != [] && Pausing(s.ctl)
    ensures VMove(c, s, u) <==> u == s.(ctl := AfterPause(s.ctl))
    ensures MayHalt(s.ctl) && (!s.ctl.Resuming? ==> OpOf(s.ctl, AfterPause(s.ctl)).Charge?)
  {
    hide F.Waiting, F.Take, F.Head;
  }

  /** Elsewhere a move makes no charge; it sends a packet exactly on Transmit and blocks exactly on Block. */
  lemma PlainMoves(c: F.Config, s: VState, u: VState)
    requires c.names != [] && VMove(c, s, u) && !Pausing(s.ctl) && !s.ctl.Blocked?
    ensures var op := OpOf(s.ctl, u.ctl);
            && !op.Charge? && !u.ctl.Halted? && !u.ctl.Resuming?
            && (op.Block? <==> u.ctl.Blocked?) && (op.CheckStop? <==> s.ctl.Top?)
            && |u.w.sent| == |s.w.sent| + if op.Transmit? then 1 else 0
  {
    hide F.Waiting, F.Head;
  }

  /** An operation at a pausing point is a charge, and leaves the loop where it is. */
  lemma ChargeKeepsCoupled(c: F.Config, costs: P.Costs, s: System, t: System, u: VState)
    requires c.names != [] && Coupled(s) && s.proto.worker.Run? && VMove(c, s.loop, u) && RunOn(costs, s, t, u)
    requires Pausing(s.loop.ctl)
    ensures Coupled(t) && t.loop == s.loop
  {
    PauseMoves(c, s.loop, u);
    hide VMove;
  }

  /** Any other operation moves both, or ends both. */
  lemma MoveKeepsCoupled(c: F.Config, costs: P.Costs, s: System, t: System, u: VState)
    requires c.names != [] && Coupled(s) && s.proto.worker.Run? && VMove(c, s.loop, u) && RunOn(costs, s, t, u)
    requires !Pausing(s.loop.ctl)
    ensures Coupled(t) && (t.loop == u || (s.loop.ctl.Top? && t.loop == Leave(s.loop)))
  {
    PlainMoves(c, s.loop, u);
    RouterGraphIsSkeleton(c, s.loop, u);
    hide VMove, PlainCtl;
  }

  lemma RunKeepsCoupled(c: F.Config, costs: P.Costs, s: System, t: System)
    requires c.names != [] && Coupled(s) && s.proto.worker.Run? && RunStep(c, costs, s, t)
    ensures Coupled(t) && VStep(c, s.loop, t.loop) && P.WorkerStep(ROUTER, costs, s.proto, t.proto)
  {
    var u :| VMove(c, s.loop, u) && RunOn(costs, s, t, u);
    RouterGraphIsSkeleton(c, s.loop, u);
    assert P.WorkerStep(ROUTER, costs, s.proto, t.proto);
    hide P.WorkerStep, P.Perform;
    if Pausing(s.loop.ctl) {
      ChargeKeepsCoupled(c, costs, s, t, u);
    } else {
      MoveKeepsCoupled(c, costs, s, t, u);
    }
    hide VMove, F.Arrival, Coupled, RunOn;
  }

  lemma WakingKeepsCoupled(c: F.Config, costs: P.Costs, s: System, t: System)
    requires c.names != [] && Coupled(s) && s.proto.worker.Asleep? && WorkerMove(c, costs, s, t)
    ensures Coupled(t) && VStep(c, s.loop, t.loop)
  {
    hide F.Arrival, F.Waiting, F.Snapshot, IntText, P.ReadValue;
  }

  lemma ProtocolKeepsCoupled(c: F.Config, costs: P.Costs, s: System, t: System)
    requires c.names != [] && Coupled(s) && !s.proto.worker.Asleep? && !s.proto.worker.Run? && WorkerMove(c, costs, s, t)
    ensures Coupled(t) && VStep(c, s.loop, t.loop)
  {
    G.WorkerGoesOn(ROUTER, costs, s.proto, t.proto);
    if Pausing(s.loop.ctl) {
      PauseMoves(c, s.loop, s.loop.(ctl := AfterPause(s.loop.ctl)));
    }
    hide VMove, F.Arrival, PlainCtl, P.WorkerStep;
  }

  lemma WorkerKeepsCoupled(c: F.Config, costs: P.Costs, s: System, t: System)
    requires c.names != [] && Coupled(s) && WorkerMove(c, costs, s, t)
    ensures Coupled(t) && VStep(c, s.loop, t.loop) && P.WorkerStep(ROUTER, costs, s.proto, t.proto)
  {
    hide Coupled, VStep, P.WorkerStep;
    if s.proto.worker.Run? {
      RunKeepsCoupled(c, costs, s, t);
    } else if s.proto.worker.Asleep? {
      WakingKeepsCoupled(c, costs, s, t);
    } else {
      ProtocolKeepsCoupled(c, costs, s, t);
    }
  }

  lemma CtlKeepsCoupled(s: System, t: System)
    requires Coupled(s) && CtlMove(s, t)
    ensures Coupled(t)
  {
    G.CtlKeepsWorker(s.proto, t.proto);
    SentKept(s.proto, t.proto);
    hide P.CtlStep;
  }

  lemma SentKept(s: P.State, t: P.State)
    requires P.CtlStep(s, t)
    ensures t.log.sent == s.log.sent
  {
    hide IntText, P.ReadValue, P.Remaining;
  }

  lemma {:induction false} RunIsCoupled(c: F.Config, costs: P.Costs, tr: seq<System>, k: nat)
    requires c.names != [] && IsRun(c, costs, tr) && P.IntCosts(costs) && k < |tr|
    ensures Coupled(tr[k]) && P.Inv(tr[k].proto)
  {
    hide P.Inv, Coupled, CtlMove, WorkerMove, Arrives;
    if k > 0 {
      RunIsCoupled(c, costs, tr, k - 1);
      assert Step(c, costs, tr[k - 1], tr[k - 1 + 1]);
      StepKeepsCoupled(c, costs, tr[k - 1], tr[k]);
    } else {
      StartIsCoupled(c);
    }
  }

  lemma StartIsCoupled(c: F.Config)
    ensures Coupled(Start(c)) && P.Inv(Start(c).proto)
  {
    hide P.Inv;
    P.StartInv();
  }

  lemma StepKeepsCoupled(c: F.Config, costs: P.Costs, s: System, t: System)
    requires c.names != [] && Coupled(s) && P.Inv(s.proto) && Step(c, costs, s, t) && P.IntCosts(costs)
    ensures Coupled(t) && P.Inv(t.proto)
  {
    hide P.Inv, WorkerMove, P.CtlStep, P.WorkerStep;
    if CtlMove(s, t) {
      CtlKeepsCoupled(s, t);
      P.CtlKeepsInv(s.proto, t.proto);
    } else if WorkerMove(c, costs, s, t) {
      WorkerKeepsCoupled(c, costs, s, t);
      P.WorkerKeepsInv(ROUTER, costs, s.proto, t.proto);
    } else {
      ArrivalSends(s.loop.w, t.loop.w);
    }
  }

  lemma ArrivalSends(w: F.World, v: F.World)
    requires F.Arrival(w, v)
    ensures v.taken == w.taken && v.sent == w.sent && v.lost == w.lost
  {
  }

  // ----- every edge of the router's graph is a move of its loop

  lemma ScanEdge(c: F.Config, e: P.Edge) returns (s: VState, u: VState)
    requires c.names != [] && e in ROUTER && e.src <= 4
    ensures VMove(c, s, u) && EdgeOf(s.ctl, u.ctl) == e
  {
    var w := F.World([], [], [], []);
    match e.src
    case 0 => s, u := VState(w, Top), VState(w, PollNow);
    case 1 => s, u := VState(w, PollNow), VState(w, InterruptedCharge);
    case 2 =>
      s := VState(w, if e.dst == 3 then PollCharge([]) else InterruptedCharge);
      u := VState(w, if e.dst == 3 then Scanning(0, [], false) else Top);
    case 3 =>
      var ready := if e.op.Block? || e.dst == 0 then [] else [e.dst == 4];
      s := VState(w, Scanning(0, ready, e.dst == 0));
      u := VState(w, if e.op.Block? then Blocked else if e.dst == 0 then Top
                     else if e.dst == 4 then FlushCharge(0, ready, false) else Scanning(1, ready, false));
    case _ => s, u := VState(w, FlushCharge(0, [true], false)), VState(w, Receiving(0, [true], false));
  }

  lemma PacketEdge(c: F.Config, e: P.Edge) returns (s: VState, u: VState)
    requires c.names != [] && e in ROUTER && e.src > 4
    ensures VMove(c, s, u) && EdgeOf(s.ctl, u.ctl) == e
  {
    var p: F.Packet := if e.src == 7 && e.dst == 3 then [] else [0];
    var w := F.World([[p]], [0], [], []);
    match e.src
    case 5 => s, u := VState(w, Receiving(0, [], false)), VState(F.Take(w, 0), ReceiveCharge(0, [], F.Head(w, 0)));
    case 6 => s, u := VState(w, ReceiveCharge(0, [], p)), VState(w, Received(0, [], p));
    case 7 =>
      s := VState(w, Received(0, [], p));
      u := if p == [] then VState(w.(lost := w.lost + [F.Lost(0, p)]), Scanning(1, [], true))
           else VState(w, RouteCharge(0, [], p, Routing.SockIdx(c.routes, c.names, Routing.DstText(p))));
    case 8 => s, u := VState(w, RouteCharge(0, [], p, 0)), VState(w, HasRoute(0, [], p, 0));
    case 9 =>
      var dst := if e.op.Transmit? then 0 else -1;
      s := VState(w, HasRoute(0, [], p, dst));
      u := if dst == 0 then VState(w.(sent := w.sent + [F.Sent(0, 0, p)]), SendCharge(0, []))
           else VState(w.(lost := w.lost + [F.Lost(0, p)]), Top);
    case _ => s, u := VState(w, SendCharge(0, [])), VState(w, Scanning(1, [], true));
  }

  /** The graph has no edge too many: each is a move of the loop, with that operation. */
  lemma EdgesAreMoves(c: F.Config, e: P.Edge) returns (s: VState, u: VState)
    requires c.names != [] && e in ROUTER
    ensures VMove(c, s, u) && EdgeOf(s.ctl, u.ctl) == e
  {
    hide VMove, ROUTER, EdgeOf;
    if e.src <= 4 {
      s, u := ScanEdge(c, e);
    } else {
      s, u := PacketEdge(c, e);
    }
  }

  // ----- a run of the whole is a run of each half

  function Loops(tr: seq<System>): (vtr: seq<VState>)
    ensures |vtr| == |tr| && forall k :: 0 <= k < |tr| ==> vtr[k] == tr[k].loop
  {
    seq(|tr|, k requires 0 <= k < |tr| => tr[k].loop)
  }

  lemma LoopRun(c: F.Config, costs: P.Costs, tr: seq<System>)
    requires c.names != [] && IsRun(c, costs, tr) && P.IntCosts(costs)
    ensures IsVRun(c, Loops(tr))
  {
    var vtr := Loops(tr);
    forall k | 0 <= k < |vtr| - 1
      ensures VStep(c, vtr[k], vtr[k + 1])
    {
      assert Step(c, costs, tr[k], tr[k + 1]);
      RunIsCoupled(c, costs, tr, k);
      LoopStep(c, costs, tr[k], tr[k + 1]);
    }
  }

  lemma LoopStep(c: F.Config, costs: P.Costs, s: System, t: System)
    requires c.names != [] && Coupled(s) && Step(c, costs, s, t)
    ensures VStep(c, s.loop, t.loop)
  {
    hide Coupled, P.CtlStep, VMove, F.Arrival;
    if WorkerMove(c, costs, s, t) {
      WorkerKeepsCoupled(c, costs, s, t);
    }
    hide WorkerMove;
  }

  /** The protocol's side of a run, without the arrivals in between. */
  lemma {:induction false} ProtocolRun(c: F.Config, costs: P.Costs, tr: seq<System>, k: nat) returns (ptr: seq<P.State>)
    requires c.names != [] && IsRun(c, costs, tr) && P.IntCosts(costs) && k < |tr|
    ensures ptr != [] && P.IsRun(ROUTER, costs, ptr) && ptr[|ptr| - 1] == tr[k].proto
  {
    hide Step, P.Step;
    if k == 0 {
      ptr := [P.START];
    } else {
      ptr := ProtocolRun(c, costs, tr, k - 1);
      assert Step(c, costs, tr[k - 1], tr[k - 1 + 1]);
      RunIsCoupled(c, costs, tr, k - 1);
      ProtocolStep(c, costs, tr[k - 1], tr[k]);
      if tr[k].proto != tr[k - 1].proto {
        P.RunGrows(ROUTER, costs, ptr, tr[k].proto);
        ptr := ptr + [tr[k].proto];
      }
    }
  }

  lemma ProtocolStep(c: F.Config, costs: P.Costs, s: System, t: System)
    requires c.names != [] && Coupled(s) && Step(c, costs, s, t)
    ensures t.proto == s.proto || P.Step(ROUTER, costs, s.proto, t.proto)
  {
    hide Coupled, P.CtlStep, P.WorkerStep, F.Arrival;
    if WorkerMove(c, costs, s, t) {
      WorkerKeepsCoupled(c, costs, s, t);
    }
    hide WorkerMove;
  }

  lemma RunGrows(c: F.Config, costs: P.Costs, tr: seq<System>, t: System)
    requires c.names != [] && IsRun(c, costs, tr) && Step(c, costs, tr[|tr| - 1], t)
    ensures IsRun(c, costs, tr + [t])
  {
    hide Step;
    var more := tr + [t];
    forall i | 0 <= i < |more| - 1
      ensures Step(c, costs, more[i], more[i + 1])
    {
      assert i < |tr| - 1 ==> Step(c, costs, tr[i], tr[i + 1]);
    }
  }

  // ----- packets and the protocol

  predicate SameTraffic(w: F.World, v: F.World) {
    w.taken == v.taken && w.sent == v.sent && w.lost == v.lost
  }

  /** Only an operation of the loop itself takes, sends or drops a packet. */
  lemma TrafficStep(c: F.Config, costs: P.Costs, s: System, t: System)
    requires c.names != [] && Coupled(s) && Step(c, costs, s, t)
    ensures SameTraffic(s.loop.w, t.loop.w) || (s.proto.worker.Run? && WorkerMove(c, costs, s, t))
  {
    if Arrives(s, t) {
      ArrivalSends(s.loop.w, t.loop.w);
    }
    hide P.CtlStep, P.WorkerStep, F.Arrival, RunStep, PlainCtl;
  }

  lemma RunningIsAwaited(s: P.State)
    requires P.Inv(s) && s.worker.Run?
    ensures s.ctl.Await? && !s.stop && s.toWorker == s.toMain == ""
  {
    hide IntText, P.ReadValue, P.Books;
  }

  /** Packets are taken, sent and dropped only while the controller waits for the worker, and not after `stop`. */
  lemma TrafficOnlyInRounds(c: F.Config, costs: P.Costs, tr: seq<System>, k: nat)
    requires c.names != [] && IsRun(c, costs, tr) && P.IntCosts(costs) && k + 1 < |tr|
    requires !SameTraffic(tr[k].loop.w, tr[k + 1].loop.w)
    ensures var s := tr[k].proto; s.ctl.Await? && !s.stop && s.toWorker == s.toMain == ""
  {
    hide P.Inv, Coupled, Step, SameTraffic;
    RunIsCoupled(c, costs, tr, k);
    assert Step(c, costs, tr[k], tr[k + 1]);
    TrafficStep(c, costs, tr[k], tr[k + 1]);
    RunningIsAwaited(tr[k].proto);
  }

  lemma StopLasts(c: F.Config, costs: P.Costs, s: System, t: System)
    requires c.names != [] && Coupled(s) && P.Inv(s.proto) && Step(c, costs, s, t) && s.proto.stop
    ensures t.proto.stop
  {
    hide Coupled, P.Inv, P.Step;
    ProtocolStep(c, costs, s, t);
    if t.proto != s.proto {
      G.StoppedStep(ROUTER, costs, s.proto, t.proto);
    }
  }

  /** From the moment `stop` is set no packet is taken, sent or dropped, however many still arrive. */
  lemma {:induction false} StopStopsTraffic(c: F.Config, costs: P.Costs, tr: seq<System>, j: nat, k: nat)
    requires c.names != [] && IsRun(c, costs, tr) && P.IntCosts(costs) && j <= k < |tr| && tr[j].proto.stop
    ensures tr[k].proto.stop && SameTraffic(tr[j].loop.w, tr[k].loop.w)
  {
    hide P.Inv, Coupled, Step;
    if j < k {
      StopStopsTraffic(c, costs, tr, j, k - 1);
      RunIsCoupled(c, costs, tr, k - 1);
      assert Step(c, costs, tr[k - 1], tr[k - 1 + 1]);
      StopLasts(c, costs, tr[k - 1], tr[k]);
      if !SameTraffic(tr[k - 1].loop.w, tr[k].loop.w) {
        TrafficOnlyInRounds(c, costs, tr, k - 1);
        assert false;
      }
    }
  }

  /** Conservation and order hold in every state of the whole, and the ledger counts the packets sent. */
  lemma SystemConserves(c: F.Config, costs: P.Costs, tr: seq<System>, k: nat, i: nat, o: nat)
    requires c.names != [] && IsRun(c, costs, tr) && P.IntCosts(costs) && k < |tr| && i < |c.names| && o < |c.names|
    ensures var s := Plain(tr[k].loop);
            && F.Shaped(c, s.w) && tr[k].proto.log.sent == |s.w.sent|
            && s.w.taken[i] == |F.From(s.w.sent, i)| + |F.LostFrom(s.w.lost, i)| + (if F.InHand(s.ctl, i) then 1 else 0)
            && F.ToOutput(F.From(s.w.sent, i), o) == F.RoutedTo(c, F.Done(s, i), o)
            && F.LostFrom(s.w.lost, i) == F.RoutedTo(c, F.Done(s, i), -1)
  {
    RunIsCoupled(c, costs, tr, k);
    var sofar := tr[..k + 1];
    PrefixIsRun(c, costs, tr, k + 1);
    LoopRun(c, costs, sofar);
    hide IsRun, Coupled, P.Inv, IsVRun;
    ConservationUnderVirtualTime(c, Loops(sofar), i, o);
  }

  lemma PrefixIsRun(c: F.Config, costs: P.Costs, tr: seq<System>, n: nat)
    requires c.names != [] && IsRun(c, costs, tr) && 0 < n <= |tr|
    ensures IsRun(c, costs, tr[..n])
  {
    hide Step;
  }

  // ----- deadlock of the whole

  /** Neither the controller nor the worker can move; only packets may still arrive. */
  ghost predicate Still(c: F.Config, costs: P.Costs, s: System)
    requires c.names != []
  {
    forall t :: !CtlMove(s, t) && !WorkerMove(c, costs, s, t)
  }

  /** The experiment is over, or its end waits for a packet to wake the worker. */
  predicate Ended(s: System) {
    && s.proto.ctl.Joining?
    && (s.proto.worker.Finished?
        || (s.proto.worker.Asleep? && forall i: nat :: i < |s.loop.w.taken| ==> !F.Waiting(s.loop.w, i)))
  }

  lemma LoopCanMove(c: F.Config, s: VState) returns (u: VState)
    requires c.names != [] && !s.ctl.Blocked? && !s.ctl.Halted? && (s.ctl.Receiving? ==> F.Waiting(s.w, s.ctl.i))
    ensures VMove(c, s, u)
  {
    if Pausing(s.ctl) {
      u := s.(ctl := AfterPause(s.ctl));
      PauseMoves(c, s, u);
    } else {
      match s.ctl
      case Top => u := s.(ctl := PollNow);
      case PollNow => u := s.(ctl := PollCharge(F.Snapshot(s.w)));
      case Scanning(i, ready, runnable) =>
        u := if i >= |ready| then s.(ctl := if runnable then Top else Blocked)
             else if !ready[i] then s.(ctl := Scanning(i + 1, ready, runnable))
             else s.(ctl := FlushCharge(i, ready, runnable));
      case Receiving(i, ready, _) =>
        u := VState(F.Take(s.w, i), ReceiveCharge(i, ready, F.Head(s.w, i)));
      case Received(i, ready, p) =>
        u := if p == [] then VState(s.w.(lost := s.w.lost + [F.Lost(i, p)]), Scanning(i + 1, ready, true))
             else s.(ctl := RouteCharge(i, ready, p, Routing.SockIdx(c.routes, c.names, Routing.DstText(p))));
      case HasRoute(i, ready, p, dst) =>
        u := if dst == -1 then VState(s.w.(lost := s.w.lost + [F.Lost(i, p)]), Top)
             else VState(s.w.(sent := s.w.sent + [F.Sent(i, dst, p)]), SendCharge(i, ready));
    }
  }

  /** The whole after the operation that takes the loop to `u`. */
  function Operated(costs: P.Costs, s: System, u: VState): System {
    var e := EdgeOf(s.loop.ctl, u.ctl);
    var p := P.Perform(costs, s.proto, e);
    System(p, if p.worker.Finished? then Leave(s.loop) else if e.op.Charge? then s.loop else u)
  }

  lemma OperationMoves(c: F.Config, costs: P.Costs, s: System, u: VState)
    requires c.names != [] && s.proto.worker.Run? && VMove(c, s.loop, u)
    ensures WorkerMove(c, costs, s, Operated(costs, s, u))
  {
    assert RunOn(costs, s, Operated(costs, s, u), u);
    hide VMove, RunOn, Operated;
  }

  lemma RunCanMove(c: F.Config, costs: P.Costs, s: System) returns (t: System)
    requires c.names != [] && Coupled(s) && s.proto.worker.Run?
    requires s.loop.ctl.Receiving? ==> F.Waiting(s.loop.w, s.loop.ctl.i)
    ensures WorkerMove(c, costs, s, t)
  {
    var u := LoopCanMove(c, s.loop);
    hide VMove, Operated;
    OperationMoves(c, costs, s, u);
    t := Operated(costs, s, u);
  }

  /** A worker that is not asleep and has what it reads can move. */
  lemma WorkerCanMove(c: F.Config, costs: P.Costs, s: System) returns (t: System)
    requires c.names != [] && Coupled(s) && !s.proto.worker.Finished? && !s.proto.worker.Asleep?
    requires P.Reading(s.proto.worker) ==> s.proto.toWorker != ""
    requires s.loop.ctl.Receiving? ==> F.Waiting(s.loop.w, s.loop.ctl.i)
    ensures WorkerMove(c, costs, s, t)
  {
    if s.proto.worker.Run? {
      t := RunCanMove(c, costs, s);
    } else {
      var p := G.WorkerSuccessor(ROUTER, costs, s.proto);
      hide P.WorkerStep, PlainCtl;
      var after := if s.proto.worker.AfterStub? then s.loop.(ctl := AfterPause(s.loop.ctl)) else s.loop;
      t := System(p, if p.worker.Finished? then Leave(s.loop) else after);
    }
  }

  /** At recvfrom a packet is there, in the whole router too. */
  lemma SystemReceives(c: F.Config, costs: P.Costs, tr: seq<System>, k: nat)
    requires c.names != [] && IsRun(c, costs, tr) && P.IntCosts(costs) && k < |tr|
    ensures tr[k].loop.ctl.Receiving? ==> F.Waiting(tr[k].loop.w, tr[k].loop.ctl.i)
  {
    PrefixIsRun(c, costs, tr, k + 1);
    LoopRun(c, costs, tr[..k + 1]);
    hide IsRun, IsVRun;
    if tr[k].loop.ctl.Receiving? {
      ReceiveNeverBlocks(c, Loops(tr[..k + 1]));
    }
  }

  /** A worker told to leave reads that next, or is asleep. */
  lemma JoinedWorker(s: P.State)
    requires P.Inv(s) && s.ctl.Joining?
    ensures s.worker.Finished? || s.worker.Asleep? || (P.Reading(s.worker) && s.toWorker != "")
  {
    hide P.Books, P.ReadValue, IntText;
    P.ReadWhatWasSent(P.THREAD_EXITING);
  }

  lemma SystemCanMove(c: F.Config, costs: P.Costs, s: System) returns (t: System)
    requires c.names != [] && Coupled(s) && P.Inv(s.proto)
    requires s.loop.ctl.Receiving? ==> F.Waiting(s.loop.w, s.loop.ctl.i)
    requires !Ended(s) && !G.ZeroBudgetTaken(s.proto)
    ensures CtlMove(s, t) || WorkerMove(c, costs, s, t)
  {
    hide P.CtlStep, P.Inv, Coupled;
    if !s.proto.ctl.Joining? && (s.proto.ctl.Await? ==> s.proto.toMain != "") {
      var p := G.CtlSuccessor(s.proto);
      t := s.(proto := p);
    } else if s.proto.ctl.Await? {
      G.AwaitedWorker(s.proto);
      t := WorkerCanMove(c, costs, s);
    } else {
      JoinedWorker(s.proto);
      if s.proto.worker.Asleep? {
        t := WakeUp(c, costs, s);
      } else {
        t := WorkerCanMove(c, costs, s);
      }
    }
  }

  lemma WakeUp(c: F.Config, costs: P.Costs, s: System) returns (t: System)
    requires c.names != [] && Coupled(s) && s.proto.worker.Asleep?
    requires exists i :: F.Waiting(s.loop.w, i)
    ensures WorkerMove(c, costs, s, t)
  {
    t := System(s.proto.(worker := P.BlockRead(s.proto.worker.pc), blocked := false),
                s.loop.(ctl := Resuming(F.Snapshot(s.loop.w))));
    hide F.Waiting, F.Snapshot;
  }

  lemma EndedIsStill(c: F.Config, costs: P.Costs, s: System)
    requires c.names != [] && Coupled(s) && P.Inv(s.proto) && (Ended(s) || G.ZeroBudgetTaken(s.proto))
    ensures Still(c, costs, s)
  {
    if G.ZeroBudgetTaken(s.proto) {
      G.TakenIsStuck(ROUTER, costs, s.proto);
      assert forall u :: !P.Step(ROUTER, costs, s.proto, u);
    }
    hide P.Inv, F.Snapshot;
  }

  /**
   * The whole router stands still, but for arrivals, exactly when the experiment is over, when its
   * end waits for a packet to wake the worker, or when a zero budget after the first was taken.
   */
  lemma StillExactly(c: F.Config, costs: P.Costs, tr: seq<System>, k: nat)
    requires c.names != [] && IsRun(c, costs, tr) && P.IntCosts(costs) && k < |tr|
    ensures Still(c, costs, tr[k]) <==> Ended(tr[k]) || G.ZeroBudgetTaken(tr[k].proto)
  {
    RunIsCoupled(c, costs, tr, k);
    SystemReceives(c, costs, tr, k);
    hide IsRun, Coupled, P.Inv, CtlMove, WorkerMove, Ended;
    if Ended(tr[k]) || G.ZeroBudgetTaken(tr[k].proto) {
      EndedIsStill(c, costs, tr[k]);
    } else {
      var t := SystemCanMove(c, costs, tr[k]);
    }
  }
}
