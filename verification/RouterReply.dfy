/**
 * How long the router may take to answer: the graph of its program has loops without a charge, but
 * the forwarding loop itself runs them at most once per input before the next call.
 */
module RouterReply {
  import opened Decimal
  import P = RoundProtocol
  import G = RoundGuarantees
  import F = Forwarding
  import opened Instrumented
  import opened WorkerPrograms
  import opened BoundedReply
  import opened RouterSystem

  /** The scan covers at most as many inputs as there are. */
  predicate Fits(s: VState, n: nat) {
    && |s.w.taken| == n
    && (s.ctl.PollCharge? || s.ctl.Scanning? || s.ctl.FlushCharge? || s.ctl.Receiving? || s.ctl.ReceiveCharge?
        || s.ctl.Received? || s.ctl.RouteCharge? || s.ctl.HasRoute? || s.ctl.SendCharge? || s.ctl.Resuming?
        ==> |s.ctl.ready| <= n)
  }

  lemma StepKeepsFits(c: F.Config, s: VState, t: VState, n: nat)
    requires c.names != [] && VStep(c, s, t) && Fits(s, n)
    ensures Fits(t, n)
  {
    hide F.Head;
  }

  lemma {:induction false} RunFits(c: F.Config, vtr: seq<VState>, k: nat)
    requires c.names != [] && IsVRun(c, vtr) && k < |vtr|
    ensures Fits(vtr[k], |c.names|)
  {
    hide VStep, Fits;
    if k > 0 {
      RunFits(c, vtr, k - 1);
      assert VStep(c, vtr[k - 1], vtr[k - 1 + 1]);
      StepKeepsFits(c, vtr[k - 1], vtr[k], |c.names|);
    } else {
      StartFits(c);
    }
  }

  lemma StartFits(c: F.Config)
    ensures Fits(VState(F.Start(c).w, Top), |c.names|)
  {
  }

  function Unscanned(i: nat, ready: seq<bool>): nat {
    if i < |ready| then |ready| - i else 0
  }

  /** Bounds the moves of the loop to its next charge or block. */
  function LoopDist(v: VCtl): nat {
    match v
    case Top => 3
    case PollNow => 2
    case Scanning(i, ready, _) => Unscanned(i, ready) + 4
    case Receiving(_, _, _) => 2
    case Received(i, ready, _) => Unscanned(i, ready) + 5
    case HasRoute(i, ready, _, _) => 4
    case _ => 1
  }

  function SystemDist(s: System): nat {
    if s.proto.worker.Run? then LoopDist(s.loop.ctl)
    else if s.proto.worker.AfterStub? && Pausing(s.loop.ctl) then LoopDist(AfterPause(s.loop.ctl)) + 1
    else 0
  }

  function SystemRank(n: nat, s: System): nat {
    Rank(50, n + 6, s.proto, SystemDist(s))
  }

  lemma DistFits(s: System, n: nat)
    requires Fits(s.loop, n)
    ensures SystemDist(s) <= n + 6
  {
  }

  lemma MoveDescends(c: F.Config, s: VState, u: VState)
    requires c.names != [] && VMove(c, s, u) && !Pausing(s.ctl) && !s.ctl.Blocked?
    ensures u.ctl.Blocked? || LoopDist(u.ctl) < LoopDist(s.ctl)
  {
    hide F.Waiting, F.Take, F.Head;
  }

  /** Each operation brings the router's reply nearer. */
  lemma RunNears(c: F.Config, s: System, t: System, n: nat)
    requires c.names != [] && Coupled(s) && Fits(t.loop, n) && s.proto.worker.Run? && RunStep(c, ROUTER_COSTS, s, t)
    ensures SystemRank(n, t) < SystemRank(n, s)
  {
    var u :| VMove(c, s.loop, u) && RunOn(ROUTER_COSTS, s, t, u);
    var e := EdgeOf(s.loop.ctl, u.ctl);
    DistFits(t, n);
    if Pausing(s.loop.ctl) {
      PauseMoves(c, s.loop, u);
      ChargeIsPriced(s.loop.ctl, u.ctl);
      hide VMove, ROUTER_COSTS, Rank, LoopDist;
      ChargeNears(50, n + 6, ROUTER_COSTS, s.proto, e.op.fn, e.dst, SystemDist(s), SystemDist(t));
    } else {
      PlainMoves(c, s.loop, u);
      MoveDescends(c, s.loop, u);
      hide VMove, Further, LoopDist;
    }
  }

  /** While the controller waits, so does every step of the worker. */
  lemma WorkerNearsReply(c: F.Config, s: System, t: System, n: nat)
    requires c.names != [] && Coupled(s) && P.Inv(s.proto) && Fits(t.loop, n)
    requires Awaiting(s.proto) && WorkerMove(c, ROUTER_COSTS, s, t)
    ensures SystemRank(n, t) < SystemRank(n, s)
  {
    DistFits(t, n);
    if s.proto.worker.Run? {
      RunNears(c, s, t, n);
    } else if P.Reading(s.proto.worker) {
      hide P.Inv, SystemDist, P.WorkerStep;
      TakingNears(ROUTER, ROUTER_COSTS, 50, n + 6, s.proto, t.proto, SystemDist(t));
    } else if s.proto.worker.Report? || s.proto.worker.BlockSend? {
      hide P.Inv, SystemDist, P.WorkerStep, Rank;
      ReplyNears(ROUTER, ROUTER_COSTS, 50, n + 6, s.proto, t.proto, SystemDist(s), SystemDist(t));
    } else {
      PauseEnds(c, s, t, n);
    }
  }

  lemma PauseEnds(c: F.Config, s: System, t: System, n: nat)
    requires c.names != [] && Coupled(s) && P.Inv(s.proto) && Awaiting(s.proto) && WorkerMove(c, ROUTER_COSTS, s, t)
    requires !s.proto.worker.Run? && !P.Reading(s.proto.worker) && !s.proto.worker.Report? && !s.proto.worker.BlockSend?
    ensures SystemRank(n, t) < SystemRank(n, s)
  {
    hide VMove, P.Books, P.ReadValue, IntText, Further, LoopDist, PlainCtl;
  }

  /** The steps in tr[i..j] that are no arrivals. */
  function Busy(tr: seq<System>, i: nat, j: nat): nat
    requires i <= j < |tr|
  {
    if i == j then 0
    else Busy(tr, i, j - 1) +
         if tr[j - 1].proto == tr[j].proto && tr[j - 1].loop.ctl == tr[j].loop.ctl then 0 else 1
  }

  lemma StepNears(c: F.Config, s: System, t: System, n: nat)
    requires c.names != [] && Coupled(s) && P.Inv(s.proto) && Fits(t.loop, n)
    requires Awaiting(s.proto) && Step(c, ROUTER_COSTS, s, t)
    ensures if s.proto == t.proto && s.loop.ctl == t.loop.ctl then SystemRank(n, t) == SystemRank(n, s)
            else SystemRank(n, t) < SystemRank(n, s)
  {
    if WorkerMove(c, ROUTER_COSTS, s, t) {
      WorkerNearsReply(c, s, t, n);
    }
    hide WorkerMove, P.Inv, Coupled, Rank, F.Arrival;
  }

  lemma {:induction false} SystemWaitShrinks(c: F.Config, tr: seq<System>, i: nat, j: nat)
    requires c.names != [] && IsRun(c, ROUTER_COSTS, tr) && i <= j < |tr|
    requires forall m :: i <= m < j ==> Awaiting(tr[m].proto)
    ensures SystemRank(|c.names|, tr[j]) + Busy(tr, i, j) <= SystemRank(|c.names|, tr[i])
  {
    hide SystemRank, P.Inv, Coupled, Step, Awaiting, Fits;
    if i < j {
      SystemWaitShrinks(c, tr, i, j - 1);
      StateFits(c, tr, j);
      RouterCosts();
      RunIsCoupled(c, ROUTER_COSTS, tr, j - 1);
      assert Step(c, ROUTER_COSTS, tr[j - 1], tr[j - 1 + 1]);
      StepNears(c, tr[j - 1], tr[j], |c.names|);
    }
  }

  lemma StateFits(c: F.Config, tr: seq<System>, k: nat)
    requires c.names != [] && IsRun(c, ROUTER_COSTS, tr) && k < |tr|
    ensures Fits(tr[k].loop, |c.names|)
  {
    RouterCosts();
    hide IsVRun, Fits, IsRun;
    LoopRun(c, ROUTER_COSTS, tr);
    RunFits(c, Loops(tr), k);
  }

  lemma ReplyIsNear(c: F.Config, tr: seq<System>, i: nat)
    requires c.names != [] && IsRun(c, ROUTER_COSTS, tr) && i < |tr| && Awaiting(tr[i].proto)
    ensures SystemRank(|c.names|, tr[i]) <= Calls(tr[i].proto.ctl.b, 50) * (|c.names| + 6) + 2
  {
    hide Calls, IsRun, Fits, Coupled, P.Inv, Further, Rank, P.IsRun, SystemDist, P.IntCosts, Shipped;
    var n := |c.names|;
    RouterCosts();
    RunIsCoupled(c, ROUTER_COSTS, tr, i);
    StateFits(c, tr, i);
    DistFits(tr[i], n);
    var ptr := ProtocolRun(c, ROUTER_COSTS, tr, i);
    SpentIsNat(ROUTER, ROUTER_COSTS, ptr, |ptr| - 1);
    RankIsBounded(50, n + 6, tr[i].proto, SystemDist(tr[i]));
    FurtherAndOne(50, n + 6, tr[i].proto.ctl.b);
  }

  lemma RouterCosts()
    ensures P.IntCosts(ROUTER_COSTS)
  {
  }

  /**
   * A router with n interfaces answers within n + 6 steps of its own for each call that fits the
   * budget, and 2 more, however many packets arrive meanwhile and whatever they are.
   */
  lemma RouterReplies(c: F.Config, tr: seq<System>, i: nat, j: nat)
    requires c.names != [] && IsRun(c, ROUTER_COSTS, tr) && i <= j < |tr|
    requires Awaiting(tr[i].proto) && forall m :: i < m <= j ==> Awaiting(tr[m].proto)
    ensures Busy(tr, i, j) <= Calls(tr[i].proto.ctl.b, 50) * (|c.names| + 6) + 2
  {
    hide IsRun, SystemRank, Calls, Busy, Awaiting;
    SystemWaitShrinks(c, tr, i, j);
    ReplyIsNear(c, tr, i);
  }
}
