/** What the traffic of the whole router costs in virtual time, dropped packets included. */
module RouterThroughput {
  import opened Decimal
  import P = RoundProtocol
  import G = RoundGuarantees
  import F = Forwarding
  import opened Instrumented
  import opened WorkerPrograms
  import opened RouterSystem
  import T = Throughput

  /** The cost charged so far, less 200 for each packet sent and 100 for each dropped. */
  function Balance(s: System): int {
    s.proto.log.charged - 200 * |s.loop.w.sent| - 100 * |s.loop.w.lost|
  }

  /** What has been charged for the packet in hand, less what is still due for one sent. */
  function Credit(v: VCtl): int {
    match v
    case Receiving(_, _, _) => 50
    case ReceiveCharge(_, _, _) => 50
    case Received(_, _, _) => 100
    case RouteCharge(_, _, _, _) => 100
    case HasRoute(_, _, _, _) => 150
    case SendCharge(_, _) => -50
    case _ => 0
  }

  /** Within update_stub the call has been charged already. */
  predicate Covered(s: System) {
    if s.proto.worker.Run? then Balance(s) >= Credit(s.loop.ctl)
    else if Pausing(s.loop.ctl) then Balance(s) >= Credit(AfterPause(s.loop.ctl))
    else Balance(s) >= 0
  }

  /** A move away from a charge adds no more to the credit than was charged. */
  lemma MoveCovers(c: F.Config, s: VState, u: VState)
    requires c.names != [] && VMove(c, s, u) && !Pausing(s.ctl) && !s.ctl.Blocked?
    ensures 200 * |u.w.sent| + 100 * |u.w.lost| + Credit(u.ctl) <= 200 * |s.w.sent| + 100 * |s.w.lost| + Credit(s.ctl)
    ensures u.ctl.Blocked? ==> Credit(s.ctl) == 0
  {
    hide F.Waiting, F.Head;
  }

  lemma PauseCovers(v: VCtl)
    requires Pausing(v)
    ensures 0 <= Credit(AfterPause(v)) && (!v.Resuming? ==> Credit(AfterPause(v)) <= Credit(v) + 50)
  {
  }

  lemma PerformCharges(s: P.State, e: P.Edge)
    requires s.worker.Run?
    ensures var t := P.Perform(ROUTER_COSTS, s, e);
            t.log.charged == s.log.charged + if e.op.Charge? && e.op.fn in ROUTER_COSTS then ROUTER_COSTS[e.op.fn] else 0
  {
  }

  lemma RunCovers(c: F.Config, s: System, t: System)
    requires c.names != [] && Coupled(s) && Coupled(t) && Covered(s) && s.proto.worker.Run?
    requires RunStep(c, ROUTER_COSTS, s, t)
    ensures Covered(t)
  {
    var u :| VMove(c, s.loop, u) && RunOn(ROUTER_COSTS, s, t, u);
    var e := EdgeOf(s.loop.ctl, u.ctl);
    PerformCharges(s.proto, e);
    if Pausing(s.loop.ctl) {
      PauseMoves(c, s.loop, u);
      ChargeIsPriced(s.loop.ctl, u.ctl);
      PauseCovers(s.loop.ctl);
      hide VMove, ROUTER_COSTS;
    } else {
      PlainMoves(c, s.loop, u);
      MoveCovers(c, s.loop, u);
      hide VMove, ROUTER_COSTS;
    }
  }

  lemma OtherCovers(c: F.Config, s: System, t: System)
    requires c.names != [] && Coupled(s) && Coupled(t) && Covered(s) && !s.proto.worker.Run?
    requires WorkerMove(c, ROUTER_COSTS, s, t)
    ensures Covered(t)
  {
    G.WorkerGoesOn(ROUTER, ROUTER_COSTS, s.proto, t.proto);
    if Pausing(s.loop.ctl) {
      PauseCovers(s.loop.ctl);
    }
    hide P.WorkerStep, ROUTER_COSTS, ROUTER, F.Waiting, F.Snapshot;
  }

  lemma StepCovers(c: F.Config, s: System, t: System)
    requires c.names != [] && Coupled(s) && Coupled(t) && Covered(s) && Step(c, ROUTER_COSTS, s, t)
    ensures Covered(t)
  {
    if WorkerMove(c, ROUTER_COSTS, s, t) {
      if s.proto.worker.Run? {
        RunCovers(c, s, t);
      } else {
        OtherCovers(c, s, t);
      }
    } else if CtlMove(s, t) {
      T.CtlKeepsBooks(s.proto, t.proto);
    } else {
      ArrivalSends(s.loop.w, t.loop.w);
    }
    hide WorkerMove, P.CtlStep, F.Arrival, Coupled;
  }

  lemma {:induction false} RunIsCovered(c: F.Config, tr: seq<System>, k: nat)
    requires c.names != [] && IsRun(c, ROUTER_COSTS, tr) && k < |tr|
    ensures Covered(tr[k])
  {
    hide Coupled, Covered, Step, P.Inv;
    if k > 0 {
      RunIsCovered(c, tr, k - 1);
      T.CostsAreInts();
      RunIsCoupled(c, ROUTER_COSTS, tr, k - 1);
      RunIsCoupled(c, ROUTER_COSTS, tr, k);
      assert Step(c, ROUTER_COSTS, tr[k - 1], tr[k - 1 + 1]);
      StepCovers(c, tr[k - 1], tr[k]);
    } else {
      StartIsCovered(c, tr[0]);
    }
  }

  lemma StartIsCovered(c: F.Config, s: System)
    requires s == Start(c)
    ensures Covered(s)
  {
  }

  /**
   * In every state of the whole router 200 us are charged for each packet sent and 100 for each
   * dropped, but for the send in progress; and at a round boundary time_elapsed covers them all.
   */
  lemma TrafficIsPaid(c: F.Config, tr: seq<System>, k: nat)
    requires c.names != [] && IsRun(c, ROUTER_COSTS, tr) && k < |tr|
    ensures var s := tr[k];
            var price := 200 * |s.loop.w.sent| + 100 * |s.loop.w.lost|;
            price <= s.proto.log.charged + 50 && (s.proto.ctl.Ack? ==> price <= s.proto.elapsed)
  {
    RunIsCovered(c, tr, k);
    T.CostsAreInts();
    RunIsCoupled(c, ROUTER_COSTS, tr, k);
    hide IsRun;
    if tr[k].proto.ctl.Ack? {
      BoundaryIsPaid(c, tr, k);
    }
    hide P.Inv, Coupled;
  }

  lemma BoundaryIsPaid(c: F.Config, tr: seq<System>, k: nat)
    requires c.names != [] && IsRun(c, ROUTER_COSTS, tr) && k < |tr| && tr[k].proto.ctl.Ack?
    ensures 200 * |tr[k].loop.w.sent| + 100 * |tr[k].loop.w.lost| <= tr[k].proto.elapsed
  {
    hide IsRun, P.Inv, P.IsRun;
    RunIsCovered(c, tr, k);
    T.CostsAreInts();
    RunIsCoupled(c, ROUTER_COSTS, tr, k);
    T.BetweenRounds(tr[k].proto);
    var ptr := ProtocolRun(c, ROUTER_COSTS, tr, k);
    G.TimeIsConserved(ROUTER, ROUTER_COSTS, ptr, |ptr| - 1);
    T.IdleIsNat(ROUTER, ROUTER_COSTS, ptr, |ptr| - 1);
  }
}
