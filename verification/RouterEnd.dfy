/**
 * The end of an experiment may wait for ever: a blocked router leaves only once a packet wakes it,
 * and a router whose inputs stay silent does block.
 */
module RouterEnd {
  import opened Decimal
  import P = RoundProtocol
  import G = RoundGuarantees
  import R = RunSteps
  import F = Forwarding
  import opened Instrumented
  import opened WorkerPrograms
  import opened RouterSystem

  /** No input has a packet. */
  predicate Silent(w: F.World) {
    forall i: nat :: i < |w.taken| ==> !F.Waiting(w, i)
  }

  lemma Onward(c: F.Config, costs: P.Costs, tr: seq<System>, s: System, t: System) returns (more: seq<System>)
    requires c.names != [] && IsRun(c, costs, tr) && s == tr[|tr| - 1] && Step(c, costs, s, t)
    ensures more == tr + [t] && IsRun(c, costs, more)
  {
    hide Step, IsRun;
    RunGrows(c, costs, tr, t);
    more := tr + [t];
  }

  lemma CtlOnward(c: F.Config, costs: P.Costs, tr: seq<System>, s: System, p: P.State) returns (more: seq<System>)
    requires c.names != [] && IsRun(c, costs, tr) && s == tr[|tr| - 1] && P.CtlStep(s.proto, p)
    ensures more == tr + [s.(proto := p)] && IsRun(c, costs, more)
  {
    hide P.CtlStep, IsRun, WorkerMove, Arrives;
    more := Onward(c, costs, tr, s, s.(proto := p));
  }

  // ----- stopping a blocked router

  /**
   * Every run in which the controller fetches while the worker is asleep and no packet is there can
   * go on to a state where `stop` is set, the join waits, and only a packet can end that.
   */
  lemma EndCanWait(c: F.Config, costs: P.Costs, tr: seq<System>) returns (more: seq<System>)
    requires c.names != [] && IsRun(c, costs, tr) && P.IntCosts(costs)
    requires var s := tr[|tr| - 1]; s.proto.ctl.Ack? && s.proto.worker.Asleep? && Silent(s.loop.w)
    ensures IsRun(c, costs, more) && tr <= more
    ensures var t := more[|more| - 1];
            Still(c, costs, t) && t.proto.ctl.Joining? && !t.proto.worker.Finished? && t.loop == tr[|tr| - 1].loop
  {
    var s := tr[|tr| - 1];
    var s1 := R.StopFetched(s.proto);
    var s2 := R.StopSet(s1);
    var s3 := R.ExitSent(s2);
    R.StoppingSteps(s.proto);
    assert Ended(s.(proto := s3));
    hide P.CtlStep, IsRun, Silent, Still, Ended, Coupled, P.Inv, R.StopFetched, R.StopSet, R.ExitSent;
    var tr1 := CtlOnward(c, costs, tr, s, s1);
    var tr2 := CtlOnward(c, costs, tr1, s.(proto := s1), s2);
    more := CtlOnward(c, costs, tr2, s.(proto := s2), s3);
    RunIsCoupled(c, costs, more, |more| - 1);
    EndedIsStill(c, costs, s.(proto := s3));
  }

  // ----- a silent router blocks

  /** The controller waits on `b`, and the worker is at this point with the world unchanged. */
  predicate At(s: System, w: F.World, b: nat, worker: P.Worker, v: VCtl) {
    && s.proto.ctl == P.Await(b) && !s.proto.stop && s.proto.toMain == "" && s.proto.worker == worker
    && s.loop == VState(w, v)
  }

  /** The worker's program operation that takes the loop on to `v`, its world unchanged. */
  lemma Operate(c: F.Config, tr: seq<System>, s: System, v: VCtl) returns (more: seq<System>)
    requires c.names != [] && IsRun(c, ROUTER_COSTS, tr) && s == tr[|tr| - 1] && s.proto.worker.Run?
    requires VMove(c, s.loop, s.loop.(ctl := v))
    ensures IsRun(c, ROUTER_COSTS, more) && more == tr + [Operated(ROUTER_COSTS, s, s.loop.(ctl := v))]
  {
    hide VMove, IsRun, Operated;
    OperationMoves(c, ROUTER_COSTS, s, s.loop.(ctl := v));
    hide WorkerMove, CtlMove, Arrives;
    more := Onward(c, ROUTER_COSTS, tr, s, Operated(ROUTER_COSTS, s, s.loop.(ctl := v)));
  }

  /** The first read: the worker takes the budget and starts its program. */
  lemma TakesBudget(c: F.Config, tr: seq<System>, s: System, w: F.World, b: nat) returns (more: seq<System>)
    requires c.names != [] && IsRun(c, ROUTER_COSTS, tr) && s == tr[|tr| - 1] && b < TWO31
    requires At(s, w, b, P.FirstRead, Top) && s.proto.toWorker == IntText(b)
    ensures IsRun(c, ROUTER_COSTS, more)
    ensures var t := more[|more| - 1]; At(t, w, b, P.Run(0), Top) && t.proto.left == b
  {
    var t := System(P.TakeBudget(s.proto).(worker := P.Run(0)), s.loop);
    P.ReadWhatWasSent(b);
    hide IntText, P.ReadValue, P.Remaining, IsRun;
    assert WorkerMove(c, ROUTER_COSTS, s, t);
    hide WorkerMove, CtlMove, Arrives;
    more := Onward(c, ROUTER_COSTS, tr, s, t);
  }

  /** The look at `stop`, and a poll that finds nothing. */
  lemma Polls(c: F.Config, tr: seq<System>, s: System, w: F.World, b: nat) returns (more: seq<System>)
    requires c.names != [] && IsRun(c, ROUTER_COSTS, tr) && s == tr[|tr| - 1]
    requires At(s, w, b, P.Run(0), Top)
    ensures IsRun(c, ROUTER_COSTS, more)
    ensures var t := more[|more| - 1];
            At(t, w, b, P.Run(2), PollCharge(F.Snapshot(w))) && t.proto.left == s.proto.left
  {
    hide IsRun, F.Snapshot;
    var tr1 := Operate(c, tr, s, PollNow);
    more := Operate(c, tr1, tr1[|tr1| - 1], PollCharge(F.Snapshot(w)));
  }

  /** The charge for the poll, with time to spare. */
  lemma PaysForPoll(c: F.Config, tr: seq<System>, s: System, w: F.World, b: nat, ready: seq<bool>)
    returns (more: seq<System>)
    requires c.names != [] && IsRun(c, ROUTER_COSTS, tr) && s == tr[|tr| - 1]
    requires At(s, w, b, P.Run(2), PollCharge(ready)) && s.proto.left > 50
    ensures IsRun(c, ROUTER_COSTS, more) && At(more[|more| - 1], w, b, P.Run(3), Scanning(0, ready, false))
  {
    hide IsRun;
    assert ROUTER_COSTS["poll"] == 50;
    var tr1 := Operate(c, tr, s, Scanning(0, ready, false));
    var t := tr1[|tr1| - 1];
    assert At(t, w, b, P.AfterStub(3), PollCharge(ready));
    var u := System(t.proto.(worker := P.Run(3)), t.loop.(ctl := Scanning(0, ready, false)));
    hide Operated, ROUTER_COSTS;
    assert WorkerMove(c, ROUTER_COSTS, t, u);
    hide WorkerMove, CtlMove, Arrives;
    more := Onward(c, ROUTER_COSTS, tr1, t, u);
  }

  /** The scan over inputs that are not ready. */
  lemma {:induction false} Scans(c: F.Config, tr: seq<System>, s: System, w: F.World, b: nat, i: nat, ready: seq<bool>)
    returns (more: seq<System>)
    requires c.names != [] && IsRun(c, ROUTER_COSTS, tr) && s == tr[|tr| - 1]
    requires At(s, w, b, P.Run(3), Scanning(i, ready, false))
    requires i <= |ready| && forall j :: 0 <= j < |ready| ==> !ready[j]
    ensures IsRun(c, ROUTER_COSTS, more) && At(more[|more| - 1], w, b, P.Run(3), Scanning(|ready|, ready, false))
    decreases |ready| - i
  {
    hide IsRun;
    more := tr;
    if i < |ready| {
      more := Operate(c, tr, s, Scanning(i + 1, ready, false));
      more := Scans(c, more, more[|more| - 1], w, b, i + 1, ready);
    }
  }

  lemma NoticeWorker(s: P.State)
    requires s.worker.BlockSend?
    ensures R.Noticed(s).worker == P.Asleep(s.worker.pc)
  {
    hide IntText;
  }

  /** A worker about to block writes the notice, and the controller takes it. */
  lemma Notifies(c: F.Config, tr: seq<System>, s: System, w: F.World, b: nat) returns (more: seq<System>)
    requires c.names != [] && IsRun(c, ROUTER_COSTS, tr) && s == tr[|tr| - 1] && At(s, w, b, P.BlockSend(3), Blocked)
    ensures IsRun(c, ROUTER_COSTS, more) && |more| > 0
    ensures var t := more[|more| - 1]; t.proto.ctl.Ack? && t.proto.worker.Asleep? && t.loop.w == w
  {
    hide IsRun, P.CtlStep, P.WorkerStep, P.Receive, VMove, R.Noticed;
    var p := R.Noticed(s.proto);
    var q := P.Receive(p, b, P.THREAD_BLOCKED);
    R.NoticeSteps(ROUTER, ROUTER_COSTS, s.proto, b);
    NoticeWorker(s.proto);
    var t := System(p, s.loop);
    assert WorkerMove(c, ROUTER_COSTS, s, t);
    hide WorkerMove, CtlMove, Arrives;
    var tr1 := Onward(c, ROUTER_COSTS, tr, s, t);
    more := CtlOnward(c, ROUTER_COSTS, tr1, t, q);
  }

  /** The poll of a silent world finds nothing, so the worker scans, blocks, and says so. */
  lemma SilenceBlocks(c: F.Config, tr: seq<System>, s: System, w: F.World, b: nat) returns (more: seq<System>)
    requires c.names != [] && IsRun(c, ROUTER_COSTS, tr) && s == tr[|tr| - 1] && b < TWO31
    requires At(s, w, b, P.FirstRead, Top) && s.proto.toWorker == IntText(b) && b > 50 && Silent(w)
    ensures IsRun(c, ROUTER_COSTS, more) && |more| > 0
    ensures var t := more[|more| - 1]; t.proto.ctl.Ack? && t.proto.worker.Asleep? && t.loop.w == w
  {
    var ready := F.Snapshot(w);
    assert forall j :: 0 <= j < |ready| ==> !ready[j];
    hide IsRun, F.Snapshot, IntText, Silent;
    more := TakesBudget(c, tr, s, w, b);
    more := Polls(c, more, more[|more| - 1], w, b);
    more := PaysForPoll(c, more, more[|more| - 1], w, b, ready);
    more := Scans(c, more, more[|more| - 1], w, b, 0, ready);
    more := GoesToBlock(c, more, more[|more| - 1], w, b, ready);
    more := Notifies(c, more, more[|more| - 1], w, b);
  }

  lemma GoesToBlock(c: F.Config, tr: seq<System>, s: System, w: F.World, b: nat, ready: seq<bool>)
    returns (more: seq<System>)
    requires c.names != [] && IsRun(c, ROUTER_COSTS, tr) && s == tr[|tr| - 1]
    requires At(s, w, b, P.Run(3), Scanning(|ready|, ready, false))
    ensures IsRun(c, ROUTER_COSTS, more) && |more| > 0 && At(more[|more| - 1], w, b, P.BlockSend(3), Blocked)
  {
    hide IsRun;
    more := Operate(c, tr, s, Blocked);
  }

  // ----- the whole finding

  lemma BudgetGoesOut(c: F.Config, tr: seq<System>, s: System, w: F.World, b: nat) returns (more: seq<System>)
    requires c.names != [] && IsRun(c, ROUTER_COSTS, tr) && s == tr[|tr| - 1] && b < TWO31
    requires s.proto.ctl.Ack? && s.proto.worker.FirstRead? && !s.proto.blocked && !s.proto.stop
    requires s.proto.toWorker == "" && s.proto.toMain == "" && s.loop == VState(w, Top)
    ensures IsRun(c, ROUTER_COSTS, more) && |more| > 0
    ensures var t := more[|more| - 1]; At(t, w, b, P.FirstRead, Top) && t.proto.toWorker == IntText(b)
  {
    var s1 := R.Fetched(s.proto, b);
    var s2 := s1.(ctl := P.Send(b));
    var s3 := R.Waits(s1, b);
    R.FetchingStep(s.proto, b);
    R.SendingSteps(s1, b);
    assert s3.toWorker == IntText(b);
    hide P.CtlStep, IsRun, IntText;
    more := CtlOnward(c, ROUTER_COSTS, tr, s, s1);
    more := CtlOnward(c, ROUTER_COSTS, more, s.(proto := s1), s2);
    more := CtlOnward(c, ROUTER_COSTS, more, s.(proto := s2), s3);
  }

  lemma StartIsSilent(c: F.Config, s: System)
    requires s == Start(c)
    ensures Silent(s.loop.w) && s.loop.ctl.Top? && s.loop.w == F.Start(c).w
    ensures s.proto.ctl.Ack? && s.proto.worker.FirstRead? && !s.proto.blocked && !s.proto.stop
    ensures s.proto.toWorker == "" && s.proto.toMain == ""
  {
  }

  /**
   * The end can wait for ever: a router with any number of interfaces, on any first budget above
   * the price of one poll, has a run without a single packet that stops and then stands still with
   * the worker asleep.
   */
  lemma SilentRouterNeverEnds(c: F.Config, b: nat) returns (tr: seq<System>)
    requires c.names != [] && 50 < b < TWO31
    ensures IsRun(c, ROUTER_COSTS, tr)
    ensures var t := tr[|tr| - 1];
            Still(c, ROUTER_COSTS, t) && t.proto.ctl.Joining? && !t.proto.worker.Finished? && t.loop.w == F.Start(c).w
  {
    var s := Start(c);
    StartIsSilent(c, s);
    ShippedCosts(ROUTER, ROUTER_COSTS);
    tr := [s];
    assert IsRun(c, ROUTER_COSTS, tr);
    hide *;
    tr := BudgetGoesOut(c, tr, s, s.loop.w, b);
    tr := SilenceBlocks(c, tr, tr[|tr| - 1], s.loop.w, b);
    tr := EndCanWait(c, ROUTER_COSTS, tr);
  }
}
