/** The three worker programs that run the round protocol. */
module WorkerPrograms {
  import opened Decimal
  import opened RoundProtocol
  import opened RoundGuarantees
  import Routing
  import Forwarding
  import opened Instrumented

  const ROUTER_COSTS: Costs :=
    map["recvfrom" := 50, "rawSocket" := 50, "setPromisc" := 50, "intf_name_to_sock_idx" := 50,
        "get_dst_sock_idx" := 50, "send_packet" := 50, "poll" := 50, "flush_buffer" := 50]
  const CLIENT_COSTS: Costs := map["sendto" := 50, "flush_buffer" := 50, "computation" := 50]
  const SERVER_COSTS: Costs := map["sendto" := 50, "flush_buffer" := 50, "fill_buffer" := 50]

  /** process_thread of the router; the nodes are the points of the instrumented loop. */
  const ROUTER: Program := {
    Edge(0, CheckStop, 1), Edge(1, Local, 2), Edge(2, Charge("poll"), 3), Edge(2, Charge("poll"), 0),
    Edge(3, Local, 3), Edge(3, Local, 0), Edge(3, Local, 4), Edge(3, Block, 3),
    Edge(4, Charge("flush_buffer"), 5), Edge(5, Local, 6), Edge(6, Charge("recvfrom"), 7),
    Edge(7, Local, 3), Edge(7, Local, 8), Edge(8, Charge("get_dst_sock_idx"), 9),
    Edge(9, Transmit, 10), Edge(9, Local, 0), Edge(10, Charge("send_packet"), 3)}

  /** process_thread of the UDP client: it sleeps once, and then blocks for every answer. */
  const CLIENT: Program := {
    Edge(0, Block, 1), Edge(1, CheckStop, 2), Edge(2, Charge("flush_buffer"), 3), Edge(3, Transmit, 4),
    Edge(4, Charge("send_to"), 5), Edge(5, Charge("flush_buffer"), 6), Edge(6, Block, 7),
    Edge(7, Charge("computation"), 1), Edge(7, Local, 1)}

  /** process_thread of the UDP server: it blocks for every request. */
  const SERVER: Program := {
    Edge(0, CheckStop, 1), Edge(1, Charge("flush_buffer"), 2), Edge(2, Block, 3),
    Edge(3, Charge("fill_buffer"), 4), Edge(3, Local, 0), Edge(4, Transmit, 5), Edge(5, Charge("sendto"), 0)}

  lemma RouterIsLive()
    ensures Live(ROUTER)
  {
    assert Edge(0, CheckStop, 1) in ROUTER && Edge(1, Local, 2) in ROUTER && Edge(2, Charge("poll"), 3) in ROUTER;
    assert Edge(3, Local, 3) in ROUTER && Edge(4, Charge("flush_buffer"), 5) in ROUTER && Edge(5, Local, 6) in ROUTER;
    assert Edge(6, Charge("recvfrom"), 7) in ROUTER && Edge(7, Local, 3) in ROUTER;
    assert Edge(8, Charge("get_dst_sock_idx"), 9) in ROUTER && Edge(9, Local, 0) in ROUTER;
    assert Edge(10, Charge("send_packet"), 3) in ROUTER;
  }

  lemma ClientIsLive()
    ensures Live(CLIENT)
  {
    assert Edge(0, Block, 1) in CLIENT && Edge(1, CheckStop, 2) in CLIENT && Edge(2, Charge("flush_buffer"), 3) in CLIENT;
    assert Edge(3, Transmit, 4) in CLIENT && Edge(4, Charge("send_to"), 5) in CLIENT;
    assert Edge(5, Charge("flush_buffer"), 6) in CLIENT && Edge(6, Block, 7) in CLIENT && Edge(7, Local, 1) in CLIENT;
  }

  lemma ServerIsLive()
    ensures Live(SERVER)
  {
    assert Edge(0, CheckStop, 1) in SERVER && Edge(1, Charge("flush_buffer"), 2) in SERVER && Edge(2, Block, 3) in SERVER;
    assert Edge(3, Local, 0) in SERVER && Edge(4, Transmit, 5) in SERVER && Edge(5, Charge("sendto"), 0) in SERVER;
  }

  // ----- the router's graph is the skeleton of its forwarding loop

  function Node(v: VCtl): nat {
    match v
    case Top => 0
    case PollNow => 1
    case PollCharge(_) => 2
    case InterruptedCharge => 2
    case Scanning(_, _, _) => 3
    case FlushCharge(_, _, _) => 4
    case Receiving(_, _, _) => 5
    case ReceiveCharge(_, _, _) => 6
    case Received(_, _, _) => 7
    case RouteCharge(_, _, _, _) => 8
    case HasRoute(_, _, _, _) => 9
    case SendCharge(_, _) => 10
    case Blocked => 3       // inside the Block operation
    case Resuming(_) => 3
    case Halted(_) => 0     // after the program
  }

  /** The operation that a move of the loop performs, as the protocol sees it. */
  function OpOf(v: VCtl, dst: VCtl): Op {
    match v
    case Top => CheckStop
    case PollCharge(_) => Charge("poll")
    case InterruptedCharge => Charge("poll")
    case FlushCharge(_, _, _) => Charge("flush_buffer")
    case ReceiveCharge(_, _, _) => Charge("recvfrom")
    case RouteCharge(_, _, _, _) => Charge("get_dst_sock_idx")
    case SendCharge(_, _) => Charge("send_packet")
    case HasRoute(_, _, _, d) => if d == -1 then Local else Transmit
    case _ => if dst.Blocked? then Block else Local
  }

  /**
   * Every move of the instrumented loop, but for those within its blocking call, follows an edge of
   * the router's graph; a packet is sent exactly on Transmit, and the loop may be told to leave
   * exactly where the protocol can end it.
   */
  lemma RouterGraphIsSkeleton(c: Forwarding.Config, s: VState, t: VState)
    requires c.names != [] && VMove(c, s, t) && !s.ctl.Blocked? && !s.ctl.Resuming?
    ensures var op := OpOf(s.ctl, t.ctl);
            && Edge(Node(s.ctl), op, Node(t.ctl)) in ROUTER
            && (op.Transmit? <==> t.w.sent != s.w.sent)
            && (op.Charge? || op.CheckStop? <==> MayHalt(s.ctl))
  {
    hide Routing.SockIdx, Routing.DstText;
  }

  lemma ChargeIsPriced(v: VCtl, u: VCtl)
    requires OpOf(v, u).Charge?
    ensures OpOf(v, u).fn in ROUTER_COSTS && ROUTER_COSTS[OpOf(v, u).fn] == 50
  {
  }

  // ----- the programs at work

  /** One of the three programs with its own costs. */
  predicate Shipped(p: Program, costs: Costs) {
    (p == ROUTER && costs == ROUTER_COSTS) || (p == CLIENT && costs == CLIENT_COSTS) || (p == SERVER && costs == SERVER_COSTS)
  }

  /** Every priced call costs 50, so a reporting round of budget b has ceil(b/50) of them. */
  lemma ShippedRounds(p: Program, costs: Costs, tr: seq<State>, k: nat, b: nat)
    requires Shipped(p, costs) && IsRun(p, costs, tr) && k < |tr|
    requires tr[k].ctl == Await(b) && b > 0
    requires tr[k].toMain != "" && ReadValue(tr[k].toMain) != THREAD_BLOCKED
    ensures tr[k].log.calls == (b + 49) / 50 && ReadValue(tr[k].toMain) == 50 * ((b + 49) / 50) - b
  {
    hide IsRun;
    ShippedCosts(p, costs);
    UniformRound(p, costs, 50, tr, k, b);
  }

  lemma ShippedCosts(p: Program, costs: Costs)
    requires Shipped(p, costs)
    ensures IntCosts(costs) && Uniform(costs, 50)
  {
  }

  lemma ShippedPrograms(p: Program, costs: Costs)
    requires Shipped(p, costs)
    ensures Live(p) && IntCosts(costs) && Uniform(costs, 50)
  {
    hide Live;
    RouterIsLive();
    ClientIsLive();
    ServerIsLive();
    ShippedCosts(p, costs);
  }

  /** The router, the client and the server deadlock only by a zero budget after the first. */
  lemma ShippedDeadlock(p: Program, costs: Costs, tr: seq<State>, k: nat)
    requires Shipped(p, costs) && IsRun(p, costs, tr) && k < |tr| && !tr[k].ctl.Joining?
    ensures Stuck(p, costs, tr[k]) <==> ZeroBudgetTaken(tr[k])
  {
    hide Live, IsRun, Stuck, Shipped;
    ShippedPrograms(p, costs);
    DeadlockExactly(p, costs, tr, k);
  }

  /** A charge leaves the time left and the books alone exactly when the name has no price. */
  lemma UnpricedIsFree(costs: Costs, s: State, fn: string, next: nat)
    ensures var t := ChargeCall(costs, s, fn, next);
            t == s.(worker := AfterStub(next)) <==> fn !in costs
  {
    assert fn in costs ==> ChargeCall(costs, s, fn, next).log.calls == s.log.calls + 1;
  }

  /**
   * The client charges "send_to" for its sends where the server charges "sendto". Only the latter
   * has a price: the client's sends are free, the server's take 50 off the round.
   */
  lemma ClientSendsAreFree(s: State, t: State)
    requires s.worker == Run(4)
    ensures WorkerStep(CLIENT, CLIENT_COSTS, s, t) <==> t == s.(worker := AfterStub(5))
  {
    hide IntText, ReadValue, Remaining;
    var e := Edge(4, Charge("send_to"), 5);
    assert e in CLIENT && forall d :: d in CLIENT && d.src == 4 ==> d == e;
    UnpricedIsFree(CLIENT_COSTS, s, "send_to", 5);
    assert Perform(CLIENT_COSTS, s, e) == s.(worker := AfterStub(5));
  }

  lemma ServerSendsCost(s: State, t: State)
    requires s.worker == Run(5) && WorkerStep(SERVER, SERVER_COSTS, s, t)
    ensures t.left == s.left - 50 && t.log.charged == s.log.charged + 50 && t.log.calls == s.log.calls + 1
    ensures t.worker == if s.left <= 50 then Report(0) else AfterStub(0)
  {
    hide IntText, ReadValue, Remaining;
    assert forall d :: d in SERVER && d.src == 5 ==> d == Edge(5, Charge("sendto"), 0);
  }
}
