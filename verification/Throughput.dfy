/** What a packet costs in virtual time: over any run, the packets sent are covered by the calls charged for. */
module Throughput {
  import opened Decimal
  import opened RoundProtocol
  import opened RoundGuarantees
  import opened WorkerPrograms

  /** What an operation adds to the balance: its price, less `w` for a packet. */
  function Gain(costs: Costs, w: nat, op: Op): int {
    match op
    case Charge(fn) => if fn in costs then costs[fn] else 0
    case Transmit => 0 - w
    case _ => 0
  }

  /**
   * `d` is a lower bound of the balance at each point of the program, at most 0 at its start, never
   * below -slack, and not negative where a round can end.
   */
  ghost predicate Funds(p: Program, costs: Costs, w: nat, d: seq<int>, slack: nat) {
    && |d| > 0 && d[0] <= 0 && (forall n :: 0 <= n < |d| ==> 0 - slack <= d[n])
    && forall e :: e in p ==> e.src < |d| && e.dst < |d| && Covers(costs, w, d, e)
  }

  predicate Covers(costs: Costs, w: nat, d: seq<int>, e: Edge)
    requires e.src < |d| && e.dst < |d|
  {
    && d[e.dst] <= d[e.src] + Gain(costs, w, e.op)
    && (e.op.Block? || (e.op.Charge? && e.op.fn in costs) ==> d[e.dst] >= 0)
  }

  /** The cost charged so far, less `w` for each packet sent. */
  function Balance(w: nat, l: Ledger): int {
    l.charged - w * l.sent
  }

  predicate Funded(w: nat, d: seq<int>, slack: nat, s: State) {
    var balance := Balance(w, s.log);
    match s.worker
    case FirstRead => balance == 0
    case Run(pc) => pc < |d| && d[pc] <= balance
    case AfterStub(pc) => pc < |d| && d[pc] <= balance
    case Report(pc) => pc < |d| && d[pc] <= balance && balance >= 0
    case RoundRead(pc) => pc < |d| && d[pc] <= balance && balance >= 0
    case BlockSend(pc) => pc < |d| && d[pc] <= balance && balance >= 0
    case Asleep(pc) => pc < |d| && d[pc] <= balance && balance >= 0
    case BlockRead(pc) => pc < |d| && d[pc] <= balance && balance >= 0
    case Finished => balance >= 0 - slack
  }

  lemma OnePacketMore(w: nat, n: nat)
    ensures w * (n + 1) == w * n + w
  {
  }

  lemma EdgeFunds(p: Program, costs: Costs, w: nat, d: seq<int>, slack: nat, s: State, e: Edge)
    requires Funds(p, costs, w, d, slack) && Funded(w, d, slack, s) && e in p && s.worker == Run(e.src)
    ensures Funded(w, d, slack, Perform(costs, s, e))
  {
    assert Covers(costs, w, d, e);
    OnePacketMore(w, s.log.sent);
  }

  lemma StepFunds(p: Program, costs: Costs, w: nat, d: seq<int>, slack: nat, s: State, t: State)
    requires Funds(p, costs, w, d, slack) && Funded(w, d, slack, s) && Step(p, costs, s, t)
    ensures Funded(w, d, slack, t)
  {
    if CtlStep(s, t) {
      CtlKeepsBooks(s, t);
      hide CtlStep, Balance;
    } else if s.worker.Run? {
      var e :| e in p && e.src == s.worker.pc && t == Perform(costs, s, e);
      EdgeFunds(p, costs, w, d, slack, s, e);
    } else {
      WorkerGoesOn(p, costs, s, t);
      hide WorkerStep, Balance;
    }
  }

  lemma CtlKeepsBooks(s: State, t: State)
    requires CtlStep(s, t)
    ensures t.worker == s.worker && t.log.charged == s.log.charged && t.log.sent == s.log.sent
  {
    hide IntText, ReadValue, Remaining;
  }

  lemma {:induction false} RunFunds(p: Program, costs: Costs, w: nat, d: seq<int>, slack: nat, tr: seq<State>, k: nat)
    requires Funds(p, costs, w, d, slack) && IsRun(p, costs, tr) && k < |tr|
    ensures Funded(w, d, slack, tr[k])
  {
    hide Funds, Funded, Step;
    if k > 0 {
      RunFunds(p, costs, w, d, slack, tr, k - 1);
      assert Step(p, costs, tr[k - 1], tr[k - 1 + 1]);
      StepFunds(p, costs, w, d, slack, tr[k - 1], tr[k]);
    } else {
      StartFunded(w, d, slack, tr[0]);
    }
  }

  lemma StartFunded(w: nat, d: seq<int>, slack: nat, s: State)
    requires s == START
    ensures Funded(w, d, slack, s)
  {
    assert s.log.sent == 0 && w * 0 == 0;
  }

  /** In every state of every run the packets sent cost at least `w` each, but for the slack. */
  lemma PacketsArePaid(p: Program, costs: Costs, w: nat, d: seq<int>, slack: nat, tr: seq<State>, k: nat)
    requires Funds(p, costs, w, d, slack) && IsRun(p, costs, tr) && k < |tr|
    ensures w * tr[k].log.sent <= tr[k].log.charged + slack
  {
    RunFunds(p, costs, w, d, slack, tr, k);
    var s := tr[k];
    assert !s.worker.FirstRead? && !s.worker.Finished? ==> s.worker.pc < |d| && 0 - slack <= d[s.worker.pc];
    hide Funds, IsRun;
  }

  // ----- packets and time_elapsed

  /** Time passes uncharged in two ways: a round fetched for a blocked worker, and the rest of one in which it blocks. */
  lemma IdleStep(p: Program, costs: Costs, s: State, t: State)
    requires Inv(s) && Step(p, costs, s, t)
    ensures t.log.forfeited == s.log.forfeited + if t.log.blocks == s.log.blocks then 0 else s.left
    ensures t.log.idle == s.log.idle + if s.ctl.Check? && t.ctl.Ack? then s.ctl.b else 0
    ensures t.log.forfeited >= s.log.forfeited && t.log.idle >= s.log.idle
  {
    hide IntText, ReadValue, Remaining, Books;
  }

  lemma {:induction false} IdleIsNat(p: Program, costs: Costs, tr: seq<State>, k: nat)
    requires IsRun(p, costs, tr) && IntCosts(costs) && k < |tr|
    ensures tr[k].log.forfeited >= 0 && tr[k].log.idle >= 0
  {
    hide Inv, Step;
    if k > 0 {
      IdleIsNat(p, costs, tr, k - 1);
      RunInv(p, costs, tr, k - 1);
      assert Step(p, costs, tr[k - 1], tr[k - 1 + 1]);
      IdleStep(p, costs, tr[k - 1], tr[k]);
    }
  }

  /** The worker is between rounds, or blocked, whenever the controller fetches. */
  lemma BetweenRounds(s: State)
    requires Inv(s) && s.ctl.Ack?
    ensures Reading(s.worker) || s.worker.Asleep?
  {
    hide Books;
  }

  lemma RestingIsPaid(w: nat, d: seq<int>, slack: nat, s: State)
    requires Funded(w, d, slack, s) && (Reading(s.worker) || s.worker.Asleep?)
    ensures w * s.log.sent <= s.log.charged
  {
  }

  /** At every round boundary each packet sent accounts for at least `w` of time_elapsed. */
  lemma PacketsTakeTime(p: Program, costs: Costs, w: nat, d: seq<int>, slack: nat, tr: seq<State>, k: nat)
    requires Funds(p, costs, w, d, slack) && IsRun(p, costs, tr) && IntCosts(costs) && k < |tr| && tr[k].ctl.Ack?
    ensures w * tr[k].log.sent <= tr[k].log.charged <= tr[k].elapsed
  {
    hide Funds, IsRun, Inv, Funded;
    RunFunds(p, costs, w, d, slack, tr, k);
    RunInv(p, costs, tr, k);
    BetweenRounds(tr[k]);
    RestingIsPaid(w, d, slack, tr[k]);
    TimeIsConserved(p, costs, tr, k);
    IdleIsNat(p, costs, tr, k);
  }

  /** So budgets bound the traffic: with positive ones, what was issued and the drift must cover the packets. */
  lemma PacketsNeedBudget(p: Program, costs: Costs, w: nat, d: seq<int>, slack: nat, cmax: nat, tr: seq<State>, k: nat)
    requires Funds(p, costs, w, d, slack) && IsRun(p, costs, tr) && IntCosts(costs) && k < |tr| && tr[k].ctl.Ack?
    requires PositiveBudgets(tr) && cmax > 0 && forall fn :: fn in costs ==> costs[fn] <= cmax
    ensures w * tr[k].log.sent <= tr[k].log.issued + tr[k].log.rounds * (cmax - 1)
  {
    hide Funds, IsRun, PositiveBudgets;
    PacketsTakeTime(p, costs, w, d, slack, tr, k);
    DriftIsBounded(p, costs, cmax, tr, k);
  }

  // ----- the three programs

  const ROUTER_FUNDS: seq<int> := [0, 0, 0, 0, 0, 50, 50, 100, 100, 150, -50]
  const CLIENT_FUNDS: seq<int> := [0, 0, 0, 50, -50, -50, 0, 0]
  const SERVER_FUNDS: seq<int> := [0, 0, 50, 50, 100, -50]

  lemma RouterPrices()
    ensures forall fn :: fn in {"poll", "flush_buffer", "recvfrom", "get_dst_sock_idx", "send_packet"} ==>
              fn in ROUTER_COSTS && ROUTER_COSTS[fn] == 50
  {
  }

  lemma RouterFunds()
    ensures Funds(ROUTER, ROUTER_COSTS, 200, ROUTER_FUNDS, 50)
  {
    hide ROUTER_COSTS;
    RouterPrices();
  }

  lemma ClientFunds()
    ensures Funds(CLIENT, CLIENT_COSTS, 100, CLIENT_FUNDS, 50)
  {
  }

  lemma ServerFunds()
    ensures Funds(SERVER, SERVER_COSTS, 150, SERVER_FUNDS, 50)
  {
  }

  /**
   * `price` has been charged for each packet sent, but for one call still due; and at a round
   * boundary each packet accounts for that much of time_elapsed, without exception.
   */
  predicate Paid(price: nat, s: State) {
    price * s.log.sent <= s.log.charged + 50 && (s.ctl.Ack? ==> price * s.log.sent <= s.elapsed)
  }

  lemma RunIsPaid(p: Program, costs: Costs, price: nat, d: seq<int>, tr: seq<State>, k: nat)
    requires Funds(p, costs, price, d, 50) && IsRun(p, costs, tr) && IntCosts(costs) && k < |tr|
    ensures Paid(price, tr[k])
  {
    hide Funds, IsRun, IntCosts;
    PacketsArePaid(p, costs, price, d, 50, tr, k);
    if tr[k].ctl.Ack? {
      PacketsTakeTime(p, costs, price, d, 50, tr, k);
    }
  }

  /** In every run a packet costs the server 150 us, the client 100, its send being free, and the router 200. */
  lemma ShippedPackets(tr: seq<State>, k: nat)
    requires k < |tr|
    ensures IsRun(SERVER, SERVER_COSTS, tr) ==> Paid(150, tr[k])
    ensures IsRun(CLIENT, CLIENT_COSTS, tr) ==> Paid(100, tr[k])
    ensures IsRun(ROUTER, ROUTER_COSTS, tr) ==> Paid(200, tr[k])
  {
    hide *;
    ServerFunds();
    ClientFunds();
    RouterFunds();
    CostsAreInts();
    if IsRun(SERVER, SERVER_COSTS, tr) {
      RunIsPaid(SERVER, SERVER_COSTS, 150, SERVER_FUNDS, tr, k);
    }
    if IsRun(CLIENT, CLIENT_COSTS, tr) {
      RunIsPaid(CLIENT, CLIENT_COSTS, 100, CLIENT_FUNDS, tr, k);
    }
    if IsRun(ROUTER, ROUTER_COSTS, tr) {
      RunIsPaid(ROUTER, ROUTER_COSTS, 200, ROUTER_FUNDS, tr, k);
    }
  }

  lemma CostsAreInts()
    ensures IntCosts(SERVER_COSTS) && IntCosts(CLIENT_COSTS) && IntCosts(ROUTER_COSTS)
  {
  }
}
