/**
 * How long a controller waits: a bound on the steps the worker takes until its reply is in the
 * pipe, from the budget, the price of a call, and the distance between calls.
 */
module BoundedReply {
  import opened Decimal
  import opened RoundProtocol
  import opened RoundGuarantees
  import opened WorkerPrograms

  /** How many calls of cost `c` it takes to use up the time `left`: ceil(left/c), or one if there is none. */
  function Calls(left: int, c: nat): nat
    requires c > 0
  {
    if left <= 0 then 1 else (left + c - 1) / c
  }

  lemma OneCallLess(left: int, c: nat)
    requires c > 0 && left > c
    ensures Calls(left, c) == Calls(left - c, c) + 1 && Calls(left - c, c) > 0
  {
    var n := (left - c + c - 1) / c;
    CeilingDown(left - c, c, n);
    CeilingOf(left, c, n + 1);
  }

  lemma CeilingDown(b: nat, c: nat, n: nat)
    requires c > 0 && b > 0 && n == (b + c - 1) / c
    ensures c * n - c < b <= c * n && n > 0 && c * (n + 1) - c < b + c <= c * (n + 1)
  {
    assert c * n <= b + c - 1 < c * n + c;
    assert n == 0 ==> c * n == 0;
  }

  /**
   * The steps a worker may still take before its reply: `k` for each further call, and `d` to the
   * next one.
   */
  function Rank(c: nat, k: nat, s: State, d: nat): nat
    requires c > 0
  {
    match s.worker
    case Run(_) => Further(c, k, s.left) + d + 1
    case AfterStub(_) => Further(c, k, s.left) + d + 1
    case Report(_) => 1
    case BlockSend(_) => 1
    case Asleep(_) => 0
    case Finished => 0
    case FirstRead => PendingRank(c, k, s)
    case RoundRead(_) => PendingRank(c, k, s)
    case BlockRead(_) => PendingRank(c, k, s)
  }

  /** The budget in the pipe will make for that many. */
  function PendingRank(c: nat, k: nat, s: State): nat
    requires c > 0
  {
    if s.toWorker != "" && s.ctl.Await? then Further(c, k, s.ctl.b) + k + 2 else 0
  }

  /** The steps for the calls after the next one. */
  function Further(c: nat, k: nat, left: int): nat
    requires c > 0
  {
    var n := Calls(left, c);
    if n == 0 then 0 else (n - 1) * k
  }

  lemma FurtherLess(c: nat, k: nat, left: int)
    requires c > 0 && left > c
    ensures Further(c, k, left) == Further(c, k, left - c) + k
  {
    OneCallLess(left, c);
    var n := Calls(left - c, c);
    assert n * k == (n - 1) * k + k;
  }

  lemma CallsMonotone(c: nat, left: int, b: int)
    requires c > 0 && left <= b
    ensures 0 < Calls(left, c) <= Calls(b, c)
  {
    var m, n := Calls(left, c), Calls(b, c);
    if left > 0 {
      CeilingDown(left, c, m);
      CeilingDown(b, c, n);
      MulMonotone(c, n + 1, m);
    } else if b > 0 {
      CeilingDown(b, c, n);
    }
  }

  lemma FurtherMonotone(c: nat, k: nat, left: int, b: int)
    requires c > 0 && left <= b
    ensures Further(c, k, left) <= Further(c, k, b)
  {
    CallsMonotone(c, left, b);
    hide Calls;
    MulMonotone(k, Calls(left, c) - 1, Calls(b, c) - 1);
  }

  /** The controller waits, and no reply is there. */
  predicate Awaiting(s: State) {
    s.ctl.Await? && s.toMain == ""
  }

  /** Every price is at least `c`. */
  ghost predicate AtLeast(costs: Costs, c: nat) {
    forall fn :: fn in costs ==> c <= costs[fn]
  }

  /** A priced call brings the reply nearer by all the steps up to the next call. */
  lemma ChargeNears(c: nat, k: nat, costs: Costs, s: State, fn: string, next: nat, d: nat, e: nat)
    requires c > 0 && s.worker.Run? && fn in costs && c <= costs[fn] && d > 0 && e <= k
    ensures Rank(c, k, ChargeCall(costs, s, fn, next), e) < Rank(c, k, s, d)
  {
    if s.left > costs[fn] {
      FurtherLess(c, k, s.left);
      FurtherMonotone(c, k, s.left - costs[fn], s.left - c);
    }
    hide Further;
  }

  /** So does taking the budget. */
  lemma TakingNears(p: Program, costs: Costs, c: nat, k: nat, s: State, t: State, e: nat)
    requires c > 0 && e <= k && Inv(s) && Awaiting(s) && Reading(s.worker) && WorkerStep(p, costs, s, t)
    ensures Rank(c, k, t, e) < Rank(c, k, s, 0) == Further(c, k, s.ctl.b) + k + 2
    ensures t.worker.Finished? || (t.worker == if s.worker.FirstRead? then Run(0) else AfterStub(s.worker.pc))
  {
    hide Further, Replied, Books, ReadValue, IntText, Remaining;
    assert BudgetPending(s, s.ctl.b);
    ReadWhatWasSent(s.ctl.b);
  }

  /** And so do the write of a report and of the notice before blocking. */
  lemma ReplyNears(p: Program, costs: Costs, c: nat, k: nat, s: State, t: State, d: nat, e: nat)
    requires c > 0 && Inv(s) && Awaiting(s) && (s.worker.Report? || s.worker.BlockSend?) && WorkerStep(p, costs, s, t)
    ensures Rank(c, k, t, e) < Rank(c, k, s, d)
  {
    hide Further, Books, ReadValue, IntText, Remaining;
  }

  // ----- programs whose loops all make priced calls

  /** `d` bounds the steps from each point to the next priced call or block, and `k` exceeds it. */
  ghost predicate Potential(p: Program, costs: Costs, d: seq<nat>, k: nat) {
    && |d| > 0 && (forall n :: 0 <= n < |d| ==> 0 < d[n] < k)
    && forall e :: e in p ==> e.src < |d| && e.dst < |d| && Descends(costs, d, e)
  }

  predicate Descends(costs: Costs, d: seq<nat>, e: Edge)
    requires e.src < |d| && e.dst < |d|
  {
    match e.op
    case Block => true
    case Charge(fn) => fn in costs || d[e.dst] + 2 <= d[e.src]
    case _ => d[e.dst] < d[e.src]
  }

  function Dist(d: seq<nat>, w: Worker): nat {
    match w
    case Run(pc) => if pc < |d| then d[pc] else 0
    case AfterStub(pc) => if pc < |d| then d[pc] + 1 else 0
    case _ => 0
  }

  predicate InRange(d: seq<nat>, w: Worker) {
    !w.FirstRead? && !w.Finished? ==> w.pc < |d|
  }

  lemma EdgeNears(p: Program, costs: Costs, c: nat, d: seq<nat>, k: nat, s: State, e: Edge)
    requires c > 0 && AtLeast(costs, c) && Potential(p, costs, d, k) && e in p && s.worker == Run(e.src)
    ensures var t := Perform(costs, s, e);
            InRange(d, t.worker) && Rank(c, k, t, Dist(d, t.worker)) < Rank(c, k, s, Dist(d, s.worker))
  {
    assert Descends(costs, d, e);
    if e.op.Charge? && e.op.fn in costs {
      ChargeNears(c, k, costs, s, e.op.fn, e.dst, d[e.src], Dist(d, Perform(costs, s, e).worker));
    }
  }

  /** While the controller waits, every step of the worker brings the reply nearer. */
  lemma WorkerNears(p: Program, costs: Costs, c: nat, d: seq<nat>, k: nat, s: State, t: State)
    requires c > 0 && AtLeast(costs, c) && Potential(p, costs, d, k) && InRange(d, s.worker)
    requires Inv(s) && Awaiting(s) && WorkerStep(p, costs, s, t)
    ensures InRange(d, t.worker) && Rank(c, k, t, Dist(d, t.worker)) < Rank(c, k, s, Dist(d, s.worker))
  {
    if Reading(s.worker) {
      hide WorkerStep;
      TakingNears(p, costs, c, k, s, t, Dist(d, t.worker));
    } else if s.worker.Run? {
      var e :| e in p && e.src == s.worker.pc && t == Perform(costs, s, e);
      EdgeNears(p, costs, c, d, k, s, e);
    } else if s.worker.Report? || s.worker.BlockSend? {
      ReplyNears(p, costs, c, k, s, t, 0, Dist(d, t.worker));
    } else {
      hide Further, IntText, ReadValue;
    }
  }

  lemma RunInRange(p: Program, costs: Costs, d: seq<nat>, k: nat, tr: seq<State>, i: nat)
    requires IsRun(p, costs, tr) && Potential(p, costs, d, k) && i < |tr|
    ensures InRange(d, tr[i].worker)
  {
    RunAtNode(p, costs, tr, i);
  }

  lemma {:induction false} WaitShrinks(p: Program, costs: Costs, c: nat, d: seq<nat>, k: nat,
      tr: seq<State>, i: nat, j: nat)
    requires IsRun(p, costs, tr) && IntCosts(costs) && c > 0 && AtLeast(costs, c) && Potential(p, costs, d, k)
    requires i <= j < |tr| && forall n :: i <= n < j ==> Awaiting(tr[n])
    ensures Rank(c, k, tr[j], Dist(d, tr[j].worker)) + (j - i) <= Rank(c, k, tr[i], Dist(d, tr[i].worker))
  {
    hide Rank, Inv, WorkerStep, Potential, Dist, InRange;
    if i < j {
      WaitShrinks(p, costs, c, d, k, tr, i, j - 1);
      RunInv(p, costs, tr, j - 1);
      RunInRange(p, costs, d, k, tr, j - 1);
      assert Step(p, costs, tr[j - 1], tr[j - 1 + 1]);
      WaitingIsWorking(p, costs, tr[j - 1], tr[j]);
      WorkerNears(p, costs, c, d, k, tr[j - 1], tr[j]);
    }
  }

  lemma WaitingIsWorking(p: Program, costs: Costs, s: State, t: State)
    requires Awaiting(s) && Step(p, costs, s, t)
    ensures WorkerStep(p, costs, s, t)
  {
    hide WorkerStep;
  }

  /** At any moment of a wait, the budget bounds what is still to come. */
  lemma RankIsBounded(c: nat, k: nat, s: State, d: nat)
    requires c > 0 && d <= k && Inv(s) && Awaiting(s) && s.log.spent >= 0
    ensures Rank(c, k, s, d) <= Further(c, k, s.ctl.b) + k + 2
  {
    hide Further, Replied, Books, IntText, ReadValue;
    if s.worker.Run? || s.worker.AfterStub? {
      assert Working(s, s.ctl.b);
      FurtherMonotone(c, k, s.left, s.ctl.b);
    }
  }

  lemma FurtherAndOne(c: nat, k: nat, b: nat)
    requires c > 0
    ensures Further(c, k, b) + k == Calls(b, c) * k
  {
    if b > 0 {
      CeilingDown(b, c, Calls(b, c));
    }
    var n := Calls(b, c);
    assert n * k == (n - 1) * k + k;
  }

  /** A step leaves this round's spending alone, starts it afresh, or adds a price. */
  lemma SpentStep(p: Program, costs: Costs, s: State, t: State)
    requires Step(p, costs, s, t) && s.log.spent >= 0
    ensures t.log.spent >= 0
  {
    hide IntText, ReadValue, Remaining;
  }

  lemma {:induction false} SpentIsNat(p: Program, costs: Costs, tr: seq<State>, i: nat)
    requires IsRun(p, costs, tr) && i < |tr|
    ensures tr[i].log.spent >= 0
  {
    hide Step;
    if i > 0 {
      SpentIsNat(p, costs, tr, i - 1);
      assert Step(p, costs, tr[i - 1], tr[i - 1 + 1]);
      SpentStep(p, costs, tr[i - 1], tr[i]);
    }
  }

  /**
   * With prices of at least c, a wait for the answer to budget b lasts at most Calls(b, c) * k + 2 steps,
   * whatever the interleaving: both processes together take no more.
   */
  lemma ReplyIsBounded(p: Program, costs: Costs, c: nat, d: seq<nat>, k: nat, tr: seq<State>, i: nat, j: nat)
    requires IsRun(p, costs, tr) && IntCosts(costs) && c > 0 && AtLeast(costs, c) && Potential(p, costs, d, k)
    requires i <= j < |tr| && Awaiting(tr[i]) && forall n :: i < n <= j ==> Awaiting(tr[n])
    ensures var b := tr[i].ctl.b; j - i <= Calls(b, c) * k + 2
  {
    var b := tr[i].ctl.b;
    SpentIsNat(p, costs, tr, i);
    hide Rank, Inv, Further, Calls, IsRun, Awaiting;
    WaitShrinks(p, costs, c, d, k, tr, i, j);
    RunInv(p, costs, tr, i);
    RunInRange(p, costs, d, k, tr, i);
    RankIsBounded(c, k, tr[i], Dist(d, tr[i].worker));
    FurtherAndOne(c, k, b);
  }

  const CLIENT_POTENTIAL: seq<nat> := [1, 2, 1, 4, 3, 1, 1, 3]
  const SERVER_POTENTIAL: seq<nat> := [2, 1, 1, 3, 2, 1]

  lemma ClientPotential()
    ensures Potential(CLIENT, CLIENT_COSTS, CLIENT_POTENTIAL, 5)
  {
  }

  lemma ServerPotential()
    ensures Potential(SERVER, SERVER_COSTS, SERVER_POTENTIAL, 4)
  {
  }

  /** The client answers within 5 steps for each call that fits the budget, and 2 more; the server within 4 for each. */
  lemma ClientAndServerReply(p: Program, costs: Costs, tr: seq<State>, i: nat, j: nat)
    requires (p == CLIENT && costs == CLIENT_COSTS) || (p == SERVER && costs == SERVER_COSTS)
    requires IsRun(p, costs, tr) && i <= j < |tr| && Awaiting(tr[i]) && forall n :: i < n <= j ==> Awaiting(tr[n])
    ensures j - i <= Calls(tr[i].ctl.b, 50) * (if p == CLIENT then 5 else 4) + 2
  {
    hide Potential, IsRun, Awaiting;
    ShippedCosts(p, costs);
    if p == CLIENT {
      ClientPotential();
      ReplyIsBounded(p, costs, 50, CLIENT_POTENTIAL, 5, tr, i, j);
    } else {
      ServerPotential();
      ReplyIsBounded(p, costs, 50, SERVER_POTENTIAL, 4, tr, i, j);
    }
  }
}
