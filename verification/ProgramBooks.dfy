/**
 * The exact books of the worker programs: in every state of every run the packets sent, the blocks
 * made and the calls charged fit together, up to the step in progress.
 */
module ProgramBooks {
  import opened Decimal
  import opened RoundProtocol
  import opened RoundGuarantees
  import opened WorkerPrograms

  /** A weighted sum over the books: of packets, of blocks, of the calls charged as `fn`, and of the time charged. */
  datatype Weights = Weights(packet: int, block: int, fn: string, call: int, time: int)

  function Sum(w: Weights, l: Ledger): int {
    w.packet * l.sent + w.block * l.blocks + w.call * l.bill[w.fn] + w.time * l.charged
  }

  /** What one operation adds to it. */
  function Change(costs: Costs, w: Weights, op: Op): int {
    match op
    case Transmit => w.packet
    case Block => w.block
    case Charge(fn) =>
      if fn !in costs then 0 else (if fn == w.fn then w.call else 0) + w.time * costs[fn]
    case CheckStop => 0
    case Local => 0
  }

  /** `d` is a lower bound of the sum at each point of the program: it starts at 0, and every edge keeps it. */
  ghost predicate Bounds(p: Program, costs: Costs, w: Weights, d: seq<int>) {
    && |d| > 0 && d[0] == 0
    && forall e :: e in p ==> e.src < |d| && e.dst < |d| && d[e.dst] <= d[e.src] + Change(costs, w, e.op)
  }

  predicate AtLeast(w: Weights, d: seq<int>, s: State) {
    if s.worker.FirstRead? then Sum(w, s.log) == 0
    else if s.worker.Finished? then exists n :: 0 <= n < |d| && d[n] <= Sum(w, s.log)
    else s.worker.pc < |d| && d[s.worker.pc] <= Sum(w, s.log)
  }

  lemma Distributes(x: int, m: int, n: int)
    ensures x * (m + n) == x * m + x * n
  {
  }

  lemma EdgeKeepsBound(p: Program, costs: Costs, w: Weights, d: seq<int>, s: State, e: Edge)
    requires Bounds(p, costs, w, d) && AtLeast(w, d, s) && e in p && s.worker == Run(e.src)
    ensures AtLeast(w, d, Perform(costs, s, e))
  {
    var t := Perform(costs, s, e);
    PerformChanges(costs, w, s, e);
    assert t.worker.Finished? ==> e.op.CheckStop? && d[e.src] <= Sum(w, t.log);
    assert !t.worker.Finished? ==> !t.worker.FirstRead? && t.worker.pc == e.dst;
    hide Perform, Sum, Change;
  }

  lemma PerformChanges(costs: Costs, w: Weights, s: State, e: Edge)
    requires s.worker == Run(e.src)
    ensures Sum(w, Perform(costs, s, e).log) == Sum(w, s.log) + Change(costs, w, e.op)
  {
    Distributes(w.packet, s.log.sent, 1);
    Distributes(w.block, s.log.blocks, 1);
    Distributes(w.call, s.log.bill[w.fn], 1);
    if e.op.Charge? && e.op.fn in costs {
      Distributes(w.time, s.log.charged, costs[e.op.fn]);
      assert (s.log.bill + multiset{e.op.fn})[w.fn] == s.log.bill[w.fn] + if e.op.fn == w.fn then 1 else 0;
    }
  }

  lemma StepKeepsBound(p: Program, costs: Costs, w: Weights, d: seq<int>, s: State, t: State)
    requires Bounds(p, costs, w, d) && AtLeast(w, d, s) && Step(p, costs, s, t)
    ensures AtLeast(w, d, t)
  {
    if CtlStep(s, t) {
      CtlKeepsLedger(s, t);
      hide CtlStep;
    } else if s.worker.Run? {
      var e :| e in p && e.src == s.worker.pc && t == Perform(costs, s, e);
      EdgeKeepsBound(p, costs, w, d, s, e);
    } else {
      WorkerGoesOn(p, costs, s, t);
      WorkerKeepsLedger(p, costs, s, t);
      hide WorkerStep;
    }
  }

  lemma CtlKeepsLedger(s: State, t: State)
    requires CtlStep(s, t)
    ensures t.worker == s.worker && t.log.charged == s.log.charged && t.log.sent == s.log.sent
    ensures t.log.blocks == s.log.blocks && t.log.bill == s.log.bill
  {
    hide IntText, ReadValue, Remaining;
  }

  lemma WorkerKeepsLedger(p: Program, costs: Costs, s: State, t: State)
    requires WorkerStep(p, costs, s, t) && !s.worker.Run?
    ensures t.log.blocks == s.log.blocks && t.log.bill == s.log.bill
  {
    hide IntText, ReadValue, Remaining;
  }

  lemma {:induction false} RunKeepsBound(p: Program, costs: Costs, w: Weights, d: seq<int>, tr: seq<State>, k: nat)
    requires Bounds(p, costs, w, d) && IsRun(p, costs, tr) && k < |tr|
    ensures AtLeast(w, d, tr[k])
  {
    hide Bounds, AtLeast, Step;
    if k > 0 {
      RunKeepsBound(p, costs, w, d, tr, k - 1);
      assert Step(p, costs, tr[k - 1], tr[k - 1 + 1]);
      StepKeepsBound(p, costs, w, d, tr[k - 1], tr[k]);
    } else {
      StartIsBounded(w, d, tr[0]);
    }
  }

  lemma StartIsBounded(w: Weights, d: seq<int>, s: State)
    requires s == START
    ensures AtLeast(w, d, s)
  {
    assert s.log.sent == s.log.blocks == s.log.charged == s.log.bill[w.fn] == 0;
  }

  // ----- exact sums

  ghost predicate Exact(p: Program, costs: Costs, w: Weights, d: seq<int>) {
    && |d| > 0 && d[0] == 0
    && forall e :: e in p ==> e.src < |d| && e.dst < |d| && d[e.dst] == d[e.src] + Change(costs, w, e.op)
  }

  function Minus(w: Weights): Weights {
    Weights(0 - w.packet, 0 - w.block, w.fn, 0 - w.call, 0 - w.time)
  }

  function MinusAll(d: seq<int>): seq<int> {
    seq(|d|, n requires 0 <= n < |d| => 0 - d[n])
  }

  lemma MinusChange(costs: Costs, w: Weights, op: Op)
    ensures Change(costs, Minus(w), op) == 0 - Change(costs, w, op)
  {
  }

  lemma MinusSum(w: Weights, l: Ledger)
    ensures Sum(Minus(w), l) == 0 - Sum(w, l)
  {
  }

  /** Where every edge fits exactly, so does every state, and no finished worker is out of range. */
  lemma RunIsExact(p: Program, costs: Costs, w: Weights, d: seq<int>, tr: seq<State>, k: nat)
    requires Exact(p, costs, w, d) && IsRun(p, costs, tr) && k < |tr|
    ensures var s := tr[k];
            if s.worker.FirstRead? then Sum(w, s.log) == 0
            else if s.worker.Finished? then
              (exists n :: 0 <= n < |d| && d[n] <= Sum(w, s.log)) && (exists n :: 0 <= n < |d| && Sum(w, s.log) <= d[n])
            else s.worker.pc < |d| && Sum(w, s.log) == d[s.worker.pc]
  {
    ExactBounds(p, costs, w, d);
    hide Bounds, Exact, IsRun, Sum;
    RunKeepsBound(p, costs, w, d, tr, k);
    RunKeepsBound(p, costs, Minus(w), MinusAll(d), tr, k);
    MinusSum(w, tr[k].log);
  }

  lemma ExactBounds(p: Program, costs: Costs, w: Weights, d: seq<int>)
    requires Exact(p, costs, w, d)
    ensures Bounds(p, costs, w, d) && Bounds(p, costs, Minus(w), MinusAll(d))
  {
    forall e | e in p
      ensures e.src < |d| && e.dst < |d| && d[e.dst] == d[e.src] + Change(costs, w, e.op)
      ensures MinusAll(d)[e.dst] <= MinusAll(d)[e.src] + Change(costs, Minus(w), e.op)
    {
      MinusChange(costs, w, e.op);
    }
  }

  // ----- the server

  const SERVER_FILLED: Weights := Weights(1, 0, "fill_buffer", -1, 0)
  const SERVER_SENT: Weights := Weights(1, 0, "sendto", -1, 0)
  const SERVER_BLOCKED: Weights := Weights(0, 1, "flush_buffer", -1, 0)
  const SERVER_CHARGED: Weights := Weights(-100, -50, "", 0, 1)

  lemma ServerFilled()
    ensures Exact(SERVER, SERVER_COSTS, SERVER_FILLED, [0, 0, 0, 0, -1, 0])
  {
  }

  lemma ServerSent()
    ensures Exact(SERVER, SERVER_COSTS, SERVER_SENT, [0, 0, 0, 0, 0, 1])
  {
  }

  lemma ServerBlocked()
    ensures Exact(SERVER, SERVER_COSTS, SERVER_BLOCKED, [0, 0, -1, 0, 0, 0])
  {
  }

  lemma ServerCharged()
    ensures Exact(SERVER, SERVER_COSTS, SERVER_CHARGED, [0, 0, 50, 0, 50, -50])
  {
  }

  /** The point of its program that a worker is at, or resumes at. */
  function Point(w: Worker): nat {
    if w.FirstRead? || w.Finished? then 0 else w.pc
  }

  /**
   * The server, in every state of every run: one packet after each "fill_buffer" and before each
   * "sendto", one block after each "flush_buffer", and nothing else is charged. At point 4 the
   * buffer is filled and not sent, at 5 the packet is sent and not charged.
   */
  lemma ServerBooks(tr: seq<State>, k: nat)
    requires IsRun(SERVER, SERVER_COSTS, tr) && k < |tr| && !tr[k].worker.Finished?
    ensures var l, pc := tr[k].log, Point(tr[k].worker);
            && l.bill["fill_buffer"] == l.sent + (if pc == 4 then 1 else 0)
            && l.sent == l.bill["sendto"] + (if pc == 5 then 1 else 0)
            && l.bill["flush_buffer"] == l.blocks + (if pc == 2 then 1 else 0)
            && l.charged == 100 * l.sent + 50 * l.blocks + (if pc == 2 || pc == 4 then 50 else if pc == 5 then -50 else 0)
  {
    hide IsRun, Exact, SERVER, SERVER_COSTS;
    ServerFilled();
    ServerSent();
    ServerBlocked();
    ServerCharged();
    RunIsExact(SERVER, SERVER_COSTS, SERVER_FILLED, [0, 0, 0, 0, -1, 0], tr, k);
    RunIsExact(SERVER, SERVER_COSTS, SERVER_SENT, [0, 0, 0, 0, 0, 1], tr, k);
    RunIsExact(SERVER, SERVER_COSTS, SERVER_BLOCKED, [0, 0, -1, 0, 0, 0], tr, k);
    RunIsExact(SERVER, SERVER_COSTS, SERVER_CHARGED, [0, 0, 50, 0, 50, -50], tr, k);
  }

  /** So the charged time is bounded from above, too, by packets and blocks, even after the server has left. */
  lemma ServerChargesNoMore(tr: seq<State>, k: nat)
    requires IsRun(SERVER, SERVER_COSTS, tr) && k < |tr|
    ensures 100 * tr[k].log.sent + 50 * tr[k].log.blocks - 50 <= tr[k].log.charged
    ensures tr[k].log.charged <= 100 * tr[k].log.sent + 50 * tr[k].log.blocks + 50
  {
    hide IsRun, Exact, SERVER, SERVER_COSTS;
    ServerCharged();
    RunIsExact(SERVER, SERVER_COSTS, SERVER_CHARGED, [0, 0, 50, 0, 50, -50], tr, k);
  }

  // ----- the client

  const CLIENT_FLUSHED: Weights := Weights(2, 0, "flush_buffer", -1, 0)
  const CLIENT_BLOCKED: Weights := Weights(-1, 1, "", 0, 0)
  const CLIENT_CHARGED: Weights := Weights(-100, 0, "computation", -50, 1)
  const CLIENT_COMPUTED: Weights := Weights(0, 1, "computation", -1, 0)

  lemma ClientFlushed()
    ensures Exact(CLIENT, CLIENT_COSTS, CLIENT_FLUSHED, [0, 0, 0, -1, 1, 1, 0, 0])
  {
  }

  lemma ClientBlocked()
    ensures Exact(CLIENT, CLIENT_COSTS, CLIENT_BLOCKED, [0, 1, 1, 1, 0, 0, 0, 1])
  {
  }

  lemma ClientCharged()
    ensures Exact(CLIENT, CLIENT_COSTS, CLIENT_CHARGED, [0, 0, 0, 50, -50, -50, 0, 0])
  {
  }

  lemma ClientComputed()
    ensures Bounds(CLIENT, CLIENT_COSTS, CLIENT_COMPUTED, [0, 1, 1, 1, 1, 1, 1, 2])
  {
  }

  /**
   * The client, in every state of every run: one packet between two charges for "flush_buffer", one
   * block after each packet and one before the first, at most one "computation" for an answer, and
   * nothing else is charged: the sends are free.
   */
  lemma ClientBooks(tr: seq<State>, k: nat)
    requires IsRun(CLIENT, CLIENT_COSTS, tr) && k < |tr| && !tr[k].worker.Finished?
    ensures var l, pc := tr[k].log, Point(tr[k].worker);
            && l.bill["flush_buffer"] == 2 * l.sent + (if pc == 3 then 1 else if pc == 4 || pc == 5 then -1 else 0)
            && l.blocks == l.sent + (if pc in {1, 2, 3, 7} then 1 else 0)
            && l.charged == 100 * l.sent + 50 * l.bill["computation"]
                            + (if pc == 3 then 50 else if pc == 4 || pc == 5 then -50 else 0)
            && l.bill["computation"] + (if pc == 0 then 0 else if pc == 7 then 2 else 1) <= l.blocks
  {
    hide IsRun, Exact, Bounds, CLIENT, CLIENT_COSTS;
    ClientFlushed();
    ClientBlocked();
    ClientCharged();
    ClientComputed();
    RunIsExact(CLIENT, CLIENT_COSTS, CLIENT_FLUSHED, [0, 0, 0, -1, 1, 1, 0, 0], tr, k);
    RunIsExact(CLIENT, CLIENT_COSTS, CLIENT_BLOCKED, [0, 1, 1, 1, 0, 0, 0, 1], tr, k);
    RunIsExact(CLIENT, CLIENT_COSTS, CLIENT_CHARGED, [0, 0, 0, 50, -50, -50, 0, 0], tr, k);
    RunKeepsBound(CLIENT, CLIENT_COSTS, CLIENT_COMPUTED, [0, 1, 1, 1, 1, 1, 1, 2], tr, k);
  }
}
