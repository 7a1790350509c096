/** The programs do their work: the server answers any number of requests, and the client sends any number. */
module Service {
  import opened Decimal
  import opened RoundProtocol
  import opened RunSteps
  import opened WorkerPrograms

  /** The controller waits on `b`, and the worker is at `pc` of its program with this much time left. */
  predicate At(s: State, b: nat, pc: nat, left: int) {
    && s.ctl == Await(b) && s.worker == Run(pc) && s.left == left
    && s.toWorker == "" && s.toMain == "" && !s.stop && !s.blocked
  }

  ghost predicate RunTo(p: Program, costs: Costs, tr: seq<State>, s: State) {
    IsRun(p, costs, tr) && tr[|tr| - 1] == s
  }

  lemma Onward(p: Program, costs: Costs, tr: seq<State>, s: State, t: State) returns (more: seq<State>)
    requires RunTo(p, costs, tr, s) && Step(p, costs, s, t)
    ensures RunTo(p, costs, more, t)
  {
    hide Step, IsRun;
    RunGrows(p, costs, tr, t);
    more := tr + [t];
  }

  lemma CtlOnward(p: Program, costs: Costs, tr: seq<State>, s: State, t: State) returns (more: seq<State>)
    requires RunTo(p, costs, tr, s) && CtlStep(s, t)
    ensures RunTo(p, costs, more, t)
  {
    hide CtlStep, WorkerStep, RunTo;
    more := Onward(p, costs, tr, s, t);
  }

  lemma WorkerOnward(p: Program, costs: Costs, tr: seq<State>, s: State, t: State) returns (more: seq<State>)
    requires RunTo(p, costs, tr, s) && WorkerStep(p, costs, s, t)
    ensures RunTo(p, costs, more, t)
  {
    hide CtlStep, WorkerStep, RunTo;
    more := Onward(p, costs, tr, s, t);
  }

  // ----- one operation

  /** An operation that is neither a charge nor a block. */
  lemma Operates(p: Program, costs: Costs, tr: seq<State>, s: State, b: nat, left: int, e: Edge)
    returns (more: seq<State>, t: State)
    requires RunTo(p, costs, tr, s) && At(s, b, e.src, left) && e in p && !e.op.Charge? && !e.op.Block?
    ensures RunTo(p, costs, more, t) && At(t, b, e.dst, left)
    ensures t.log == if e.op.Transmit? then s.log.(sent := s.log.sent + 1) else s.log
  {
    hide Step, RunTo;
    AlongEdge(p, costs, s, e);
    t := Perform(costs, s, e);
    more := Onward(p, costs, tr, s, t);
  }

  /** A call of update_stub that does not use up the round. */
  lemma Calls(p: Program, costs: Costs, tr: seq<State>, s: State, b: nat, left: int, e: Edge)
    returns (more: seq<State>, t: State)
    requires RunTo(p, costs, tr, s) && At(s, b, e.src, left) && e in p && e.op.Charge?
    requires e.op.fn in costs ==> costs[e.op.fn] < left
    ensures RunTo(p, costs, more, t) && t.log.sent == s.log.sent && t.log.blocks == s.log.blocks
    ensures At(t, b, e.dst, if e.op.fn in costs then left - costs[e.op.fn] else left)
    ensures t.log.bill == if e.op.fn in costs then s.log.bill + multiset{e.op.fn} else s.log.bill
  {
    hide Step, RunTo;
    AlongEdge(p, costs, s, e);
    var u := Perform(costs, s, e);
    more := Onward(p, costs, tr, s, u);
    GoingOnStep(p, costs, u);
    t := u.(worker := Run(e.dst));
    hide WorkerStep, CtlStep;
    more := WorkerOnward(p, costs, more, u, t);
  }

  /** A blocking call, answered by the next budget. */
  lemma Blocks(p: Program, costs: Costs, tr: seq<State>, s: State, b: nat, left: int, e: Edge, next: nat)
    returns (more: seq<State>, t: State)
    requires RunTo(p, costs, tr, s) && At(s, b, e.src, left) && e in p && e.op.Block? && 0 < next < TWO31
    ensures RunTo(p, costs, more, t) && At(t, next, e.dst, next)
    ensures t.log.sent == s.log.sent && t.log.bill == s.log.bill && t.log.blocks == s.log.blocks + 1
  {
    hide RunTo;
    AlongEdge(p, costs, s, e);
    var u := Perform(costs, s, e);
    more := Onward(p, costs, tr, s, u);
    hide Step, Perform;
    var v;
    more, v := Notices(p, costs, more, u, b);
    more, t := NextBudget(p, costs, more, v, next);
  }

  lemma Notices(p: Program, costs: Costs, tr: seq<State>, s: State, b: nat)
    returns (more: seq<State>, t: State)
    requires RunTo(p, costs, tr, s) && s.ctl == Await(b) && s.worker.BlockSend? && s.toMain == ""
    ensures RunTo(p, costs, more, t)
    ensures t.ctl.Ack? && t.worker == Asleep(s.worker.pc) && t.toMain == "" && t.toWorker == s.toWorker
    ensures t.stop == s.stop && t.log == s.log
  {
    hide RunTo, CtlStep, WorkerStep, Receive;
    NoticeSteps(p, costs, s, b);
    t := Receive(Noticed(s), b, THREAD_BLOCKED);
    hide Noticed;
    more := WorkerOnward(p, costs, tr, s, Noticed(s));
    more := CtlOnward(p, costs, more, Noticed(s), t);
  }

  /** A sleeping worker wakes, gets its next budget, and goes on. */
  lemma NextBudget(p: Program, costs: Costs, tr: seq<State>, s: State, b: nat)
    returns (more: seq<State>, t: State)
    requires RunTo(p, costs, tr, s) && s.ctl.Ack? && s.worker.Asleep? && s.toMain == "" && s.toWorker == ""
    requires !s.stop && 0 < b < TWO31
    ensures RunTo(p, costs, more, t) && At(t, b, s.worker.pc, b)
    ensures t.log.sent == s.log.sent && t.log.bill == s.log.bill && t.log.blocks == s.log.blocks
  {
    hide RunTo;
    var u := Awake(s);
    WakingStep(p, costs, s);
    more := WorkerOnward(p, costs, tr, s, u);
    var v;
    more, v := Budget(p, costs, more, u, b);
    TakingStep(p, costs, v, b);
    var w := TakeBudget(v).(worker := AfterStub(s.worker.pc));
    more := WorkerOnward(p, costs, more, v, w);
    GoingOnStep(p, costs, w);
    t := w.(worker := Run(s.worker.pc));
    more := WorkerOnward(p, costs, more, w, t);
    hide WorkerStep, IntText, ReadValue;
  }

  /** The controller fetches a budget, finds the worker awake, and sends it. */
  lemma Budget(p: Program, costs: Costs, tr: seq<State>, s: State, b: nat) returns (more: seq<State>, t: State)
    requires RunTo(p, costs, tr, s) && s.ctl.Ack? && !s.blocked && s.toWorker == "" && b < TWO31
    ensures RunTo(p, costs, more, t) && t.ctl == Await(b) && t.toWorker == IntText(b) && t.worker == s.worker
    ensures t.toMain == s.toMain && t.stop == s.stop && t.blocked == s.blocked
    ensures t.log.sent == s.log.sent && t.log.bill == s.log.bill && t.log.blocks == s.log.blocks
  {
    hide RunTo, CtlStep, IntText;
    var u := Fetched(s, b);
    FetchingStep(s, b);
    SendingSteps(u, b);
    t := Waits(u, b);
    assert t.toWorker == IntText(b);
    more := CtlOnward(p, costs, tr, s, u);
    more := CtlOnward(p, costs, more, u, u.(ctl := Send(b)));
    more := CtlOnward(p, costs, more, u.(ctl := Send(b)), t);
  }

  /** The first round: the worker takes its budget and starts its program. */
  lemma Begins(p: Program, costs: Costs, b: nat) returns (tr: seq<State>, t: State)
    requires b < TWO31
    ensures RunTo(p, costs, tr, t) && At(t, b, 0, b)
    ensures t.log.sent == 0 && t.log.blocks == 0 && t.log.bill == multiset{}
  {
    tr := [START];
    assert RunTo(p, costs, tr, START);
    tr, t := BeginsFrom(p, costs, tr, START, b);
  }

  lemma BeginsFrom(p: Program, costs: Costs, tr: seq<State>, s: State, b: nat) returns (more: seq<State>, t: State)
    requires RunTo(p, costs, tr, s) && s.ctl.Ack? && s.worker.FirstRead? && s.toWorker == "" && s.toMain == ""
    requires !s.stop && !s.blocked && b < TWO31
    ensures RunTo(p, costs, more, t) && At(t, b, 0, b)
    ensures t.log.sent == s.log.sent && t.log.bill == s.log.bill && t.log.blocks == s.log.blocks
  {
    hide RunTo;
    var u;
    more, u := Budget(p, costs, tr, s, b);
    TakingStep(p, costs, u, b);
    t := TakeBudget(u).(worker := Run(0));
    more := WorkerOnward(p, costs, more, u, t);
    hide WorkerStep, IntText, ReadValue;
  }

  // ----- the server

  lemma ServerEdges()
    ensures Edge(0, CheckStop, 1) in SERVER && Edge(1, Charge("flush_buffer"), 2) in SERVER
    ensures Edge(2, Block, 3) in SERVER && Edge(3, Charge("fill_buffer"), 4) in SERVER
    ensures Edge(4, Transmit, 5) in SERVER && Edge(5, Charge("sendto"), 0) in SERVER
    ensures Edge(3, Local, 0) in SERVER
  {
  }

  lemma ServerPrices()
    ensures forall fn :: fn in {"flush_buffer", "fill_buffer", "sendto"} ==> fn in SERVER_COSTS && SERVER_COSTS[fn] == 50
  {
  }

  /** One request: the server blocks for it, fills its buffer, and sends the answer. */
  lemma ServesOne(tr: seq<State>, s: State, b: nat, left: int) returns (more: seq<State>, t: State)
    requires RunTo(SERVER, SERVER_COSTS, tr, s) && At(s, b, 0, left) && left > 50 && 150 < b < TWO31
    ensures RunTo(SERVER, SERVER_COSTS, more, t) && At(t, b, 0, b - 100)
    ensures t.log.sent == s.log.sent + 1 && t.log.blocks == s.log.blocks + 1
    ensures t.log.bill == s.log.bill + multiset{"flush_buffer", "fill_buffer", "sendto"}
  {
    hide SERVER, SERVER_COSTS, RunTo, At;
    ServerEdges();
    ServerPrices();
    more, t := Operates(SERVER, SERVER_COSTS, tr, s, b, left, Edge(0, CheckStop, 1));
    more, t := Calls(SERVER, SERVER_COSTS, more, t, b, left, Edge(1, Charge("flush_buffer"), 2));
    more, t := Blocks(SERVER, SERVER_COSTS, more, t, b, left - 50, Edge(2, Block, 3), b);
    more, t := Calls(SERVER, SERVER_COSTS, more, t, b, b, Edge(3, Charge("fill_buffer"), 4));
    more, t := Operates(SERVER, SERVER_COSTS, more, t, b, b - 50, Edge(4, Transmit, 5));
    more, t := Calls(SERVER, SERVER_COSTS, more, t, b, b - 50, Edge(5, Charge("sendto"), 0));
  }

  /** An empty request: the server blocks for it, and starts over. */
  lemma ServesNone(tr: seq<State>, s: State, b: nat, left: int) returns (more: seq<State>, t: State)
    requires RunTo(SERVER, SERVER_COSTS, tr, s) && At(s, b, 0, left) && left > 50 && 150 < b < TWO31
    ensures RunTo(SERVER, SERVER_COSTS, more, t) && At(t, b, 0, b)
    ensures t.log.sent == s.log.sent && t.log.blocks == s.log.blocks + 1
    ensures t.log.bill == s.log.bill + multiset{"flush_buffer"}
  {
    hide SERVER, SERVER_COSTS, RunTo, At;
    ServerEdges();
    ServerPrices();
    more, t := Operates(SERVER, SERVER_COSTS, tr, s, b, left, Edge(0, CheckStop, 1));
    more, t := Calls(SERVER, SERVER_COSTS, more, t, b, left, Edge(1, Charge("flush_buffer"), 2));
    more, t := Blocks(SERVER, SERVER_COSTS, more, t, b, left - 50, Edge(2, Block, 3), b);
    more, t := Operates(SERVER, SERVER_COSTS, more, t, b, b, Edge(3, Local, 0));
  }

  /**
   * For all n and m and every budget above 150 there is a run in which the server has received n
   * requests and m empty ones, and has sent exactly n answers.
   */
  lemma {:induction false} ServerAnswers(n: nat, m: nat, b: nat) returns (tr: seq<State>, t: State, left: int)
    requires 150 < b < TWO31
    ensures RunTo(SERVER, SERVER_COSTS, tr, t) && At(t, b, 0, left) && left > 50
    ensures t.log.sent == t.log.bill["sendto"] == t.log.bill["fill_buffer"] == n && t.log.blocks == n + m
  {
    hide SERVER, SERVER_COSTS, RunTo, At;
    if n > 0 {
      tr, t, left := ServerAnswers(n - 1, m, b);
      tr, t := ServesOne(tr, t, b, left);
      left := b - 100;
    } else if m > 0 {
      tr, t, left := ServerAnswers(n, m - 1, b);
      tr, t := ServesNone(tr, t, b, left);
      left := b;
    } else {
      tr, t := Begins(SERVER, SERVER_COSTS, b);
      left := b;
    }
  }

  // ----- the client

  lemma ClientEdges()
    ensures Edge(0, Block, 1) in CLIENT && Edge(1, CheckStop, 2) in CLIENT && Edge(2, Charge("flush_buffer"), 3) in CLIENT
    ensures Edge(3, Transmit, 4) in CLIENT && Edge(4, Charge("send_to"), 5) in CLIENT
    ensures Edge(5, Charge("flush_buffer"), 6) in CLIENT && Edge(6, Block, 7) in CLIENT
    ensures Edge(7, Charge("computation"), 1) in CLIENT && Edge(7, Local, 1) in CLIENT
  {
  }

  lemma ClientPrices()
    ensures forall fn :: fn in {"flush_buffer", "computation"} ==> fn in CLIENT_COSTS && CLIENT_COSTS[fn] == 50
    ensures "send_to" !in CLIENT_COSTS
  {
  }

  /** One exchange: the client sends, blocks for the answer, and computes if it is one to compute on. */
  lemma AsksOnce(tr: seq<State>, s: State, b: nat, left: int, compute: bool) returns (more: seq<State>, t: State)
    requires RunTo(CLIENT, CLIENT_COSTS, tr, s) && At(s, b, 1, left) && left > 100 && 150 < b < TWO31
    ensures RunTo(CLIENT, CLIENT_COSTS, more, t) && At(t, b, 1, if compute then b - 50 else b)
    ensures t.log.sent == s.log.sent + 1
    ensures t.log.bill == s.log.bill + multiset{"flush_buffer", "flush_buffer"}
                          + if compute then multiset{"computation"} else multiset{}
  {
    hide CLIENT, CLIENT_COSTS, RunTo, At;
    ClientEdges();
    ClientPrices();
    more, t := Operates(CLIENT, CLIENT_COSTS, tr, s, b, left, Edge(1, CheckStop, 2));
    more, t := Calls(CLIENT, CLIENT_COSTS, more, t, b, left, Edge(2, Charge("flush_buffer"), 3));
    more, t := Operates(CLIENT, CLIENT_COSTS, more, t, b, left - 50, Edge(3, Transmit, 4));
    more, t := Calls(CLIENT, CLIENT_COSTS, more, t, b, left - 50, Edge(4, Charge("send_to"), 5));
    more, t := Calls(CLIENT, CLIENT_COSTS, more, t, b, left - 50, Edge(5, Charge("flush_buffer"), 6));
    more, t := Blocks(CLIENT, CLIENT_COSTS, more, t, b, left - 100, Edge(6, Block, 7), b);
    if compute {
      more, t := Calls(CLIENT, CLIENT_COSTS, more, t, b, b, Edge(7, Charge("computation"), 1));
    } else {
      more, t := Operates(CLIENT, CLIENT_COSTS, more, t, b, b, Edge(7, Local, 1));
    }
  }

  /**
   * For all m <= n and every budget above 150 there is a run in which the client has sent n packets
   * and computed on m of the answers.
   */
  lemma {:induction false} ClientAsks(n: nat, m: nat, b: nat) returns (tr: seq<State>, t: State, left: int)
    requires m <= n && 150 < b < TWO31
    ensures RunTo(CLIENT, CLIENT_COSTS, tr, t) && At(t, b, 1, left) && left > 100
    ensures t.log.sent == n && t.log.bill["computation"] == m
  {
    hide CLIENT, CLIENT_COSTS, RunTo, At;
    if n == 0 {
      ClientEdges();
      tr, t := Begins(CLIENT, CLIENT_COSTS, b);
      tr, t := Blocks(CLIENT, CLIENT_COSTS, tr, t, b, b, Edge(0, Block, 1), b);
      left := b;
    } else {
      var compute := m > 0;
      tr, t, left := ClientAsks(n - 1, if compute then m - 1 else 0, b);
      tr, t := AsksOnce(tr, t, b, left, compute);
      left := if compute then b - 50 else b;
    }
  }
}
