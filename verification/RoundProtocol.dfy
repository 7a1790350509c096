/**
 * The round protocol between a controller (`main`) and a worker (`process_thread`), as a state
 * machine over its atomic steps: pipe operations, reads and writes of the two shared flags, and
 * the worker's own actions. The two processes interleave arbitrarily. The worker's code is a
 * parameter, a control-flow graph over the operations the protocol can see.
 */
module RoundProtocol {
  import opened Decimal

  const THREAD_BLOCKED: int := -1
  const THREAD_EXITING: int := -2

  /** A worker program: `Charge` is a call of update_stub, `Block` a blocking call with its notices. */
  datatype Op = Charge(fn: string) | Transmit | Block | CheckStop | Local
  datatype Edge = Edge(src: nat, op: Op, dst: nat)
  type Program = set<Edge>
  type Costs = map<string, nat>

  datatype Ctl =
    | Ack                 // about to report `ret` and fetch the next command
    | Check(b: nat)       // about to read is_blocked
    | Send(b: nat)        // about to write the budget
    | Await(b: nat)       // in pipe_read, waiting for the worker's report
    | SetStop | SendExit  // stopping
    | Joining             // in pthread_join

  datatype Worker =
    | FirstRead
    | Run(pc: nat)        // executing its program
    | AfterStub(pc: nat)  // update_stub returned SUCCESS, about to read `stop`
    | Report(pc: nat)     // round used up, about to write the overshoot
    | RoundRead(pc: nat)  // waiting for the next budget
    | BlockSend(pc: nat)  // is_blocked set, about to write THREAD_BLOCKED
    | Asleep(pc: nat)     // in the blocking call
    | BlockRead(pc: nat)  // is_blocked cleared, waiting for the next budget
    | Finished

  /** Totals over the run, kept for the proofs; no step looks at them. */
  datatype Ledger = Ledger(
    issued: int,    // budgets of all commands fetched
    sends: nat,     // budgets written to the worker
    charged: int,   // costs charged by the worker
    forfeited: int, // budget left over when the worker blocked
    idle: int,      // budgets of rounds in which the worker stayed blocked
    rounds: nat,    // rounds ended by an overshoot report
    reported: int,  // sum of those overshoots
    told: int,      // sum of the values handed back to the kernel
    sent: nat,      // packets transmitted
    blocks: nat,    // blocking calls made
    bill: multiset<string>, // names of the calls charged
    calls: nat,     // this round: charged calls
    spent: int,     // this round: their cost
    lastCost: nat)  // this round: the cost of the last one

  datatype State = State(
    ctl: Ctl, worker: Worker,
    toWorker: string, toMain: string,  // the bytes in the two pipes
    blocked: bool, stop: bool,         // the shared flags
    left: int,                         // the worker's exp_curr_round_time_us
    elapsed: int, ret: int,            // the controller's time_elapsed and ret
    log: Ledger)

  const START: State :=
    State(Ack, FirstRead, "", "", false, false, 0, 0, 0,
          Ledger(0, 0, 0, 0, 0, 0, 0, 0, 0, 0, multiset{}, 0, 0, 0))

  function Taken(bytes: string): string {
    if |bytes| <= BUFSIZE then bytes else bytes[..BUFSIZE]
  }

  /** pipe_read: take at most BUFSIZE bytes, whatever is there, and read them as one int. */
  function ReadValue(bytes: string): int {
    Wrap32(Atoi(Taken(bytes)))
  }

  function Remaining(bytes: string): string {
    bytes[|Taken(bytes)|..]
  }

  /** One read takes at most 2000 bytes and leaves the rest in the pipe. */
  lemma ReadTakesAtMost(bytes: string)
    ensures Taken(bytes) + Remaining(bytes) == bytes
    ensures |Taken(bytes)| == if |bytes| < 2000 then |bytes| else 2000
  {
  }

  // ----- the controller

  function Receive(s: State, b: nat, v: int): State {
    var s := s.(ctl := Ack, toMain := Remaining(s.toMain));
    if v == THREAD_BLOCKED then s.(elapsed := s.elapsed + b, ret := 0)
    else if v >= 0 then s.(elapsed := s.elapsed + v + b, ret := v)
    else s.(ret := 0)
  }

  ghost predicate CtlStep(s: State, t: State) {
    match s.ctl
    case Ack =>
      var told := s.log.(told := s.log.told + s.ret);
      || t == s.(ctl := SetStop, log := told)
      || (t.ctl.Check? && t.ctl.b < TWO31
          && t == s.(ctl := t.ctl, log := told.(issued := told.issued + t.ctl.b)))
    case Check(b) =>
      if !s.blocked then t == s.(ctl := Send(b))
      else t == s.(ctl := Ack, elapsed := s.elapsed + b, ret := 0, log := s.log.(idle := s.log.idle + b))
    case Send(b) =>
      t == s.(ctl := Await(b), toWorker := s.toWorker + IntText(b),
              log := s.log.(sends := s.log.sends + 1))
    case Await(b) =>
      s.toMain != [] && t == Receive(s, b, ReadValue(s.toMain))
    case SetStop =>
      t == s.(ctl := SendExit, stop := true)
    case SendExit =>
      t == s.(ctl := Joining, toWorker := s.toWorker + IntText(THREAD_EXITING))
    case Joining => false
  }

  // ----- the worker

  /** The worker takes the budget in its pipe, and a new round starts for it. */
  function TakeBudget(s: State): State {
    s.(toWorker := Remaining(s.toWorker), left := ReadValue(s.toWorker),
       log := s.log.(calls := 0, spent := 0, lastCost := 0))
  }

  /** update_stub up to its first pipe operation: charge the call if it has a cost. */
  function ChargeCall(costs: Costs, s: State, fn: string, next: nat): State {
    if fn !in costs then s.(worker := AfterStub(next))
    else
      var c := costs[fn];
      s.(left := s.left - c, worker := if s.left - c <= 0 then Report(next) else AfterStub(next),
         log := s.log.(charged := s.log.charged + c, calls := s.log.calls + 1,
                       spent := s.log.spent + c, lastCost := c, bill := s.log.bill + multiset{fn}))
  }

  function Perform(costs: Costs, s: State, e: Edge): State {
    match e.op
    case Charge(fn) => ChargeCall(costs, s, fn, e.dst)
    case Transmit => s.(worker := Run(e.dst), log := s.log.(sent := s.log.sent + 1))
    case Block => s.(worker := BlockSend(e.dst), blocked := true, left := 0,
                     log := s.log.(forfeited := s.log.forfeited + s.left, blocks := s.log.blocks + 1))
    case CheckStop => s.(worker := if s.stop then Finished else Run(e.dst))
    case Local => s.(worker := Run(e.dst))
  }

  ghost predicate WorkerStep(p: Program, costs: Costs, s: State, t: State) {
    match s.worker
    case FirstRead =>
      s.toWorker != [] &&
      var u := TakeBudget(s);
      t == u.(worker := if u.left < 0 then Finished else Run(0))
    case Run(pc) =>
      exists e :: e in p && e.src == pc && t == Perform(costs, s, e)
    case AfterStub(pc) =>
      t == s.(worker := if s.stop then Finished else Run(pc))
    case Report(pc) =>
      t == s.(worker := RoundRead(pc), toMain := s.toMain + IntText(-s.left),
              log := s.log.(reported := s.log.reported - s.left, rounds := s.log.rounds + 1))
    case RoundRead(pc) =>
      s.toWorker != [] &&
      var u := TakeBudget(s);
      t == u.(worker := if u.left <= 0 then Finished else AfterStub(pc))
    case BlockSend(pc) =>
      t == s.(worker := Asleep(pc), toMain := s.toMain + IntText(THREAD_BLOCKED))
    case Asleep(pc) =>
      t == s.(worker := BlockRead(pc), blocked := false)
    case BlockRead(pc) =>
      s.toWorker != [] &&
      var u := TakeBudget(s);
      t == u.(worker := if u.left <= 0 then Finished else AfterStub(pc))
    case Finished => false
  }

  ghost predicate Step(p: Program, costs: Costs, s: State, t: State) {
    CtlStep(s, t) || WorkerStep(p, costs, s, t)
  }

  ghost predicate IsRun(p: Program, costs: Costs, tr: seq<State>) {
    && tr != [] && tr[0] == START
    && forall i :: 0 <= i < |tr| - 1 ==> Step(p, costs, tr[i], tr[i + 1])
  }

  /** Costs are C ints. */
  ghost predicate IntCosts(costs: Costs) {
    forall fn :: fn in costs ==> costs[fn] < TWO31
  }

  // ----- the invariant

  predicate Active(w: Worker) {
    w.Run? || w.AfterStub? || w.Report? || w.BlockSend?
  }

  predicate Reading(w: Worker) {
    w.FirstRead? || w.RoundRead? || w.BlockRead?
  }

  function Accounted(s: State): int {
    s.log.charged + s.log.forfeited + s.log.idle
  }

  predicate AtRest(s: State) {
    && s.toWorker == "" && s.toMain == ""
    && (Reading(s.worker) || s.worker.Asleep?)
    && (s.worker.FirstRead? <==> s.log.sends == 0)
    && s.elapsed == Accounted(s)
  }

  /** The controller waits and the budget is still in the pipe. */
  predicate BudgetPending(s: State, b: nat) {
    && s.toWorker == IntText(b) && s.toMain == ""
    && Reading(s.worker) && (s.worker.FirstRead? <==> s.log.sends == 1)
    && s.elapsed == Accounted(s)
  }

  /** The controller waits and the worker uses the round. */
  predicate Working(s: State, b: nat) {
    && s.toWorker == "" && s.toMain == "" && Active(s.worker)
    && (b == 0 ==> s.log.sends == 1)
    && (s.worker.BlockSend? ==> s.left == 0 && Accounted(s) == s.elapsed + b)
    && (!s.worker.BlockSend? ==> Accounted(s) + s.left == s.elapsed + b && s.left == b - s.log.spent)
    && (s.worker.Run? || s.worker.AfterStub? ==> 0 <= s.left < TWO31 && (b > 0 ==> s.left > 0))
    && (s.worker.Report? ==> s.left <= 0 && s.log.calls > 0 && Overshoot(-s.left, b, s.log.lastCost))
  }

  /** A report never exceeds the last cost, and stays below it when the budget was positive. */
  predicate Overshoot(r: int, b: nat, lastCost: nat) {
    0 <= r <= lastCost < TWO31 && (b > 0 ==> r < lastCost)
  }

  /** The controller waits and the worker has written its reply `r`. */
  predicate Replied(s: State, b: nat, r: int) {
    && s.toWorker == "" && s.toMain == IntText(r)
    && (b == 0 ==> s.log.sends == 1)
    && (if r == THREAD_BLOCKED then (s.worker.Asleep? || s.worker.BlockRead?) && Accounted(s) == s.elapsed + b
        else s.worker.RoundRead? && Overshoot(r, b, s.log.lastCost) && s.log.calls > 0
             && s.log.spent == b + r && Accounted(s) == s.elapsed + b + r)
  }

  /** The controller waits for a worker that took a zero budget past its first read, and left. */
  predicate Starved(s: State, b: nat) {
    && b == 0 && s.log.sends > 1 && s.worker.Finished?
    && s.toWorker == "" && s.toMain == "" && s.elapsed == Accounted(s)
  }

  /** What the reply in the pipe adds to the reported total. */
  function InFlight(s: State): int {
    if s.ctl.Await? && s.toMain != "" && ReadValue(s.toMain) != THREAD_BLOCKED then ReadValue(s.toMain) else 0
  }

  predicate Waiting(s: State, b: nat) {
    && !s.stop && s.log.sends > 0
    && (|| BudgetPending(s, b)
        || Working(s, b)
        || Starved(s, b)
        || (s.toMain != "" && Replied(s, b, ReadValue(s.toMain))))
  }

  predicate Leaving(s: State) {
    && s.stop && s.toMain == "" && s.elapsed == Accounted(s)
    && (if s.worker.Finished? then s.toWorker == ""
        else s.toWorker == IntText(THREAD_EXITING) && (Reading(s.worker) || s.worker.Asleep?))
  }

  /** The budget fetched but not yet added to time_elapsed. */
  function Pending(s: State): nat {
    if s.ctl.Check? || s.ctl.Send? || s.ctl.Await? then s.ctl.b else 0
  }

  predicate Books(s: State) {
    && s.log.issued + s.log.reported == s.elapsed + Pending(s) + InFlight(s)
    && s.log.told + (if s.ctl.Ack? then s.ret else InFlight(s)) == s.log.reported
  }

  predicate Inv(s: State) {
    && Books(s)
    && (s.blocked <==> s.worker.BlockSend? || s.worker.Asleep?)
    && Pending(s) < TWO31
    && match s.ctl
       case Ack => !s.stop && AtRest(s)
       case Check(b) => !s.stop && AtRest(s)
       case Send(b) => !s.stop && AtRest(s) && !s.worker.Asleep?
       case Await(b) => Waiting(s, b)
       case SetStop => !s.stop && AtRest(s)
       case SendExit => s.stop && AtRest(s)
       case Joining => Leaving(s)
  }

  /** A pipe that holds one printed int gives that int and is then empty. */
  lemma ReadWhatWasSent(v: int)
    requires -TWO31 <= v < TWO31
    ensures IntText(v) != "" && ReadValue(IntText(v)) == v && Remaining(IntText(v)) == ""
  {
    IntTextLength(v);
    AtoiOfIntText(v);
  }

  lemma CtlKeepsInv(s: State, t: State)
    requires Inv(s) && CtlStep(s, t)
    ensures Inv(t)
  {
    hide IntText, Atoi;
    assert "" + IntText(THREAD_EXITING) == IntText(THREAD_EXITING);
    if s.ctl.Send? {
      assert s.toWorker + IntText(s.ctl.b) == IntText(s.ctl.b);
    } else if s.ctl.Await? {
      ReadWhatWasSent(s.ctl.b);
      var v := ReadValue(s.toMain);
      ReadWhatWasSent(v);
    }
  }

  lemma ReadingKeepsInv(p: Program, costs: Costs, s: State, t: State)
    requires Inv(s) && Reading(s.worker) && WorkerStep(p, costs, s, t)
    ensures Inv(t)
  {
    hide IntText, Atoi, ReadValue, Taken;
    ReadWhatWasSent(THREAD_EXITING);
    if s.ctl.Await? {
      ReadWhatWasSent(s.ctl.b);
    }
  }

  lemma RunningKeepsInv(p: Program, costs: Costs, s: State, t: State)
    requires Inv(s) && s.worker.Run? && WorkerStep(p, costs, s, t) && IntCosts(costs)
    ensures Inv(t)
  {
    hide IntText, Atoi, ReadValue;
  }

  lemma WorkerKeepsInv(p: Program, costs: Costs, s: State, t: State)
    requires Inv(s) && WorkerStep(p, costs, s, t) && IntCosts(costs)
    ensures Inv(t)
  {
    hide IntText, Atoi;
    if Reading(s.worker) {
      ReadingKeepsInv(p, costs, s, t);
    } else if s.worker.Run? {
      RunningKeepsInv(p, costs, s, t);
    } else if s.worker.Report? {
      ReadWhatWasSent(-s.left);
      assert s.toMain + IntText(-s.left) == IntText(-s.left);
    } else if s.worker.BlockSend? {
      ReadWhatWasSent(THREAD_BLOCKED);
      assert s.toMain + IntText(THREAD_BLOCKED) == IntText(THREAD_BLOCKED);
    }
  }

  lemma StartInv()
    ensures Inv(START)
  {
    hide IntText, ReadValue, Waiting, Leaving;
    QuietStart(START);
  }

  lemma QuietStart(s: State)
    requires s.ctl.Ack? && s.worker.FirstRead? && s.toWorker == "" && s.toMain == "" && !s.blocked && !s.stop
    requires s.elapsed == 0 && s.ret == 0 && s.log == Ledger(0, 0, 0, 0, 0, 0, 0, 0, 0, 0, multiset{}, 0, 0, 0)
    ensures Inv(s)
  {
    hide IntText, ReadValue, Waiting, Leaving;
  }

  lemma {:induction false} RunInv(p: Program, costs: Costs, tr: seq<State>, k: nat)
    requires IsRun(p, costs, tr) && IntCosts(costs) && k < |tr|
    ensures Inv(tr[k])
  {
    hide Inv, CtlStep, WorkerStep;
    if k > 0 {
      RunInv(p, costs, tr, k - 1);
      assert Step(p, costs, tr[k - 1], tr[k - 1 + 1]);
      if CtlStep(tr[k - 1], tr[k]) {
        CtlKeepsInv(tr[k - 1], tr[k]);
      } else {
        WorkerKeepsInv(p, costs, tr[k - 1], tr[k]);
      }
    } else {
      StartInv();
    }
  }

  lemma RunGrows(p: Program, costs: Costs, tr: seq<State>, t: State)
    requires IsRun(p, costs, tr) && Step(p, costs, tr[|tr| - 1], t)
    ensures IsRun(p, costs, tr + [t])
  {
    hide Step;
    var more := tr + [t];
    forall i | 0 <= i < |more| - 1
      ensures Step(p, costs, more[i], more[i + 1])
    {
      assert i < |tr| - 1 ==> Step(p, costs, tr[i], tr[i + 1]);
    }
  }
}
