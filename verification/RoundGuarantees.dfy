/** What the round protocol guarantees over whole runs, for every worker program. */
module RoundGuarantees {
  import opened Decimal
  import opened RoundProtocol

  // ----- who may run, and what the pipes hold

  /**
   * The worker runs only while the controller waits in pipe_read, and never after `stop`;
   * at most one message is under way; and every reply is "blocked" or an overshoot that stays
   * below the last cost, so the controller's branch for other values is never taken.
   */
  lemma Alternation(p: Program, costs: Costs, tr: seq<State>, k: nat)
    requires IsRun(p, costs, tr) && IntCosts(costs) && k < |tr|
    ensures var s := tr[k];
            && (Active(s.worker) ==> s.ctl.Await? && !s.stop && s.toWorker == s.toMain == "")
            && (s.toWorker == "" || s.toMain == "")
            && (s.toMain != "" ==> s.ctl.Await?)
            && (s.toMain != "" ==> ReadValue(s.toMain) == THREAD_BLOCKED
                                   || Overshoot(ReadValue(s.toMain), s.ctl.b, s.log.lastCost))
  {
    RunInv(p, costs, tr, k);
  }

  datatype Channel = Empty | Holds(value: int)

  /** The integer in a pipe, read off its bytes. */
  function Contents(bytes: string): Channel {
    if bytes == "" then Empty else Holds(ReadValue(bytes))
  }

  predicate Encodes(bytes: string, c: Channel) {
    bytes == (if c.Empty? then "" else IntText(c.value))
  }

  lemma PipesEncode(s: State)
    requires Inv(s)
    ensures Encodes(s.toWorker, Contents(s.toWorker)) && Encodes(s.toMain, Contents(s.toMain))
    ensures s.toWorker != "" ==> Remaining(s.toWorker) == ""
    ensures s.toMain != "" ==> Remaining(s.toMain) == ""
  {
    hide IntText, Atoi;
    ReadWhatWasSent(THREAD_EXITING);
    if s.ctl.Await? {
      ReadWhatWasSent(s.ctl.b);
      if s.toMain != "" {
        ReadWhatWasSent(ReadValue(s.toMain));
      }
    }
  }

  /** A step leaves the budget channel alone, puts what pipe_send was given, or hands its integer over. */
  predicate BudgetChannelStep(s: State, t: State) {
    match (Contents(s.toWorker), Contents(t.toWorker))
    case (Empty, Holds(v)) => v == if s.ctl.Send? then s.ctl.b else THREAD_EXITING
    case (Holds(v), Empty) => Reading(s.worker) && t.left == v
    case (c, d) => c == d
  }

  predicate ReportChannelStep(s: State, t: State) {
    match (Contents(s.toMain), Contents(t.toMain))
    case (Empty, Holds(v)) => v == if s.worker.Report? then -s.left else THREAD_BLOCKED
    case (Holds(v), Empty) => s.ctl.Await? && t == Receive(s, s.ctl.b, v)
    case (c, d) => c == d
  }

  lemma Put(bytes: string, v: int)
    requires -TWO31 <= v < TWO31 && bytes == ""
    ensures Contents(bytes + IntText(v)) == Holds(v)
  {
    hide IntText, Atoi;
    ReadWhatWasSent(v);
    assert bytes + IntText(v) == IntText(v);
  }

  /** What a controller step does to the pipes. */
  lemma CtlPipes(s: State, t: State)
    requires CtlStep(s, t)
    ensures t.toWorker == if s.ctl.Send? then s.toWorker + IntText(s.ctl.b)
                          else if s.ctl.SendExit? then s.toWorker + IntText(THREAD_EXITING)
                          else s.toWorker
    ensures if s.ctl.Await? then s.toMain != "" && t == Receive(s, s.ctl.b, ReadValue(s.toMain))
            else t.toMain == s.toMain
  {
    hide IntText, ReadValue;
  }

  /** Where the controller writes, the pipe is empty. */
  lemma QuietPipe(s: State)
    requires Inv(s) && (s.ctl.Send? || s.ctl.SendExit?)
    ensures s.toWorker == "" && (s.ctl.Send? ==> s.ctl.b < TWO31)
  {
    hide Waiting, Leaving, Books;
  }

  lemma CtlChannels(s: State, t: State)
    requires Inv(s) && CtlStep(s, t)
    ensures BudgetChannelStep(s, t) && ReportChannelStep(s, t)
  {
    CtlPipes(s, t);
    PipesEncode(s);
    if s.ctl.Send? {
      QuietPipe(s);
      Put(s.toWorker, s.ctl.b);
    } else if s.ctl.SendExit? {
      QuietPipe(s);
      Put(s.toWorker, THREAD_EXITING);
    }
    hide IntText, ReadValue, Remaining, Inv, CtlStep, Encodes;
  }

  lemma WorkerChannels(p: Program, costs: Costs, s: State, t: State)
    requires Inv(s) && WorkerStep(p, costs, s, t)
    ensures BudgetChannelStep(s, t) && ReportChannelStep(s, t)
  {
    hide IntText, Atoi, ReadValue, Taken;
    if Reading(s.worker) {
      PipesEncode(s);
      hide Inv;
    } else if s.worker.Report? {
      Put(s.toMain, -s.left);
    } else if s.worker.BlockSend? {
      Put(s.toMain, THREAD_BLOCKED);
    } else {
      hide Inv;
    }
  }

  /**
   * The unframed text pipes are one-place integer channels: the bytes always are the text of the
   * one integer held, a write puts the integer given into an empty channel, and a read hands
   * exactly that integer to the reader and empties the channel.
   */
  lemma TextPipesAreChannels(p: Program, costs: Costs, tr: seq<State>, k: nat)
    requires IsRun(p, costs, tr) && IntCosts(costs) && k + 1 < |tr|
    ensures Encodes(tr[k].toWorker, Contents(tr[k].toWorker)) && Encodes(tr[k].toMain, Contents(tr[k].toMain))
    ensures BudgetChannelStep(tr[k], tr[k + 1]) && ReportChannelStep(tr[k], tr[k + 1])
  {
    hide Inv, CtlStep, WorkerStep, Encodes, BudgetChannelStep, ReportChannelStep;
    RunInv(p, costs, tr, k);
    PipesEncode(tr[k]);
    assert Step(p, costs, tr[k], tr[k + 1]);
    if CtlStep(tr[k], tr[k + 1]) {
      CtlChannels(tr[k], tr[k + 1]);
    } else {
      WorkerChannels(p, costs, tr[k], tr[k + 1]);
    }
  }

  lemma DigitsRunOn(s: string, from: nat, d: string, t: string, k: nat)
    requires from <= |s| && s[from..] == d + t && AllDigits(d)
    requires k <= |t| && AllDigits(t[..k]) && (k < |t| ==> !IsDigit(t[k]))
    ensures RunEnd(s, from) == from + |d| + k && s[from..from + |d| + k] == d + t[..k]
  {
    var e := from + |d| + k;
    assert s[from..e] == s[from..][..|d| + k] == d + t[..k];
    assert e < |s| ==> s[e] == s[from..][|d| + k] == t[k];
    RunEndUnique(s, from, e);
  }

  lemma AtoiSigned(s: string)
    requires s != [] && (s[0] == '-' || IsDigit(s[0]))
    ensures Atoi(s) == if s[0] == '-' then 0 - Value(s[1..RunEnd(s, 1)]) else Value(s[0..RunEnd(s, 0)])
  {
    hide Value, RunEnd;
    assert s[0..RunEnd(s, 0)] == s[..RunEnd(s, 0)];
  }

  lemma TextThen(m: int, t: string)
    ensures var s := IntText(m) + t;
            && s != "" && (if m < 0 then s[0] == '-' else IsDigit(s[0]))
            && s[if m < 0 then 1 else 0..] == Digits(if m < 0 then -m else m) + t
  {
    assert IntText(m)[if m < 0 then 1 else 0..] == Digits(if m < 0 then -m else m);
  }

  /** What atoi makes of a printed int with more text behind it: the digits run on. */
  lemma AtoiRunsOn(m: int, t: string, k: nat)
    requires k <= |t| && AllDigits(t[..k]) && (k < |t| ==> !IsDigit(t[k]))
    ensures Atoi(IntText(m) + t) == if m < 0 then 0 - Value(Digits(-m) + t[..k]) else Value(Digits(m) + t[..k])
  {
    hide Digits, Value, RunEnd, Atoi, IntText;
    TextThen(m, t);
    var s := IntText(m) + t;
    AtoiSigned(s);
    if m < 0 {
      DigitsRunOn(s, 1, Digits(-m), t, k);
    } else {
      DigitsRunOn(s, 0, Digits(m), t, k);
    }
  }

  /** Digits put behind a number make it larger, unless it is 0 and they are all 0. */
  lemma {:induction false} ValueGrows(a: string, b: string)
    requires AllDigits(a) && AllDigits(b)
    ensures AllDigits(a + b)
    ensures Value(a + b) >= Value(a) && (Value(a) > 0 && b != [] ==> Value(a + b) > Value(a))
    ensures Value(a) == 0 ==> Value(a + b) == Value(b)
  {
    if b == [] {
      assert a + b == a;
    } else {
      ValueGrows(a, b[..|b| - 1]);
      assert (a + b)[..|a + b| - 1] == a + b[..|b| - 1];
    }
  }

  lemma AtoiOfTwoTexts(m: int, n: int)
    ensures Atoi(IntText(m) + IntText(n)) == m <==> n < 0 || m == n == 0
  {
    var d := Digits(if m < 0 then -m else m);
    ValueOfDigits(if m < 0 then -m else m);
    if n < 0 {
      AtoiRunsOn(m, IntText(n), 0);
      assert d + IntText(n)[..0] == d;
    } else {
      AtoiRunsOn(m, IntText(n), |IntText(n)|);
      assert IntText(n)[..|IntText(n)|] == Digits(n);
      ValueOfDigits(n);
      ValueGrows(d, Digits(n));
    }
  }

  /**
   * Without that, two messages in one pipe would merge: one read empties the pipe, and where the
   * joined text denotes an int, it gives the first message exactly if the second is negative or
   * both are 0. The second message is lost either way.
   */
  lemma TwoMessagesMerge(m: int, n: int)
    requires -TWO31 <= m < TWO31 && -TWO31 <= n < TWO31
    ensures var bytes := IntText(m) + IntText(n);
            && Remaining(bytes) == ""
            && (-TWO31 <= Atoi(bytes) < TWO31 ==> (ReadValue(bytes) == m <==> n < 0 || m == n == 0))
            && (n < 0 ==> ReadValue(bytes) == m)
  {
    IntTextLength(m);
    IntTextLength(n);
    AtoiOfTwoTexts(m, n);
  }

  // ----- virtual time

  /** The C variable time_elapsed: it starts at 0 and keeps an int at every addition. */
  function ElapsedInt(tr: seq<State>, k: nat): int
    requires k < |tr|
  {
    if k == 0 then 0 else Wrap32(ElapsedInt(tr, k - 1) + (tr[k].elapsed - tr[k - 1].elapsed))
  }

  lemma WrapAdds(x: int, d: int)
    ensures Wrap32(Wrap32(x) + d) == Wrap32(x + d)
  {
    var k := (x + TWO31) / TWO32;
    assert Wrap32(x) == x - k * TWO32;
    ModShift(x + d + TWO31, k);
  }

  lemma {:induction false} ElapsedIntIs(p: Program, costs: Costs, tr: seq<State>, k: nat)
    requires IsRun(p, costs, tr) && k < |tr|
    ensures ElapsedInt(tr, k) == Wrap32(tr[k].elapsed)
  {
    hide Step;
    if k > 0 {
      ElapsedIntIs(p, costs, tr, k - 1);
      WrapAdds(tr[k - 1].elapsed, tr[k].elapsed - tr[k - 1].elapsed);
    }
  }

  /**
   * At every round boundary, time_elapsed is all charged costs plus the budgets forfeited at blocks
   * plus the budgets of rounds spent blocked; it also is all budgets plus all overshoots, and the
   * kernel has been or is about to be told each overshoot once. The int kept in C is that total in
   * 32 bits.
   */
  lemma TimeIsConserved(p: Program, costs: Costs, tr: seq<State>, k: nat)
    requires IsRun(p, costs, tr) && IntCosts(costs) && k < |tr| && tr[k].ctl.Ack?
    ensures var s := tr[k];
            && s.elapsed == s.log.charged + s.log.forfeited + s.log.idle
            && s.elapsed == s.log.issued + s.log.reported
            && s.log.told + s.ret == s.log.reported
    ensures ElapsedInt(tr, k) == Wrap32(tr[k].log.charged + tr[k].log.forfeited + tr[k].log.idle)
  {
    RunInv(p, costs, tr, k);
    ElapsedIntIs(p, costs, tr, k);
    hide IsRun, Wrap32, ElapsedInt;
  }

  /** Where the worker gets without an operation of its program. */
  function NextWorker(w: Worker): Worker {
    match w
    case FirstRead => Run(0)
    case AfterStub(pc) => Run(pc)
    case Report(pc) => RoundRead(pc)
    case RoundRead(pc) => AfterStub(pc)
    case BlockRead(pc) => AfterStub(pc)
    case BlockSend(pc) => Asleep(pc)
    case Asleep(pc) => BlockRead(pc)
    case Run(pc) => w
    case Finished => w
  }

  /** Such a step charges and sends nothing; it goes on or, where the worker may be told to leave, leaves. */
  lemma WorkerGoesOn(p: Program, costs: Costs, s: State, t: State)
    requires WorkerStep(p, costs, s, t) && !s.worker.Run?
    ensures t.log.sent == s.log.sent && t.log.charged == s.log.charged && t.ctl == s.ctl && t.stop == s.stop
    ensures t.worker == NextWorker(s.worker)
            || (t.worker.Finished? && !s.worker.Report? && !s.worker.BlockSend? && !s.worker.Asleep?)
  {
    hide IntText, ReadValue, Remaining;
  }

  // ----- deadlock

  /** Every control point of the program has a next operation. */
  ghost predicate Live(p: Program) {
    && (exists e :: e in p && e.src == 0)
    && forall d :: d in p ==> exists e :: e in p && e.src == d.dst
  }

  ghost predicate AtNode(p: Program, w: Worker) {
    !w.FirstRead? && !w.Finished? ==> w.pc == 0 || exists d :: d in p && d.dst == w.pc
  }

  lemma WorkerAtNode(p: Program, costs: Costs, s: State, t: State)
    requires AtNode(p, s.worker) && WorkerStep(p, costs, s, t)
    ensures AtNode(p, t.worker)
  {
    hide IntText, ReadValue, Remaining;
    if s.worker.Run? {
      var e :| e in p && e.src == s.worker.pc && t == Perform(costs, s, e);
      assert t.worker.Finished? || t.worker.pc == e.dst;
    } else {
      assert t.worker.Finished? || t.worker.pc == if s.worker.FirstRead? then 0 else s.worker.pc;
    }
  }

  lemma CtlKeepsWorker(s: State, t: State)
    requires CtlStep(s, t)
    ensures t.worker == s.worker
  {
    hide IntText, ReadValue, Remaining;
  }

  lemma {:induction false} RunAtNode(p: Program, costs: Costs, tr: seq<State>, k: nat)
    requires IsRun(p, costs, tr) && k < |tr|
    ensures AtNode(p, tr[k].worker)
  {
    hide CtlStep, WorkerStep;
    if k > 0 {
      RunAtNode(p, costs, tr, k - 1);
      assert Step(p, costs, tr[k - 1], tr[k - 1 + 1]);
      hide AtNode;
      if CtlStep(tr[k - 1], tr[k]) {
        CtlKeepsWorker(tr[k - 1], tr[k]);
      } else {
        WorkerAtNode(p, costs, tr[k - 1], tr[k]);
      }
    }
  }

  /** The experiment is not over, and neither process can take a step. */
  ghost predicate Stuck(p: Program, costs: Costs, s: State) {
    !s.ctl.Joining? && forall t :: !Step(p, costs, s, t)
  }

  /** The controller waits for the answer to a zero budget, not the first budget, and the worker has left. */
  predicate ZeroBudgetTaken(s: State) {
    s.ctl == Await(0) && s.log.sends > 1 && s.worker.Finished?
  }

  lemma TakenIsStuck(p: Program, costs: Costs, s: State)
    requires Inv(s) && ZeroBudgetTaken(s)
    ensures Stuck(p, costs, s)
  {
    hide IntText, Atoi;
    ReadWhatWasSent(0);
  }

  /** The controller can step whenever it is not in a call that waits. */
  lemma CtlSuccessor(s: State) returns (t: State)
    requires !s.ctl.Joining? && (s.ctl.Await? ==> s.toMain != "")
    ensures CtlStep(s, t)
  {
    hide IntText, ReadValue, Receive;
    match s.ctl
    case Ack =>
      t := s.(ctl := SetStop, log := s.log.(told := s.log.told + s.ret));
    case Check(b) =>
      t := if !s.blocked then s.(ctl := Send(b))
           else s.(ctl := Ack, elapsed := s.elapsed + b, ret := 0, log := s.log.(idle := s.log.idle + b));
    case Send(b) =>
      t := s.(ctl := Await(b), toWorker := s.toWorker + IntText(b),
              log := s.log.(sends := s.log.sends + 1));
    case Await(b) =>
      t := Receive(s, b, ReadValue(s.toMain));
    case SetStop =>
      t := s.(ctl := SendExit, stop := true);
    case SendExit =>
      t := s.(ctl := Joining, toWorker := s.toWorker + IntText(THREAD_EXITING));
  }

  lemma Successor(p: Program, costs: Costs, s: State) returns (t: State)
    requires Inv(s) && AtNode(p, s.worker) && Live(p)
    requires !s.ctl.Joining? && !ZeroBudgetTaken(s)
    ensures Step(p, costs, s, t)
  {
    hide Inv, CtlStep, WorkerStep, Live, AtNode;
    if s.ctl.Await? && s.toMain == "" {
      t := AwaitedStep(p, costs, s);
    } else {
      t := CtlSuccessor(s);
    }
  }

  /** A worker outside its program that is not asleep can step, if it has what it reads. */
  lemma WorkerSuccessor(p: Program, costs: Costs, s: State) returns (t: State)
    requires !s.worker.Finished? && !s.worker.Asleep? && !s.worker.Run?
    requires Reading(s.worker) ==> s.toWorker != ""
    ensures WorkerStep(p, costs, s, t)
  {
    hide IntText, ReadValue, Remaining;
    if Reading(s.worker) {
      var u := TakeBudget(s);
      t := if s.worker.FirstRead? then u.(worker := if u.left < 0 then Finished else Run(0))
           else u.(worker := if u.left <= 0 then Finished else AfterStub(s.worker.pc));
    } else if s.worker.AfterStub? {
      t := s.(worker := if s.stop then Finished else Run(s.worker.pc));
    } else if s.worker.Report? {
      t := s.(worker := RoundRead(s.worker.pc), toMain := s.toMain + IntText(-s.left),
              log := s.log.(reported := s.log.reported - s.left, rounds := s.log.rounds + 1));
    } else {
      t := s.(worker := Asleep(s.worker.pc), toMain := s.toMain + IntText(THREAD_BLOCKED));
    }
  }

  /** A worker that the controller waits for is at work, or its budget is in the pipe. */
  lemma AwaitedWorker(s: State)
    requires Inv(s) && s.ctl.Await? && s.toMain == "" && !ZeroBudgetTaken(s)
    ensures Active(s.worker) || (Reading(s.worker) && s.toWorker != "")
  {
    hide Books, ReadValue, IntText, Replied;
    ReadWhatWasSent(s.ctl.b);
  }

  /** While the controller waits and no reply is there, the worker can step. */
  lemma AwaitedStep(p: Program, costs: Costs, s: State) returns (t: State)
    requires Inv(s) && s.ctl.Await? && s.toMain == "" && !ZeroBudgetTaken(s)
    requires AtNode(p, s.worker) && Live(p)
    ensures WorkerStep(p, costs, s, t)
  {
    AwaitedWorker(s);
    hide Inv, Perform;
    if s.worker.Run? {
      var e :| e in p && e.src == s.worker.pc;
      t := Perform(costs, s, e);
    } else {
      t := WorkerSuccessor(p, costs, s);
    }
  }

  /**
   * A run deadlocks exactly when the controller has handed a zero budget to a worker past its first
   * read and the worker has taken it. With positive budgets some process can always step.
   */
  lemma DeadlockExactly(p: Program, costs: Costs, tr: seq<State>, k: nat)
    requires IsRun(p, costs, tr) && IntCosts(costs) && Live(p) && k < |tr| && !tr[k].ctl.Joining?
    ensures Stuck(p, costs, tr[k]) <==> ZeroBudgetTaken(tr[k])
  {
    hide Inv, Step;
    RunInv(p, costs, tr, k);
    RunAtNode(p, costs, tr, k);
    if ZeroBudgetTaken(tr[k]) {
      TakenIsStuck(p, costs, tr[k]);
    } else {
      var t := Successor(p, costs, tr[k]);
    }
  }

  lemma {:induction false} ZeroBudgetWasSent(p: Program, costs: Costs, tr: seq<State>, k: nat)
    requires IsRun(p, costs, tr) && k < |tr| && tr[k].ctl == Await(0) && tr[k].log.sends > 1
    ensures exists i :: 0 <= i < k && tr[i].ctl == Send(0) && tr[i].log.sends > 0
  {
    hide IntText, Atoi, ReadValue, Taken, Perform;
    var s, t := tr[k - 1], tr[k - 1 + 1];
    assert Step(p, costs, s, t);
    if s.ctl.Await? {
      SendsKept(p, costs, s, t);
      ZeroBudgetWasSent(p, costs, tr, k - 1);
    } else {
      SendsKept(p, costs, s, t);
    }
  }

  /** While the controller waits, its budget and the count of budgets stand still. */
  lemma SendsKept(p: Program, costs: Costs, s: State, t: State)
    requires Step(p, costs, s, t) && t.ctl.Await?
    ensures s.ctl.Await? ==> t.ctl == s.ctl && t.log.sends == s.log.sends
    ensures !s.ctl.Await? ==> s.ctl == Send(t.ctl.b) && t.log.sends == s.log.sends + 1
  {
    hide IntText, Atoi, ReadValue, Taken;
  }

  /** No budget after the first is zero. */
  ghost predicate NoLaterZero(tr: seq<State>) {
    forall i :: 0 <= i < |tr| && tr[i].ctl == Send(0) ==> tr[i].log.sends == 0
  }

  /** A run in which no budget after the first is zero never gets stuck. */
  lemma NeverStuck(p: Program, costs: Costs, tr: seq<State>, k: nat)
    requires IsRun(p, costs, tr) && IntCosts(costs) && Live(p) && k < |tr|
    requires NoLaterZero(tr)
    ensures !Stuck(p, costs, tr[k])
  {
    hide IsRun;
    if !tr[k].ctl.Joining? {
      DeadlockExactly(p, costs, tr, k);
      if ZeroBudgetTaken(tr[k]) {
        ZeroBudgetWasSent(p, costs, tr, k);
      }
    }
  }

  /** Writing that zero budget is fatal: the worker's exit is the only step left. */
  lemma ZeroBudgetIsFatal(p: Program, costs: Costs, tr: seq<State>, k: nat, u: State)
    requires IsRun(p, costs, tr) && IntCosts(costs) && k + 1 < |tr|
    requires tr[k].ctl == Send(0) && tr[k].log.sends > 0 && CtlStep(tr[k], tr[k + 1])
    requires Step(p, costs, tr[k + 1], u)
    ensures Stuck(p, costs, u)
  {
    hide IntText, Atoi;
    RunInv(p, costs, tr, k);
    RunInv(p, costs, tr, k + 1);
    var t := tr[k + 1];
    ReadWhatWasSent(0);
    if CtlStep(t, u) {
      CtlKeepsInv(t, u);
    } else {
      WorkerKeepsInv(p, costs, t, u);
    }
    TakenIsStuck(p, costs, u);
  }

  // ----- stopping

  lemma StoppedStep(p: Program, costs: Costs, s: State, t: State)
    requires Inv(s) && s.stop && Step(p, costs, s, t)
    ensures t.stop && t.log.sent == s.log.sent && t.log.charged == s.log.charged && t.elapsed == s.elapsed
  {
    hide IntText, Atoi, ReadValue;
  }

  /** Once `stop` is set nothing is charged or sent any more. */
  lemma {:induction false} StopIsSafe(p: Program, costs: Costs, tr: seq<State>, j: nat, k: nat)
    requires IsRun(p, costs, tr) && IntCosts(costs) && j <= k < |tr| && tr[j].stop
    ensures var s, t := tr[j], tr[k];
            t.stop && t.log.sent == s.log.sent && t.log.charged == s.log.charged && t.elapsed == s.elapsed
  {
    hide Inv, Step;
    if j < k {
      StopIsSafe(p, costs, tr, j, k - 1);
      RunInv(p, costs, tr, k - 1);
      assert Step(p, costs, tr[k - 1], tr[k - 1 + 1]);
      StoppedStep(p, costs, tr[k - 1], tr[k]);
    }
  }

  /**
   * Wherever the worker looks at `stop`, it leaves exactly if it is set. No run needs this, for no
   * run sets it while the worker is on its way; the looks would end a worker that missed its message.
   */
  lemma StopIsSeen(p: Program, costs: Costs, s: State, t: State)
    requires WorkerStep(p, costs, s, t)
    requires s.worker.AfterStub? || (s.worker.Run? && forall e :: e in p && e.src == s.worker.pc ==> e.op.CheckStop?)
    ensures t.worker.Finished? <==> s.stop
  {
    hide IntText, ReadValue, Remaining;
  }

  /** The two messages that are no numbers of microseconds, as they stand in the pipes. */
  lemma MessagesOnTheWire(p: Program, costs: Costs, tr: seq<State>, k: nat)
    requires IsRun(p, costs, tr) && IntCosts(costs) && k < |tr|
    ensures tr[k].worker.Asleep? && tr[k].ctl.Await? ==> tr[k].toMain == "-1"
    ensures tr[k].ctl.Joining? && !tr[k].worker.Finished? ==> tr[k].toWorker == "-2"
  {
    RunInv(p, costs, tr, k);
    assert IntText(-1) == "-" + Digits(1) == "-1" && IntText(-2) == "-" + Digits(2) == "-2";
    hide IntText, Atoi, Books;
  }

  /** How many steps the worker still needs after THREAD_EXITING is written. */
  function StepsToExit(w: Worker): nat {
    if w.Finished? then 0 else if w.Asleep? then 2 else 1
  }

  /**
   * After THREAD_EXITING is written it is the next integer the worker reads, wherever the worker is;
   * the worker can always step until it is finished, and each step nears that.
   */
  lemma ExitIsReached(p: Program, costs: Costs, tr: seq<State>, k: nat) returns (t: State)
    requires IsRun(p, costs, tr) && IntCosts(costs) && k < |tr|
    requires tr[k].ctl.Joining? && !tr[k].worker.Finished?
    ensures Contents(tr[k].toWorker) == Holds(THREAD_EXITING)
    ensures Step(p, costs, tr[k], t)
    ensures forall u :: Step(p, costs, tr[k], u) ==>
              u.ctl.Joining? && StepsToExit(u.worker) < StepsToExit(tr[k].worker) <= 2
  {
    hide IntText, Atoi;
    var s := tr[k];
    RunInv(p, costs, tr, k);
    ReadWhatWasSent(THREAD_EXITING);
    var v := TakeBudget(s);
    t := if s.worker.Asleep? then s.(worker := BlockRead(s.worker.pc), blocked := false)
         else v.(worker := Finished);
  }

  // ----- round arithmetic

  /** All priced calls cost the same. */
  ghost predicate Uniform(costs: Costs, c: nat) {
    forall fn :: fn in costs ==> costs[fn] == c
  }

  predicate UniformLog(l: Ledger, c: nat) {
    l.spent == c * l.calls && (l.calls > 0 ==> l.lastCost == c)
  }

  /** A step leaves this round's spending alone, starts it afresh, or adds one call at cost c. */
  lemma SpendingStep(p: Program, costs: Costs, c: nat, s: State, t: State)
    requires Step(p, costs, s, t) && Uniform(costs, c)
    ensures || (t.log.spent == s.log.spent && t.log.calls == s.log.calls && t.log.lastCost == s.log.lastCost)
            || (t.log.spent == 0 && t.log.calls == 0)
            || (t.log.spent == s.log.spent + c && t.log.calls == s.log.calls + 1 && t.log.lastCost == c)
  {
    hide IntText, Atoi, ReadValue, Taken;
  }

  lemma {:induction false} UniformSpending(p: Program, costs: Costs, c: nat, tr: seq<State>, k: nat)
    requires IsRun(p, costs, tr) && k < |tr| && Uniform(costs, c)
    ensures UniformLog(tr[k].log, c)
  {
    hide Step;
    if k > 0 {
      UniformSpending(p, costs, c, tr, k - 1);
      assert Step(p, costs, tr[k - 1], tr[k - 1 + 1]);
      SpendingStep(p, costs, c, tr[k - 1], tr[k]);
    }
  }

  /** With uniform cost c, a round of budget b that ends in a report made ceil(b/c) charged calls. */
  lemma UniformRound(p: Program, costs: Costs, c: nat, tr: seq<State>, k: nat, b: nat)
    requires IsRun(p, costs, tr) && IntCosts(costs) && k < |tr| && c > 0 && Uniform(costs, c)
    requires tr[k].ctl == Await(b) && b > 0
    requires tr[k].toMain != "" && ReadValue(tr[k].toMain) != THREAD_BLOCKED
    ensures var calls := (b + c - 1) / c;
            tr[k].log.calls == calls && ReadValue(tr[k].toMain) == c * calls - b
  {
    hide IntText, Atoi, ReadValue;
    RunInv(p, costs, tr, k);
    UniformSpending(p, costs, c, tr, k);
    CeilingOf(b, c, tr[k].log.calls);
  }

  lemma CeilingOf(b: nat, c: nat, n: nat)
    requires c > 0 && c * n - c < b <= c * n
    ensures (b + c - 1) / c == n
  {
    var q := (b + c - 1) / c;
    assert c * q <= b + c - 1 < c * q + c;
    MulMonotone(c, n + 1, q);
    MulMonotone(c, q + 1, n);
  }

  lemma MulMonotone(c: nat, m: int, n: int)
    ensures m <= n ==> c * m <= c * n
  {
    if m <= n {
      assert c * n == c * m + c * (n - m);
    }
  }

  ghost predicate PositiveBudgets(tr: seq<State>) {
    forall i :: 0 <= i < |tr| && tr[i].ctl.Send? ==> tr[i].ctl.b > 0
  }

  /** The most that `rounds` reports can add up to. */
  function MaxDrift(rounds: nat, cmax: nat): int {
    rounds * (cmax - 1)
  }

  predicate Drifting(s: State, cmax: nat) {
    && 0 <= s.log.reported <= MaxDrift(s.log.rounds, cmax)
    && s.log.lastCost <= cmax
    && (s.ctl.Await? ==> s.ctl.b > 0)
  }

  /** Only a report touches the reported total, and it adds less than the last cost. */
  lemma ReportedStep(p: Program, costs: Costs, cmax: nat, s: State, t: State)
    requires forall fn :: fn in costs ==> costs[fn] <= cmax
    requires Inv(s) && Step(p, costs, s, t) && s.log.lastCost <= cmax
    requires (s.ctl.Send? || s.ctl.Await?) ==> s.ctl.b > 0
    ensures t.log.lastCost <= cmax && (t.ctl.Await? ==> t.ctl.b > 0)
    ensures || (t.log.reported == s.log.reported && t.log.rounds == s.log.rounds)
            || (0 <= t.log.reported - s.log.reported < cmax && t.log.rounds == s.log.rounds + 1)
  {
    hide IntText, Atoi, ReadValue, Books;
  }

  lemma DriftStep(p: Program, costs: Costs, cmax: nat, s: State, t: State)
    requires cmax > 0 && forall fn :: fn in costs ==> costs[fn] <= cmax
    requires Inv(s) && Drifting(s, cmax) && Step(p, costs, s, t)
    requires s.ctl.Send? ==> s.ctl.b > 0
    ensures Drifting(t, cmax)
  {
    hide Inv, Step;
    ReportedStep(p, costs, cmax, s, t);
    assert MaxDrift(s.log.rounds + 1, cmax) == MaxDrift(s.log.rounds, cmax) + (cmax - 1);
    hide MaxDrift;
  }

  lemma {:induction false} DriftSoFar(p: Program, costs: Costs, cmax: nat, tr: seq<State>, k: nat)
    requires IsRun(p, costs, tr) && IntCosts(costs) && k < |tr| && PositiveBudgets(tr)
    requires cmax > 0 && forall fn :: fn in costs ==> costs[fn] <= cmax
    ensures Drifting(tr[k], cmax)
  {
    hide Inv, Step;
    if k > 0 {
      DriftSoFar(p, costs, cmax, tr, k - 1);
      RunInv(p, costs, tr, k - 1);
      assert Step(p, costs, tr[k - 1], tr[k - 1 + 1]);
      DriftStep(p, costs, cmax, tr[k - 1], tr[k]);
    }
  }

  /** After R reporting rounds, time has drifted from the budgets by at most R * (cmax - 1). */
  lemma DriftIsBounded(p: Program, costs: Costs, cmax: nat, tr: seq<State>, k: nat)
    requires IsRun(p, costs, tr) && IntCosts(costs) && k < |tr| && PositiveBudgets(tr)
    requires cmax > 0 && forall fn :: fn in costs ==> costs[fn] <= cmax
    requires tr[k].ctl.Ack?
    ensures 0 <= tr[k].elapsed - tr[k].log.issued <= tr[k].log.rounds * (cmax - 1)
  {
    TimeIsConserved(p, costs, tr, k);
    DriftSoFar(p, costs, cmax, tr, k);
  }
}
