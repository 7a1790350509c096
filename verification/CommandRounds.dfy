/** The two halves of the controller together: what the time keeper's commands do to the rounds. */
module CommandRounds {
  import opened Decimal
  import opened Command
  import opened RoundProtocol
  import opened RoundGuarantees
  import opened RunSteps
  import opened WorkerPrograms

  predicate Readable(answer: Answer) {
    answer.Ok? ==> CString(answer.command)
  }

  /** What the controller does next when its fetch returns `advance`. */
  function AfterFetch(advance: int): Ctl {
    if advance < 0 then SetStop else Check(advance)
  }

  /** At every fetch of the run, `answers` holds the kernel's answer, and the controller goes by it. */
  ghost predicate Commanded(tr: seq<State>, answers: seq<Answer>) {
    && |answers| == |tr|
    && (forall i :: 0 <= i < |answers| ==> Readable(answers[i]))
    && forall i :: 0 <= i < |tr| - 1 && tr[i].ctl.Ack? && !tr[i + 1].ctl.Ack? ==>
         tr[i + 1].ctl == AfterFetch(Fetch(answers[i]).advance)
  }

  /** The fetch at `i` returns a zero budget to a controller that has sent one before. */
  ghost predicate ZeroFetched(tr: seq<State>, answers: seq<Answer>, i: nat)
    requires Commanded(tr, answers)
  {
    i < |tr| && tr[i].ctl.Ack? && tr[i].log.sends > 0 && Fetch(answers[i]).advance == 0
  }

  /** A budget on its way to the worker was fetched earlier, and none was sent since. */
  lemma {:induction false} BudgetWasFetched(p: Program, costs: Costs, tr: seq<State>, answers: seq<Answer>, k: nat)
    returns (i: nat)
    requires IsRun(p, costs, tr) && Commanded(tr, answers) && k < |tr| && (tr[k].ctl.Check? || tr[k].ctl.Send?)
    ensures i < k && tr[i].ctl.Ack? && tr[i].log.sends == tr[k].log.sends
    ensures Fetch(answers[i]).advance == tr[k].ctl.b
  {
    hide WorkerStep, Fetch;
    var s, t := tr[k - 1], tr[k - 1 + 1];
    assert Step(p, costs, s, t);
    if CtlStep(s, t) {
      FetchStep(s, t);
    } else {
      WorkerIssuesNothing(p, costs, s, t);
    }
    hide CtlStep;
    if s.ctl.Ack? {
      i := k - 1;
    } else {
      i := BudgetWasFetched(p, costs, tr, answers, k - 1);
    }
  }

  lemma FetchStep(s: State, t: State)
    requires CtlStep(s, t) && (t.ctl.Check? || t.ctl.Send?)
    ensures t.log.sends == s.log.sends
    ensures if t.ctl.Send? then s.ctl == Check(t.ctl.b) else s.ctl.Ack?
  {
    hide IntText, ReadValue;
  }

  lemma WorkerIssuesNothing(p: Program, costs: Costs, s: State, t: State)
    requires WorkerStep(p, costs, s, t)
    ensures t.ctl == s.ctl && t.log.sends == s.log.sends && t.log.issued == s.log.issued
  {
    hide IntText, ReadValue, Remaining;
  }

  /** As long as no fetch after the first budget gives zero, the run never gets stuck. */
  lemma CommandsKeepRunning(p: Program, costs: Costs, tr: seq<State>, answers: seq<Answer>, k: nat)
    requires IsRun(p, costs, tr) && IntCosts(costs) && Live(p) && k < |tr|
    requires Commanded(tr, answers) && forall i: nat :: !ZeroFetched(tr, answers, i)
    ensures !Stuck(p, costs, tr[k])
  {
    hide IsRun, Live, Stuck, Commanded;
    forall j | 0 <= j < |tr| && tr[j].ctl == Send(0)
      ensures tr[j].log.sends == 0
    {
      var i := BudgetWasFetched(p, costs, tr, answers, j);
      assert !ZeroFetched(tr, answers, i);
    }
    NeverStuck(p, costs, tr, k);
  }

  /** A printed list whose last count is a thousand or more, short of the last thousand. */
  predicate Ordinary(cmds: seq<(int, nat)>) {
    Printable(cmds) && cmds != [] && 1000 <= cmds[|cmds| - 1].1 <= TWO32 - 1000
  }

  ghost predicate OrdinaryAnswer(answer: Answer) {
    || answer.Failed?
    || (exists cmds: seq<(int, nat)> :: Ordinary(cmds) && answer.command == Print(cmds) + "\0")
    || (exists cmds: seq<(int, nat)> :: Printable(cmds) && answer.command == Print(cmds) + "STOP\0")
  }

  lemma OrdinaryIsNotZero(answer: Answer)
    requires OrdinaryAnswer(answer)
    ensures Readable(answer) && Fetch(answer).advance != 0
  {
    hide CommandLoop, Print;
    if exists cmds: seq<(int, nat)> :: answer.Ok? && Ordinary(cmds) && answer.command == Print(cmds) + "\0" {
      var cmds: seq<(int, nat)> :| Ordinary(cmds) && answer.command == Print(cmds) + "\0";
      RoundTrip(cmds);
      ZeroAdvanceExactly(cmds[|cmds| - 1].1);
    } else if exists cmds: seq<(int, nat)> :: answer.Ok? && Printable(cmds) && answer.command == Print(cmds) + "STOP\0" {
      var cmds: seq<(int, nat)> :| Printable(cmds) && answer.command == Print(cmds) + "STOP\0";
      RoundTripStop(cmds);
    }
  }

  /** With printed command lists whose last counts lie in 1000..2^32-1000, the three programs never get stuck. */
  lemma OrdinaryCommandsKeepRunning(p: Program, costs: Costs, tr: seq<State>, answers: seq<Answer>, k: nat)
    requires Shipped(p, costs) && IsRun(p, costs, tr) && k < |tr|
    requires Commanded(tr, answers) && forall i :: 0 <= i < |answers| ==> OrdinaryAnswer(answers[i])
    ensures !Stuck(p, costs, tr[k])
  {
    hide IsRun, Live, Stuck, OrdinaryAnswer, Fetch;
    ShippedPrograms(p, costs);
    forall i: nat
      ensures !ZeroFetched(tr, answers, i)
    {
      if i < |tr| {
        OrdinaryIsNotZero(answers[i]);
      }
    }
    CommandsKeepRunning(p, costs, tr, answers, k);
  }

  // ----- runs that get stuck

  ghost predicate CommandedRun(p: Program, costs: Costs, tr: seq<State>, answers: seq<Answer>) {
    IsRun(p, costs, tr) && Commanded(tr, answers)
  }

  lemma Lengths(p: Program, costs: Costs, tr: seq<State>, answers: seq<Answer>)
    requires CommandedRun(p, costs, tr, answers)
    ensures 0 < |tr| == |answers|
  {
  }

  /** A commanded run goes on with a step that goes by the answer at its end. */
  lemma Onward(p: Program, costs: Costs, tr: seq<State>, answers: seq<Answer>, s: State, t: State, next: Answer)
    returns (more: seq<State>, moreAnswers: seq<Answer>)
    requires CommandedRun(p, costs, tr, answers) && s == tr[|tr| - 1] && Step(p, costs, s, t) && Readable(next)
    requires s.ctl.Ack? && !t.ctl.Ack? ==> t.ctl == AfterFetch(Fetch(answers[|tr| - 1]).advance)
    ensures more == tr + [t] && moreAnswers == answers + [next] && CommandedRun(p, costs, more, moreAnswers)
  {
    hide Step, Fetch;
    more, moreAnswers := tr + [t], answers + [next];
    RunGrows(p, costs, tr, t);
  }

  /** The answers of a run that goes on, all of them the same from where it went on. */
  predicate Extended(answers: seq<Answer>, more: seq<Answer>, later: Answer) {
    answers <= more && forall i :: |answers| <= i < |more| ==> more[i] == later
  }

  /** The budget is fetched; a blocked worker wakes before the controller looks. */
  lemma BudgetIsFetched(p: Program, costs: Costs, tr: seq<State>, answers: seq<Answer>, s: State, b: nat, later: Answer)
    returns (more: seq<State>, moreAnswers: seq<Answer>)
    requires CommandedRun(p, costs, tr, answers) && s == tr[|tr| - 1] && Readable(later)
    requires s.ctl.Ack? && b == Fetch(answers[|tr| - 1]).advance && b < TWO31
    ensures CommandedRun(p, costs, more, moreAnswers) && tr <= more && Extended(answers, moreAnswers, later)
    ensures more[|more| - 1] == Awake(Fetched(s, b))
  {
    var t := Fetched(s, b);
    FetchingStep(s, b);
    if t.worker.Asleep? {
      WakingStep(p, costs, t);
    }
    hide CtlStep, WorkerStep, Fetch, CommandedRun;
    more, moreAnswers := Onward(p, costs, tr, answers, s, t, later);
    if t.worker.Asleep? {
      more, moreAnswers := Onward(p, costs, more, moreAnswers, t, Awake(t), later);
    }
  }

  /** A controller fetches its budget, finds the worker awake, and sends it. */
  lemma BudgetGoesOut(p: Program, costs: Costs, tr: seq<State>, answers: seq<Answer>, s: State, b: nat, later: Answer)
    returns (more: seq<State>, moreAnswers: seq<Answer>)
    requires CommandedRun(p, costs, tr, answers) && s == tr[|tr| - 1] && Readable(later)
    requires s.ctl.Ack? && (s.blocked ==> s.worker.Asleep?) && b == Fetch(answers[|tr| - 1]).advance && b < TWO31
    ensures CommandedRun(p, costs, more, moreAnswers) && tr <= more && Extended(answers, moreAnswers, later)
    ensures more[|more| - 1] == Waits(Awake(Fetched(s, b)), b)
  {
    var t := Awake(Fetched(s, b));
    var u, v := t.(ctl := Send(b)), Waits(t, b);
    SendingSteps(t, b);
    hide CtlStep, WorkerStep, Fetch, CommandedRun, Waits, Fetched, Awake, IntText;
    var tr1, answers1 := BudgetIsFetched(p, costs, tr, answers, s, b, later);
    var tr2, answers2 := Onward(p, costs, tr1, answers1, t, u, later);
    more, moreAnswers := Onward(p, costs, tr2, answers2, u, v, later);
  }

  /**
   * Any run whose next fetch gives a zero budget, after the first one, can go on to a stuck state,
   * whatever the fetches after it give: fetch, check, send, and the worker's exit. If the worker is
   * blocked, it need only wake between the fetch and the look at is_blocked.
   */
  lemma ZeroCommandIsFatal(p: Program, costs: Costs, tr: seq<State>, answers: seq<Answer>, later: Answer)
    returns (more: seq<State>, moreAnswers: seq<Answer>)
    requires CommandedRun(p, costs, tr, answers) && IntCosts(costs)
    requires ZeroFetched(tr, answers, |tr| - 1) && Readable(later)
    ensures CommandedRun(p, costs, more, moreAnswers) && tr <= more && Extended(answers, moreAnswers, later)
    ensures Stuck(p, costs, more[|more| - 1])
  {
    var s := tr[|tr| - 1];
    RunInv(p, costs, tr, |tr| - 1);
    var t := Waits(Awake(Fetched(s, 0)), 0);
    var u := TakeBudget(t).(worker := Finished);
    ZeroTaken(p, costs, s, t, u);
    hide Step, Inv, Fetch, CommandedRun, Stuck, Waits, Fetched, Awake, IntText;
    var tr1, answers1 := BudgetGoesOut(p, costs, tr, answers, s, 0, later);
    more, moreAnswers := Onward(p, costs, tr1, answers1, t, u, later);
  }

  lemma ZeroTaken(p: Program, costs: Costs, s: State, t: State, u: State)
    requires Inv(s) && s.ctl.Ack? && s.log.sends > 0 && IntCosts(costs)
    requires t == Waits(Awake(Fetched(s, 0)), 0) && u == TakeBudget(t).(worker := Finished)
    ensures s.blocked ==> s.worker.Asleep?
    ensures Step(p, costs, t, u) && Stuck(p, costs, u)
  {
    hide ReadValue, Leaving, Receive, Working, Starved, Replied;
    ReadWhatWasSent(0);
    assert t.toWorker == IntText(0);
    assert Inv(t);
    assert Reading(t.worker) && !t.worker.FirstRead?;
    assert WorkerStep(p, costs, t, u);
    WorkerKeepsInv(p, costs, t, u);
    TakenIsStuck(p, costs, u);
  }

  /** The command string with this one count. */
  function OneCommand(count: nat): Answer {
    Ok(Print([(1, count)]) + "\0")
  }

  lemma OneCommandGivesZero(count: nat)
    requires count < TWO32
    ensures Readable(OneCommand(count))
    ensures Fetch(OneCommand(count)).advance == 0 <==> count < 1000 || count > TWO32 - 1000
  {
    RoundTrip([(1, count)]);
    ZeroAdvanceExactly(count);
  }

  /** The worker looks at `stop` first, and then makes a priced call. */
  predicate ChargesFirst(p: Program, costs: Costs, e: Edge, f: Edge) {
    && e in p && f in p && e.src == 0 && e.op.CheckStop? && f.src == e.dst
    && f.op.Charge? && f.op.fn in costs && 0 < costs[f.op.fn] < TWO31
  }

  /** Such a worker overruns a zero first budget at that call. */
  lemma FirstCallOverruns(p: Program, costs: Costs, e: Edge, f: Edge,
      tr: seq<State>, answers: seq<Answer>, s: State, later: Answer)
    returns (more: seq<State>, moreAnswers: seq<Answer>)
    requires CommandedRun(p, costs, tr, answers) && s == tr[|tr| - 1] && Readable(later) && ChargesFirst(p, costs, e, f)
    requires s.ctl == Await(0) && s.worker.FirstRead? && s.toWorker == IntText(0) && s.toMain == "" && !s.stop
    ensures CommandedRun(p, costs, more, moreAnswers)
    ensures moreAnswers == answers + [later, later, later]
    ensures var t := more[|more| - 1];
            t.ctl == s.ctl && t.worker.Report? && 0 <= -t.left < TWO31 && t.toMain == "" && t.blocked == s.blocked
            && t.log.sends == s.log.sends
  {
    ReadWhatWasSent(0);
    var s1 := TakeBudget(s).(worker := Run(0));
    assert WorkerStep(p, costs, s, s1);
    AlongEdge(p, costs, s1, e);
    var s2 := Perform(costs, s1, e);
    AlongEdge(p, costs, s2, f);
    var s3 := Perform(costs, s2, f);
    hide WorkerStep, CtlStep, Fetch, CommandedRun, IntText, ReadValue, Remaining, Step;
    assert Step(p, costs, s, s1);
    var tr1, answers1 := Onward(p, costs, tr, answers, s, s1, later);
    var tr2, answers2 := Onward(p, costs, tr1, answers1, s1, s2, later);
    more, moreAnswers := Onward(p, costs, tr2, answers2, s2, s3, later);
  }

  /** An overshoot is reported, and the controller goes back to fetch its next command. */
  lemma ReportArrives(p: Program, costs: Costs, tr: seq<State>, answers: seq<Answer>, s: State, later: Answer)
    returns (more: seq<State>, moreAnswers: seq<Answer>)
    requires CommandedRun(p, costs, tr, answers) && s == tr[|tr| - 1] && Readable(later)
    requires s.ctl.Await? && s.worker.Report? && s.toMain == "" && 0 <= -s.left < TWO31
    ensures CommandedRun(p, costs, more, moreAnswers)
    ensures moreAnswers == answers + [later, later]
    ensures var t := more[|more| - 1];
            t.ctl.Ack? && t.blocked == s.blocked && t.log.sends == s.log.sends && t.ret == -s.left
  {
    var s1 := s.(worker := RoundRead(s.worker.pc), toMain := s.toMain + IntText(-s.left),
                 log := s.log.(reported := s.log.reported - s.left, rounds := s.log.rounds + 1));
    var s2 := Receive(s1, s.ctl.b, -s.left);
    ReportSteps(p, costs, s, s1, s2);
    hide IntText, Fetch, CommandedRun, Step;
    var tr1, answers1 := Onward(p, costs, tr, answers, s, s1, later);
    more, moreAnswers := Onward(p, costs, tr1, answers1, s1, s2, later);
  }

  lemma ReportSteps(p: Program, costs: Costs, s: State, s1: State, s2: State)
    requires s.ctl.Await? && s.worker.Report? && s.toMain == "" && 0 <= -s.left < TWO31
    requires s1 == s.(worker := RoundRead(s.worker.pc), toMain := s.toMain + IntText(-s.left),
                      log := s.log.(reported := s.log.reported - s.left, rounds := s.log.rounds + 1))
    requires s2 == Receive(s1, s.ctl.b, -s.left)
    ensures Step(p, costs, s, s1) && Step(p, costs, s1, s2)
  {
    hide IntText, CtlStep, Receive;
    assert s.toMain + IntText(-s.left) == IntText(-s.left);
    ReportRead(s1, -s.left);
    assert WorkerStep(p, costs, s, s1);
  }

  lemma ReportRead(s: State, r: nat)
    requires s.ctl.Await? && s.toMain == IntText(r) && r < TWO31
    ensures CtlStep(s, Receive(s, s.ctl.b, r))
  {
    ReadWhatWasSent(r);
    hide IntText, ReadValue, Receive;
  }

  predicate Only(answers: seq<Answer>, answer: Answer) {
    forall i :: 0 <= i < |answers| ==> answers[i] == answer
  }

  /** Commands that keep giving zero get a worker stuck that is about to report an overshoot. */
  lemma ReportThenStarve(p: Program, costs: Costs, tr: seq<State>, answers: seq<Answer>, s: State, answer: Answer)
    returns (more: seq<State>, moreAnswers: seq<Answer>)
    requires CommandedRun(p, costs, tr, answers) && s == tr[|tr| - 1] && IntCosts(costs)
    requires s.ctl.Await? && s.worker.Report? && s.toMain == "" && 0 <= -s.left < TWO31
    requires s.log.sends > 0 && Only(answers, answer) && Readable(answer) && Fetch(answer).advance == 0
    ensures CommandedRun(p, costs, more, moreAnswers) && Only(moreAnswers, answer)
    ensures Stuck(p, costs, more[|more| - 1])
  {
    hide Fetch, Stuck, CommandedRun, IntText;
    var tr1, answers1 := ReportArrives(p, costs, tr, answers, s, answer);
    Lengths(p, costs, tr1, answers1);
    more, moreAnswers := ZeroCommandIsFatal(p, costs, tr1, answers1, answer);
  }

  /** So they do with a worker at its start that charges first. */
  lemma StartThenStarve(p: Program, costs: Costs, e: Edge, f: Edge,
      tr: seq<State>, answers: seq<Answer>, s: State, answer: Answer)
    returns (more: seq<State>, moreAnswers: seq<Answer>)
    requires CommandedRun(p, costs, tr, answers) && s == tr[|tr| - 1] && answers == [answer]
    requires ChargesFirst(p, costs, e, f) && IntCosts(costs)
    requires s.ctl.Ack? && s.worker.FirstRead? && s.toWorker == "" && s.toMain == "" && !s.stop && !s.blocked
    requires Readable(answer) && Fetch(answer).advance == 0
    ensures CommandedRun(p, costs, more, moreAnswers) && Only(moreAnswers, answer)
    ensures Stuck(p, costs, more[|more| - 1])
  {
    hide Fetch, Stuck, CommandedRun, IntText, IntCosts, ChargesFirst;
    Lengths(p, costs, tr, answers);
    var tr1, answers1 := BudgetGoesOut(p, costs, tr, answers, s, 0, answer);
    var t := Waits(Awake(Fetched(s, 0)), 0);
    assert t.toWorker == IntText(0);
    var tr2, answers2 := FirstCallOverruns(p, costs, e, f, tr1, answers1, t, answer);
    Lengths(p, costs, tr2, answers2);
    more, moreAnswers := ReportThenStarve(p, costs, tr2, answers2, tr2[|tr2| - 1], answer);
  }

  /** Some run under one answer that never changes gets stuck. */
  ghost predicate CanGetStuck(p: Program, costs: Costs, answer: Answer) {
    exists tr, answers ::
      CommandedRun(p, costs, tr, answers) && Only(answers, answer) && Stuck(p, costs, tr[|tr| - 1])
  }

  lemma StuckRun(p: Program, costs: Costs, tr: seq<State>, answers: seq<Answer>, answer: Answer)
    requires CommandedRun(p, costs, tr, answers) && Only(answers, answer) && Stuck(p, costs, tr[|tr| - 1])
    ensures CanGetStuck(p, costs, answer)
  {
    hide CommandedRun, Only, Stuck;
  }

  lemma NoneFetchedZero(tr: seq<State>, answers: seq<Answer>, answer: Answer)
    requires Commanded(tr, answers) && Only(answers, answer) && Readable(answer) && Fetch(answer).advance != 0
    ensures forall i: nat :: !ZeroFetched(tr, answers, i)
  {
  }

  lemma SteadyKeepsRunning(p: Program, costs: Costs, answer: Answer)
    requires Live(p) && IntCosts(costs) && Readable(answer) && Fetch(answer).advance != 0
    ensures !CanGetStuck(p, costs, answer)
  {
    forall tr, answers | CommandedRun(p, costs, tr, answers) && Only(answers, answer)
      ensures !Stuck(p, costs, tr[|tr| - 1])
    {
      NoneFetchedZero(tr, answers, answer);
      Lengths(p, costs, tr, answers);
      hide IsRun, Live, Stuck, Fetch, Commanded, ZeroFetched;
      CommandsKeepRunning(p, costs, tr, answers, |tr| - 1);
    }
  }

  lemma SteadyGetsStuck(p: Program, costs: Costs, e: Edge, f: Edge, answer: Answer)
    requires IntCosts(costs) && ChargesFirst(p, costs, e, f) && Readable(answer) && Fetch(answer).advance == 0
    ensures CanGetStuck(p, costs, answer)
  {
    assert CommandedRun(p, costs, [START], [answer]);
    hide Fetch, Stuck, CommandedRun, ChargesFirst, IntCosts;
    var tr, answers := StartThenStarve(p, costs, e, f, [START], [answer], START, answer);
    StuckRun(p, costs, tr, answers, answer);
  }

  /**
   * The deadlock is real: if a worker makes a priced call before anything else, a time keeper whose
   * answer never changes gets it stuck exactly if that answer gives a zero budget.
   */
  lemma SteadyAnswerExactly(p: Program, costs: Costs, e: Edge, f: Edge, answer: Answer)
    requires Live(p) && IntCosts(costs) && ChargesFirst(p, costs, e, f) && Readable(answer)
    ensures CanGetStuck(p, costs, answer) <==> Fetch(answer).advance == 0
  {
    hide Live, IntCosts, ChargesFirst, Fetch, CanGetStuck;
    if Fetch(answer).advance == 0 {
      SteadyGetsStuck(p, costs, e, f, answer);
    } else {
      SteadyKeepsRunning(p, costs, answer);
    }
  }

  lemma ServerChargesFirst()
    ensures Live(SERVER) && IntCosts(SERVER_COSTS)
    ensures ChargesFirst(SERVER, SERVER_COSTS, Edge(0, CheckStop, 1), Edge(1, Charge("flush_buffer"), 2))
  {
    ServerIsLive();
    hide Live;
  }

  /** The server under one command: it can get stuck exactly for counts below 1000 and within 999 of 2^32. */
  lemma ServerStuckExactly(count: nat)
    requires count < TWO32
    ensures CanGetStuck(SERVER, SERVER_COSTS, OneCommand(count)) <==> count < 1000 || count > TWO32 - 1000
  {
    hide *;
    OneCommandGivesZero(count);
    ServerChargesFirst();
    SteadyAnswerExactly(SERVER, SERVER_COSTS, Edge(0, CheckStop, 1), Edge(1, Charge("flush_buffer"), 2),
                        OneCommand(count));
  }

  // ----- stopping

  /** The controller is past its last fetch. */
  predicate Stopping(ctl: Ctl) {
    ctl.SetStop? || ctl.SendExit? || ctl.Joining?
  }

  lemma RestingWorker(s: State)
    requires Inv(s) && s.ctl.Ack?
    ensures s.toWorker == "" && !s.stop && (Reading(s.worker) || s.worker.Asleep?)
  {
    hide Books;
  }

  /** The controller sets `stop`, writes THREAD_EXITING, and joins. */
  lemma StopGoesOut(p: Program, costs: Costs, tr: seq<State>, answers: seq<Answer>, s: State, later: Answer)
    returns (more: seq<State>, moreAnswers: seq<Answer>)
    requires CommandedRun(p, costs, tr, answers) && s == tr[|tr| - 1] && Readable(later)
    requires s.ctl.Ack? && Fetch(answers[|tr| - 1]).advance == -1
    ensures CommandedRun(p, costs, more, moreAnswers) && tr <= more && Extended(answers, moreAnswers, later)
    ensures more[|more| - 1] == ExitSent(StopSet(StopFetched(s)))
  {
    var t := StopFetched(s);
    var u := StopSet(t);
    StoppingSteps(s);
    hide CtlStep, WorkerStep, Fetch, CommandedRun, ExitSent;
    more, moreAnswers := Onward(p, costs, tr, answers, s, t, later);
    more, moreAnswers := Onward(p, costs, more, moreAnswers, t, u, later);
    more, moreAnswers := Onward(p, costs, more, moreAnswers, u, ExitSent(u), later);
  }

  /** A worker that is asleep wakes; then it reads THREAD_EXITING and leaves. */
  lemma WorkerLeaves(p: Program, costs: Costs, tr: seq<State>, answers: seq<Answer>, s: State, later: Answer)
    returns (more: seq<State>, moreAnswers: seq<Answer>)
    requires CommandedRun(p, costs, tr, answers) && s == tr[|tr| - 1] && Readable(later)
    requires s.ctl.Joining? && s.stop && s.toWorker == IntText(THREAD_EXITING) && (Reading(s.worker) || s.worker.Asleep?)
    ensures CommandedRun(p, costs, more, moreAnswers) && tr <= more && Extended(answers, moreAnswers, later)
    ensures var t := more[|more| - 1]; t.ctl.Joining? && t.stop && t.worker.Finished? && t.toWorker == ""
  {
    var t := Awake(s);
    if s.worker.Asleep? {
      WakingStep(p, costs, s);
    }
    LeavingStep(p, costs, t);
    hide CtlStep, WorkerStep, Fetch, CommandedRun, IntText, ReadValue, Remaining;
    more, moreAnswers := tr, answers;
    if s.worker.Asleep? {
      more, moreAnswers := Onward(p, costs, tr, answers, s, t, later);
    }
    more, moreAnswers := Onward(p, costs, more, moreAnswers, t, TakeBudget(t).(worker := Finished), later);
  }

  /**
   * A STOP is obeyed: every run that is about to fetch it can go on until `stop` is set, the
   * controller joins, and the worker has read THREAD_EXITING and left.
   */
  lemma StopIsObeyed(p: Program, costs: Costs, tr: seq<State>, answers: seq<Answer>, later: Answer)
    returns (more: seq<State>, moreAnswers: seq<Answer>)
    requires CommandedRun(p, costs, tr, answers) && IntCosts(costs) && Readable(later)
    requires tr[|tr| - 1].ctl.Ack? && Fetch(answers[|tr| - 1]).advance == -1
    ensures CommandedRun(p, costs, more, moreAnswers) && tr <= more && Extended(answers, moreAnswers, later)
    ensures var t := more[|more| - 1]; t.ctl.Joining? && t.stop && t.worker.Finished? && t.toWorker == ""
  {
    var s := tr[|tr| - 1];
    RunInv(p, costs, tr, |tr| - 1);
    RestingWorker(s);
    var t := ExitSent(StopSet(StopFetched(s)));
    assert t.toWorker == IntText(THREAD_EXITING);
    hide Inv, Fetch, CommandedRun, IntText;
    var tr1, answers1 := StopGoesOut(p, costs, tr, answers, s, later);
    more, moreAnswers := WorkerLeaves(p, costs, tr1, answers1, t, later);
  }

  lemma StopPath(s: State, t: State)
    requires CtlStep(s, t)
    ensures t.ctl.SetStop? ==> s.ctl.Ack? && t.log.issued == s.log.issued && t.log.sends == s.log.sends
    ensures Stopping(t.ctl) && !t.ctl.SetStop? ==>
              Stopping(s.ctl) && t.log.issued == s.log.issued && t.log.sends == s.log.sends
    ensures Stopping(s.ctl) ==> Stopping(t.ctl)
  {
    hide IntText, ReadValue, Remaining;
  }

  /**
   * Nothing else stops it: a controller on its way out, or with `stop` set, has fetched -1, and has
   * fetched and sent no budget from that fetch on.
   */
  lemma {:induction false} StopWasFetched(p: Program, costs: Costs, tr: seq<State>, answers: seq<Answer>, k: nat)
    returns (i: nat)
    requires CommandedRun(p, costs, tr, answers) && IntCosts(costs) && k < |tr|
    requires tr[k].stop || Stopping(tr[k].ctl)
    ensures i < k && tr[i].ctl.Ack? && Fetch(answers[i]).advance == -1
    ensures forall j :: i < j <= k ==>
              Stopping(tr[j].ctl) && tr[j].log.issued == tr[i].log.issued && tr[j].log.sends == tr[i].log.sends
  {
    hide WorkerStep, CtlStep, Fetch, Inv;
    RunInv(p, costs, tr, k);
    StopMeansStopping(tr[k]);
    assert k > 0;
    var s, t := tr[k - 1], tr[k - 1 + 1];
    assert Step(p, costs, s, t);
    if CtlStep(s, t) {
      StopPath(s, t);
    } else {
      WorkerIssuesNothing(p, costs, s, t);
    }
    if s.ctl.Ack? {
      i := k - 1;
      FetchGives(answers[i]);
    } else {
      i := StopWasFetched(p, costs, tr, answers, k - 1);
    }
  }

  lemma StopMeansStopping(s: State)
    requires Inv(s)
    ensures s.stop ==> Stopping(s.ctl)
  {
    hide Books, AtRest, Leaving, ReadValue;
  }

  lemma FetchGives(answer: Answer)
    requires Readable(answer)
    ensures Fetch(answer).advance >= -1
  {
    if answer.Ok? {
      StopExactly(answer.command, 0, DEFAULT_ADVANCE);
    }
  }
}
