/** Single steps of the round protocol, to build runs from. */
module RunSteps {
  import opened Decimal
  import opened RoundProtocol

  // ----- a budget goes out

  /** The controller has fetched budget `b`, and is about to look at is_blocked. */
  function Fetched(s: State, b: nat): State {
    s.(ctl := Check(b), log := s.log.(told := s.log.told + s.ret, issued := s.log.issued + b))
  }

  /** A blocked worker wakes up. */
  function Awake(s: State): State {
    if s.worker.Asleep? then s.(worker := BlockRead(s.worker.pc), blocked := false) else s
  }

  /** The controller waits on budget `b`, which it sent from `s`. */
  function Waits(s: State, b: nat): State {
    s.(ctl := Await(b), toWorker := s.toWorker + IntText(b), log := s.log.(sends := s.log.sends + 1))
  }

  lemma FetchingStep(s: State, b: nat)
    requires s.ctl.Ack? && b < TWO31
    ensures CtlStep(s, Fetched(s, b))
  {
  }

  lemma WakingStep(p: Program, costs: Costs, s: State)
    requires s.worker.Asleep?
    ensures WorkerStep(p, costs, s, Awake(s))
  {
  }

  lemma SendingSteps(t: State, b: nat)
    requires t.ctl == Check(b) && !t.blocked
    ensures CtlStep(t, t.(ctl := Send(b))) && CtlStep(t.(ctl := Send(b)), Waits(t, b)) && Waits(t, b).ctl.Await?
  {
    hide IntText;
  }

  // ----- the worker's program

  /** A run goes on along an edge of the worker's program. */
  lemma AlongEdge(p: Program, costs: Costs, s: State, e: Edge)
    requires e in p && s.worker == Run(e.src)
    ensures Step(p, costs, s, Perform(costs, s, e))
  {
    hide CtlStep, Perform;
  }

  /** A worker about to block writes its notice, and the controller takes it. */
  function Noticed(s: State): State
    requires s.worker.BlockSend?
  {
    s.(worker := Asleep(s.worker.pc), toMain := s.toMain + IntText(THREAD_BLOCKED))
  }

  lemma NoticeSteps(p: Program, costs: Costs, s: State, b: nat)
    requires s.ctl == Await(b) && s.worker.BlockSend? && s.toMain == ""
    ensures var t := Noticed(s); var u := Receive(t, b, THREAD_BLOCKED);
            && WorkerStep(p, costs, s, t) && CtlStep(t, u)
            && u.ctl.Ack? && u.worker == Asleep(s.worker.pc) && u.toMain == "" && u.toWorker == s.toWorker
            && u.blocked == s.blocked && u.stop == s.stop && u.log == s.log
  {
    assert Noticed(s).toMain == IntText(THREAD_BLOCKED);
    ReadWhatWasSent(THREAD_BLOCKED);
    hide IntText, ReadValue, Remaining;
  }

  /** The worker takes a positive budget and goes on. */
  lemma TakingStep(p: Program, costs: Costs, s: State, b: nat)
    requires Reading(s.worker) && s.toWorker == IntText(b) && b < TWO31 && (b > 0 || s.worker.FirstRead?)
    ensures var t := TakeBudget(s).(worker := if s.worker.FirstRead? then Run(0) else AfterStub(s.worker.pc));
            WorkerStep(p, costs, s, t) && t.left == b && t.toWorker == ""
  {
    ReadWhatWasSent(b);
    hide IntText, ReadValue, Remaining;
  }

  lemma GoingOnStep(p: Program, costs: Costs, s: State)
    requires s.worker.AfterStub? && !s.stop
    ensures WorkerStep(p, costs, s, s.(worker := Run(s.worker.pc)))
  {
  }

  // ----- stopping

  function StopFetched(s: State): State {
    s.(ctl := SetStop, log := s.log.(told := s.log.told + s.ret))
  }

  function StopSet(s: State): State {
    s.(ctl := SendExit, stop := true)
  }

  function ExitSent(s: State): State {
    s.(ctl := Joining, toWorker := s.toWorker + IntText(THREAD_EXITING))
  }

  lemma StoppingSteps(s: State)
    requires s.ctl.Ack?
    ensures var t := StopFetched(s); var u := StopSet(t);
            CtlStep(s, t) && CtlStep(t, u) && CtlStep(u, ExitSent(u))
  {
    hide IntText;
  }

  /** Whatever it is waiting for, a worker that reads THREAD_EXITING leaves. */
  lemma LeavingStep(p: Program, costs: Costs, s: State)
    requires Reading(s.worker) && s.toWorker == IntText(THREAD_EXITING)
    ensures var t := TakeBudget(s).(worker := Finished);
            WorkerStep(p, costs, s, t) && t.toWorker == ""
  {
    ReadWhatWasSent(THREAD_EXITING);
    hide IntText, ReadValue, Remaining;
  }
}
