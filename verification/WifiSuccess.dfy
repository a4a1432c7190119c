/** What a successful attempt leaves behind, under any interleaving. */
module WifiSuccess {
  import opened WifiConfig
  import opened WifiProtocol
  import opened WifiProgress
  import opened WifiSafety
  import opened WifiCredentials
  import opened WifiBranches

  /** How far the branch has come since the judgement: 1 published, 2 saved, 3 released; 9 elsewhere. */
  function SuccessStage(pc: Pc): nat {
    match pc
    case Outcome(o) =>
      (match o
       case Judge => 0
       case OkPublish => 0
       case OkSave => 1
       case ConnectRelease => 2
       case _ => 9)
    case Check(_, caller) => if caller.FromConnect? then 2 else 9
    case Head(h) => if h.LoopEnd? then 3 else 9
    case Call(w) => if w == PingWait(FromConnect) then 2 else if w.HeadWait? then 3 else 9
    case Blocked(w) => if w == PingWait(FromConnect) then 2 else if w.HeadWait? then 3 else 9
    case _ => 9
  }

  /** A successful attempt with config c, up to the next return of head wait n. */
  ghost predicate Succeeding(s: State, c: Config, n: nat) {
    var stage := SuccessStage(s.task.pc);
    && stage < 9 && s.task.iterations == n && s.ram == c
    && (s.task.pc == Outcome(Judge) ==> s.task.ux.connected)
    && (stage >= 1 ==> s.status == Report(PrintedName(c), 0) || s.status == Cleared)
    && (stage >= 2 ==> s.nvs == Stored(c))
  }

  ghost predicate SucceedingUntil(s: State, c: Config, n: nat) {
    s.task.iterations > n || Succeeding(s, c, n)
  }

  lemma SucceedingTask(s: State, c: Config, n: nat)
    requires Succeeding(s, c, n)
    ensures SucceedingUntil(TaskStep(s), c, n)
  {
    match s.task.pc
    case Outcome(o) => SucceedingOutcome(s, o, c, n);
    case Check(k, _) => SucceedingCheck(s, k, c, n);
    case Head(_) =>
    case Call(_) =>
    case Blocked(_) =>
  }

  lemma SucceedingOutcome(s: State, o: OutcomePc, c: Config, n: nat)
    requires Succeeding(s, c, n) && s.task.pc == Outcome(o)
    ensures Succeeding(OutcomeStep(s, o), c, n)
  {
  }

  lemma SucceedingCheck(s: State, k: CheckPc, c: Config, n: nat)
    requires Succeeding(s, c, n) && s.task.pc == Check(k, FromConnect)
    ensures Succeeding(CheckStep(s, k, FromConnect), c, n)
  {
  }

  /** An event does not take the task out of a wait for a ping, but back into its check. */
  lemma EventInPingWait(s: State, e: Event)
    requires s.task.pc == Blocked(PingWait(FromConnect)) && !e.Task?
    ensures var t := Step(s, e).task;
            t.iterations == s.task.iterations && (t.pc == s.task.pc || (t.pc.Check? && SuccessStage(t.pc) == 2))
  {
    match e
    case PingTimeout =>
    case ApClientLeft =>
    case GotIp =>
    case LinkLost(_) =>
    case PingReply(_) =>
    case PostWrite(_) =>
    case PostClear =>
    case RegistrationSaved =>
    case _ =>
  }

  lemma SucceedingEvent(s: State, e: Event, c: Config, n: nat)
    requires Succeeding(s, c, n) && !e.PostWrite? && !e.Task?
    ensures SucceedingUntil(Step(s, e), c, n)
  {
    EventLeavesConfigs(s, e);
    if s.task.pc == Blocked(HeadWait) {
      EventAtHead(s, e);
    } else if s.task.pc.Blocked? {
      EventInPingWait(s, e);
    } else {
      EventLeavesTask(s, e);
    }
  }

  lemma {:induction false} SucceedingRun(s: State, es: seq<Event>, c: Config, n: nat)
    requires SucceedingUntil(s, c, n) && NoPost(es)
    ensures SucceedingUntil(Run(s, es), c, n)
    decreases |es|
  {
    if es != [] {
      if s.task.iterations > n {
        StepGrows(s, es[0]);
      } else if es[0].Task? {
        SucceedingTask(s, c, n);
      } else {
        SucceedingEvent(s, es[0], c, n);
      }
      SucceedingRun(Step(s, es[0]), es[1..], c, n);
    }
  }

  /**
   From the judgement that an attempt succeeded until the head wait next returns, in every run without a
   POST: RAM is kept, the statement that publishes reports it with code 0, the save stores it, and from
   then on flash holds it.
   */
  lemma {:induction false} SuccessfulAttempt(s: State, es: seq<Event>)
    requires s.task.pc == Outcome(Judge) && s.task.ux.connected && NoPost(es)
    ensures var t := Run(s, es);
            t.task.iterations > s.task.iterations ||
            (&& Succeeding(t, s.ram, s.task.iterations)
             && (t.task.pc == Outcome(OkPublish) ==> Step(t, Task).status == Report(PrintedName(s.ram), 0))
             && (t.task.pc == Outcome(OkSave) ==> Step(t, Task).nvs == Stored(s.ram)))
  {
    SucceedingRun(s, es, s.ram, s.task.iterations);
  }
}
