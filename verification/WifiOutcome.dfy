/** The status document after a POST: nothing until the outcome, then the outcome of that POST. */
module WifiOutcome {
  import opened WifiConfig
  import opened WifiProtocol
  import opened WifiSafety
  import opened WifiCredentials
  import opened WifiRuns

  /** The task is on its way from the request to the outcome of the attempt with this config. */
  predicate OnAttempt(t: TaskState) {
    match t.pc
    case Call(w) => w.ReconnectWait? || w.OutcomeWait?
    case Blocked(w) => w.ReconnectWait? || w.OutcomeWait?
    case Head(h) =>
      || (h.ForgetTest? && t.ux.reqConnect && !t.ux.reqDisconnect)
      || (h.Dispatch? && t.ux.reqConnect)
    case Forget(f) => f.Release? && t.ux.reqConnect
    case Attempt(_) => true
    case Outcome(o) =>
      || o.Judge?
      || (o.OkPublish? && t.ux.connected)
      || (o.FailPublish? && !t.ux.connected)
    case _ => false
  }

  /** The driver has been given its config. */
  predicate ConfigGiven(pc: Pc) {
    match pc
    case Call(w) => w.OutcomeWait?
    case Blocked(w) => w.OutcomeWait?
    case Attempt(a) => a.Start?
    case Outcome(_) => true
    case _ => false
  }

  ghost predicate Attempting(s: State, c: Config) {
    && OnAttempt(s.task)
    && s.ram == c
    && (ConfigGiven(s.task.pc) ==> s.driverConfig == c)
    && s.status == Cleared
  }

  /** The step from s to t publishes the outcome of the attempt with c. */
  ghost predicate Published(s: State, t: State, c: Config) {
    && t.status == Report(PrintedName(c), if s.task.ux.connected then UPDATE_CONNECTION_OK else UPDATE_FAILED_ATTEMPT)
    && s.task.pc == Outcome(if s.task.ux.connected then OkPublish else FailPublish)
    && s.driverConfig == c
    && (if s.task.ux.connected then c in s.reached else s.driver.Idle?)
  }

  /** The first document other than `{}` in the run, if any, reports the outcome for c. */
  ghost predicate FirstReportIs(s: State, es: seq<Event>, c: Config)
    decreases |es|
  {
    && s.status == Cleared
    && (es == [] ||
        var t := Step(s, es[0]);
        if t.status == Cleared then FirstReportIs(t, es[1..], c) else Published(s, t, c))
  }

  lemma AttemptingBeforeOutcome(s: State, c: Config)
    requires Attempting(s, c) && !s.task.pc.Outcome?
    ensures Attempting(TaskStep(s), c)
  {
    match s.task.pc
    case Call(_) =>
    case Blocked(_) =>
    case Head(_) =>
    case Forget(_) =>
    case Attempt(_) =>
  }

  lemma AttemptingAtOutcome(s: State, c: Config)
    requires Inv(s) && Attempting(s, c) && s.task.pc.Outcome?
    ensures if s.task.pc.outcome.Judge? then Attempting(TaskStep(s), c) else Published(s, TaskStep(s), c)
  {
  }

  lemma WakeOnAttempt(t: TaskState, b: Bits)
    requires OnAttempt(t)
    ensures OnAttempt(Wake(t, b)) && ConfigGiven(Wake(t, b).pc) == ConfigGiven(t.pc)
  {
  }

  /** The event handlers may release the task from a wait; they leave the configs alone. */
  lemma AttemptingDuringEvent(s: State, e: Event, c: Config)
    requires Attempting(s, c) && !e.PostWrite? && !e.Task?
    ensures Attempting(Step(s, e), c)
  {
    match e
    case PingTimeout =>
    case ApClientLeft =>
    case GotIp => WakeOnAttempt(s.task, s.bits.(connected := true));
    case LinkLost(_) =>
      var asked := s.bits.(reqConnect := true);
      WakeOnAttempt(s.task, asked);
      WakeOnAttempt(s.task, s.bits.(staDisconnect := true));
      WakeOnAttempt(Wake(s.task, asked), asked.(staDisconnect := true));
    case PingReply(received) =>
      WakeOnAttempt(s.task, s.bits.(haveInternet := true));
      WakeOnAttempt(s.task, s.bits.(reqConnect := true));
    case PostClear =>
    case RegistrationSaved =>
    case _ => WakeOnAttempt(s.task, BitSetBy(s.bits, e));
  }

  lemma AttemptingStep(s: State, e: Event, c: Config)
    requires Inv(s) && Attempting(s, c) && !e.PostWrite?
    ensures Attempting(Step(s, e), c) || Published(s, Step(s, e), c)
  {
    if !e.Task? {
      AttemptingDuringEvent(s, e, c);
    } else if s.task.pc.Outcome? {
      AttemptingAtOutcome(s, c);
    } else {
      AttemptingBeforeOutcome(s, c);
    }
  }

  lemma {:induction false} AttemptingRun(s: State, es: seq<Event>, c: Config)
    requires Inv(s) && Attempting(s, c) && NoPost(es)
    ensures FirstReportIs(s, es, c)
    decreases |es|
  {
    if es != [] {
      AttemptingStep(s, es[0], c);
      StepKeepsInv(s, es[0]);
      if Attempting(Step(s, es[0]), c) {
        AttemptingRun(Step(s, es[0]), es[1..], c);
      }
    }
  }

  /** The state after a POST: RAM and the status are overwritten, and a task at the head wait is released. */
  lemma PostEffect(s: State, c: Config)
    requires s.http.HttpIdle?
    ensures var b := s.bits.(reqConnect := true);
            Run(s, [PostWrite(c), PostClear, PostRequest])
            == s.(ram := c, status := Cleared, bits := b, task := Wake(s.task, b))
  {
    RunThree(s, PostWrite(c), PostClear, PostRequest);
    var written := s.(ram := c, http := HttpWrote);
    assert Step(s, PostWrite(c)) == written;
    assert Step(written, PostClear) == written.(status := Cleared, http := HttpCleared);
  }

  lemma AfterPost(s: State, c: Config) returns (t: State)
    requires Inv(s) && s.http.HttpIdle?
    ensures t == Run(s, [PostWrite(c), PostClear, PostRequest]) && Inv(t)
    ensures var b := s.bits.(reqConnect := true);
            t == s.(ram := c, status := Cleared, bits := b, task := Wake(s.task, b))
  {
    PostEffect(s, c);
    RunKeepsInv(s, [PostWrite(c), PostClear, PostRequest]);
    t := Run(s, [PostWrite(c), PostClear, PostRequest]);
  }

  /**
   A POST handled while the task waits at the loop head: until the next POST the status document
   stays `{}` up to the outcome, and the outcome carries the name printed for the posted config, which
   the driver was given. Code 0 is published exactly when the outcome wait returned with the connected
   bit, and then the driver did obtain an address with that config; code 1 finds the driver idle.
   */
  lemma {:induction false} NoFalseOutcome(s: State, c: Config, es: seq<Event>)
    requires Inv(s) && s.task.pc == Blocked(HeadWait) && s.http.HttpIdle? && NoPost(es)
    ensures FirstReportIs(Run(s, [PostWrite(c), PostClear, PostRequest]), es, c)
  {
    var t := AfterPost(s, c);
    AttemptingRun(t, es, c);
  }
}
