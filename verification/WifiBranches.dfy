/**
 Two branches of the service loop under any interleaving: what a failed attempt leaves behind, and
 what a ping test that finds no link does.
 */
module WifiBranches {
  import opened Bytes
  import opened WifiConfig
  import opened WifiProtocol
  import opened WifiSafety
  import opened WifiCredentials
  import opened WifiProgress

  /** Flash is as it was, but for the namespace a registration may have created. */
  predicate FlashKept(before: Nvs, after: Nvs) {
    after == before || (before.NoNamespace? && after.NoCredentials?)
  }

  /** A task waiting at the head is left there or starts its next iteration. */
  lemma EventAtHead(s: State, e: Event)
    requires !e.Task? && s.task.pc == Blocked(HeadWait)
    ensures Step(s, e).task == s.task || Step(s, e).task.iterations == s.task.iterations + 1
  {
    match e
    case PingTimeout =>
    case ApClientLeft =>
    case GotIp =>
    case LinkLost(_) =>
    case PingReply(_) =>
    case PostWrite(_) =>
    case PostClear =>
    case RegistrationSaved =>
    case _ =>
  }

  /** An event writes no config but a POST's, and reports no outcome. */
  lemma EventLeavesConfigs(s: State, e: Event)
    requires !e.Task? && !e.PostWrite?
    ensures var t := Step(s, e);
            && t.ram == s.ram && FlashKept(s.nvs, t.nvs)
            && (t.status == s.status || t.status == Cleared)
  {
  }

  /** With the driver idle the link stays down, and a request for a connection stays set. */
  lemma EventWhileIdle(s: State, e: Event)
    requires !e.Task? && s.driver.Idle?
    ensures var t := Step(s, e);
            && t.driver.Idle?
            && (s.bits.staDisconnect ==> t.bits.staDisconnect)
            && (s.bits.reqConnect ==> t.bits.reqConnect)
  {
  }

  function CountTasks(es: seq<Event>): (n: nat) {
    if es == [] then 0 else (if es[0].Task? then 1 else 0) + CountTasks(es[1..])
  }

  // ------------------------------------------------------------------------
  // The failed attempt
  // ------------------------------------------------------------------------

  /** Statements executed since the judgement; 8 elsewhere. */
  function FailStage(pc: Pc): (n: nat)
    ensures n <= 8
  {
    match pc
    case Outcome(o) =>
      (match o
       case Judge => 0
       case FailPublish => 1
       case FailErase => 2
       case FailMarkLost => 3
       case ConnectRelease => 4
       case _ => 8)
    case Head(h) => if h.LoopEnd? then 5 else 8
    case Call(w) => if w.HeadWait? then 6 else 8
    case Blocked(w) => if w.HeadWait? then 7 else 8
    case _ => 8
  }

  /**
   A failed attempt with config c, up to the next return of head wait n: flash is kept; RAM is c until
   it is erased and zero from then on; once published, the status is the failure of c or cleared.
   */
  ghost predicate Failing(s: State, c: Config, flash: Nvs, n: nat) {
    var stage := FailStage(s.task.pc);
    && stage < 8 && s.task.iterations == n
    && s.driver.Idle?
    && (stage == 0 ==> !s.task.ux.connected)
    && FlashKept(flash, s.nvs)
    && s.ram == (if stage <= 2 then c else ZERO_CONFIG)
    && (stage >= 2 ==> s.status == Report(PrintedName(c), UPDATE_FAILED_ATTEMPT) || s.status == Cleared)
    && (stage >= 4 ==> s.bits.staDisconnect)
  }

  /** Failing after at least k statements, or past the head wait. */
  ghost predicate FailingUntil(s: State, c: Config, flash: Nvs, n: nat, k: nat) {
    s.task.iterations > n || (Failing(s, c, flash, n) && FailStage(s.task.pc) >= Min(k, 6))
  }

  lemma FailingOutcome(s: State, o: OutcomePc, c: Config, flash: Nvs, n: nat)
    requires Inv(s) && Failing(s, c, flash, n) && s.task.pc == Outcome(o)
    ensures var t := OutcomeStep(s, o); Failing(t, c, flash, n) && FailStage(t.task.pc) == FailStage(s.task.pc) + 1
  {
  }

  lemma FailingLoopEnd(s: State, c: Config, flash: Nvs, n: nat)
    requires Failing(s, c, flash, n) && s.task.pc == Head(LoopEnd)
    ensures var t := HeadStep(s, LoopEnd); Failing(t, c, flash, n) && FailStage(t.task.pc) == 6
  {
  }

  lemma FailingAtCall(s: State, c: Config, flash: Nvs, n: nat)
    requires Failing(s, c, flash, n) && s.task.pc == Call(HeadWait)
    ensures var t := s.(task := Await(s.task, HeadWait, s.bits)); FailingUntil(t, c, flash, n, 6)
  {
  }

  lemma FailingTask(s: State, c: Config, flash: Nvs, n: nat)
    requires Inv(s) && Failing(s, c, flash, n)
    ensures FailingUntil(TaskStep(s), c, flash, n, FailStage(s.task.pc) + 1)
  {
    match s.task.pc
    case Outcome(o) => FailingOutcome(s, o, c, flash, n);
    case Head(_) => FailingLoopEnd(s, c, flash, n);
    case Call(_) => FailingAtCall(s, c, flash, n);
    case Blocked(_) =>
  }

  lemma FailingEvent(s: State, e: Event, c: Config, flash: Nvs, n: nat)
    requires Failing(s, c, flash, n) && !e.PostWrite? && !e.Task?
    ensures FailingUntil(Step(s, e), c, flash, n, FailStage(s.task.pc))
  {
    EventLeavesConfigs(s, e);
    EventWhileIdle(s, e);
    if s.task.pc.Blocked? {
      EventAtHead(s, e);
    } else {
      EventLeavesTask(s, e);
    }
  }

  lemma FailingStep(s: State, e: Event, c: Config, flash: Nvs, n: nat, k: nat)
    requires Inv(s) && FailingUntil(s, c, flash, n, k) && !e.PostWrite?
    ensures FailingUntil(Step(s, e), c, flash, n, k + (if e.Task? then 1 else 0))
  {
    if s.task.iterations > n {
      StepGrows(s, e);
    } else if e.Task? {
      FailingTask(s, c, flash, n);
    } else {
      FailingEvent(s, e, c, flash, n);
    }
  }

  lemma {:induction false} FailingRun(s: State, es: seq<Event>, c: Config, flash: Nvs, n: nat, k: nat)
    requires Inv(s) && FailingUntil(s, c, flash, n, k) && NoPost(es)
    ensures FailingUntil(Run(s, es), c, flash, n, k + CountTasks(es))
    decreases |es|
  {
    if es != [] {
      FailingStep(s, es[0], c, flash, n, k);
      StepKeepsInv(s, es[0]);
      FailingRun(Step(s, es[0]), es[1..], c, flash, n, k + if es[0].Task? then 1 else 0);
    }
  }

  /**
   From the judgement that an attempt has failed until the head wait next returns, whatever happens
   in between: every statement of the task brings the branch closer to its end, five of them end it;
   and the statement that publishes the outcome names the network that was tried.
   */
  lemma {:induction false} FailedAttempt(s: State, es: seq<Event>)
    requires Inv(s) && s.task.pc == Outcome(Judge) && !s.task.ux.connected && NoPost(es)
    ensures var t := Run(s, es);
            t.task.iterations > s.task.iterations ||
            (&& Failing(t, s.ram, s.nvs, s.task.iterations)
             && FailStage(t.task.pc) >= Min(CountTasks(es), 6)
             && (t.task.pc == Outcome(FailPublish) ==>
                   Step(t, Task).status == Report(PrintedName(s.ram), UPDATE_FAILED_ATTEMPT)))
  {
    FailingRun(s, es, s.ram, s.nvs, s.task.iterations, 0);
  }

  // ------------------------------------------------------------------------
  // The ping test without a link
  // ------------------------------------------------------------------------

  /** Statements of the branch passed; 10 elsewhere. */
  function ReloadStage(pc: Pc): (n: nat)
    ensures n <= 10
  {
    match pc
    case Check(c, caller) =>
      if caller.FromConnect? then 10
      else if c.LinkQuery? then 0
      else if c == Result(ERR_WIFI_DISCONECTED) then 1
      else 10
    case Ping(p) =>
      (match p
       case FetchConfig => 2
       case SsidTest => 3
       case ClearStatus => 4
       case RequestConnect => 5
       case PingRelease => 6)
    case Head(h) => if h.LoopEnd? then 7 else 10
    case Call(w) => if w.HeadWait? then 8 else 10
    case Blocked(w) => if w.HeadWait? then 9 else 10
    case _ => 10
  }

  /** RAM is what flash holds; only where there is no namespace to read, RAM may be kept as it was. */
  predicate Reloaded(now: Config, ram: Config, flash: Nvs) {
    match flash
    case Stored(c) => now == c
    case NoCredentials => now == ZERO_CONFIG
    case NoNamespace => now == ram || now == ZERO_CONFIG
  }

  /**
   A ping test that found no link, up to the next return of head wait n: flash is kept and is read
   into RAM; exactly when the SSID read is not empty the status is cleared and a connection requested.
   */
  ghost predicate Reloading(s: State, ram: Config, flash: Nvs, n: nat) {
    var stage := ReloadStage(s.task.pc);
    && stage < 10 && s.task.iterations == n
    && s.driver.Idle?
    && FlashKept(flash, s.nvs)
    && (if stage <= 2 then s.ram == ram else Reloaded(s.ram, ram, flash))
    && (s.nvs.NoNamespace? ==> s.ram == ram)
    && (stage == 5 || (stage == 6 && HasSsid(s.ram)) ==> s.status == Cleared)
    && (stage == 4 || stage == 5 ==> HasSsid(s.ram))
    && (stage >= 6 && HasSsid(s.ram) ==> s.bits.reqConnect)
  }

  /** Reloading after at least k statements, or past the head wait. */
  ghost predicate ReloadingUntil(s: State, ram: Config, flash: Nvs, n: nat, k: nat) {
    s.task.iterations > n || (Reloading(s, ram, flash, n) && ReloadStage(s.task.pc) >= Min(k, 8))
  }

  lemma ReloadingCheck(s: State, c: CheckPc, ram: Config, flash: Nvs, n: nat)
    requires Inv(s) && Reloading(s, ram, flash, n) && s.task.pc == Check(c, FromPing)
    ensures var t := CheckStep(s, c, FromPing);
            Reloading(t, ram, flash, n) && ReloadStage(t.task.pc) == ReloadStage(s.task.pc) + 1
  {
  }

  lemma ReloadingPing(s: State, p: PingPc, ram: Config, flash: Nvs, n: nat)
    requires Reloading(s, ram, flash, n) && s.task.pc == Ping(p)
    ensures var t := PingStep(s, p);
            Reloading(t, ram, flash, n) && ReloadStage(t.task.pc) >= ReloadStage(s.task.pc) + 1
  {
  }

  lemma ReloadingLoopEnd(s: State, ram: Config, flash: Nvs, n: nat)
    requires Reloading(s, ram, flash, n) && s.task.pc == Head(LoopEnd)
    ensures var t := HeadStep(s, LoopEnd); Reloading(t, ram, flash, n) && ReloadStage(t.task.pc) == 8
  {
  }

  lemma ReloadingAtCall(s: State, ram: Config, flash: Nvs, n: nat)
    requires Reloading(s, ram, flash, n) && s.task.pc == Call(HeadWait)
    ensures var t := s.(task := Await(s.task, HeadWait, s.bits)); ReloadingUntil(t, ram, flash, n, 8)
  {
  }

  lemma ReloadingTask(s: State, ram: Config, flash: Nvs, n: nat)
    requires Inv(s) && Reloading(s, ram, flash, n)
    ensures ReloadingUntil(TaskStep(s), ram, flash, n, ReloadStage(s.task.pc) + 1)
  {
    match s.task.pc
    case Check(c, caller) => ReloadingCheck(s, c, ram, flash, n);
    case Ping(p) => ReloadingPing(s, p, ram, flash, n);
    case Head(_) => ReloadingLoopEnd(s, ram, flash, n);
    case Call(_) => ReloadingAtCall(s, ram, flash, n);
    case Blocked(_) =>
  }

  lemma ReloadingEvent(s: State, e: Event, ram: Config, flash: Nvs, n: nat)
    requires Reloading(s, ram, flash, n) && !e.PostWrite? && !e.Task?
    ensures ReloadingUntil(Step(s, e), ram, flash, n, ReloadStage(s.task.pc))
  {
    EventLeavesConfigs(s, e);
    EventWhileIdle(s, e);
    if s.task.pc.Blocked? {
      EventAtHead(s, e);
    } else {
      EventLeavesTask(s, e);
    }
  }

  lemma ReloadingStep(s: State, e: Event, ram: Config, flash: Nvs, n: nat, k: nat)
    requires Inv(s) && ReloadingUntil(s, ram, flash, n, k) && !e.PostWrite?
    ensures ReloadingUntil(Step(s, e), ram, flash, n, k + (if e.Task? then 1 else 0))
  {
    if s.task.iterations > n {
      StepGrows(s, e);
    } else if e.Task? {
      ReloadingTask(s, ram, flash, n);
    } else {
      ReloadingEvent(s, e, ram, flash, n);
    }
  }

  lemma {:induction false} ReloadingRun(s: State, es: seq<Event>, ram: Config, flash: Nvs, n: nat, k: nat)
    requires Inv(s) && ReloadingUntil(s, ram, flash, n, k) && NoPost(es)
    ensures ReloadingUntil(Run(s, es), ram, flash, n, k + CountTasks(es))
    decreases |es|
  {
    if es != [] {
      ReloadingStep(s, es[0], ram, flash, n, k);
      StepKeepsInv(s, es[0]);
      ReloadingRun(Step(s, es[0]), es[1..], ram, flash, n, k + if es[0].Task? then 1 else 0);
    }
  }

  /**
   From the link query of a ping test that finds the link down until the head wait next returns,
   whatever happens in between: at the test of the SSID, RAM is what flash holds, and the test leads
   to the request for a connection if and only if that SSID is not empty.
   */
  lemma {:induction false} PingTestReloads(s: State, es: seq<Event>)
    requires Inv(s) && s.task.pc == Check(LinkQuery, FromPing) && !s.bits.connected && NoPost(es)
    ensures var t := Run(s, es);
            t.task.iterations > s.task.iterations ||
            (&& Reloading(t, s.ram, s.nvs, s.task.iterations)
             && ReloadStage(t.task.pc) >= Min(CountTasks(es), 8)
             && (t.task.pc == Ping(SsidTest) ==>
                   Step(t, Task).task.pc == Ping(if HasSsid(t.ram) then ClearStatus else PingRelease))
             && (t.task.pc == Ping(RequestConnect) ==> Step(t, Task).bits.reqConnect))
  {
    ReloadingRun(s, es, s.ram, s.nvs, s.task.iterations, 0);
  }

  // ------------------------------------------------------------------------
  // The forget branch
  // ------------------------------------------------------------------------

  /** Statements of the branch passed; 10 elsewhere. */
  function ForgetStage(pc: Pc): (n: nat)
    ensures n <= 10
  {
    match pc
    case Forget(f) =>
      (match f
       case DropInternet => 0
       case ConnectedTest => 1
       case ClearLost => 2
       case Disconnect => 3
       case ClearLostAgain => 5
       case Erase => 6
       case Save => 7
       case Publish => 8
       case Release => 9)
    case Call(w) => if w.ForgetWait? then 4 else 10
    case Blocked(w) => if w.ForgetWait? then 4 else 10
    case _ => 10
  }

  ghost predicate Offline(b: Bits) {
    !b.haveInternet
  }

  /**
   A forget branch with no ping answered, until it is left: from its first statement on there is no
   internet bit; both copies are zero once saved; once published, the status has the empty name and
   code 2, or is cleared.
   */
  ghost predicate ForgettingBranch(s: State) {
    var stage := ForgetStage(s.task.pc);
    && stage < 10
    && (stage > 0 ==> Offline(s.bits))
    && (stage >= 7 ==> s.ram == Config([], []))
    && (stage >= 8 ==> s.nvs == Stored(Config([], [])))
    && (stage >= 9 ==> s.status == Report([], 2) || s.status == Cleared)
  }

  lemma ForgettingBranchTask(s: State, f: ForgetPc)
    requires ForgettingBranch(s) && s.task.pc == Forget(f)
    ensures ForgettingBranch(ForgetStep(s, f)) || (f.Release? && ForgetStep(s, f).task.pc == Head(Dispatch))
  {
  }

  /** No event that is no ping answer and no POST sets the internet bit, writes a copy or reports. */
  lemma EventInForget(s: State, e: Event)
    requires ForgettingBranch(s) && !e.Task? && !e.PostWrite? && e != PingReply(true)
    ensures ForgettingBranch(Step(s, e))
  {
    EventLeavesConfigs(s, e);
    if Offline(s.bits) { EventLeavesInternet(s, e); }
    if s.nvs.Stored? { EventLeavesNvs(s, e); }
    if s.task.pc.Blocked? {
      ForgetWaitEvent(s, e);
    } else {
      EventLeavesTask(s, e);
    }
  }

  lemma EventLeavesNvs(s: State, e: Event)
    requires !e.Task? && s.nvs.Stored?
    ensures Step(s, e).nvs == s.nvs
  {
  }

  lemma EventLeavesInternet(s: State, e: Event)
    requires !e.Task? && e != PingReply(true) && Offline(s.bits)
    ensures Offline(Step(s, e).bits)
  {
  }

  lemma ForgetWaitEvent(s: State, e: Event)
    requires !e.Task? && s.task.pc == Blocked(ForgetWait)
    ensures var t := Step(s, e).task; t.pc == s.task.pc || t.pc == Forget(ClearLostAgain)
  {
  }

  /** The run has left the forget branch. */
  ghost predicate LeavesForget(s: State, es: seq<Event>)
    decreases |es|
  {
    es != [] && ((es[0].Task? && s.task.pc == Forget(Release)) || LeavesForget(Step(s, es[0]), es[1..]))
  }

  /**
   A forget branch in every run without a POST and without an answered ping, until it is left: it drops the
   internet bit at once, and what it publishes is the empty name with code 2.
   */
  lemma {:induction false} ForgetPublishes(s: State, es: seq<Event>)
    requires ForgettingBranch(s) && NoPost(es) && forall i :: 0 <= i < |es| ==> es[i] != PingReply(true)
    ensures LeavesForget(s, es) ||
            (&& ForgettingBranch(Run(s, es))
             && (Run(s, es).task.pc == Forget(Publish) ==> Step(Run(s, es), Task).status == Report([], 2)))
    decreases |es|
  {
    if es != [] && !(es[0].Task? && s.task.pc == Forget(Release)) {
      if es[0].Task? {
        match s.task.pc
        case Forget(f) => ForgettingBranchTask(s, f);
        case Call(_) =>
        case Blocked(_) =>
      } else {
        EventInForget(s, es[0]);
      }
      ForgetPublishes(Step(s, es[0]), es[1..]);
    }
  }
}
