/**
 Waits that can never return. The task acts on the snapshot its head wait returned with; where that
 says connected and the link is gone, it waits for a loss that has been reported already.
 */
module WifiStranded {
  import opened WifiConfig
  import opened WifiProtocol
  import opened WifiSafety
  import opened WifiRuns

  predicate AtDropWait(pc: Pc) {
    pc.Blocked? && (pc.wait.ForgetWait? || pc.wait.ReconnectWait?)
  }

  lemma StrandedStep(s: State, e: Event)
    requires Inv(s) && AtDropWait(s.task.pc) && s.driver.Idle?
    ensures Step(s, e).task == s.task && Step(s, e).driver.Idle?
  {
  }

  lemma {:induction false} StrandedForever(s: State, es: seq<Event>)
    requires Inv(s) && AtDropWait(s.task.pc) && s.driver.Idle?
    ensures Run(s, es).task == s.task && Run(s, es).driver.Idle?
    decreases |es|
  {
    if es != [] {
      StrandedStep(s, es[0]);
      StepKeepsInv(s, es[0]);
      StrandedForever(Step(s, es[0]), es[1..]);
    }
  }

  /** A wait for the link to drop can return if and only if the link is still up. */
  lemma {:induction false} DropWaitReturnsIffUp(s: State)
    requires Inv(s) && AtDropWait(s.task.pc)
    ensures (exists es :: Run(s, es).task.pc != s.task.pc) <==> s.driver.Up?
  {
    if s.driver.Up? {
      var es := [LinkLost(AssocLeave)];
      assert Run(s, es) == Run(Step(s, es[0]), []);
      assert Run(s, es).task.pc != s.task.pc;
    } else {
      forall es ensures Run(s, es).task.pc == s.task.pc {
        StrandedForever(s, es);
      }
    }
  }

  // ------------------------------------------------------------------------
  // Iterations that never connect
  // ------------------------------------------------------------------------

  /**
   The snapshot says connected and asks for a connection, and the task is bound for the wait of the
   connect branch with the driver idle, if necessary by way of the forget branch.
   */
  ghost predicate Doomed(s: State) {
    && s.task.ux.connected && s.task.ux.reqConnect
    && match s.task.pc
       case Call(w) => w.ForgetWait? || (w.ReconnectWait? && s.driver.Idle? && !s.bits.staDisconnect)
       case Blocked(w) => w.ForgetWait? || (w.ReconnectWait? && s.driver.Idle?)
       case Head(h) => (h.ForgetTest? && (s.task.ux.reqDisconnect || s.driver.Idle?)) || (h.Dispatch? && s.driver.Idle?)
       case Forget(_) => true
       case Attempt(a) =>
         s.driver.Idle? && (a.LinkTest? || a.DropLost? || (a.DropLink? && !s.bits.staDisconnect))
       case _ => false
  }

  lemma DoomedForget(s: State, f: ForgetPc)
    requires Inv(s) && Doomed(s) && s.task.pc == Forget(f)
    ensures Doomed(ForgetStep(s, f))
  {
  }

  lemma DoomedAttempt(s: State, a: AttemptPc)
    requires Doomed(s) && s.task.pc == Attempt(a)
    ensures Doomed(AttemptStep(s, a))
  {
  }

  lemma DoomedHead(s: State, h: HeadPc)
    requires Inv(s) && Doomed(s) && s.task.pc == Head(h)
    ensures Doomed(HeadStep(s, h))
  {
  }

  lemma DoomedAtCall(s: State, w: Wait)
    requires Doomed(s) && s.task.pc == Call(w)
    ensures Doomed(s.(task := Await(s.task, w, s.bits)))
  {
  }

  lemma DoomedTask(s: State)
    requires Inv(s) && Doomed(s)
    ensures Doomed(TaskStep(s))
  {
    match s.task.pc
    case Call(w) => DoomedAtCall(s, w);
    case Blocked(_) =>
    case Head(h) => DoomedHead(s, h);
    case Forget(f) => DoomedForget(s, f);
    case Attempt(a) => DoomedAttempt(s, a);
  }

  lemma StaysIdle(s: State, e: Event)
    requires s.driver.Idle? && !e.Task?
    ensures Step(s, e).driver.Idle?
  {
  }

  lemma DoomedTaskStaysIdle(s: State)
    requires Doomed(s) && s.driver.Idle?
    ensures TaskStep(s).driver.Idle?
  {
  }

  /** An event can end the wait of the forget branch; while the driver is idle, none can end the other. */
  lemma DoomedEvent(s: State, e: Event)
    requires Inv(s) && Doomed(s) && !e.Task?
    ensures Doomed(Step(s, e))
  {
    if s.driver.Idle? {
      IdleEventKeepsLoss(s, e);
    } else if s.task.pc.Blocked? {
      ForgetWaitEnds(s, e);
    } else {
      EventLeavesTask(s, e);
    }
  }

  /** With the driver idle, no event reports a loss or ends a wait for one. */
  lemma IdleEventKeepsLoss(s: State, e: Event)
    requires Inv(s) && !e.Task? && s.driver.Idle? && Doomed(s)
    ensures var t := Step(s, e);
            t.task == s.task && t.driver.Idle? && t.bits.staDisconnect == s.bits.staDisconnect
  {
  }

  lemma ForgetWaitEnds(s: State, e: Event)
    requires !e.Task? && s.task.pc == Blocked(ForgetWait)
    ensures var t := Step(s, e).task;
            t.ux == s.task.ux && (t.pc == s.task.pc || t.pc == Forget(ClearLostAgain))
  {
  }

  lemma DoomedStep(s: State, e: Event)
    requires Inv(s) && Doomed(s)
    ensures Doomed(Step(s, e))
    ensures s.driver.Idle? ==> Step(s, e).driver.Idle?
  {
    if e.Task? {
      DoomedTask(s);
      if s.driver.Idle? { DoomedTaskStaysIdle(s); }
    } else {
      DoomedEvent(s, e);
      if s.driver.Idle? { StaysIdle(s, e); }
    }
  }

  lemma {:induction false} DoomedForever(s: State, es: seq<Event>)
    requires Inv(s) && Doomed(s)
    ensures Inv(Run(s, es)) && Doomed(Run(s, es))
    ensures s.driver.Idle? ==> Run(s, es).driver.Idle?
    decreases |es|
  {
    if es != [] {
      DoomedStep(s, es[0]);
      StepKeepsInv(s, es[0]);
      DoomedForever(Step(s, es[0]), es[1..]);
    }
  }

  /** The task can come to this statement before its head wait returns again. */
  ghost predicate CanReach(s: State, pc: Pc) {
    exists es :: ComesTo(s, es, pc)
  }

  ghost predicate ComesTo(s: State, es: seq<Event>, pc: Pc) {
    Run(s, es).task.pc == pc && Run(s, es).task.iterations == s.task.iterations
  }

  /** es leads from s to this statement with the snapshot unchanged. */
  ghost predicate Leads(s: State, es: seq<Event>, pc: Pc) {
    var t := Run(s, es).task;
    t.pc == pc && t.ux == s.task.ux && t.iterations == s.task.iterations
  }

  lemma LeadsOn(s: State, es: seq<Event>, pc: Pc, fs: seq<Event>, pc': Pc)
    requires Leads(s, es, pc) && Leads(Run(s, es), fs, pc')
    ensures Leads(s, es + fs, pc')
  {
    RunAppend(s, es, fs);
  }

  lemma LeadsFirst(s: State, e: Event, es: seq<Event>, pc: Pc)
    requires Step(s, e).task.ux == s.task.ux && Step(s, e).task.iterations == s.task.iterations
    requires Leads(Step(s, e), es, pc)
    ensures Leads(s, [e] + es, pc)
  {
    RunFirst(s, e, es);
  }

  lemma LeadsNowhere(s: State)
    ensures Leads(s, [], s.task.pc)
  {
    RunNothing(s);
  }

  // ------------------------------------------------------------------------
  // Iterations that connect
  // ------------------------------------------------------------------------

  /** From a wait for the link to drop, while it is up. */
  lemma DropWaitLeads(s: State, w: Wait) returns (es: seq<Event>)
    requires Inv(s) && s.driver.Up? && s.task.pc == Call(w) && !s.bits.staDisconnect
    requires w == ForgetWait || w == ReconnectWait
    ensures Leads(s, es, if w == ForgetWait then Forget(ClearLostAgain) else Attempt(ResetLost))
  {
    var s1 := Step(s, Task);
    var s2 := Step(s1, LinkLost(AssocLeave));
    LeadsNowhere(s2);
    LeadsFirst(s1, LinkLost(AssocLeave), [], s2.task.pc);
    LeadsFirst(s, Task, [LinkLost(AssocLeave)] + [], s2.task.pc);
    es := [Task] + ([LinkLost(AssocLeave)] + []);
  }

  lemma ResetLeads(s: State) returns (es: seq<Event>)
    requires s.task.pc == Attempt(ResetLost)
    ensures Leads(s, es, Attempt(Start))
  {
    var s1 := Step(s, Task);
    LeadsNowhere(Step(s1, Task));
    LeadsFirst(s1, Task, [], Attempt(Start));
    LeadsFirst(s, Task, [Task] + [], Attempt(Start));
    es := [Task] + ([Task] + []);
  }

  lemma DropLeads(s: State) returns (es: seq<Event>)
    requires Inv(s) && s.driver.Up? && s.task.pc == Attempt(DropLost)
    ensures Leads(s, es, Attempt(Start))
  {
    var s1 := Step(s, Task);
    var s2 := Step(s1, Task);
    StepKeepsInv(s, Task);
    StepKeepsInv(s1, Task);
    var wait := DropWaitLeads(s2, ReconnectWait);
    var rest := ResetLeads(Run(s2, wait));
    LeadsOn(s2, wait, Attempt(ResetLost), rest, Attempt(Start));
    LeadsFirst(s1, Task, wait + rest, Attempt(Start));
    LeadsFirst(s, Task, [Task] + (wait + rest), Attempt(Start));
    es := [Task] + ([Task] + (wait + rest));
  }

  /** The connect branch reaches its connect call if there is no link to drop, or one that is still up. */
  lemma AttemptLeads(s: State) returns (es: seq<Event>)
    requires Inv(s) && s.task.pc == Attempt(LinkTest) && (s.task.ux.connected ==> s.driver.Up?)
    ensures Leads(s, es, Attempt(Start))
  {
    var s1 := Step(s, Task);
    StepKeepsInv(s, Task);
    var rest;
    if s.task.ux.connected {
      rest := DropLeads(s1);
    } else {
      rest := ResetLeads(s1);
    }
    LeadsFirst(s, Task, rest, Attempt(Start));
    es := [Task] + rest;
  }

  lemma DropLeadsToConfig(s: State) returns (es: seq<Event>)
    requires Inv(s) && s.driver.Up? && s.task.pc == Attempt(DropLost)
    ensures Leads(s, es, Attempt(SetConfig))
  {
    var s1 := Step(s, Task);
    var s2 := Step(s1, Task);
    StepKeepsInv(s, Task);
    StepKeepsInv(s1, Task);
    var wait := DropWaitLeads(s2, ReconnectWait);
    var s3 := Run(s2, wait);
    LeadsNowhere(Step(s3, Task));
    LeadsFirst(s3, Task, [], Attempt(SetConfig));
    LeadsOn(s2, wait, Attempt(ResetLost), [Task] + [], Attempt(SetConfig));
    LeadsFirst(s1, Task, wait + ([Task] + []), Attempt(SetConfig));
    LeadsFirst(s, Task, [Task] + (wait + ([Task] + [])), Attempt(SetConfig));
    es := [Task] + ([Task] + (wait + ([Task] + [])));
  }

  /**
   About to drop the old link for a new connection: some run gives the driver its new config if and
   only if the driver is still up, whatever the snapshot says.
   */
  lemma {:induction false} ReconnectProceedsIffUp(s: State)
    requires Inv(s) && s.task.pc == Attempt(DropLost) && s.task.ux.connected && s.task.ux.reqConnect
    ensures (exists es :: Run(s, es).task.pc == Attempt(SetConfig)) <==> s.driver.Up?
  {
    if s.driver.Up? {
      var es := DropLeadsToConfig(s);
      assert Run(s, es).task.pc == Attempt(SetConfig);
    } else {
      forall es ensures Run(s, es).task.pc != Attempt(SetConfig) {
        DoomedForever(s, es);
        assert Doomed(Run(s, es));
      }
    }
  }

  // ------------------------------------------------------------------------
  // Iterations that forget
  // ------------------------------------------------------------------------

  /** The link is gone, and the forget branch is bound for its wait. */
  ghost predicate NeverErases(s: State) {
    && s.task.ux.connected && s.task.ux.reqDisconnect && s.driver.Idle?
    && match s.task.pc
       case Call(w) => w.ForgetWait? && !s.bits.staDisconnect
       case Blocked(w) => w.ForgetWait?
       case Head(h) => h.ForgetTest?
       case Forget(f) =>
         f.DropInternet? || f.ConnectedTest? || f.ClearLost? || (f.Disconnect? && !s.bits.staDisconnect)
       case _ => false
  }

  lemma NeverErasesForget(s: State, f: ForgetPc)
    requires NeverErases(s) && s.task.pc == Forget(f)
    ensures NeverErases(ForgetStep(s, f))
  {
  }

  lemma NeverErasesTask(s: State)
    requires NeverErases(s)
    ensures NeverErases(TaskStep(s))
  {
    match s.task.pc
    case Call(_) =>
    case Blocked(_) =>
    case Head(_) =>
    case Forget(f) => NeverErasesForget(s, f);
  }

  lemma NeverErasesEvent(s: State, e: Event)
    requires Inv(s) && NeverErases(s) && !e.Task?
    ensures NeverErases(Step(s, e))
  {
  }

  lemma {:induction false} NeverErasesForever(s: State, es: seq<Event>)
    requires Inv(s) && NeverErases(s)
    ensures NeverErases(Run(s, es))
    decreases |es|
  {
    if es != [] {
      if es[0].Task? {
        NeverErasesTask(s);
      } else {
        NeverErasesEvent(s, es[0]);
      }
      StepKeepsInv(s, es[0]);
      NeverErasesForever(Step(s, es[0]), es[1..]);
    }
  }

  lemma ClearLeads(s: State) returns (es: seq<Event>)
    requires s.task.pc == Forget(ClearLostAgain)
    ensures Leads(s, es, Forget(Erase))
  {
    LeadsNowhere(Step(s, Task));
    LeadsFirst(s, Task, [], Forget(Erase));
    es := [Task] + [];
  }

  lemma DisconnectLeads(s: State) returns (es: seq<Event>)
    requires Inv(s) && s.driver.Up? && s.task.pc == Forget(ClearLost)
    ensures Leads(s, es, Forget(Erase))
  {
    var s1 := Step(s, Task);
    var s2 := Step(s1, Task);
    StepKeepsInv(s, Task);
    StepKeepsInv(s1, Task);
    var wait := DropWaitLeads(s2, ForgetWait);
    var rest := ClearLeads(Run(s2, wait));
    LeadsOn(s2, wait, Forget(ClearLostAgain), rest, Forget(Erase));
    LeadsFirst(s1, Task, wait + rest, Forget(Erase));
    LeadsFirst(s, Task, [Task] + (wait + rest), Forget(Erase));
    es := [Task] + ([Task] + (wait + rest));
  }

  lemma ForgetLeads(s: State) returns (es: seq<Event>)
    requires Inv(s) && s.task.pc == Forget(DropInternet) && (s.task.ux.connected ==> s.driver.Up?)
    ensures Leads(s, es, Forget(Erase))
  {
    var s1 := Step(s, Task);
    var s2 := Step(s1, Task);
    StepKeepsInv(s, Task);
    StepKeepsInv(s1, Task);
    var rest;
    if s.task.ux.connected {
      rest := DisconnectLeads(s2);
    } else {
      rest := ClearLeads(s2);
    }
    LeadsFirst(s1, Task, rest, Forget(Erase));
    LeadsFirst(s, Task, [Task] + rest, Forget(Erase));
    es := [Task] + ([Task] + rest);
  }

  /** Behind the erasure, the branch ends at the dispatch of the other requests. */
  lemma EraseLeads(s: State) returns (es: seq<Event>)
    requires s.task.pc == Forget(Erase)
    ensures Leads(s, es, Head(Dispatch))
  {
    var s1 := Step(s, Task);
    var s2 := Step(s1, Task);
    var s3 := Step(s2, Task);
    LeadsNowhere(Step(s3, Task));
    LeadsFirst(s3, Task, [], Head(Dispatch));
    LeadsFirst(s2, Task, [Task] + [], Head(Dispatch));
    LeadsFirst(s1, Task, [Task] + ([Task] + []), Head(Dispatch));
    LeadsFirst(s, Task, [Task] + ([Task] + ([Task] + [])), Head(Dispatch));
    es := [Task] + ([Task] + ([Task] + ([Task] + [])));
  }

  // ------------------------------------------------------------------------
  // What an iteration can do, told from its snapshot
  // ------------------------------------------------------------------------

  /**
   An iteration that begins with a request to forget can come to erase the credentials if and only if
   its snapshot has no link, or the link is still up.
   */
  lemma {:induction false} ErasesIff(s: State)
    requires Inv(s) && s.task.pc == Head(ForgetTest) && s.task.ux.reqDisconnect
    ensures CanReach(s, Forget(Erase)) <==> !s.task.ux.connected || s.driver.Up?
  {
    if !s.task.ux.connected || s.driver.Up? {
      StepKeepsInv(s, Task);
      var rest := ForgetLeads(Step(s, Task));
      LeadsFirst(s, Task, rest, Forget(Erase));
      assert ComesTo(s, [Task] + rest, Forget(Erase));
    } else {
      forall es ensures !ComesTo(s, es, Forget(Erase)) {
        NeverErasesForever(s, es);
      }
    }
  }

  lemma ConnectsAfterForget(s: State) returns (es: seq<Event>)
    requires Inv(s) && s.task.pc == Head(ForgetTest) && s.task.ux.reqConnect
    requires !s.task.ux.connected && s.task.ux.reqDisconnect
    ensures Leads(s, es, Head(Dispatch))
  {
    StepKeepsInv(s, Task);
    var s1 := Step(s, Task);
    var forget := ForgetLeads(s1);
    var erase := EraseLeads(Run(s1, forget));
    LeadsOn(s1, forget, Forget(Erase), erase, Head(Dispatch));
    LeadsFirst(s, Task, forget + erase, Head(Dispatch));
    es := [Task] + (forget + erase);
  }

  lemma DispatchLeads(s: State) returns (es: seq<Event>)
    requires Inv(s) && s.task.pc == Head(Dispatch) && s.task.ux.reqConnect && (s.task.ux.connected ==> s.driver.Up?)
    ensures Leads(s, es, Attempt(Start))
  {
    StepKeepsInv(s, Task);
    var rest := AttemptLeads(Step(s, Task));
    LeadsFirst(s, Task, rest, Attempt(Start));
    es := [Task] + rest;
  }

  lemma ConnectLeads(s: State) returns (es: seq<Event>)
    requires Inv(s) && s.task.pc == Head(ForgetTest) && s.task.ux.reqConnect
    requires !s.task.ux.connected || (s.driver.Up? && !s.task.ux.reqDisconnect)
    ensures Leads(s, es, Attempt(Start))
  {
    var first;
    if s.task.ux.reqDisconnect {
      first := ConnectsAfterForget(s);
    } else {
      LeadsNowhere(Step(s, Task));
      LeadsFirst(s, Task, [], Head(Dispatch));
      first := [Task] + [];
      RunFirst(s, Task, []);
      RunNothing(Step(s, Task));
    }
    RunKeepsInv(s, first);
    var rest := DispatchLeads(Run(s, first));
    LeadsOn(s, first, Head(Dispatch), rest, Attempt(Start));
    es := first + rest;
  }

  /**
   An iteration that begins with a request to connect can come to its connect call if and only if its
   snapshot has no link, or the link is still up and there is no request to forget. With both requests
   and a link, the forget branch drops the link that the connect branch then waits to see dropped.
   */
  lemma {:induction false} ConnectsIff(s: State)
    requires Inv(s) && s.task.pc == Head(ForgetTest) && s.task.ux.reqConnect
    ensures CanReach(s, Attempt(Start))
       <==> !s.task.ux.connected || (s.driver.Up? && !s.task.ux.reqDisconnect)
  {
    if !s.task.ux.connected || (s.driver.Up? && !s.task.ux.reqDisconnect) {
      var es := ConnectLeads(s);
      assert ComesTo(s, es, Attempt(Start));
    } else {
      forall es ensures !ComesTo(s, es, Attempt(Start)) {
        DoomedForever(s, es);
        assert Doomed(Run(s, es));
      }
    }
  }

  /**
   A link lost for a reason that asks for a reconnection, handled while the task waits at the head:
   the request releases the task before the connected bit is cleared, so the reconnection it asks
   for first waits for a loss that has already been reported. No run leads to a connect call.
   */
  lemma {:induction false} LossAtHeadStrandsReconnect(s: State, es: seq<Event>)
    requires Inv(s) && s.task.pc == Blocked(HeadWait) && s.driver.Up?
    ensures var t := Run(Step(s, LinkLost(OtherReason)), es);
            Doomed(t) && t.driver.Idle? && t.task.pc != Attempt(SetConfig) && t.task.pc != Attempt(Start)
  {
    var t := Step(s, LinkLost(OtherReason));
    StepKeepsInv(s, LinkLost(OtherReason));
    assert t.task == TaskState(Head(ForgetTest), s.bits.(reqConnect := true), s.task.iterations + 1);
    DoomedForever(t, es);
  }

  /** The driver is idle, and the task is not about to configure it or to connect. */
  ghost predicate NeverConnects(s: State) {
    s.driver.Idle? && s.task.pc != Attempt(SetConfig) && s.task.pc != Attempt(Start)
  }

  /** That state is reached: a network in flash, a link, and the loss of it strand the device. */
  lemma {:induction false} StrandingIsReachable(config: Config) returns (es: seq<Event>)
    requires HasSsid(config)
    ensures var s := Run(Boot(Stored(config)), es); forall fs :: NeverConnects(Run(s, fs))
  {
    var rest := RestsConnected(config);
    var s0 := Boot(Stored(config));
    BootInv(Stored(config));
    RunKeepsInv(s0, rest);
    var s := Run(s0, rest);
    es := rest + ([LinkLost(OtherReason)] + []);
    RunAppend(s0, rest, [LinkLost(OtherReason)] + []);
    RunFirst(s, LinkLost(OtherReason), []);
    RunNothing(Step(s, LinkLost(OtherReason)));
    forall fs ensures NeverConnects(Run(Run(s0, es), fs)) {
      LossAtHeadStrandsReconnect(s, fs);
    }
  }

  /** A request to forget, and a loss of the link before the task acts on it: the credentials are never erased. */
  lemma {:induction false} MissedErasureIsReachable(config: Config) returns (es: seq<Event>)
    requires HasSsid(config)
    ensures var s := Run(Boot(Stored(config)), es);
            && s.task.pc == Head(ForgetTest) && s.task.ux.reqDisconnect
            && forall fs :: Run(s, fs).task.pc != Forget(Erase)
  {
    var rest := RestsConnected(config);
    var s0 := Boot(Stored(config));
    BootInv(Stored(config));
    RunKeepsInv(s0, rest);
    var s := Run(s0, rest);
    var asked := Step(s, ForgetRequested);
    var lost := Step(asked, LinkLost(AssocLeave));
    StepKeepsInv(s, ForgetRequested);
    StepKeepsInv(asked, LinkLost(AssocLeave));
    es := rest + ([ForgetRequested, LinkLost(AssocLeave)] + []);
    RunAppend(s0, rest, [ForgetRequested, LinkLost(AssocLeave)] + []);
    RunTwice(s, ForgetRequested, LinkLost(AssocLeave), []);
    RunNothing(lost);
    forall fs ensures Run(lost, fs).task.pc != Forget(Erase) {
      NeverErasesForever(lost, fs);
    }
  }

  /** Both requests are set, the link is up, and the task is at this statement. */
  ghost predicate BothAsked(s: State, pc: Pc) {
    s.task.pc == pc && s.driver.Up? && s.bits.connected && s.bits.reqConnect && s.bits.reqDisconnect
  }

  lemma ScansMeanwhile(s: State)
    requires BothAsked(s, Head(ForgetTest))
    requires !s.task.ux.reqConnect && !s.task.ux.reqDisconnect && s.task.ux.reqScan
    ensures BothAsked(Run(s, [Task, Task, Task]), Head(ScanRelease))
  {
    RunThree(s, Task, Task, Task);
  }

  lemma TakesBoth(s: State)
    requires BothAsked(s, Head(ScanRelease))
    ensures var t := Run(s, [Task, Task, Task]);
            && BothAsked(t, Head(ForgetTest))
            && t.task.ux.connected && t.task.ux.reqConnect && t.task.ux.reqDisconnect
  {
    RunThree(s, Task, Task, Task);
  }

  /** A task at rest with its link up that is sent to scan, while it is asked to forget and to connect. */
  lemma BothRequestsAtHead(s: State)
    requires Inv(s) && s.task.pc == Blocked(HeadWait) && s.driver.Up?
    ensures var t := Run(Run(Run(s, [ScanRequested, ForgetRequested, PingReply(false)]), [Task, Task, Task]),
                         [Task, Task, Task]);
            && t.task.pc == Head(ForgetTest) && t.driver.Up?
            && t.task.ux.connected && t.task.ux.reqConnect && t.task.ux.reqDisconnect
  {
    AsksForBoth(s);
    RunThree(s, ScanRequested, ForgetRequested, PingReply(false));
    var s1 := Run(s, [ScanRequested, ForgetRequested, PingReply(false)]);
    ScansMeanwhile(s1);
    TakesBoth(Run(s1, [Task, Task, Task]));
  }

  lemma AsksForBoth(s: State)
    requires Inv(s) && s.task.pc == Blocked(HeadWait) && s.driver.Up?
    ensures var t := Step(Step(Step(s, ScanRequested), ForgetRequested), PingReply(false));
            && t.task.pc == Head(ForgetTest) && t.driver.Up? && t.bits.connected
            && !t.task.ux.reqConnect && !t.task.ux.reqDisconnect && t.task.ux.reqScan
            && t.bits.reqConnect && t.bits.reqDisconnect
  {
  }

  /** Both requests in one snapshot with the link up, without any race: that iteration never connects. */
  lemma {:induction false} BothRequestsAreReachable(config: Config) returns (es: seq<Event>)
    requires HasSsid(config)
    ensures var s := Run(Boot(Stored(config)), es);
            && s.task.pc == Head(ForgetTest) && s.driver.Up?
            && s.task.ux.reqConnect && s.task.ux.reqDisconnect
            && !CanReach(s, Attempt(Start))
  {
    var rest := RestsConnected(config);
    var s0, asks, three := Boot(Stored(config)), [ScanRequested, ForgetRequested, PingReply(false)], [Task, Task, Task];
    BootInv(Stored(config));
    RunKeepsInv(s0, rest);
    BothRequestsAtHead(Run(s0, rest));
    RunAppend(s0, rest, asks);
    RunAppend(s0, rest + asks, three);
    RunAppend(s0, rest + asks + three, three);
    es := rest + asks + three + three;
    RunKeepsInv(s0, es);
    ConnectsIff(Run(s0, es));
  }
}
