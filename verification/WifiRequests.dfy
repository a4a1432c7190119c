/** What requests and start-up set in motion, and what they do not. */
module WifiRequests {
  import opened WifiConfig
  import opened WifiProtocol
  import opened WifiSafety
  import opened WifiProgress
  import opened WifiRuns

  // ------------------------------------------------------------------------
  // Requests
  // ------------------------------------------------------------------------

  /** Nothing but the event word and the task is touched, and a task at the head takes the request up. */
  ghost predicate Asks(s: State, t: State, b: Bits) {
    && t.bits == b
    && (s.task.pc == Blocked(HeadWait) ==> t.task == TaskState(Head(ForgetTest), b, s.task.iterations + 1))
    && (!s.task.pc.Blocked? ==> t.task == s.task)
    && t.ram == s.ram && t.nvs == s.nvs && t.status == s.status && t.driver == s.driver
    && t.driverConfig == s.driverConfig && t.timerActive == s.timerActive
  }

  /** GET /ap.json asks for a scan, DELETE /connect.json to forget. */
  lemma ScanRequestAsks(s: State)
    ensures Asks(s, Step(s, ScanRequested), s.bits.(reqScan := true))
  {
  }

  lemma ForgetRequestAsks(s: State)
    ensures Asks(s, Step(s, ForgetRequested), s.bits.(reqDisconnect := true))
  {
  }

  /** The soft access point's events keep its two bits. */
  lemma AccessPointEvents(s: State)
    ensures Step(s, ApStarted).bits == s.bits.(apStarted := true)
    ensures Step(s, ApClientJoined).bits == s.bits.(apClient := true)
    ensures Step(s, ApClientLeft) == s.(bits := s.bits.(apClient := false))
  {
  }

  /** A loss asks for a connection unless the network turned the device away, and releases a wait for it. */
  lemma LossAsksIff(s: State, reason: Reason)
    requires !s.driver.Idle?
    ensures var t, asked := Step(s, LinkLost(reason)), s.bits.reqConnect || reason.OtherReason?;
            && t.bits == s.bits.(reqConnect := asked, staDisconnect := true, connected := false, haveInternet := false)
            && t.driver.Idle? && t.nvs == s.nvs && t.ram == s.ram && t.status == s.status && t.timerActive == s.timerActive
            && (s.task.pc == Blocked(HeadWait) && asked && !s.bits.reqConnect ==> t.task.pc == Head(ForgetTest))
            && (s.task.pc == Blocked(ForgetWait) ==> t.task.pc == Forget(ClearLostAgain))
  {
  }

  /** An address sets the link's bit and ends a wait for the outcome with it. */
  lemma AddressReports(s: State)
    requires !s.driver.Idle?
    ensures var t := Step(s, GotIp);
            && t.bits == s.bits.(connected := true, reqReconnect := false) && t.driver.Up?
            && (s.task.pc == Blocked(OutcomeWait) ==> t.task.pc == Outcome(Judge) && t.task.ux.connected)
            && t.nvs == s.nvs && t.ram == s.ram && t.status == s.status && t.timerActive == s.timerActive
  {
  }

  /** A registration creates the flash namespace where there is none, and touches nothing else. */
  lemma RegistrationCreatesNamespace(s: State)
    ensures var t := Step(s, RegistrationSaved);
            t == s.(nvs := t.nvs) && t.nvs == if s.nvs.NoNamespace? then NoCredentials else s.nvs
  {
  }

  // ------------------------------------------------------------------------
  // The bit nobody sets
  // ------------------------------------------------------------------------

  ghost predicate Unasked(b: Bits) {
    !b.reqReconnect
  }

  lemma HeadLeavesReconnect(s: State, h: HeadPc)
    requires Unasked(s.bits)
    ensures Unasked(HeadStep(s, h).bits)
  {
  }

  lemma ForgetLeavesReconnect(s: State, f: ForgetPc)
    requires Unasked(s.bits)
    ensures Unasked(ForgetStep(s, f).bits)
  {
  }

  lemma AttemptLeavesReconnect(s: State, a: AttemptPc)
    requires Unasked(s.bits)
    ensures Unasked(AttemptStep(s, a).bits)
  {
  }

  lemma OutcomeLeavesReconnect(s: State, o: OutcomePc)
    requires Unasked(s.bits)
    ensures Unasked(OutcomeStep(s, o).bits)
  {
  }

  lemma CheckLeavesReconnect(s: State, c: CheckPc, caller: Caller)
    requires Unasked(s.bits)
    ensures Unasked(CheckStep(s, c, caller).bits)
  {
  }

  lemma PingLeavesReconnect(s: State, p: PingPc)
    requires Unasked(s.bits)
    ensures Unasked(PingStep(s, p).bits)
  {
  }

  lemma TaskLeavesReconnect(s: State)
    requires Unasked(s.bits)
    ensures Unasked(TaskStep(s).bits)
  {
    match s.task.pc
    case Call(_) =>
    case Blocked(_) =>
    case Head(h) => HeadLeavesReconnect(s, h);
    case Forget(f) => ForgetLeavesReconnect(s, f);
    case Attempt(a) => AttemptLeavesReconnect(s, a);
    case Outcome(o) => OutcomeLeavesReconnect(s, o);
    case Check(c, caller) => CheckLeavesReconnect(s, c, caller);
    case Ping(p) => PingLeavesReconnect(s, p);
  }

  lemma HandlersLeaveReconnect(s: State, reason: Reason, received: bool)
    requires Unasked(s.bits)
    ensures Unasked(OnGotIp(s).bits) && Unasked(OnLinkLost(s, reason).bits)
    ensures Unasked(OnPingReply(s, received).bits)
  {
  }

  lemma EventLeavesReconnect(s: State, e: Event)
    requires Unasked(s.bits) && !e.Task?
    ensures Unasked(Apply(s, e).bits)
  {
    match e
    case PingTimeout =>
    case ApClientLeft =>
    case GotIp => HandlersLeaveReconnect(s, OtherReason, true);
    case LinkLost(reason) => HandlersLeaveReconnect(s, reason, true);
    case PingReply(received) => HandlersLeaveReconnect(s, OtherReason, received);
    case PostWrite(_) =>
    case PostClear =>
    case RegistrationSaved =>
    case _ => BitSetLeavesReconnect(s.bits, e);
  }

  lemma BitSetLeavesReconnect(b: Bits, e: Event)
    requires Unasked(b)
    ensures Unasked(BitSetBy(b, e))
  {
  }

  lemma {:induction false} ReconnectStaysClear(s: State, es: seq<Event>)
    requires Unasked(s.bits)
    ensures Unasked(Run(s, es).bits)
    decreases |es|
  {
    if es != [] {
      if Enabled(s, es[0]) {
        if es[0].Task? { TaskLeavesReconnect(s); } else { EventLeavesReconnect(s, es[0]); }
      }
      ReconnectStaysClear(Step(s, es[0]), es[1..]);
    }
  }

  /** REQUEST_RECONNECT is clear in every reachable state: the statements that would set it are commented out. */
  lemma {:induction false} ReconnectIsNeverRequested(nvs: Nvs, es: seq<Event>)
    ensures Unasked(Run(Boot(nvs), es).bits)
  {
    ReconnectStaysClear(Boot(nvs), es);
  }

  // ------------------------------------------------------------------------
  // Start-up
  // ------------------------------------------------------------------------

  /** Start-up asks for a scan, and for a connection exactly if flash holds an SSID. */
  lemma BootRequests(nvs: Nvs)
    ensures var s := Boot(nvs);
            && s.bits.reqScan && !s.bits.reqDisconnect && !s.bits.reqPing && s.status == Cleared && s.driver.Idle?
            && !s.timerActive && s.task.pc == Call(HeadWait) && s.nvs == nvs
            && (s.bits.reqConnect <==> nvs.Stored? && nvs.config.ssid != [])
            && (nvs.Stored? ==> s.ram == nvs.config) && (!nvs.Stored? ==> s.ram == Config([], []))
  {
  }

  /** Nothing from outside asks for a connection or brings credentials. */
  predicate Undisturbed(e: Event) {
    !e.PostWrite? && !e.PostRequest? && e != PingReply(false)
  }

  ghost predicate NoSsid(nvs: Nvs) {
    nvs.Stored? ==> nvs.config.ssid == []
  }

  /** No SSID anywhere, no request for a connection, and the task in no branch that would use one. */
  ghost predicate AtRest(s: State) {
    && NoSsid(s.nvs) && s.ram.ssid == [] && s.driver.Idle? && !s.bits.reqConnect && !s.bits.connected
    && match s.task.pc
       case Head(h) => (h.ForgetTest? || h.Dispatch?) ==> !s.task.ux.reqConnect
       case Forget(f) => !s.task.ux.reqConnect
       case Attempt(_) => false
       case Outcome(_) => false
       case Check(c, caller) => caller.FromPing? && (c.LinkQuery? || c.Result?)
       case Ping(p) => !p.ClearStatus? && !p.RequestConnect?
       case Call(w) => w.HeadWait? || (w.ForgetWait? && !s.task.ux.reqConnect)
       case Blocked(w) => w.HeadWait? || (w.ForgetWait? && !s.task.ux.reqConnect)
  }

  lemma AtRestTask(s: State)
    requires AtRest(s)
    ensures AtRest(TaskStep(s))
  {
    match s.task.pc
    case Call(_) =>
    case Blocked(_) =>
    case Head(h) => AtRestHead(s, h);
    case Forget(f) => AtRestForget(s, f);
    case Check(_, _) =>
    case Ping(_) =>
  }

  lemma AtRestHead(s: State, h: HeadPc)
    requires AtRest(s) && s.task.pc == Head(h)
    ensures AtRest(HeadStep(s, h))
  {
  }

  lemma AtRestForget(s: State, f: ForgetPc)
    requires AtRest(s) && s.task.pc == Forget(f)
    ensures AtRest(ForgetStep(s, f))
  {
  }

  lemma AtRestSet(s: State, b: Bits)
    requires AtRest(s) && !b.reqConnect && !b.connected
    ensures AtRest(Set(s, b))
  {
  }

  lemma AtRestEvent(s: State, e: Event)
    requires AtRest(s) && !e.Task? && Undisturbed(e) && Enabled(s, e)
    ensures AtRest(Apply(s, e))
  {
    match e
    case PingTimeout =>
    case ApClientLeft =>
    case PingReply(_) =>
    case PostClear =>
    case RegistrationSaved =>
    case _ =>
      BitSetRaises(s.bits, e);
      AtRestSet(s, BitSetBy(s.bits, e));
  }

  lemma {:induction false} AtRestRun(s: State, es: seq<Event>)
    requires AtRest(s) && forall i :: 0 <= i < |es| ==> Undisturbed(es[i])
    ensures AtRest(Run(s, es))
    decreases |es|
  {
    if es != [] {
      if Enabled(s, es[0]) {
        if es[0].Task? { AtRestTask(s); } else { AtRestEvent(s, es[0]); }
      }
      AtRestRun(Step(s, es[0]), es[1..]);
    }
  }

  /**
   Started without an SSID in flash, even with a saved config that is empty, the device never tries to
   connect by itself: not after scans, ping tests, timers or a request to forget.
   */
  lemma {:induction false} StartsQuietly(nvs: Nvs, es: seq<Event>)
    requires NoSsid(nvs) && forall i :: 0 <= i < |es| ==> Undisturbed(es[i])
    ensures var s := Run(Boot(nvs), es);
            s.driver.Idle? && !s.bits.reqConnect && s.driverConfig == Config([], []) && !s.task.pc.Attempt?
  {
    AtRestRun(Boot(nvs), es);
    DriverUntouched(Boot(nvs), es);
  }

  lemma {:induction false} DriverUntouched(s: State, es: seq<Event>)
    requires AtRest(s) && forall i :: 0 <= i < |es| ==> Undisturbed(es[i])
    ensures Run(s, es).driverConfig == s.driverConfig
    decreases |es|
  {
    if es != [] {
      DriverUntouchedStep(s, es[0]);
      AtRestRun(s, [es[0]] + []);
      RunFirst(s, es[0], []);
      RunNothing(Step(s, es[0]));
      DriverUntouched(Step(s, es[0]), es[1..]);
    }
  }

  lemma DriverUntouchedStep(s: State, e: Event)
    requires AtRest(s) && Undisturbed(e)
    ensures Step(s, e).driverConfig == s.driverConfig
  {
    if e.Task? {
      match s.task.pc
      case Call(_) =>
      case Blocked(_) =>
      case Head(_) =>
      case Forget(_) =>
      case Check(_, _) =>
      case Ping(_) =>
    }
  }
}
