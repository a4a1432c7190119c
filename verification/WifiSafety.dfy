/** What every reachable state of the WiFi manager satisfies, over all interleavings. */
module WifiSafety {
  import opened WifiConfig
  import opened WifiProtocol

  predicate AtOutcomeWait(pc: Pc) {
    (pc.Call? || pc.Blocked?) && pc.wait.OutcomeWait?
  }

  /** The event group and the driver agree on the link. */
  ghost predicate LinkInv(s: State) {
    && (s.bits.connected <==> s.driver.Up?)
    && (s.bits.staDisconnect ==> s.driver.Idle?)
    && (s.bits.haveInternet ==> s.bits.connected)
    && (s.driver.Associating? ==> AtOutcomeWait(s.task.pc))
    && (s.driver.Up? ==> s.driverConfig in s.reached)
  }

  /** A head snapshot without the connected bit is still right: only the task starts the driver. */
  ghost predicate SnapshotInv(t: TaskState, idle: bool) {
    t.ux.connected || idle
  }

  /** Requests seen by the head wait and not yet handled are still set. */
  ghost predicate Pending(t: TaskState, b: Bits) {
    && (t.ux.reqConnect ==> b.reqConnect)
    && (t.ux.reqScan ==> b.reqScan)
    && (t.ux.reqPing ==> b.reqPing)
  }

  ghost predicate CallerInv(b: Bits, caller: Caller) {
    if caller.FromConnect? then b.reqConnect else b.reqPing
  }

  /** A check yields bit 8, nothing, or that there is no link. */
  ghost predicate CheckInv(c: CheckPc) {
    match c
    case TimerTest(got) => got == 0 || got == 256
    case Result(ret) => ret == 0 || ret == 256 || ret == -2
    case _ => true
  }

  ghost predicate ForgetInv(t: TaskState, f: ForgetPc, b: Bits, idle: bool) {
    && b.reqDisconnect && t.ux.reqDisconnect && Pending(t, b)
    && (f.ClearLost? || f.Disconnect? ==> t.ux.connected)
    && if f.DropInternet? || f.ConnectedTest? || f.ClearLost? || f.Disconnect? then SnapshotInv(t, idle) else idle
  }

  ghost predicate WaitInv(t: TaskState, w: Wait, b: Bits, idle: bool) {
    match w
    case HeadWait => true
    case ForgetWait => ForgetInv(t, Disconnect, b, idle)
    case ReconnectWait => b.reqConnect && SnapshotInv(t, idle)
    case OutcomeWait => b.reqConnect && (idle ==> b.staDisconnect)
    case PingWait(caller) => CallerInv(b, caller)
  }

  ghost predicate HeadInv(t: TaskState, h: HeadPc, b: Bits, idle: bool) {
    match h
    case ForgetTest =>
      && SnapshotInv(t, idle) && Pending(t, b) && Satisfied(HeadWait, t.ux)
      && (t.ux.reqDisconnect ==> b.reqDisconnect)
    case Dispatch => SnapshotInv(t, idle) && Pending(t, b) && Satisfied(HeadWait, t.ux)
    case Scan => b.reqScan && !t.ux.reqConnect
    case ScanRelease => b.reqScan
    case LoopEnd => true
  }

  ghost predicate AttemptInv(t: TaskState, a: AttemptPc, b: Bits, idle: bool) {
    && b.reqConnect
    && match a
       case LinkTest | DropLost | DropLink => SnapshotInv(t, idle)
       case ResetLost => idle
       case SetConfig | Start => idle && !b.staDisconnect
  }

  ghost predicate OutcomeInv(t: TaskState, o: OutcomePc, b: Bits, idle: bool, known: bool) {
    && b.reqConnect
    && match o
       case Judge => (t.ux.connected || t.ux.staDisconnect) && if t.ux.connected then known else idle
       case OkPublish | OkSave => known && t.ux.connected
       case FailPublish | FailErase | FailMarkLost => idle && !t.ux.connected
       case NoOutcome => false
       case ConnectRelease => true
  }

  /**
   What the task's position says about its snapshot, its request bit and the driver: a branch is
   entered on its request bit and holds it to its end. `idle`: the driver is idle; `known`: the
   driver has obtained an address with its present config.
   */
  ghost predicate TaskInv(t: TaskState, b: Bits, idle: bool, known: bool) {
    match t.pc
    case Call(w) => WaitInv(t, w, b, idle)
    case Blocked(w) => WaitInv(t, w, b, idle) && !Satisfied(w, b)
    case Head(h) => HeadInv(t, h, b, idle)
    case Forget(f) => ForgetInv(t, f, b, idle)
    case Attempt(a) => AttemptInv(t, a, b, idle)
    case Outcome(o) => OutcomeInv(t, o, b, idle, known)
    case Check(c, caller) => CallerInv(b, caller) && CheckInv(c)
    case Ping(_) => b.reqPing
  }

  ghost predicate Inv(s: State) {
    LinkInv(s) && TaskInv(s.task, s.bits, s.driver.Idle?, s.driverConfig in s.reached)
  }

  lemma HeadKeepsInv(s: State, h: HeadPc)
    requires Inv(s) && s.task.pc == Head(h)
    ensures Inv(HeadStep(s, h))
  {
  }

  lemma ForgetKeepsInv(s: State, f: ForgetPc)
    requires Inv(s) && s.task.pc == Forget(f)
    ensures Inv(ForgetStep(s, f))
  {
  }

  lemma AttemptKeepsInv(s: State, a: AttemptPc)
    requires Inv(s) && s.task.pc == Attempt(a)
    ensures Inv(AttemptStep(s, a))
  {
  }

  lemma OutcomeKeepsInv(s: State, o: OutcomePc)
    requires Inv(s) && s.task.pc == Outcome(o)
    ensures Inv(OutcomeStep(s, o))
  {
  }

  lemma CheckKeepsInv(s: State, c: CheckPc, caller: Caller)
    requires Inv(s) && s.task.pc == Check(c, caller)
    ensures Inv(CheckStep(s, c, caller))
  {
  }

  lemma PingKeepsInv(s: State, p: PingPc)
    requires Inv(s) && s.task.pc == Ping(p)
    ensures Inv(PingStep(s, p))
  {
  }

  lemma TaskKeepsInv(s: State)
    requires Inv(s)
    ensures Inv(TaskStep(s))
  {
    match s.task.pc
    case Call(w) =>
    case Blocked(_) =>
    case Head(h) => HeadKeepsInv(s, h);
    case Forget(f) => ForgetKeepsInv(s, f);
    case Attempt(a) => AttemptKeepsInv(s, a);
    case Outcome(o) => OutcomeKeepsInv(s, o);
    case Check(c, caller) => CheckKeepsInv(s, c, caller);
    case Ping(p) => PingKeepsInv(s, p);
  }

  /** b differs from a only in more requests, and in bits the task's position does not depend on. */
  ghost predicate Raises(a: Bits, b: Bits) {
    && a.connected == b.connected
    && a.staDisconnect == b.staDisconnect
    && a.haveInternet == b.haveInternet
    && (a.reqConnect ==> b.reqConnect)
    && (a.reqScan ==> b.reqScan)
    && (a.reqDisconnect ==> b.reqDisconnect)
    && (a.reqPing ==> b.reqPing)
  }

  lemma RaiseKeepsTaskInv(t: TaskState, a: Bits, b: Bits, idle: bool, known: bool)
    requires TaskInv(t, a, idle, known) && Raises(a, b) && (a.connected ==> known)
    requires t.pc.Blocked? && t.pc.wait.HeadWait? ==> b.connected || idle
    ensures TaskInv(Wake(t, b), b, idle, known)
  {
    if t.pc.Blocked? && Satisfied(t.pc.wait, b) {
      RaiseWakes(t, a, b, idle, known);
    } else {
      RaiseLeaves(t, a, b, idle, known);
    }
  }

  lemma RaiseWakes(t: TaskState, a: Bits, b: Bits, idle: bool, known: bool)
    requires t.pc.Blocked? && Satisfied(t.pc.wait, b)
    requires TaskInv(t, a, idle, known) && Raises(a, b) && (a.connected ==> known)
    requires t.pc.wait.HeadWait? ==> b.connected || idle
    ensures TaskInv(Return(t, t.pc.wait, b), b, idle, known)
  {
  }

  lemma RaiseLeaves(t: TaskState, a: Bits, b: Bits, idle: bool, known: bool)
    requires TaskInv(t, a, idle, known) && Raises(a, b)
    requires t.pc.Blocked? ==> !Satisfied(t.pc.wait, b)
    ensures TaskInv(t, b, idle, known)
  {
  }

  lemma RaiseKeepsInv(s: State, b: Bits)
    requires Inv(s) && Raises(s.bits, b)
    ensures Inv(Set(s, b))
  {
    RaiseKeepsTaskInv(s.task, s.bits, b, s.driver.Idle?, s.driverConfig in s.reached);
    RaiseKeepsLinkInv(s, b);
  }

  lemma RaiseKeepsLinkInv(s: State, b: Bits)
    requires Inv(s) && Raises(s.bits, b)
    ensures LinkInv(Set(s, b))
  {
  }

  lemma BitSetRaises(b: Bits, e: Event)
    ensures Raises(b, BitSetBy(b, e))
  {
  }

  /** The timer and the HTTP server are no part of the invariant. */
  lemma OutsideKeepsInv(s: State, timer: bool, http: HttpPc)
    requires Inv(s)
    ensures Inv(s.(timerActive := timer, http := http))
  {
  }

  lemma SetBitKeepsInv(s: State, e: Event)
    requires Inv(s)
    ensures Inv(OnSetBit(s, e))
  {
    BitSetRaises(s.bits, e);
    RaiseKeepsInv(s, BitSetBy(s.bits, e));
    OutsideKeepsInv(Set(s, BitSetBy(s.bits, e)), s.timerActive && !e.TimerExpired?,
                    if e.PostRequest? then HttpIdle else s.http);
  }

  lemma GotIpKeepsLinkInv(s: State)
    requires Inv(s) && !s.driver.Idle?
    ensures LinkInv(OnGotIp(s))
  {
  }

  lemma GotIpKeepsTaskInv(t: TaskState, b: Bits, known: bool)
    requires TaskInv(t, b, false, known)
    ensures var c := b.(connected := true);
            TaskInv(Wake(t, c), c.(reqReconnect := false), false, true)
  {
  }

  lemma GotIpKeepsInv(s: State)
    requires Inv(s) && !s.driver.Idle?
    ensures Inv(OnGotIp(s))
  {
    GotIpKeepsLinkInv(s);
    GotIpKeepsTaskInv(s.task, s.bits, s.driverConfig in s.reached);
  }

  lemma LossKeepsTaskInv(t: TaskState, b: Bits, known: bool)
    requires TaskInv(t, b, false, known) && (b.connected ==> known)
    ensures var lost := b.(staDisconnect := true);
            TaskInv(Wake(t, lost), lost.(connected := false, haveInternet := false), true, known)
  {
  }

  lemma AskKeepsTaskInv(t: TaskState, b: Bits, idle: bool, known: bool)
    requires TaskInv(t, b, idle, known) && (b.connected ==> known)
    requires t.pc.Blocked? && t.pc.wait.HeadWait? ==> b.connected || idle
    ensures TaskInv(Wake(t, b.(reqConnect := true)), b.(reqConnect := true), idle, known)
  {
  }

  /** The handler leaves the event bits and the driver in agreement. */
  lemma LossKeepsLinkInv(s: State, reason: Reason)
    requires Inv(s) && !s.driver.Idle?
    ensures LinkInv(OnLinkLost(s, reason))
  {
  }

  lemma LinkLostKeepsInv(s: State, reason: Reason)
    requires Inv(s) && !s.driver.Idle?
    ensures Inv(OnLinkLost(s, reason))
  {
    var known := s.driverConfig in s.reached;
    LossKeepsLinkInv(s, reason);
    if reason == OtherReason {
      var asked := s.bits.(reqConnect := true);
      AskKeepsTaskInv(s.task, s.bits, false, known);
      LossKeepsTaskInv(Wake(s.task, asked), asked, known);
    } else {
      LossKeepsTaskInv(s.task, s.bits, known);
    }
  }

  lemma PingReplyKeepsInv(s: State, received: bool)
    requires Inv(s) && (received ==> s.driver.Up?)
    ensures Inv(OnPingReply(s, received))
  {
  }

  lemma TimeoutKeepsInv(s: State)
    requires Inv(s) && Enabled(s, PingTimeout)
    ensures Inv(Apply(s, PingTimeout))
  {
  }

  lemma HandlerKeepsInv(s: State, e: Event)
    requires Inv(s) && Enabled(s, e) && (e.PingTimeout? || e.GotIp? || e.LinkLost? || e.PingReply?)
    ensures Inv(Apply(s, e))
  {
    match e
    case PingTimeout => TimeoutKeepsInv(s);
    case GotIp => GotIpKeepsInv(s);
    case LinkLost(reason) => LinkLostKeepsInv(s, reason);
    case PingReply(received) => PingReplyKeepsInv(s, received);
  }

  lemma RequestKeepsInv(s: State, e: Event)
    requires Inv(s) && Enabled(s, e)
    requires !e.Task? && !e.PingTimeout? && !e.GotIp? && !e.LinkLost? && !e.PingReply?
    ensures Inv(Apply(s, e))
  {
    match e
    case ApClientLeft => RaiseKeepsInv(s, s.bits.(apClient := false));
    case PostWrite(c) => PostKeepsInv(s, c);
    case PostClear => PostKeepsInv(s, ZERO_CONFIG);
    case RegistrationSaved => RegistrationKeepsInv(s);
    case _ => SetBitKeepsInv(s, e);
  }

  lemma StepKeepsInv(s: State, e: Event)
    requires Inv(s)
    ensures Inv(Step(s, e))
  {
    if Enabled(s, e) {
      if e.Task? {
        TaskKeepsInv(s);
      } else if e.PingTimeout? || e.GotIp? || e.LinkLost? || e.PingReply? {
        HandlerKeepsInv(s, e);
      } else {
        RequestKeepsInv(s, e);
      }
    }
  }

  lemma PostKeepsInv(s: State, c: Config)
    requires Inv(s)
    ensures Inv(Apply(s, PostWrite(c))) && Inv(Apply(s, PostClear))
  {
  }

  lemma RegistrationKeepsInv(s: State)
    requires Inv(s)
    ensures Inv(Apply(s, RegistrationSaved))
  {
  }

  lemma {:induction false} RunKeepsInv(s: State, es: seq<Event>)
    requires Inv(s)
    ensures Inv(Run(s, es))
    decreases |es|
  {
    if es != [] {
      StepKeepsInv(s, es[0]);
      RunKeepsInv(Step(s, es[0]), es[1..]);
    }
  }

  lemma BootInv(nvs: Nvs)
    ensures Inv(Boot(nvs))
  {
  }

  /** Whatever the interleaving, from start-up on. */
  lemma {:induction false} ReachableIsSafe(nvs: Nvs, es: seq<Event>)
    ensures var s := Run(Boot(nvs), es);
            && !(s.bits.connected && s.bits.staDisconnect)
            && (s.bits.connected <==> s.driver.Up?)
            && (s.bits.haveInternet ==> s.bits.connected)
            && (s.driver.Associating? ==> AtOutcomeWait(s.task.pc))
            && (s.task.pc == Attempt(Start) ==> s.driver.Idle? && !s.bits.staDisconnect)
            && (s.task.pc.Forget? && s.task.pc.forget.Erase? ==> s.driver.Idle?)
            && s.task.pc != Outcome(NoOutcome)
            && (s.task.pc == Blocked(HeadWait) ==>
                  !s.bits.reqConnect && !s.bits.reqScan && !s.bits.reqDisconnect && !s.bits.reqPing)
  {
    BootInv(nvs);
    RunKeepsInv(Boot(nvs), es);
  }

  /** An event leaves a task that is not waiting where it is. */
  lemma EventLeavesTask(s: State, e: Event)
    requires !e.Task? && !s.task.pc.Blocked?
    ensures Step(s, e).task == s.task
  {
  }
}
