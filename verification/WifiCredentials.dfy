/** What happens to stored credentials: forgetting is permanent, and what is stored has worked. */
module WifiCredentials {
  import opened WifiConfig
  import opened WifiProtocol
  import opened WifiSafety

  // ------------------------------------------------------------------------
  // Forgetting is permanent
  // ------------------------------------------------------------------------

  /** Both copies of the credentials are zero, and nothing but zeros has been given to the driver. */
  ghost predicate Forgotten(s: State) {
    && s.ram == ZERO_CONFIG
    && s.nvs == Stored(ZERO_CONFIG)
    && (s.task.pc == Attempt(Start) ==> s.driverConfig == ZERO_CONFIG)
    && (!s.driver.Idle? ==> s.driverConfig == ZERO_CONFIG)
  }

  /** Forgotten, or on the way from the erasure of RAM to its end in flash. */
  ghost predicate Forgetting(s: State) {
    || s.task.pc == Forget(Erase)
    || (s.task.pc == Forget(Save) && s.ram == ZERO_CONFIG)
    || Forgotten(s)
  }

  lemma ForgottenStep(s: State, e: Event)
    requires Forgotten(s) && !e.PostWrite?
    ensures Forgotten(Step(s, e))
  {
    if e.Task? {
      match s.task.pc
      case Call(_) =>
      case Blocked(_) =>
      case Head(_) =>
      case Forget(_) =>
      case Attempt(_) =>
      case Outcome(_) =>
      case Check(_, _) =>
      case Ping(_) =>
    }
  }

  lemma ForgettingStep(s: State, e: Event)
    requires Inv(s) && Forgetting(s) && !e.PostWrite?
    ensures Forgetting(Step(s, e))
  {
    if Forgotten(s) {
      ForgottenStep(s, e);
    }
  }

  ghost predicate NoPost(es: seq<Event>) {
    forall i :: 0 <= i < |es| ==> !es[i].PostWrite?
  }

  /**
   Once a user disconnect has come to erase the credentials, then until the next POST they are being
   erased or are gone, whatever pings, timers, link events and other requests occur.
   */
  lemma {:induction false} ForgettingIsPermanent(s: State, es: seq<Event>)
    requires Inv(s) && Forgetting(s) && NoPost(es)
    ensures Inv(Run(s, es)) && Forgetting(Run(s, es))
    ensures Forgotten(s) ==> Forgotten(Run(s, es))
    decreases |es|
  {
    if es != [] {
      ForgettingStep(s, es[0]);
      if Forgotten(s) { ForgottenStep(s, es[0]); }
      StepKeepsInv(s, es[0]);
      ForgettingIsPermanent(Step(s, es[0]), es[1..]);
    }
  }

  // ------------------------------------------------------------------------
  // Provenance of the stored credentials
  // ------------------------------------------------------------------------

  /**
   Where a POST is stored untried: before the save of a forget branch, and from the connect call on
   while the attempt, made with another config, can still succeed or has succeeded.
   */
  predicate StoresUntried(pc: Pc, idle: bool, connected: bool) {
    match pc
    case Forget(f) => f.Save?
    case Attempt(a) => a.Start?
    case Call(w) => w.OutcomeWait? && !idle
    case Blocked(w) => w.OutcomeWait? && !idle
    case Outcome(o) => (o.Judge? && connected) || o.OkPublish? || o.OkSave?
    case _ => false
  }

  ghost predicate Vulnerable(s: State) {
    StoresUntried(s.task.pc, s.driver.Idle?, s.task.ux.connected)
  }

  ghost predicate PostsKeepOut(s: State, es: seq<Event>)
    decreases |es|
  {
    es == [] ||
    (&& (es[0].PostWrite? ==> !Vulnerable(s))
     && PostsKeepOut(Step(s, es[0]), es[1..]))
  }

  /** Initial value, all zeros, or a config with which the driver obtained an address. */
  ghost predicate Provenance(s: State, initial: Nvs) {
    || s.nvs == initial
    || (initial.NoNamespace? && s.nvs.NoCredentials?)
    || s.nvs == Stored(ZERO_CONFIG)
    || (s.nvs.Stored? && s.nvs.config in s.reached)
  }

  ghost predicate SaveOk(vulnerable: bool, saving: bool, same: bool, zero: bool) {
    vulnerable && !zero ==> same && !saving
  }

  /** Whatever a save that is coming will store is what the attempt uses, or zeros. */
  ghost predicate SaveInv(s: State) {
    SaveOk(Vulnerable(s), s.task.pc == Forget(Save), s.ram == s.driverConfig, s.ram == ZERO_CONFIG)
  }

  /** Flash is written by the two saves alone; a registration only creates the namespace. */
  lemma FlashWriters(s: State, e: Event)
    ensures Step(s, e).nvs == s.nvs
         || (e.Task? && (s.task.pc == Forget(Save) || s.task.pc == Outcome(OkSave)) &&
             Step(s, e).nvs == Stored(s.ram))
         || (e.RegistrationSaved? && s.nvs.NoNamespace? && Step(s, e).nvs.NoCredentials?)
  {
    if e.Task? {
      match s.task.pc
      case Call(_) =>
      case Blocked(_) =>
      case Head(_) =>
      case Forget(_) =>
      case Attempt(_) =>
      case Outcome(_) =>
      case Check(_, _) =>
      case Ping(_) =>
    }
  }

  lemma ReachedGrows(s: State, e: Event)
    ensures s.reached <= Step(s, e).reached
  {
    if e.Task? {
      match s.task.pc
      case Call(_) =>
      case Blocked(_) =>
      case Head(_) =>
      case Forget(_) =>
      case Attempt(_) =>
      case Outcome(_) =>
      case Check(_, _) =>
      case Ping(_) =>
    }
  }

  lemma SaveInvForget(s: State, f: ForgetPc)
    requires SaveInv(s) && s.task.pc == Forget(f)
    ensures SaveInv(ForgetStep(s, f))
  {
  }

  lemma SaveInvAttempt(s: State, a: AttemptPc)
    requires SaveInv(s) && s.task.pc == Attempt(a)
    ensures SaveInv(AttemptStep(s, a))
  {
  }

  lemma SaveInvOutcome(s: State, o: OutcomePc)
    requires Inv(s) && SaveInv(s) && s.task.pc == Outcome(o)
    ensures SaveInv(OutcomeStep(s, o))
  {
  }

  lemma SaveInvAtCall(s: State, w: Wait)
    requires Inv(s) && SaveInv(s) && s.task.pc == Call(w)
    ensures SaveInv(s.(task := Await(s.task, w, s.bits)))
  {
  }

  lemma SaveInvHead(s: State, h: HeadPc)
    ensures SaveInv(HeadStep(s, h))
  {
  }

  lemma SaveInvCheck(s: State, k: CheckPc, caller: Caller)
    ensures SaveInv(CheckStep(s, k, caller))
  {
  }

  lemma SaveInvPing(s: State, p: PingPc)
    ensures SaveInv(PingStep(s, p))
  {
  }

  lemma SaveInvTask(s: State)
    requires Inv(s) && SaveInv(s)
    ensures SaveInv(TaskStep(s))
  {
    match s.task.pc
    case Call(w) => SaveInvAtCall(s, w);
    case Blocked(_) =>
    case Head(h) => SaveInvHead(s, h);
    case Forget(f) => SaveInvForget(s, f);
    case Attempt(a) => SaveInvAttempt(s, a);
    case Outcome(o) => SaveInvOutcome(s, o);
    case Check(k, caller) => SaveInvCheck(s, k, caller);
    case Ping(p) => SaveInvPing(s, p);
  }

  /** Being released from a wait makes a state vulnerable only if it was. */
  lemma WakeIsNotVulnerable(t: TaskState, b: Bits, idle: bool)
    requires t.pc.Blocked? && Satisfied(t.pc.wait, b) && (b.connected ==> !idle)
    ensures StoresUntried(Wake(t, b).pc, idle, Wake(t, b).ux.connected) ==> StoresUntried(t.pc, idle, t.ux.connected)
    ensures Wake(t, b).pc != Forget(Save)
  {
  }

  lemma SaveInvSet(s: State, b: Bits)
    requires SaveInv(s) && (b.connected ==> !s.driver.Idle?)
    ensures SaveInv(Set(s, b))
  {
    if s.task.pc.Blocked? && Satisfied(s.task.pc.wait, b) {
      WakeIsNotVulnerable(s.task, b, s.driver.Idle?);
    }
  }

  lemma SaveInvGotIp(s: State)
    requires SaveInv(s) && !s.driver.Idle?
    ensures SaveInv(OnGotIp(s))
  {
    var up := s.(driver := Up, reached := s.reached + {s.driverConfig});
    assert SaveInv(up);
    SaveInvSet(up, up.bits.(connected := true));
  }

  /** A waiting attempt that loses its link is judged a failure. */
  lemma SaveInvLinkLost(s: State, reason: Reason)
    requires Inv(s) && SaveInv(s) && !s.driver.Idle?
    ensures SaveInv(OnLinkLost(s, reason))
  {
  }

  lemma SaveInvTimeout(s: State)
    requires SaveInv(s) && Enabled(s, PingTimeout)
    ensures SaveInv(Apply(s, PingTimeout))
  {
  }

  lemma SaveInvPingReply(s: State, received: bool)
    requires Inv(s) && SaveInv(s)
    ensures SaveInv(OnPingReply(s, received))
  {
    if received {
      SaveInvSet(s, s.bits.(haveInternet := true));
    } else {
      SaveInvSet(s.(status := Cleared), s.bits.(reqConnect := true));
    }
  }

  lemma SaveInvSetBit(s: State, e: Event)
    requires Inv(s) && SaveInv(s)
    ensures SaveInv(OnSetBit(s, e))
  {
    BitSetRaises(s.bits, e);
    SaveInvSet(s, BitSetBy(s.bits, e));
  }

  lemma SaveInvEvent(s: State, e: Event)
    requires Inv(s) && SaveInv(s) && !e.Task? && Enabled(s, e)
    requires e.PostWrite? ==> !Vulnerable(s)
    ensures SaveInv(Apply(s, e))
  {
    match e
    case PingTimeout => SaveInvTimeout(s);
    case ApClientLeft =>
    case GotIp => SaveInvGotIp(s);
    case LinkLost(reason) => SaveInvLinkLost(s, reason);
    case PingReply(received) => SaveInvPingReply(s, received);
    case PostWrite(_) =>
    case PostClear =>
    case RegistrationSaved =>
    case _ => SaveInvSetBit(s, e);
  }

  lemma SaveInvStep(s: State, e: Event)
    requires Inv(s) && SaveInv(s)
    requires e.PostWrite? ==> !Vulnerable(s)
    ensures SaveInv(Step(s, e))
  {
    if Enabled(s, e) {
      if e.Task? {
        SaveInvTask(s);
      } else {
        SaveInvEvent(s, e);
      }
    }
  }

  lemma ProvenanceStep(s: State, initial: Nvs, e: Event)
    requires Inv(s) && SaveInv(s) && Provenance(s, initial)
    ensures Provenance(Step(s, e), initial)
  {
    FlashWriters(s, e);
    ReachedGrows(s, e);
  }

  lemma {:induction false} ProvenanceRun(s: State, initial: Nvs, es: seq<Event>)
    requires Inv(s) && SaveInv(s) && Provenance(s, initial)
    requires PostsKeepOut(s, es)
    ensures Provenance(Run(s, es), initial)
    decreases |es|
  {
    if es != [] {
      ProvenanceStep(s, initial, es[0]);
      SaveInvStep(s, es[0]);
      StepKeepsInv(s, es[0]);
      ProvenanceRun(Step(s, es[0]), initial, es[1..]);
    }
  }

  /** In every run without a POST at a position from which it would be stored untried. */
  lemma {:induction false} StoredConfigWasReached(initial: Nvs, es: seq<Event>)
    requires PostsKeepOut(Boot(initial), es)
    ensures Provenance(Run(Boot(initial), es), initial)
  {
    BootInv(initial);
    ProvenanceRun(Boot(initial), initial, es);
  }
}
