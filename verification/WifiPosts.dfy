/**
 What becomes of a POST that comes at any point: exactly when the first document after it is about the
 posted config, and exactly when its request is still served.
 */
module WifiPosts {
  import opened WifiConfig
  import opened WifiProtocol
  import opened WifiSafety
  import opened WifiCredentials
  import opened WifiProgress
  import opened WifiOutcome
  import opened WifiStranded
  import opened WifiRuns

  // ------------------------------------------------------------------------
  // A schedule that leads the task on
  // ------------------------------------------------------------------------

  /** The event that lets the task go on, and asks to forget before the next iteration. */
  function Choice(s: State): Event {
    match s.task.pc
    case Blocked(w) =>
      (match w
       case OutcomeWait => GotIp
       case PingWait(_) => PingTimeout
       case _ => LinkLost(AssocLeave))
    case Call(w) => if w.HeadWait? && !s.bits.reqDisconnect then ForgetRequested else Task
    case _ => Task
  }

  /** On the way through a forget branch to its report. */
  predicate Forgetful(t: TaskState) {
    match t.pc
    case Head(h) => h.ForgetTest? && t.ux.reqDisconnect
    case Forget(f) => !f.Release?
    case Call(w) => w.ForgetWait?
    case Blocked(w) => w.ForgetWait?
    case _ => false
  }

  function Distance(s: State): nat {
    if Forgetful(s.task) then Rank(s.task.pc)
    else 100 + 2 * Rank(s.task.pc) + if s.bits.reqDisconnect then 0 else 1
  }

  // ------------------------------------------------------------------------
  // The first report
  // ------------------------------------------------------------------------

  /** Some run without a POST reports first what is not the outcome of c. */
  ghost predicate Misled(s: State, c: Config) {
    exists es :: NoPost(es) && !FirstReportIs(s, es, c)
  }

  lemma MisledNow(s: State, e: Event, c: Config)
    requires s.status == Cleared && !e.PostWrite?
    requires Step(s, e).status != Cleared && !Published(s, Step(s, e), c)
    ensures Misled(s, c)
  {
    assert NoPost([e]) && !FirstReportIs(s, [e], c);
  }

  lemma MisledLater(s: State, e: Event, c: Config)
    requires s.status == Cleared && !e.PostWrite? && Step(s, e).status == Cleared && Misled(Step(s, e), c)
    ensures Misled(s, c)
  {
    var es :| NoPost(es) && !FirstReportIs(Step(s, e), es, c);
    var fs := [e] + es;
    assert fs[1..] == es;
    assert NoPost(fs) && !FirstReportIs(s, fs, c);
  }

  /** The position is on the way to the outcome of an attempt with c. */
  ghost predicate OnAttemptWith(s: State, c: Config) {
    OnAttempt(s.task) && (ConfigGiven(s.task.pc) ==> s.driverConfig == c)
  }

  /** Neither bound for the outcome of c, nor for a wait that never returns. */
  ghost predicate Astray(s: State, c: Config) {
    !OnAttemptWith(s, c) && !NeverErases(s) && s.task.pc != Blocked(HeadWait)
  }

  /** Still astray and closer to a report, or at it. */
  ghost predicate GoesOn(s: State, t: State, c: Config) {
    if t.status == Cleared then Astray(t, c) && Distance(t) < Distance(s) else !Published(s, t, c)
  }

  lemma AstrayHead(s: State, h: HeadPc, c: Config)
    requires Inv(s) && Astray(s, c) && s.status == Cleared && s.task.pc == Head(h)
    ensures GoesOn(s, HeadStep(s, h), c)
  {
  }

  lemma AstrayForget(s: State, f: ForgetPc, c: Config)
    requires Inv(s) && Astray(s, c) && s.status == Cleared && s.task.pc == Forget(f)
    ensures GoesOn(s, ForgetStep(s, f), c)
  {
  }

  lemma AstrayAttempt(s: State, a: AttemptPc, c: Config)
    requires Inv(s) && Astray(s, c) && s.status == Cleared && s.task.pc == Attempt(a)
    ensures GoesOn(s, AttemptStep(s, a), c)
  {
  }

  lemma AstrayOutcome(s: State, o: OutcomePc, c: Config)
    requires Inv(s) && Astray(s, c) && s.status == Cleared && s.task.pc == Outcome(o)
    ensures GoesOn(s, OutcomeStep(s, o), c)
  {
  }

  lemma AstrayCheck(s: State, k: CheckPc, caller: Caller, c: Config)
    requires Inv(s) && Astray(s, c) && s.status == Cleared && s.task.pc == Check(k, caller)
    ensures GoesOn(s, CheckStep(s, k, caller), c)
  {
  }

  lemma AstrayPing(s: State, p: PingPc, c: Config)
    requires Inv(s) && Astray(s, c) && s.status == Cleared && s.task.pc == Ping(p)
    ensures GoesOn(s, PingStep(s, p), c)
  {
  }

  lemma AstrayAtCall(s: State, w: Wait, c: Config)
    requires Inv(s) && Astray(s, c) && s.status == Cleared && s.task.pc == Call(w)
    requires w.HeadWait? ==> s.bits.reqDisconnect
    ensures GoesOn(s, s.(task := Await(s.task, w, s.bits)), c)
  {
  }

  lemma AstrayAtHeadWait(s: State, c: Config)
    requires Inv(s) && Astray(s, c) && s.status == Cleared && s.task.pc == Call(HeadWait) && !s.bits.reqDisconnect
    ensures GoesOn(s, Step(s, ForgetRequested), c)
  {
  }

  lemma AstrayBlocked(s: State, w: Wait, c: Config)
    requires Inv(s) && Astray(s, c) && s.status == Cleared && s.task.pc == Blocked(w)
    ensures GoesOn(s, Step(s, Choice(s)), c)
  {
  }

  lemma AstrayStep(s: State, c: Config)
    requires Inv(s) && Astray(s, c) && s.status == Cleared
    ensures GoesOn(s, Step(s, Choice(s)), c)
  {
    match s.task.pc
    case Call(w) =>
      if w.HeadWait? && !s.bits.reqDisconnect {
        AstrayAtHeadWait(s, c);
      } else {
        AstrayAtCall(s, w, c);
      }
    case Blocked(w) => AstrayBlocked(s, w, c);
    case Head(h) => AstrayHead(s, h, c);
    case Forget(f) => AstrayForget(s, f, c);
    case Attempt(a) => AstrayAttempt(s, a, c);
    case Outcome(o) => AstrayOutcome(s, o, c);
    case Check(k, caller) => AstrayCheck(s, k, caller, c);
    case Ping(p) => AstrayPing(s, p, c);
  }

  lemma {:induction false} AstrayMisleads(s: State, c: Config)
    requires Inv(s) && Astray(s, c) && s.status == Cleared
    ensures Misled(s, c)
    decreases Distance(s)
  {
    var e := Choice(s);
    AstrayStep(s, c);
    if Step(s, e).status == Cleared {
      StepKeepsInv(s, e);
      AstrayMisleads(Step(s, e), c);
      MisledLater(s, e, c);
    } else {
      MisledNow(s, e, c);
    }
  }

  // ------------------------------------------------------------------------
  // Exactly when it is the outcome of the POST
  // ------------------------------------------------------------------------

  /** A task that will never erase reports nothing. */
  lemma {:induction false} NeverErasesIsSilent(s: State, es: seq<Event>, c: Config)
    requires Inv(s) && NeverErases(s) && s.status == Cleared
    ensures FirstReportIs(s, es, c)
    decreases |es|
  {
    if es != [] {
      NeverErasesForever(s, [es[0]] + []);
      RunFirst(s, es[0], []);
      RunNothing(Step(s, es[0]));
      SilentStep(s, es[0]);
      StepKeepsInv(s, es[0]);
      NeverErasesIsSilent(Step(s, es[0]), es[1..], c);
    }
  }

  lemma SilentStep(s: State, e: Event)
    requires Inv(s) && NeverErases(s) && s.status == Cleared
    ensures Step(s, e).status == Cleared
  {
    if e.Task? {
      match s.task.pc
      case Call(_) =>
      case Blocked(_) =>
      case Head(_) =>
      case Forget(_) =>
    }
  }

  lemma PostWakesHeadOnly(t: TaskState, b: Bits)
    requires t.pc.Blocked? ==> !Satisfied(t.pc.wait, b)
    ensures var c := b.(reqConnect := true);
            Wake(t, c) == if t.pc == Blocked(HeadWait) then Return(t, HeadWait, c) else t
  {
  }

  /**
   A POST handled as one step, wherever the task is: in every run without another POST the first
   document, if any, is the outcome of an attempt with the posted config, if and only if the task waits at
   the head, or is on its way to an outcome of that config, or is bound for a wait that never returns.
   */
  lemma {:induction false} FirstReportIsOwnIff(s: State, c: Config)
    requires Inv(s) && s.http.HttpIdle?
    ensures (forall es :: NoPost(es) ==> FirstReportIs(Run(s, [PostWrite(c), PostClear, PostRequest]), es, c))
       <==> s.task.pc == Blocked(HeadWait) || OnAttemptWith(s, c) || NeverErases(s)
  {
    var t := AfterPost(s, c);
    PostWakesHeadOnly(s.task, s.bits);
    if s.task.pc == Blocked(HeadWait) || OnAttemptWith(s, c) {
      forall es | NoPost(es) ensures FirstReportIs(t, es, c) {
        AttemptingRun(t, es, c);
      }
    } else if NeverErases(s) {
      forall es | NoPost(es) ensures FirstReportIs(t, es, c) {
        NeverErasesIsSilent(t, es, c);
      }
    } else {
      AstrayMisleads(t, c);
    }
  }

  // ------------------------------------------------------------------------
  // The request
  // ------------------------------------------------------------------------

  /** The driver is given the config in RAM before the request for a connection is released. */
  ghost predicate ServedFirst(s: State, es: seq<Event>)
    decreases |es|
  {
    es == [] ||
    (es[0] == Task && s.task.pc == Attempt(SetConfig)) ||
    (!(es[0] == Task && s.task.pc == Outcome(ConnectRelease)) && ServedFirst(Step(s, es[0]), es[1..]))
  }

  /** From the connect call of an attempt until its request is released. */
  predicate InOldAttempt(pc: Pc) {
    match pc
    case Attempt(a) => a.Start?
    case Call(w) => w.OutcomeWait? || w == PingWait(FromConnect)
    case Blocked(w) => w.OutcomeWait? || w == PingWait(FromConnect)
    case Outcome(_) => true
    case Check(_, caller) => caller.FromConnect?
    case _ => false
  }

  lemma NotOldHeadForget(s: State, h: HeadPc, f: ForgetPc)
    ensures !InOldAttempt(HeadStep(s, h).task.pc) && !InOldAttempt(ForgetStep(s, f).task.pc)
  {
  }

  lemma NotOldAttempt(s: State, a: AttemptPc)
    requires !a.Start? && !a.SetConfig?
    ensures !InOldAttempt(AttemptStep(s, a).task.pc)
  {
  }

  lemma NotOldCheckPing(s: State, k: CheckPc, p: PingPc)
    ensures !InOldAttempt(CheckStep(s, k, FromPing).task.pc) && !InOldAttempt(PingStep(s, p).task.pc)
  {
  }

  lemma NotOldTask(s: State)
    requires !InOldAttempt(s.task.pc) && s.task.pc != Attempt(SetConfig)
    ensures !InOldAttempt(TaskStep(s).task.pc)
  {
    match s.task.pc
    case Call(_) =>
    case Blocked(_) =>
    case Head(h) => NotOldHeadForget(s, h, Erase);
    case Forget(f) => NotOldHeadForget(s, LoopEnd, f);
    case Attempt(a) => NotOldAttempt(s, a);
    case Check(k, _) => NotOldCheckPing(s, k, FetchConfig);
    case Ping(p) => NotOldCheckPing(s, LinkQuery, p);
  }

  lemma NotOldWake(t: TaskState, b: Bits)
    requires !InOldAttempt(t.pc)
    ensures !InOldAttempt(Wake(t, b).pc)
  {
  }

  lemma NotOldEvent(s: State, e: Event)
    requires !InOldAttempt(s.task.pc) && !e.Task?
    ensures !InOldAttempt(Step(s, e).task.pc)
  {
    match e
    case PingTimeout =>
    case ApClientLeft =>
    case GotIp => NotOldWake(s.task, s.bits.(connected := true));
    case LinkLost(_) =>
      var asked := s.bits.(reqConnect := true);
      NotOldWake(s.task, asked);
      NotOldWake(s.task, s.bits.(staDisconnect := true));
      NotOldWake(Wake(s.task, asked), asked.(staDisconnect := true));
    case PingReply(_) =>
      NotOldWake(s.task, s.bits.(haveInternet := true));
      NotOldWake(s.task, s.bits.(reqConnect := true));
    case PostWrite(_) =>
    case PostClear =>
    case RegistrationSaved =>
    case _ => NotOldWake(s.task, BitSetBy(s.bits, e));
  }

  lemma {:induction false} NotOldIsServed(s: State, es: seq<Event>)
    requires !InOldAttempt(s.task.pc)
    ensures ServedFirst(s, es)
    decreases |es|
  {
    if es != [] && !(es[0] == Task && s.task.pc == Attempt(SetConfig)) {
      if es[0].Task? {
        NotOldTask(s);
      } else {
        NotOldEvent(s, es[0]);
      }
      NotOldIsServed(Step(s, es[0]), es[1..]);
    }
  }

  /** Still in the old attempt, and closer to its end. */
  ghost predicate Nears(s: State, t: State) {
    InOldAttempt(t.task.pc) && Rank(t.task.pc) < Rank(s.task.pc)
  }

  lemma OldOutcome(s: State, o: OutcomePc)
    requires s.task.pc == Outcome(o) && !o.ConnectRelease?
    ensures Nears(s, OutcomeStep(s, o))
  {
  }

  lemma OldCheck(s: State, k: CheckPc)
    requires s.task.pc == Check(k, FromConnect)
    ensures Nears(s, CheckStep(s, k, FromConnect))
  {
  }

  lemma OldCall(s: State, w: Wait)
    requires s.task.pc == Call(w) && InOldAttempt(Call(w))
    ensures Nears(s, s.(task := Await(s.task, w, s.bits)))
  {
  }

  lemma OldBlocked(s: State, w: Wait)
    requires Inv(s) && s.task.pc == Blocked(w) && InOldAttempt(Blocked(w))
    ensures Nears(s, Step(s, Choice(s)))
  {
  }

  lemma OldStep(s: State)
    requires Inv(s) && InOldAttempt(s.task.pc) && s.task.pc != Outcome(ConnectRelease)
    ensures Nears(s, Step(s, Choice(s)))
  {
    match s.task.pc
    case Call(w) => OldCall(s, w);
    case Blocked(w) => OldBlocked(s, w);
    case Attempt(_) =>
    case Outcome(o) => OldOutcome(s, o);
    case Check(k, _) => OldCheck(s, k);
  }

  lemma {:induction false} OldReleases(s: State) returns (es: seq<Event>)
    requires Inv(s) && InOldAttempt(s.task.pc)
    ensures !ServedFirst(s, es)
    decreases Rank(s.task.pc)
  {
    if s.task.pc == Outcome(ConnectRelease) {
      es := [Task];
    } else {
      OldStep(s);
      StepKeepsInv(s, Choice(s));
      var rest := OldReleases(Step(s, Choice(s)));
      es := [Choice(s)] + rest;
      assert es[1..] == rest;
    }
  }

  /**
   A request for a connection is served with what RAM holds, before it can be released, if and only if
   the task is not in an attempt already made: there its end releases the new request with the old one.
   */
  lemma {:induction false} RequestIsServedIff(s: State)
    requires Inv(s) && s.bits.reqConnect
    ensures (forall es :: ServedFirst(s, es)) <==> !InOldAttempt(s.task.pc)
  {
    if InOldAttempt(s.task.pc) {
      var es := OldReleases(s);
    } else {
      forall es ensures ServedFirst(s, es) {
        NotOldIsServed(s, es);
      }
    }
  }
}
