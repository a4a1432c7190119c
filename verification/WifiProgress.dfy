/** How far the service loop gets: its requests drain. */
module WifiProgress {
  import opened WifiProtocol
  import opened WifiSafety

  // ------------------------------------------------------------------------
  // Requests drain
  // ------------------------------------------------------------------------

  /** The request bit cleared by a statement of the task, if it clears one. */
  datatype Released = Nothing | Connect | Scan | Disconnect | PingTest

  function ReleasedBy(pc: Pc): Released {
    if pc == Outcome(ConnectRelease) then Connect
    else if pc == Head(ScanRelease) then Released.Scan
    else if pc == Forget(Release) then Released.Disconnect
    else if pc == Ping(PingRelease) then PingTest
    else Nothing
  }

  ghost predicate ReleasesOnly(r: Released, a: Bits, b: Bits) {
    && (a.reqConnect && !b.reqConnect ==> r.Connect?)
    && (a.reqScan && !b.reqScan ==> r.Scan?)
    && (a.reqDisconnect && !b.reqDisconnect ==> r.Disconnect?)
    && (a.reqPing && !b.reqPing ==> r.PingTest?)
  }

  lemma HeadReleases(s: State, h: HeadPc)
    ensures ReleasesOnly(if h.ScanRelease? then Released.Scan else Nothing, s.bits, HeadStep(s, h).bits)
  {
  }

  lemma ForgetReleases(s: State, f: ForgetPc)
    ensures ReleasesOnly(if f.Release? then Released.Disconnect else Nothing, s.bits, ForgetStep(s, f).bits)
  {
  }

  lemma OutcomeReleases(s: State, o: OutcomePc)
    ensures ReleasesOnly(if o.ConnectRelease? then Connect else Nothing, s.bits, OutcomeStep(s, o).bits)
  {
  }

  lemma OtherReleases(s: State, a: AttemptPc, c: CheckPc, caller: Caller)
    ensures ReleasesOnly(Nothing, s.bits, AttemptStep(s, a).bits)
    ensures ReleasesOnly(Nothing, s.bits, CheckStep(s, c, caller).bits)
  {
  }

  lemma PingReleases(s: State, p: PingPc)
    ensures ReleasesOnly(if p.PingRelease? then PingTest else Nothing, s.bits, PingStep(s, p).bits)
  {
  }

  lemma TaskReleases(s: State)
    ensures ReleasesOnly(ReleasedBy(s.task.pc), s.bits, TaskStep(s).bits)
  {
    match s.task.pc
    case Call(_) =>
    case Blocked(_) =>
    case Head(h) => HeadReleases(s, h);
    case Forget(f) => ForgetReleases(s, f);
    case Attempt(a) => OtherReleases(s, a, LinkQuery, FromPing);
    case Outcome(o) => OutcomeReleases(s, o);
    case Check(c, caller) => OtherReleases(s, LinkTest, c, caller);
    case Ping(p) => PingReleases(s, p);
  }

  lemma BitSetReleasesNothing(b: Bits, e: Event)
    ensures ReleasesOnly(Nothing, b, BitSetBy(b, e))
  {
  }

  lemma HandlersReleaseNothing(s: State, reason: Reason, received: bool)
    ensures ReleasesOnly(Nothing, s.bits, OnGotIp(s).bits)
    ensures ReleasesOnly(Nothing, s.bits, OnLinkLost(s, reason).bits)
    ensures ReleasesOnly(Nothing, s.bits, OnPingReply(s, received).bits)
  {
  }

  lemma EventReleasesNothing(s: State, e: Event)
    requires !e.Task?
    ensures ReleasesOnly(Nothing, s.bits, Apply(s, e).bits)
  {
    match e
    case PingTimeout =>
    case ApClientLeft =>
    case GotIp => HandlersReleaseNothing(s, OtherReason, true);
    case LinkLost(reason) => HandlersReleaseNothing(s, reason, true);
    case PingReply(received) => HandlersReleaseNothing(s, OtherReason, received);
    case PostWrite(_) =>
    case PostClear =>
    case RegistrationSaved =>
    case _ => BitSetReleasesNothing(s.bits, e);
  }

  /** Each request bit is cleared only by the task, at the end of that request's own branch. */
  lemma RequestsReleasedByOwnBranch(s: State, e: Event)
    ensures ReleasesOnly(if e.Task? then ReleasedBy(s.task.pc) else Nothing, s.bits, Step(s, e).bits)
  {
    if Enabled(s, e) {
      if e.Task? {
        TaskReleases(s);
      } else {
        EventReleasesNothing(s, e);
      }
    }
  }

  /** Events from which no new request can come. */
  predicate Quiet(e: Event) {
    match e
    case LinkLost(reason) => !reason.OtherReason?
    case PingReply(received) => received
    case PostRequest | ForgetRequested | ScanRequested | PingRequested | TimerExpired => false
    case _ => true
  }

  function Requests(b: Bits): (n: nat)
    ensures n <= 5
    ensures n == 0 <==> !Satisfied(HeadWait, b)
  {
      (if b.reqPing then 2 else 0) + (if b.reqConnect then 1 else 0)
    + (if b.reqScan then 1 else 0) + (if b.reqDisconnect then 1 else 0)
  }

  /** What the iteration under way still has to clear: the weight of the request it is serving. */
  function Debt(t: TaskState): nat {
    match t.pc
    case Call(w) => if w.HeadWait? then 0 else 1
    case Blocked(w) => if w.HeadWait? then 0 else 1
    case Head(h) =>
      (match h
       case LoopEnd => 0
       case Dispatch => if t.ux.reqDisconnect then 0 else 1
       case _ => 1)
    case Ping(p) => if p.PingRelease? then 2 else 1
    case _ => 1
  }

  /** Statements left in the iteration under way. */
  function Rank(pc: Pc): (n: nat)
    ensures n < 60
  {
    match pc
    case Call(w) =>
      (match w
       case HeadWait => 1
       case ForgetWait => 45
       case ReconnectWait => 34
       case OutcomeWait => 29
       case PingWait(caller) => if caller.FromConnect? then 19 else 12)
    case Blocked(w) =>
      (match w
       case HeadWait => 0
       case ForgetWait => 44
       case ReconnectWait => 33
       case OutcomeWait => 28
       case PingWait(caller) => if caller.FromConnect? then 18 else 11)
    case Head(h) =>
      (match h case ForgetTest => 55 case Dispatch => 38 case Scan => 4 case ScanRelease => 3 case LoopEnd => 2)
    case Forget(f) =>
      (match f
       case DropInternet => 50 case ConnectedTest => 49 case ClearLost => 48 case Disconnect => 47
       case ClearLostAgain => 43 case Erase => 42 case Save => 41 case Publish => 40 case Release => 39)
    case Attempt(a) =>
      (match a
       case LinkTest => 37 case DropLost => 36 case DropLink => 35
       case ResetLost => 32 case SetConfig => 31 case Start => 30)
    case Outcome(o) =>
      (match o
       case Judge => 27 case OkPublish => 26 case OkSave => 25
       case FailPublish => 6 case FailErase => 5 case FailMarkLost => 4 case NoOutcome => 4
       case ConnectRelease => 3)
    case Check(c, caller) =>
      var base := if caller.FromConnect? then 14 else 7;
      (match c
       case LinkQuery => base + 8 case ForgetInternet => base + 7 case SendPing => base + 6
       case TimerTest(_) => base + 3 case Result(_) => base + 2)
    case Ping(p) =>
      (match p
       case FetchConfig => 8 case SsidTest => 7 case ClearStatus => 6 case RequestConnect => 5 case PingRelease => 3)
  }

  /** Serving one request of weight 1 takes less than this many statements. */
  const ROUND := 60

  /** Weight of the requests the iteration under way will not clear, and the statements it has left. */
  ghost function Potential(t: TaskState, b: Bits): int {
    ROUND * (Requests(b) - Debt(t)) + Rank(t.pc)
  }

  /** No iteration begins without a request, and none ends without clearing one. */
  ghost predicate Conserves(t: TaskState, b: Bits, t': TaskState, b': Bits) {
    Requests(b') - Debt(t') + t'.iterations <= Requests(b) - Debt(t) + t.iterations
  }

  ghost predicate Advances(t: TaskState, b: Bits, t': TaskState, b': Bits) {
    Potential(t', b') < Potential(t, b) && Conserves(t, b, t', b')
  }

  lemma HeadProgress(s: State, h: HeadPc)
    requires Inv(s) && s.task.pc == Head(h)
    ensures var t := HeadStep(s, h); Advances(s.task, s.bits, t.task, t.bits)
  {
  }

  lemma ForgetProgress(s: State, f: ForgetPc)
    requires Inv(s) && s.task.pc == Forget(f)
    ensures var t := ForgetStep(s, f); Advances(s.task, s.bits, t.task, t.bits)
  {
  }

  lemma AttemptProgress(s: State, a: AttemptPc)
    requires Inv(s) && s.task.pc == Attempt(a)
    ensures var t := AttemptStep(s, a); Advances(s.task, s.bits, t.task, t.bits)
  {
  }

  lemma OutcomeProgress(s: State, o: OutcomePc)
    requires Inv(s) && s.task.pc == Outcome(o)
    ensures var t := OutcomeStep(s, o); Advances(s.task, s.bits, t.task, t.bits)
  {
  }

  lemma CheckProgress(s: State, c: CheckPc, caller: Caller)
    requires Inv(s) && s.task.pc == Check(c, caller)
    ensures var t := CheckStep(s, c, caller); Advances(s.task, s.bits, t.task, t.bits)
  {
    if c.Result? {
      ResultProgress(s, c.ret, caller);
    } else {
      QueryProgress(s, c, caller);
    }
  }

  /** Within a branch, every statement leaves the requests and the debt, and has fewer behind it. */
  lemma StepsOn(t: TaskState, b: Bits, t': TaskState, b': Bits)
    requires Requests(b') == Requests(b) && Debt(t') == Debt(t) && Rank(t'.pc) < Rank(t.pc)
    requires t'.iterations == t.iterations
    ensures Advances(t, b, t', b')
  {
  }

  lemma ResultProgress(s: State, ret: int, caller: Caller)
    requires s.task.pc == Check(Result(ret), caller)
    ensures var t := CheckStep(s, Result(ret), caller); Advances(s.task, s.bits, t.task, t.bits)
  {
    var t := CheckStep(s, Result(ret), caller);
    assert t.task.pc == if caller.FromConnect? then Outcome(ConnectRelease)
                        else Ping(if ret == ERR_WIFI_DISCONECTED then FetchConfig else PingRelease);
    if caller.FromConnect? {
      StepsOn(s.task, s.bits, t.task, t.bits);
    }
  }

  lemma QueryProgress(s: State, c: CheckPc, caller: Caller)
    requires s.task.pc == Check(c, caller) && !c.Result?
    ensures var t := CheckStep(s, c, caller); Advances(s.task, s.bits, t.task, t.bits)
  {
  }

  lemma PingProgress(s: State, p: PingPc)
    requires Inv(s) && s.task.pc == Ping(p)
    ensures var t := PingStep(s, p); Advances(s.task, s.bits, t.task, t.bits)
  {
  }

  lemma AwaitProgress(s: State, w: Wait)
    requires Inv(s) && s.task.pc == Call(w)
    ensures Advances(s.task, s.bits, Await(s.task, w, s.bits), s.bits)
  {
  }

  /** Every statement of the task brings it closer to being blocked. */
  lemma TaskProgress(s: State)
    requires Inv(s) && !s.task.pc.Blocked?
    ensures var t := TaskStep(s); Advances(s.task, s.bits, t.task, t.bits)
  {
    match s.task.pc
    case Call(w) => AwaitProgress(s, w);
    case Head(h) => HeadProgress(s, h);
    case Forget(f) => ForgetProgress(s, f);
    case Attempt(a) => AttemptProgress(s, a);
    case Outcome(o) => OutcomeProgress(s, o);
    case Check(c, caller) => CheckProgress(s, c, caller);
    case Ping(p) => PingProgress(s, p);
  }

  /** Being released from a wait is progress too, as long as no request comes with it. */
  lemma WakeProgress(t: TaskState, b: Bits)
    requires t.pc.Blocked? && t.pc.wait.HeadWait? ==> !Satisfied(HeadWait, b)
    ensures Debt(Wake(t, b)) == Debt(t) && Rank(Wake(t, b).pc) <= Rank(t.pc)
    ensures Wake(t, b).iterations == t.iterations
  {
  }

  /** The debt stands, and the iteration does not get longer. */
  ghost predicate Keeps(t: TaskState, t': TaskState) {
    Debt(t') == Debt(t) && Rank(t'.pc) <= Rank(t.pc) && t'.iterations == t.iterations
  }

  /** A wait that is satisfied without a new request is not the one at the head. */
  lemma QuietWake(t: TaskState, a: Bits, b: Bits)
    requires t.pc.Blocked? ==> !Satisfied(t.pc.wait, a)
    requires Requests(a) == Requests(b)
    ensures Keeps(t, Wake(t, b))
  {
    WakeProgress(t, b);
  }

  lemma QuietTimeout(s: State)
    requires Enabled(s, PingTimeout)
    ensures Keeps(s.task, Apply(s, PingTimeout).task)
  {
  }

  lemma QuietGotIp(s: State)
    requires Inv(s)
    ensures Keeps(s.task, Apply(s, GotIp).task)
  {
    QuietWake(s.task, s.bits, s.bits.(connected := true));
  }

  lemma QuietLinkLost(s: State, reason: Reason)
    requires Inv(s) && !reason.OtherReason?
    ensures Keeps(s.task, Apply(s, LinkLost(reason)).task)
  {
    QuietWake(s.task, s.bits, s.bits.(staDisconnect := true));
  }

  lemma QuietPingReply(s: State)
    requires Inv(s)
    ensures Keeps(s.task, Apply(s, PingReply(true)).task)
  {
    QuietWake(s.task, s.bits, s.bits.(haveInternet := true));
  }

  lemma QuietSetBit(s: State, e: Event)
    requires Inv(s) && Requests(BitSetBy(s.bits, e)) == Requests(s.bits)
    ensures Keeps(s.task, OnSetBit(s, e).task)
  {
    QuietWake(s.task, s.bits, BitSetBy(s.bits, e));
  }

  lemma QuietTask(s: State, e: Event)
    requires Inv(s) && Quiet(e) && !e.Task? && Enabled(s, e)
    ensures Keeps(s.task, Apply(s, e).task)
  {
    match e
    case PingTimeout => QuietTimeout(s);
    case ApClientLeft =>
    case GotIp => QuietGotIp(s);
    case LinkLost(reason) => QuietLinkLost(s, reason);
    case PingReply(_) => QuietPingReply(s);
    case PostWrite(_) =>
    case PostClear =>
    case RegistrationSaved =>
    case _ => QuietSetBit(s, e);
  }

  lemma QuietRequests(s: State, e: Event)
    requires Quiet(e) && !e.Task?
    ensures Requests(Apply(s, e).bits) == Requests(s.bits)
  {
  }

  lemma QuietProgress(s: State, e: Event)
    requires Inv(s) && Quiet(e) && !e.Task?
    ensures var t := Step(s, e);
            Potential(t.task, t.bits) <= Potential(s.task, s.bits) && Conserves(s.task, s.bits, t.task, t.bits)
  {
    if Enabled(s, e) {
      QuietTask(s, e);
      QuietRequests(s, e);
    }
  }

  ghost predicate AllQuiet(es: seq<Event>) {
    forall i :: 0 <= i < |es| ==> Quiet(es[i])
  }

  /** Statements the task executes in a run. */
  function Statements(s: State, es: seq<Event>): (n: nat)
    decreases |es|
  {
    if es == [] then 0
    else (if es[0].Task? && !s.task.pc.Blocked? then 1 else 0) + Statements(Step(s, es[0]), es[1..])
  }

  lemma {:induction false} QuietRun(s: State, es: seq<Event>)
    requires Inv(s) && AllQuiet(es)
    ensures var t := Run(s, es);
            && Potential(t.task, t.bits) + Statements(s, es) <= Potential(s.task, s.bits)
            && Conserves(s.task, s.bits, t.task, t.bits)
    decreases |es|
  {
    if es != [] {
      if es[0].Task? {
        if !s.task.pc.Blocked? { TaskProgress(s); }
      } else {
        QuietProgress(s, es[0]);
      }
      StepKeepsInv(s, es[0]);
      QuietRun(Step(s, es[0]), es[1..]);
    }
  }

  /** The iteration under way serves a request that is still set. */
  lemma DebtIsBacked(s: State)
    requires Inv(s)
    ensures Debt(s.task) <= Requests(s.bits)
  {
  }

  /**
   From the head of the loop, while nobody asks for anything new: the weight of the set requests
   falls by at least one in every iteration, so there are at most five; the task blocks after a
   bounded number of statements; and if it blocks at the head, no request is left.
   */
  lemma {:induction false} RequestsDrain(s: State, es: seq<Event>)
    requires Inv(s) && s.task.pc == Call(HeadWait) && AllQuiet(es)
    ensures var t := Run(s, es);
            && s.task.iterations <= t.task.iterations <= s.task.iterations + Requests(s.bits)
            && (t.task.pc == Call(HeadWait) ==>
                  Requests(t.bits) <= Requests(s.bits) - (t.task.iterations - s.task.iterations))
            && (t.task.pc == Blocked(HeadWait) ==> Requests(t.bits) == 0)
            && Statements(s, es) <= ROUND * Requests(s.bits) + 1
  {
    QuietRun(s, es);
    RunKeepsInv(s, es);
    DebtIsBacked(Run(s, es));
    IterationsGrow(s, es);
  }

  lemma TaskGrows(s: State)
    ensures s.task.iterations <= TaskStep(s).task.iterations
  {
    match s.task.pc
    case Call(_) =>
    case Blocked(_) =>
    case Head(_) =>
    case Forget(_) =>
    case Attempt(_) =>
    case Outcome(_) =>
    case Check(_, _) =>
    case Ping(_) =>
  }

  lemma WakeGrows(t: TaskState, b: Bits)
    ensures t.iterations <= Wake(t, b).iterations
  {
  }

  lemma EventGrows(s: State, e: Event)
    requires !e.Task?
    ensures s.task.iterations <= Apply(s, e).task.iterations
  {
    match e
    case PingTimeout =>
    case ApClientLeft =>
    case GotIp => WakeGrows(s.task, s.bits.(connected := true));
    case LinkLost(_) =>
      var asked := s.bits.(reqConnect := true);
      WakeGrows(s.task, asked);
      WakeGrows(s.task, s.bits.(staDisconnect := true));
      WakeGrows(Wake(s.task, asked), asked.(staDisconnect := true));
    case PingReply(_) =>
      WakeGrows(s.task, s.bits.(haveInternet := true));
      WakeGrows(s.task, s.bits.(reqConnect := true));
    case PostWrite(_) =>
    case PostClear =>
    case RegistrationSaved =>
    case _ => WakeGrows(s.task, BitSetBy(s.bits, e));
  }

  lemma StepGrows(s: State, e: Event)
    ensures s.task.iterations <= Step(s, e).task.iterations
  {
    if Enabled(s, e) {
      if e.Task? {
        TaskGrows(s);
      } else {
        EventGrows(s, e);
      }
    }
  }

  lemma {:induction false} IterationsGrow(s: State, es: seq<Event>)
    ensures s.task.iterations <= Run(s, es).task.iterations
    decreases |es|
  {
    if es != [] {
      StepGrows(s, es[0]);
      IterationsGrow(Step(s, es[0]), es[1..]);
    }
  }
}
