/**
 The WiFi manager as the firmware writes it: shared fields updated in place, event handlers that set
 and clear bits one call at a time, and a service loop with its branches and its local uxBits. The
 loop is driven by a schedule, which says at each point whether the task executes its next statement
 or something else happens first. Along every schedule it does what the protocol does. Line numbers are
 those of main/wifi_manager.c.
 */
module WifiManager {
  import opened Bytes
  import opened WifiConfig
  import opened WifiProtocol
  import opened HttpHeader
  import opened WifiSafety
  import opened WifiRuns

  lemma RunNext(s: State, es: seq<Event>, k: nat)
    requires k < |es|
    ensures Run(s, es[..k + 1]) == Step(Run(s, es[..k]), es[k])
  {
    assert es[..k + 1] == es[..k] + ([es[k]] + []);
    RunAppend(s, es[..k], [es[k]] + []);
    RunFirst(Run(s, es[..k]), es[k], []);
    RunNothing(Step(Run(s, es[..k]), es[k]));
  }

  /** What a call on the event group or an event does to the task: nothing, or it ends its wait. */
  ghost predicate Progress(t: TaskState, w: Option<Wait>, t': TaskState, w': Option<Wait>, released: Option<Bits>) {
    match w
    case None => t' == t && w'.None?
    case Some(wait) =>
      || (t' == t && w' == w)
      || (w'.None? && released.Some? && t' == Return(t, wait, released.value))
  }

  lemma ProgressTwice(t: TaskState, w: Option<Wait>, t1: TaskState, w1: Option<Wait>, r1: Option<Bits>,
                      t2: TaskState, w2: Option<Wait>, r2: Option<Bits>)
    requires Progress(t, w, t1, w1, r1) && Progress(t1, w1, t2, w2, r2)
    requires w1.None? ==> r2 == r1
    ensures Progress(t, w, t2, w2, r2)
  {
  }

  class Manager {
    // the event group: its word, the wait of the service task, and the word that ended the last wait
    var bits: Bits
    var waiting: Option<Wait>
    var released: Option<Bits>

    // the driver, the two copies of the config, and what is published
    var driver: Driver
    var driverConfig: Config
    var ram: Config
    var nvs: Nvs
    var status: Status
    var timerActive: bool
    var http: HttpPc

    // the schedule, and how far it has been followed
    const schedule: seq<Event>
    var next: nat

    // the protocol's view of the task and of the past
    ghost var task: TaskState
    ghost var reached: set<Config>
    ghost const start: State
    ghost var before: State

    ghost function Now(): State
      reads this
    {
      State(task, bits, driver, driverConfig, ram, nvs, status, timerActive, http, reached)
    }

    /** The event group knows whether the task is waiting, and for what. */
    ghost predicate Waits()
      reads this
    {
      && (task.pc.Blocked? <==> waiting.Some?)
      && (waiting.Some? ==> task.pc == Blocked(waiting.value))
    }

    /** The schedule has been followed to the present state. */
    ghost predicate Valid()
      reads this
    {
      && next <= |schedule|
      && Now() == Run(start, schedule[..next])
      && Waits()
    }

    /** The schedule has the task execute its next statement, from the state before. */
    ghost predicate Due()
      reads this
    {
      && 0 < next <= |schedule| && schedule[next - 1] == Task
      && before == Run(start, schedule[..next - 1])
      && task == before.task && !task.pc.Blocked? && waiting.None?
    }

    /** Start-up: fetch the stored config, and request a connection if there is one. */
    constructor (stored: Nvs, schedule: seq<Event>)
      ensures Valid() && next == 0 && this.schedule == schedule
      ensures start == Boot(stored) == Now()
      ensures waiting.None?
    {
      this.schedule := schedule;
      next := 0;
      nvs, ram, status := stored, ZERO_CONFIG, Cleared;
      driver, driverConfig := Idle, ZERO_CONFIG;
      timerActive, http, reached := false, HttpIdle, {};
      waiting, released := None, None;
      bits := Bits(false, false, true, false, false, false, false, false, false, false);
      start := Boot(stored);
      new;
      var found := FetchStaConfig();
      if found {
        bits := bits.(reqConnect := true);
      }
      bits := bits.(reqScan := true);
      task := TaskState(Call(HeadWait), bits, 0);
      RunNothing(start);
      assert schedule[..0] == [];
    }

    // ----------------------------------------------------------------------
    // Event group
    // ----------------------------------------------------------------------

    /** xEventGroupSetBits, given the resulting word: a waiter it satisfies is released with that word. */
    method SetBits(b: Bits)
      requires Waits()
      modifies this`bits, this`waiting, this`released, this`task
      ensures Now() == Set(old(Now()), b) && Waits()
      ensures Progress(old(task), old(waiting), task, waiting, released)
      ensures old(waiting).None? ==> released == old(released)
    {
      bits := b;
      if waiting.Some? && Satisfied(waiting.value, bits) {
        waiting, released := None, Some(bits);
      }
      task := Wake(task, b);
    }

    /**
     xEventGroupWaitBits: returns at once, or when a call releases the task, with the word at that
     moment. None means that the schedule ends first.
     */
    method WaitBits(w: Wait) returns (r: Option<Bits>)
      requires Valid() && task.pc == Call(w)
      modifies this
      ensures Valid() && next >= old(next)
      ensures r.Some? ==> task == Return(old(task), w, r.value) && next > old(next)
      ensures r.None? ==> next == |schedule|
    {
      var turn := Turn();
      if !turn { return None; }
      RunNext(start, schedule, next - 1);
      if Satisfied(w, bits) {
        task := Return(task, w, bits);
        return Some(bits);
      }
      waiting, released := Some(w), None;
      task := task.(pc := Blocked(w));
      r := AwaitRelease();
    }

    /** While the task is blocked, everything else goes on; its own turns pass. */
    method AwaitRelease() returns (r: Option<Bits>)
      requires Valid() && waiting.Some?
      modifies this
      ensures Valid() && next >= old(next)
      ensures r.Some? ==> waiting.None? && task == Return(old(task), old(waiting).value, r.value)
      ensures r.None? ==> next == |schedule|
    {
      ghost var blocked, w := task, waiting;
      while waiting.Some? && next < |schedule|
        invariant Valid() && next >= old(next)
        invariant Progress(blocked, w, task, waiting, released)
        decreases |schedule| - next
      {
        RunNext(start, schedule, next);
        if schedule[next] != Task {
          Handle(schedule[next]);
        }
        next := next + 1;
      }
      r := if waiting.Some? then None else released;
    }

    // ----------------------------------------------------------------------
    // Event handler, callbacks, HTTP server
    // ----------------------------------------------------------------------

    method GotIp()
      requires Waits()
      modifies this`driver, this`reached, this`bits, this`waiting, this`released, this`task
      ensures Now() == OnGotIp(old(Now())) && Waits()
      ensures Progress(old(task), old(waiting), task, waiting, released)
    {
      driver := Up;
      reached := reached + {driverConfig};
      SetBits(bits.(connected := true));
      bits := bits.(reqReconnect := false);
    }

    method Disconnected(reason: Reason)
      requires Waits()
      modifies this`driver, this`bits, this`waiting, this`released, this`task
      ensures Now() == OnLinkLost(old(Now()), reason) && Waits()
      ensures Progress(old(task), old(waiting), task, waiting, released)
    {
      driver := Idle;
      if reason == OtherReason {
        SetBits(bits.(reqConnect := true));
      }
      ghost var t, w, r := task, waiting, released;
      SetBits(bits.(staDisconnect := true));
      ProgressTwice(old(task), old(waiting), t, w, r, task, waiting, released);
      bits := bits.(connected := false);
      bits := bits.(haveInternet := false);
    }

    method ConnectAsync()
      requires Waits()
      modifies this`status, this`bits, this`waiting, this`released, this`task
      ensures Now() == Set(old(Now()).(status := Cleared), old(bits).(reqConnect := true)) && Waits()
      ensures Progress(old(task), old(waiting), task, waiting, released)
    {
      status := Cleared;
      SetBits(bits.(reqConnect := true));
    }

    method PingResults(received: bool)
      requires Waits()
      modifies this`status, this`timerActive, this`bits, this`waiting, this`released, this`task
      ensures Now() == OnPingReply(old(Now()), received) && Waits()
      ensures Progress(old(task), old(waiting), task, waiting, released)
    {
      if received {
        SetBits(bits.(haveInternet := true));
        timerActive := false;
      } else {
        ConnectAsync();
      }
    }

    /** POST /connect.json, handled without interruption. */
    method PostConnect(config: Config)
      requires http.HttpIdle? && Waits()
      modifies this`ram, this`status, this`bits, this`waiting, this`released, this`task
      ensures Now() == Run(old(Now()), [PostWrite(config), PostClear, PostRequest]) && Waits()
    {
      RunThree(Now(), PostWrite(config), PostClear, PostRequest);
      ram := config;
      ConnectAsync();
    }

    /** A request to connect: the credentials it delivers are taken, or it is answered with an error. */
    method ConnectRequest(request: seq<byte>) returns (post: Post)
      requires http.HttpIdle? && Waits()
      modifies this`ram, this`status, this`bits, this`waiting, this`released, this`task
      ensures post == Posted(CStr(request), HasNul(request)) && Waits()
      ensures match post
              case Taken(config) => Now() == Run(old(Now()), [PostWrite(config), PostClear, PostRequest])
              case BadRequest => Now() == old(Now())
              case BeyondRequest => true
    {
      post := ReadPost(request);
      if post.Taken? {
        PostConnect(post.config);
      }
    }

    /** An event whose effect is on one bit, or on one field. */
    method SimpleEvent(e: Event)
      requires Enabled(Now(), e) && !e.Task? && !e.GotIp? && !e.LinkLost? && !e.PingReply? && Waits()
      modifies this`ram, this`nvs, this`status, this`timerActive, this`http,
               this`bits, this`waiting, this`released, this`task
      ensures Now() == Apply(old(Now()), e) && Waits()
      ensures Progress(old(task), old(waiting), task, waiting, released)
    {
      if e.PingTimeout? {
        waiting, released := None, Some(bits);
        task := Return(task, task.pc.wait, bits);
      } else if e.ApClientLeft? {
        bits := bits.(apClient := false);
      } else if e.PostWrite? {
        ram, http := e.config, HttpWrote;
      } else if e.PostClear? {
        status, http := Cleared, HttpCleared;
      } else if e.RegistrationSaved? {
        nvs := if nvs.NoNamespace? then NoCredentials else nvs;
      } else {
        timerActive := timerActive && !e.TimerExpired?;
        http := if e.PostRequest? then HttpIdle else http;
        SetBits(BitSetBy(bits, e));
      }
    }

    /** Whatever happens besides the task's own statements. */
    method Handle(e: Event)
      requires !e.Task? && Waits()
      modifies this`driver, this`reached, this`ram, this`nvs, this`status, this`timerActive, this`http,
               this`bits, this`waiting, this`released, this`task
      ensures Now() == Step(old(Now()), e) && Waits()
      ensures Progress(old(task), old(waiting), task, waiting, released)
    {
      var enabled := match e
        case PingTimeout => waiting.Some? && waiting.value.PingWait?
        case GotIp => !driver.Idle?
        case LinkLost(_) => !driver.Idle?
        case PingReply(received) => received ==> driver.Up?
        case TimerExpired => timerActive
        case PostWrite(_) => http.HttpIdle?
        case PostClear => http.HttpWrote?
        case PostRequest => http.HttpCleared?
        case _ => true;
      assert enabled == Enabled(Now(), e);
      if enabled {
        if e.GotIp? {
          GotIp();
        } else if e.LinkLost? {
          Disconnected(e.reason);
        } else if e.PingReply? {
          PingResults(e.received);
        } else {
          SimpleEvent(e);
        }
      }
    }

    // ----------------------------------------------------------------------
    // Scheduling
    // ----------------------------------------------------------------------

    /** Let happen what the schedule has before the task's next statement; false if that never comes. */
    method Turn() returns (ok: bool)
      requires Valid() && waiting.None?
      modifies this
      ensures task == old(task) && waiting.None?
      ensures if ok then Due() && before == Now() && next > old(next) else Valid() && next == |schedule|
    {
      while next < |schedule|
        invariant Valid() && waiting.None? && task == old(task) && next >= old(next)
      {
        RunNext(start, schedule, next);
        if schedule[next] == Task {
          before := Now();
          next := next + 1;
          return true;
        }
        Handle(schedule[next]);
        next := next + 1;
      }
      ok := false;
    }

    /** The statement just executed took the state before to t; the next one is at pc. */
    ghost method Done(t: State, pc: Pc)
      requires Due() && !pc.Blocked? && t == TaskStep(before)
      requires t == Now().(task := task.(pc := pc))
      modifies this`task
      ensures task == old(task).(pc := pc) && Valid()
    {
      task := task.(pc := pc);
      RunNext(start, schedule, next - 1);
    }

    ghost method DoneHead(h: HeadPc, pc: Pc)
      requires Due() && !pc.Blocked? && task.pc == Head(h)
      requires HeadStep(before, h) == Now().(task := task.(pc := pc))
      modifies this`task
      ensures task == old(task).(pc := pc) && Valid()
    {
      Done(HeadStep(before, h), pc);
    }

    ghost method DoneForget(f: ForgetPc, pc: Pc)
      requires Due() && !pc.Blocked? && task.pc == Forget(f)
      requires ForgetStep(before, f) == Now().(task := task.(pc := pc))
      modifies this`task
      ensures task == old(task).(pc := pc) && Valid()
    {
      Done(ForgetStep(before, f), pc);
    }

    ghost method DoneAttempt(a: AttemptPc, pc: Pc)
      requires Due() && !pc.Blocked? && task.pc == Attempt(a)
      requires AttemptStep(before, a) == Now().(task := task.(pc := pc))
      modifies this`task
      ensures task == old(task).(pc := pc) && Valid()
    {
      Done(AttemptStep(before, a), pc);
    }

    ghost method DoneOutcome(o: OutcomePc, pc: Pc)
      requires Due() && !pc.Blocked? && task.pc == Outcome(o)
      requires OutcomeStep(before, o) == Now().(task := task.(pc := pc))
      modifies this`task
      ensures task == old(task).(pc := pc) && Valid()
    {
      Done(OutcomeStep(before, o), pc);
    }

    ghost method DoneCheck(c: CheckPc, caller: Caller, pc: Pc)
      requires Due() && !pc.Blocked? && task.pc == Check(c, caller)
      requires CheckStep(before, c, caller) == Now().(task := task.(pc := pc))
      modifies this`task
      ensures task == old(task).(pc := pc) && Valid()
    {
      Done(CheckStep(before, c, caller), pc);
    }

    ghost method DonePing(p: PingPc, pc: Pc)
      requires Due() && !pc.Blocked? && task.pc == Ping(p)
      requires PingStep(before, p) == Now().(task := task.(pc := pc))
      modifies this`task
      ensures task == old(task).(pc := pc) && Valid()
    {
      Done(PingStep(before, p), pc);
    }

    // ----------------------------------------------------------------------
    // The service loop
    // ----------------------------------------------------------------------

    /** True iff a config with a name was stored; clears the RAM config if there are no credentials. */
    method FetchStaConfig() returns (found: bool)
      modifies this`ram
      ensures ram == Fetch(old(ram), nvs)
      ensures found <==> nvs.Stored? && HasSsid(nvs.config)
    {
      if nvs.NoNamespace? {
        return false;
      }
      ram := ZERO_CONFIG;
      if nvs.NoCredentials? {
        return false;
      }
      ram := nvs.config;
      found := ram.ssid != [];
    }

    /** One iteration of wifi_manager; false if the schedule ends within it. */
    method Iteration() returns (ok: bool)
      requires Valid() && task.pc == Call(HeadWait)
      modifies this
      ensures Valid() && next >= old(next)
      ensures if ok then task.pc == Call(HeadWait) && next > old(next) else next == |schedule|
    {
      var woken := WaitBits(HeadWait);
      if woken.None? { return false; }
      ok := ForgetIfAsked(woken.value);
      if !ok { return; }
      ok := Dispatch(woken.value);
      if !ok { return; }
      ok := Turn();
      if !ok { return; }
      DoneHead(LoopEnd, Call(HeadWait));
    }

    /** Lines 857 to 895. */
    method ForgetIfAsked(uxBits: Bits) returns (ok: bool)
      requires Valid() && task.pc == Head(ForgetTest) && task.ux == uxBits
      modifies this
      ensures Valid() && next >= old(next)
      ensures if ok then task == old(task).(pc := Head(WifiProtocol.Dispatch)) else next == |schedule|
    {
      ok := Turn();
      if !ok { return; }
      if uxBits.reqDisconnect {
        DoneHead(ForgetTest, Forget(DropInternet));
        ok := Disconnect(uxBits);
      } else {
        DoneHead(ForgetTest, Head(WifiProtocol.Dispatch));
      }
    }

    /** The other requests, of which one is served. */
    method Dispatch(uxBits: Bits) returns (ok: bool)
      requires Valid() && task.pc == Head(WifiProtocol.Dispatch) && task.ux == uxBits
      modifies this
      ensures Valid() && next >= old(next)
      ensures if ok then task.pc == Head(LoopEnd) else next == |schedule|
    {
      ok := Turn();
      if !ok { return; }
      if uxBits.reqConnect {
        DoneHead(WifiProtocol.Dispatch, Attempt(LinkTest));
        ok := Connect(uxBits);
      } else if uxBits.reqScan {
        DoneHead(WifiProtocol.Dispatch, Head(WifiProtocol.Scan));
        ok := Scan(uxBits);
      } else if uxBits.reqPing {
        DoneHead(WifiProtocol.Dispatch, Check(LinkQuery, FromPing));
        ok := PingTest();
      } else {
        DoneHead(WifiProtocol.Dispatch, Head(LoopEnd));
      }
    }

    /** The branch of a user disconnect. */
    method Disconnect(uxBits: Bits) returns (ok: bool)
      requires Valid() && task.pc == Forget(DropInternet) && task.ux == uxBits
      modifies this
      ensures Valid() && next >= old(next)
      ensures if ok then task == old(task).(pc := Head(WifiProtocol.Dispatch)) else next == |schedule|
    {
      ok := Turn();
      if !ok { return; }
      bits := bits.(haveInternet := false);
      DoneForget(DropInternet, Forget(ConnectedTest));
      ok := Turn();
      if !ok { return; }
      if uxBits.connected {
        DoneForget(ConnectedTest, Forget(ClearLost));
        ok := LeaveNetwork();
        if !ok { return; }
      } else {
        DoneForget(ConnectedTest, Forget(ClearLostAgain));
      }
      ok := EraseCredentials();
    }

    /** Lines 867 to 872: disconnect, and wait until the loss is reported. */
    method LeaveNetwork() returns (ok: bool)
      requires Valid() && task.pc == Forget(ClearLost)
      modifies this
      ensures Valid() && next >= old(next)
      ensures if ok then task == old(task).(pc := Forget(ClearLostAgain)) else next == |schedule|
    {
      ok := Turn();
      if !ok { return; }
      bits := bits.(staDisconnect := false);
      DoneForget(ClearLost, Forget(WifiProtocol.Disconnect));
      ok := Turn();
      if !ok { return; }
      DoneForget(WifiProtocol.Disconnect, Call(ForgetWait));
      var woken := WaitBits(ForgetWait);
      ok := woken.Some?;
    }

    /** Lines 879 to 894: erase the config, save the zeros, tell the client. */
    method EraseCredentials() returns (ok: bool)
      requires Valid() && task.pc == Forget(ClearLostAgain)
      modifies this
      ensures Valid() && next >= old(next)
      ensures if ok then task == old(task).(pc := Head(WifiProtocol.Dispatch)) else next == |schedule|
    {
      ok := EraseConfig();
      if !ok { return; }
      ok := SaveErased();
      if !ok { return; }
      ok := Turn();
      if !ok { return; }
      bits := bits.(reqDisconnect := false);
      DoneForget(Release, Head(WifiProtocol.Dispatch));
    }

    /** Lines 879 and 884. */
    method EraseConfig() returns (ok: bool)
      requires Valid() && task.pc == Forget(ClearLostAgain)
      modifies this
      ensures Valid() && next >= old(next)
      ensures if ok then task == old(task).(pc := Forget(Save)) else next == |schedule|
    {
      ok := Turn();
      if !ok { return; }
      bits := bits.(staDisconnect := false);
      DoneForget(ClearLostAgain, Forget(Erase));
      ok := Turn();
      if !ok { return; }
      ram := ZERO_CONFIG;
      DoneForget(Erase, Forget(Save));
    }

    /** Lines 888 and 891. */
    method SaveErased() returns (ok: bool)
      requires Valid() && task.pc == Forget(Save)
      modifies this
      ensures Valid() && next >= old(next)
      ensures if ok then task == old(task).(pc := Forget(Release)) else next == |schedule|
    {
      ok := Turn();
      if !ok { return; }
      nvs := Stored(ram);
      DoneForget(Save, Forget(Publish));
      ok := Turn();
      if !ok { return; }
      status := Report(PrintedName(ram), UPDATE_USER_DISCONNECT);
      DoneForget(Publish, Forget(Release));
    }

    /** The branch of a request for a connection. */
    method Connect(uxBits: Bits) returns (ok: bool)
      requires Valid() && task.pc == Attempt(LinkTest) && task.ux == uxBits
      modifies this
      ensures Valid() && next >= old(next)
      ensures if ok then task.pc == Head(LoopEnd) else next == |schedule|
    {
      ok := EnsureIdle(uxBits);
      if !ok { return; }
      ok := StartAttempt();
      if !ok { return; }
      var woken := WaitBits(OutcomeWait);
      if woken.None? { return false; }
      ok := JudgeOutcome(woken.value);
      if !ok { return; }
      ok := EndConnect();
    }

    /** Line 984. */
    method EndConnect() returns (ok: bool)
      requires Valid() && task.pc == Outcome(ConnectRelease)
      modifies this
      ensures Valid() && next >= old(next)
      ensures if ok then task.pc == Head(LoopEnd) else next == |schedule|
    {
      ok := Turn();
      if !ok { return; }
      bits := bits.(reqConnect := false);
      DoneOutcome(ConnectRelease, Head(LoopEnd));
    }

    /** Lines 901 to 910: an old link is dropped first. */
    method EnsureIdle(uxBits: Bits) returns (ok: bool)
      requires Valid() && task.pc == Attempt(LinkTest) && task.ux == uxBits
      modifies this
      ensures Valid() && next >= old(next)
      ensures if ok then task == old(task).(pc := Attempt(ResetLost)) else next == |schedule|
    {
      ok := Turn();
      if !ok { return; }
      if uxBits.connected {
        DoneAttempt(LinkTest, Attempt(DropLost));
        ok := DropOldLink();
      } else {
        DoneAttempt(LinkTest, Attempt(ResetLost));
      }
    }

    /** Lines 904 to 909. */
    method DropOldLink() returns (ok: bool)
      requires Valid() && task.pc == Attempt(DropLost)
      modifies this
      ensures Valid() && next >= old(next)
      ensures if ok then task == old(task).(pc := Attempt(ResetLost)) else next == |schedule|
    {
      ok := Turn();
      if !ok { return; }
      bits := bits.(staDisconnect := false);
      DoneAttempt(DropLost, Attempt(DropLink));
      ok := Turn();
      if !ok { return; }
      DoneAttempt(DropLink, Call(ReconnectWait));
      var woken := WaitBits(ReconnectWait);
      ok := woken.Some?;
    }

    /** Lines 913 to 916: give the driver the config and have it connect. */
    method StartAttempt() returns (ok: bool)
      requires Valid() && task.pc == Attempt(ResetLost)
      modifies this
      ensures Valid() && next >= old(next)
      ensures if ok then task == old(task).(pc := Call(OutcomeWait)) else next == |schedule|
    {
      ok := GiveConfig();
      if !ok { return; }
      ok := Turn();
      if !ok { return; }
      if driver.Idle? {
        driver := Associating;
      }
      DoneAttempt(Start, Call(OutcomeWait));
    }

    /** Lines 913 and 915. */
    method GiveConfig() returns (ok: bool)
      requires Valid() && task.pc == Attempt(ResetLost)
      modifies this
      ensures Valid() && next >= old(next)
      ensures if ok then task == old(task).(pc := Attempt(Start)) else next == |schedule|
    {
      ok := Turn();
      if !ok { return; }
      bits := bits.(staDisconnect := false);
      DoneAttempt(ResetLost, Attempt(SetConfig));
      ok := Turn();
      if !ok { return; }
      driverConfig := ram;
      DoneAttempt(SetConfig, Attempt(Start));
    }

    /** Lines 926 to 981. */
    method JudgeOutcome(uxBits: Bits) returns (ok: bool)
      requires Valid() && task.pc == Outcome(Judge) && task.ux == uxBits
      modifies this
      ensures Valid() && next >= old(next)
      ensures if ok then task.pc == Outcome(ConnectRelease) else next == |schedule|
    {
      ok := Turn();
      if !ok { return; }
      if uxBits.connected {
        DoneOutcome(Judge, Outcome(OkPublish));
        ok := Succeed();
      } else if uxBits.staDisconnect {
        DoneOutcome(Judge, Outcome(FailPublish));
        ok := Fail();
      } else {
        DoneOutcome(Judge, Outcome(NoOutcome));
        ok := Turn();
        if !ok { return; }
        bits := bits.(staDisconnect := true);
        DoneOutcome(NoOutcome, Outcome(ConnectRelease));
      }
    }

    /** Lines 932 to 956: publish, save, and see whether there is internet. */
    method Succeed() returns (ok: bool)
      requires Valid() && task.pc == Outcome(OkPublish)
      modifies this
      ensures Valid() && next >= old(next)
      ensures if ok then task.pc == Outcome(ConnectRelease) else next == |schedule|
    {
      ok := PublishAndSave();
      if !ok { return; }
      var ret;
      ok, ret := CheckConnection(FromConnect);
      if !ok { return; }
      ok := Turn();
      if !ok { return; }
      if ret == 1 {
        bits := bits.(reqReconnect := false);
      } else {
        timerActive := true;
      }
      DoneCheck(Result(ret), FromConnect, Outcome(ConnectRelease));
    }

    /** Lines 932 and 938. */
    method PublishAndSave() returns (ok: bool)
      requires Valid() && task.pc == Outcome(OkPublish)
      modifies this
      ensures Valid() && next >= old(next)
      ensures if ok then task.pc == Check(LinkQuery, FromConnect) else next == |schedule|
    {
      ok := Turn();
      if !ok { return; }
      status := Report(PrintedName(ram), UPDATE_CONNECTION_OK);
      DoneOutcome(OkPublish, Outcome(OkSave));
      ok := Turn();
      if !ok { return; }
      nvs := Stored(ram);
      DoneOutcome(OkSave, Check(LinkQuery, FromConnect));
    }

    /** Lines 965 to 972: publish the failure and forget the config, but not flash. */
    method Fail() returns (ok: bool)
      requires Valid() && task.pc == Outcome(FailPublish)
      modifies this
      ensures Valid() && next >= old(next)
      ensures if ok then task.pc == Outcome(ConnectRelease) else next == |schedule|
    {
      ok := PublishAndErase();
      if !ok { return; }
      ok := Turn();
      if !ok { return; }
      bits := bits.(staDisconnect := true);
      DoneOutcome(FailMarkLost, Outcome(ConnectRelease));
    }

    /** Lines 965 and 970. */
    method PublishAndErase() returns (ok: bool)
      requires Valid() && task.pc == Outcome(FailPublish)
      modifies this
      ensures Valid() && next >= old(next)
      ensures if ok then task.pc == Outcome(FailMarkLost) else next == |schedule|
    {
      ok := Turn();
      if !ok { return; }
      status := Report(PrintedName(ram), UPDATE_FAILED_ATTEMPT);
      DoneOutcome(FailPublish, Outcome(FailErase));
      ok := Turn();
      if !ok { return; }
      ram := ZERO_CONFIG;
      DoneOutcome(FailErase, Outcome(FailMarkLost));
    }

    /** wifi_manager_check_connection: the bits of a ping test, or that there is no link. */
    method CheckConnection(caller: Caller) returns (ok: bool, ret: int)
      requires Valid() && task.pc == Check(LinkQuery, caller)
      modifies this
      ensures Valid() && next >= old(next)
      ensures if ok then task == old(task).(pc := Check(Result(ret), caller)) else next == |schedule|
    {
      ret := ERR_WIFI_DISCONECTED;
      ok := Turn();
      if !ok { return; }
      if bits.connected {
        DoneCheck(LinkQuery, caller, Check(ForgetInternet, caller));
        ok, ret := AwaitPing(caller);
      } else {
        DoneCheck(LinkQuery, caller, Check(Result(ERR_WIFI_DISCONECTED), caller));
      }
    }

    /** The ping test, the bounded wait for its callback, and the reconnect timer. */
    method AwaitPing(caller: Caller) returns (ok: bool, ret: int)
      requires Valid() && task.pc == Check(ForgetInternet, caller)
      modifies this
      ensures Valid() && next >= old(next)
      ensures if ok then task == old(task).(pc := Check(Result(ret), caller)) else next == |schedule|
    {
      ret := 0;
      ok := SendPing(caller);
      if !ok { return; }
      var woken := WaitBits(PingWait(caller));
      if woken.None? { return false, 0; }
      if woken.value.haveInternet {
        ret := HAVE_INTERNET_MASK;
      }
      ok := Turn();
      if !ok { return; }
      if ret == 0 {
        timerActive := true;
      }
      DoneCheck(TimerTest(ret), caller, Check(Result(ret), caller));
    }

    /** wifi_manager_ping_test. */
    method SendPing(caller: Caller) returns (ok: bool)
      requires Valid() && task.pc == Check(ForgetInternet, caller)
      modifies this
      ensures Valid() && next >= old(next)
      ensures if ok then task == old(task).(pc := Call(PingWait(caller))) else next == |schedule|
    {
      ok := Turn();
      if !ok { return; }
      bits := bits.(haveInternet := false);
      DoneCheck(ForgetInternet, caller, Check(WifiProtocol.SendPing, caller));
      ok := Turn();
      if !ok { return; }
      DoneCheck(WifiProtocol.SendPing, caller, Call(PingWait(caller)));
    }

    /** Lines 987 to 1013; the scan itself is the driver's. */
    method Scan(uxBits: Bits) returns (ok: bool)
      requires Valid() && task.pc == Head(WifiProtocol.Scan) && task.ux == uxBits
      modifies this
      ensures Valid() && next >= old(next)
      ensures if ok then task.pc == Head(LoopEnd) else next == |schedule|
    {
      ok := Turn();
      if !ok { return; }
      if uxBits.reqConnect {
        bits := bits.(reqDisconnect := true);
      }
      DoneHead(WifiProtocol.Scan, Head(ScanRelease));
      ok := Turn();
      if !ok { return; }
      bits := bits.(reqScan := false);
      DoneHead(ScanRelease, Head(LoopEnd));
    }

    /** Lines 1016 to 1028. */
    method PingTest() returns (ok: bool)
      requires Valid() && task.pc == Check(LinkQuery, FromPing)
      modifies this
      ensures Valid() && next >= old(next)
      ensures if ok then task.pc == Head(LoopEnd) else next == |schedule|
    {
      var ret;
      ok, ret := CheckConnection(FromPing);
      if !ok { return; }
      ok := UseResult(ret);
      if !ok { return; }
      ok := Turn();
      if !ok { return; }
      bits := bits.(reqPing := false);
      DonePing(PingRelease, Head(LoopEnd));
    }

    /** Lines 1018 to 1027: without a link, try to get one. */
    method UseResult(ret: int) returns (ok: bool)
      requires Valid() && task.pc == Check(Result(ret), FromPing)
      modifies this
      ensures Valid() && next >= old(next)
      ensures if ok then task.pc == Ping(PingRelease) else next == |schedule|
    {
      ok := Turn();
      if !ok { return; }
      if ret == ERR_WIFI_DISCONECTED {
        DoneCheck(Result(ret), FromPing, Ping(FetchConfig));
        ok := Reconnect();
      } else {
        DoneCheck(Result(ret), FromPing, Ping(PingRelease));
      }
    }

    /** Lines 1019 to 1022: read flash, and request a connection if it holds a network. */
    method Reconnect() returns (ok: bool)
      requires Valid() && task.pc == Ping(FetchConfig)
      modifies this
      ensures Valid() && next >= old(next)
      ensures if ok then task.pc == Ping(PingRelease) else next == |schedule|
    {
      ok := Turn();
      if !ok { return; }
      var found := FetchStaConfig();
      DonePing(FetchConfig, Ping(SsidTest));
      ok := Turn();
      if !ok { return; }
      if ram.ssid != [] {
        DonePing(SsidTest, Ping(ClearStatus));
        ok := RequestConnection();
      } else {
        DonePing(SsidTest, Ping(PingRelease));
      }
    }

    /** wifi_manager_connect_async, called by the task itself. */
    method RequestConnection() returns (ok: bool)
      requires Valid() && task.pc == Ping(ClearStatus)
      modifies this
      ensures Valid() && next >= old(next)
      ensures if ok then task.pc == Ping(PingRelease) else next == |schedule|
    {
      ok := Turn();
      if !ok { return; }
      status := Cleared;
      DonePing(ClearStatus, Ping(RequestConnect));
      ok := Turn();
      if !ok { return; }
      bits := bits.(reqConnect := true);
      DonePing(RequestConnect, Ping(PingRelease));
    }

    /** The endless loop, followed to the end of the schedule. */
    method Serve()
      requires Valid() && task.pc == Call(HeadWait) && Inv(start)
      modifies this
      ensures Now() == Run(start, schedule)
      ensures Inv(Now())
    {
      var ok := true;
      while ok
        invariant Valid()
        invariant if ok then task.pc == Call(HeadWait) else next == |schedule|
        decreases |schedule| - next, ok
      {
        ok := Iteration();
      }
      assert schedule[..next] == schedule;
      RunKeepsInv(start, schedule);
    }
  }

  /** Any schedule, from start-up: the service loop ends in the state that the protocol's run ends in. */
  method ServeFromBoot(stored: Nvs, schedule: seq<Event>) returns (manager: Manager)
    ensures manager.Now() == Run(Boot(stored), schedule) && Inv(manager.Now())
  {
    manager := new Manager(stored, schedule);
    BootInv(stored);
    manager.Serve();
  }
}
