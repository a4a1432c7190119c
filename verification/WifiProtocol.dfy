/**
 The WiFi manager as a transition system: the service task, the driver's event handler, the ping
 callback, the reconnect timer and the HTTP server share one event-group word, one RAM config, one
 stored config and one status document (main/wifi_manager.c, main/http_server_if.c).

 The task takes one step per access to shared state; each event handler and callback is one step.
 Event groups follow FreeRTOS: a blocked task is released by the very call that sets the awaited
 bit, and the snapshot it gets is the word at that call, not the word at the end of the handler.
 */
module WifiProtocol {
  import opened Bytes
  import opened WifiConfig

  /** The flash namespace: absent, present without credentials, or holding a saved config. */
  datatype Nvs = NoNamespace | NoCredentials | Stored(config: Config)

  datatype Driver = Idle | Associating | Up

  /** The status document: `{}`, or a report of the name printed and an update reason code. */
  datatype Status = Cleared | Report(name: seq<byte>, urc: nat)

  const UPDATE_CONNECTION_OK := 0
  const UPDATE_FAILED_ATTEMPT := 1
  const UPDATE_USER_DISCONNECT := 2

  const ERR_WIFI_DISCONECTED := -2
  const HAVE_INTERNET_MASK := 256

  /** The event-group word. */
  datatype Bits = Bits(
    connected: bool,      // WIFI_CONNECTED
    apClient: bool,       // AP_STA_CONNECTED
    apStarted: bool,      // AP_STARTED
    reqConnect: bool,     // REQUEST_STA_CONNECT
    staDisconnect: bool,  // STA_DISCONNECT
    reqScan: bool,        // REQUEST_WIFI_SCAN
    reqDisconnect: bool,  // REQUEST_WIFI_DISCONNECT
    reqReconnect: bool,   // REQUEST_RECONNECT
    haveInternet: bool,   // HAVE_INTERNET
    reqPing: bool         // REQUEST_PING_TEST
  )

  /** Who called wifi_manager_check_connection. */
  datatype Caller = FromConnect | FromPing

  datatype Wait = HeadWait | ForgetWait | ReconnectWait | OutcomeWait | PingWait(caller: Caller)

  // The next statement of the service task; the comment is its line in main/wifi_manager.c.

  datatype HeadPc =
    | ForgetTest       // 857
    | Dispatch         // 896, 986, 1016
    | Scan             // 990-1010
    | ScanRelease      // 1013
    | LoopEnd          // 1077

  /** The branch of a user disconnect. */
  datatype ForgetPc =
    | DropInternet     // 862
    | ConnectedTest    // 866
    | ClearLost        // 867
    | Disconnect       // 868
    | ClearLostAgain   // 879
    | Erase            // 884
    | Save             // 888
    | Publish          // 891
    | Release          // 894

  /** The connect branch up to the connect call. */
  datatype AttemptPc =
    | LinkTest         // 901
    | DropLost         // 904
    | DropLink         // 906
    | ResetLost        // 913
    | SetConfig        // 915
    | Start            // 916

  /** The connect branch after the outcome wait. */
  datatype OutcomePc =
    | Judge            // 926, 929
    | OkPublish        // 932
    | OkSave           // 938
    | FailPublish      // 965
    | FailErase        // 970
    | FailMarkLost     // 972
    | NoOutcome        // 980
    | ConnectRelease   // 984

  /** wifi_manager_check_connection, and what its caller does with the result. */
  datatype CheckPc =
    | LinkQuery        // 1128
    | ForgetInternet   // 1109
    | SendPing         // 1115
    | TimerTest(got: int)  // 1138-1146
    | Result(ret: int)     // 941, 1018

  /** The branch of a ping test that found no link. */
  datatype PingPc =
    | FetchConfig      // 1019
    | SsidTest         // 1020
    | ClearStatus      // 607
    | RequestConnect   // 611
    | PingRelease      // 1028

  datatype Pc =
    | Call(wait: Wait)       // about to call xEventGroupWaitBits
    | Blocked(wait: Wait)    // inside it
    | Head(head: HeadPc)
    | Forget(forget: ForgetPc)
    | Attempt(attempt: AttemptPc)
    | Outcome(outcome: OutcomePc)
    | Check(check: CheckPc, caller: Caller)
    | Ping(ping: PingPc)

  /** Progress of the HTTP server through one POST /connect.json. */
  datatype HttpPc = HttpIdle | HttpWrote | HttpCleared

  /** The service task: position, its local snapshot uxBits, and how often its head wait returned. */
  datatype TaskState = TaskState(pc: Pc, ux: Bits, iterations: nat)

  datatype State = State(
    task: TaskState,
    bits: Bits,
    driver: Driver,
    driverConfig: Config,  // what esp_wifi_set_config was last given
    ram: Config,
    nvs: Nvs,
    status: Status,
    timerActive: bool,
    http: HttpPc,
    reached: set<Config>   // history: configs with which the driver obtained an address
  )

  datatype Reason = AssocLeave | HandshakeTimeout | AuthFail | OtherReason

  datatype Event =
    | Task                          // one statement of the service task
    | PingTimeout                   // the bounded wait of a ping test expires
    | ApStarted | ApClientJoined | ApClientLeft
    | GotIp
    | LinkLost(reason: Reason)      // SYSTEM_EVENT_STA_DISCONNECTED
    | PingReply(received: bool)     // pingResults
    | TimerExpired
    | PostWrite(config: Config)     // POST /connect.json overwrites the RAM config,
    | PostClear                     //   clears the status document
    | PostRequest                   //   and requests a connection
    | ForgetRequested               // DELETE /connect.json
    | ScanRequested                 // GET /ap.json
    | PingRequested                 // wifi_manager_check_connection_async
    | RegistrationSaved             // creates the flash namespace without credentials

  // ------------------------------------------------------------------------
  // Event groups
  // ------------------------------------------------------------------------

  predicate Satisfied(w: Wait, b: Bits) {
    match w
    case HeadWait => b.reqConnect || b.reqScan || b.reqDisconnect || b.reqPing
    case ForgetWait => b.staDisconnect
    case ReconnectWait => b.staDisconnect
    case OutcomeWait => b.connected || b.staDisconnect
    case PingWait(_) => b.haveInternet
  }

  /** A wait returns the word b; uxBits is assigned only at the head and for the outcome. */
  function Return(t: TaskState, w: Wait, b: Bits): TaskState {
    match w
    case HeadWait => TaskState(Head(ForgetTest), b, t.iterations + 1)
    case ForgetWait => t.(pc := Forget(ClearLostAgain))
    case ReconnectWait => t.(pc := Attempt(ResetLost))
    case OutcomeWait => t.(pc := Outcome(Judge), ux := b)
    case PingWait(caller) =>
      t.(pc := Check(TimerTest(if b.haveInternet then HAVE_INTERNET_MASK else 0), caller))
  }

  /** The effect on the task of xEventGroupSetBits leaving the word b: it may end its wait. */
  function Wake(t: TaskState, b: Bits): TaskState {
    if t.pc.Blocked? && Satisfied(t.pc.wait, b) then Return(t, t.pc.wait, b) else t
  }

  function Set(s: State, b: Bits): State {
    s.(bits := b, task := Wake(s.task, b))
  }

  /** xEventGroupWaitBits. */
  function Await(t: TaskState, w: Wait, b: Bits): TaskState {
    if Satisfied(w, b) then Return(t, w, b) else t.(pc := Blocked(w))
  }

  function Goto(s: State, pc: Pc): State {
    s.(task := s.task.(pc := pc))
  }

  // ------------------------------------------------------------------------
  // The service task
  // ------------------------------------------------------------------------

  function Fetch(ram: Config, nvs: Nvs): Config {
    match nvs
    case NoNamespace => ram
    case NoCredentials => ZERO_CONFIG
    case Stored(c) => c
  }

  function HeadStep(s: State, h: HeadPc): State {
    match h
    case ForgetTest => Goto(s, if s.task.ux.reqDisconnect then Forget(DropInternet) else Head(Dispatch))
    case Dispatch =>
      Goto(s, if s.task.ux.reqConnect then Attempt(LinkTest)
              else if s.task.ux.reqScan then Head(Scan)
              else if s.task.ux.reqPing then Check(LinkQuery, FromPing)
              else Head(LoopEnd))
    case Scan =>
      var asked := s.bits.reqDisconnect || s.task.ux.reqConnect;
      Goto(s.(bits := s.bits.(reqDisconnect := asked)), Head(ScanRelease))
    case ScanRelease => Goto(s.(bits := s.bits.(reqScan := false)), Head(LoopEnd))
    case LoopEnd => Goto(s, Call(HeadWait))
  }

  function ForgetStep(s: State, f: ForgetPc): State {
    match f
    case DropInternet => Goto(s.(bits := s.bits.(haveInternet := false)), Forget(ConnectedTest))
    case ConnectedTest => Goto(s, Forget(if s.task.ux.connected then ClearLost else ClearLostAgain))
    case ClearLost => Goto(s.(bits := s.bits.(staDisconnect := false)), Forget(Disconnect))
    case Disconnect => Goto(s, Call(ForgetWait))
    case ClearLostAgain => Goto(s.(bits := s.bits.(staDisconnect := false)), Forget(Erase))
    case Erase => Goto(s.(ram := ZERO_CONFIG), Forget(Save))
    case Save => Goto(s.(nvs := Stored(s.ram)), Forget(Publish))
    case Publish => Goto(s.(status := Report(PrintedName(s.ram), UPDATE_USER_DISCONNECT)), Forget(Release))
    case Release => Goto(s.(bits := s.bits.(reqDisconnect := false)), Head(Dispatch))
  }

  function AttemptStep(s: State, a: AttemptPc): State {
    match a
    case LinkTest => Goto(s, Attempt(if s.task.ux.connected then DropLost else ResetLost))
    case DropLost => Goto(s.(bits := s.bits.(staDisconnect := false)), Attempt(DropLink))
    case DropLink => Goto(s, Call(ReconnectWait))
    case ResetLost => Goto(s.(bits := s.bits.(staDisconnect := false)), Attempt(SetConfig))
    case SetConfig => Goto(s.(driverConfig := s.ram), Attempt(Start))
    case Start => Goto(s.(driver := if s.driver.Idle? then Associating else s.driver), Call(OutcomeWait))
  }

  function OutcomeStep(s: State, o: OutcomePc): State {
    match o
    case Judge =>
      Goto(s, Outcome(if s.task.ux.connected then OkPublish
                      else if s.task.ux.staDisconnect then FailPublish
                      else NoOutcome))
    case OkPublish => Goto(s.(status := Report(PrintedName(s.ram), UPDATE_CONNECTION_OK)), Outcome(OkSave))
    case OkSave => Goto(s.(nvs := Stored(s.ram)), Check(LinkQuery, FromConnect))
    case FailPublish => Goto(s.(status := Report(PrintedName(s.ram), UPDATE_FAILED_ATTEMPT)), Outcome(FailErase))
    case FailErase => Goto(s.(ram := ZERO_CONFIG), Outcome(FailMarkLost))
    case FailMarkLost => Goto(s.(bits := s.bits.(staDisconnect := true)), Outcome(ConnectRelease))
    case NoOutcome => Goto(s.(bits := s.bits.(staDisconnect := true)), Outcome(ConnectRelease))
    case ConnectRelease => Goto(s.(bits := s.bits.(reqConnect := false)), Head(LoopEnd))
  }

  function CheckStep(s: State, c: CheckPc, caller: Caller): State {
    match c
    case LinkQuery =>
      Goto(s, Check(if s.bits.connected then ForgetInternet else Result(ERR_WIFI_DISCONECTED), caller))
    case ForgetInternet => Goto(s.(bits := s.bits.(haveInternet := false)), Check(SendPing, caller))
    case SendPing => Goto(s, Call(PingWait(caller)))
    case TimerTest(got) => Goto(s.(timerActive := s.timerActive || got == 0), Check(Result(got), caller))
    case Result(ret) =>
      (match caller
       case FromConnect =>
         if ret == 1 then Goto(s.(bits := s.bits.(reqReconnect := false)), Outcome(ConnectRelease))
         else Goto(s.(timerActive := true), Outcome(ConnectRelease))
       case FromPing =>
         Goto(s, Ping(if ret == ERR_WIFI_DISCONECTED then FetchConfig else PingRelease)))
  }

  function PingStep(s: State, p: PingPc): State {
    match p
    case FetchConfig => Goto(s.(ram := Fetch(s.ram, s.nvs)), Ping(SsidTest))
    case SsidTest => Goto(s, Ping(if HasSsid(s.ram) then ClearStatus else PingRelease))
    case ClearStatus => Goto(s.(status := Cleared), Ping(RequestConnect))
    case RequestConnect => Goto(s.(bits := s.bits.(reqConnect := true)), Ping(PingRelease))
    case PingRelease => Goto(s.(bits := s.bits.(reqPing := false)), Head(LoopEnd))
  }

  /** One statement of wifi_manager; a blocked task does nothing. */
  function TaskStep(s: State): State {
    match s.task.pc
    case Call(w) => s.(task := Await(s.task, w, s.bits))
    case Blocked(_) => s
    case Head(h) => HeadStep(s, h)
    case Forget(f) => ForgetStep(s, f)
    case Attempt(a) => AttemptStep(s, a)
    case Outcome(o) => OutcomeStep(s, o)
    case Check(c, caller) => CheckStep(s, c, caller)
    case Ping(p) => PingStep(s, p)
  }

  // ------------------------------------------------------------------------
  // Event handler, callbacks, HTTP server
  // ------------------------------------------------------------------------

  function OnGotIp(s: State): State {
    var up := s.(driver := Up, reached := s.reached + {s.driverConfig});
    var told := Set(up, up.bits.(connected := true));
    told.(bits := told.bits.(reqReconnect := false))
  }

  /** Four calls on the event group, in this order; the first two may release the task. */
  function OnLinkLost(s: State, reason: Reason): State {
    var asked := if reason == OtherReason then s.bits.(reqConnect := true) else s.bits;
    var task := if reason == OtherReason then Wake(s.task, asked) else s.task;
    var lost := asked.(staDisconnect := true);
    s.(driver := Idle,
       task := Wake(task, lost),
       bits := lost.(connected := false, haveInternet := false))
  }

  function OnPingReply(s: State, received: bool): State {
    if received then Set(s, s.bits.(haveInternet := true)).(timerActive := false)
    else Set(s.(status := Cleared), s.bits.(reqConnect := true))
  }

  /** The bit set by an event that does little else. */
  function BitSetBy(b: Bits, e: Event): Bits {
    b.(apStarted := b.apStarted || e.ApStarted?,
       apClient := b.apClient || e.ApClientJoined?,
       reqConnect := b.reqConnect || e.PostRequest?,
       reqScan := b.reqScan || e.ScanRequested?,
       reqDisconnect := b.reqDisconnect || e.ForgetRequested?,
       reqPing := b.reqPing || e.PingRequested? || e.TimerExpired?)
  }

  function OnSetBit(s: State, e: Event): State {
    var b := BitSetBy(s.bits, e);
    s.(bits := b,
       task := Wake(s.task, b),
       timerActive := s.timerActive && !e.TimerExpired?,
       http := if e.PostRequest? then HttpIdle else s.http)
  }

  /**
   What the environment may do: the driver reports an address or a loss only while it is associating
   or up, a ping is answered only over a live link, and the HTTP server handles one POST at a time.
   */
  predicate Enabled(s: State, e: Event) {
    match e
    case Task => !s.task.pc.Blocked?
    case PingTimeout => s.task.pc.Blocked? && s.task.pc.wait.PingWait?
    case GotIp => !s.driver.Idle?
    case LinkLost(_) => !s.driver.Idle?
    case PingReply(received) => received ==> s.driver.Up?
    case TimerExpired => s.timerActive
    case PostWrite(_) => s.http.HttpIdle?
    case PostClear => s.http.HttpWrote?
    case PostRequest => s.http.HttpCleared?
    case _ => true
  }

  function Apply(s: State, e: Event): State {
    match e
    case Task => TaskStep(s)
    case PingTimeout =>
      if s.task.pc.Blocked? then s.(task := Return(s.task, s.task.pc.wait, s.bits)) else s
    case ApClientLeft => s.(bits := s.bits.(apClient := false))
    case GotIp => OnGotIp(s)
    case LinkLost(reason) => OnLinkLost(s, reason)
    case PingReply(received) => OnPingReply(s, received)
    case PostWrite(c) => s.(ram := c, http := HttpWrote)
    case PostClear => s.(status := Cleared, http := HttpCleared)
    case RegistrationSaved => s.(nvs := if s.nvs.NoNamespace? then NoCredentials else s.nvs)
    case _ => OnSetBit(s, e)
  }

  function Step(s: State, e: Event): State {
    if Enabled(s, e) then Apply(s, e) else s
  }

  function Run(s: State, es: seq<Event>): State
    decreases |es|
  {
    if es == [] then s else Run(Step(s, es[0]), es[1..])
  }

  /** The state at the head of the loop after start-up (lines 715, 745-751, 842). */
  function Boot(nvs: Nvs): State {
    var ram := Fetch(ZERO_CONFIG, nvs);
    var saved := nvs.Stored? && HasSsid(nvs.config);
    var bits := Bits(false, false, true, saved, false, true, false, false, false, false);
    State(TaskState(Call(HeadWait), bits, 0), bits, Idle, ZERO_CONFIG, ram, nvs, Cleared, false, HttpIdle, {})
  }

  lemma {:induction false} RunAppend(s: State, es: seq<Event>, fs: seq<Event>)
    ensures Run(s, es + fs) == Run(Run(s, es), fs)
    decreases |es|
  {
    if es == [] {
      assert es + fs == fs;
    } else {
      assert (es + fs)[1..] == es[1..] + fs;
      RunAppend(Step(s, es[0]), es[1..], fs);
    }
  }

  lemma RunFirst(s: State, e: Event, es: seq<Event>)
    ensures Run(s, [e] + es) == Run(Step(s, e), es)
  {
    assert ([e] + es)[1..] == es;
  }

  lemma RunTwice(s: State, e: Event, f: Event, es: seq<Event>)
    ensures Run(s, [e, f] + es) == Run(Step(Step(s, e), f), es)
  {
    assert [e, f] + es == [e] + ([f] + es);
    RunFirst(s, e, [f] + es);
    RunFirst(Step(s, e), f, es);
  }

  lemma RunNothing(s: State)
    ensures Run(s, []) == s
  {
  }
}
