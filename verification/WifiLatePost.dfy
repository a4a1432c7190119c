/** Exactly when a POST leads to credentials in flash that were never tried. */
module WifiLatePost {
  import opened WifiConfig
  import opened WifiProtocol
  import opened WifiSafety
  import opened WifiCredentials
  import opened WifiRuns

  /** c has not been tried, and neither the driver nor flash has it. */
  ghost predicate Untried(s: State, c: Config) {
    c != ZERO_CONFIG && c !in s.reached && c != s.driverConfig && s.nvs != Stored(c)
  }

  // ------------------------------------------------------------------------
  // Elsewhere the config is tried before it is stored
  // ------------------------------------------------------------------------

  /** If c is ever stored, it has been reached. */
  ghost predicate TriedFirst(s: State, c: Config) {
    SaveInv(s) && (s.nvs == Stored(c) ==> c in s.reached)
  }

  lemma TriedFirstStep(s: State, e: Event, c: Config)
    requires Inv(s) && TriedFirst(s, c) && c != ZERO_CONFIG && !e.PostWrite?
    ensures TriedFirst(Step(s, e), c)
  {
    FlashWriters(s, e);
    ReachedGrows(s, e);
    SaveInvStep(s, e);
  }

  lemma {:induction false} TriedFirstRun(s: State, es: seq<Event>, c: Config)
    requires Inv(s) && TriedFirst(s, c) && c != ZERO_CONFIG && NoPost(es)
    ensures TriedFirst(Run(s, es), c)
    decreases |es|
  {
    if es != [] {
      TriedFirstStep(s, es[0], c);
      StepKeepsInv(s, es[0]);
      TriedFirstRun(Step(s, es[0]), es[1..], c);
    }
  }

  // ------------------------------------------------------------------------
  // There it is not
  // ------------------------------------------------------------------------

  /** Flash holds c, and no attempt with c has succeeded. */
  ghost predicate HoldsUntried(s: State, c: Config) {
    s.nvs == Stored(c) && c !in s.reached
  }

  /** c waits in RAM for a save that will come. */
  ghost predicate Waiting(s: State, c: Config) {
    s.ram == c && c !in s.reached && c != s.driverConfig
  }

  lemma SavesUntried(s: State, c: Config) returns (es: seq<Event>)
    requires Waiting(s, c) && (s.task.pc == Outcome(OkSave) || s.task.pc == Forget(Save))
    ensures NoPost(es) && HoldsUntried(Run(s, es), c)
  {
    es := [Task] + [];
    RunFirst(s, Task, []);
    RunNothing(Step(s, Task));
  }

  lemma PublishesAndSaves(s: State, c: Config) returns (es: seq<Event>)
    requires Waiting(s, c) && s.task.pc == Outcome(OkPublish)
    ensures NoPost(es) && HoldsUntried(Run(s, es), c)
  {
    var rest := SavesUntried(Step(s, Task), c);
    RunFirst(s, Task, rest);
    es := [Task] + rest;
  }

  lemma JudgesAndSaves(s: State, c: Config) returns (es: seq<Event>)
    requires Waiting(s, c) && s.task.pc == Outcome(Judge) && s.task.ux.connected
    ensures NoPost(es) && HoldsUntried(Run(s, es), c)
  {
    var rest := PublishesAndSaves(Step(s, Task), c);
    RunFirst(s, Task, rest);
    es := [Task] + rest;
  }

  lemma ConnectsAndSaves(s: State, c: Config) returns (es: seq<Event>)
    requires Inv(s) && Waiting(s, c) && AtOutcomeWait(s.task.pc) && !s.driver.Idle?
    ensures NoPost(es) && HoldsUntried(Run(s, es), c)
  {
    if s.task.pc.Blocked? {
      var t := Step(s, GotIp);
      var rest := JudgesAndSaves(t, c);
      RunFirst(s, GotIp, rest);
      es := [GotIp] + rest;
    } else {
      var t := Step(s, GotIp);
      var u := Step(t, Task);
      var rest := JudgesAndSaves(u, c);
      RunFirst(t, Task, rest);
      RunFirst(s, GotIp, [Task] + rest);
      es := [GotIp] + ([Task] + rest);
    }
  }

  lemma StartsAndSaves(s: State, c: Config) returns (es: seq<Event>)
    requires Inv(s) && Waiting(s, c) && s.task.pc == Attempt(Start)
    ensures NoPost(es) && HoldsUntried(Run(s, es), c)
  {
    StepKeepsInv(s, Task);
    var rest := ConnectsAndSaves(Step(s, Task), c);
    RunFirst(s, Task, rest);
    es := [Task] + rest;
  }

  lemma VulnerableStores(s: State, c: Config) returns (es: seq<Event>)
    requires Inv(s) && Waiting(s, c) && Vulnerable(s)
    ensures NoPost(es) && HoldsUntried(Run(s, es), c)
  {
    match s.task.pc
    case Forget(_) => es := SavesUntried(s, c);
    case Attempt(_) => es := StartsAndSaves(s, c);
    case Call(_) => es := ConnectsAndSaves(s, c);
    case Blocked(_) => es := ConnectsAndSaves(s, c);
    case Outcome(o) =>
      if o.Judge? {
        es := JudgesAndSaves(s, c);
      } else if o.OkPublish? {
        es := PublishesAndSaves(s, c);
      } else {
        es := SavesUntried(s, c);
      }
  }

  /**
   A POST with credentials never tried is followed by some run, without another POST, that stores
   them untried if and only if the task is at one of the vulnerable positions.
   */
  lemma {:induction false} LatePostIsStoredIff(s: State, c: Config)
    requires Inv(s) && s.http.HttpIdle? && Untried(s, c)
    ensures (exists es :: NoPost(es) && HoldsUntried(Run(Step(s, PostWrite(c)), es), c)) <==> Vulnerable(s)
  {
    var t := Step(s, PostWrite(c));
    StepKeepsInv(s, PostWrite(c));
    if Vulnerable(s) {
      var es := VulnerableStores(t, c);
    } else {
      forall es | NoPost(es) ensures !HoldsUntried(Run(t, es), c) {
        TriedFirstRun(t, es, c);
      }
    }
  }

  // ------------------------------------------------------------------------
  // Such a position is reached from start-up
  // ------------------------------------------------------------------------

  /** So on a new device any credentials c can be stored untried: posted during a first attempt with c0. */
  lemma {:induction false} UntriedIsReachable(c0: Config, c: Config) returns (es: seq<Event>)
    requires c != ZERO_CONFIG && c != c0
    ensures HoldsUntried(Run(Boot(NoNamespace), es), c) && !Provenance(Run(Boot(NoNamespace), es), NoNamespace)
  {
    var first := [PostWrite(c0), PostClear, PostRequest] + [Task, Task, Task] + [Task, Task, Task];
    FirstPostReachesStart(c0);
    var s0 := Boot(NoNamespace);
    BootInv(NoNamespace);
    RunKeepsInv(s0, first);
    var s := Run(s0, first);
    StepKeepsInv(s, PostWrite(c));
    var rest := VulnerableStores(Step(s, PostWrite(c)), c);
    RunFirst(s, PostWrite(c), rest);
    RunAppend(s0, first, [PostWrite(c)] + rest);
    es := first + ([PostWrite(c)] + rest);
  }
}
