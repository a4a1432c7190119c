/** What a client that polls the status document reads after its POST, and after a request to forget. */
module WifiClient {
  import opened Bytes
  import opened JsonParser
  import opened WifiConfig
  import opened WifiProtocol
  import opened WifiSafety
  import opened WifiCredentials
  import opened WifiOutcome
  import opened WifiBranches
  import opened WifiPosts
  import opened StatusDocument

  /** The document a client can fetch now, parsed. */
  ghost function Fetched(s: State, a: Addresses): Option<Json> {
    Parse(Served(s.status, a))
  }

  /** The object of an outcome: code 0 and the addresses of the link, or code 1 and zeros. */
  function OutcomeObject(name: seq<byte>, a: Addresses, connected: bool): Json {
    var zero := Ascii("0");
    JObject([(Ascii("ssid"), JString(name)),
             (Ascii("ip"), JString(if connected then Dotted(a.ip) else zero)),
             (Ascii("netmask"), JString(if connected then Dotted(a.netmask) else zero)),
             (Ascii("gw"), JString(if connected then Dotted(a.gw) else zero)),
             (Ascii("urc"), JNumber(if connected then 0 else 1))])
  }

  /**
   A client fetches empty objects until the first one that is not; that is the outcome for c, with success
   exactly if the wait for the outcome returned with the connected bit. Then the driver got an address with
   c; otherwise it is idle.
   */
  ghost predicate ClientSees(s: State, es: seq<Event>, c: Config, a: Addresses)
    decreases |es|
  {
    && Fetched(s, a) == Some(JObject([]))
    && (es == [] ||
        var t := Step(s, es[0]);
        if Fetched(t, a) == Some(JObject([])) then ClientSees(t, es[1..], c, a)
        else
          && Fetched(t, a) == Some(OutcomeObject(PrintedName(c), a, s.task.ux.connected))
          && s.driverConfig == c
          && (if s.task.ux.connected then c in s.reached else s.driver.Idle?))
  }

  lemma FetchedIsCleared(s: State, a: Addresses)
    ensures Fetched(s, a) == Some(JObject([])) <==> s.status == Cleared
  {
    ClientReadsStatus(s.status, a);
  }

  lemma PublishedIsFetched(s: State, t: State, c: Config, a: Addresses)
    requires Published(s, t, c)
    ensures Fetched(t, a) == Some(OutcomeObject(PrintedName(c), a, s.task.ux.connected))
  {
    ClientReadsStatus(t.status, a);
  }

  lemma {:induction false} ReportIsSeen(s: State, es: seq<Event>, c: Config, a: Addresses)
    requires FirstReportIs(s, es, c)
    ensures ClientSees(s, es, c, a)
    decreases |es|
  {
    FetchedIsCleared(s, a);
    if es != [] {
      var t := Step(s, es[0]);
      FetchedIsCleared(t, a);
      if t.status == Cleared {
        ReportIsSeen(t, es[1..], c, a);
      } else {
        PublishedIsFetched(s, t, c, a);
      }
    }
  }

  /** After a POST at the loop head, in every run without another one. */
  lemma {:induction false} PosterSeesOutcome(s: State, c: Config, a: Addresses, es: seq<Event>)
    requires Inv(s) && s.task.pc == Blocked(HeadWait) && s.http.HttpIdle? && NoPost(es)
    ensures ClientSees(Run(s, [PostWrite(c), PostClear, PostRequest]), es, c, a)
  {
    NoFalseOutcome(s, c, es);
    ReportIsSeen(Run(s, [PostWrite(c), PostClear, PostRequest]), es, c, a);
  }

  /** The object after a request to forget: no name, no addresses, code 2. */
  function ForgottenObject(): Json {
    var zero := Ascii("0");
    JObject([(Ascii("ssid"), JString([])), (Ascii("ip"), JString(zero)), (Ascii("netmask"), JString(zero)),
             (Ascii("gw"), JString(zero)), (Ascii("urc"), JNumber(2))])
  }

  /** A forget branch, in every run without a POST and without an answered ping, publishes that. */
  lemma {:induction false} ForgetIsSeen(s: State, a: Addresses, es: seq<Event>)
    requires ForgettingBranch(s) && NoPost(es) && forall i :: 0 <= i < |es| ==> es[i] != PingReply(true)
    ensures LeavesForget(s, es) || Run(s, es).task.pc != Forget(Publish)
         || Fetched(Step(Run(s, es), Task), a) == Some(ForgottenObject())
  {
    ForgetPublishes(s, es);
    ClientReadsStatus(Report([], 2), a);
  }
}
