/** The connection manager of `proxy-manager.js`: it starts on a direct
    ("local") connection, moves to a randomly drawn proxy when a block is
    detected, comes back to the direct connection after a fixed number of
    proxy uses, and counts attempts and successes per mode.

    The state the class keeps is also written as a value, `ProxyState`, and
    every state-changing method is proved to move its object exactly as a
    pure transition on that value does. The properties that need several
    calls (the invariant, the counters, the return to local) are then
    lemmas over sequences of transitions. The random draw of
    `Math.random()` is a parameter `pick`: the proxy at index
    `pick % |list|` is the one chosen, so every index can be drawn. */
module ProxyManagement {
  import opened Wrappers
  import opened Strings
  import Utils

  /** `'local'` (direct connection) or `'proxy'`. */
  datatype Mode = Local | Proxy

  /** The `stats` object. */
  datatype Stats = Stats(localAttempts: nat, proxyAttempts: nat, localSuccess: nat,
                         proxySuccess: nat, switches: nat)

  /** Everything the manager changes, and the flag its rotation policy reads. */
  datatype ProxyState = ProxyState(mode: Mode, currentProxy: Option<string>,
                                   proxyList: seq<string>, proxyUseCount: nat,
                                   rotateOnSuccess: bool, stats: Stats)

  /** How a call that may throw ends. */
  datatype Completion = Normal | Throws(message: string)

  const DefaultApiUrl: string := "http://mkt.techb.kr:3001/api/proxy/lists"

  /** `maxProxyUses`: consecutive proxy uses before a direct retry. */
  const MaxProxyUses: nat := 5

  const NoProxyMessage: string := "사용 가능한 프록시가 없습니다"
  const NoListMessage: string := "프록시 목록을 가져올 수 없습니다"

  const ZeroStats: Stats := Stats(0, 0, 0, 0, 0)

  /** On a direct connection there is never a current proxy. */
  predicate Consistent(s: ProxyState)
  {
    s.mode == Local ==> s.currentProxy == None
  }

  /** No counter of `b` is below the same counter of `a`. */
  predicate StatsLe(a: Stats, b: Stats)
  {
    a.localAttempts <= b.localAttempts && a.proxyAttempts <= b.proxyAttempts
    && a.localSuccess <= b.localSuccess && a.proxySuccess <= b.proxySuccess
    && a.switches <= b.switches
  }

  /** The state a new manager starts in. */
  function InitialState(rotateOnSuccess: bool): (s: ProxyState)
    ensures Consistent(s) && s.mode == Local && s.stats == ZeroStats
  {
    ProxyState(Local, None, [], 0, rotateOnSuccess, ZeroStats)
  }

  // ============================================================ transitions

  /** The proxy the draw `pick` selects from a non-empty list. */
  function Draw(list: seq<string>, pick: nat): (r: string)
    requires |list| > 0
    ensures r in list
  {
    list[pick % |list|]
  }

  /** `getRandomProxy`: throws on an empty list, otherwise one of its
      entries. */
  function RandomProxy(list: seq<string>, pick: nat): (r: Result<string, string>)
    ensures r.Failure? <==> |list| == 0
    ensures r.Failure? ==> r.error == NoProxyMessage
    ensures r.Success? ==> r.value in list
  {
    if |list| == 0 then Failure(NoProxyMessage) else Success(Draw(list, pick))
  }

  /** `fetchProxies`, with the answer of the proxy service as a parameter:
      `Some(list)` when it answered with `success` and a `proxies` array
      (which may be empty), `None` when the request failed or the answer had
      another shape. Only the list changes, and only on success. */
  function FetchStep(s: ProxyState, fetched: Option<seq<string>>): (r: ProxyState)
    ensures fetched.Some? ==> r.proxyList == fetched.value
    ensures r.(proxyList := s.proxyList) == s
    ensures fetched.None? ==> r == s
  {
    if fetched.Some? then s.(proxyList := fetched.value) else s
  }

  /** `switchToProxy`. The service is asked only when the cached list is
      empty. A failed request throws before anything changes; a list that
      comes back empty still sets proxy mode before the draw throws. */
  function SwitchToProxyStep(s: ProxyState, fetched: Option<seq<string>>, pick: nat)
    : (r: (ProxyState, Completion))
    ensures r.1.Normal? <==> |s.proxyList| > 0 || (fetched.Some? && |fetched.value| > 0)
    ensures |s.proxyList| == 0 && fetched.None? ==> r == (s, Throws(NoListMessage))
    ensures r.1.Normal? ==>
      r.0.mode == Proxy && r.0.currentProxy.Some? && r.0.currentProxy.value in r.0.proxyList
      && r.0.proxyUseCount == 0 && r.0.stats == s.stats.(switches := s.stats.switches + 1)
    ensures r.1.Normal? ==>
      r.0 == s.(mode := Proxy, currentProxy := r.0.currentProxy, proxyList := r.0.proxyList,
                proxyUseCount := 0, stats := s.stats.(switches := s.stats.switches + 1))
    ensures |s.proxyList| > 0 ==> r.0.proxyList == s.proxyList
    ensures |s.proxyList| == 0 && fetched.Some? ==> r.0.proxyList == fetched.value
    ensures r.1.Throws? && (|s.proxyList| > 0 || fetched.Some?) ==>
      r.1.message == NoProxyMessage && r.0 == s.(mode := Proxy, proxyList := [])
  {
    if |s.proxyList| == 0 && fetched.None? then (s, Throws(NoListMessage))
    else
      var list := if |s.proxyList| == 0 then fetched.value else s.proxyList;
      var t := s.(mode := Proxy, proxyList := list);
      match RandomProxy(list, pick)
      case Failure(e) => (t, Throws(e))
      case Success(p) =>
        (t.(currentProxy := Some(p), proxyUseCount := 0,
            stats := s.stats.(switches := s.stats.switches + 1)), Normal)
  }

  /** `switchToLocal`: back to the direct connection, the use counter
      cleared and one more switch counted. */
  function SwitchToLocalStep(s: ProxyState): (r: ProxyState)
    ensures Consistent(r) && r.mode == Local && r.proxyUseCount == 0
    ensures r.stats == s.stats.(switches := s.stats.switches + 1)
    ensures r.proxyList == s.proxyList
  {
    s.(mode := Local, currentProxy := None, proxyUseCount := 0,
       stats := s.stats.(switches := s.stats.switches + 1))
  }

  /** `switchToAnotherProxy`: in proxy mode a new proxy is drawn (the call
      throws when the list is empty) and a browser restart is requested; the
      use counter and the statistics are left alone. */
  function AnotherProxyStep(s: ProxyState, pick: nat): (r: (ProxyState, Result<bool, string>))
    ensures s.mode == Local ==> r == (s, Success(false))
    ensures r.0.proxyUseCount == s.proxyUseCount && r.0.stats == s.stats
    ensures r.0.mode == s.mode && r.0.proxyList == s.proxyList
    ensures s.mode == Proxy && |s.proxyList| == 0 ==> r == (s, Failure(NoProxyMessage))
    ensures s.mode == Proxy && |s.proxyList| > 0 ==>
      r.1 == Success(true) && r.0.currentProxy.Some? && r.0.currentProxy.value in s.proxyList
  {
    if s.mode == Proxy then
      match RandomProxy(s.proxyList, pick)
      case Failure(e) => (s, Failure(e))
      case Success(p) => (s.(currentProxy := Some(p)), Success(true))
    else (s, Success(false))
  }

  /** `incrementAttempt`: one more attempt in the current mode; in proxy
      mode the proxy has been used once more. */
  function AttemptStep(s: ProxyState): (r: ProxyState)
    ensures r.mode == s.mode && r.currentProxy == s.currentProxy && r.proxyList == s.proxyList
    ensures s.mode == Local ==>
      r.proxyUseCount == s.proxyUseCount
      && r.stats == s.stats.(localAttempts := s.stats.localAttempts + 1)
    ensures s.mode == Proxy ==>
      r.proxyUseCount == s.proxyUseCount + 1
      && r.stats == s.stats.(proxyAttempts := s.stats.proxyAttempts + 1)
  {
    if s.mode == Local then s.(stats := s.stats.(localAttempts := s.stats.localAttempts + 1))
    else s.(stats := s.stats.(proxyAttempts := s.stats.proxyAttempts + 1),
            proxyUseCount := s.proxyUseCount + 1)
  }

  /** `rotateProxy`: in proxy mode with a non-empty list a new proxy is
      drawn, and a restart is requested exactly when it differs from the
      previous one. */
  function RotateStep(s: ProxyState, pick: nat): (r: (ProxyState, bool))
    ensures r.1 <==> s.mode == Proxy && |s.proxyList| > 0 && r.0.currentProxy != s.currentProxy
    ensures s.mode == Local || |s.proxyList| == 0 ==> r.0 == s
    ensures r.0.(currentProxy := s.currentProxy) == s
    ensures s.mode == Proxy && |s.proxyList| > 0 ==>
      r.0.currentProxy.Some? && r.0.currentProxy.value in s.proxyList
  {
    if s.mode == Proxy && |s.proxyList| > 0 then
      var t := s.(currentProxy := Some(Draw(s.proxyList, pick)));
      (t, t.currentProxy != s.currentProxy)
    else (s, false)
  }

  /** `markSuccess`: one more success in the current mode; the use counter
      is not touched (the attempt already counted the use). */
  function SuccessStep(s: ProxyState): (r: ProxyState)
    ensures r.(stats := s.stats) == s
    ensures s.mode == Local ==> r.stats == s.stats.(localSuccess := s.stats.localSuccess + 1)
    ensures s.mode == Proxy ==> r.stats == s.stats.(proxySuccess := s.stats.proxySuccess + 1)
  {
    if s.mode == Local then s.(stats := s.stats.(localSuccess := s.stats.localSuccess + 1))
    else s.(stats := s.stats.(proxySuccess := s.stats.proxySuccess + 1))
  }

  // ================================================================ queries

  /** `shouldRetryLocal`. */
  predicate RetryLocalDue(s: ProxyState)
  {
    s.mode == Proxy && s.proxyUseCount >= MaxProxyUses
  }

  /** `shouldRotateProxy`. */
  predicate RotationDue(s: ProxyState)
  {
    s.mode == Proxy && s.rotateOnSuccess && s.proxyUseCount > 0
  }

  /** The value of one launch option: plain settings are carried through
      unread; the proxy option is an object holding the server. */
  datatype LaunchOption = Setting(text: string) | ProxyServer(server: string)

  /** `getBrowserOptions`: a copy of the base options, with the `proxy`
      option set to the current proxy in proxy mode when that proxy is a
      non-empty string. */
  function BrowserOptions(s: ProxyState, base: map<string, LaunchOption>)
    : (r: map<string, LaunchOption>)
    ensures s.mode == Proxy && Truthy(s.currentProxy) ==>
      "proxy" in r && r["proxy"] == ProxyServer(s.currentProxy.value)
    ensures !(s.mode == Proxy && Truthy(s.currentProxy)) ==> r == base
    ensures r.Keys == base.Keys + (if s.mode == Proxy && Truthy(s.currentProxy) then {"proxy"} else {})
    ensures forall k :: k in base && k != "proxy" ==> k in r && r[k] == base[k]
  {
    if s.mode == Proxy && Truthy(s.currentProxy) then
      base["proxy" := ProxyServer(s.currentProxy.value)]
    else base
  }

  /** `error.message || ''`. */
  function MessageText(message: Option<string>): string
  {
    if message.Some? then message.value else ""
  }

  const BlockedSignatures: seq<string> := [
    "HTTP/2 Error: INTERNAL_ERROR", "ERR_HTTP2_PROTOCOL_ERROR", "NS_ERROR_NET_INTERRUPT",
    "Stream error in the HTTP/2 framing layer"]

  /** `isBlockedError`: the message holds one of the HTTP/2 block
      signatures. */
  predicate IsBlockedError(message: Option<string>)
  {
    Utils.AnyIn(BlockedSignatures, MessageText(message))
  }

  const NavigationTimeout: string := "Page navigation timeout"
  const TimeoutWord: string := "Timeout"
  const ProxyConnectionFailed: string := "ERR_PROXY_CONNECTION_FAILED"
  const SocksConnectionFailed: string := "ERR_SOCKS_CONNECTION_FAILED"

  /** `isProxyError`: a navigation timeout, any `Timeout` while on a proxy,
      or a proxy or SOCKS connection failure. */
  predicate IsProxyErrorIn(mode: Mode, message: Option<string>)
  {
    var m := MessageText(message);
    Contains(m, NavigationTimeout) || (Contains(m, TimeoutWord) && mode == Proxy)
    || Contains(m, ProxyConnectionFailed) || Contains(m, SocksConnectionFailed)
  }

  // ================================================================= the class

  class ProxyManager {
    const apiUrl: string
    const maxProxyUses: nat
    const rotateOnSuccess: bool
    var mode: Mode
    var currentProxy: Option<string>
    var proxyList: seq<string>
    var proxyUseCount: nat
    var stats: Stats

    /** The fields as a `ProxyState`. */
    function State(): ProxyState
      reads this
    {
      ProxyState(mode, currentProxy, proxyList, proxyUseCount, rotateOnSuccess, stats)
    }

    ghost predicate Valid()
      reads this
    {
      Consistent(State()) && maxProxyUses == MaxProxyUses
    }

    /** `apiUrl || default`, direct mode, an empty cache, zero counters;
        rotation on success unless the caller turns it off. */
    constructor (apiUrl: Option<string>, rotateOnSuccess: bool := true)
      ensures Valid() && State() == InitialState(rotateOnSuccess)
      ensures this.apiUrl == (if Truthy(apiUrl) then apiUrl.value else DefaultApiUrl)
    {
      this.apiUrl := if Truthy(apiUrl) then apiUrl.value else DefaultApiUrl;
      maxProxyUses := MaxProxyUses;
      this.rotateOnSuccess := rotateOnSuccess;
      mode := Local;
      currentProxy := None;
      proxyList := [];
      proxyUseCount := 0;
      stats := ZeroStats;
    }

    method FetchProxies(fetched: Option<seq<string>>) returns (ok: bool)
      requires Valid()
      modifies this
      ensures Valid() && ok == fetched.Some?
      ensures State() == FetchStep(old(State()), fetched)
    {
      if fetched.Some? {
        proxyList := fetched.value;
        return true;
      }
      return false;
    }

    method GetRandomProxy(pick: nat) returns (r: Result<string, string>)
      ensures r == RandomProxy(proxyList, pick)
    {
      if |proxyList| == 0 {
        return Failure(NoProxyMessage);
      }
      var randomIndex := pick % |proxyList|;
      r := Success(proxyList[randomIndex]);
    }

    method SwitchToProxy(fetched: Option<seq<string>>, pick: nat) returns (outcome: Completion)
      requires Valid()
      modifies this
      ensures Valid()
      ensures (State(), outcome) == SwitchToProxyStep(old(State()), fetched, pick)
    {
      if |proxyList| == 0 {
        var success := FetchProxies(fetched);
        if !success {
          return Throws(NoListMessage);
        }
      }
      mode := Proxy;
      var drawn := GetRandomProxy(pick);
      if drawn.Failure? {
        return Throws(drawn.error);
      }
      currentProxy := Some(drawn.value);
      proxyUseCount := 0;
      stats := stats.(switches := stats.switches + 1);
      return Normal;
    }

    method ShouldRetryLocal() returns (retry: bool)
      requires Valid()
      ensures retry <==> RetryLocalDue(State())
    {
      retry := mode == Proxy && proxyUseCount >= maxProxyUses;
    }

    /** Returns `true`: the browser has to be restarted. */
    method SwitchToLocal() returns (restart: bool)
      requires Valid()
      modifies this
      ensures Valid() && restart
      ensures State() == SwitchToLocalStep(old(State()))
    {
      mode := Local;
      currentProxy := None;
      proxyUseCount := 0;
      stats := stats.(switches := stats.switches + 1);
      return true;
    }

    method SwitchToAnotherProxy(pick: nat) returns (restart: Result<bool, string>)
      requires Valid()
      modifies this
      ensures Valid()
      ensures (State(), restart) == AnotherProxyStep(old(State()), pick)
    {
      if mode == Proxy {
        var drawn := GetRandomProxy(pick);
        if drawn.Failure? {
          return Failure(drawn.error);
        }
        currentProxy := Some(drawn.value);
        return Success(true);
      }
      return Success(false);
    }

    method GetBrowserOptions(base: map<string, LaunchOption>) returns (options: map<string, LaunchOption>)
      ensures options == BrowserOptions(State(), base)
    {
      options := base;
      if mode == Proxy && Truthy(currentProxy) {
        options := options["proxy" := ProxyServer(currentProxy.value)];
      }
    }

    method IsProxyError(message: Option<string>) returns (isProxy: bool)
      ensures isProxy == IsProxyErrorIn(mode, message)
    {
      isProxy := IsProxyErrorIn(mode, message);
    }

    method IncrementAttempt()
      requires Valid()
      modifies this
      ensures Valid()
      ensures State() == AttemptStep(old(State()))
    {
      if mode == Local {
        stats := stats.(localAttempts := stats.localAttempts + 1);
      } else {
        stats := stats.(proxyAttempts := stats.proxyAttempts + 1);
        proxyUseCount := proxyUseCount + 1;
      }
    }

    method ShouldRotateProxy() returns (rotate: bool)
      ensures rotate <==> RotationDue(State())
    {
      rotate := mode == Proxy && rotateOnSuccess && proxyUseCount > 0;
    }

    method RotateProxy(pick: nat) returns (restart: bool)
      requires Valid()
      modifies this
      ensures Valid()
      ensures (State(), restart) == RotateStep(old(State()), pick)
    {
      if mode == Proxy && |proxyList| > 0 {
        var oldProxy := currentProxy;
        var drawn := GetRandomProxy(pick);
        currentProxy := Some(drawn.value);
        if oldProxy != currentProxy {
          return true;
        }
      }
      return false;
    }

    method MarkSuccess()
      requires Valid()
      modifies this
      ensures Valid()
      ensures State() == SuccessStep(old(State()))
    {
      if mode == Local {
        stats := stats.(localSuccess := stats.localSuccess + 1);
      } else {
        stats := stats.(proxySuccess := stats.proxySuccess + 1);
      }
    }
  }

  // ========================================================== call sequences

  /** One call of a state-changing operation, with the inputs it consumes. */
  datatype Op =
    | Fetch(fetched: Option<seq<string>>)
    | SwitchProxy(fetched: Option<seq<string>>, pick: nat)
    | SwitchLocal
    | AnotherProxy(pick: nat)
    | Attempt
    | Rotate(pick: nat)
    | Succeeded

  function Apply(s: ProxyState, op: Op): ProxyState
  {
    match op
    case Fetch(fetched) => FetchStep(s, fetched)
    case SwitchProxy(fetched, pick) => SwitchToProxyStep(s, fetched, pick).0
    case SwitchLocal => SwitchToLocalStep(s)
    case AnotherProxy(pick) => AnotherProxyStep(s, pick).0
    case Attempt => AttemptStep(s)
    case Rotate(pick) => RotateStep(s, pick).0
    case Succeeded => SuccessStep(s)
  }

  /** The state after the calls `ops`, in order. */
  function Run(s: ProxyState, ops: seq<Op>): ProxyState
    decreases |ops|
  {
    if |ops| == 0 then s else Run(Apply(s, ops[0]), ops[1..])
  }

  /** Each operation keeps "no proxy on a direct connection" and never
      lowers a counter. */
  lemma ApplyPreserves(s: ProxyState, op: Op)
    ensures Consistent(s) ==> Consistent(Apply(s, op))
    ensures StatsLe(s.stats, Apply(s, op).stats)
    ensures Apply(s, op).rotateOnSuccess == s.rotateOnSuccess
  {
  }

  /** Whatever calls are made, in any order and with any inputs and draws,
      the manager never holds a proxy while on a direct connection, no
      counter ever goes down, and the rotation policy stays as built. */
  lemma {:induction false} RunPreserves(s: ProxyState, ops: seq<Op>)
    ensures Consistent(s) ==> Consistent(Run(s, ops))
    ensures StatsLe(s.stats, Run(s, ops).stats)
    ensures Run(s, ops).rotateOnSuccess == s.rotateOnSuccess
    decreases |ops|
  {
    if |ops| > 0 {
      ApplyPreserves(s, ops[0]);
      RunPreserves(Apply(s, ops[0]), ops[1..]);
    }
  }

  /** `k` attempts in a row. */
  function Attempts(k: nat): (ops: seq<Op>)
    ensures |ops| == k && forall i :: 0 <= i < k ==> ops[i] == Attempt
  {
    seq(k, _ => Attempt)
  }

  /** In proxy mode, `k` attempts raise the use counter and the proxy
      attempt counter by `k` and change nothing else. */
  lemma {:induction false} AttemptsCount(s: ProxyState, k: nat)
    requires s.mode == Proxy
    ensures Run(s, Attempts(k)) ==
      s.(proxyUseCount := s.proxyUseCount + k,
         stats := s.stats.(proxyAttempts := s.stats.proxyAttempts + k))
    decreases k
  {
    if k > 0 {
      assert Attempts(k)[1..] == Attempts(k - 1);
      AttemptsCount(AttemptStep(s), k - 1);
    }
  }

  /** After a successful switch to a proxy, the manager asks for a direct
      retry exactly once the proxy has been used `maxProxyUses` (5) times. */
  lemma RetryAfterMaxUses(s: ProxyState, fetched: Option<seq<string>>, pick: nat, k: nat)
    requires SwitchToProxyStep(s, fetched, pick).1.Normal?
    ensures RetryLocalDue(Run(SwitchToProxyStep(s, fetched, pick).0, Attempts(k))) <==> k >= MaxProxyUses
  {
    AttemptsCount(SwitchToProxyStep(s, fetched, pick).0, k);
  }

  /** After the return to a direct connection no retry is due and no
      rotation is due, whatever the counters were. */
  lemma LocalIsQuiet(s: ProxyState)
    ensures !RetryLocalDue(SwitchToLocalStep(s)) && !RotationDue(SwitchToLocalStep(s))
    ensures BrowserOptions(SwitchToLocalStep(s), map[]) == map[]
  {
  }

  /** With rotation on, a proxy used at least once is due for rotation: the
      first attempt after a switch makes it due. */
  lemma RotationDueAfterAttempt(s: ProxyState, fetched: Option<seq<string>>, pick: nat)
    requires s.rotateOnSuccess
    requires SwitchToProxyStep(s, fetched, pick).1.Normal?
    ensures !RotationDue(SwitchToProxyStep(s, fetched, pick).0)
    ensures RotationDue(AttemptStep(SwitchToProxyStep(s, fetched, pick).0))
  {
  }

  /** Every message `isBlockedError` recognises is also classified as a
      block by the shared error classifier of `utils.js`. */
  lemma BlockedErrorIsBlocked(message: Option<string>)
    requires IsBlockedError(message)
    ensures Utils.GetErrorType(MessageText(message)) == Utils.Blocked
  {
    var m := MessageText(message);
    Utils.AnyInIff(BlockedSignatures, m);
    var k :| 0 <= k < |BlockedSignatures| && Contains(m, BlockedSignatures[k]);
    var j := if k == 0 then 3 else if k == 1 then 0 else if k == 2 then 2 else 4;
    assert Utils.BlockPatterns[j] == BlockedSignatures[k];
    Utils.BlockedWins(m, j);
  }

  /** A bare `Timeout` is a proxy error only while a proxy is in use; on a
      direct connection it is left to the caller. */
  lemma TimeoutNeedsProxy(message: string)
    requires Contains(message, TimeoutWord)
    requires !Contains(message, NavigationTimeout)
    requires !Contains(message, ProxyConnectionFailed) && !Contains(message, SocksConnectionFailed)
    ensures IsProxyErrorIn(Proxy, Some(message))
    ensures !IsProxyErrorIn(Local, Some(message))
  {
  }
}
