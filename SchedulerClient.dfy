/**
 * The scheduler client and proxy, as their tests pin them down.
 * `SchedulerClient.get` picks a ZooKeeper-resolved or a direct client for a
 * cluster. A client resolves its scheduler's URL from the serverset, connects
 * by opening a transport (retrying a transport that fails to open, with a sleep
 * on an injected clock between tries) and caches the Thrift client.
 * `SchedulerProxy` forwards each verb to that Thrift client with its
 * arguments shaped, and retries transient failures in a loop.
 */
module SchedulerClient {
  import opened Wrappers
  import opened Text

  /** A host and port published by a serverset member. */
  datatype Endpoint = Endpoint(host: string, port: nat)

  /** A serverset member: its main endpoint and its named additional endpoints. */
  datatype ServiceInstance = ServiceInstance(serviceEndpoint: Endpoint, additionalEndpoints: map<string, Endpoint>)

  /** The fields of a cluster configuration the client reads; `None` is an unset field. */
  datatype Cluster = Cluster(name: string, zk: Option<string>, schedulerUri: Option<string>, proxyUrl: Option<string>)

  /** Python truthiness of an optional string: set and not empty. */
  predicate Truthy(o: Option<string>) {
    o.Some? && o.value != ""
  }

  /** The three kinds of client: the base class, the ZooKeeper-resolved client, and the direct client. */
  datatype Kind = Plain | ZooKeeper(cluster: Cluster) | Direct(uri: string)

  /** The exceptions the client raises. */
  datatype ClientError = TypeError | ValueError | CouldNotConnect

  /**
   * `SchedulerClient.get`: `None` is not a cluster; a cluster with `zk` gets a
   * ZooKeeper client, one with only `scheduler_uri` a direct client, and one
   * with neither is rejected.
   */
  function Choose(cluster: Option<Cluster>): (r: Result<Kind, ClientError>)
    ensures r == Failure(TypeError) <==> cluster.None?
    ensures r == Failure(ValueError) <==>
      cluster.Some? && !Truthy(cluster.value.zk) && !Truthy(cluster.value.schedulerUri)
    ensures r.Success? ==> !r.value.Plain?
    ensures r.Success? && r.value.ZooKeeper? <==> cluster.Some? && Truthy(cluster.value.zk)
    ensures r.Success? && r.value.ZooKeeper? ==> r.value.cluster == cluster.value
    ensures r.Success? && r.value.Direct? ==> Truthy(cluster.value.schedulerUri) && r.value.uri == cluster.value.schedulerUri.value
  {
    if cluster.None? then Failure(TypeError)
    else if Truthy(cluster.value.zk) then Success(ZooKeeper(cluster.value))
    else if Truthy(cluster.value.schedulerUri) then Success(Direct(cluster.value.schedulerUri.value))
    else Failure(ValueError)
  }

  /** The value `auth()` of an authentication module returns; opaque here. */
  datatype Auth = Auth(id: nat)

  /** A `TRequestsTransport` as constructed: its URI, auth, user agent and session factory's bypass flag. */
  datatype Transport = Transport(uri: string, auth: Auth, userAgent: string, bypassLeaderRedirect: bool)

  /** An `AuroraAdmin.Client` over a transport. */
  datatype ThriftClient = ThriftClient(transport: Transport)

  /** The header that asks the scheduler not to redirect to the leader. */
  const BypassHeader := "Bypass-Leader-Redirect"

  /** The headers the session factory adds: the bypass header, set to `"true"`, only when bypassing. */
  function SessionHeaders(bypass: bool): (h: map<string, string>)
    ensures BypassHeader in h <==> bypass
    ensures bypass ==> h[BypassHeader] == "true"
    ensures forall k :: k in h ==> k == BypassHeader
  {
    if bypass then map[BypassHeader := "true"] else map[]
  }

  /** `scheme://host:port`. */
  function EndpointUrl(scheme: string, e: Endpoint): string {
    scheme + "://" + e.host + ":" + NatToString(e.port)
  }

  /** The scheduler URL of a serverset member: its `https` endpoint, else its `http` endpoint, else none. */
  function ResolveUri(instance: ServiceInstance): (r: Option<string>)
    ensures r.None? <==> "https" !in instance.additionalEndpoints && "http" !in instance.additionalEndpoints
    ensures "https" in instance.additionalEndpoints ==>
      r == Some(EndpointUrl("https", instance.additionalEndpoints["https"]))
    ensures "https" !in instance.additionalEndpoints && "http" in instance.additionalEndpoints ==>
      r == Some(EndpointUrl("http", instance.additionalEndpoints["http"]))
  {
    var extra := instance.additionalEndpoints;
    if "https" in extra then Some(EndpointUrl("https", extra["https"]))
    else if "http" in extra then Some(EndpointUrl("http", extra["http"]))
    else None
  }

  /** A member that publishes one endpoint under `http` or `https` resolves to that endpoint's URL. */
  lemma SingleEndpointUrl(scheme: string, e: Endpoint)
    requires scheme == "http" || scheme == "https"
    ensures ResolveUri(ServiceInstance(e, map[scheme := e])) == Some(EndpointUrl(scheme, e))
  {
  }

  /**
   * The scheduler URL a client of kind `kind` reports, when it already knows
   * `known` and the serverset lists `serverset`: the direct client's URI; for
   * the ZooKeeper client the known URL, else the first member's, and no member
   * at all fails to connect.
   */
  function Target(kind: Kind, known: Option<string>, serverset: seq<ServiceInstance>): (r: Result<Option<string>, ClientError>)
    ensures kind.Plain? ==> r == Success(None)
    ensures kind.Direct? ==> r == Success(Some(kind.uri))
    ensures kind.ZooKeeper? && known.Some? ==> r == Success(known)
    ensures kind.ZooKeeper? && known.None? ==>
      (r.Failure? <==> serverset == []) && (r.Failure? ==> r.error == CouldNotConnect) &&
      (serverset != [] ==> r == Success(ResolveUri(serverset[0])))
  {
    match kind
    case Plain => Success(None)
    case Direct(uri) => Success(Some(uri))
    case ZooKeeper(_) =>
      if known.Some? then Success(known)
      else if serverset == [] then Failure(CouldNotConnect)
      else Success(ResolveUri(serverset[0]))
  }

  /** Where `_connect` opens the Thrift API: `urljoin(uri, 'api')` for a URI without a path. */
  function ApiUrl(uri: string): (r: string)
    ensures StartsWith(r, uri) && r[|uri|..] == "/api"
  {
    uri + "/api"
  }

  /** The index of the first open that succeeds. */
  function FirstOpen(opens: seq<bool>): (i: nat)
    requires true in opens
    ensures i < |opens| && opens[i]
    ensures forall j :: 0 <= j < i ==> !opens[j]
  {
    if opens[0] then 0 else 1 + FirstOpen(opens[1..])
  }

  /** The injected clock: it records every sleep. */
  class Clock {
    var sleeps: seq<nat>

    constructor()
      ensures sleeps == []
    {
      sleeps := [];
    }

    method Sleep(seconds: nat)
      modifies this
      ensures sleeps == old(sleeps) + [seconds]
    {
      sleeps := sleeps + [seconds];
    }
  }

  /** `seconds` repeated `n` times: the sleeps of `n` failed opens. */
  function Sleeps(n: nat, seconds: nat): (r: seq<nat>)
    ensures |r| == n && forall i :: 0 <= i < n ==> r[i] == seconds
  {
    seq(n, _ => seconds)
  }

  /** A scheduler client and the state it caches. */
  class SchedulerClient {
    const kind: Kind
    const auth: Auth
    const userAgent: string
    const verbose: bool
    const bypassLeaderRedirect: bool
    /** `RETRY_TIMEOUT`, in seconds. */
    const retryTimeout: nat
    /** The scheduler URL resolved from the serverset (ZooKeeper clients only). */
    var uri: Option<string>
    /** The cached Thrift client. */
    var client: Option<ThriftClient>

    constructor(kind: Kind, auth: Auth, userAgent: string, verbose: bool, bypassLeaderRedirect: bool, retryTimeout: nat)
      ensures this.kind == kind && this.auth == auth && this.userAgent == userAgent && this.verbose == verbose
      ensures this.bypassLeaderRedirect == bypassLeaderRedirect && this.retryTimeout == retryTimeout
      ensures uri.None? && client.None?
    {
      this.kind := kind;
      this.auth := auth;
      this.userAgent := userAgent;
      this.verbose := verbose;
      this.bypassLeaderRedirect := bypassLeaderRedirect;
      this.retryTimeout := retryTimeout;
      uri := None;
      client := None;
    }

    /** The transport `_connect_scheduler` builds for `u`: the client's auth, user agent and bypass flag. */
    function TransportFor(u: string): Transport
      reads this
    {
      Transport(u, auth, userAgent, bypassLeaderRedirect)
    }

    /**
     * `_connect_scheduler(u, clock)`: build the transport, then open it until an
     * open succeeds, sleeping `RETRY_TIMEOUT` after each failed open. `opens`
     * lists the outcomes of successive opens.
     */
    method ConnectScheduler(u: string, clock: Clock, opens: seq<bool>) returns (c: ThriftClient, attempts: nat)
      requires true in opens
      modifies clock
      ensures attempts == FirstOpen(opens) + 1
      ensures clock.sleeps == old(clock.sleeps) + Sleeps(attempts - 1, retryTimeout)
      ensures c == ThriftClient(TransportFor(u))
    {
      var transport := TransportFor(u);
      var i := 0;
      while !opens[i]
        invariant 0 <= i <= FirstOpen(opens)
        invariant clock.sleeps == old(clock.sleeps) + Sleeps(i, retryTimeout)
        decreases FirstOpen(opens) - i
      {
        clock.Sleep(retryTimeout);
        i := i + 1;
        assert Sleeps(i, retryTimeout) == Sleeps(i - 1, retryTimeout) + [retryTimeout];
      }
      return ThriftClient(transport), i + 1;
    }

    /**
     * `raw_url`: the scheduler's own URL. A ZooKeeper client resolves it from
     * `serverset` the first time and keeps it; reading it never connects.
     */
    method RawUrl(serverset: seq<ServiceInstance>) returns (r: Result<Option<string>, ClientError>)
      requires !kind.Plain?
      modifies this
      ensures r == Target(kind, old(uri), serverset)
      ensures uri == if r.Success? && kind.ZooKeeper? then r.value else old(uri)
      ensures client == old(client)
    {
      r := Target(kind, uri, serverset);
      if r.Success? && kind.ZooKeeper? {
        uri := r.value;
      }
    }

    /** `url`: the cluster's proxy URL when one is set, else `raw_url`. */
    method Url(serverset: seq<ServiceInstance>) returns (r: Result<Option<string>, ClientError>)
      requires !kind.Plain?
      modifies this
      ensures kind.ZooKeeper? && Truthy(kind.cluster.proxyUrl) ==>
        r == Success(kind.cluster.proxyUrl) && uri == old(uri)
      ensures !(kind.ZooKeeper? && Truthy(kind.cluster.proxyUrl)) ==>
        r == Target(kind, old(uri), serverset) &&
        uri == if r.Success? && kind.ZooKeeper? then r.value else old(uri)
      ensures client == old(client)
    {
      if kind.ZooKeeper? && Truthy(kind.cluster.proxyUrl) {
        return Success(kind.cluster.proxyUrl);
      }
      r := RawUrl(serverset);
    }

    /**
     * `_connect`: the base client connects nowhere; the others connect to the
     * API under their scheduler URL, if they have one. `connectedTo` is the
     * URI handed to `_connect_scheduler`, if it was called.
     */
    method Connect(serverset: seq<ServiceInstance>, clock: Clock, opens: seq<bool>)
      returns (r: Result<Option<ThriftClient>, ClientError>, connectedTo: Option<string>)
      requires true in opens
      modifies this, clock
      ensures client == old(client)
      ensures var t := Target(kind, old(uri), serverset);
        uri == (if t.Success? && kind.ZooKeeper? then t.value else old(uri)) &&
        (t.Failure? ==> r == Failure(t.error) && connectedTo.None?) &&
        (t.Success? && t.value.None? ==> r == Success(None) && connectedTo.None?) &&
        (t.Success? && t.value.Some? ==>
          connectedTo == Some(ApiUrl(t.value.value)) &&
          r == Success(Some(ThriftClient(TransportFor(ApiUrl(t.value.value))))) &&
          clock.sleeps == old(clock.sleeps) + Sleeps(FirstOpen(opens), retryTimeout))
      ensures connectedTo.None? ==> clock.sleeps == old(clock.sleeps)
    {
      var target := Success(None);
      if !kind.Plain? {
        target := RawUrl(serverset);
      }
      if target.Failure? {
        return Failure(target.error), None;
      }
      if target.value.None? {
        return Success(None), None;
      }
      var api := ApiUrl(target.value.value);
      var c, _ := ConnectScheduler(api, clock, opens);
      return Success(Some(c)), Some(api);
    }

    /**
     * `get_thrift_client`: the cached Thrift client, or, when none is cached,
     * the result of `_connect`, which is cached.
     */
    method GetThriftClient(serverset: seq<ServiceInstance>, clock: Clock, opens: seq<bool>)
      returns (r: Result<Option<ThriftClient>, ClientError>, connectedTo: Option<string>)
      requires true in opens
      modifies this, clock
      ensures old(client).Some? ==>
        r == Success(old(client)) && connectedTo.None? && client == old(client) && uri == old(uri) &&
        clock.sleeps == old(clock.sleeps)
      ensures old(client).None? ==>
        var t := Target(kind, old(uri), serverset);
        uri == (if t.Success? && kind.ZooKeeper? then t.value else old(uri)) &&
        client == (if r.Success? then r.value else None) &&
        (t.Failure? ==> r == Failure(t.error) && connectedTo.None?) &&
        (t.Success? && t.value.None? ==> r == Success(None) && connectedTo.None?) &&
        (t.Success? && t.value.Some? ==>
          connectedTo == Some(ApiUrl(t.value.value)) &&
          r == Success(Some(ThriftClient(TransportFor(ApiUrl(t.value.value))))) &&
          clock.sleeps == old(clock.sleeps) + Sleeps(FirstOpen(opens), retryTimeout))
      ensures connectedTo.None? ==> clock.sleeps == old(clock.sleeps)
    {
      if client.Some? {
        return Success(client), None;
      }
      r, connectedTo := Connect(serverset, clock, opens);
      if r.Success? {
        client := r.value;
      }
    }
  }

  /** `SchedulerClient.get(cluster, auth_factory, ...)`: a fresh client of the chosen kind. */
  method Get(cluster: Option<Cluster>, authFactory: Cluster -> Auth, userAgent: string, bypassLeaderRedirect: bool, retryTimeout: nat)
    returns (r: Result<SchedulerClient, ClientError>)
    ensures r.Failure? <==> Choose(cluster).Failure?
    ensures r.Failure? ==> r.error == Choose(cluster).error
    ensures r.Success? ==>
      fresh(r.value) && r.value.kind == Choose(cluster).value && r.value.auth == authFactory(cluster.value) &&
      r.value.userAgent == userAgent && r.value.bypassLeaderRedirect == bypassLeaderRedirect &&
      r.value.retryTimeout == retryTimeout && r.value.uri.None? && r.value.client.None?
  {
    var kind := Choose(cluster);
    if kind.Failure? {
      return Failure(kind.error);
    }
    var c := new SchedulerClient(kind.value, authFactory(cluster.value), userAgent, false, bypassLeaderRedirect, retryTimeout);
    return Success(c);
  }

  /**
   * A ZooKeeper client whose serverset member publishes `scheme://host:port`:
   * `url` and `raw_url` are that URL without a proxy; with a proxy `url` is the
   * proxy and `raw_url` is unchanged; neither connects. The first
   * `get_thrift_client` connects to the URL's `/api`, the second does not connect.
   */
  method UrlAndConnectOnce(scheme: string, e: Endpoint, proxy: string, auth: Auth, clock: Clock, opens: seq<bool>)
    returns (url: Option<string>, rawUrl: Option<string>, proxied: Option<string>, proxiedRaw: Option<string>,
             first: Option<string>, second: Option<string>)
    requires scheme == "http" || scheme == "https"
    requires proxy != "" && true in opens
    modifies clock
    ensures url == rawUrl == proxiedRaw == Some(EndpointUrl(scheme, e))
    ensures proxied == Some(proxy)
    ensures first == Some(ApiUrl(EndpointUrl(scheme, e))) && second.None?
  {
    var serverset := [ServiceInstance(e, map[scheme := e])];
    SingleEndpointUrl(scheme, e);
    var plain := new SchedulerClient(ZooKeeper(Cluster("", Some("zk"), None, None)), auth, "Some-User-Agent", false, false, 1);
    var u := plain.Url(serverset);
    var raw := plain.RawUrl(serverset);
    url, rawUrl := u.value, raw.value;
    var withProxy := new SchedulerClient(ZooKeeper(Cluster("", Some("zk"), None, Some(proxy))), auth, "Some-User-Agent", false, false, 1);
    var p := withProxy.Url(serverset);
    var pr := withProxy.RawUrl(serverset);
    proxied, proxiedRaw := p.value, pr.value;
    var again := new SchedulerClient(ZooKeeper(Cluster("", Some("zk"), None, None)), auth, "Some-User-Agent", false, false, 1);
    var _, c1 := again.GetThriftClient(serverset, clock, opens);
    var _, c2 := again.GetThriftClient(serverset, clock, opens);
    first, second := c1, c2;
  }

  /** Response codes; only `ERROR_TRANSIENT` is told apart from the others. */
  datatype ResponseCode = Ok | ErrorTransient | OtherCode(name: string)

  datatype Response = Response(code: ResponseCode, details: seq<string>)

  /** What one call of a Thrift verb does: return a response, or raise. */
  datatype Outcome =
    | Returned(resp: Response)
    | TransportException      // `TTransport.TTransportException`
    | Timeout                 // `SchedulerProxy.TimeoutError`
    | TransportAuthError      // `TRequestsTransport.AuthError`

  /** The exceptions the proxy raises. */
  datatype ProxyError = NotRetriableError | AuthError(message: string) | ClientUnavailable(message: string)

  /** An argument of a verb; its value is opaque. */
  datatype Arg = NoneArg | Value(repr: string)

  /** One call of the Thrift client: the verb and the arguments it received. */
  datatype Call = Call(verb: string, args: seq<Arg>)

  /** The update verbs that take an optional message, passed on as `None` when omitted. */
  const MessageVerbs: set<string> :=
    {"startJobUpdate", "pauseJobUpdate", "resumeJobUpdate", "abortJobUpdate", "rollbackJobUpdate", "getJobUpdateDetails"}

  /** The arguments the proxy passes on for `verb(args...)`. */
  function ShapeArgs(verb: string, args: seq<Arg>): (r: seq<Arg>)
    ensures args <= r && |r| <= |args| + 1
    ensures |r| == |args| + 1 <==> verb in MessageVerbs && |args| == 1
    ensures |r| == |args| + 1 ==> r[|args|] == NoneArg
  {
    if verb in MessageVerbs && |args| == 1 then args + [NoneArg] else args
  }

  /** `pulseJobUpdate(id)` passes only the id; `pauseJobUpdate(id)` adds the omitted message. */
  lemma ShapeExamples(id: Arg)
    ensures ShapeArgs("pulseJobUpdate", [id]) == [id]
    ensures ShapeArgs("pauseJobUpdate", [id]) == [id, NoneArg]
    ensures ShapeArgs("killTasks", [id, NoneArg, NoneArg]) == [id, NoneArg, NoneArg]
  {
  }

  /** Whether the proxy tries again after `o`: transient responses and timeouts always, transport exceptions only with `retry`. */
  predicate Retried(o: Outcome, retry: bool) {
    (o.Returned? && o.resp.code == ErrorTransient) || o.Timeout? || (o.TransportException? && retry)
  }

  /** Some outcome of the script ends the loop. */
  predicate Ends(script: seq<Outcome>, retry: bool) {
    exists i :: 0 <= i < |script| && !Retried(script[i], retry)
  }

  /** The number of calls until the first outcome that ends the loop. */
  function Attempts(script: seq<Outcome>, retry: bool): (n: nat)
    requires Ends(script, retry)
    ensures 1 <= n <= |script| && !Retried(script[n - 1], retry)
    ensures forall i :: 0 <= i < n - 1 ==> Retried(script[i], retry)
  {
    if !Retried(script[0], retry) then 1
    else
      assert Ends(script[1..], retry) by {
        var i :| 0 <= i < |script| && !Retried(script[i], retry);
        assert script[1..][i - 1] == script[i];
      }
      1 + Attempts(script[1..], retry)
  }

  /** What the proxy returns or raises for the outcome that ended the loop. */
  function Verdict(o: Outcome, retry: bool, authMessage: string): (r: Result<Response, ProxyError>)
    requires !Retried(o, retry)
    ensures r.Success? <==> o.Returned?
    ensures o.Returned? ==> r == Success(o.resp) && o.resp.code != ErrorTransient
    ensures o.TransportException? ==> !retry && r == Failure(NotRetriableError)
    ensures o.TransportAuthError? ==> r == Failure(AuthError(authMessage))
  {
    match o
    case Returned(resp) => Success(resp)
    case TransportException => Failure(NotRetriableError)
    case TransportAuthError => Failure(AuthError(authMessage))
  }

  /** A transport exception never retried with `retry` is retried; everything else is decided alike. */
  lemma RetriedMonotone(o: Outcome)
    ensures Retried(o, false) ==> Retried(o, true)
    ensures Retried(o, true) && !Retried(o, false) <==> o.TransportException?
  {
  }

  /** Without transport exceptions in the script, the `retry` flag changes nothing. */
  lemma {:induction false} RetryFlagOnlyForTransport(script: seq<Outcome>, authMessage: string)
    requires Ends(script, false)
    requires forall i :: 0 <= i < |script| ==> !script[i].TransportException?
    ensures Ends(script, true)
    ensures Attempts(script, true) == Attempts(script, false)
    ensures Verdict(script[Attempts(script, true) - 1], true, authMessage)
      == Verdict(script[Attempts(script, false) - 1], false, authMessage)
  {
    var n := Attempts(script, false);
    assert !Retried(script[n - 1], true);
    if Retried(script[0], false) {
      var rest := script[1..];
      assert Ends(rest, false) by {
        assert !Retried(rest[n - 2], false);
      }
      RetryFlagOnlyForTransport(rest, authMessage);
    }
  }

  /** Passing `retry` can only lengthen the loop. */
  lemma {:induction false} RetryNeverShortens(script: seq<Outcome>)
    requires Ends(script, true)
    ensures Ends(script, false)
    ensures Attempts(script, false) <= Attempts(script, true)
  {
    var n := Attempts(script, true);
    assert !Retried(script[n - 1], false);
    if Retried(script[0], false) {
      var rest := script[1..];
      assert Ends(rest, true) by {
        assert !Retried(rest[n - 2], true);
      }
      RetryNeverShortens(rest);
    }
  }

  /** Two transient responses and then `OK`: three calls, two waits, and the `OK` response. */
  lemma TransientThenOk(ok: Response, authMessage: string)
    requires ok.code == Ok
    ensures var s := [Returned(Response(ErrorTransient, ["message1", "message2"])), Returned(Response(ErrorTransient, [])), Returned(ok)];
      Ends(s, false) && Attempts(s, false) == 3 && Verdict(s[2], false, authMessage) == Success(ok)
  {
    var s := [Returned(Response(ErrorTransient, ["message1", "message2"])), Returned(Response(ErrorTransient, [])), Returned(ok)];
    assert !Retried(s[2], false);
    assert s[1..][1..] == [Returned(ok)];
  }

  /** A transient response, a timeout, then `OK`: three calls and two waits. */
  lemma TransientTimeoutThenOk(ok: Response)
    requires ok.code == Ok
    ensures var s := [Returned(Response(ErrorTransient, [])), Timeout, Returned(ok)];
      Ends(s, false) && Attempts(s, false) == 3
  {
    var s := [Returned(Response(ErrorTransient, [])), Timeout, Returned(ok)];
    assert !Retried(s[2], false);
    assert s[1..][1..] == [Returned(ok)];
  }

  /** A transport exception without `retry`: one call, no wait, `NotRetriableError`. */
  lemma TransportNotRetried(authMessage: string)
    ensures Ends([TransportException], false) && Attempts([TransportException], false) == 1
    ensures Verdict(TransportException, false, authMessage) == Failure(NotRetriableError)
  {
    assert !Retried([TransportException][0], false);
  }

  /** A transport exception and then `OK` with `retry`: two calls and one wait. */
  lemma TransportRetried(ok: Response)
    requires ok.code == Ok
    ensures Ends([TransportException, Returned(ok)], true)
    ensures Attempts([TransportException, Returned(ok)], true) == 2
  {
    var s := [TransportException, Returned(ok)];
    assert !Retried(s[1], true);
    assert s[1..] == [Returned(ok)];
  }

  /** A transport auth error surfaces as the proxy's `AuthError`, after one call. */
  lemma AuthErrorTranslated(rest: seq<Outcome>, retry: bool, authMessage: string)
    ensures Ends([TransportAuthError] + rest, retry) && Attempts([TransportAuthError] + rest, retry) == 1
    ensures Verdict(TransportAuthError, retry, authMessage) == Failure(AuthError(authMessage))
  {
    assert !Retried(([TransportAuthError] + rest)[0], retry);
  }

  /** `SchedulerProxy`: a cluster and the Thrift client it caches. */
  class SchedulerProxy {
    const cluster: Cluster
    var client: Option<ThriftClient>

    constructor(cluster: Cluster)
      ensures this.cluster == cluster && client.None?
    {
      this.cluster := cluster;
      client := None;
    }

    /**
     * `client()`: the cached Thrift client, else the one `fetched` from a
     * fresh scheduler client; a failure is raised and nothing is cached, so
     * the next call tries again.
     */
    method Client(fetched: Result<ThriftClient, ProxyError>) returns (r: Result<ThriftClient, ProxyError>)
      modifies this
      ensures old(client).Some? ==> r == Success(old(client).value) && client == old(client)
      ensures old(client).None? ==> r == fetched && client == (if fetched.Success? then Some(fetched.value) else None)
    {
      if client.Some? {
        return Success(client.value);
      }
      r := fetched;
      if r.Success? {
        client := Some(r.value);
      }
    }

    /**
     * A verb call through the proxy. `script` lists what successive calls of
     * the Thrift verb do; `calls` is what the Thrift client received and
     * `waits` the number of waits between attempts.
     */
    method Invoke(verb: string, args: seq<Arg>, retry: bool, fetched: Result<ThriftClient, ProxyError>,
                  script: seq<Outcome>, authMessage: string)
      returns (r: Result<Response, ProxyError>, calls: seq<Call>, waits: nat)
      requires Ends(script, retry)
      modifies this
      ensures old(client).None? && fetched.Failure? ==>
        r == Failure(fetched.error) && calls == [] && waits == 0 && client.None?
      ensures old(client).Some? || fetched.Success? ==>
        var n := Attempts(script, retry);
        client == (if old(client).Some? then old(client) else Some(fetched.value)) &&
        calls == seq(n, _ => Call(verb, ShapeArgs(verb, args))) && waits == n - 1 &&
        r == Verdict(script[n - 1], retry, authMessage)
    {
      var c := Client(fetched);
      if c.Failure? {
        return Failure(c.error), [], 0;
      }
      var call := Call(verb, ShapeArgs(verb, args));
      ghost var n := Attempts(script, retry);
      var i := 0;
      calls, waits := [call], 0;
      while Retried(script[i], retry)
        invariant 0 <= i < n
        invariant calls == seq(i + 1, _ => call) && waits == i
        decreases n - i
      {
        waits := waits + 1;
        i := i + 1;
        calls := calls + [call];
      }
      r := Verdict(script[i], retry, authMessage);
    }
  }
}
