/**
  The CLI's connection session (sql/sql_connection.py): it starts the gateway through the process
  manager, holds the RPC handle, verifies a cluster endpoint and asks the gateway to initialise its
  own connection to it, runs queries, and disconnects.

  The RPC channel to the gateway is a parameter `gateway` from the call made to the reply seen (a
  returned string, or the text of an exception raised by the call). The cluster verifiers are the
  modelled ones of `VerifyCluster`, run against transports passed in.
*/
module SqlConnectionSession {
  import opened Base
  import opened Text
  import opened Json
  import opened VerifyCluster
  import opened SqlVersionSelection
  import opened SqlLibraryProcess

  /** The RPC handle, opened on a gateway port. */
  datatype GatewayHandle = GatewayHandle(port: nat)

  /** The gateway entry points the session calls. */
  datatype RpcCall =
    | InitializeConnection(host: Option<string>, port: Option<nat>, protocol: string,
                           username: Option<string>, password: Option<string>, ignoreSsl: bool)
    | InitializeAwsConnection(hostPort: string)
    | QueryExecution(query: string, isPpl: bool, format: string)
    | DisconnectCall

  /** What an RPC call gave: the string it returned, or the text of the exception it raised. */
  datatype RpcReply = Returned(text: string) | RpcRaised(text: string)

  /** What the cluster verification observes: the HTTP transport, the AWS session and the signed transport, and the gateway. */
  datatype ClusterEnv = ClusterEnv(
    transport: BasicRequest -> HttpOutcome,
    awsSession: AwsSession,
    signedTransport: SignedRequest -> HttpOutcome,
    gateway: RpcCall -> RpcReply)

  /** Every field of a session. */
  datatype SessionState = SessionState(
    sqlLib: Option<GatewayHandle>,
    sqlConnected: bool,
    opensearchConnected: bool,
    errorMessage: Option<string>,
    host: Option<string>,
    portNum: Option<nat>,
    protocol: string,
    username: Option<string>,
    password: Option<string>,
    version: Option<Json>,
    url: Option<string>)

  /** The outcome of one operation: its return value, the RPC call it made (if any), and the new state. */
  datatype Step = Step(ok: bool, sent: Option<RpcCall>, state: SessionState)

  const NotConnectedSql := "Error: Not connected to SQL library"
  const NotConnectedCluster := "Error: Not connected to OpenSearch Cluster"
  /** The text of the TypeError raised when the verifier's missing tuple is unpacked. */
  const UnpackNone := "cannot unpack non-iterable NoneType object"

  /** A fresh session: nothing connected, protocol "http", no parameters. */
  function InitialState(): (s: SessionState)
    ensures !s.sqlConnected && !s.opensearchConnected && s.sqlLib.None? && s.protocol == "http"
  {
    SessionState(None, false, false, None, None, None, "http", None, None, None, None)
  }

  /** The session invariant the code keeps: either flag set means there is an RPC handle. */
  predicate HasHandle(s: SessionState) {
    (s.sqlConnected ==> s.sqlLib.Some?) && (s.opensearchConnected ==> s.sqlLib.Some?)
  }

  /** The intended invariant: the cluster is connected only through a connected SQL library. */
  predicate ClusterThroughSql(s: SessionState) {
    s.opensearchConnected ==> s.sqlConnected
  }

  /**
    What every path of `initialize_opensearch` keeps: the SQL-library side is untouched, success
    means an initialize call was made and the cluster flag set, and the flag is only raised by success.
  */
  predicate KeepsSqlSide(s: SessionState, r: Step) {
    && r.state.sqlConnected == s.sqlConnected && r.state.sqlLib == s.sqlLib
    && (r.ok <==> r.sent.Some? && r.state.opensearchConnected)
    && (r.state.opensearchConnected ==> r.ok || s.opensearchConnected)
  }

  /** The message stored when an exception escapes `initialize_opensearch`. */
  function ConnectError(hostPortText: string, detail: string): string {
    "Unable to connect to " + hostPortText + ": " + detail
  }

  // ---------------------------------------------------------------------------
  // initialize_opensearch, as a function of the state before it
  // ---------------------------------------------------------------------------

  /** Credentials "user:password" split at the first ":"; without a ":" nothing changes. */
  function WithCredentials(s: SessionState, credentials: Option<string>): (r: SessionState)
    ensures r == s.(username := r.username, password := r.password)
  {
    if Truthy(credentials) && Contains(credentials.value, ":") then
      var (user, pass) := SplitOnce(credentials.value, ":");
      s.(username := Some(user), password := Some(pass))
    else s
  }

  /** A "scheme://" prefix split off at its first occurrence; None when there is none. */
  function SplitScheme(hostPort: string): (r: (Option<string>, string))
    ensures r.0.Some? ==> r.0.value + "://" + r.1 == hostPort && !Contains(r.0.value, "://")
    ensures r.0.None? ==> r.1 == hostPort && !Contains(hostPort, "://")
  {
    if Contains(hostPort, "://") then
      var (scheme, rest) := SplitOnce(hostPort, "://");
      (Some(scheme), rest)
    else (None, hostPort)
  }

  /** The reply to an initialize call means success unless it carries "Error:" without an initialized marker. */
  predicate InitializeSucceeded(result: string) {
    || Contains(result, "Connection initialized")
    || Contains(result, "Already initialized")
    || !Contains(result, "Error:")
  }

  /** Sending an initialize call and reading its reply. */
  function AfterReply(s: SessionState, call: RpcCall, hostPortText: string, gateway: RpcCall -> RpcReply): (r: Step)
    ensures r.sent == Some(call)
    ensures r.ok <==> r.state.opensearchConnected
    ensures r.ok <==> gateway(call).Returned? && InitializeSucceeded(gateway(call).text)
    ensures r.ok ==> r.state == s.(opensearchConnected := true)
    ensures gateway(call).RpcRaised? ==>
              r.state == s.(opensearchConnected := false,
                            errorMessage := Some(ConnectError(hostPortText, gateway(call).text)))
    ensures gateway(call).Returned? && !r.ok ==>
              r.state == s.(opensearchConnected := false, errorMessage := Some(gateway(call).text))
  {
    match gateway(call)
    case RpcRaised(e) =>
      Step(false, Some(call), s.(opensearchConnected := false, errorMessage := Some(ConnectError(hostPortText, e))))
    case Returned(result) =>
      if Contains(result, "Connection initialized") || Contains(result, "Already initialized") then
        Step(true, Some(call), s.(opensearchConnected := true))
      else if Contains(result, "Error:") then
        Step(false, Some(call), s.(errorMessage := Some(result), opensearchConnected := false))
      else
        Step(true, Some(call), s.(opensearchConnected := true))
  }

  /** Basic-mode verification with the session's parameters, then the initialize call on success. */
  function VerifiedInitialize(s: SessionState, hostPortText: string, ignoreSsl: bool, env: ClusterEnv): (r: Step)
    ensures KeepsSqlSide(s, r)
    ensures r.state.host == s.host && r.state.portNum == s.portNum && r.state.protocol == s.protocol
    ensures r.state.password == s.password
    ensures var v := VerifyOpenSearchConnection(s.host, s.portNum, s.protocol, s.username, s.password, ignoreSsl, env.transport);
            && (v.NoResult? ==> !r.ok && r.sent.None? && !r.state.opensearchConnected
                                && r.state.errorMessage == Some(ConnectError(hostPortText, UnpackNone)))
            && (v.Verdict? && !v.success ==> !r.ok && r.sent.None? && !r.state.opensearchConnected
                                             && r.state.errorMessage == Some(v.message))
            && (v.Verdict? && v.success ==>
                  && r.state.version == v.version && r.state.url == v.url
                  && r.sent == Some(InitializeConnection(s.host, s.portNum, s.protocol, s.username, s.password, ignoreSsl)))
  {
    match VerifyOpenSearchConnection(s.host, s.portNum, s.protocol, s.username, s.password, ignoreSsl, env.transport)
    case NoResult =>
      Step(false, None, s.(errorMessage := Some(ConnectError(hostPortText, UnpackNone)), opensearchConnected := false))
    case Verdict(success, message, version, url, identity) =>
      if !success then
        Step(false, None, s.(opensearchConnected := false, errorMessage := Some(message)))
      else
        var s1 := s.(version := version, url := url, username := if Truthy(identity) then identity else s.username);
        AfterReply(s1, InitializeConnection(s1.host, s1.portNum, s1.protocol, s1.username, s1.password, ignoreSsl),
                   hostPortText, env.gateway)
  }

  /** Basic mode with an explicit "[scheme://]host[:port]". */
  function HostPortInitialize(s: SessionState, hostPort: string, ignoreSsl: bool, env: ClusterEnv): (r: Step)
    ensures KeepsSqlSide(s, r)
    ensures r.sent.Some? ==> r.sent.value.InitializeConnection?
    ensures r.state.protocol == if SplitScheme(hostPort).0.Some? then SplitScheme(hostPort).0.value else s.protocol
    ensures var rest := SplitScheme(hostPort).1;
            r.state.host == Some(if Contains(rest, ":") then SplitOnce(rest, ":").0 else rest)
  {
    var (scheme, rest) := SplitScheme(hostPort);
    HostPortConnect(if scheme.Some? then s.(protocol := scheme.value) else s, rest, ignoreSsl, env)
  }

  /** Basic mode once the scheme is split off: "host[:port]" parsed, then verification and the initialize call. */
  function HostPortConnect(s: SessionState, rest: string, ignoreSsl: bool, env: ClusterEnv): (r: Step)
    ensures KeepsSqlSide(s, r) && r.state.protocol == s.protocol
    ensures r.sent.Some? ==> r.sent.value.InitializeConnection?
    ensures !Contains(rest, ":") ==> r.state.host == Some(rest) && r.state.portNum == s.portNum
    ensures Contains(rest, ":") ==>
              var (h, portText) := SplitOnce(rest, ":");
              && r.state.host == Some(h)
              && (IsDecimal(portText) ==> r.state.portNum == Some(DecimalValue(portText)))
              && (!IsDecimal(portText) ==> && !r.ok && r.sent.None? && !r.state.opensearchConnected
                                           && r.state.errorMessage == s.errorMessage && r.state.portNum == s.portNum)
  {
    if Contains(rest, ":") then
      var (h, portText) := SplitOnce(rest, ":");
      var s1 := s.(host := Some(h));
      if !IsDecimal(portText) then Step(false, None, s1.(opensearchConnected := false))
      else VerifiedInitialize(s1.(portNum := Some(DecimalValue(portText))), rest, ignoreSsl, env)
    else
      VerifiedInitialize(s.(host := Some(rest)), rest, ignoreSsl, env)
  }

  /** AWS mode: an endpoint is required; its scheme is split off; SigV4 verification, then the AWS initialize call. */
  function AwsInitialize(s: SessionState, hostPort: Option<string>, env: ClusterEnv): (r: Step)
    ensures KeepsSqlSide(s, r)
    ensures !Truthy(hostPort) ==> r == Step(false, None, s)
    ensures Truthy(hostPort) ==>
              var rest := SplitScheme(hostPort.value).1;
              var v := VerifyAwsOpenSearchConnection(rest, env.awsSession, env.signedTransport);
              && r.state.host == Some(rest)
              && r.state.protocol == (if SplitScheme(hostPort.value).0.Some? then SplitScheme(hostPort.value).0.value else s.protocol)
              && r.state.portNum == s.portNum && r.state.password == s.password
              && (!v.success ==> !r.ok && r.sent.None? && !r.state.opensearchConnected
                                 && r.state.errorMessage == Some(v.message))
              && (v.success ==> && r.sent == Some(InitializeAwsConnection(rest))
                                && r.state.version == v.version
                                && r.state.username == Some("AWS " + v.identity.value)
                                && r.state.url == Some(AwsUrl(rest)))
    ensures r.sent.Some? ==> r.sent.value.InitializeAwsConnection?
  {
    if !Truthy(hostPort) then Step(false, None, s)
    else
      var (scheme, rest) := SplitScheme(hostPort.value);
      var s1 := (if scheme.Some? then s.(protocol := scheme.value) else s).(host := Some(rest));
      AwsConnect(s1, rest, env)
  }

  /** The AWS branch once the host is recorded: verify the domain, then send the initialize call. */
  function AwsConnect(s: SessionState, host: string, env: ClusterEnv): (r: Step)
    ensures KeepsSqlSide(s, r) && r.state.host == s.host
    ensures r.state.protocol == s.protocol && r.state.portNum == s.portNum && r.state.password == s.password
    ensures var v := VerifyAwsOpenSearchConnection(host, env.awsSession, env.signedTransport);
            && (!v.success ==> !r.ok && r.sent.None? && !r.state.opensearchConnected
                               && r.state.errorMessage == Some(v.message))
            && (v.success ==> && r.sent == Some(InitializeAwsConnection(host))
                              && r.state.version == v.version
                              && r.state.username == Some("AWS " + v.identity.value)
                              && r.state.url == Some(AwsUrl(host)))
  {
    var v := VerifyAwsOpenSearchConnection(host, env.awsSession, env.signedTransport);
    if !v.success then
      Step(false, None, s.(opensearchConnected := false, errorMessage := Some(v.message)))
    else
      var s2 := s.(version := v.version, url := v.url, username := Some("AWS " + Show(v.identity)));
      AfterReply(s2, InitializeAwsConnection(host), host, env.gateway)
  }

  /** `initialize_opensearch`. */
  function Initialize(s: SessionState, hostPort: Option<string>, credentials: Option<string>,
                      ignoreSsl: bool, awsAuth: bool, env: ClusterEnv): (r: Step)
    ensures !s.sqlConnected || s.sqlLib.None? ==> r == Step(false, None, s)
    ensures KeepsSqlSide(s, r)
    ensures r.sent.Some? ==> s.sqlConnected && s.sqlLib.Some?
    ensures r.sent.Some? ==> (r.sent.value.InitializeAwsConnection? <==> awsAuth)
    ensures r.sent.Some? ==> r.sent.value.InitializeConnection? || r.sent.value.InitializeAwsConnection?
  {
    if !s.sqlConnected || s.sqlLib.None? then Step(false, None, s)
    else
      InitializeRoute(WithCredentials(s, credentials), hostPort, ignoreSsl, awsAuth, env)
  }

  /** The three ways `initialize_opensearch` reaches the cluster: AWS, a given endpoint, or the stored one. */
  function InitializeRoute(s: SessionState, hostPort: Option<string>, ignoreSsl: bool, awsAuth: bool, env: ClusterEnv): (r: Step)
    ensures KeepsSqlSide(s, r)
    ensures r.sent.Some? ==> (r.sent.value.InitializeAwsConnection? <==> awsAuth)
    ensures awsAuth && !Truthy(hostPort) ==> r == Step(false, None, s)
    ensures !awsAuth && !Truthy(hostPort) ==>
              r.state.host == s.host && r.state.portNum == s.portNum && r.state.protocol == s.protocol
  {
    if awsAuth then AwsInitialize(s, hostPort, env)
    else if Truthy(hostPort) then HostPortInitialize(s, hostPort.value, ignoreSsl, env)
    else VerifiedInitialize(s, Show(hostPort), ignoreSsl, env)
  }

  // ---------------------------------------------------------------------------
  // The session object
  // ---------------------------------------------------------------------------

  /** `SqlConnection`. */
  class SqlConnection {
    const gatewayPort: nat
    var sqlLib: Option<GatewayHandle>
    var sqlConnected: bool
    var opensearchConnected: bool
    var errorMessage: Option<string>
    var host: Option<string>
    var portNum: Option<nat>
    var protocol: string
    var username: Option<string>
    var password: Option<string>
    var version: Option<Json>
    var url: Option<string>

    function State(): SessionState
      reads this
    {
      SessionState(sqlLib, sqlConnected, opensearchConnected, errorMessage, host, portNum, protocol,
                   username, password, version, url)
    }

    predicate Valid()
      reads this
    {
      HasHandle(State())
    }

    constructor (port: nat := DefaultGatewayPort)
      ensures Valid()
      ensures gatewayPort == port && State() == InitialState()
    {
      gatewayPort := port;
      sqlLib := None;
      sqlConnected := false;
      opensearchConnected := false;
      errorMessage := None;
      host := None;
      portNum := None;
      protocol := "http";
      username := None;
      password := None;
      version := None;
      url := None;
    }

    /**
      `connect`: start the gateway unless the manager already runs it, then open the RPC handle.
      `handleRaises` is whether opening the handle raises.
    */
    method Connect(manager: SqlLibraryManager, versions: SqlVersion, launch: LaunchEnv, handleRaises: bool)
      returns (ok: bool)
      requires Valid() && manager.Valid()
      modifies this, manager
      ensures Valid() && manager.Valid()
      ensures var startFailed := !old(manager.started) && StartPathOf(launch, manager.gatewayPort) != Ready;
              && (startFailed ==> !ok && State() == old(State()))
              && (!startFailed && handleRaises ==> !ok && State() == old(State()).(sqlConnected := false))
              && (!startFailed && !handleRaises ==>
                    ok && State() == old(State()).(sqlLib := Some(GatewayHandle(gatewayPort)), sqlConnected := true))
      ensures old(manager.started) ==> unchanged(manager)
      ensures !old(manager.started) ==>
                var path := StartPathOf(launch, manager.gatewayPort);
                && (manager.started <==> path == Ready)
                && (path == PortBusy || path == SpawnFailed ==> manager.process.None?)
                && (path == ReadFailed || path == TimedOut || path == Ready ==>
                      manager.process == Some(Process(GatewayCommand(launch.argv, JarPath(launch.projectRoot, versions.version)))))
    {
      if !manager.started {
        var started := manager.Start(versions, launch);
        if !started {
          return false;
        }
      }
      if handleRaises {
        sqlConnected := false;
        return false;
      }
      sqlLib := Some(GatewayHandle(gatewayPort));
      sqlConnected := true;
      return true;
    }

    /** Sends an initialize call and applies its reply. */
    method SendInitialize(call: RpcCall, hostPortText: string, gateway: RpcCall -> RpcReply)
      returns (ok: bool, sent: Option<RpcCall>)
      modifies this
      ensures var r := AfterReply(old(State()), call, hostPortText, gateway);
              ok == r.ok && sent == r.sent && State() == r.state
    {
      sent := Some(call);
      match gateway(call)
      case RpcRaised(e) =>
        errorMessage := Some(ConnectError(hostPortText, e));
        opensearchConnected := false;
        ok := false;
      case Returned(result) =>
        if Contains(result, "Connection initialized") || Contains(result, "Already initialized") {
          opensearchConnected := true;
          ok := true;
        } else if Contains(result, "Error:") {
          errorMessage := Some(result);
          opensearchConnected := false;
          ok := false;
        } else {
          opensearchConnected := true;
          ok := true;
        }
    }

    /** Basic-mode verification with the fields as they stand, then the initialize call. */
    method VerifyAndInitialize(hostPortText: string, ignoreSsl: bool, env: ClusterEnv)
      returns (ok: bool, sent: Option<RpcCall>)
      modifies this
      ensures Step(ok, sent, State()) == VerifiedInitialize(old(State()), hostPortText, ignoreSsl, env)
    {
      ghost var s0 := State();
      var verdict := VerifyOpenSearchConnection(host, portNum, protocol, username, password, ignoreSsl, env.transport);
      if verdict.NoResult? {
        errorMessage := Some(ConnectError(hostPortText, UnpackNone));
        opensearchConnected := false;
        return false, None;
      }
      if !verdict.success {
        opensearchConnected := false;
        errorMessage := Some(verdict.message);
        return false, None;
      }
      version := verdict.version;
      url := verdict.url;
      if Truthy(verdict.identity) {
        username := verdict.identity;
      }
      assert State() == s0.(version := verdict.version, url := verdict.url,
                            username := if Truthy(verdict.identity) then verdict.identity else s0.username);
      ok, sent := SendInitialize(InitializeConnection(host, portNum, protocol, username, password, ignoreSsl),
                                 hostPortText, env.gateway);
    }

    /**
      `initialize_opensearch`: verify the endpoint given (or the stored parameters when none is
      given), then have the gateway connect to it. `sent` is the initialize call made, if any.
    */
    method InitializeOpensearch(hostPort: Option<string>, credentials: Option<string>, ignoreSsl: bool,
                                awsAuth: bool, env: ClusterEnv)
      returns (ok: bool, sent: Option<RpcCall>)
      requires Valid()
      modifies this
      ensures Valid()
      ensures Step(ok, sent, State()) == Initialize(old(State()), hostPort, credentials, ignoreSsl, awsAuth, env)
    {
      if !sqlConnected || sqlLib.None? {
        return false, None;
      }
      ApplyCredentials(credentials);
      ok, sent := InitializeVia(hostPort, ignoreSsl, awsAuth, env);
    }

    /** The "user:password" credentials, split at the first ":", become the stored username and password. */
    method ApplyCredentials(credentials: Option<string>)
      modifies this
      ensures State() == WithCredentials(old(State()), credentials)
    {
      if Truthy(credentials) && Contains(credentials.value, ":") {
        var (user, pass) := SplitOnce(credentials.value, ":");
        username, password := Some(user), Some(pass);
      }
    }

    /** The branch of `initialize_opensearch` after the credentials are applied. */
    method InitializeVia(hostPort: Option<string>, ignoreSsl: bool, awsAuth: bool, env: ClusterEnv)
      returns (ok: bool, sent: Option<RpcCall>)
      modifies this
      ensures Step(ok, sent, State()) == InitializeRoute(old(State()), hostPort, ignoreSsl, awsAuth, env)
    {
      if awsAuth {
        ok, sent := InitializeAws(hostPort, env);
      } else if Truthy(hostPort) {
        ok, sent := InitializeHostPort(hostPort.value, ignoreSsl, env);
      } else {
        ok, sent := VerifyAndInitialize(Show(hostPort), ignoreSsl, env);
      }
    }

    /** The AWS branch of `initialize_opensearch`, after the credentials are applied. */
    method InitializeAws(hostPort: Option<string>, env: ClusterEnv) returns (ok: bool, sent: Option<RpcCall>)
      modifies this
      ensures Step(ok, sent, State()) == AwsInitialize(old(State()), hostPort, env)
    {
      if !Truthy(hostPort) {
        return false, None;
      }
      var (scheme, rest) := SplitScheme(hostPort.value);
      if scheme.Some? {
        protocol := scheme.value;
      }
      host := Some(rest);
      ok, sent := ConnectAws(rest, env);
    }

    /** The AWS branch once the host is recorded. */
    method ConnectAws(rest: string, env: ClusterEnv) returns (ok: bool, sent: Option<RpcCall>)
      modifies this
      ensures Step(ok, sent, State()) == AwsConnect(old(State()), rest, env)
    {
      var verdict := VerifyAwsOpenSearchConnection(rest, env.awsSession, env.signedTransport);
      if !verdict.success {
        opensearchConnected := false;
        errorMessage := Some(verdict.message);
        return false, None;
      }
      version := verdict.version;
      url := verdict.url;
      username := Some("AWS " + Show(verdict.identity));
      ok, sent := SendInitialize(InitializeAwsConnection(rest), rest, env.gateway);
    }

    /** The branch of `initialize_opensearch` for an explicit "[scheme://]host[:port]". */
    method InitializeHostPort(hostPort: string, ignoreSsl: bool, env: ClusterEnv) returns (ok: bool, sent: Option<RpcCall>)
      modifies this
      ensures Step(ok, sent, State()) == HostPortInitialize(old(State()), hostPort, ignoreSsl, env)
    {
      var (scheme, rest) := SplitScheme(hostPort);
      ghost var s1 := if scheme.Some? then State().(protocol := scheme.value) else State();
      if scheme.Some? {
        protocol := scheme.value;
      }
      assert State() == s1;
      ok, sent := ConnectHostPort(rest, ignoreSsl, env);
      assert Step(ok, sent, State()) == HostPortConnect(s1, rest, ignoreSsl, env);
    }

    /** The host:port branch once the scheme is split off. */
    method ConnectHostPort(rest: string, ignoreSsl: bool, env: ClusterEnv) returns (ok: bool, sent: Option<RpcCall>)
      modifies this
      ensures Step(ok, sent, State()) == HostPortConnect(old(State()), rest, ignoreSsl, env)
    {
      if Contains(rest, ":") {
        var (h, portText) := SplitOnce(rest, ":");
        host := Some(h);
        if !IsDecimal(portText) {
          opensearchConnected := false;
          return false, None;
        }
        portNum := Some(DecimalValue(portText));
      } else {
        host := Some(rest);
      }
      ok, sent := VerifyAndInitialize(rest, ignoreSsl, env);
    }

    /**
      `query_executor`: refuses without a SQL-library connection, then without a cluster
      connection; otherwise returns whatever the gateway returns. A raised exception propagates
      to the caller and is returned as `Failure`.
    */
    method QueryExecutor(query: string, gateway: RpcCall -> RpcReply, isPpl: bool := true, format: string := "json")
      returns (result: Result<string, string>, sent: Option<RpcCall>)
      ensures !sqlConnected || sqlLib.None? ==> result == Success(NotConnectedSql) && sent.None?
      ensures sqlConnected && sqlLib.Some? && !opensearchConnected ==> result == Success(NotConnectedCluster) && sent.None?
      ensures sqlConnected && sqlLib.Some? && opensearchConnected ==>
                && sent == Some(QueryExecution(query, isPpl, format))
                && (gateway(sent.value).Returned? ==> result == Success(gateway(sent.value).text))
                && (gateway(sent.value).RpcRaised? ==> result == Failure(gateway(sent.value).text))
    {
      if !sqlConnected || sqlLib.None? {
        return Success(NotConnectedSql), None;
      }
      if !opensearchConnected {
        return Success(NotConnectedCluster), None;
      }
      var call := QueryExecution(query, isPpl, format);
      sent := Some(call);
      match gateway(call) {
        case Returned(text) => result := Success(text);
        case RpcRaised(e) => result := Failure(e);
      }
    }

    /** `disconnect`: tell the gateway, then clear both flags. */
    method Disconnect(gateway: RpcCall -> RpcReply) returns (ok: bool, sent: Option<RpcCall>)
      requires Valid()
      modifies this
      ensures Valid()
      ensures !(old(sqlConnected) && old(sqlLib).Some?) ==> !ok && sent.None? && State() == old(State())
      ensures old(sqlConnected) && old(sqlLib).Some? ==> sent == Some(DisconnectCall)
      ensures old(sqlConnected) && old(sqlLib).Some? && gateway(DisconnectCall).RpcRaised? ==>
                !ok && State() == old(State())
      ensures old(sqlConnected) && old(sqlLib).Some? && gateway(DisconnectCall).Returned? ==>
                ok && State() == old(State()).(sqlConnected := false, opensearchConnected := false)
    {
      if sqlConnected && sqlLib.Some? {
        sent := Some(DisconnectCall);
        if gateway(DisconnectCall).RpcRaised? {
          return false, sent;
        }
        sqlConnected := false;
        opensearchConnected := false;
        return true, sent;
      }
      return false, None;
    }
  }

  // ---------------------------------------------------------------------------
  // Properties of initialize_opensearch
  // ---------------------------------------------------------------------------

  /** Credentials are split at the first ":" only: the password keeps any later ":". */
  lemma CredentialsSplitAtFirstColon(s: SessionState, user: string, pass: string)
    requires ':' !in user
    ensures WithCredentials(s, Some(user + ":" + pass)) == s.(username := Some(user), password := Some(pass))
  {
    ContainsChar(user, ':');
    SplitOnceUnique(user, ":", pass);
  }

  /** Credentials without a ":" (or none at all) leave username and password as they were. */
  lemma CredentialsWithoutColon(s: SessionState, credentials: Option<string>)
    requires credentials.None? || ':' !in credentials.value
    ensures WithCredentials(s, credentials) == s
  {
    if credentials.Some? {
      ContainsChar(credentials.value, ':');
    }
  }

  lemma SchemeSeparatorUnbordered()
    ensures Unbordered("://")
  {
    var sep := "://";
    assert sep[..1][0] != sep[2..][0];
    assert sep[..2][0] != sep[1..][0];
  }

  /**
    The endpoint "protocol://host:port" is taken apart into exactly the protocol, host and port
    from which the verifier rebuilds the same URL, whatever the outcome of the verification.
  */
  lemma HostPortRoundTrip(s: SessionState, protocol: string, host: string, port: nat,
                          credentials: Option<string>, ignoreSsl: bool, env: ClusterEnv)
    requires s.sqlConnected && s.sqlLib.Some?
    requires !Contains(protocol, "://") && ':' !in host
    ensures var endpoint := protocol + "://" + host + ":" + NatToString(port);
            var r := Initialize(s, Some(endpoint), credentials, ignoreSsl, false, env);
            && r.state.protocol == protocol && r.state.host == Some(host) && r.state.portNum == Some(port)
            && BasicUrl(r.state.protocol, r.state.host, r.state.portNum) == endpoint
  {
    var endpoint := protocol + "://" + host + ":" + NatToString(port);
    assert endpoint[|protocol|] == ':';
    HostPortParsed(WithCredentials(s, credentials), protocol, host, port, ignoreSsl, env);
  }

  lemma HostPortParsed(s: SessionState, protocol: string, host: string, port: nat, ignoreSsl: bool, env: ClusterEnv)
    requires !Contains(protocol, "://") && ':' !in host
    ensures var r := HostPortInitialize(s, protocol + "://" + host + ":" + NatToString(port), ignoreSsl, env);
            r.state.protocol == protocol && r.state.host == Some(host) && r.state.portNum == Some(port)
  {
    var digits := NatToString(port);
    var rest := host + ":" + digits;
    var endpoint := protocol + "://" + host + ":" + digits;
    assert endpoint == protocol + "://" + rest;
    SchemeSeparatorUnbordered();
    SplitOnceUnique(protocol, "://", rest);
    assert SplitScheme(endpoint) == (Some(protocol), rest);
    ContainsChar(host, ':');
    SplitOnceUnique(host, ":", digits);
    DecimalRoundTrip(port);
  }

  /**
    A port that is not a decimal number stops the initialization before verification: false, the
    cluster flag cleared, no RPC call, the error message untouched, and the outcome the same
    whatever the cluster and the gateway would have answered.
  */
  lemma NonNumericPortStops(s: SessionState, host: string, portText: string, ignoreSsl: bool,
                            env: ClusterEnv, other: ClusterEnv)
    requires !Contains(host + ":" + portText, "://") && ':' !in host && !IsDecimal(portText)
    ensures var r := HostPortInitialize(s, host + ":" + portText, ignoreSsl, env);
            && !r.ok && r.sent.None? && !r.state.opensearchConnected
            && r.state.errorMessage == s.errorMessage && r.state.host == Some(host)
            && r == HostPortInitialize(s, host + ":" + portText, ignoreSsl, other)
  {
    ContainsChar(host, ':');
    SplitOnceUnique(host, ":", portText);
  }

  /** An endpoint without ":" is the host itself, and the stored port is kept. */
  lemma HostWithoutPort(s: SessionState, host: string, ignoreSsl: bool, env: ClusterEnv)
    requires !Contains(host, "://") && ':' !in host
    ensures var r := HostPortInitialize(s, host, ignoreSsl, env);
            r.state.host == Some(host) && r.state.portNum == s.portNum && r.state.protocol == s.protocol
  {
    ContainsChar(host, ':');
  }

  /** Initialization keeps the handle invariant and never connects the cluster without the SQL library. */
  lemma InitializeKeepsInvariants(s: SessionState, hostPort: Option<string>, credentials: Option<string>,
                                  ignoreSsl: bool, awsAuth: bool, env: ClusterEnv)
    ensures var r := Initialize(s, hostPort, credentials, ignoreSsl, awsAuth, env);
            && (HasHandle(s) ==> HasHandle(r.state))
            && (ClusterThroughSql(s) ==> ClusterThroughSql(r.state))
  {
  }
}
