/**
  Verification of a cluster endpoint before the session hands it to the gateway
  (sql/verify_cluster.py). Each verifier builds one request, hands it to the transport, and
  classifies what comes back into the tuple (success, message, version, url, identity).

  The transport (HTTP, TLS, SigV4 signing, the AWS credential chain) is a parameter: a function
  from the request sent to the outcome observed, either a response (status code and decoded body)
  or the text of the exception that was raised.
*/
module VerifyCluster {
  import opened Base
  import opened Text
  import opened Json

  /** What one request produced: a response, or the text of the exception raised while sending it. */
  datatype HttpOutcome =
    | Response(status: nat, body: Option<Json>)
    | Raised(text: string)

  /** The GET request of basic mode. `auth` is the (username, password) pair of HTTP basic authentication. */
  datatype BasicRequest = BasicRequest(
    url: string,
    auth: Option<(string, string)>,
    verifyTls: bool,
    timeoutSeconds: nat)

  /** The result tuple `(success, message, version, url, identity)`, or no tuple at all. */
  datatype Verification =
    | Verdict(success: bool, message: string, version: Option<Json>, url: Option<string>, identity: Option<string>)
    | NoResult

  const SuccessMessage := "success"
  const Unauthorized401 := "Unautorized 401 please verify your username/password."
  const WrongProtocol := "Please check the correct protocol: HTTP/HTTPS"
  const CertificateFailure := "Unable to verify SSL Certificate. Try adding -k flag"
  const GenericPrefix := "Connection Verification ERROR: "
  const RequestTimeout := 10

  // ---------------------------------------------------------------------------
  // Shared: the version number in a response body
  // ---------------------------------------------------------------------------

  /**
    `data["version"]["number"]` when the body decodes to an object whose "version" member is an
    object with a "number" member; None otherwise (the code swallows every error on this path,
    and a JSON null is Python's None).
  */
  function VersionOf(body: Option<Json>): (v: Option<Json>)
    ensures v.Some? ==> v.value != JNull
    ensures v.Some? ==> body.Some? && Member(body.value, "version").Some?
                        && Member(Member(body.value, "version").value, "number") == v
  {
    match body
    case Some(JObj(d)) =>
      (match Lookup(d, "version")
       case Some(JObj(vd)) =>
         (match Lookup(vd, "number")
          case Some(n) => if n == JNull then None else Some(n)
          case None => None)
       case _ => None)
    case _ => None
  }

  // ---------------------------------------------------------------------------
  // Basic mode
  // ---------------------------------------------------------------------------

  /** `f"{protocol}://{host}:{port}"`. */
  function BasicUrl(protocol: string, host: Option<string>, port: Option<nat>): string {
    protocol + "://" + Show(host) + ":" + ShowPort(port)
  }

  /** The request basic mode sends: credentials only when both are non-empty, TLS checks off only for https with ignore_ssl. */
  function BuildBasicRequest(host: Option<string>, port: Option<nat>, protocol: string,
                             username: Option<string>, password: Option<string>, ignoreSsl: bool): (req: BasicRequest)
    ensures req.url == BasicUrl(protocol, host, port)
    ensures req.auth.Some? <==> Truthy(username) && Truthy(password)
    ensures req.auth.Some? ==> req.auth.value == (username.value, password.value)
    ensures !req.verifyTls <==> ignoreSsl && LowerAscii(protocol) == "https"
    ensures req.timeoutSeconds == RequestTimeout
  {
    var auth := if Truthy(username) && Truthy(password) then Some((username.value, password.value)) else None;
    BasicRequest(BasicUrl(protocol, host, port), auth, !(ignoreSsl && LowerAscii(protocol) == "https"), RequestTimeout)
  }

  /** One of the markers that mean the host could not be reached at all. */
  predicate ConnectMarker(text: string) {
    Contains(text, "NewConnectionError") || Contains(text, "RemoteDisconnected") || Contains(text, "NameResolutionError")
  }

  /** Any marker that the classifier recognises. */
  predicate KnownMarker(text: string) {
    || ConnectMarker(text)
    || Contains(text, "ConnectTimeoutError")
    || Contains(text, "SSL: WRONG_VERSION_NUMBER")
    || Contains(text, "SSLCertVerificationError")
  }

  /** The message for a transport exception in basic mode: the first marker in a fixed order wins. */
  function TransportMessage(text: string, url: string): (m: string)
    ensures ConnectMarker(text) ==> m == "Unable to connect " + url
    ensures m == GenericPrefix + text <==> !KnownMarker(text)
    ensures Contains(text, "SSLCertVerificationError") && !ConnectMarker(text)
            && !Contains(text, "ConnectTimeoutError") && !Contains(text, "SSL: WRONG_VERSION_NUMBER")
            ==> m == CertificateFailure
    ensures !ConnectMarker(text) && Contains(text, "ConnectTimeoutError") ==> m == "Connection timeout at " + url
    ensures !ConnectMarker(text) && !Contains(text, "ConnectTimeoutError") && Contains(text, "SSL: WRONG_VERSION_NUMBER")
            ==> m == WrongProtocol
    ensures m != SuccessMessage
  {
    if ConnectMarker(text) then
      var m := "Unable to connect " + url;
      assert m[0] != (GenericPrefix + text)[0];
      m
    else if Contains(text, "ConnectTimeoutError") then
      var m := "Connection timeout at " + url;
      assert m[11] != (GenericPrefix + text)[11];
      m
    else if Contains(text, "SSL: WRONG_VERSION_NUMBER") then WrongProtocol
    else if Contains(text, "SSLCertVerificationError") then CertificateFailure
    else GenericPrefix + text
  }

  /**
    The classification of basic mode. 200 is success; 401 and any status other than
    403 and 503 give a failure tuple; 403 and 503 set a message that is never returned,
    so the method falls off its end and returns no tuple.
  */
  function ClassifyBasic(outcome: HttpOutcome, url: string, username: Option<string>): (r: Verification)
    ensures r.NoResult? <==> outcome.Response? && (outcome.status == 403 || outcome.status == 503)
    ensures r.Verdict? ==> r.url == Some(url) && r.identity == username
    ensures r.Verdict? ==> (r.success <==> outcome.Response? && outcome.status == 200)
    ensures r.Verdict? && r.success ==> r.message == SuccessMessage && r.version == VersionOf(outcome.body)
    ensures r.Verdict? && !r.success ==> r.version.None? && r.message != SuccessMessage
    ensures outcome.Response? && outcome.status == 401 ==> r.Verdict? && r.message == Unauthorized401
    ensures outcome.Response? && outcome.status !in {200, 401, 403, 503}
            ==> r.Verdict? && r.message == NatToString(outcome.status)
    ensures outcome.Raised? ==> r.Verdict? && r.message == TransportMessage(outcome.text, url)
  {
    match outcome
    case Response(status, body) =>
      if status == 200 then Verdict(true, SuccessMessage, VersionOf(body), Some(url), username)
      else if status == 401 then Verdict(false, Unauthorized401, None, Some(url), username)
      else if status == 403 || status == 503 then NoResult
      else
        var m := NatToString(status);
        assert m[0] in m;
        Verdict(false, m, None, Some(url), username)
    case Raised(text) =>
      Verdict(false, TransportMessage(text, url), None, Some(url), username)
  }

  /** `VerifyCluster.verify_opensearch_connection`: one request to the cluster root, classified. */
  function VerifyOpenSearchConnection(host: Option<string>, port: Option<nat>, protocol: string,
                                      username: Option<string>, password: Option<string>, ignoreSsl: bool,
                                      transport: BasicRequest -> HttpOutcome): (r: Verification)
    ensures r.Verdict? ==> r.url == Some(BasicUrl(protocol, host, port)) && r.identity == username
    ensures r.Verdict? && r.success ==> r.message == SuccessMessage
    ensures r.Verdict? && !r.success ==> r.version.None? && r.message != SuccessMessage
  {
    var request := BuildBasicRequest(host, port, protocol, username, password, ignoreSsl);
    ClassifyBasic(transport(request), request.url, username)
  }

  // ---------------------------------------------------------------------------
  // AWS mode
  // ---------------------------------------------------------------------------

  /** What the ambient credential chain resolved. `SessionRaised` is an exception from that chain. */
  datatype AwsSession =
    | AwsSession(credentials: Option<AwsCredentials>, region: Option<string>)
    | SessionRaised(text: string)

  datatype AwsCredentials = AwsCredentials(accessKey: string, secretKey: string, token: Option<string>)

  /** The SigV4-signed GET of AWS mode. */
  datatype SignedRequest = SignedRequest(
    url: string,
    credentials: AwsCredentials,
    region: string,
    service: string,
    timeoutSeconds: nat)

  const NoCredentials := "Unable to retrieve AWS credentials."
  const NoRegion := "Unable to retrieve AWS region."
  const Forbidden403 := "Forbidden 403 please verify your permissions/tokens/keys."
  const MissingSecretKey := "missing AWS_SECRET_ACCESS_KEY"
  const AwsFailurePrefix := "Unable to connect AWS server - "
  const AwsFailureAdvice := ".\nPlease check your AWS Credentials/Configurations"

  /** "aoss" for an OpenSearch Serverless host, "es" otherwise. */
  function ServiceName(host: string): (service: string)
    ensures service == "aoss" <==> Contains(host, ".aoss.")
    ensures service == "es" <==> !Contains(host, ".aoss.")
  {
    if Contains(host, ".aoss.") then "aoss" else "es"
  }

  /** `f"https://{host}"`. */
  function AwsUrl(host: string): string {
    "https://" + host
  }

  /** The message for an exception in AWS mode; `url` is None when it happened before the URL was built. */
  function AwsExceptionMessage(text: string, url: Option<string>): (m: string)
    ensures m == MissingSecretKey <==> Contains(text, "AWS_SECRET_ACCESS_KEY")
    ensures !Contains(text, "AWS_SECRET_ACCESS_KEY") ==>
              m == AwsFailurePrefix + Show(url) + AwsFailureAdvice
  {
    if Contains(text, "AWS_SECRET_ACCESS_KEY") then MissingSecretKey
    else
      var m := AwsFailurePrefix + Show(url) + AwsFailureAdvice;
      assert m[0] != MissingSecretKey[0];
      m
  }

  /** `VerifyCluster.verify_aws_opensearch_connection`: credentials, then region, then one signed request. */
  function VerifyAwsOpenSearchConnection(host: string, session: AwsSession,
                                         transport: SignedRequest -> HttpOutcome): (r: Verification)
    ensures r.Verdict?
    ensures session.SessionRaised? ==> r == Verdict(false, AwsExceptionMessage(session.text, None), None, None, None)
    ensures session.AwsSession? && session.credentials.None?
            ==> r == Verdict(false, NoCredentials, None, None, None)
    ensures session.AwsSession? && session.credentials.Some? && !Truthy(session.region)
            ==> r == Verdict(false, NoRegion, None, None, None)
    ensures r.success ==> r.message == SuccessMessage && r.url == Some(AwsUrl(host))
    ensures r.success ==> session.AwsSession? && r.identity == session.region
    ensures r.success ==> Truthy(r.identity)
    ensures !r.success ==> r.version.None?
  {
    match session
    case SessionRaised(text) => Verdict(false, AwsExceptionMessage(text, None), None, None, None)
    case AwsSession(credentials, region) =>
      if credentials.None? then Verdict(false, NoCredentials, None, None, None)
      else if !Truthy(region) then Verdict(false, NoRegion, None, None, None)
      else
        var url := AwsUrl(host);
        var request := SignedRequest(url, credentials.value, region.value, ServiceName(host), RequestTimeout);
        match transport(request)
        case Response(status, body) =>
          if status == 200 then Verdict(true, SuccessMessage, VersionOf(body), Some(url), region)
          else if status == 403 then Verdict(false, Forbidden403, None, Some(url), region)
          else Verdict(false, NatToString(status), None, Some(url), region)
        case Raised(text) => Verdict(false, AwsExceptionMessage(text, Some(url)), None, Some(url), None)
  }

  /** The request AWS mode signs carries the resolved region and the service derived from the host. */
  lemma AwsRequestShape(host: string, creds: AwsCredentials, region: string, transport: SignedRequest -> HttpOutcome)
    requires region != ""
    ensures var r := VerifyAwsOpenSearchConnection(host, AwsSession(Some(creds), Some(region)), transport);
            var sent := SignedRequest(AwsUrl(host), creds, region, ServiceName(host), RequestTimeout);
            && (r.success <==> transport(sent).Response? && transport(sent).status == 200)
            && (r.success ==> r.version == VersionOf(transport(sent).body))
            && (transport(sent).Response? && transport(sent).status !in {200, 403} ==>
                  r == Verdict(false, NatToString(transport(sent).status), None, Some(AwsUrl(host)), Some(region)))
            && (transport(sent).Response? && transport(sent).status == 403 ==>
                  r.message == Forbidden403 && r.url == Some(AwsUrl(host)) && r.identity == Some(region))
            && (transport(sent).Raised? ==>
                  (r.url == Some(AwsUrl(host)) && r.identity.None?
                   && r.message == AwsExceptionMessage(transport(sent).text, Some(AwsUrl(host)))))
  {
  }
}
