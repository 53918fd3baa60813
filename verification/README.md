# OpenSearch SQL CLI session layer, in Dafny

This project models the Python session layer of the OpenSearch SQL/PPL command-line client
and proves properties of that model. It covers five parts:

- **Cluster verification** (`verify_cluster.dfy`, module `VerifyCluster`). Basic mode and AWS
  mode each build one request and hand it to a transport. The result is classified into the
  tuple `(success, message, version, url, identity)`. Basic mode returns no tuple at all for
  403 and 503.
- **Connection session** (`sql_connection.dfy`, module `SqlConnectionSession`). This is the
  class `SqlConnection` with the fields of the original object. Its methods are `Connect`,
  `InitializeOpensearch`, `QueryExecutor` and `Disconnect`. Each step of
  `initialize_opensearch` is also a function of the state before it (`Initialize` and the
  functions it calls), and each method is proved to produce exactly that function's result.
- **Gateway process manager** (`sql_library_process.dfy`, module `SqlLibraryProcess`). This is
  the class `SqlLibraryManager` and its `Start` and `Stop` lifecycle. It includes the bounded
  readiness scan over the gateway's output lines.
- **Version selection** (`sql_version.dfy`, module `SqlVersionSelection`). This is the class
  `SqlVersion`. It covers the version pattern, padding to four parts, textual membership,
  the display form, the gradle task and the jar path.
- **Explain formatting** (`explain_results.dfy`, module `ExplainResults`). It covers the legacy
  field list and `Type(key=value, ...)` request, and the Calcite `LogicalProject`, `table=[[...]]`
  and PushDownContext restructuring. Each formatter is a method with the original loops, proved
  equal to a specification function. Lemmas then relate those functions to the printed forms
  they read back.

`base.dfy` holds `Option` and `Result`. `text.dfy` holds Python's string operations: `in`,
`split`, `split(sep, 1)`, `join`, `strip`, `isdigit`, `int` and `str`, each proved against its
inverse. `json.dfy` holds decoded JSON values, dicts with Python's assignment semantics, and
subscript paths into nested documents.

Everything the code observes of the outside world is a parameter:

- the HTTP transport, as a function from the request sent to a response or an exception text;
- the AWS credential chain;
- the RPC gateway, as a function from the call to a returned string or an exception text;
- the port probe, the kill pipeline and spawn failures;
- the lines the gateway prints;
- whether a jar file exists;
- JSON decoding of a `sourceBuilder` value.

Methods that make an RPC call return the call they made (`sent`), so "no call was made" is
part of their contracts.

Where the code and the design disagree, the model follows the code:

- After `connect` fails inside its `try` block, `sql_connected` is false but
  `opensearch_connected` is untouched. So the design's "the cluster is connected only through
  a connected SQL library" can break across `connect`. `SqlConnection.Connect` states exactly
  that. `InitializeKeepsInvariants` proves that `initialize_opensearch` itself keeps the property.
- A timed-out `start` calls `stop()` while `started` is still false, so the call does nothing.
  The spawned process stays recorded in `process`.
- The 401 message keeps its original spelling, "Unautorized".

## Model

| member | source | states |
|---|---|---|
| VerifyCluster.VersionOf | src/main/python/opensearchsql_cli/sql/verify_cluster.py:76-83 | a version is reported only when the body is an object whose "version" member holds a non-null "number", and it is that number |
| VerifyCluster.BuildBasicRequest | src/main/python/opensearchsql_cli/sql/verify_cluster.py:53-71 | the URL is `protocol://host:port`; basic auth is attached iff username and password are both non-empty; TLS checking is off iff ignore_ssl and the protocol is "https" in any case; timeout 10 s |
| VerifyCluster.TransportMessage | src/main/python/opensearchsql_cli/sql/verify_cluster.py:97-110 | the markers are tried in order. A connection marker gives "Unable to connect <url>". Then "ConnectTimeoutError" gives "Connection timeout at <url>". Then "SSL: WRONG_VERSION_NUMBER" gives the protocol message. Then a certificate error gives the certificate message. The generic "Connection Verification ERROR: " message comes exactly when no marker is present. The message is never "success" |
| VerifyCluster.ClassifyBasic | src/main/python/opensearchsql_cli/sql/verify_cluster.py:73-110 | no tuple iff the status is 403 or 503; otherwise success iff 200, with message "success" and the body's version; 401 gives the fixed message; any other status gives its decimal text; an exception gives the classified message; url and username are always the ones used |
| VerifyCluster.VerifyOpenSearchConnection | src/main/python/opensearchsql_cli/sql/verify_cluster.py:29-110 | a result carries the URL built from protocol, host and port and the username passed in; success means message "success"; failure carries no version and a message other than "success" |
| VerifyCluster.ServiceName | src/main/python/opensearchsql_cli/sql/verify_cluster.py:133 | "aoss" exactly when the host contains ".aoss.", "es" otherwise |
| VerifyCluster.VerifyAwsOpenSearchConnection | src/main/python/opensearchsql_cli/sql/verify_cluster.py:113-191 | always a tuple. A session that raises gives the AWS exception message with no url. Missing credentials are reported before a missing region, both with url and region None. Success carries "success", `https://host` and the non-empty region. Failure carries no version |
| VerifyCluster.AwsExceptionMessage | src/main/python/opensearchsql_cli/sql/verify_cluster.py:184-191 | "missing AWS_SECRET_ACCESS_KEY" exactly when the exception text names that key; otherwise "Unable to connect AWS server - <url>" followed by the credentials advice |
| VerifyCluster.AwsRequestShape | src/main/python/opensearchsql_cli/sql/verify_cluster.py:150-191 | with credentials and a region, the signed request goes to `https://host` with that region and the host's service. 200 gives success and the body's version. 403 gives the permissions message with url and region. Any other status gives its decimal text with url and region. An exception gives url, no region and the AWS exception message for that url |
| SqlVersionSelection.DottedNumericIff | src/main/python/opensearchsql_cli/sql/sql_version.py:42 | the pattern read as dot-separated digit runs agrees with its character-level reading: digits and single dots, neither first nor last a dot |
| SqlVersionSelection.Padded | src/main/python/opensearchsql_cli/sql/sql_version.py:46-49 | padding keeps every given part in order, never truncates, and adds only "0" parts, up to four |
| SqlVersionSelection.PadToFour | src/main/python/opensearchsql_cli/sql/sql_version.py:47-48 | the append loop yields exactly the padded parts |
| SqlVersionSelection.Trimmed | src/main/python/opensearchsql_cli/sql/sql_version.py:59-60 | trimming removes a suffix made only of "0" parts and leaves no trailing "0" |
| SqlVersionSelection.TrimZeros | src/main/python/opensearchsql_cli/sql/sql_version.py:58-61 | the pop loop yields exactly the trimmed parts |
| SqlVersionSelection.GradleTask | src/main/python/opensearchsql_cli/sql/sql_version.py:79-80 | the task is "v" followed by the first four parts joined with "_" |
| SqlVersionSelection.SqlVersion.GetJarPath | src/main/python/opensearchsql_cli/sql/sql_version.py:121-133 | the path starts with the project root and ends with "/" and the jar name of the selected version |
| SqlVersionSelection.JarPath | src/main/python/opensearchsql_cli/sql/sql_version.py:121-133 | the jar is `build/libs/opensearchsql-v<version>.jar` under the project root, with a "/" inserted unless the root is empty or already ends in one |
| SqlVersionSelection.SqlVersion.constructor | src/main/python/opensearchsql_cli/sql/sql_version.py:26-27 | the initial version is "3.1.0.0" and the available list is ["3.1.0.0", "2.19.0.0"] |
| SqlVersionSelection.SqlVersion.DisplayVersions | src/main/python/opensearchsql_cli/sql/sql_version.py:55-61 | each available version is shown without its trailing "0" parts, in order |
| SqlVersionSelection.SqlVersion.SetVersion | src/main/python/opensearchsql_cli/sql/sql_version.py:29-119 | a malformed request leaves the version as it was; a well-formed one stores the padded form even when it is then rejected; a notice is printed iff the padded version is not available; a build runs iff it is available and a rebuild is asked for or the jar is missing; the result is true iff it is available and no build ran or the jar exists afterwards |
| SqlVersionSelection.AllDisplayed | src/main/python/opensearchsql_cli/sql/sql_version.py:55-61 | the display list has one display form per version, in order |
| SqlVersionSelection.PaddedVersionParts | src/main/python/opensearchsql_cli/sql/sql_version.py:46-49 | the stored version splits back into the padded parts: at least four, starting with the requested parts |
| SqlVersionSelection.PaddedVersionExtends | src/main/python/opensearchsql_cli/sql/sql_version.py:46-49 | the stored version starts with the requested text |
| SqlVersionSelection.ShortFormThreeOne | src/main/python/opensearchsql_cli/sql/sql_version.py:42-52 | "3.1" is well formed, pads to "3.1.0.0" and is available |
| SqlVersionSelection.ShortFormTwoNineteen | src/main/python/opensearchsql_cli/sql/sql_version.py:42-52 | "2.19" is well formed, pads to "2.19.0.0" and is available |
| SqlVersionSelection.UnavailableFourZero | src/main/python/opensearchsql_cli/sql/sql_version.py:42-52 | "4.0" is well formed, but "4.0.0.0" is not available |
| SqlVersionSelection.LeadingZeroRejected | src/main/python/opensearchsql_cli/sql/sql_version.py:52 | support is textual: "03.1" pads to "03.1.0.0", which is not available |
| SqlVersionSelection.WordRejected | src/main/python/opensearchsql_cli/sql/sql_version.py:42 | "invalid" does not match the version pattern |
| SqlVersionSelection.DisplayedDefaults | src/main/python/opensearchsql_cli/sql/sql_version.py:55-67 | the initial list is displayed as "3.1" and "2.19" |
| SqlVersionSelection.TaskNames | src/main/python/opensearchsql_cli/sql/sql_version.py:80 | the available versions build with tasks "v3_1_0_0" and "v2_19_0_0" |
| SqlVersionSelection.TwoPartVersion | src/main/python/opensearchsql_cli/sql/sql_version.py:42-49 | any two-part numeric request is well formed and pads with two "0" parts |
| SqlVersionSelection.DisplayOfPadded | src/main/python/opensearchsql_cli/sql/sql_version.py:58-61 | a two-part version padded with "0" parts is displayed as its two parts |
| SqlLibraryProcess.GatewayCommand | src/main/python/opensearchsql_cli/sql/sql_library_process.py:128-136 | the jar is run iff the command line has more than one argument and holds "--version" or "-v"; otherwise gradle runs the gateway |
| SqlLibraryProcess.AwaitReady | src/main/python/opensearchsql_cli/sql/sql_library_process.py:153-159 | at most 30 lines are read. The result is ready iff one of the first 30 lines holds "Gateway Server Started", and the scan stops at the first such line. A read raises iff the output breaks before 30 lines and holds no marker; the scan then consumed every line. A scan that neither succeeds nor raises read all 30 |
| SqlLibraryProcess.ReadyWithinPrinted | src/main/python/opensearchsql_cli/sql/sql_library_process.py:154-159 | reads past the end of the output are empty, so readiness depends only on the printed lines among the first 30 |
| SqlLibraryProcess.StartPathOf | src/main/python/opensearchsql_cli/sql/sql_library_process.py:97-196 | start fails before spawning iff the port is taken and the kill raises. Otherwise a spawn exception fails it. Otherwise a read that raises fails it. The ready path is taken iff none of these happen and the marker is within 30 lines |
| SqlLibraryProcess.SqlLibraryManager.constructor | src/main/python/opensearchsql_cli/sql/sql_library_process.py:24-35 | a new manager on the given port (25333 by default) is stopped, with no process and no drain thread |
| SqlLibraryProcess.SqlLibraryManager.CheckPortInUse | src/main/python/opensearchsql_cli/sql/sql_library_process.py:40-56 | the port is in use iff connecting returns 0; false when probing raises |
| SqlLibraryProcess.SqlLibraryManager.KillCommand | src/main/python/opensearchsql_cli/sql/sql_library_process.py:72 | the kill pipeline names ":<port> " |
| SqlLibraryProcess.SqlLibraryManager.KillProcessOnPort | src/main/python/opensearchsql_cli/sql/sql_library_process.py:58-83 | runs the pipeline for this port and succeeds iff running it does not raise; the port is not probed again |
| SqlLibraryProcess.SqlLibraryManager.Start | src/main/python/opensearchsql_cli/sql/sql_library_process.py:85-196 | an already started manager returns true and changes nothing. Otherwise the result and `started` are true iff the ready path is taken. A busy port or a spawn failure leaves no process. A failed read or a timeout keeps the spawned process. Readiness starts the drain thread |
| SqlLibraryProcess.SqlLibraryManager.Stop | src/main/python/opensearchsql_cli/sql/sql_library_process.py:198-252 | not started: true and nothing changes; a kill that raises: false, drain stopped, still started; otherwise true, stopped, no process, and the drain thread forgotten iff it was alive |
| SqlLibraryProcess.StartStopStart | src/main/python/opensearchsql_cli/sql/sql_library_process.py:92-93 | after a start and a stop, a second start takes the spawn path again instead of the early return |
| SqlConnectionSession.InitialState | src/main/python/opensearchsql_cli/sql/sql_connection.py:30-41 | a fresh session has both flags false, no RPC handle and protocol "http" |
| SqlConnectionSession.WithCredentials | src/main/python/opensearchsql_cli/sql/sql_connection.py:96-97 | applying credentials changes at most the username and the password |
| SqlConnectionSession.SplitScheme | src/main/python/opensearchsql_cli/sql/sql_connection.py:111-112 | the scheme and the rest rejoin with "://" to the input, and the scheme has no "://"; without "://" the input is returned whole |
| SqlConnectionSession.AfterReply | src/main/python/opensearchsql_cli/sql/sql_connection.py:218-235 | the call is made; success iff the reply is returned and holds an initialized marker or no "Error:"; success sets only the cluster flag; an "Error:" reply is stored whole; a raised call stores "Unable to connect to <host_port>: <error>" |
| SqlConnectionSession.VerifiedInitialize | src/main/python/opensearchsql_cli/sql/sql_connection.py:154-216 | a missing tuple becomes the unpack error message and clears the cluster flag. A failed verdict stores its message and makes no call. Success stores version and url and sends initializeConnection with the session's parameters |
| SqlConnectionSession.HostPortInitialize | src/main/python/opensearchsql_cli/sql/sql_connection.py:135-184 | the SQL-library side is kept and any call made is initializeConnection. The protocol is the scheme before "://" when there is one, else the stored protocol. The host is the rest before its first ":", or the whole rest |
| SqlConnectionSession.AwsInitialize | src/main/python/opensearchsql_cli/sql/sql_connection.py:102-134 | an empty endpoint fails with nothing changed. The host is the endpoint without its scheme, and the protocol is that scheme when there is one, else the stored protocol. Port and password are kept. Failure stores the verifier's message, clears the cluster flag and makes no call. Success stores the verifier's version, "AWS <region>" as username and `https://host` as url, and sends initializeAwsConnection |
| SqlConnectionSession.HostPortConnect | src/main/python/opensearchsql_cli/sql/sql_connection.py:140-184 | the SQL-library side and the protocol are kept. Without ":" the host is the whole text and the port is kept. With ":" the host is the text before the first ":". A decimal port is stored; any other port fails with no call, the flag cleared and the error message and port unchanged |
| SqlConnectionSession.AwsConnect | src/main/python/opensearchsql_cli/sql/sql_connection.py:117-134 | once the host is stored it stays, as do the protocol, port and password. A failed SigV4 verdict stores its message, clears the cluster flag and makes no call. Success stores the verifier's version, "AWS <region>" as username and `https://host` as url, and sends initializeAwsConnection for the host |
| SqlConnectionSession.Initialize | src/main/python/opensearchsql_cli/sql/sql_connection.py:73-235 | without a SQL-library connection nothing changes and no call is made; the SQL-library side is never changed; success iff a call was made and the cluster flag is set; the call matches the mode |
| SqlConnectionSession.SqlConnection.constructor | src/main/python/opensearchsql_cli/sql/sql_connection.py:23-41 | the session starts in the initial state on the given gateway port |
| SqlConnectionSession.SqlConnection.Connect | src/main/python/opensearchsql_cli/sql/sql_connection.py:43-71 | a failed start returns false and changes the session in no other way. A handle that cannot be opened clears `sql_connected` only. Otherwise the handle is set and `sql_connected` becomes true. The manager is unchanged if it was started; otherwise it is started iff the start path is ready, and holds the spawned gateway process on every path past the spawn |
| SqlConnectionSession.SqlConnection.SendInitialize | src/main/python/opensearchsql_cli/sql/sql_connection.py:218-235 | the reply handling leaves exactly the state `AfterReply` describes |
| SqlConnectionSession.SqlConnection.VerifyAndInitialize | src/main/python/opensearchsql_cli/sql/sql_connection.py:154-216 | the verification and the call leave exactly the state `VerifiedInitialize` describes |
| SqlConnectionSession.SqlConnection.InitializeOpensearch | src/main/python/opensearchsql_cli/sql/sql_connection.py:73-235 | the handle invariant is kept, and result, call and new state are exactly those of `Initialize` |
| SqlConnectionSession.SqlConnection.ApplyCredentials | src/main/python/opensearchsql_cli/sql/sql_connection.py:96-97 | "user:password" is split at its first ":" into the stored username and password; without a ":" nothing changes |
| SqlConnectionSession.InitializeRoute | src/main/python/opensearchsql_cli/sql/sql_connection.py:102-216 | the SQL-library side is kept. A call is initializeAwsConnection iff AWS mode is on. AWS mode without an endpoint fails with nothing changed. Without an endpoint outside AWS mode, the stored host, port and protocol are used unchanged |
| SqlConnectionSession.SqlConnection.InitializeVia | src/main/python/opensearchsql_cli/sql/sql_connection.py:102-216 | AWS mode, an explicit endpoint and the stored endpoint each leave exactly the state their specification function describes |
| SqlConnectionSession.SqlConnection.InitializeAws | src/main/python/opensearchsql_cli/sql/sql_connection.py:102-134 | the AWS branch leaves exactly the state `AwsInitialize` describes |
| SqlConnectionSession.SqlConnection.InitializeHostPort | src/main/python/opensearchsql_cli/sql/sql_connection.py:135-184 | the host:port branch leaves exactly the state `HostPortInitialize` describes |
| SqlConnectionSession.SqlConnection.ConnectAws | src/main/python/opensearchsql_cli/sql/sql_connection.py:117-134 | verification and the AWS initialize call leave exactly the state `AwsConnect` describes |
| SqlConnectionSession.SqlConnection.ConnectHostPort | src/main/python/opensearchsql_cli/sql/sql_connection.py:140-184 | parsing "host[:port]", verification and the call leave exactly the state `HostPortConnect` describes |
| SqlConnectionSession.SqlConnection.QueryExecutor | src/main/python/opensearchsql_cli/sql/sql_connection.py:237-264 | the SQL-library check comes first, then the cluster check, each returning its fixed message with no call; otherwise the query call is made and its reply returned unchanged (an exception propagates) |
| SqlConnectionSession.SqlConnection.Disconnect | src/main/python/opensearchsql_cli/sql/sql_connection.py:266-283 | not connected: false, no call, nothing changes; a raised call: false, nothing changes; otherwise true with both flags cleared |
| SqlConnectionSession.CredentialsSplitAtFirstColon | src/main/python/opensearchsql_cli/sql/sql_connection.py:96-97 | "u:p" with no ":" in u gives username u and password p, and p keeps any later ":" |
| SqlConnectionSession.CredentialsWithoutColon | src/main/python/opensearchsql_cli/sql/sql_connection.py:96 | credentials without ":", or none, leave username and password unchanged |
| SqlConnectionSession.HostPortRoundTrip | src/main/python/opensearchsql_cli/sql/sql_connection.py:135-164 | `protocol://host:port` is taken apart into exactly the protocol, host and port from which the verifier rebuilds the same URL |
| SqlConnectionSession.HostPortParsed | src/main/python/opensearchsql_cli/sql/sql_connection.py:137-144 | the scheme, the host before the first ":" and the decimal port are stored |
| SqlConnectionSession.NonNumericPortStops | src/main/python/opensearchsql_cli/sql/sql_connection.py:141-150 | a non-numeric port returns false, clears the cluster flag, makes no call, leaves the error message, and does not depend on what the cluster or the gateway would answer |
| SqlConnectionSession.HostWithoutPort | src/main/python/opensearchsql_cli/sql/sql_connection.py:151-152 | without ":" the host is the whole endpoint, and port and protocol keep their values |
| SqlConnectionSession.InitializeKeepsInvariants | src/main/python/opensearchsql_cli/sql/sql_connection.py:88-92 | initialization keeps "a set flag means a handle" and never sets the cluster flag without a SQL-library connection |
| ExplainResults.StrippedNonEmpty | src/main/python/opensearchsql_cli/query/explain_results.py:24-26 | every kept field is non-empty and is the strip of one of the pieces |
| ExplainResults.FieldList | src/main/python/opensearchsql_cli/query/explain_results.py:23-27 | the listed fields are non-empty, hold no ",", and have no surrounding space |
| ExplainResults.FieldListOfJoin | src/main/python/opensearchsql_cli/query/explain_results.py:23-27 | the list `[a, b, ...]` written from plain fields reads back as exactly those fields |
| ExplainResults.MatchCall | src/main/python/opensearchsql_cli/query/explain_results.py:31-36 | no match without a leading word; a match is `word(inner)` at the start of the text, with inner ending at the last ")" of the first line |
| ExplainResults.MatchCallOfCall | src/main/python/opensearchsql_cli/query/explain_results.py:31-36 | a one-line `kind(inner)` matches with exactly that kind and inner text |
| ExplainResults.NextCut | src/main/python/opensearchsql_cli/query/explain_results.py:39 | the cut found is the first ", " at or after the start that a word and "=" follow |
| ExplainResults.SplitParts | src/main/python/opensearchsql_cli/query/explain_results.py:39 | there is at least one part, and every part after the first starts with a word and "=" |
| ExplainResults.SplitPartsJoin | src/main/python/opensearchsql_cli/query/explain_results.py:39 | joining the parts with ", " gives the text back |
| ExplainResults.SplitPartsOfJoin | src/main/python/opensearchsql_cli/query/explain_results.py:39 | comma-free parts whose later members start with a word and "=" are split back out of their ", " join |
| ExplainResults.LaterPartsHaveEquals | src/main/python/opensearchsql_cli/query/explain_results.py:39-44 | every part after the first contains "=" |
| ExplainResults.LazyAt | src/main/python/opensearchsql_cli/query/explain_results.py:81 | a lazy group ends at the first following close, with no close and no line break inside |
| ExplainResults.SearchFrom | src/main/python/opensearchsql_cli/query/explain_results.py:109 | a searched group holds no line break |
| ExplainResults.LazyOfWritten | src/main/python/opensearchsql_cli/query/explain_results.py:81 | a text written as open, group, close matches with exactly that group |
| ExplainResults.SearchOfWritten | src/main/python/opensearchsql_cli/query/explain_results.py:109 | a search over such a text finds exactly that group |
| ExplainResults.EntriesFailure | src/main/python/opensearchsql_cli/query/explain_results.py:43-51 | the loop raises iff its body raises on some item, and then with the first such exception |
| ExplainResults.EntriesKeepFailure | src/main/python/opensearchsql_cli/query/explain_results.py:43-51 | once a prefix of the loop has raised, the whole loop raises the same exception |
| ExplainResults.EntriesOfAll | src/main/python/opensearchsql_cli/query/explain_results.py:86-89 | a body that gives an entry for every item assigns exactly those entries, in order |
| ExplainResults.AssignAll | src/main/python/opensearchsql_cli/query/explain_results.py:41-51 | the loop that assigns into an empty dict leaves the dict of its entries, later keys overwriting earlier ones, or the first exception |
| ExplainResults.PartEntry | src/main/python/opensearchsql_cli/query/explain_results.py:43-51 | legacy raises iff a part has no "=" or an undecodable sourceBuilder; Calcite skips a part without "=" and never raises; the key is the text before the first "=" and the value keeps any later "="; sourceBuilder values are decoded, with Calcite falling back to the raw text |
| ExplainResults.CalciteRequestSucceeds | src/main/python/opensearchsql_cli/query/explain_results.py:139-149 | the Calcite request loop never raises |
| ExplainResults.LegacyRequestRaises | src/main/python/opensearchsql_cli/query/explain_results.py:43-51 | the legacy request loop raises iff some part lacks "=" or has an undecodable sourceBuilder |
| ExplainResults.ExplainLegacy | src/main/python/opensearchsql_cli/query/explain_results.py:10-59 | the formatter with its loop gives exactly the document or the exception that the specification function describes |
| ExplainResults.ExplainRequest | src/main/python/opensearchsql_cli/query/explain_results.py:30-56 | the request half, with its loop over the parts, gives exactly the document or the exception that `RequestExplained` describes |
| ExplainResults.LegacyTouchesOnlyFieldsAndRequest | src/main/python/opensearchsql_cli/query/explain_results.py:27 | every path apart from the field list and the request keeps its value |
| ExplainResults.LegacyFieldsListed | src/main/python/opensearchsql_cli/query/explain_results.py:23-27 | on success the fields string has become its field list |
| ExplainResults.LegacyUnmatchedRequestKept | src/main/python/opensearchsql_cli/query/explain_results.py:34 | a request string that is not `Word(...)` is left as it was, and nothing raises |
| ExplainResults.FieldsKeepRequest | src/main/python/opensearchsql_cli/query/explain_results.py:27 | replacing the field list leaves the request where it was |
| ExplainResults.RawEntries | src/main/python/opensearchsql_cli/query/explain_results.py:50-51 | one raw string entry per key, in order |
| ExplainResults.KeyValues | src/main/python/opensearchsql_cli/query/explain_results.py:44 | one `key=value` part per key, in order |
| ExplainResults.LegacyRequestRoundTrip | src/main/python/opensearchsql_cli/query/explain_results.py:31-56 | a printed `kind(k1=v1, ...)` request, with word keys other than sourceBuilder and values without "," or line breaks, parses to `{kind: {k1: v1, ...}}`, later duplicates winning |
| ExplainResults.PrintedPartsPlain | src/main/python/opensearchsql_cli/query/explain_results.py:39 | printed parts hold no "," and no line break, and each starts with its key and "=" |
| ExplainResults.PartsEntries | src/main/python/opensearchsql_cli/query/explain_results.py:43-51 | each printed part gives back its key and raw value |
| ExplainResults.LegacyBarePartRaises | src/main/python/opensearchsql_cli/query/explain_results.py:44 | a legacy request part without "=" makes the formatter raise |
| ExplainResults.ProjectEntry | src/main/python/opensearchsql_cli/query/explain_results.py:87-89 | a pair is accepted iff it splits on "=" into exactly two pieces, which become name and position |
| ExplainResults.StripEach | src/main/python/opensearchsql_cli/query/explain_results.py:124 | each field is its piece stripped, in order |
| ExplainResults.ExplainCalcite | src/main/python/opensearchsql_cli/query/explain_results.py:61-167 | the formatter gives exactly the document or the exception that the specification function describes |
| ExplainResults.StructureLogical | src/main/python/opensearchsql_cli/query/explain_results.py:75-99 | the logical plan's steps give exactly the specified logical object or the first exception |
| ExplainResults.StructurePhysical | src/main/python/opensearchsql_cli/query/explain_results.py:102-160 | the physical plan's steps give exactly the specified scan object |
| ExplainResults.BuildPushDownContext | src/main/python/opensearchsql_cli/query/explain_results.py:117-152 | the appends give exactly the specified PushDownContext list |
| ExplainResults.PlacePlans | src/main/python/opensearchsql_cli/query/explain_results.py:100-164 | after the logical plan is structured: its exception is raised first, a missing physical plan raises next, otherwise the document gets both plans replaced |
| ExplainResults.StructureProject | src/main/python/opensearchsql_cli/query/explain_results.py:80-91 | the first plan line gives exactly the specified LogicalProject entry, nothing when it does not match, or the field list's exception |
| ExplainResults.ReplacePlans | src/main/python/opensearchsql_cli/query/explain_results.py:158-164 | the document with the logical plan replaced by its object and then the physical plan by its scan object |
| ExplainResults.PlansApart | src/main/python/opensearchsql_cli/query/explain_results.py:163-164 | replacing the logical plan leaves the physical plan where it was |
| ExplainResults.CalciteTouchesOnlyPlans | src/main/python/opensearchsql_cli/query/explain_results.py:163-164 | every path apart from the two plans keeps its value |
| ExplainResults.PushDownShape | src/main/python/opensearchsql_cli/query/explain_results.py:115-155 | the PushDownContext is present iff the plan holds "PushDownContext="; it has the PROJECT-> element first and one or two elements; the second is present iff the request-builder pattern matches |
| ExplainResults.ProjectedFieldsBlank | src/main/python/opensearchsql_cli/query/explain_results.py:120-128 | a missing or blank PROJECT-> group gives an empty list |
| ExplainResults.PhysicalTableOfWritten | src/main/python/opensearchsql_cli/query/explain_results.py:109-112 | names written as `table=[[a, b, ...]]` in the physical plan become exactly the scan's table list |
| ExplainResults.ScanTableEntry | src/main/python/opensearchsql_cli/query/explain_results.py:109-112 | the scan's table entry is the first `table=[[...]]` group split on ", ", whatever else the plan holds |
| ExplainResults.NoScanTable | src/main/python/opensearchsql_cli/query/explain_results.py:109-112 | without a `table=[[...]]` group the scan has no table entry |
| ExplainResults.LogicalTableOfWritten | src/main/python/opensearchsql_cli/query/explain_results.py:93-99 | an indented `CalciteLogicalIndexScan(table=[[a, b, ...]])` line matches, and its group splits back into exactly the names |
| ExplainResults.IndentedLine | src/main/python/opensearchsql_cli/query/explain_results.py:94-96 | leading blanks are skipped before the anchored match |
| ExplainResults.ProjectFieldsOfWritten | src/main/python/opensearchsql_cli/query/explain_results.py:80-90 | `LogicalProject(a=0, b=1, ...)` pairs read back as a name-to-position object in which each name maps to the position written last for it |
| ExplainResults.ProjectFieldsRaises | src/main/python/opensearchsql_cli/query/explain_results.py:86-87 | the LogicalProject loop raises iff some pair does not split on "=" into exactly two pieces |
| Json.Set | src/main/python/opensearchsql_cli/query/explain_results.py:27 | after a subscript assignment the path holds the new value |
| Json.SetElsewhere | src/main/python/opensearchsql_cli/query/explain_results.py:54-56 | a subscript assignment leaves every path that diverges from it unchanged |
| Json.DictFromLastWins | src/main/python/opensearchsql_cli/query/explain_results.py:86-89 | assigning entries in turn into an empty dict leaves, for each key, the value assigned last, with no duplicate keys |
| Json.Put | src/main/python/opensearchsql_cli/query/explain_results.py:51 | `d[k] = v` makes k map to v, leaves other keys alone, and appends k only when it is new |
| Text.JoinThenSplit | src/main/python/opensearchsql_cli/sql/sql_version.py:46-49 | joining parts that lack the separator's first character and splitting again gives the parts back |
| Text.SplitThenJoin | src/main/python/opensearchsql_cli/sql/sql_version.py:46-49 | splitting and joining with the same separator gives the text back |
| Text.SplitOnceUnique | src/main/python/opensearchsql_cli/sql/sql_connection.py:97 | `split(sep, 1)` on a text whose head lacks the separator gives that head and the whole rest |
| Text.DecimalRoundTrip | src/main/python/opensearchsql_cli/sql/sql_connection.py:144 | the decimal text of a number parses back to that number |

## Left out

- HTTP, TLS, SigV4 signing and the AWS credential chain are parameters. The model passes in the
  outcome of the request and what the credential chain resolved.
- The py4j gateway and RPC are parameters. Each call is a value, and its reply is a returned
  string or an exception text. Gateway.java is not part of this model.
- Sockets, the kill pipeline, spawning the process, log files and `time` are parameters. The
  Windows `netstat`/`taskkill` branches are not modelled. Only the Unix kill pipeline is built.
- The output-draining thread and the thread join in `stop` are concurrency. The model keeps
  only their effect on `thread_running` and `output_thread`, and whether the thread is alive
  is a parameter.
- Logging, `rich` console output, spinners and `atexit` registration are left out.
- SqlVersion.SetVersion: the gradle build is returned as a command instead of run. Whether
  the jar exists before and after it is a parameter. The build's own exit status and any
  exception from `subprocess.run` or `open` are not modelled.
- SqlLibraryManager.Start: `output` is everything the gateway prints before its standard output
  ends (or breaks), and reads past it return "". A gateway that stays alive, prints fewer than
  30 lines without "Gateway Server Started" and keeps its output open makes `start` block in
  `readline` forever; that non-returning case is not modelled, and such an output takes the
  timed-out path here. The "within timeout" message is backed by the 30-line bound only.
- SqlLibraryManager.Start: exceptions from setting up logging and from `Popen` are folded into
  the single parameter `spawnRaises`. A `readline` that raises is modelled as output that
  breaks after its last line (`outputBreaks`). A read that raises between two printed lines
  is modelled as a read that raises after the last of them.
- `json.loads` of the whole explain document and `json.dumps` of the result are left out. The
  formatters take and give the decoded document. Decoding a `sourceBuilder` value is a parameter.
- Python's `\w` is modelled as the ASCII word characters `[A-Za-z0-9_]`, not the Unicode set.
- SqlConnectionSession.HostPortInitialize: `int(port_str)` is modelled as accepting exactly
  non-empty runs of ASCII digits. Python's `int` also accepts surrounding whitespace, a sign and
  underscores, so such ports are rejected here.
- The Python object's in-place mutation of nested dicts, and the aliasing it allows, is modelled
  by the functional `Json.Set` on a subscript path.
- `SqlConnection` also holds `version` and `url`, which the Python constructor never assigns;
  `initialize_opensearch` assigns them and callers read them. They start as None here.
- ExplainResults.PushDownShape and the other read-back lemmas cover the printed forms shown
  in their requirements (no "," or line break inside values or names). Text outside those forms
  is handled by the specification functions but has no read-back property.
