/** The JSON-RPC proxy to the Porla daemon: how each operation's request is
    built, and how the reply, or the failure of the exchange, becomes a
    returned value or a thrown exception.

    The HTTP client, the JSON-RPC request builder and the JSON deserializer are
    not modelled; what they jointly produce for one request is the parameter
    `daemon`, which maps the request that is sent to the reply that comes back
    (already deserialized) or to the transport failure that occurs. */
module PorlaProxy {
  import opened Common
  import opened PorlaTypes
  import opened PorlaSettings

  /** A JSON value as the request builder receives it; object members keep their order. */
  datatype Json =
    | JNull
    | JBool(b: bool)
    | JString(s: string)
    | JArray(items: seq<Json>)
    | JObject(members: seq<(string, Json)>)

  /** A C# string as a JSON value: null becomes `null`. */
  function JsonString(s: Option<string>): Json {
    match s
    case None => JNull
    case Some(v) => JString(v)
  }

  /** The value of the first member named `key`. */
  function Lookup(members: seq<(string, Json)>, key: string): Option<Json> {
    if members == [] then None
    else if members[0].0 == key then Some(members[0].1)
    else Lookup(members[1..], key)
  }

  function Keys(members: seq<(string, Json)>): seq<string> {
    seq(|members|, i requires 0 <= i < |members| => members[i].0)
  }

  /** One JSON-RPC call: the method name and its by-name parameters. */
  datatype RpcCall = RpcCall(methodName: string, params: seq<(string, Json)>)

  datatype ParameterStructure = ByName | ByPosition

  /** `HttpRequestBuilder.BuildBaseUrl(useSsl, host, port, urlBase)`, kept as its inputs. */
  datatype BaseUrl = BaseUrl(useSsl: bool, host: Option<string>, port: Int32, urlBase: Option<string>)

  datatype Header = Header(name: string, value: string)

  /** The request that goes to the daemon, as the configured builder describes it. */
  datatype HttpRequest = HttpRequest(
    baseUrl: BaseUrl,
    structure: ParameterStructure,
    resource: string,
    headers: seq<Header>,
    timeoutSeconds: nat,
    logResponseContent: bool,
    call: RpcCall)

  function HeaderValue(headers: seq<Header>, name: string): Option<string> {
    if headers == [] then None
    else if headers[0].name == name then Some(headers[0].value)
    else HeaderValue(headers[1..], name)
  }

  datatype RpcError = RpcError(code: int, message: string)

  /** `JsonRpcResponse<T>`: a result, an error, either, or neither may be set. */
  datatype RpcResponse<T> = RpcResponse(result: Option<T>, error: Option<RpcError>)

  /** What one exchange with the daemon yields. */
  datatype HttpReply<T> =
    | Delivered(response: RpcResponse<T>)            // a deserialized JSON-RPC response
    | HttpFailure(statusCode: int, message: string)  // HttpException
    | WebFailure(status: WebExceptionStatus, message: string) // WebException
    | OtherFailure(message: string)                  // any other exception of the HTTP client or the deserializer

  /** A proxy operation: the request it sent, if it got as far, and its outcome. */
  datatype Exchange<T> = Exchange(sent: Option<HttpRequest>, outcome: Outcome<T>)

  const Resource := "/api/v1/jsonrpc"
  const TimeoutSeconds := 15
  const RequestTimeout := 408
  const AuthenticationErrorCode := -5
  /** The error code the timeout branch reports. */
  const TimeoutErrorCode := 2
  const CheckSettingsMessage := "Unable to connect to Porla, please check your settings"
  const CertificateMessage := "Unable to connect to Porla, certificate validation failed."

  // ---------------------------------------------------------------------------
  // Request construction

  /** `BuildRequest(settings)` followed by `Call(method, arguments)`. */
  function BuildRequest(settings: Settings, call: RpcCall): (r: HttpRequest)
    ensures r.baseUrl == BaseUrl(settings.useSsl, settings.host, settings.port, settings.urlBase)
    ensures r.structure == ByName && r.resource == "/api/v1/jsonrpc" && r.timeoutSeconds == 15
    ensures HeaderValue(r.headers, "Authorization") == Some("Bearer " + settings.token.GetOr(""))
    ensures HeaderValue(r.headers, "Accept") == Some("application/json")
    ensures r.call == call
  {
    HttpRequest(
      BaseUrl(settings.useSsl, settings.host, settings.port, settings.urlBase),
      ByName,
      Resource,
      [Header("Authorization", "Bearer " + settings.token.GetOr("")), Header("Accept", "application/json")],
      TimeoutSeconds,
      true,
      call)
  }

  /** `ExecuteRequest`: a delivered response is returned as it is; an HTTP 408
      becomes a response that carries an error instead of a result; every other
      HTTP or web failure is rethrown as the adapter's own exception; anything
      else propagates unchanged. */
  function ExecuteRequest<T>(reply: HttpReply<T>): (r: Outcome<RpcResponse<T>>)
    ensures reply.Delivered? ==> r == Returned(reply.response)
    ensures reply.HttpFailure? && reply.statusCode == 408 ==>
      r.Returned? && r.value.result.None? && r.value.error == Some(RpcError(TimeoutErrorCode, ""))
    ensures reply.HttpFailure? && reply.statusCode != 408 ==> r == Threw(DownloadClientError(CheckSettingsMessage))
    ensures reply.WebFailure? ==>
      r == Threw(DownloadClientUnavailable(if reply.status == TrustFailure then CertificateMessage else CheckSettingsMessage))
    ensures reply.OtherFailure? ==> r == Threw(Other(reply.message))
  {
    match reply
    case Delivered(response) => Returned(response)
    case HttpFailure(code, _) =>
      if code == RequestTimeout then Returned(RpcResponse(None, Some(RpcError(TimeoutErrorCode, ""))))
      else Threw(DownloadClientError(CheckSettingsMessage))
    case WebFailure(status, _) =>
      if status == TrustFailure then Threw(DownloadClientUnavailable(CertificateMessage))
      else Threw(DownloadClientUnavailable(CheckSettingsMessage))
    case OtherFailure(m) => Threw(Other(m))
  }

  /** The error check of `ProcessRequest`. */
  function CheckResponse<T>(response: Outcome<RpcResponse<T>>): (r: Outcome<Option<T>>)
    ensures response.Threw? ==> r == Threw(response.fault)
    ensures response.Returned? ==>
      (r.Threw? <==> response.value.error.Some? && response.value.error.value.code == AuthenticationErrorCode)
    ensures response.Returned? && r.Threw? ==> r.fault == AuthenticationFailed(response.value.error.value.message)
    ensures r.Returned? ==> response.Returned? && r.value == response.value.result
  {
    match response
    case Threw(f) => Threw(f)
    case Returned(r) =>
      if r.error.Some? && r.error.value.code == AuthenticationErrorCode then Threw(AuthenticationFailed(r.error.value.message))
      else Returned(r.result)
  }

  /** `ProcessRequest(settings, method, arguments)`: build the request, send it,
      and raise an authentication failure for error code -5. Every other error
      code is ignored and the result, possibly null, is returned. */
  function ProcessRequest<T>(settings: Settings, methodName: string, params: seq<(string, Json)>, daemon: HttpRequest -> HttpReply<T>): (r: Exchange<Option<T>>)
    ensures r.sent == Some(BuildRequest(settings, RpcCall(methodName, params)))
    ensures var reply := daemon(r.sent.value);
      && (r.outcome.Threw? && r.outcome.fault.AuthenticationFailed? <==>
           reply.Delivered? && reply.response.error.Some? && reply.response.error.value.code == -5)
      && (reply.Delivered? && reply.response.error.Some? && reply.response.error.value.code == -5 ==>
           r.outcome == Threw(AuthenticationFailed(reply.response.error.value.message)))
      && (reply.Delivered? && !(reply.response.error.Some? && reply.response.error.value.code == -5) ==>
           r.outcome == Returned(reply.response.result))
      && (!reply.Delivered? ==> r.outcome == CheckResponse(ExecuteRequest(reply)))
  {
    var request := BuildRequest(settings, RpcCall(methodName, params));
    Exchange(Some(request), CheckResponse(ExecuteRequest(daemon(request))))
  }

  /** Dereferences a possibly-null result. */
  function Deref<T>(r: Outcome<Option<T>>): (o: Outcome<T>)
    ensures r.Returned? && r.value.Some? <==> o.Returned?
    ensures o.Returned? ==> o.value == r.value.value
    ensures r.Returned? && r.value.None? ==> o == Threw(NullReference)
    ensures r.Threw? ==> o == Threw(r.fault)
  {
    match r
    case Threw(f) => Threw(f)
    case Returned(None) => Threw(NullReference)
    case Returned(Some(v)) => Returned(v)
  }

  // ---------------------------------------------------------------------------
  // Operations

  /** `GetVersions`: "sys.versions" with no parameters; returns `result.Porla.Version`. */
  function GetVersions(settings: Settings, daemon: HttpRequest -> HttpReply<VersionsResponse>): (r: Exchange<Option<string>>)
    ensures r.sent.Some? && r.sent.value.call == RpcCall("sys.versions", [])
    ensures var p := ProcessRequest(settings, "sys.versions", [], daemon).outcome;
      r.outcome.Returned? <==> p.Returned? && p.value.Some? && p.value.value.porla.Some?
    ensures r.outcome.Returned? ==> r.outcome.value == ProcessRequest(settings, "sys.versions", [], daemon).outcome.value.value.porla.value.version
  {
    var ex := ProcessRequest(settings, "sys.versions", [], daemon);
    Exchange(ex.sent,
      match Deref(ex.outcome)
      case Threw(f) => Threw(f)
      case Returned(v) => if v.porla.None? then Threw(NullReference) else Returned(v.porla.value.version))
  }

  /** `GetConfig`: "session.settings.list" through the no-argument
      `ProcessRequest`, which sends an empty parameter object. */
  function GetConfig<P>(settings: Settings, daemon: HttpRequest -> HttpReply<P>): (r: Exchange<Option<P>>)
    ensures r.sent.Some? && r.sent.value.call == RpcCall("session.settings.list", [])
    ensures r == ProcessRequest(settings, "session.settings.list", [], daemon)
  {
    ProcessRequest(settings, "session.settings.list", [], daemon)
  }

  /** The parameters of `AddTorrentFromFile`. */
  function AddFromFileParams(fileName: Option<string>, fileContent: seq<bv8>, settings: Settings, base64: seq<bv8> -> string): seq<(string, Json)> {
    [("name", JsonString(fileName)),
     ("save_path", JsonString(settings.savePath)),
     ("category", JString(settings.tvCategory.GetOr(""))),
     ("ti", JString(base64(fileContent)))]
  }

  /** The parameters of `AddTorrentFromUrl`. */
  function AddFromUrlParams(torrentUrl: Option<string>, settings: Settings): seq<(string, Json)> {
    [("magnet_uri", JsonString(torrentUrl)),
     ("save_path", JsonString(settings.savePath)),
     ("category", JString(settings.tvCategory.GetOr("")))]
  }

  /** `AddTorrentFromFile`: "torrents.add" with the file name, the save path,
      the category (empty when unset) and the torrent file in base64; returns
      the reply's info-hash. `base64` is `Convert.ToBase64String`. */
  function AddTorrentFromFile(fileName: Option<string>, fileContent: seq<bv8>, settings: Settings,
                              base64: seq<bv8> -> string, daemon: HttpRequest -> HttpReply<AddResponse>): (r: Exchange<Option<string>>)
    ensures r.sent.Some? && r.sent.value.call.methodName == "torrents.add"
    ensures var ps := r.sent.value.call.params;
      && Keys(ps) == ["name", "save_path", "category", "ti"]
      && Lookup(ps, "name") == Some(JsonString(fileName))
      && Lookup(ps, "save_path") == Some(JsonString(settings.savePath))
      && Lookup(ps, "category") == Some(JString(if settings.tvCategory.Some? then settings.tvCategory.value else ""))
      && Lookup(ps, "ti") == Some(JString(base64(fileContent)))
      && Lookup(ps, "magnet_uri").None?
    ensures var p := ProcessRequest(settings, "torrents.add", r.sent.value.call.params, daemon).outcome;
      && (r.outcome.Returned? <==> p.Returned? && p.value.Some?)
      && (r.outcome.Returned? ==> r.outcome.value == p.value.value.infoHash)
  {
    var ps := AddFromFileParams(fileName, fileContent, settings, base64);
    assert Lookup(ps, "category") == Lookup(ps[1..], "category") == Lookup(ps[2..], "category");
    assert Lookup(ps, "ti") == Lookup(ps[1..], "ti") == Lookup(ps[2..], "ti") == Lookup(ps[3..], "ti");
    assert Lookup(ps, "magnet_uri") == Lookup(ps[1..], "magnet_uri") == Lookup(ps[2..], "magnet_uri")
        == Lookup(ps[3..], "magnet_uri") == Lookup(ps[4..], "magnet_uri");
    var ex := ProcessRequest(settings, "torrents.add", ps, daemon);
    Exchange(ex.sent, match Deref(ex.outcome) case Threw(f) => Threw(f) case Returned(v) => Returned(v.infoHash))
  }

  /** `AddTorrentFromUrl`: "torrents.add" with the magnet URI, the save path and
      the category (empty when unset), and no torrent file; returns the reply's
      info-hash. */
  function AddTorrentFromUrl(torrentUrl: Option<string>, settings: Settings, daemon: HttpRequest -> HttpReply<AddResponse>): (r: Exchange<Option<string>>)
    ensures r.sent.Some? && r.sent.value.call.methodName == "torrents.add"
    ensures var ps := r.sent.value.call.params;
      && Keys(ps) == ["magnet_uri", "save_path", "category"]
      && Lookup(ps, "magnet_uri") == Some(JsonString(torrentUrl))
      && Lookup(ps, "save_path") == Some(JsonString(settings.savePath))
      && Lookup(ps, "category") == Some(JString(if settings.tvCategory.Some? then settings.tvCategory.value else ""))
      && Lookup(ps, "ti").None?
    ensures var p := ProcessRequest(settings, "torrents.add", r.sent.value.call.params, daemon).outcome;
      && (r.outcome.Returned? <==> p.Returned? && p.value.Some?)
      && (r.outcome.Returned? ==> r.outcome.value == p.value.value.infoHash)
  {
    var ps := AddFromUrlParams(torrentUrl, settings);
    assert Lookup(ps, "category") == Lookup(ps[1..], "category") == Lookup(ps[2..], "category");
    assert Lookup(ps, "ti") == Lookup(ps[1..], "ti") == Lookup(ps[2..], "ti") == Lookup(ps[3..], "ti");
    var ex := ProcessRequest(settings, "torrents.add", ps, daemon);
    Exchange(ex.sent, match Deref(ex.outcome) case Threw(f) => Threw(f) case Returned(v) => Returned(v.infoHash))
  }

  /** `GetTorrentFiles`: "torrents.files.list" with the info-hash; returns the
      reply's file list, and `ToList` of a null list throws. */
  function GetTorrentFiles(hash: Option<string>, settings: Settings, daemon: HttpRequest -> HttpReply<FilesResponse>): (r: Exchange<seq<TorrentFile>>)
    ensures r.sent.Some? && r.sent.value.call == RpcCall("torrents.files.list", [("info_hash", JsonString(hash))])
    ensures var p := ProcessRequest(settings, "torrents.files.list", r.sent.value.call.params, daemon).outcome;
      && (r.outcome.Returned? <==> p.Returned? && p.value.Some? && p.value.value.files.Some?)
      && (p.Returned? && p.value.Some? && p.value.value.files.None? ==> r.outcome == Threw(ArgumentNull))
      && (r.outcome.Returned? ==> r.outcome.value == p.value.value.files.value)
  {
    var ex := ProcessRequest(settings, "torrents.files.list", [("info_hash", JsonString(hash))], daemon);
    Exchange(ex.sent,
      match Deref(ex.outcome)
      case Threw(f) => Threw(f)
      case Returned(v) => if v.files.None? then Threw(ArgumentNull) else Returned(v.files.value))
  }

  /** `GetTorrents`: "torrents.list" filtered by the category. The category is
      converted with `ToString()`, so a null category throws before any request
      is built, and the `?? ""` fallback never applies. Returns the reply's
      torrent array, which may be null. */
  function GetTorrents(settings: Settings, daemon: HttpRequest -> HttpReply<TorrentsResponse>): (r: Exchange<Option<seq<Torrent>>>)
    ensures r.sent.None? <==> settings.tvCategory.None?
    ensures settings.tvCategory.None? ==> r.outcome == Threw(NullReference)
    ensures settings.tvCategory.Some? ==>
      && r.sent.value.call.methodName == "torrents.list"
      && Keys(r.sent.value.call.params) == ["filters"]
      && Lookup(r.sent.value.call.params, "filters") == Some(JObject([("category", JString(settings.tvCategory.value))]))
    ensures settings.tvCategory.Some? ==>
      var p := ProcessRequest(settings, "torrents.list", r.sent.value.call.params, daemon).outcome;
      && (r.outcome.Returned? <==> p.Returned? && p.value.Some?)
      && (r.outcome.Returned? ==> r.outcome.value == p.value.value.torrents)
  {
    match settings.tvCategory
    case None => Exchange(None, Threw(NullReference))
    case Some(category) =>
      var ex := ProcessRequest(settings, "torrents.list", [("filters", JObject([("category", JString(category))]))], daemon);
      Exchange(ex.sent, match Deref(ex.outcome) case Threw(f) => Threw(f) case Returned(v) => Returned(v.torrents))
  }

  /** The parameters `RemoveTorrent` adds to its dictionary, in order. */
  function RemoveParams(hash: Option<string>, removeData: bool): seq<(string, Json)> {
    [("info_hashes", JArray([JsonString(hash), JNull])), ("remove_data", JBool(removeData))]
  }

  /** `RemoveTorrent`: "torrents.remove" with the two-element array
      `[hash, null]` and the remove-data flag; the reply's result is discarded. */
  function RemoveTorrent(hash: Option<string>, removeData: bool, settings: Settings, daemon: HttpRequest -> HttpReply<Json>): (r: Exchange<()>)
    ensures r.sent.Some? && r.sent.value.call.methodName == "torrents.remove"
    ensures var ps := r.sent.value.call.params;
      && Keys(ps) == ["info_hashes", "remove_data"]
      && Lookup(ps, "info_hashes") == Some(JArray([JsonString(hash), JNull]))
      && Lookup(ps, "remove_data") == Some(JBool(removeData))
    ensures var p := ProcessRequest(settings, "torrents.remove", r.sent.value.call.params, daemon).outcome;
      r.outcome.Returned? <==> p.Returned?
    ensures r.outcome.Threw? ==> r.outcome.fault == ProcessRequest(settings, "torrents.remove", r.sent.value.call.params, daemon).outcome.fault
  {
    var ex := ProcessRequest(settings, "torrents.remove", RemoveParams(hash, removeData), daemon);
    Exchange(ex.sent, match ex.outcome case Threw(f) => Threw(f) case Returned(_) => Returned(()))
  }

  // ---------------------------------------------------------------------------
  // Properties across operations

  /** Every request the proxy sends has the same envelope: by-name parameters
      posted to /api/v1/jsonrpc under the settings' base URL, with the bearer
      token, JSON accepted and a 15-second timeout. */
  predicate StandardEnvelope(settings: Settings, request: HttpRequest) {
    && request.baseUrl == BaseUrl(settings.useSsl, settings.host, settings.port, settings.urlBase)
    && request.structure == ByName
    && request.resource == "/api/v1/jsonrpc"
    && request.timeoutSeconds == 15
    && HeaderValue(request.headers, "Authorization") == Some("Bearer " + settings.token.GetOr(""))
    && HeaderValue(request.headers, "Accept") == Some("application/json")
  }

  lemma EveryRequestHasStandardEnvelope(
    settings: Settings, hash: Option<string>, url: Option<string>, fileName: Option<string>, content: seq<bv8>, removeData: bool,
    base64: seq<bv8> -> string,
    versions: HttpRequest -> HttpReply<VersionsResponse>, config: HttpRequest -> HttpReply<Json>,
    adds: HttpRequest -> HttpReply<AddResponse>, files: HttpRequest -> HttpReply<FilesResponse>,
    lists: HttpRequest -> HttpReply<TorrentsResponse>, removes: HttpRequest -> HttpReply<Json>)
    ensures StandardEnvelope(settings, GetVersions(settings, versions).sent.value)
    ensures StandardEnvelope(settings, GetConfig(settings, config).sent.value)
    ensures StandardEnvelope(settings, AddTorrentFromFile(fileName, content, settings, base64, adds).sent.value)
    ensures StandardEnvelope(settings, AddTorrentFromUrl(url, settings, adds).sent.value)
    ensures StandardEnvelope(settings, GetTorrentFiles(hash, settings, files).sent.value)
    ensures GetTorrents(settings, lists).sent.Some? ==> StandardEnvelope(settings, GetTorrents(settings, lists).sent.value)
    ensures StandardEnvelope(settings, RemoveTorrent(hash, removeData, settings, removes).sent.value)
  {
  }

  /** Only error code -5 is ever reported as an authentication failure, and
      with the daemon's message; a reply with any other error code, or none,
      yields its result. */
  lemma AuthenticationIffCodeMinusFive<T>(settings: Settings, methodName: string, params: seq<(string, Json)>, code: int, message: string, result: Option<T>)
    ensures var daemon := (_: HttpRequest) => Delivered(RpcResponse(result, Some(RpcError(code, message))));
      ProcessRequest(settings, methodName, params, daemon).outcome ==
        (if code == -5 then Threw(AuthenticationFailed(message)) else Returned(result))
  {
  }

  /** Transport failures never surface as an authentication failure nor as a
      raw `WebException`: they are returned as an error response (timeout) or
      rethrown as the adapter's own exceptions. */
  lemma TransportFailuresAreWrapped<T>(reply: HttpReply<T>)
    requires !reply.Delivered?
    ensures var r := CheckResponse(ExecuteRequest(reply));
      && (r.Threw? ==> !r.fault.AuthenticationFailed? && !r.fault.Web?)
      && (r.Returned? <==> reply.HttpFailure? && reply.statusCode == 408)
      && (r.Returned? ==> r.value.None?)
  {
  }
}
