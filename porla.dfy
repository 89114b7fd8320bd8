/** The Porla download-client adapter: connection testing, listing the
    daemon's torrents as download items, adding and removing torrents, and the
    "getPresets" side query. It talks to the daemon through the PorlaProxy
    model; `daemon` parameters stand for the daemon and the HTTP stack. */
module PorlaClient {
  import opened Common
  import opened PorlaTypes
  import opened PorlaSettings
  import opened PorlaProxy

  const ClientName := "Porla"

  // ---------------------------------------------------------------------------
  // Download items

  datatype DownloadItemStatus = Downloading | Completed

  /** `System.TimeSpan`, counted in 100-nanosecond ticks. */
  datatype TimeSpan = TimeSpan(ticks: Int64)

  const TicksPerSecond := 10_000_000
  const MaxValue := TimeSpan(Int64Max)
  /** The largest whole number of seconds a TimeSpan holds (long.MaxValue / TicksPerSecond). */
  const MaxSeconds := 922_337_203_685

  /** `TimeSpan.FromSeconds`, which throws when the duration does not fit. */
  function FromSeconds(seconds: int): (r: Outcome<TimeSpan>)
    ensures r.Returned? <==> -MaxSeconds <= seconds <= MaxSeconds
    ensures r.Returned? ==> r.value.ticks == seconds * TicksPerSecond
    ensures r.Threw? ==> r.fault == Overflow
  {
    var ticks := seconds * TicksPerSecond;
    if Int64Min <= ticks <= Int64Max then Returned(TimeSpan(ticks)) else Threw(Overflow)
  }

  /** The ETA conversion of `GetItems`: an overflow is caught and the item
      waits for `TimeSpan.MaxValue` instead. It never throws. */
  function RemainingTime(eta: int): (t: TimeSpan)
    ensures -MaxSeconds <= eta <= MaxSeconds ==> t.ticks == eta * TicksPerSecond
    ensures eta > MaxSeconds || eta < -MaxSeconds ==> t == MaxValue
  {
    match FromSeconds(eta)
    case Returned(span) => span
    case Threw(_) => MaxValue
  }

  /** An ETA is an `int`, so the clamp is never needed: the remaining time is
      exactly the ETA in seconds. */
  lemma EtaNeverClamps(eta: Int32)
    ensures RemainingTime(eta).ticks == eta * TicksPerSecond
    ensures RemainingTime(eta) != MaxValue
  {
  }

  /** State 4 (finished) and 5 (seeding) are complete; every other state,
      known or not, is still downloading. */
  function StatusOf(state: Int32): (s: DownloadItemStatus)
    ensures s == Completed <==> state == 4 || state == 5
    ensures s == Downloading <==> state != 4 && state != 5
  {
    if state == 4 || state == 5 then Completed else Downloading
  }

  /** `Hash[0].ToUpper() ?? Hash[1].ToUpper()` as written: `ToUpper` never
      returns null, so the fallback is never taken, and a null first hash
      throws before `??` is reached. */
  function DownloadIdAsWritten(hash: seq<Option<string>>): (r: Outcome<Option<string>>)
    ensures r.Returned? <==> |hash| > 0 && hash[0].Some?
    ensures r.Returned? ==> r.value == Some(ToUpper(hash[0].value))
    ensures |hash| == 0 ==> r == Threw(IndexOutOfRange)
    ensures |hash| > 0 && hash[0].None? ==> r == Threw(NullReference)
  {
    if |hash| == 0 then Threw(IndexOutOfRange)
    else match hash[0]
      case None => Threw(NullReference)
      case Some(v1) => Returned(Some(ToUpper(v1)))
  }

  /** The evident intent, `Hash[0]?.ToUpper() ?? Hash[1]?.ToUpper()`: the
      upper-cased v1 hash, or the upper-cased v2 hash when there is no v1 hash. */
  function DownloadIdOf(hash: seq<Option<string>>): (r: Outcome<Option<string>>)
    ensures r.Returned? <==> |hash| > 0 && (hash[0].Some? || |hash| >= 2)
    ensures r.Returned? && hash[0].Some? ==> r.value == Some(ToUpper(hash[0].value))
    ensures r.Returned? && hash[0].None? ==> r.value == (if hash[1].Some? then Some(ToUpper(hash[1].value)) else None)
    ensures r.Threw? ==> r.fault == IndexOutOfRange
  {
    if |hash| == 0 then Threw(IndexOutOfRange)
    else if hash[0].Some? then Returned(Some(ToUpper(hash[0].value)))
    else if |hash| < 2 then Threw(IndexOutOfRange)
    else Returned(match hash[1] case Some(v2) => Some(ToUpper(v2)) case None => None)
  }

  /** Both readings agree on every torrent that has a v1 hash. */
  lemma DownloadIdAgreesWhenV1HashPresent(hash: seq<Option<string>>)
    requires |hash| > 0 && hash[0].Some?
    ensures DownloadIdOf(hash) == DownloadIdAsWritten(hash)
  {
  }

  /** A v2-only torrent, info-hash `[null, "abcd"]`: as written its listing
      throws; as intended it is listed under "ABCD". */
  lemma V2OnlyHashThrowsAsWritten()
    ensures DownloadIdAsWritten([None, Some("abcd")]) == Threw(NullReference)
    ensures DownloadIdOf([None, Some("abcd")]) == Returned(Some("ABCD"))
  {
    assert ToUpper("abcd") == "ABCD" by {
      var u := ToUpper("abcd");
      assert u[0] == 'A' && u[1] == 'B' && u[2] == 'C' && u[3] == 'D';
    }
  }

  /** Which reading of the download-id expression a listing uses: the code as
      written, which `GetItems` runs, or the evidently intended one. */
  datatype IdReading = AsWritten | Intended

  function DownloadId(reading: IdReading, hash: seq<Option<string>>): Outcome<Option<string>> {
    match reading
    case AsWritten => DownloadIdAsWritten(hash)
    case Intended => DownloadIdOf(hash)
  }

  /** `DownloadClientItem`, with the fields `GetItems` sets. */
  datatype DownloadClientItem = DownloadClientItem(
    downloadId: Option<string>,
    title: Option<string>,
    category: Option<string>,
    outputPath: Option<string>,
    seedRatio: Option<Float32>,
    remainingTime: Option<TimeSpan>,
    totalSize: Int64,
    status: DownloadItemStatus)

  /** `new DownloadClientItem()` */
  const NewItem := DownloadClientItem(None, None, None, None, None, None, 0, Downloading)

  /** The path operations `GetItems` relies on: `RemapRemoteToLocal(host, path)`
      of the remote-path-mapping service, and `OsPath`'s `+`, which joins a
      directory and a name (a separator between them, a rooted name replacing
      the directory). */
  datatype Paths = Paths(remapRemoteToLocal: (Option<string>, string) -> string, join: (string, string) -> string)

  /** `outputPath + torrent.Name`, with `outputPath` the remapped save path. */
  function OutputPath(settings: Settings, paths: Paths, t: Torrent): string {
    paths.join(paths.remapRemoteToLocal(settings.host, t.savePath), t.name)
  }

  /** The item `GetItems` builds for one torrent that has a hash. */
  function ItemOf(settings: Settings, paths: Paths, reading: IdReading, t: Torrent): (r: Outcome<DownloadClientItem>)
    requires t.hash.Some?
    ensures r.Returned? <==> DownloadId(reading, t.hash.value).Returned?
    ensures r.Threw? ==> r.fault == DownloadId(reading, t.hash.value).fault
    ensures r.Returned? ==>
      && r.value.downloadId == DownloadId(reading, t.hash.value).value
      && r.value.title == Some(t.name)
      && r.value.category == settings.tvCategory
      && r.value.outputPath == Some(OutputPath(settings, paths, t))
      && r.value.seedRatio == Some(t.ratio)
      && r.value.remainingTime == Some(TimeSpan(t.eta * TicksPerSecond))
      && r.value.totalSize == t.size
      && (r.value.status == Completed <==> t.state == 4 || t.state == 5)
  {
    match DownloadId(reading, t.hash.value)
    case Threw(f) => Threw(f)
    case Returned(id) =>
      Returned(DownloadClientItem(id, Some(t.name), settings.tvCategory, Some(OutputPath(settings, paths, t)),
                                  Some(t.ratio), Some(RemainingTime(t.eta)), t.size, StatusOf(t.state)))
  }

  /** The items of a listing, in order: torrents without a hash are skipped,
      and the first torrent whose item cannot be built stops the listing. */
  function ItemsOf(settings: Settings, paths: Paths, reading: IdReading, ts: seq<Torrent>): (r: Outcome<seq<DownloadClientItem>>)
    ensures r.Returned? ==> |r.value| == |ts| - NullHashCount(ts)
    decreases |ts|
  {
    if ts == [] then Returned([])
    else
      match ItemsOf(settings, paths, reading, ts[..|ts| - 1])
      case Threw(f) => Threw(f)
      case Returned(items) =>
        var t := ts[|ts| - 1];
        if t.hash.None? then Returned(items)
        else match ItemOf(settings, paths, reading, t)
          case Threw(f) => Threw(f)
          case Returned(item) => Returned(items + [item])
  }

  /** `GetItems` on the proxy's answer: its failure propagates, and a null
      array fails the `foreach`. */
  function ItemsFrom(settings: Settings, paths: Paths, reading: IdReading, listing: Outcome<Option<seq<Torrent>>>): (r: Outcome<seq<DownloadClientItem>>)
    ensures listing.Threw? ==> r == Threw(listing.fault)
    ensures listing == Returned(None) ==> r == Threw(NullReference)
  {
    match listing
    case Threw(f) => Threw(f)
    case Returned(None) => Threw(NullReference)
    case Returned(Some(ts)) => ItemsOf(settings, paths, reading, ts)
  }

  /** The torrents that have a hash, in their original order. */
  function WithHash(ts: seq<Torrent>): (r: seq<Torrent>)
    ensures forall k :: 0 <= k < |r| ==> r[k].hash.Some?
    decreases |ts|
  {
    if ts == [] then []
    else WithHash(ts[..|ts| - 1]) + (if ts[|ts| - 1].hash.Some? then [ts[|ts| - 1]] else [])
  }

  function NullHashCount(ts: seq<Torrent>): nat
    decreases |ts|
  {
    if ts == [] then 0
    else NullHashCount(ts[..|ts| - 1]) + (if ts[|ts| - 1].hash.None? then 1 else 0)
  }

  /** Exactly the torrents with a null hash are dropped; the rest stay, in order. */
  lemma {:induction false} WithHashDropsExactlyNullHashes(ts: seq<Torrent>)
    ensures |WithHash(ts)| == |ts| - NullHashCount(ts)
    ensures forall k :: 0 <= k < |WithHash(ts)| ==> WithHash(ts)[k] in ts
    ensures forall t :: t in ts && t.hash.Some? ==> t in WithHash(ts)
    decreases |ts|
  {
    if ts != [] {
      var init := ts[..|ts| - 1];
      WithHashDropsExactlyNullHashes(init);
      assert ts == init + [ts[|ts| - 1]];
      forall t | t in ts && t.hash.Some? ensures t in WithHash(ts) {
        if t in init {} else { assert t == ts[|ts| - 1]; }
      }
    }
  }

  /** `GetItems` is a filter followed by a map: the listing succeeds exactly
      when every torrent with a hash yields an item, and then it holds one item
      per such torrent, in input order. */
  lemma {:induction false} ItemsOfIsFilterMap(settings: Settings, paths: Paths, reading: IdReading, ts: seq<Torrent>)
    ensures ItemsOf(settings, paths, reading, ts).Returned? <==>
      forall k :: 0 <= k < |WithHash(ts)| ==> ItemOf(settings, paths, reading, WithHash(ts)[k]).Returned?
    ensures ItemsOf(settings, paths, reading, ts).Returned? ==>
      var items := ItemsOf(settings, paths, reading, ts).value;
      && |items| == |WithHash(ts)|
      && forall k :: 0 <= k < |items| ==> items[k] == ItemOf(settings, paths, reading, WithHash(ts)[k]).value
    decreases |ts|
  {
    if ts != [] {
      var init := ts[..|ts| - 1];
      var t := ts[|ts| - 1];
      ItemsOfIsFilterMap(settings, paths, reading, init);
      WithHashDropsExactlyNullHashes(init);
      var w := WithHash(init);
      if t.hash.Some? {
        assert WithHash(ts) == w + [t];
        if ItemsOf(settings, paths, reading, init).Returned? && ItemOf(settings, paths, reading, t).Returned? {
        } else if ItemsOf(settings, paths, reading, init).Threw? {
          var k :| 0 <= k < |w| && ItemOf(settings, paths, reading, w[k]).Threw?;
          assert WithHash(ts)[k] == w[k];
        } else {
          assert WithHash(ts)[|w|] == t;
        }
      } else {
        assert WithHash(ts) == w;
      }
    }
  }

  /** A failure in a prefix of the listing is the failure of the whole listing. */
  lemma {:induction false} ItemsOfFailureIsFinal(settings: Settings, paths: Paths, reading: IdReading, a: seq<Torrent>, b: seq<Torrent>)
    requires ItemsOf(settings, paths, reading, a).Threw?
    ensures ItemsOf(settings, paths, reading, a + b) == ItemsOf(settings, paths, reading, a)
    decreases |b|
  {
    if b == [] {
      assert a + b == a;
    } else {
      assert (a + b)[..|a + b| - 1] == a + b[..|b| - 1];
      ItemsOfFailureIsFinal(settings, paths, reading, a, b[..|b| - 1]);
    }
  }

  /** As written, a listing whose hashed torrents all carry a v1 hash never
      fails, and yields one item per such torrent. */
  lemma ListingOfV1HashesSucceeds(settings: Settings, paths: Paths, ts: seq<Torrent>)
    requires forall t :: t in ts && t.hash.Some? ==> |t.hash.value| > 0 && t.hash.value[0].Some?
    ensures ItemsOf(settings, paths, AsWritten, ts).Returned?
    ensures |ItemsOf(settings, paths, AsWritten, ts).value| == |ts| - NullHashCount(ts)
  {
    WithHashDropsExactlyNullHashes(ts);
    ItemsOfIsFilterMap(settings, paths, AsWritten, ts);
  }

  /** As written, one hashed torrent without a v1 hash (an empty pair, or a
      v2-only torrent) makes the whole listing throw. */
  lemma ListingWithoutV1HashThrows(settings: Settings, paths: Paths, ts: seq<Torrent>, t: Torrent)
    requires t in ts && t.hash.Some? && (|t.hash.value| == 0 || t.hash.value[0].None?)
    ensures ItemsOf(settings, paths, AsWritten, ts).Threw?
  {
    WithHashDropsExactlyNullHashes(ts);
    ItemsOfIsFilterMap(settings, paths, AsWritten, ts);
    var k :| 0 <= k < |WithHash(ts)| && WithHash(ts)[k] == t;
    assert ItemOf(settings, paths, AsWritten, WithHash(ts)[k]).Threw?;
  }

  /** On torrents that all carry a v1 hash the two readings list the same items. */
  lemma {:induction false} ReadingsAgreeOnV1Hashes(settings: Settings, paths: Paths, ts: seq<Torrent>)
    requires forall k :: 0 <= k < |ts| && ts[k].hash.Some? ==> |ts[k].hash.value| > 0 && ts[k].hash.value[0].Some?
    ensures ItemsOf(settings, paths, AsWritten, ts) == ItemsOf(settings, paths, Intended, ts)
    decreases |ts|
  {
    if ts != [] {
      ReadingsAgreeOnV1Hashes(settings, paths, ts[..|ts| - 1]);
      var t := ts[|ts| - 1];
      if t.hash.Some? {
        DownloadIdAgreesWhenV1HashPresent(t.hash.value);
      }
    }
  }

  /** The v2-only torrent `[null, "abcd"]`: as written the listing throws, as
      intended it lists one item "ABCD". */
  lemma V2OnlyListingDiffers(settings: Settings, paths: Paths, t: Torrent)
    requires t.hash == Some([None, Some("abcd")])
    ensures ItemsOf(settings, paths, AsWritten, [t]) == Threw(NullReference)
    ensures ItemsOf(settings, paths, Intended, [t]).Returned?
    ensures |ItemsOf(settings, paths, Intended, [t]).value| == 1
    ensures ItemsOf(settings, paths, Intended, [t]).value[0].downloadId == Some("ABCD")
  {
    V2OnlyHashThrowsAsWritten();
    assert [t][..0] == [];
  }

  /** The daemon lists `[{hash: ["AAAA"], state: 5}, {hash: null, state: 1}]`:
      the listing is a single completed item "AAAA" whose remaining time is the
      ETA. */
  lemma OneHashedRecordScenario(settings: Settings, paths: Paths, a: Torrent, b: Torrent)
    requires a.hash == Some([Some("AAAA")]) && a.state == 5
    requires b.hash.None? && b.state == 1
    ensures ItemsOf(settings, paths, AsWritten, [a, b]).Returned?
    ensures var items := ItemsOf(settings, paths, AsWritten, [a, b]).value;
      && |items| == 1
      && items[0].downloadId == Some("AAAA")
      && items[0].status == Completed
      && items[0].remainingTime == Some(TimeSpan(a.eta * TicksPerSecond))
  {
    assert [a, b][..1] == [a];
    assert [a][..0] == [];
    assert ToUpper("AAAA") == "AAAA" by {
      var u := ToUpper("AAAA");
      assert u[0] == 'A' && u[1] == 'A' && u[2] == 'A' && u[3] == 'A';
    }
    assert DownloadIdAsWritten([Some("AAAA")]) == Returned(Some("AAAA"));
    assert ItemsOf(settings, paths, AsWritten, [a]).Returned?;
    assert ItemsOf(settings, paths, AsWritten, [a, b]) == ItemsOf(settings, paths, AsWritten, [a]);
  }

  /** Without a category the listing fails before any request is sent. */
  lemma ListingWithoutCategoryFails(settings: Settings, paths: Paths, daemon: HttpRequest -> HttpReply<TorrentsResponse>)
    requires settings.tvCategory.None?
    ensures GetTorrents(settings, daemon).sent.None?
    ensures ItemsFrom(settings, paths, AsWritten, GetTorrents(settings, daemon).outcome) == Threw(NullReference)
  {
  }

  // ---------------------------------------------------------------------------
  // Connection test

  const ConnectDetail := "Please verify the hostname and port."
  const SslSettingsDetail := "Please verify your SSL configuration on both Porla and Sonarr."
  const SslDetail := "Sonarr is unable to connect to Porla using SSL. This problem could be computer related. Please try to configure both Sonarr and Porla to not use SSL."

  predicate IsSslStatus(status: WebExceptionStatus) {
    status == ConnectionClosed || status == SecureChannelFailure
  }

  /** The `WebException` clause of `TestConnection`. */
  function WebExceptionFailure(status: WebExceptionStatus, message: string): (v: ValidationFailure)
    ensures v.propertyName == "Host" <==> status == ConnectFailure
    ensures v.propertyName == "UseSsl" <==> IsSslStatus(status)
    ensures v.propertyName == "" <==> status != ConnectFailure && !IsSslStatus(status)
    ensures status == ConnectFailure ==> v == ValidationFailure("Host", "Unable to connect", Some(ConnectDetail))
    ensures status == ConnectionClosed ==> v == ValidationFailure("UseSsl", "Verify SSL settings", Some(SslSettingsDetail))
    ensures status == SecureChannelFailure ==> v == ValidationFailure("UseSsl", "Unable to connect through SSL", Some(SslDetail))
    ensures status != ConnectFailure && !IsSslStatus(status) ==> v == ValidationFailure("", "Unknown exception: " + message, None)
  {
    if status == ConnectFailure then
      ValidationFailure("Host", "Unable to connect", Some(ConnectDetail))
    else if status == ConnectionClosed then
      ValidationFailure("UseSsl", "Verify SSL settings", Some(SslSettingsDetail))
    else if status == SecureChannelFailure then
      ValidationFailure("UseSsl", "Unable to connect through SSL", Some(SslDetail))
    else
      ValidationFailure("", "Unknown exception: " + message, None)
  }

  /** The `catch` clauses of `TestConnection`, over whatever `GetVersions`
      returned or threw. */
  function ConnectionFailure(versions: Outcome<Option<string>>): (r: Option<ValidationFailure>)
    ensures r.None? <==> versions.Returned?
    ensures versions.Threw? ==> (r.value.propertyName == "Token" <==> versions.fault.AuthenticationFailed?)
    ensures versions.Threw? && versions.fault.AuthenticationFailed? ==> r == Some(ValidationFailure("Token", "Authentication failed", None))
    ensures versions.Threw? && versions.fault.Web? ==> r == Some(WebExceptionFailure(versions.fault.status, versions.fault.message))
    ensures versions.Threw? && !versions.fault.AuthenticationFailed? && !versions.fault.Web? ==>
      r == Some(ValidationFailure("Host", "Unable to connect to Porla", Some(versions.fault.Message())))
  {
    if versions.Returned? then None
    else if versions.fault.AuthenticationFailed? then Some(ValidationFailure("Token", "Authentication failed", None))
    else if versions.fault.Web? then Some(WebExceptionFailure(versions.fault.status, versions.fault.message))
    else Some(ValidationFailure("Host", "Unable to connect to Porla", Some(versions.fault.Message())))
  }

  /** `TestConnection`: ask the daemon for its versions and classify the outcome. */
  function TestConnection(settings: Settings, daemon: HttpRequest -> HttpReply<VersionsResponse>): (r: Option<ValidationFailure>)
    ensures r.None? <==> GetVersions(settings, daemon).outcome.Returned?
  {
    ConnectionFailure(GetVersions(settings, daemon).outcome)
  }

  /** Through PorlaProxy, which wraps every web failure in its own exception,
      only two outcomes of a failed test remain: the token, exactly when the
      daemon answers with error code -5, and the host otherwise. */
  lemma TestConnectionThroughProxy(settings: Settings, daemon: HttpRequest -> HttpReply<VersionsResponse>)
    ensures var f := TestConnection(settings, daemon);
      var reply := daemon(GetVersions(settings, daemon).sent.value);
      && (f.Some? ==> (f.value.propertyName == "Token" || f.value.propertyName == "Host"))
      && (f == Some(ValidationFailure("Token", "Authentication failed", None)) <==>
           reply.Delivered? && reply.response.error.Some? && reply.response.error.value.code == -5)
  {
  }

  /** A timed-out exchange is answered with an error response and no result,
      so the test reports that Porla cannot be reached. */
  lemma TimeoutFailsOnHost(settings: Settings, message: string)
    ensures TestConnection(settings, (_: HttpRequest) => HttpFailure(408, message))
         == Some(ValidationFailure("Host", "Unable to connect to Porla", Some(NullReference.Message())))
  {
  }

  /** `Test`: the connection failure is appended when there is one, and only then. */
  function Test(failures: seq<ValidationFailure>, settings: Settings, daemon: HttpRequest -> HttpReply<VersionsResponse>): (r: seq<ValidationFailure>)
    ensures |r| == |failures| + (if GetVersions(settings, daemon).outcome.Returned? then 0 else 1)
    ensures r[..|failures|] == failures
    ensures |r| > |failures| ==> r[|failures|] == TestConnection(settings, daemon).value
  {
    match TestConnection(settings, daemon)
    case None => failures
    case Some(f) => failures + [f]
  }

  // ---------------------------------------------------------------------------
  // Adding and removing torrents

  /** The caller's hash, when it has one, wins over the daemon's info-hash. */
  function CallerHashWins(hash: Option<string>, added: Outcome<Option<string>>): (r: Outcome<Option<string>>)
    ensures r.Returned? <==> added.Returned?
    ensures r.Threw? ==> r.fault == added.fault
    ensures r.Returned? && hash.Some? ==> r.value == hash
    ensures r.Returned? && hash.None? ==> r.value == added.value
  {
    match added
    case Threw(f) => Threw(f)
    case Returned(infoHash) => Returned(if hash.Some? then hash else infoHash)
  }

  /** `AddFromMagnetLink`: the magnet link goes to the daemon whatever the
      caller's hash, with no seed configuration. */
  function AddFromMagnetLink(settings: Settings, hash: Option<string>, magnetLink: Option<string>, daemon: HttpRequest -> HttpReply<AddResponse>): (r: Exchange<Option<string>>)
    ensures r.sent == AddTorrentFromUrl(magnetLink, settings, daemon).sent
    ensures r.outcome == CallerHashWins(hash, AddTorrentFromUrl(magnetLink, settings, daemon).outcome)
  {
    var ex := AddTorrentFromUrl(magnetLink, settings, daemon);
    Exchange(ex.sent, CallerHashWins(hash, ex.outcome))
  }

  /** `AddFromTorrentFile`: as `AddFromMagnetLink`, for a torrent file. */
  function AddFromTorrentFile(settings: Settings, hash: Option<string>, filename: Option<string>, fileContent: seq<bv8>,
                              base64: seq<bv8> -> string, daemon: HttpRequest -> HttpReply<AddResponse>): (r: Exchange<Option<string>>)
    ensures r.sent == AddTorrentFromFile(filename, fileContent, settings, base64, daemon).sent
    ensures r.outcome == CallerHashWins(hash, AddTorrentFromFile(filename, fileContent, settings, base64, daemon).outcome)
  {
    var ex := AddTorrentFromFile(filename, fileContent, settings, base64, daemon);
    Exchange(ex.sent, CallerHashWins(hash, ex.outcome))
  }

  /** With a caller hash, adding returns that hash whenever the daemon call
      does not throw, whatever info-hash the daemon reports. */
  lemma CallerHashIgnoresDaemonHash(settings: Settings, hash: string, magnetLink: Option<string>, reported: Option<string>)
    ensures var daemon := (_: HttpRequest) => Delivered(RpcResponse(Some(AddResponse(reported)), None));
      AddFromMagnetLink(settings, Some(hash), magnetLink, daemon).outcome == Returned(Some(hash))
  {
  }

  /** `RemoveItem`: the item's download id and the delete-data flag are sent
      unchanged, and a failure of the removal propagates. */
  function RemoveItem(settings: Settings, item: DownloadClientItem, deleteData: bool, daemon: HttpRequest -> HttpReply<Json>): (r: Exchange<()>)
    ensures r.sent.Some? && r.sent.value.call.methodName == "torrents.remove"
    ensures Lookup(r.sent.value.call.params, "info_hashes") == Some(JArray([JsonString(item.downloadId), JNull]))
    ensures Lookup(r.sent.value.call.params, "remove_data") == Some(JBool(deleteData))
    ensures r.outcome.Threw? <==> ProcessRequest(settings, "torrents.remove", r.sent.value.call.params, daemon).outcome.Threw?
  {
    RemoveTorrent(item.downloadId, deleteData, settings, daemon)
  }

  // ---------------------------------------------------------------------------
  // The "getPresets" side query

  datatype PresetOption = PresetOption(value: string, name: string)

  datatype ActionResult =
    | Devices(devices: seq<string>)          // new { devices = new List<object>() }
    | PresetOptions(options: seq<PresetOption>)
    | BaseAction(action: string, query: map<string, string>) // handled by the base client, which is not part of this model

  predicate SortedByKey<V>(s: seq<(string, V)>) {
    forall i, j :: 0 <= i < j < |s| ==> StrLe(s[i].0, s[j].0)
  }

  function InsertByKey<V>(s: seq<(string, V)>, x: (string, V)): seq<(string, V)>
    decreases |s|
  {
    if s == [] then [x]
    else if StrLe(s[|s| - 1].0, x.0) then s + [x]
    else InsertByKey(s[..|s| - 1], x) + [s[|s| - 1]]
  }

  /** `OrderBy(d => d.Key)` over the dictionary's entries. */
  function SortByKey<V>(s: seq<(string, V)>): seq<(string, V)>
    decreases |s|
  {
    if s == [] then [] else InsertByKey(SortByKey(s[..|s| - 1]), s[|s| - 1])
  }

  lemma {:induction false} InsertByKeySorted<V>(s: seq<(string, V)>, x: (string, V))
    requires SortedByKey(s)
    ensures SortedByKey(InsertByKey(s, x))
    ensures multiset(InsertByKey(s, x)) == multiset(s) + multiset{x}
    decreases |s|
  {
    if s == [] {
    } else if StrLe(s[|s| - 1].0, x.0) {
      var q := s + [x];
      forall i, j | 0 <= i < j < |q| ensures StrLe(q[i].0, q[j].0) {
        if j == |s| {
          if i < |s| - 1 { StrLeTransitive(s[i].0, s[|s| - 1].0, x.0); }
        }
      }
    } else {
      var init, last := s[..|s| - 1], s[|s| - 1];
      assert s == init + [last];
      StrLeTotal(last.0, x.0);
      InsertByKeySorted(init, x);
      var p := InsertByKey(init, x);
      var q := p + [last];
      forall i | 0 <= i < |p| ensures StrLe(p[i].0, last.0) {
        assert p[i] in multiset(p);
        if p[i] == x {
        } else {
          assert p[i] in multiset(init);
          var k :| 0 <= k < |init| && init[k] == p[i];
          assert s[k] == init[k];
        }
      }
      forall i, j | 0 <= i < j < |q| ensures StrLe(q[i].0, q[j].0) {
        if j == |p| { assert q[i] == p[i]; } else { assert q[i] == p[i] && q[j] == p[j]; }
      }
    }
  }

  /** Sorting by key orders the entries and keeps every one of them. */
  lemma {:induction false} SortByKeySortsAndPermutes<V>(s: seq<(string, V)>)
    ensures SortedByKey(SortByKey(s))
    ensures multiset(SortByKey(s)) == multiset(s)
    decreases |s|
  {
    if s != [] {
      SortByKeySortsAndPermutes(s[..|s| - 1]);
      InsertByKeySorted(SortByKey(s[..|s| - 1]), s[|s| - 1]);
      assert s == s[..|s| - 1] + [s[|s| - 1]];
    }
  }

  function OptionsOf<V>(presets: seq<(string, V)>): seq<PresetOption> {
    var sorted := SortByKey(presets);
    seq(|sorted|, i requires 0 <= i < |sorted| => PresetOption(sorted[i].0, sorted[i].0))
  }

  function KeysOf<V>(s: seq<(string, V)>): seq<string> {
    seq(|s|, i requires 0 <= i < |s| => s[i].0)
  }

  lemma KeysOfAppend<V>(a: seq<(string, V)>, x: (string, V))
    ensures KeysOf(a + [x]) == KeysOf(a) + [x.0]
  {
    assert forall i :: 0 <= i < |a| ==> (a + [x])[i] == a[i];
  }

  lemma {:induction false} InsertByKeyKeys<V>(s: seq<(string, V)>, x: (string, V))
    ensures multiset(KeysOf(InsertByKey(s, x))) == multiset(KeysOf(s)) + multiset{x.0}
    decreases |s|
  {
    if s == [] {
      assert KeysOf([x]) == [x.0];
    } else if StrLe(s[|s| - 1].0, x.0) {
      KeysOfAppend(s, x);
    } else {
      var init, last := s[..|s| - 1], s[|s| - 1];
      assert s == init + [last];
      InsertByKeyKeys(init, x);
      KeysOfAppend(InsertByKey(init, x), last);
      KeysOfAppend(init, last);
    }
  }

  /** Sorting keeps the multiset of keys. */
  lemma {:induction false} SortByKeyKeys<V>(s: seq<(string, V)>)
    ensures multiset(KeysOf(SortByKey(s))) == multiset(KeysOf(s))
    decreases |s|
  {
    if s != [] {
      var init, last := s[..|s| - 1], s[|s| - 1];
      assert s == init + [last];
      SortByKeyKeys(init);
      InsertByKeyKeys(SortByKey(init), last);
      KeysOfAppend(init, last);
    }
  }

  /** The preset options: one per preset, ordered by key, each with the key as
      both value and name. */
  lemma PresetOptionsSortedByKey<V>(presets: seq<(string, V)>)
    ensures var o := OptionsOf(presets);
      && |o| == |presets|
      && (forall i, j :: 0 <= i < j < |o| ==> StrLe(o[i].value, o[j].value))
      && (forall i :: 0 <= i < |o| ==> o[i].name == o[i].value)
      && multiset(seq(|o|, i requires 0 <= i < |o| => o[i].value)) == multiset(KeysOf(presets))
  {
    var sorted := SortByKey(presets);
    SortByKeySortsAndPermutes(presets);
    SortByKeyKeys(presets);
    var o := OptionsOf(presets);
    assert |sorted| == |presets| by {
      assert |multiset(sorted)| == |multiset(presets)|;
    }
    assert seq(|o|, i requires 0 <= i < |o| => o[i].value) == KeysOf(sorted);
  }

  /** A dictionary's entries: no key occurs twice. */
  predicate DistinctKeys<V>(s: seq<(string, V)>) {
    forall i, j :: 0 <= i < j < |s| ==> s[i].0 != s[j].0
  }

  /** The dictionary of the daemon's presets, built from its entries: it has
      exactly their keys, and each key maps to its own preset. */
  function DictionaryOf<V>(s: seq<(string, V)>): (m: map<string, V>)
    ensures m.Keys == set i | 0 <= i < |s| :: s[i].0
    ensures DistinctKeys(s) ==> forall i :: 0 <= i < |s| ==> m[s[i].0] == s[i].1
    decreases |s|
  {
    if s == [] then map[]
    else
      var m := DictionaryOf(s[..|s| - 1]);
      assert forall i :: 0 <= i < |s| - 1 ==> s[..|s| - 1][i] == s[i];
      m[s[|s| - 1].0 := s[|s| - 1].1]
  }

  /** The options name exactly the keys of the stored dictionary. */
  lemma PresetOptionsMatchDictionary<V>(presets: seq<(string, V)>, key: string)
    ensures key in DictionaryOf(presets) <==>
      exists i :: 0 <= i < |OptionsOf(presets)| && OptionsOf(presets)[i].value == key
  {
    PresetOptionsSortedByKey(presets);
    var o := OptionsOf(presets);
    var values := seq(|o|, i requires 0 <= i < |o| => o[i].value);
    assert multiset(values) == multiset(KeysOf(presets));
    if key in DictionaryOf(presets) {
      var i :| 0 <= i < |presets| && presets[i].0 == key;
      assert KeysOf(presets)[i] == key;
      assert key in multiset(values);
      var j :| 0 <= j < |values| && values[j] == key;
      assert o[j].value == key;
    }
    if exists i :: 0 <= i < |o| && o[i].value == key {
      var i :| 0 <= i < |o| && o[i].value == key;
      assert values[i] == key;
      assert key in multiset(KeysOf(presets));
      var j :| 0 <= j < |presets| && KeysOf(presets)[j] == key;
      assert presets[j].0 == key;
    }
  }

  // ---------------------------------------------------------------------------
  // The adapter

  class Porla {
    var settings: Settings
    /** The remote-path-mapping service and the path join. */
    const paths: Paths

    constructor (settings: Settings, paths: Paths)
      ensures this.settings == settings && this.paths == paths
    {
      this.settings := settings;
      this.paths := paths;
    }

    /** `GetItems`: list the category's torrents and build one item per torrent
        that has a hash. */
    method GetItems(daemon: HttpRequest -> HttpReply<TorrentsResponse>) returns (r: Outcome<seq<DownloadClientItem>>)
      ensures r == ItemsFrom(settings, paths, AsWritten, GetTorrents(settings, daemon).outcome)
    {
      var torrents := GetTorrents(settings, daemon).outcome;
      if torrents.Threw? {
        return Threw(torrents.fault);
      }
      if torrents.value.None? {
        return Threw(NullReference);
      }
      var ts := torrents.value.value;
      var items: seq<DownloadClientItem> := [];
      var i := 0;
      while i < |ts|
        invariant 0 <= i <= |ts|
        invariant ItemsOf(settings, paths, AsWritten, ts[..i]) == Returned(items)
      {
        var torrent := ts[i];
        assert ts[..i + 1][..i] == ts[..i];
        if torrent.hash.None? {
          i := i + 1;
          continue;
        }
        var downloadId := DownloadIdAsWritten(torrent.hash.value);
        if downloadId.Threw? {
          ItemsOfFailureIsFinal(settings, paths, AsWritten, ts[..i + 1], ts[i + 1..]);
          assert ts[..i + 1] + ts[i + 1..] == ts;
          return Threw(downloadId.fault);
        }
        var item := NewItem;
        item := item.(downloadId := downloadId.value);
        item := item.(title := Some(torrent.name));
        item := item.(category := settings.tvCategory);
        var outputPath := paths.remapRemoteToLocal(settings.host, torrent.savePath);
        item := item.(outputPath := Some(paths.join(outputPath, torrent.name)));
        item := item.(seedRatio := Some(torrent.ratio));
        var remaining := FromSeconds(torrent.eta);
        if remaining.Returned? {
          item := item.(remainingTime := Some(remaining.value));
        } else {
          item := item.(remainingTime := Some(MaxValue));
        }
        item := item.(totalSize := torrent.size);
        if torrent.state == 4 || torrent.state == 5 {
          item := item.(status := Completed);
        } else {
          item := item.(status := Downloading);
        }
        items := items + [item];
        i := i + 1;
      }
      assert ts[..|ts|] == ts;
      return Returned(items);
    }

    /** `RequestAction`: without a token nothing is asked and an empty device
        list is returned. "getPresets" stores the daemon's presets in the
        settings and returns them as options sorted by key; a null preset
        dictionary is stored and then fails the sort. */
    method RequestAction(action: string, query: map<string, string>, presets: Outcome<Option<seq<(string, PorlaPreset)>>>)
      returns (r: Outcome<ActionResult>)
      requires presets.Returned? && presets.value.Some? ==> DistinctKeys(presets.value.value)
      modifies this
      ensures IsNullOrWhiteSpace(old(settings.token)) ==> r == Returned(Devices([])) && settings == old(settings)
      ensures !IsNullOrWhiteSpace(old(settings.token)) && action == "getPresets" ==>
        match presets
        case Threw(f) => r == Threw(f) && settings == old(settings)
        case Returned(None) => r == Threw(ArgumentNull) && settings == old(settings).(presetsList := None)
        case Returned(Some(p)) =>
          r == Returned(PresetOptions(OptionsOf(p))) && settings == old(settings).(presetsList := Some(DictionaryOf(p)))
      ensures !IsNullOrWhiteSpace(old(settings.token)) && action != "getPresets" ==>
        r == Returned(BaseAction(action, query)) && settings == old(settings)
    {
      if IsNullOrWhiteSpace(settings.token) {
        return Returned(Devices([]));
      }
      if action == "getPresets" {
        if presets.Threw? {
          return Threw(presets.fault);
        }
        match presets.value
        case None =>
          settings := settings.(presetsList := None);
          return Threw(ArgumentNull);
        case Some(p) =>
          settings := settings.(presetsList := Some(DictionaryOf(p)));
          return Returned(PresetOptions(OptionsOf(p)));
      }
      return Returned(BaseAction(action, query));
    }
  }
}
