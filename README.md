# Porla download client, modelled in Dafny

This project models Sonarr's adapter for the Porla torrent daemon. Sonarr uses
the adapter to talk to a Porla daemon over JSON-RPC. The model covers:

- **`PorlaProxy`** (`porla_proxy.dfy`): how every remote call is built. That
  means the base URL, the `/api/v1/jsonrpc` resource, the bearer token, the
  `Accept` header, the 15-second timeout, and each method's by-name
  parameters. It also covers how a reply or transport failure becomes a
  returned value or an exception:
  - error code -5 means the authentication failed;
  - HTTP 408 is read as an error response (see "Left out" for what the code
    really does);
  - other HTTP and web failures are wrapped in the adapter's own exceptions.

  The HTTP client and the JSON deserializer are one function parameter,
  `daemon`. It maps the request that is sent to the reply that comes back.
- **`PorlaClient`** (`porla.dfy`): the client itself, the class `Porla`.
  - `GetItems` turns the daemon's torrent records into download items. It is a
    loop proved equal to a filter-then-map specification of the code as
    written. The same specification with the corrected download id
    (`Intended`) is compared with it (see "Findings").
  - The connection test turns exceptions into validation failures.
  - Adding a torrent returns the caller's hash before the daemon's.
  - Removing an item forwards its id.
  - The `getPresets` action stores the presets in the settings and returns
    them sorted by key.
- **`PorlaSettings`** (`porla_settings.dfy`): the settings record, its
  defaults and its validator. The category regex is proved equivalent to the
  plain-words rule in its error message.
- **`BitRateSpecification`** (`bitrate_specification.dfy`): the "Bitrate"
  custom-format rule and its validator. The rule uses C#'s unchecked `int`
  and `long` arithmetic, truncating division, and its division-by-zero and
  overflow exceptions.
- **`Common`** and **`PorlaTypes`**: shared values.
  - `Option` stands for a C# reference that may be null.
  - `Outcome` is returned-or-threw; `Fault` lists the exceptions.
  - `Int32`/`Int64` are the fixed-width integers, and `ValidationFailure` is a
    validation failure.
  - Also here: ordinal string order, and the daemon's reply records.

Exceptions are values. An operation that may throw returns `Outcome<T>`.
A proxy operation returns an `Exchange`: the request it sent (none if it threw
first) plus its outcome.

Where this model follows the code rather than a plain reading of the
adapter's intent:

- `GetTorrents` calls `ToString()` on the category. A null category therefore
  throws `NullReferenceException` before any request is sent. The `?? ""`
  fallback never applies.
- `RemoveTorrent` sends the two-element array `[hash, null]` as
  `info_hashes`.
- `GetItems` skips only torrents whose info-hash pair is null.
- The ETA is an `int`, so `TimeSpan.FromSeconds` never overflows on it. The
  `TimeSpan.MaxValue` fallback is unreachable (`EtaNeverClamps`). A huge ETA
  such as 999999999999 cannot occur in a torrent record.
- `PorlaProxy` wraps every `WebException` in a
  `DownloadClientUnavailableException`. `TestConnection`'s `WebException`
  branches are modelled faithfully (`ConnectionFailure`), but with the real
  proxy they are unreachable (`TestConnectionThroughProxy`).

## Model

| member | source | states |
|---|---|---|
| Common.Wrap32 | src/NzbDrone.Core/CustomFormats/Specifications/BitRateSpecification.cs:32 | the result is congruent to the exact product modulo 2^32, and equals it when it fits in an `int` |
| Common.Wrap64 | src/NzbDrone.Core/CustomFormats/Specifications/BitRateSpecification.cs:34 | the result is congruent to the exact product modulo 2^64, and equals it when it fits in a `long` |
| Common.TruncDiv | src/NzbDrone.Core/CustomFormats/Specifications/BitRateSpecification.cs:34 | C# division: quotient times divisor plus the truncated remainder gives the dividend; it agrees with Euclidean division on non-negative operands |
| Common.ToUpper | src/NzbDrone.Core/Download/Clients/Porla/Porla.cs:109 | the result has the same length and no lower-case ASCII letter; each lower-case letter becomes its capital at the same position and every other character is unchanged |
| Common.ToUpperIdempotent | src/NzbDrone.Core/Download/Clients/Porla/Porla.cs:109 | upper-casing an already upper-cased string changes nothing |
| Common.StrLeTotal | src/NzbDrone.Core/Download/Clients/Porla/Porla.cs:162 | ordinal key order is total: any two keys are comparable |
| Common.StrLeTransitive | src/NzbDrone.Core/Download/Clients/Porla/Porla.cs:162 | ordinal key order is transitive |
| PorlaSettings.SegmentsMeanPlainTail | src/NzbDrone.Core/Download/Clients/Porla/PorlaSettings.cs:18 | the repeated group `(\/?[^\\\/])*` accepts exactly the strings with no backslash, no `//` and no trailing `/` |
| PorlaSettings.CategoryPatternMeansPlainRule | src/NzbDrone.Core/Download/Clients/Porla/PorlaSettings.cs:18-19 | the category pattern accepts a string if and only if it has no `\`, no `//`, and neither starts nor ends with `/`, as the error message says |
| PorlaSettings.RegexAcceptsMeansPattern | src/NzbDrone.Core/Download/Clients/Porla/PorlaSettings.cs:18-19 | the regex's `$` adds only the strings that match the pattern before a final line feed; such a string also satisfies the grammar |
| PorlaSettings.Default | src/NzbDrone.Core/Download/Clients/Porla/PorlaSettings.cs:29-33 | fresh settings: host "localhost", save path "/data/downloads", port 0, no SSL, and every other field null |
| PorlaSettings.PortRule | src/NzbDrone.Core/Download/Clients/Porla/PorlaSettings.cs:15 | no failure if and only if the port is in 1..65535; otherwise only "Port" failures with the range message for the value entered |
| PorlaSettings.CategoryRule | src/NzbDrone.Core/Download/Clients/Porla/PorlaSettings.cs:18-19 | no failure if and only if the category is null or satisfies the plain-words rule; every failure names the property and carries the category message |
| PorlaSettings.Validate | src/NzbDrone.Core/Download/Clients/Porla/PorlaSettings.cs:12-20 | every failure names one of the five validated properties (Host, Port, UrlBase, TvCategory, TvImportedCategory); what each property gets is stated by the lemmas below |
| PorlaSettings.FailuresForValidate | src/NzbDrone.Core/Download/Clients/Porla/PorlaSettings.cs:12-20 | the failures reported for any property are exactly those of that property's own rule |
| PorlaSettings.ValidateRules | src/NzbDrone.Core/Download/Clients/Porla/PorlaSettings.cs:12-20 | Port fails exactly outside 1..65535; UrlBase is checked only when not blank; both categories follow the plain-words rule; Host carries the host rule's failures |
| PorlaSettings.BlankUrlBaseIsNotChecked | src/NzbDrone.Core/Download/Clients/Porla/PorlaSettings.cs:16 | with a blank URL base the URL-base rule has no influence on validation |
| PorlaSettings.ValidateAccepts | src/NzbDrone.Core/Download/Clients/Porla/PorlaSettings.cs:12-20 | settings validate cleanly if and only if every individual rule passes |
| PorlaSettings.DefaultSettingsFailPortRule | src/NzbDrone.Core/Download/Clients/Porla/PorlaSettings.cs:29-33 | fresh settings have host "localhost" and save path "/data/downloads", with every other field unset; their port of 0 fails the port rule |
| PorlaProxy.BuildRequest | src/NzbDrone.Core/Download/Clients/Porla/PorlaProxy.cs:146-159 | the request carries the configured base URL, by-name parameters, resource `/api/v1/jsonrpc`, `Bearer <token>`, `Accept: application/json` and a 15-second timeout |
| PorlaProxy.ExecuteRequest | src/NzbDrone.Core/Download/Clients/Porla/PorlaProxy.cs:186-221 | a delivered response is returned; HTTP 408 gives an error response with no result; other HTTP failures give DownloadClientException; TrustFailure gives the certificate message; other web failures give the settings message |
| PorlaProxy.CheckResponse | src/NzbDrone.Core/Download/Clients/Porla/PorlaProxy.cs:168-178 | a fault propagates unchanged; a reply throws if and only if its error code is -5, with the daemon's message; otherwise it returns the reply's result |
| PorlaProxy.ProcessRequest | src/NzbDrone.Core/Download/Clients/Porla/PorlaProxy.cs:161-179 | an authentication failure is thrown if and only if the daemon answers with error code -5, carrying its message; any other reply yields its possibly-null result |
| PorlaProxy.Deref | src/NzbDrone.Core/Download/Clients/Porla/PorlaProxy.cs:42 | dereferencing a null result throws NullReferenceException; a fault propagates unchanged |
| PorlaProxy.GetVersions | src/NzbDrone.Core/Download/Clients/Porla/PorlaProxy.cs:38-43 | sends "sys.versions" with no parameters; it returns if and only if the result and its `Porla` object are non-null, and then gives the version |
| PorlaProxy.GetConfig | src/NzbDrone.Core/Download/Clients/Porla/PorlaProxy.cs:45-49 | sends "session.settings.list" with an empty parameter object |
| PorlaProxy.AddTorrentFromFile | src/NzbDrone.Core/Download/Clients/Porla/PorlaProxy.cs:51-64 | sends "torrents.add" with exactly name, save_path, category (empty when unset) and the base64 file; returns the info-hash if and only if the result is non-null |
| PorlaProxy.AddTorrentFromUrl | src/NzbDrone.Core/Download/Clients/Porla/PorlaProxy.cs:66-77 | sends "torrents.add" with exactly magnet_uri, save_path and category (empty when unset), and no file; returns the info-hash if and only if the result is non-null |
| PorlaProxy.GetTorrentFiles | src/NzbDrone.Core/Download/Clients/Porla/PorlaProxy.cs:79-87 | sends "torrents.files.list" with the info-hash; a null file list throws ArgumentNullException |
| PorlaProxy.GetTorrents | src/NzbDrone.Core/Download/Clients/Porla/PorlaProxy.cs:94-106 | a request is sent if and only if a category is set; an unset category throws NullReferenceException; otherwise it filters by exactly that category and returns the torrent array |
| PorlaProxy.RemoveTorrent | src/NzbDrone.Core/Download/Clients/Porla/PorlaProxy.cs:123-129 | sends "torrents.remove" with `info_hashes = [hash, null]` and `remove_data`; it fails if and only if the call fails, with the same fault |
| PorlaProxy.EveryRequestHasStandardEnvelope | src/NzbDrone.Core/Download/Clients/Porla/PorlaProxy.cs:146-165 | every operation's request has the standard envelope: base URL, by-name parameters, resource, token, Accept header and timeout |
| PorlaProxy.AuthenticationIffCodeMinusFive | src/NzbDrone.Core/Download/Clients/Porla/PorlaProxy.cs:168-178 | an error response throws an authentication failure with the daemon's message for code -5, and returns the result for every other code |
| PorlaProxy.TransportFailuresAreWrapped | src/NzbDrone.Core/Download/Clients/Porla/PorlaProxy.cs:197-220 | a transport failure never surfaces as an authentication failure or a raw WebException; it returns only for HTTP 408, and then with a null result (the intended 408 reading, see "Left out") |
| PorlaClient.FromSeconds | src/NzbDrone.Core/Download/Clients/Porla/Porla.cs:121 | succeeds if and only if the number of seconds is within ±922337203685, giving that many seconds in ticks; otherwise throws OverflowException |
| PorlaClient.RemainingTime | src/NzbDrone.Core/Download/Clients/Porla/Porla.cs:119-127 | the ETA in ticks when it fits; TimeSpan.MaxValue when it does not |
| PorlaClient.EtaNeverClamps | src/NzbDrone.Core/Download/Clients/Porla/Porla.cs:119-127 | for every `int` ETA the remaining time is exactly the ETA in seconds and is never MaxValue |
| PorlaClient.StatusOf | src/NzbDrone.Core/Download/Clients/Porla/Porla.cs:131-138 | completed if and only if the state is 4 or 5; downloading for every other state |
| PorlaClient.DownloadIdAsWritten | src/NzbDrone.Core/Download/Clients/Porla/Porla.cs:109 | as written: returns if and only if the v1 hash is present, and then always the upper-cased v1 hash; an empty pair throws IndexOutOfRange; a null v1 hash throws NullReference |
| PorlaClient.DownloadIdOf | src/NzbDrone.Core/Download/Clients/Porla/Porla.cs:109 | the upper-cased v1 hash, or else the upper-cased v2 hash (null when both are null); it throws only when the pair is too short |
| PorlaClient.DownloadIdAgreesWhenV1HashPresent | src/NzbDrone.Core/Download/Clients/Porla/Porla.cs:109 | the corrected and the as-written id agree on every torrent with a v1 hash |
| PorlaClient.V2OnlyHashThrowsAsWritten | src/NzbDrone.Core/Download/Clients/Porla/Porla.cs:109 | for the pair `[null, "abcd"]` the as-written id throws NullReferenceException; the corrected id is "ABCD" |
| PorlaClient.ItemOf | src/NzbDrone.Core/Download/Clients/Porla/Porla.cs:108-138 | the item of a torrent: id (by the chosen reading; as written, `DownloadIdAsWritten`), title, settings' category, output path (the remapped save path joined with the name by `OsPath`'s `+`), ratio, ETA and size; completed if and only if the state is 4 or 5; it fails if and only if the id cannot be read, with that fault |
| PorlaClient.WithHash | src/NzbDrone.Core/Download/Clients/Porla/Porla.cs:103-106 | every torrent that is kept has a hash |
| PorlaClient.WithHashDropsExactlyNullHashes | src/NzbDrone.Core/Download/Clients/Porla/Porla.cs:101-106 | exactly the null-hash torrents are dropped: the count drops by their number, and every torrent with a hash is kept |
| PorlaClient.ItemsOf | src/NzbDrone.Core/Download/Clients/Porla/Porla.cs:99-143 | a successful listing has one item per torrent with a hash |
| PorlaClient.ItemsFrom | src/NzbDrone.Core/Download/Clients/Porla/Porla.cs:97-143 | a failed proxy call is the listing's failure; a null torrent array throws NullReferenceException |
| PorlaClient.ItemsOfIsFilterMap | src/NzbDrone.Core/Download/Clients/Porla/Porla.cs:99-143 | the listing succeeds if and only if every hashed torrent yields an item; it then has one item per hashed torrent, in input order |
| PorlaClient.ItemsOfFailureIsFinal | src/NzbDrone.Core/Download/Clients/Porla/Porla.cs:101-141 | a failure on one torrent is the failure of the whole listing, whatever follows |
| PorlaClient.ListingOfV1HashesSucceeds | src/NzbDrone.Core/Download/Clients/Porla/Porla.cs:99-143 | as written, when every hashed torrent has a v1 hash, the listing succeeds with one item per hashed torrent |
| PorlaClient.ListingWithoutV1HashThrows | src/NzbDrone.Core/Download/Clients/Porla/Porla.cs:99-143 | as written, one hashed torrent whose pair is empty or lacks a v1 hash makes the whole listing throw |
| PorlaClient.ReadingsAgreeOnV1Hashes | src/NzbDrone.Core/Download/Clients/Porla/Porla.cs:99-143 | when every hashed torrent has a v1 hash, the as-written and the corrected listing are equal |
| PorlaClient.V2OnlyListingDiffers | src/NzbDrone.Core/Download/Clients/Porla/Porla.cs:99-143 | for a v2-only torrent `[null, "abcd"]` the as-written listing throws NullReferenceException, while the corrected one gives one item "ABCD" |
| PorlaClient.OneHashedRecordScenario | src/NzbDrone.Core/Download/Clients/Porla/Porla.cs:99-143 | a seeding record with hash "AAAA" plus a null-hash record give one completed item "AAAA" |
| PorlaClient.ListingWithoutCategoryFails | src/NzbDrone.Core/Download/Clients/Porla/Porla.cs:97 | without a category, listing throws NullReferenceException and sends nothing |
| PorlaClient.WebExceptionFailure | src/NzbDrone.Core/Download/Clients/Porla/Porla.cs:56-79 | ConnectFailure gives "Host: Unable to connect" with the connection detail; ConnectionClosed gives "UseSsl: Verify SSL settings" and SecureChannelFailure "UseSsl: Unable to connect through SSL", each with its detail (both directions); any other status gives an unnamed "Unknown exception" failure |
| PorlaClient.ConnectionFailure | src/NzbDrone.Core/Download/Clients/Porla/Porla.cs:44-90 | no failure if and only if the version call returned; "Token" if and only if authentication failed; the web clause for a WebException; otherwise "Host" with the exception's message as detail |
| PorlaClient.TestConnection | src/NzbDrone.Core/Download/Clients/Porla/Porla.cs:44-90 | the test passes if and only if the version call returns; its failures are classified by `ConnectionFailure` |
| PorlaClient.TestConnectionThroughProxy | src/NzbDrone.Core/Download/Clients/Porla/Porla.cs:44-90 | through the proxy, a failed test names only Token or Host; it names Token if and only if the daemon answers with code -5 |
| PorlaClient.TimeoutFailsOnHost | src/NzbDrone.Core/Download/Clients/Porla/Porla.cs:80-87 | a timed-out exchange gives the "Unable to connect to Porla" failure with the null-reference message as detail (the intended 408 reading, see "Left out") |
| PorlaClient.Test | src/NzbDrone.Core/Download/Clients/Porla/Porla.cs:33-42 | earlier failures are kept; exactly one failure is appended, the connection failure, if and only if the version call did not return |
| PorlaClient.CallerHashWins | src/NzbDrone.Core/Download/Clients/Porla/Porla.cs:186-193 | `hash ?? infoHash`: the caller's hash when it has one, else the daemon's; faults propagate |
| PorlaClient.AddFromMagnetLink | src/NzbDrone.Core/Download/Clients/Porla/Porla.cs:184-188 | sends the proxy's "torrents.add" request whatever the caller's hash, and then prefers the caller's hash |
| PorlaClient.AddFromTorrentFile | src/NzbDrone.Core/Download/Clients/Porla/Porla.cs:190-194 | sends the proxy's file request whatever the caller's hash, and then prefers the caller's hash |
| PorlaClient.CallerHashIgnoresDaemonHash | src/NzbDrone.Core/Download/Clients/Porla/Porla.cs:184-188 | with a caller hash, a successful add returns that hash whatever the daemon reports |
| PorlaClient.RemoveItem | src/NzbDrone.Core/Download/Clients/Porla/Porla.cs:179-182 | removes the item's download id with the delete-data flag; it fails if and only if the removal fails |
| PorlaClient.InsertByKeySorted | src/NzbDrone.Core/Download/Clients/Porla/Porla.cs:162 | inserting into a key-sorted sequence keeps it sorted and adds exactly the new entry |
| PorlaClient.SortByKeySortsAndPermutes | src/NzbDrone.Core/Download/Clients/Porla/Porla.cs:162 | `OrderBy(d => d.Key)` gives a key-sorted permutation of the entries |
| PorlaClient.InsertByKeyKeys | src/NzbDrone.Core/Download/Clients/Porla/Porla.cs:162 | insertion adds exactly one key to the multiset of keys |
| PorlaClient.SortByKeyKeys | src/NzbDrone.Core/Download/Clients/Porla/Porla.cs:162-167 | sorting keeps the multiset of keys |
| PorlaClient.PresetOptionsSortedByKey | src/NzbDrone.Core/Download/Clients/Porla/Porla.cs:160-168 | one option per preset, ordered by key, value and name both the key, and the multiset of values is the multiset of keys |
| PorlaClient.DictionaryOf | src/NzbDrone.Core/Download/Clients/Porla/Porla.cs:158-159 | the stored preset dictionary has exactly the presets' keys and, when the keys are distinct, maps each key to its preset |
| PorlaClient.PresetOptionsMatchDictionary | src/NzbDrone.Core/Download/Clients/Porla/Porla.cs:158-167 | a key is in the stored dictionary if and only if it is the value of one of the returned options |
| PorlaClient.Porla.constructor | src/NzbDrone.Core/Download/Clients/Porla/Porla.cs:21-31 | the adapter holds the given settings and path operations (the path-mapping service and the path join) |
| PorlaClient.Porla.GetItems | src/NzbDrone.Core/Download/Clients/Porla/Porla.cs:94-144 | the loop's result, which joins the remapped save path and the name with the path join, equals the as-written filter-then-map listing of the proxy's answer; a null array throws NullReferenceException |
| PorlaClient.Porla.RequestAction | src/NzbDrone.Core/Download/Clients/Porla/Porla.cs:146-172 | presets come with distinct keys, as a dictionary's do. Blank token: empty device list, settings unchanged. "getPresets": stores the presets (null included) and returns sorted options, or throws ArgumentNull on null presets. Otherwise: defers to the base action with unchanged settings |
| BitRateSpecification.EpisodeCount | src/NzbDrone.Core/CustomFormats/Specifications/BitRateSpecification.cs:31 | at least one episode; the number of episode numbers when there are any |
| BitRateSpecification.TotalRuntime | src/NzbDrone.Core/CustomFormats/Specifications/BitRateSpecification.cs:32 | runtime times episode count, exactly, when it fits in an `int` |
| BitRateSpecification.BytesPerHour | src/NzbDrone.Core/CustomFormats/Specifications/BitRateSpecification.cs:34 | throws DivideByZero if and only if the total runtime is 0, and Overflow if and only if it computes long.MinValue / -1; for a non-negative scaled size that does not wrap and a positive runtime it is `60 * size / runtime` |
| BitRateSpecification.IsSatisfiedByWithoutNegate | src/NzbDrone.Core/CustomFormats/Specifications/BitRateSpecification.cs:28-35 | throws exactly when the rate computation throws; otherwise matches if and only if Min < rate <= Max |
| BitRateSpecification.QuotientAbove | src/NzbDrone.Core/CustomFormats/Specifications/BitRateSpecification.cs:34 | for a positive divisor, `s / t > m` if and only if `(m + 1) * t <= s` |
| BitRateSpecification.SatisfiedIffWithinWindow | src/NzbDrone.Core/CustomFormats/Specifications/BitRateSpecification.cs:30-34 | without wrap-around the rule matches if and only if (Min+1)·T <= 60·size < (Max+1)·T, a window with no division |
| BitRateSpecification.WiderWindowKeepsMatch | src/NzbDrone.Core/CustomFormats/Specifications/BitRateSpecification.cs:34 | lowering Min or raising Max never loses a match |
| BitRateSpecification.NoEpisodesCountsAsOne | src/NzbDrone.Core/CustomFormats/Specifications/BitRateSpecification.cs:31 | a release with no episode numbers is rated exactly like a one-episode release |
| BitRateSpecification.ZeroRuntimeThrows | src/NzbDrone.Core/CustomFormats/Specifications/BitRateSpecification.cs:32-34 | a runtime of 0 makes the rule throw DivideByZeroException |
| BitRateSpecification.Validate | src/NzbDrone.Core/CustomFormats/Specifications/BitRateSpecification.cs:7-14 | valid if and only if Min >= 0 and Max > Min; a Min failure exactly when Min < 0; a Max failure exactly when Max <= Min; no other property |

## Left out

- HTTP, JSON and logging: the HTTP client, the JSON-RPC request builder, the
  serializer and the logger are not modelled. What one exchange yields is the
  `daemon` parameter, and the log calls have no effect on results.
- `BuildRequest`: the builder's step-by-step mutation is represented by the
  request it finally describes. The base URL is kept as its four inputs
  (`HttpRequestBuilder.BuildBaseUrl` is not part of this model). The
  `PostProcess` hook is represented by the timeout it sets.
- `Convert.ToBase64String`, `RemapRemoteToLocal`, `ValidHost` and
  `ValidUrlBase` are parameters: they belong to other parts of the
  application.
- PorlaClient.ItemOf: `OsPath` and its `+` operator (which joins a directory
  and a name) are not part of this model. The join is a parameter (`Paths.join`)
  beside `RemapRemoteToLocal`, so the model promises nothing about the
  separator or rooted names.
- `GetPresets`: the proxy in the shown source has no such method. Its result
  (presets, null, or a fault) is a parameter of `RequestAction`.
- `base.RequestAction`: the torrent-client base class is not part of this
  model. Another action returns the `BaseAction` marker.
- Strings: `ToUpper` upper-cases ASCII letters only, and `OrderBy` on keys
  uses ordinal order. Culture-sensitive casing and comparison are not
  modelled.
- Common.StrLe: compares characters, which are Unicode scalar values. .NET's
  ordinal order compares UTF-16 code units, so the two differ for keys with
  characters above U+FFFF (a surrogate pair sorts below U+E000..U+FFFF in
  .NET).
- PorlaProxy.ExecuteRequest: on HTTP 408 the code calls
  `JToken.Parse("{ Code = 2 }")` inside the catch block. That literal is not
  valid JSON, so the parse throws a JSON reader exception, and every proxy call
  that times out throws it; `TestConnection` then reports "Host" with the
  parse error's message as detail. The model uses the evident intent instead:
  an error response with code 2 and no result. TransportFailuresAreWrapped
  (a 408 returns a null result) and TimeoutFailsOnHost (the detail is the
  null-reference message) state that intended reading, not the code.
- PorlaSettings.PortRule: FluentValidation's range message (which also
  reports the value entered) is a parameter (`rangeMessage`).
- PorlaSettings.RegexAccepts: the pattern is matched by a grammar; the .NET
  regex engine itself is not modelled.
- Floating point: ratios and progress are passed through as raw IEEE-754
  bits. `Min.Gigabytes()` and `Max.Gigabytes()` are represented by the byte
  thresholds they produce. `BitRateSpecification.Validate` uses reals, so
  NaN is not modelled.
- `BitRateSpecification.Validate`: FluentValidation's number formatting in
  the Max message is a parameter (`show`).
- `BitRateSpecification.IsSatisfiedByWithoutNegate`: the `Negate` wrapper of
  the base class and null `Series`/`EpisodeInfo` references are not modelled.
  The input is taken as present.
- Torrent `Name` and `SavePath` are taken as non-null strings.
- `GetStatus`, `GetTorrentProperties`, `MoveTorrentToTopInQueue`,
  `ResumeTorrent` and `SetTorrentSeedingConfiguration` only throw
  `NotImplementedException`, so they are not modelled.
- `PauseTorrent` is unused and calls a misspelled method.
  `AddTorrentSeedingFormParameters` is an empty stub. The seed configuration
  argument is always null.
- `DownloadClientInfo` (line 113 of `Porla.cs`) is not modelled: it describes the client
  to the caller and is not derived from the torrent.

## Findings

| source | as written | input that shows it | evidently intended | confidence | as-written member | corrected member |
|---|---|---|---|---|---|---|
| src/NzbDrone.Core/Download/Clients/Porla/Porla.cs:109 | `Hash[0].ToUpper() ?? Hash[1].ToUpper()`: `ToUpper` never returns null, so the v2 fallback is dead, and a null v1 hash throws before `??` | info-hash pair `[null, "abcd"]` (a v2-only torrent): `GetItems` throws NullReferenceException | `Hash[0]?.ToUpper() ?? Hash[1]?.ToUpper()`: the id is "ABCD" | not executed | PorlaClient.DownloadIdAsWritten | PorlaClient.DownloadIdOf |

`GetItems` follows the code as written (`DownloadIdAsWritten`). The corrected
reading (`Intended`, built on `DownloadIdOf`) agrees with it whenever every
torrent has a v1 hash (`ReadingsAgreeOnV1Hashes`) and differs on the input
above (`V2OnlyListingDiffers`).
