/** The records the Porla daemon sends back, as the adapter deserializes them.
    They carry no behaviour; floating-point fields are kept as their raw
    IEEE-754 bits, because the adapter only passes them along. */
module PorlaTypes {
  import opened Common

  datatype Float32 = Float32(bits: bv32)
  datatype Float64 = Float64(bits: bv64)

  /** One torrent of a `torrents.list` reply. `hash` is the `info_hash` pair
      (v1 hash, v2 hash) and is null when the daemon omits it. */
  datatype Torrent = Torrent(
    hash: Option<seq<Option<string>>>,
    name: string,
    size: Int64,
    progress: Float64,
    eta: Int32,            // seconds
    state: Int32,          // 4 = finished, 5 = seeding
    queuePosition: Int32,  // -1 = finished or seeding
    labelText: Option<string>,  // Label
    category: Option<string>,
    savePath: string,
    contentPath: Option<string>,
    ratio: Float32,
    seedingTime: Option<Int64>)

  datatype TorrentFile = TorrentFile(name: Option<string>)

  datatype PorlaVersion = PorlaVersion(version: Option<string>, branch: Option<string>, commitish: Option<string>)

  /** The reply payloads of the calls the adapter makes; each one may itself be
      null, which the enclosing `Option` of a reply expresses. */
  datatype VersionsResponse = VersionsResponse(porla: Option<PorlaVersion>)
  datatype TorrentsResponse = TorrentsResponse(torrents: Option<seq<Torrent>>)
  datatype AddResponse = AddResponse(infoHash: Option<string>)
  datatype FilesResponse = FilesResponse(files: Option<seq<TorrentFile>>)

  datatype PorlaPreset = PorlaPreset(name: Option<string>, downloadLimit: Int32, savePath: Option<string>, category: Option<string>)
}
