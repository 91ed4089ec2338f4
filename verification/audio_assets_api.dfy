/**
 * `GET /api/audio-assets?folder=...`: lists one folder of the `audio-library` bucket, by
 * default the library's root folder. The folder is used as given, with no slash handling.
 */
module AudioAssetsApi {
  import opened Optional
  import opened ListingItems

  const RootFolder: string := "Hedgies_Studios_Audio_Library/"

  /** `const { folder = ROOT_FOLDER } = req.query`. */
  function Folder(query: Option<string>): (folder: string)
    ensures query.None? ==> folder == RootFolder
    ensures query.Some? ==> folder == query.value
  {
    query.GetOr(RootFolder)
  }

  /**
   * The handler (any method). `data.map` on a null listing throws inside the `try`, which
   * yields the generic 500.
   */
  function Handle(query: Option<string>, list: string -> ListOutcome, publicUrl: string -> string): (r: Response)
    ensures r.status == 200 <==> list(Folder(query)).Listed? && list(Folder(query)).data.Some?
    ensures r.status != 200 ==> r.status == 500 && r.body.Failure?
    ensures r.status == 500 ==>
      r.body.message == (if list(Folder(query)).StorageError? then "Failed to read storage" else "Server Error")
    ensures r.status == 200 ==>
      var folder := Folder(query);
      var entries := list(folder).data.value;
      && r.body.Listing? && r.body.echoedPath.None?
      && r.body.items == ToItems(folder, entries, publicUrl)
  {
    var folder := Folder(query);
    match list(folder)
    case StorageError => Response(500, Failure("Failed to read storage"))
    case Threw => Response(500, Failure("Server Error"))
    case Listed(data) =>
      if data.None? then Response(500, Failure("Server Error"))
      else Response(200, Listing(ToItems(folder, data.value, publicUrl), None))
  }
}
