/**
 * `GET /api/audio-browser?path=...`: lists one level of the `audio-library` bucket.
 * The query value is normalised into a listing prefix; each raw entry becomes an item whose
 * path is the prefix followed by the entry name.
 */
module AudioBrowserApi {
  import opened Optional
  import opened Text
  import opened ListingItems

  /** The `path` query parameter: absent, one string, or several values (not a string). */
  datatype Query = Absent | Single(s: string) | Repeated(values: seq<string>)

  /** `const { path = "" } = req.query; typeof path === "string" ? path : ""`. */
  function DecodedPath(q: Query): (path: string)
    ensures q.Single? ==> path == q.s
    ensures !q.Single? ==> path == ""
  {
    match q
    case Single(s) => s
    case _ => ""
  }

  /** The storage prefix: empty stays empty, anything else ends with exactly the slash it had or one more. */
  function NormalizePrefix(path: string): (prefix: string)
    ensures path == "" <==> prefix == ""
    ensures path != "" ==> EndsWith(prefix, "/")
    ensures EndsWith(path, "/") ==> prefix == path
    ensures path != "" && !EndsWith(path, "/") ==> prefix == path + "/"
  {
    if path == "" then "" else if EndsWith(path, "/") then path else path + "/"
  }

  /** Normalising a prefix again changes nothing. */
  lemma NormalizeIdempotent(path: string)
    ensures NormalizePrefix(NormalizePrefix(path)) == NormalizePrefix(path)
  {
  }

  /** The prefix the handler asks the store to list, if it lists at all. */
  function ListedPrefix(verb: string, q: Query): (prefix: Option<string>)
    ensures prefix.Some? <==> verb == "GET"
    ensures prefix.Some? ==> prefix.value == NormalizePrefix(DecodedPath(q))
  {
    if verb != "GET" then None else Some(NormalizePrefix(DecodedPath(q)))
  }

  /** The handler for an HTTP `verb`: `list` stands for the bucket's `list(prefix)` sorted by name, ascending. */
  function Handle(verb: string, q: Query, list: string -> ListOutcome, publicUrl: string -> string): (r: Response)
    ensures r.status == 405 <==> verb != "GET"
    ensures verb != "GET" ==> r.body == Failure("Method not allowed")
    ensures r.status == 200 <==> verb == "GET" && list(NormalizePrefix(DecodedPath(q))).Listed?
    ensures r.status != 200 ==> r.body.Failure?
    ensures verb == "GET" && !list(NormalizePrefix(DecodedPath(q))).Listed? ==> r.status == 500
    ensures r.status == 500 ==>
      r.body.message == (if list(NormalizePrefix(DecodedPath(q))).StorageError? then "Failed to read storage" else "Server error")
    ensures r.status == 200 ==>
      var prefix := NormalizePrefix(DecodedPath(q));
      var entries := list(prefix).data.GetOr([]);
      && r.body.Listing?
      && r.body.echoedPath == Some(DecodedPath(q))
      && r.body.items == ToItems(prefix, entries, publicUrl)
  {
    if verb != "GET" then Response(405, Failure("Method not allowed"))
    else
      var decoded := DecodedPath(q);
      var prefix := NormalizePrefix(decoded);
      match list(prefix)
      case StorageError => Response(500, Failure("Failed to read storage"))
      case Threw => Response(500, Failure("Server error"))
      case Listed(data) =>
        Response(200, Listing(ToItems(prefix, data.GetOr([]), publicUrl), Some(decoded)))
  }
}
