/**
 * What the two listing endpoints (`/api/audio-browser`, `/api/audio-assets`) share: the raw
 * entry a storage `list(prefix)` call returns, the item each endpoint builds from it, and the
 * JSON response. The storage's public-URL derivation is an opaque function of the path.
 */
module ListingItems {
  import opened Optional

  /** Object metadata; `size` may be absent. Folders carry no metadata at all. */
  datatype Metadata = Metadata(size: Option<int>)

  /** One raw entry of a storage listing. */
  datatype Entry = Entry(name: string, metadata: Option<Metadata>)

  /** The outcome of a storage `list(prefix)` call: `{ data, error }`, or a rejected promise. */
  datatype ListOutcome =
    | Listed(data: Option<seq<Entry>>)
    | StorageError
    | Threw

  datatype Kind = File | Folder

  /** `{ name, path, type, size, url }` as the endpoints return it. */
  datatype Item = Item(name: string, path: string, kind: Kind, size: int, url: Option<string>)

  /** A response body: a listing (audio-browser also echoes the requested path) or an error. */
  datatype Body =
    | Listing(items: seq<Item>, echoedPath: Option<string>)
    | Failure(message: string)

  datatype Response = Response(status: int, body: Body)

  /** `!!item.metadata`: an entry is a file exactly when it has metadata. */
  predicate IsFile(e: Entry) {
    e.metadata.Some?
  }

  /** `item.metadata?.size || 0`: a missing, null or zero size all read as 0. */
  function SizeOf(e: Entry): (n: int)
    ensures !IsFile(e) ==> n == 0
    ensures n != 0 <==> (IsFile(e) && e.metadata.value.size.Some? && e.metadata.value.size.value != 0)
    ensures n != 0 ==> n == e.metadata.value.size.value
  {
    match e.metadata
    case None => 0
    case Some(m) => m.size.GetOr(0)
  }

  /** The item one endpoint builds from one entry listed under `prefix`. */
  function ToItem(prefix: string, e: Entry, publicUrl: string -> string): (it: Item)
    ensures it.name == e.name && it.path == prefix + e.name
    ensures it.kind == File <==> IsFile(e)
    ensures it.url.Some? <==> it.kind == File
    ensures it.url.Some? ==> it.url.value == publicUrl(it.path)
    ensures it.kind == Folder ==> it.size == 0
    ensures it.size == SizeOf(e)
  {
    var path := prefix + e.name;
    Item(e.name, path,
         if IsFile(e) then File else Folder,
         SizeOf(e),
         if IsFile(e) then Some(publicUrl(path)) else None)
  }

  /** `data.map(...)`: one item per entry, in the order the store returned them. */
  function ToItems(prefix: string, entries: seq<Entry>, publicUrl: string -> string): (items: seq<Item>)
    ensures |items| == |entries|
    ensures forall i :: 0 <= i < |entries| ==> items[i] == ToItem(prefix, entries[i], publicUrl)
  {
    seq(|entries|, i requires 0 <= i < |entries| => ToItem(prefix, entries[i], publicUrl))
  }
}
