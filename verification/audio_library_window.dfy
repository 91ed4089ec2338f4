/**
 * The audio library window: a fixed-size, draggable pane that walks the `audio-library`
 * bucket one folder at a time through `/api/audio-browser`, with a Back button and an
 * audio preview for a selected file.
 */
module AudioLibraryWindow {
  import opened Optional
  import opened Text
  import opened ListingItems
  import opened WindowGeometry
  import AudioBrowserApi

  const InitialPath: string := "Hedgies_Studios_Audio_Library"
  const Width: int := 900
  const Height: int := 520
  const InitialPosition: Point := Point(120, 80)
  const LoadFailedText: string := "Failed to load audio library"
  const ConnectFailedText: string := "Failed to connect to audio library."
  const RootLabel: string := "Root (audio-library)"

  // ---------------------------------------------------------------------------
  // Back navigation
  // ---------------------------------------------------------------------------

  /** `handleBack`: the parent of `current` (drop the last non-empty segment); the root stays put. */
  function BackPath(current: string): (parent: string)
    ensures current == "" ==> parent == ""
    ensures |Segments(current)| <= 1 ==> parent == ""
  {
    if current == "" then current
    else
      var parts := Segments(current);
      if |parts| <= 1 then "" else Join(parts[..|parts| - 1])
  }

  /** Back from a path with two or more segments drops exactly the last one. */
  lemma BackDropsLastSegment(current: string)
    requires |Segments(current)| >= 2
    ensures var parts := Segments(current);
            Segments(BackPath(current)) == parts[..|parts| - 1]
    ensures |Segments(BackPath(current))| == |Segments(current)| - 1
  {
    var parts := Segments(current);
    var parent := parts[..|parts| - 1];
    SplitSlashFree(current);
    NonEmptySlashFree(Split(current));
    assert SlashFree(parent) by {
      assert forall i :: 0 <= i < |parent| ==> parent[i] == parts[i];
    }
    assert forall i :: 0 <= i < |parent| ==> parent[i] != "" by {
      assert forall i :: 0 <= i < |parent| ==> parent[i] == parts[i];
    }
    SegmentsOfJoin(parent);
  }

  /**
   * Round trip with the listing endpoint: opening the folder `name` listed under `p`
   * (whose path the endpoint reports as its normalised prefix plus `name`) and then
   * pressing Back returns to `p`, for the root and for every path without empty segments.
   */
  lemma OpenThenBack(p: string, name: string)
    requires p == "" || WellFormedPath(p)
    requires name != "" && '/' !in name
    ensures BackPath(AudioBrowserApi.NormalizePrefix(p) + name) == p
  {
    if p == "" {
      SplitWithoutSlash(name);
      NonEmptyKeepsAll([name]);
      assert AudioBrowserApi.NormalizePrefix(p) + name == name;
    } else {
      WellFormedNoTrailingSlash(p);
      assert AudioBrowserApi.NormalizePrefix(p) + name == p + "/" + name;
      ChildSegments(p, name);
      var parts := Split(p) + [name];
      assert parts[..|parts| - 1] == Split(p);
      JoinSplit(p);
    }
  }

  // ---------------------------------------------------------------------------
  // Loading a folder
  // ---------------------------------------------------------------------------

  /** What `fetch` + `res.json()` produced: a response (status OK or not), or a thrown error. */
  datatype FetchOutcome =
    | Responded(ok: bool, errorField: Option<string>, itemsField: Option<seq<Item>>)
    | Failed

  /** What the window receives for a listing response of the endpoint. */
  function Deliver(r: Response): (o: FetchOutcome)
    ensures o.Responded?
    ensures o.ok <==> 200 <= r.status < 300
  {
    match r.body
    case Listing(items, _) => Responded(200 <= r.status < 300, None, Some(items))
    case Failure(message) => Responded(200 <= r.status < 300, Some(message), None)
  }

  /** The items shown after a load. */
  function LoadedItems(o: FetchOutcome): (items: seq<Item>)
    ensures !(o.Responded? && o.ok) ==> items == []
    ensures o.Responded? && o.ok && o.itemsField.Some? ==> items == o.itemsField.value
    ensures o.Responded? && o.ok && o.itemsField.None? ==> items == []
  {
    if o.Responded? && o.ok then o.itemsField.GetOr([]) else []
  }

  /** The error shown after a load: the server's message if it gave a non-empty one, else a fixed text. */
  function LoadError(o: FetchOutcome): (e: Option<string>)
    ensures e.None? <==> o.Responded? && o.ok
    ensures e.Some? ==> e.value != ""
    ensures o.Failed? ==> e == Some(ConnectFailedText)
    ensures o.Responded? && !o.ok && o.errorField.Some? && o.errorField.value != "" ==> e == o.errorField
    ensures o.Responded? && !o.ok && !(o.errorField.Some? && o.errorField.value != "") ==> e == Some(LoadFailedText)
  {
    match o
    case Failed => Some(ConnectFailedText)
    case Responded(ok, err, _) =>
      if ok then None
      else if err.Some? && err.value != "" then err
      else Some(LoadFailedText)
  }

  /**
   * End to end: a folder listing served by the endpoint shows exactly the endpoint's items,
   * and a storage failure shows the endpoint's message with no items.
   */
  lemma LoadShowsEndpointResult(path: string, list: string -> ListOutcome, publicUrl: string -> string)
    ensures var prefix := AudioBrowserApi.NormalizePrefix(path);
            var o := Deliver(AudioBrowserApi.Handle("GET", AudioBrowserApi.Single(path), list, publicUrl));
            && (list(prefix).Listed? ==>
                  LoadError(o).None? && LoadedItems(o) == ToItems(prefix, list(prefix).data.GetOr([]), publicUrl))
            && (list(prefix).StorageError? ==>
                  LoadError(o) == Some("Failed to read storage") && LoadedItems(o) == [])
  {
  }

  /** `pathLabel`: the current path, or a fixed label at the root. */
  function PathLabel(path: string): (shown: string)
    ensures shown != ""
    ensures path != "" ==> shown == path
    ensures path == "" ==> shown == RootLabel
  {
    if path == "" then RootLabel else path
  }

  // ---------------------------------------------------------------------------
  // The stateful component
  // ---------------------------------------------------------------------------

  class AudioBrowser {
    var currentPath: string
    var items: seq<Item>
    var loading: bool
    var error: Option<string>
    var previewUrl: Option<string>
    var previewName: string
    var position: Point
    var dragging: bool
    var dragOffset: Point

    /** Mount: at the library root folder, loading, nothing previewed. */
    constructor()
      ensures currentPath == InitialPath && items == [] && loading && error.None?
      ensures previewUrl.None? && previewName == ""
      ensures position == InitialPosition && !dragging && dragOffset == Point(0, 0)
    {
      currentPath := InitialPath;
      items := [];
      loading := true;
      error := None;
      previewUrl := None;
      previewName := "";
      position := InitialPosition;
      dragging := false;
      dragOffset := Point(0, 0);
    }

    /** "No files or folders here yet." is shown. */
    predicate ShowsEmptyMessage()
      reads this
    {
      |items| == 0 && !loading && error.None?
    }

    /** `handleOpen`: a folder navigates; a file with a url is previewed; anything else is ignored. */
    method HandleOpen(item: Item) returns (reload: bool)
      modifies this
      ensures item.kind == Folder ==> currentPath == item.path
      ensures item.kind == Folder ==> previewUrl == old(previewUrl) && previewName == old(previewName)
      ensures item.kind == File && item.url.Some? && item.url.value != "" ==>
                currentPath == old(currentPath) && previewUrl == item.url && previewName == item.name
      ensures item.kind == File && !(item.url.Some? && item.url.value != "") ==>
                currentPath == old(currentPath) && previewUrl == old(previewUrl) && previewName == old(previewName)
      ensures reload <==> currentPath != old(currentPath)
      ensures items == old(items) && loading == old(loading) && error == old(error)
      ensures position == old(position) && dragging == old(dragging) && dragOffset == old(dragOffset)
    {
      var before := currentPath;
      if item.kind == Folder {
        currentPath := item.path;
      } else if item.url.Some? && item.url.value != "" {
        previewUrl := item.url;
        previewName := item.name;
      }
      reload := currentPath != before;
    }

    /** `handleBack`. */
    method HandleBack() returns (reload: bool)
      modifies this
      ensures currentPath == BackPath(old(currentPath))
      ensures reload <==> currentPath != old(currentPath)
      ensures items == old(items) && loading == old(loading) && error == old(error)
      ensures previewUrl == old(previewUrl) && previewName == old(previewName)
      ensures position == old(position) && dragging == old(dragging) && dragOffset == old(dragOffset)
    {
      var before := currentPath;
      if currentPath == "" {
        return false;
      }
      var parts := Segments(currentPath);
      if |parts| <= 1 {
        currentPath := "";
      } else {
        currentPath := Join(parts[..|parts| - 1]);
      }
      reload := currentPath != before;
    }

    /** `loadFolder`, before the request: loading, error cleared. */
    method BeginLoad()
      modifies this
      ensures loading && error.None?
      ensures currentPath == old(currentPath) && items == old(items)
      ensures previewUrl == old(previewUrl) && previewName == old(previewName)
      ensures position == old(position) && dragging == old(dragging) && dragOffset == old(dragOffset)
    {
      loading := true;
      error := None;
    }

    /**
     * `loadFolder`, after the request settles (the `finally` clears `loading`). A success
     * leaves `error` as it was: `BeginLoad` cleared it, unless another load interleaved.
     */
    method CompleteLoad(o: FetchOutcome)
      modifies this
      ensures !loading
      ensures items == LoadedItems(o)
      ensures error == if LoadError(o).None? then old(error) else LoadError(o)
      ensures old(error).None? ==> (ShowsEmptyMessage() <==> o.Responded? && o.ok && LoadedItems(o) == [])
      ensures currentPath == old(currentPath)
      ensures previewUrl == old(previewUrl) && previewName == old(previewName)
      ensures position == old(position) && dragging == old(dragging) && dragOffset == old(dragOffset)
    {
      match o {
        case Failed =>
          error := Some(ConnectFailedText);
          items := [];
        case Responded(ok, err, its) =>
          if !ok {
            error := Some(if err.Some? && err.value != "" then err.value else LoadFailedText);
            items := [];
          } else {
            items := its.GetOr([]);
          }
      }
      loading := false;
    }

    /** Mouse-down on the title bar: start dragging from here. */
    method MouseDownTitle(pointer: Point)
      modifies this
      ensures dragging && dragOffset == Offset(position, pointer)
      ensures position == old(position)
      ensures currentPath == old(currentPath) && items == old(items) && loading == old(loading) && error == old(error)
      ensures previewUrl == old(previewUrl) && previewName == old(previewName)
    {
      dragging := true;
      dragOffset := Offset(position, pointer);
    }

    /** Mouse-move: follow the pointer while dragging. */
    method MouseMove(pointer: Point)
      modifies this
      ensures old(dragging) ==> position == DragTarget(dragOffset, pointer)
      ensures !old(dragging) ==> position == old(position)
      ensures dragging == old(dragging) && dragOffset == old(dragOffset)
      ensures currentPath == old(currentPath) && items == old(items) && loading == old(loading) && error == old(error)
      ensures previewUrl == old(previewUrl) && previewName == old(previewName)
    {
      if !dragging {
        return;
      }
      position := DragTarget(dragOffset, pointer);
    }

    /** Mouse-up: stop dragging. */
    method MouseUp()
      modifies this
      ensures !dragging
      ensures position == old(position) && dragOffset == old(dragOffset)
      ensures currentPath == old(currentPath) && items == old(items) && loading == old(loading) && error == old(error)
      ensures previewUrl == old(previewUrl) && previewName == old(previewName)
    {
      dragging := false;
    }
  }
}
