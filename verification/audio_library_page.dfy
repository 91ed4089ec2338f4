/**
 * The standalone audio library page: a grid over `/api/audio-assets` that navigates forward
 * only, into folders, keeping the current folder slash-terminated.
 */
module AudioLibraryPage {
  import opened Optional
  import opened Text
  import opened ListingItems
  import AudioAssetsApi

  const InitialFolder: string := "Hedgies_Studios_Audio_Library/"

  /** The folder a click leads to: a folder item's path plus "/", a file leads nowhere. */
  function Destination(current: string, item: Item): (next: string)
    ensures item.kind == Folder ==> EndsWith(next, "/") && next == item.path + "/"
    ensures item.kind == File ==> next == current
  {
    if item.kind == Folder then item.path + "/" else current
  }

  /**
   * Every folder item the endpoint lists for the page's folder leads strictly deeper: the
   * current folder is a proper prefix of the destination.
   */
  lemma NavigationDescends(folder: string, list: string -> ListOutcome, publicUrl: string -> string, i: nat)
    requires var r := AudioAssetsApi.Handle(Some(folder), list, publicUrl);
             r.status == 200 && i < |r.body.items| && r.body.items[i].kind == Folder
    ensures var r := AudioAssetsApi.Handle(Some(folder), list, publicUrl);
            folder < Destination(folder, r.body.items[i])
  {
    var r := AudioAssetsApi.Handle(Some(folder), list, publicUrl);
    var item := r.body.items[i];
    assert item.path == folder + list(folder).data.value[i].name;
    assert Destination(folder, item) == folder + (list(folder).data.value[i].name + "/");
  }

  class LibraryPage {
    /** The grid's items; `None` is the `undefined` an error body leaves (rendering it throws). */
    var items: Option<seq<Item>>
    var currentFolder: string
    var loading: bool

    predicate Valid()
      reads this
    {
      EndsWith(currentFolder, "/")
    }

    constructor()
      ensures Valid()
      ensures items == Some([]) && currentFolder == InitialFolder && loading
    {
      items := Some([]);
      currentFolder := InitialFolder;
      loading := true;
    }

    /** `navigate`: folders are entered, files ignored; there is no way back up. */
    method Navigate(item: Item) returns (reload: bool)
      requires Valid()
      modifies this
      ensures Valid()
      ensures currentFolder == Destination(old(currentFolder), item)
      ensures item.kind == Folder && item.path == old(currentFolder) + item.name ==> old(currentFolder) < currentFolder
      ensures reload <==> currentFolder != old(currentFolder)
      ensures items == old(items) && loading == old(loading)
    {
      var before := currentFolder;
      if item.kind == Folder {
        currentFolder := item.path + "/";
        assert item.path == before + item.name ==> currentFolder == before + (item.name + "/");
      }
      reload := currentFolder != before;
    }

    /** `load`, before the request. */
    method BeginLoad()
      requires Valid()
      modifies this
      ensures Valid()
      ensures loading && items == old(items) && currentFolder == old(currentFolder)
    {
      loading := true;
    }

    /** `load`, after the response: its `items` replace the grid wholesale. */
    method CompleteLoad(body: Body)
      requires Valid()
      modifies this
      ensures Valid()
      ensures !loading && currentFolder == old(currentFolder)
      ensures items == if body.Listing? then Some(body.items) else None
    {
      items := if body.Listing? then Some(body.items) else None;
      loading := false;
    }
  }
}
