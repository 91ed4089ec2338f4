# Hedgies portal: a Dafny model of its core

This project models the logic of the Hedgies Studios portal, a Next.js web application:

- its three API routes:
  - the password gate `/api/auth`;
  - the two storage-listing endpoints `/api/audio-browser` and `/api/audio-assets`;
- the offline script that indexes the audio library into the `audio_assets` table;
- the client components that hold state:
  - the draggable, resizable window frame;
  - the audio library window and the standalone audio library page;
  - the announcements page and its attachment viewer;
  - the calendar window;
  - the mouse trail.

Each source file becomes one Dafny module.

- Pure logic becomes functions, with properties as `ensures` clauses and lemmas. This covers the handlers, the path arithmetic, the category rules, the sort orders and the trail buffer updates.
- A component's state becomes a `class`, with one method per event handler. Each method states its whole new state in terms of those functions.
- A store the code only talks to becomes a function parameter:
  - a storage `list(prefix)` call;
  - a public-URL derivation;
  - a rejected upsert;
  - the `PORTAL_PASSWORD` environment variable.

Shared pieces live in helper modules:

- `Optional`: an option type.
- `Text`: ASCII lower-casing, substring tests, lexicographic order, and `split("/")` / `join("/")` with their round-trip lemmas.
- `Sorting`: an insertion sort proved ordered and a permutation.
- `Sequences`: the subsequence relation that order-keeping filters satisfy.
- `ListingItems`: the entry-to-item mapping both listing endpoints share.

## Model

| member | source | states |
|---|---|---|
| Text.Split | components/AudioLibraryWindow.js:59 | `split("/")`: at least one piece, the pieces between slashes, none of them containing "/" (`Text.SplitSlashFree`) |
| Text.Join | components/AudioLibraryWindow.js:64 | `join("/")`: the pieces with "/" between them; inverse of `Split` by `Text.JoinSplit` and `Text.SplitJoin` |
| Text.NonEmpty | components/AudioLibraryWindow.js:59 | `filter(Boolean)`: exactly the non-empty pieces remain, each as often as in the input (multiset), in input order (subsequence) |
| Text.SplitSlashFree | components/AudioLibraryWindow.js:59 | no piece of `split("/")` contains a slash |
| Text.JoinSplit | components/AudioLibraryWindow.js:59-64 | joining the pieces of `split("/")` with "/" gives back the string |
| Text.SplitJoin | components/AudioLibraryWindow.js:59-64 | splitting a join of one or more slash-free pieces gives back those pieces |
| Text.SplitAppend | scripts/indexAudioLibrary.js:112-117 | splitting `p + "/" + n`, for a slash-free `n`, gives the pieces of `p` followed by `n` |
| Text.Segments | components/AudioLibraryWindow.js:59 | `split("/").filter(Boolean)`: every segment is non-empty and free of slashes |
| Text.NonEmptyKeepsAll | components/AudioLibraryWindow.js:59 | `filter(Boolean)` keeps a list whose pieces are all non-empty unchanged |
| Text.ChildSegments | components/AudioLibraryWindow.js:59 | the non-empty segments of a child path are the parent's segments plus the child's name |
| Text.LexTotal | components/CalendarWindow.js:25 | any two date strings are ordered one way or the other |
| Text.LexTransitive | components/CalendarWindow.js:25 | string order is transitive |
| Text.LowerIdempotent | components/AttachmentViewerModal.js:6 | lower-casing twice is lower-casing once |
| Text.Lower | components/AttachmentViewerModal.js:6 | `toLowerCase` on ASCII: same length; each of 'A'..'Z' becomes the letter at the same place in 'a'..'z'; every other character is kept |
| Text.EndsWith | components/AttachmentViewerModal.js:7 | `endsWith`: the last characters of the string are the suffix |
| Text.Contains | scripts/indexAudioLibrary.js:66-70 | `includes`: defined by a scan from the front |
| Text.ContainsAtOffset | scripts/indexAudioLibrary.js:66-70 | the scan finds the needle exactly when the needle occurs at some offset of the string |
| Sorting.Insert | pages/announcements.js:19-23 | inserting into a sorted list keeps it sorted and adds exactly that element |
| Sorting.Sort | pages/announcements.js:19-23 | the result is sorted by the given order and is a permutation of the input |
| ListingItems.IsFile | pages/api/audio-browser.js:39 | an entry is a file exactly when it has metadata |
| ListingItems.SizeOf | pages/api/audio-browser.js:50 | folders have size 0; missing, null and zero sizes read as 0; otherwise the metadata size |
| ListingItems.ToItem | pages/api/audio-browser.js:38-52 | the path is prefix plus name; an entry is a file iff it has metadata; only files get a URL, the public URL of their path; the size is `SizeOf` the entry, so 0 for folders |
| ListingItems.ToItems | pages/api/audio-assets.js:25-33 | one item per listed entry, in listing order |
| AudioBrowserApi.DecodedPath | pages/api/audio-browser.js:20-21 | a single string value is taken as is; an absent or repeated `path` reads as "" |
| AudioBrowserApi.NormalizePrefix | pages/api/audio-browser.js:24-25 | "" stays ""; a non-empty path ends with "/", appending one only when it was missing |
| AudioBrowserApi.NormalizeIdempotent | pages/api/audio-browser.js:24-25 | normalising a normalised prefix changes nothing |
| AudioBrowserApi.ListedPrefix | pages/api/audio-browser.js:15-27 | storage is listed iff the verb is GET, under the normalised prefix |
| AudioBrowserApi.Handle | pages/api/audio-browser.js:14-60 | 405 "Method not allowed" iff not GET; a GET gets 200 iff the listing succeeds, with the items `ToItems` builds from the entries under the normalised prefix and the decoded path echoed; any other GET gets 500, "Failed to read storage" for a storage error and "Server error" for a thrown one |
| AudioAssetsApi.Folder | pages/api/audio-assets.js:9-13 | the `folder` query, defaulting to the library root folder |
| AudioAssetsApi.Handle | pages/api/audio-assets.js:11-40 | 200 iff the listing succeeds with data, with the items `ToItems` builds from the entries under the folder (URL and size included) and no echoed path; otherwise 500: "Failed to read storage" for a storage error, "Server Error" for a null listing or a thrown error |
| WindowGeometry.PosKeyIsNotSizeKey | components/DraggableResizableWindow.js:8-13 | a position key never equals a size key |
| WindowGeometry.DragTarget | components/DraggableResizableWindow.js:31-34 | the pointer keeps the offset from the window corner it had at mouse-down |
| WindowGeometry.DragAtPressPoint | components/DraggableResizableWindow.js:20-34 | a move back to the press point leaves the window where it was |
| WindowGeometry.Resized | components/DraggableResizableWindow.js:59-65 | each dimension is the recorded size plus the pointer delta, but never below 260 by 220 |
| WindowGeometry.ReplayDrag | components/DraggableResizableWindow.js:28-36 | after a series of moves the position depends only on the last pointer |
| WindowGeometry.ReplayResize | components/DraggableResizableWindow.js:56-69 | after a series of moves the size depends only on the last pointer |
| WindowGeometry.DragOnlyLastPointerMatters | components/DraggableResizableWindow.js:28-36 | two drag sessions ending at the same pointer put the window in the same place |
| WindowGeometry.InitialPos | components/DraggableResizableWindow.js:7-10 | a saved position is used; without one, x is 40 and y is 420 above the viewport bottom |
| WindowGeometry.InitialSize | components/DraggableResizableWindow.js:12-15 | a saved size is used; without one, 360 by 380 |
| WindowGeometry.SavedGeometryReloads | components/DraggableResizableWindow.js:7-15 | the geometry saved under a title is what a window with that title reopens with |
| WindowGeometry.LocalStorage.constructor | components/DraggableResizableWindow.js:8 | the store starts with the given items |
| WindowGeometry.Window.constructor | components/DraggableResizableWindow.js:7-18 | a new window takes its geometry from the store and is neither dragging nor resizing |
| WindowGeometry.Window.StartDrag | components/DraggableResizableWindow.js:20-26 | dragging starts and records the pointer's offset from the corner |
| WindowGeometry.Window.HandleDrag | components/DraggableResizableWindow.js:28-36 | while dragging, the position follows the pointer and is written under the position key only; otherwise nothing changes |
| WindowGeometry.Window.StopDrag | components/DraggableResizableWindow.js:38-40 | dragging stops |
| WindowGeometry.Window.StartResize | components/DraggableResizableWindow.js:45-54 | resizing starts and records the size and the pointer |
| WindowGeometry.Window.HandleResize | components/DraggableResizableWindow.js:56-69 | while resizing, the size is the clamped resize and is written under the size key only |
| WindowGeometry.Window.StopResize | components/DraggableResizableWindow.js:71-73 | resizing stops |
| WindowGeometry.Window.MouseMove | components/DraggableResizableWindow.js:75-80 | both move handlers run; a reload would then restore the geometry just set |
| WindowGeometry.Window.MouseUp | components/DraggableResizableWindow.js:75-80 | both sessions end; the geometry is unchanged |
| AudioLibraryWindow.BackPath | components/AudioLibraryWindow.js:57-66 | the root stays the root; a path with at most one segment goes to the root |
| AudioLibraryWindow.BackDropsLastSegment | components/AudioLibraryWindow.js:59-65 | with two or more segments, Back drops exactly the last one |
| AudioLibraryWindow.OpenThenBack | components/AudioLibraryWindow.js:46-66 | opening a listed folder and pressing Back returns to the folder it was listed in |
| AudioLibraryWindow.Deliver | components/AudioLibraryWindow.js:27-31 | `res.ok` holds iff the status is 2xx |
| AudioLibraryWindow.LoadedItems | components/AudioLibraryWindow.js:31-40 | an OK response's `items`, or none when it has no `items`; none after an error or a failed fetch |
| AudioLibraryWindow.LoadError | components/AudioLibraryWindow.js:31-40 | no error iff OK; a non-OK response shows the server's non-empty message, else "Failed to load audio library"; a failed fetch shows "Failed to connect to audio library." |
| AudioLibraryWindow.LoadShowsEndpointResult | components/AudioLibraryWindow.js:23-44 | a listing served by the browse endpoint shows exactly its items; a storage failure shows its message and no items |
| AudioLibraryWindow.PathLabel | components/AudioLibraryWindow.js:93 | the current path, or "Root (audio-library)" when it is empty |
| AudioLibraryWindow.AudioBrowser.constructor | components/AudioLibraryWindow.js:5-17 | the window starts at the library folder, loading, at (120, 80) |
| AudioLibraryWindow.AudioBrowser.ShowsEmptyMessage | components/AudioLibraryWindow.js:158 | the empty-folder message shows when there are no items, nothing is loading and there is no error |
| AudioLibraryWindow.AudioBrowser.HandleOpen | components/AudioLibraryWindow.js:46-55 | a folder becomes the current path; a file with a URL is previewed; a reload happens iff the path changed |
| AudioLibraryWindow.AudioBrowser.HandleBack | components/AudioLibraryWindow.js:57-66 | the path becomes its parent; a reload happens iff it changed |
| AudioLibraryWindow.AudioBrowser.BeginLoad | components/AudioLibraryWindow.js:24-25 | loading, with the error cleared |
| AudioLibraryWindow.AudioBrowser.CompleteLoad | components/AudioLibraryWindow.js:26-43 | loading ends; items and error come from the outcome; after a fresh start the empty message shows iff the load succeeded with no items |
| AudioLibraryWindow.AudioBrowser.MouseDownTitle | components/AudioLibraryWindow.js:69-77 | dragging starts with the pointer's offset |
| AudioLibraryWindow.AudioBrowser.MouseMove | components/AudioLibraryWindow.js:79-85 | while dragging, the window follows the pointer |
| AudioLibraryWindow.AudioBrowser.MouseUp | components/AudioLibraryWindow.js:87-91 | dragging stops |
| AudioLibraryPage.Destination | pages/audio-library.js:20-24 | a folder leads to its path plus "/"; a file leads nowhere |
| AudioLibraryPage.NavigationDescends | pages/audio-library.js:20-24 | every folder the endpoint lists leads strictly deeper than the current folder |
| AudioLibraryPage.LibraryPage.constructor | pages/audio-library.js:4-6 | the page starts at the library root folder, loading, with no items |
| AudioLibraryPage.LibraryPage.Navigate | pages/audio-library.js:20-24 | the folder stays slash-terminated and only grows; a reload happens iff it changed |
| AudioLibraryPage.LibraryPage.BeginLoad | pages/audio-library.js:13 | loading starts |
| AudioLibraryPage.LibraryPage.CompleteLoad | pages/audio-library.js:14-17 | the response's `items` replace the grid, undefined after an error body |
| AttachmentViewer.IsPdf | components/AttachmentViewerModal.js:6-7 | the lower-cased URL ends with ".pdf" |
| AttachmentViewer.IsImage | components/AttachmentViewerModal.js:6-13 | the lower-cased URL ends with ".png", ".jpg", ".jpeg", ".gif" or ".webp" |
| AttachmentViewer.ClassificationIgnoresCase | components/AttachmentViewerModal.js:6-13 | the PDF and image tests ignore case |
| AttachmentViewer.PdfIsNotImage | components/AttachmentViewerModal.js:7-13 | no URL is both a PDF and an image |
| AttachmentViewer.Render | components/AttachmentViewerModal.js:4-71 | nothing renders iff closed or without a URL; otherwise exactly one preview block renders: the PDF frame iff PDF, the picture iff image |
| AttachmentViewer.Branches | components/AttachmentViewerModal.js:43-57 | of the three preview blocks' conditions, exactly one holds for any URL |
| Announcements.ComesFirst | pages/announcements.js:19-23 | the comparator's "may come first": pinned before unpinned, else the newer one |
| Announcements.ComesFirstIsTotalPreorder | pages/announcements.js:19-23 | the comparator is a consistent total preorder |
| Announcements.SortAnnouncements | pages/announcements.js:18-24 | a permutation; pinned before unpinned; newer first within the same pin status |
| Announcements.TogglePinned | pages/announcements.js:69-75 | every row with the announcement's id gets the negation of the announcement's `pinned`, and every other row is unchanged |
| Announcements.ToggleTwiceRestores | pages/announcements.js:69-75 | toggling from a fresh snapshot twice restores the table |
| Announcements.ToggleFromStaleSnapshot | pages/announcements.js:69-75 | a second toggle from the same stale snapshot is lost |
| Announcements.IsAdminRole | pages/announcements.js:38 | admin controls exactly for the role "admin" |
| Announcements.AnnouncementsPage.constructor | pages/announcements.js:11-16 | the page starts with no announcements, not admin, and the viewer closed |
| Announcements.AnnouncementsPage.Displayed | pages/announcements.js:77 | the rendered list holds exactly the loaded rows (multiset), pinned before unpinned and newer before older among equals |
| Announcements.AnnouncementsPage.ShowsAdminControls | pages/announcements.js:97 | `isAdmin &&`: the admin controls render exactly when the admin flag is set |
| Announcements.AnnouncementsPage.ViewerOpen | pages/announcements.js:193 | `Boolean(attachmentUrl)`: the viewer is open iff the URL is present and non-empty |
| Announcements.AnnouncementsPage.LoadAll | pages/announcements.js:26-48 | a signed-in user's role decides the admin controls; the rows (or none) replace the list |
| Announcements.AnnouncementsPage.ViewAttachment | pages/announcements.js:161-170 | the viewer opens on the URL and renders iff the URL is non-empty |
| Announcements.AnnouncementsPage.CloseAttachment | pages/announcements.js:192-196 | the URL is cleared and the viewer renders nothing |
| Calendar.IsAdmin | components/CalendarWindow.js:13-16 | the role is "admin", "director" or "founder" |
| Calendar.VisibleTo | components/CalendarWindow.js:24 | the query filter: created by the user, or global |
| Calendar.CanDelete | components/CalendarWindow.js:125 | the delete control shows for admins, and for the creator of the event |
| Calendar.NonAdminDeletesExactlyOwn | components/CalendarWindow.js:125 | for a non-admin, every fetched event with a delete control is their own, and every own event of the table is fetched with one |
| Calendar.Visible | components/CalendarWindow.js:24 | exactly the user's own and the global events, each as often as in the table |
| Calendar.DateOrder | components/CalendarWindow.js:25 | `order("date", ascending)`: an event may precede another iff its date string is not greater (shown a total preorder by `Calendar.DateOrderIsTotalPreorder`) |
| Calendar.DateOrderIsTotalPreorder | components/CalendarWindow.js:25 | date order is a consistent total preorder |
| Calendar.Requested | components/CalendarWindow.js:20-27 | own and global events only, all of them, in ascending date order |
| Calendar.DeleteFrom | components/CalendarWindow.js:54-56 | every row with the id goes; every other row stays |
| Calendar.DeletedEventNotFetched | components/CalendarWindow.js:54-56 | the next fetch no longer lists the deleted event and keeps every other visible one |
| Calendar.CalendarWindow.constructor | components/CalendarWindow.js:7-10 | no events and empty inputs |
| Calendar.CalendarWindow.FetchEvents | components/CalendarWindow.js:19-31 | the events become the requested ones, or none when the query fails |
| Calendar.CalendarWindow.CreateEvent | components/CalendarWindow.js:40-52 | without a title or a date nothing happens; otherwise the event is inserted, global iff admin, and both inputs clear; the shown list is not refreshed |
| Calendar.CreatedEventVisibility | components/CalendarWindow.js:40-48 | a created event is visible to and deletable by its creator, and visible to others iff the creator is an admin |
| AuthApi.PortalKey | pages/api/auth.js:11 | never empty; the environment value when set and non-empty, else the default |
| AuthApi.Handle | pages/api/auth.js:6-34 | POST: 200 with the session cookie iff the password equals the key, else 401; GET: 200 iff the session cookie is present and non-empty, else 401; anything else: 405 |
| AuthApi.Accept | pages/api/auth.js:14-20 | the jar holds the new cookie, keeps every other one, and gains no other name |
| AuthApi.LoginThenCheck | pages/api/auth.js:9-30 | after a successful login, a GET carrying the issued cookie passes |
| MouseTrail.Appended | components/MouseTrail.js:13-17 | at most 24 points ending with the new one; below 24 the point is appended, otherwise the oldest ones go |
| MouseTrail.FullBufferDropsOldest | components/MouseTrail.js:14-16 | with a full buffer a move drops exactly the oldest point |
| MouseTrail.Fresh | components/MouseTrail.js:31 | exactly the points younger than 260 ms remain, each as often as before, in their old order |
| MouseTrail.FreshKeepsOrder | components/MouseTrail.js:31 | pruning keeps arrival order |
| MouseTrail.AppendedKeepsOrder | components/MouseTrail.js:14-16 | appending a point no older than the buffer keeps arrival order |
| MouseTrail.Trail.constructor | components/MouseTrail.js:5 | the trail starts empty |
| MouseTrail.Trail.HandleMove | components/MouseTrail.js:11-17 | the buffer becomes the appended buffer and stays within 24 points |
| MouseTrail.Trail.Tick | components/MouseTrail.js:28-31 | only fresh points remain; the buffer never grows |
| AudioIndexer.FirstMatchIsFirst | scripts/indexAudioLibrary.js:64-72 | no category iff no rule matches; otherwise the category of the first matching rule |
| AudioIndexer.RulesInOrder | scripts/indexAudioLibrary.js:64-72 | the rule table tried in order is the if-chain |
| AudioIndexer.InferCategory | scripts/indexAudioLibrary.js:64-72 | the category is the first match of the rule table on the lower-cased name |
| AudioIndexer.InferCategoryIgnoresCase | scripts/indexAudioLibrary.js:65 | names equal up to case get the same category |
| AudioIndexer.IsFolderEntry | scripts/indexAudioLibrary.js:46 | a folder entry has a name and no `id` field at all |
| AudioIndexer.IsFileEntry | scripts/indexAudioLibrary.js:61 | a file entry has a non-empty `id` |
| AudioIndexer.EntryKinds | scripts/indexAudioLibrary.js:46-61 | no entry is both; an entry whose `id` is null or empty is neither |
| AudioIndexer.FolderEntries | scripts/indexAudioLibrary.js:45-46 | the folder entries of the listing, each as often as listed, in listing order |
| AudioIndexer.ListFolders | scripts/indexAudioLibrary.js:34-48 | the names of the folder entries, one per entry, in listing order; a null listing gives none |
| AudioIndexer.ListFiles | scripts/indexAudioLibrary.js:50-62 | the listed entries with a non-empty id, each as often as listed, in listing order; none is a folder |
| AudioIndexer.SizeBytes | scripts/indexAudioLibrary.js:82 | the metadata size when defined, even 0; otherwise null |
| AudioIndexer.RowFor | scripts/indexAudioLibrary.js:74-95 | the bucket is the audio bucket, the storage path is the pack prefix plus the file name, the file name and pack are the listed ones, the library group is fixed, the category comes from the pack name and the size from the metadata |
| AudioIndexer.PackPrefix | scripts/indexAudioLibrary.js:112 | `${BASE_PREFIX}/${pack}`; `AudioIndexer.StoragePathSegments` splits it back |
| AudioIndexer.StoragePathSegments | scripts/indexAudioLibrary.js:112-117 | a row's path splits into the base folders, the pack and the file name |
| AudioIndexer.RecordedSizeAgreesWithListedSize | scripts/indexAudioLibrary.js:82 | the indexed size (`?? null`) equals the endpoints' size (`metadata?.size` or 0) wherever it is recorded; where it is null the endpoints report 0; a non-zero endpoint size is always recorded |
| AudioIndexer.RowsOf | scripts/indexAudioLibrary.js:116-119 | one row per file, in order |
| AudioIndexer.Plan | scripts/indexAudioLibrary.js:108-120 | the rows the run upserts, pack by pack in listing order, stopping at the first pack whose listing fails |
| AudioIndexer.PlannedRowsBelongToPacks | scripts/indexAudioLibrary.js:108-120 | every row written belongs to a listed pack and is keyed by its own file's path |
| AudioIndexer.Upserted | scripts/indexAudioLibrary.js:84-101 | the table after the upserts in order, each row replacing the one at its storage path, a rejected one skipped |
| AudioIndexer.UpsertedOverrides | scripts/indexAudioLibrary.js:84-95 | upserting overrides the old table by the new rows' keys |
| AudioIndexer.UpsertIdempotent | scripts/indexAudioLibrary.js:84-95 | re-running the same upserts changes nothing |
| AudioIndexer.UpsertedKeyedByPath | scripts/indexAudioLibrary.js:94 | a table keyed by storage path stays keyed by storage path |
| AudioIndexer.UpsertedConcat | scripts/indexAudioLibrary.js:111-120 | two batches of upserts in a row are the upsert of both |
| AudioIndexer.PlanStep | scripts/indexAudioLibrary.js:111-120 | a listed pack extends the run by its rows |
| AudioIndexer.PlanStops | scripts/indexAudioLibrary.js:113 | a failed pack listing stops the run there |
| AudioIndexer.AssetsTable.constructor | scripts/indexAudioLibrary.js:84 | the table starts with the given rows |
| AudioIndexer.AssetsTable.Upsert | scripts/indexAudioLibrary.js:84-101 | the row replaces the one at its storage path, unless the upsert is rejected |
| AudioIndexer.Run | scripts/indexAudioLibrary.js:104-123 | a failed base listing writes nothing; otherwise the table is the old one with the planned rows upserted, and the run succeeds iff no pack listing failed |

## Left out

- Only the ASCII range of `toLowerCase` is modelled; other characters are left as they are.
- `JSON.parse` of the window geometry is not modelled: a stored value is either a position or a size. A value of the wrong shape falls back to the default, where JavaScript would use the object as it is. Malformed JSON, which throws in the source, is not modelled.
- React render timing is not modelled. Each asynchronous load is split into a begin method and a completion method that run one after the other. Interleaved loads are possible but not guarded against, in the model as in the source.
- Calendar dates are the ISO text of a date input, compared as strings. Announcement timestamps are integers in milliseconds.
- Mouse-trail timestamps are modelled as whole milliseconds. `performance.now()` returns fractional values, and the 260 ms test is the same on integers.
- Announcements.SortAnnouncements: does not state that ties keep their input order. `Array.prototype.sort` is stable, but the model's sort is not proved stable.
- The calendar's `profile` is assumed present; the source would throw on a null profile when it reads `profile.id`.
- The auth handler's `password` is modelled as an optional string. A non-string body value is not modelled.
- The audio-assets endpoint's `folder` query is modelled as an optional string. A repeated `folder` parameter, which arrives as an array, is not modelled.
- The cookie library's `serialize` and `parse` are treated as exact inverses over a name-to-value map (RFC 6265 sections 4.1 and 4.2).
- The US holiday lookup in the calendar window is not modelled. It calls an external library and has no logic of its own.
- The list/grid view-mode toggle, the KB size formatting and the trail's visual fading are not modelled. They are presentation only and use floating point.
- The registration and removal of event listeners is not modelled; the classes' methods are the handlers themselves.
- `process.exit` in the indexer is not modelled. A failed run returns `false`, and the upserts already done are kept.
- The indexer's environment-variable check at startup is not modelled.
- The Supabase client is not modelled. Storage listings, public URLs and upsert rejections are function parameters. The listing's `limit: 2000` cap and its name ordering belong to the store.
- A fetch that rejects on the standalone audio library page leaves it loading. Rendering the page after an error body, where `items` is undefined, would throw. The model records that state as `None` and does not model the crash.
- The create, edit and delete announcement modals and the realtime subscription that reloads the page are not modelled; the model keeps the reload they trigger (`LoadAll`).
