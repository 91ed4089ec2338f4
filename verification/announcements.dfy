/**
 * The announcements page: the feed sorted pinned-first then newest-first, a pin toggle
 * for admins, and the attachment viewer it opens.
 */
module Announcements {
  import opened Optional
  import opened Sorting
  import AttachmentViewer

  /** A row of the `announcements` table; `createdAt` is the timestamp in milliseconds. */
  datatype Announcement = Announcement(id: int, title: string, pinned: bool, createdAt: int, fileUrl: Option<string>)

  /** The signed-in user, if any, with the `role` of their profile row (if there is one). */
  datatype Session = SignedOut | SignedIn(role: Option<string>)

  /** The comparator's "a may come before b": pinned first, then newer first. */
  predicate ComesFirst(a: Announcement, b: Announcement) {
    (a.pinned && !b.pinned) || (a.pinned == b.pinned && a.createdAt >= b.createdAt)
  }

  lemma ComesFirstIsTotalPreorder()
    ensures Total(ComesFirst) && Transitive(ComesFirst)
  {
  }

  /** `sortAnnouncements`: a sorted copy; the argument itself is a value and stays as it was. */
  function SortAnnouncements(list: seq<Announcement>): (r: seq<Announcement>)
    ensures multiset(r) == multiset(list)
    ensures forall i, j :: 0 <= i < j < |r| && r[j].pinned ==> r[i].pinned
    ensures forall i, j :: 0 <= i < j < |r| && r[i].pinned == r[j].pinned ==> r[i].createdAt >= r[j].createdAt
  {
    ComesFirstIsTotalPreorder();
    Sort(list, ComesFirst)
  }

  /** `togglePinned(a)` on the table: rows with `a`'s id get the negation of `a.pinned`. */
  function TogglePinned(rows: seq<Announcement>, a: Announcement): (r: seq<Announcement>)
    ensures |r| == |rows|
    ensures forall i :: 0 <= i < |rows| ==> r[i].id == rows[i].id
    ensures forall i :: 0 <= i < |rows| && rows[i].id == a.id ==> r[i] == rows[i].(pinned := !a.pinned)
    ensures forall i :: 0 <= i < |rows| && rows[i].id != a.id ==> r[i] == rows[i]
  {
    seq(|rows|, i requires 0 <= i < |rows| => if rows[i].id == a.id then rows[i].(pinned := !a.pinned) else rows[i])
  }

  /** Toggling from a current snapshot and then from the reloaded row restores the table. */
  lemma ToggleTwiceRestores(rows: seq<Announcement>, a: Announcement)
    requires forall i :: 0 <= i < |rows| && rows[i].id == a.id ==> rows[i].pinned == a.pinned
    ensures TogglePinned(TogglePinned(rows, a), a.(pinned := !a.pinned)) == rows
  {
    var once := TogglePinned(rows, a);
    var twice := TogglePinned(once, a.(pinned := !a.pinned));
    assert forall i :: 0 <= i < |rows| ==> twice[i] == rows[i];
  }

  /** Two toggles from the same stale snapshot write the same value: the second one is lost. */
  lemma ToggleFromStaleSnapshot(rows: seq<Announcement>, a: Announcement)
    ensures TogglePinned(TogglePinned(rows, a), a) == TogglePinned(rows, a)
  {
    var once := TogglePinned(rows, a);
    assert forall i :: 0 <= i < |rows| ==> TogglePinned(once, a)[i] == once[i];
  }

  /** `profile?.role === "admin"`. */
  predicate IsAdminRole(role: Option<string>) {
    role == Some("admin")
  }

  class AnnouncementsPage {
    var announcements: seq<Announcement>
    var isAdmin: bool
    var attachmentUrl: Option<string>

    constructor()
      ensures announcements == [] && !isAdmin && attachmentUrl.None?
    {
      announcements := [];
      isAdmin := false;
      attachmentUrl := None;
    }

    /** The list as rendered: the loaded rows, pinned first, then newest first. */
    function Displayed(): (shown: seq<Announcement>)
      reads this
      ensures multiset(shown) == multiset(announcements)
      ensures forall i, j :: 0 <= i < j < |shown| && shown[j].pinned ==> shown[i].pinned
      ensures forall i, j :: 0 <= i < j < |shown| && shown[i].pinned == shown[j].pinned ==> shown[i].createdAt >= shown[j].createdAt
    {
      SortAnnouncements(announcements)
    }

    /** Whether the create, pin, edit and delete controls render. */
    predicate ShowsAdminControls()
      reads this
    {
      isAdmin
    }

    /** Whether the attachment viewer is open: `Boolean(attachmentUrl)`. */
    predicate ViewerOpen()
      reads this
    {
      attachmentUrl.Some? && attachmentUrl.value != ""
    }

    /**
     * `loadAll`: a signed-in user's role decides `isAdmin` (signed out, it keeps its value);
     * the table's rows replace the list.
     */
    method LoadAll(session: Session, data: Option<seq<Announcement>>)
      modifies this
      ensures session.SignedIn? ==> (ShowsAdminControls() <==> IsAdminRole(session.role))
      ensures session.SignedOut? ==> isAdmin == old(isAdmin)
      ensures announcements == data.GetOr([])
      ensures attachmentUrl == old(attachmentUrl)
    {
      if session.SignedIn? {
        isAdmin := IsAdminRole(session.role);
      }
      announcements := data.GetOr([]);
    }

    /** "View Attachment": open the viewer on the announcement's file. */
    method ViewAttachment(url: string)
      modifies this
      ensures attachmentUrl == Some(url)
      ensures AttachmentViewer.Render(ViewerOpen(), attachmentUrl).Some? <==> url != ""
      ensures announcements == old(announcements) && isAdmin == old(isAdmin)
    {
      attachmentUrl := Some(url);
    }

    /** The viewer's close button: `setOpen(false)` clears the url, and the viewer renders nothing. */
    method CloseAttachment()
      modifies this
      ensures attachmentUrl.None? && !ViewerOpen()
      ensures AttachmentViewer.Render(ViewerOpen(), attachmentUrl).None?
      ensures announcements == old(announcements) && isAdmin == old(isAdmin)
    {
      attachmentUrl := None;
    }
  }
}
