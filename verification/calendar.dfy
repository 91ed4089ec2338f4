/**
 * The studio calendar window: events a user sees are their own and the global ones, in
 * date order; admins (admin, director, founder) create global events and may delete any.
 */
module Calendar {
  import opened Optional
  import opened Text
  import opened Sorting

  /** The signed-in user's profile row. */
  datatype Profile = Profile(id: string, role: Option<string>)

  /** A row of `calendar_events`; `date` is the ISO `YYYY-MM-DD` text of a date input. */
  datatype CalendarEvent = CalendarEvent(id: int, title: string, date: string, createdBy: string, isGlobal: bool)

  /** The row `createEvent` inserts. */
  datatype NewEvent = NewEvent(title: string, date: string, createdBy: string, isGlobal: bool)

  /** `isAdmin`: the role is one of the three privileged roles. */
  predicate IsAdmin(role: Option<string>) {
    role == Some("admin") || role == Some("director") || role == Some("founder")
  }

  /** The delete control is shown for this event. */
  predicate CanDelete(p: Profile, ev: CalendarEvent) {
    IsAdmin(p.role) || ev.createdBy == p.id
  }

  /** The query's filter `created_by.eq.<id>,is_global.eq.true`. */
  predicate VisibleTo(ev: CalendarEvent, userId: string) {
    ev.createdBy == userId || ev.isGlobal
  }

  /** The rows the filter keeps, in table order. */
  function Visible(table: seq<CalendarEvent>, userId: string): (r: seq<CalendarEvent>)
    ensures forall i :: 0 <= i < |r| ==> VisibleTo(r[i], userId)
    ensures forall ev :: multiset(r)[ev] == if VisibleTo(ev, userId) then multiset(table)[ev] else 0
    decreases |table|
  {
    if table == [] then []
    else
      var rest := Visible(table[1..], userId);
      assert table == [table[0]] + table[1..];
      if VisibleTo(table[0], userId) then [table[0]] + rest else rest
  }

  /** `order("date", { ascending: true })`. */
  predicate DateOrder(a: CalendarEvent, b: CalendarEvent) {
    LexLe(a.date, b.date)
  }

  lemma DateOrderIsTotalPreorder()
    ensures Total(DateOrder) && Transitive(DateOrder)
  {
    forall a: CalendarEvent, b: CalendarEvent ensures DateOrder(a, b) || DateOrder(b, a) {
      LexTotal(a.date, b.date);
    }
    forall a: CalendarEvent, b: CalendarEvent, c: CalendarEvent | DateOrder(a, b) && DateOrder(b, c)
      ensures DateOrder(a, c)
    {
      LexTransitive(a.date, b.date, c.date);
    }
  }

  /** The events `fetchEvents` requests: own or global, in ascending date order. */
  function Requested(table: seq<CalendarEvent>, userId: string): (r: seq<CalendarEvent>)
    ensures forall i :: 0 <= i < |r| ==> VisibleTo(r[i], userId)
    ensures forall ev :: multiset(r)[ev] == if VisibleTo(ev, userId) then multiset(table)[ev] else 0
    ensures forall i, j :: 0 <= i < j < |r| ==> LexLe(r[i].date, r[j].date)
  {
    DateOrderIsTotalPreorder();
    var r := Sort(Visible(table, userId), DateOrder);
    assert forall i :: 0 <= i < |r| ==> r[i] in multiset(Visible(table, userId));
    r
  }

  class CalendarWindow {
    const profile: Profile
    var events: seq<CalendarEvent>
    var newEvent: string
    var newDate: string

    constructor(profile: Profile)
      ensures this.profile == profile && events == [] && newEvent == "" && newDate == ""
    {
      this.profile := profile;
      events := [];
      newEvent := "";
      newDate := "";
    }

    /**
     * `fetchEvents`: `table` is the table's current rows, or `None` when the query fails and
     * `data` is `null`, which empties the list (`data || []`).
     */
    method FetchEvents(table: Option<seq<CalendarEvent>>)
      modifies this
      ensures table.Some? ==> events == Requested(table.value, profile.id)
      ensures table.None? ==> events == []
      ensures newEvent == old(newEvent) && newDate == old(newDate)
    {
      events := if table.Some? then Requested(table.value, profile.id) else [];
    }

    /**
     * `createEvent`: with a title and a date, insert the event (global exactly for admins)
     * and clear both inputs, whether or not the insert succeeds; otherwise do nothing.
     */
    method CreateEvent() returns (inserted: Option<NewEvent>)
      modifies this
      ensures old(newEvent) == "" || old(newDate) == "" ==>
                inserted.None? && newEvent == old(newEvent) && newDate == old(newDate)
      ensures old(newEvent) != "" && old(newDate) != "" ==>
                && inserted == Some(NewEvent(old(newEvent), old(newDate), profile.id, IsAdmin(profile.role)))
                && newEvent == "" && newDate == ""
      ensures events == old(events)
    {
      if newEvent == "" || newDate == "" {
        return None;
      }
      inserted := Some(NewEvent(newEvent, newDate, profile.id, IsAdmin(profile.role)));
      newEvent := "";
      newDate := "";
    }
  }

  /** `deleteEvent(id)` on the table: every row with that id goes, every other row stays. */
  function DeleteFrom(table: seq<CalendarEvent>, id: int): (r: seq<CalendarEvent>)
    ensures forall ev :: multiset(r)[ev] == if ev.id == id then 0 else multiset(table)[ev]
    decreases |table|
  {
    if table == [] then []
    else
      var rest := DeleteFrom(table[1..], id);
      assert table == [table[0]] + table[1..];
      if table[0].id == id then rest else [table[0]] + rest
  }

  /** After a delete, the next fetch no longer lists that event; every other visible event stays. */
  lemma DeletedEventNotFetched(table: seq<CalendarEvent>, id: int, userId: string)
    ensures var r := Requested(DeleteFrom(table, id), userId);
            && (forall i :: 0 <= i < |r| ==> r[i].id != id)
            && (forall ev: CalendarEvent :: ev.id != id && VisibleTo(ev, userId) ==> multiset(r)[ev] == multiset(table)[ev])
  {
    var r := Requested(DeleteFrom(table, id), userId);
    forall i | 0 <= i < |r| ensures r[i].id != id {
      assert r[i] in multiset(r);
    }
  }

  /**
   * For a user who is not an admin, the events whose delete control shows are exactly their
   * own events of the table: every one of them is fetched, and no fetched event of someone
   * else has the control.
   */
  lemma NonAdminDeletesExactlyOwn(table: seq<CalendarEvent>, p: Profile)
    requires !IsAdmin(p.role)
    ensures forall ev :: ev in Requested(table, p.id) && CanDelete(p, ev) ==> ev.createdBy == p.id
    ensures forall ev :: ev in table && ev.createdBy == p.id ==> ev in Requested(table, p.id) && CanDelete(p, ev)
  {
    var r := Requested(table, p.id);
    forall ev | ev in table && ev.createdBy == p.id
      ensures ev in r
    {
      assert multiset(table)[ev] > 0;
      assert multiset(r)[ev] == multiset(table)[ev];
    }
  }

  /** An event a user creates is visible to them, and to everyone exactly when they are an admin. */
  lemma CreatedEventVisibility(p: Profile, e: NewEvent, id: int, other: string)
    requires e.createdBy == p.id && e.isGlobal == IsAdmin(p.role)
    ensures var ev := CalendarEvent(id, e.title, e.date, e.createdBy, e.isGlobal);
            VisibleTo(ev, p.id) && CanDelete(p, ev)
            && (other != p.id ==> (VisibleTo(ev, other) <==> IsAdmin(p.role)))
  {
  }
}
