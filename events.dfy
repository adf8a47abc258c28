// The events views. They do not look at request.user: they read the caller's
// id and role straight from the session dictionary that login_user writes.
// Creating, editing and deleting need the admin role; the listing shows
// private events to admins only.
module Events {
  import opened Common
  import opened Accounts
  import opened Http

  const EventListRoute: string := "events:event_list"
  const EventListPage: string := "event_list.html"
  const CreateEventPage: string := "create_event.html"
  const EditEventPage: string := "edit_event.html"
  const BareLoginUrl: string := "/login"
  const NotFound: Response := Status(404, map[])

  datatype Event = Event(
    title: string,
    description: string,
    /** An opaque ordered timestamp. */
    date: int,
    isPublic: bool,
    /** The creating user's primary key. */
    createdBy: string,
    imageUrl: Option<string>,
    location: Option<string>,
    time: Option<string>)

  /** The framework's parsing of the date text the view passes to a
      DateTimeField, an oracle: None is the ValidationError it raises. */
  type DateParser = string -> Option<int>

  /** The stored events, keyed by the database's auto-increment id. */
  class EventTable {
    var rows: map<nat, Event>
    var nextId: nat

    ghost predicate Valid()
      reads this
    {
      0 < nextId && forall k :: k in rows ==> 0 < k < nextId
    }

    constructor ()
      ensures Valid() && rows == map[] && nextId == 1
    {
      rows := map[];
      nextId := 1;
    }

    /** `Event.objects.create(...)`: the row gets the next key. */
    method Add(e: Event) returns (id: nat)
      requires Valid()
      modifies this
      ensures Valid()
      ensures id == old(nextId) && id !in old(rows)
      ensures rows == old(rows)[id := e] && nextId == old(nextId) + 1
    {
      id := nextId;
      rows := rows[id := e];
      nextId := nextId + 1;
    }
  }

  /** `request.session.get('role') == 'admin'`. */
  predicate AdminSession(data: map<string, string>)
  {
    Get(data, "role") == Some(AdminRole)
  }

  /** The events event_list shows: all of them to an admin, the public ones to anybody else. */
  function Visible(rows: map<nat, Event>, data: map<string, string>): (r: set<nat>)
    ensures forall k :: k in r <==> k in rows && (AdminSession(data) || rows[k].isPublic)
  {
    set k | k in rows && (AdminSession(data) || rows[k].isPublic)
  }

  /** What a non-admin sees is what an admin sees, less the private events. */
  lemma NonAdminSeesPublicOnly(rows: map<nat, Event>, admin: map<string, string>, other: map<string, string>)
    requires AdminSession(admin) && !AdminSession(other)
    ensures Visible(rows, admin) == rows.Keys
    ensures Visible(rows, other) == Visible(rows, admin) - set k | k in rows && !rows[k].isPublic
  {
  }

  /** `e.time.strftime('%H:%M') if e.time else ''` on what the CharField
      `time` holds: text has no `strftime`, so a non-empty time raises
      AttributeError (None here); a missing or empty one gives "". */
  function TimeTextAsWritten(t: Option<string>): (r: Option<string>)
    ensures r.None? <==> Truthy(t)
    ensures r.Some? ==> r.value == ""
  {
    if Truthy(t) then None else Some("")
  }

  /** The evidently intended "time" entry of the AJAX listing: the stored
      text, and "" when there is none. */
  function TimeText(t: Option<string>): (r: string)
    ensures Truthy(t) ==> r == t.value
    ensures !Truthy(t) ==> r == ""
  {
    if Truthy(t) then t.value else ""
  }

  /** Where the listing as written does not raise, it gives the intended
      entry; an event at "15:00" is one where it raises. */
  lemma TimeTextCounterexample(t: Option<string>)
    ensures TimeTextAsWritten(t).Some? ==> TimeTextAsWritten(t).value == TimeText(t)
    ensures TimeTextAsWritten(Some("15:00")).None? && TimeText(Some("15:00")) == "15:00"
  {
  }

  /** Some listed event has a time that makes the AJAX listing raise. */
  predicate SomeTimeRaises(rows: map<nat, Event>, shown: set<nat>)
  {
    exists k :: k in shown && k in rows && TimeTextAsWritten(rows[k].time).None?
  }

  /** event_list: without a truthy session user_id the caller is sent to
      /login; otherwise `shown` is the set of events listed, as a page, or
      for an AJAX request as JSON, which as written fails with status 500 as
      soon as one listed event has a non-empty time. */
  method EventList(request: Request, events: EventTable) returns (response: Response, shown: set<nat>)
    ensures !Truthy(Get(request.session.data, "user_id")) ==> response == Redirect(BareLoginUrl) && shown == {}
    ensures Truthy(Get(request.session.data, "user_id")) ==> shown == Visible(events.rows, request.session.data)
    ensures Truthy(Get(request.session.data, "user_id")) && !request.isAjax ==> response == Render(EventListPage)
    ensures Truthy(Get(request.session.data, "user_id")) && request.isAjax ==>
              (response == ServerError <==>
                 exists k :: k in shown && k in events.rows && Truthy(events.rows[k].time))
    ensures Truthy(Get(request.session.data, "user_id")) && request.isAjax && response != ServerError ==>
              response == Status(200, map[])
  {
    var data := request.session.data;
    if !Truthy(Get(data, "user_id")) {
      return Redirect(BareLoginUrl), {};
    }
    shown := Visible(events.rows, data);
    if !request.isAjax {
      return Render(EventListPage), shown;
    }
    if SomeTimeRaises(events.rows, shown) {
      return ServerError, shown;
    }
    response := Status(200, map[]);
  }

  /** event_list with the stored time text in the AJAX listing: a signed-in
      caller always gets the listing, and `times` gives each listed event's
      "time" entry. */
  method EventListCorrected(request: Request, events: EventTable)
    returns (response: Response, shown: set<nat>, times: map<nat, string>)
    ensures !Truthy(Get(request.session.data, "user_id")) ==>
              response == Redirect(BareLoginUrl) && shown == {} && times == map[]
    ensures Truthy(Get(request.session.data, "user_id")) ==>
              && shown == Visible(events.rows, request.session.data)
              && response == (if request.isAjax then Status(200, map[]) else Render(EventListPage))
    ensures times.Keys == (if request.isAjax then shown else {})
    ensures forall k :: k in times ==> k in events.rows && times[k] == TimeText(events.rows[k].time)
  {
    var data := request.session.data;
    if !Truthy(Get(data, "user_id")) {
      return Redirect(BareLoginUrl), {}, map[];
    }
    shown := Visible(events.rows, data);
    if !request.isAjax {
      return Render(EventListPage), shown, map[];
    }
    times := map k | k in shown :: TimeText(events.rows[k].time);
    response := Status(200, map[]);
  }

  /** The event the seven posted fields describe. None when saving it raises:
      a missing title, description or date is a NULL in a NOT NULL column,
      and a date the field cannot parse is a ValidationError. `is_public` is
      set exactly when the checkbox value is "on"; the other three fields are
      stored as posted, None when absent. */
  function PostedEvent(post: map<string, string>, createdBy: string, parseDate: DateParser): (r: Option<Event>)
    ensures r.Some? <==>
              "title" in post && "description" in post && "date" in post && parseDate(post["date"]).Some?
    ensures r.Some? ==>
              && r.value.title == post["title"] && r.value.description == post["description"]
              && r.value.date == parseDate(post["date"]).value
              && (r.value.isPublic <==> Get(post, "is_public") == Some("on"))
              && r.value.createdBy == createdBy
              && r.value.imageUrl == Get(post, "image_url")
              && r.value.location == Get(post, "location")
              && r.value.time == Get(post, "time")
  {
    if "title" !in post || "description" !in post || "date" !in post then None
    else
      match parseDate(post["date"])
      case None => None
      case Some(date) =>
        Some(Event(post["title"], post["description"], date, Get(post, "is_public") == Some("on"), createdBy,
                   Get(post, "image_url"), Get(post, "location"), Get(post, "time")))
  }

  /** create_event: 403 "Unauthorized" without a truthy user_id, checked before
      the role; 403 "Forbidden" for a non-admin; a POST then creates exactly
      one event owned by the session's user_id, or raises with the table
      unchanged; any other method renders the form. */
  method CreateEvent(request: Request, events: EventTable, parseDate: DateParser) returns (response: Response)
    requires events.Valid()
    modifies events
    ensures events.Valid()
    ensures var data := request.session.data;
      && (!Truthy(Get(data, "user_id")) ==>
            response == Status(403, map["error" := JStr("Unauthorized")]) && events.rows == old(events.rows))
      && (Truthy(Get(data, "user_id")) && !AdminSession(data) ==>
            response == Status(403, map["error" := JStr("Forbidden")]) && events.rows == old(events.rows))
      && (Truthy(Get(data, "user_id")) && AdminSession(data) && request.verb != POST ==>
            response == Render(CreateEventPage) && events.rows == old(events.rows))
      && (Truthy(Get(data, "user_id")) && AdminSession(data) && request.verb == POST ==>
            var e := PostedEvent(request.post, data["user_id"], parseDate);
            && (e.None? ==> response == ServerError && events.rows == old(events.rows))
            && (e.Some? ==>
                  && events.rows == old(events.rows)[old(events.nextId) := e.value]
                  && response == (if request.isAjax
                                  then Status(200, map["message" := JStr("Event berhasil dibuat!"),
                                                       "event_id" := JInt(old(events.nextId))])
                                  else Redirect(EventListRoute))))
  {
    var data := request.session.data;
    if !Truthy(Get(data, "user_id")) {
      return Status(403, map["error" := JStr("Unauthorized")]);
    }
    if !AdminSession(data) {
      return Status(403, map["error" := JStr("Forbidden")]);
    }
    if request.verb != POST {
      return Render(CreateEventPage);
    }
    var e := PostedEvent(request.post, data["user_id"], parseDate);
    if e.None? {
      return ServerError;
    }
    var id := events.Add(e.value);
    if request.isAjax {
      return Status(200, map["message" := JStr("Event berhasil dibuat!"), "event_id" := JInt(id)]);
    }
    response := Redirect(EventListRoute);
  }

  /** The event after edit_event's POST: all seven posted fields replace the
      stored ones; only the owner is kept. */
  function EditedEvent(stored: Event, post: map<string, string>, parseDate: DateParser): (r: Option<Event>)
  {
    PostedEvent(post, stored.createdBy, parseDate)
  }

  /** Nothing of the stored event but its owner survives an edit, so editing
      twice with the same form is editing once. */
  lemma EditOverwritesAll(a: Event, b: Event, post: map<string, string>, parseDate: DateParser)
    requires a.createdBy == b.createdBy
    ensures EditedEvent(a, post, parseDate) == EditedEvent(b, post, parseDate)
    ensures EditedEvent(a, post, parseDate).Some? ==>
              EditedEvent(EditedEvent(a, post, parseDate).value, post, parseDate) == EditedEvent(a, post, parseDate)
    ensures EditedEvent(a, post, parseDate).Some? ==> EditedEvent(a, post, parseDate).value.createdBy == a.createdBy
  {
  }

  /** edit_event: only the role is checked (no user_id needed); then a missing
      event is 404; a POST overwrites the event, or raises and leaves it; any
      other method renders the form. */
  method EditEvent(request: Request, events: EventTable, eventId: nat, parseDate: DateParser)
    returns (response: Response)
    requires events.Valid()
    modifies events
    ensures events.Valid() && events.nextId == old(events.nextId)
    ensures !AdminSession(request.session.data) ==>
              response == Status(403, map["error" := JStr("Forbidden")]) && events.rows == old(events.rows)
    ensures AdminSession(request.session.data) && eventId !in old(events.rows) ==>
              response == NotFound && events.rows == old(events.rows)
    ensures AdminSession(request.session.data) && eventId in old(events.rows) && request.verb != POST ==>
              response == Render(EditEventPage) && events.rows == old(events.rows)
    ensures AdminSession(request.session.data) && eventId in old(events.rows) && request.verb == POST ==>
              var e := EditedEvent(old(events.rows)[eventId], request.post, parseDate);
              && (e.None? ==> response == ServerError && events.rows == old(events.rows))
              && (e.Some? ==>
                    && events.rows == old(events.rows)[eventId := e.value]
                    && response == (if request.isAjax then Status(200, map["message" := JStr("Event berhasil diperbarui!")])
                                    else Redirect(EventListRoute)))
  {
    if !AdminSession(request.session.data) {
      return Status(403, map["error" := JStr("Forbidden")]);
    }
    if eventId !in events.rows {
      return NotFound;
    }
    if request.verb != POST {
      return Render(EditEventPage);
    }
    var e := EditedEvent(events.rows[eventId], request.post, parseDate);
    if e.None? {
      return ServerError;
    }
    events.rows := events.rows[eventId := e.value];
    response := if request.isAjax then Status(200, map["message" := JStr("Event berhasil diperbarui!")])
                else Redirect(EventListRoute);
  }

  /** delete_event: a non-admin gets 403 and the event stays; for an admin any
      method deletes an existing event, and a missing one is 404. */
  method DeleteEvent(request: Request, events: EventTable, eventId: nat) returns (response: Response)
    requires events.Valid()
    modifies events
    ensures events.Valid() && events.nextId == old(events.nextId)
    ensures !AdminSession(request.session.data) ==>
              response == Status(403, map["error" := JStr("Forbidden")]) && events.rows == old(events.rows)
    ensures AdminSession(request.session.data) && eventId !in old(events.rows) ==>
              response == NotFound && events.rows == old(events.rows)
    ensures AdminSession(request.session.data) && eventId in old(events.rows) ==>
              && events.rows == old(events.rows) - {eventId}
              && response == (if request.isAjax then Status(200, map["message" := JStr("Event berhasil dihapus!")])
                              else Redirect(EventListRoute))
  {
    if !AdminSession(request.session.data) {
      return Status(403, map["error" := JStr("Forbidden")]);
    }
    if eventId !in events.rows {
      return NotFound;
    }
    events.rows := events.rows - {eventId};
    response := if request.isAjax then Status(200, map["message" := JStr("Event berhasil dihapus!")])
                else Redirect(EventListRoute);
  }

  /** A session whose role is not admin can change no event, whatever it asks. */
  method NonAdminChangesNothing(request: Request, events: EventTable, eventId: nat, parseDate: DateParser)
    returns (created: Response, edited: Response, deleted: Response, untouched: bool)
    requires events.Valid()
    requires !AdminSession(request.session.data)
    modifies events
    ensures created.Status? && created.code == 403
    ensures edited == Status(403, map["error" := JStr("Forbidden")]) && deleted == edited
    ensures untouched
  {
    var before := events.rows;
    created := CreateEvent(request, events, parseDate);
    edited := EditEvent(request, events, eventId, parseDate);
    deleted := DeleteEvent(request, events, eventId);
    untouched := events.rows == before;
  }
}
