// import_events_from_csv: every CSV row gets or creates the event with its
// title. An event already stored under the title is left as it is; a new
// title creates one event from the row's cells.
module EventImport {
  import opened Common
  import opened Events

  /** One csv.DictReader row: header name to cell text. */
  type CsvRow = map<string, string>

  /** The cells a row is read from; a missing one is a KeyError. */
  const Fields: set<string> := {"title", "description", "date", "time", "location", "image_url", "is_public"}

  /** `row['is_public'].strip().upper() == 'TRUE'`. */
  predicate PublicCell(cell: string)
  {
    Upper(Trim(cell)) == "TRUE"
  }

  /** The event a new title creates: the row's cells, the date through the
      DateTimeField's parsing (None is its ValidationError), and `owner` as
      creator. */
  function NewEvent(row: CsvRow, owner: string, parseDate: DateParser): (r: Option<Event>)
    requires Fields <= row.Keys
    ensures r.Some? <==> parseDate(row["date"]).Some?
    ensures r.Some? ==>
              && r.value.title == row["title"] && r.value.description == row["description"]
              && r.value.date == parseDate(row["date"]).value
              && r.value.time == Some(row["time"]) && r.value.location == Some(row["location"])
              && r.value.imageUrl == Some(row["image_url"])
              && (r.value.isPublic <==> Upper(Trim(row["is_public"])) == "TRUE")
              && r.value.createdBy == owner
  {
    match parseDate(row["date"])
    case None => None
    case Some(date) =>
      Some(Event(row["title"], row["description"], date, PublicCell(row["is_public"]), owner,
                 Some(row["image_url"]), Some(row["location"]), Some(row["time"])))
  }

  /** The stored events with this title. */
  function WithTitle(rows: map<nat, Event>, title: string): (ks: set<nat>)
    ensures forall k :: k in ks <==> k in rows && rows[k].title == title
  {
    set k | k in rows && rows[k].title == title
  }

  /** The function's state between rows: the table, the `created` flag of
      every row so far (what it prints), and whether an exception ended it. */
  datatype ImportState = ImportState(rows: map<nat, Event>, nextId: nat, created: seq<bool>, crashed: bool)

  /** One row through get_or_create. */
  function Step(st: ImportState, row: CsvRow, owner: string, parseDate: DateParser): (r: ImportState)
    ensures st.crashed ==> r == st
    ensures !st.crashed && !r.crashed ==> |r.created| == |st.created| + 1 && r.created[..|st.created|] == st.created
  {
    if st.crashed then st
    else if !(Fields <= row.Keys) then st.(crashed := true)
    else
      var ks := WithTitle(st.rows, row["title"]);
      if |ks| == 1 then st.(created := st.created + [false])
      else if |ks| >= 2 then st.(crashed := true)
      else match NewEvent(row, owner, parseDate)
        case None => st.(crashed := true)
        case Some(e) => st.(rows := st.rows[st.nextId := e], nextId := st.nextId + 1, created := st.created + [true])
  }

  /** The loop, as a fold from the last row back. */
  function ImportRows(st: ImportState, csvRows: seq<CsvRow>, owner: string, parseDate: DateParser): ImportState
  {
    if csvRows == [] then st
    else Step(ImportRows(st, csvRows[..|csvRows| - 1], owner, parseDate), csvRows[|csvRows| - 1], owner, parseDate)
  }

  /** Keys below nextId and at most one event per title. */
  ghost predicate Consistent(st: ImportState)
  {
    && 0 < st.nextId
    && (forall k :: k in st.rows ==> 0 < k < st.nextId)
    && (forall j, k :: j in st.rows && k in st.rows && st.rows[j].title == st.rows[k].title ==> j == k)
  }

  /** One row: a stored title leaves the table as it is and reports
      `created` false; a new title adds exactly one event carrying the row's
      fields and reports true; so `created` is true exactly when no event had
      the title. Stored events are never changed, and the invariant is kept. */
  lemma StepGetsOrCreates(st: ImportState, row: CsvRow, owner: string, parseDate: DateParser)
    requires Consistent(st) && !st.crashed
    ensures var r := Step(st, row, owner, parseDate);
      && Consistent(r)
      && (forall k :: k in st.rows ==> k in r.rows && r.rows[k] == st.rows[k])
      && (!r.crashed ==> (r.created[|st.created|] <==> WithTitle(st.rows, row["title"]) == {}))
      && (!r.crashed && WithTitle(st.rows, row["title"]) != {} ==> r.rows == st.rows && r.nextId == st.nextId)
      && (!r.crashed && WithTitle(st.rows, row["title"]) == {} ==>
            && r.rows == st.rows[st.nextId := NewEvent(row, owner, parseDate).value]
            && r.nextId == st.nextId + 1)
      && (r.crashed <==> !(Fields <= row.Keys) ||
                         (WithTitle(st.rows, row["title"]) == {} && parseDate(row["date"]).None?))
  {
    if Fields <= row.Keys {
      var ks := WithTitle(st.rows, row["title"]);
      if |ks| >= 2 {
        var j :| j in ks;
        assert ks == (ks - {j}) + {j};
        var k :| k in ks - {j};
        assert false;
      }
      if |ks| == 0 {
        assert st.nextId !in st.rows;
      }
    }
  }

  lemma {:induction false} ImportKeeps(st: ImportState, csvRows: seq<CsvRow>, owner: string, parseDate: DateParser)
    requires Consistent(st)
    ensures Consistent(ImportRows(st, csvRows, owner, parseDate))
  {
    if csvRows != [] {
      var prefix := csvRows[..|csvRows| - 1];
      ImportKeeps(st, prefix, owner, parseDate);
      if !ImportRows(st, prefix, owner, parseDate).crashed {
        StepGetsOrCreates(ImportRows(st, prefix, owner, parseDate), csvRows[|csvRows| - 1], owner, parseDate);
      }
    }
  }

  /** An import never changes or removes an event that was stored before it. */
  lemma {:induction false} ImportKeepsExisting(st: ImportState, csvRows: seq<CsvRow>, owner: string,
                                               parseDate: DateParser)
    requires Consistent(st)
    ensures var r := ImportRows(st, csvRows, owner, parseDate);
      forall k :: k in st.rows ==> k in r.rows && r.rows[k] == st.rows[k]
  {
    if csvRows != [] {
      var prefix := csvRows[..|csvRows| - 1];
      ImportKeepsExisting(st, prefix, owner, parseDate);
      ImportKeeps(st, prefix, owner, parseDate);
      if !ImportRows(st, prefix, owner, parseDate).crashed {
        StepGetsOrCreates(ImportRows(st, prefix, owner, parseDate), csvRows[|csvRows| - 1], owner, parseDate);
      }
    }
  }

  /** Without an exception there is one `created` flag per row, and every
      row's title is stored afterwards. */
  lemma {:induction false} ImportStoresTitles(st: ImportState, csvRows: seq<CsvRow>, owner: string,
                                              parseDate: DateParser)
    requires Consistent(st) && !st.crashed
    requires !ImportRows(st, csvRows, owner, parseDate).crashed
    ensures var r := ImportRows(st, csvRows, owner, parseDate);
      && |r.created| == |st.created| + |csvRows|
      && forall i :: 0 <= i < |csvRows| ==> Fields <= csvRows[i].Keys && WithTitle(r.rows, csvRows[i]["title"]) != {}
  {
    if csvRows != [] {
      var prefix := csvRows[..|csvRows| - 1];
      var before := ImportRows(st, prefix, owner, parseDate);
      var after := ImportRows(st, csvRows, owner, parseDate);
      assert !before.crashed;
      ImportStoresTitles(st, prefix, owner, parseDate);
      ImportKeeps(st, prefix, owner, parseDate);
      StepGetsOrCreates(before, csvRows[|csvRows| - 1], owner, parseDate);
      forall i | 0 <= i < |prefix|
        ensures Fields <= csvRows[i].Keys && WithTitle(after.rows, csvRows[i]["title"]) != {}
      {
        assert prefix[i] == csvRows[i];
        var k :| k in WithTitle(before.rows, csvRows[i]["title"]);
        assert k in WithTitle(after.rows, csvRows[i]["title"]);
      }
      var last := csvRows[|csvRows| - 1];
      if WithTitle(before.rows, last["title"]) == {} {
        assert before.nextId in WithTitle(after.rows, last["title"]);
      }
    }
  }

  /** Importing onto a table that has every row's title changes nothing and
      reports every row as already there. */
  lemma {:induction false} StoredTitlesOnlySkip(st: ImportState, csvRows: seq<CsvRow>, owner: string,
                                                parseDate: DateParser)
    requires Consistent(st) && !st.crashed
    requires forall i :: 0 <= i < |csvRows| ==> Fields <= csvRows[i].Keys && WithTitle(st.rows, csvRows[i]["title"]) != {}
    ensures var r := ImportRows(st, csvRows, owner, parseDate);
      && !r.crashed && r.rows == st.rows && r.nextId == st.nextId
      && r.created == st.created + seq(|csvRows|, i => false)
  {
    if csvRows != [] {
      var prefix := csvRows[..|csvRows| - 1];
      assert forall i :: 0 <= i < |prefix| ==> prefix[i] == csvRows[i];
      StoredTitlesOnlySkip(st, prefix, owner, parseDate);
      var before := ImportRows(st, prefix, owner, parseDate);
      StepGetsOrCreates(before, csvRows[|csvRows| - 1], owner, parseDate);
      assert st.created + seq(|csvRows|, i => false) == st.created + seq(|prefix|, i => false) + [false];
    }
  }

  /** Running the import a second time on the same file adds nothing and
      reports every row as already there. */
  lemma ReimportChangesNothing(st: ImportState, csvRows: seq<CsvRow>, owner: string, parseDate: DateParser)
    requires Consistent(st) && !st.crashed
    requires !ImportRows(st, csvRows, owner, parseDate).crashed
    ensures var first := ImportRows(st, csvRows, owner, parseDate);
      var second := ImportRows(first.(created := []), csvRows, owner, parseDate);
      && !second.crashed && second.rows == first.rows && second.nextId == first.nextId
      && second.created == seq(|csvRows|, i => false)
  {
    var first := ImportRows(st, csvRows, owner, parseDate);
    ImportKeeps(st, csvRows, owner, parseDate);
    ImportStoresTitles(st, csvRows, owner, parseDate);
    StoredTitlesOnlySkip(first.(created := []), csvRows, owner, parseDate);
  }

  lemma PrefixOfPrefix(csvRows: seq<CsvRow>, j: nat)
    requires j < |csvRows|
    ensures csvRows[..j + 1][..j] == csvRows[..j]
  {
  }

  lemma {:induction false} CrashedStays(st: ImportState, csvRows: seq<CsvRow>, j: nat, owner: string,
                                        parseDate: DateParser)
    requires j <= |csvRows|
    requires ImportRows(st, csvRows[..j], owner, parseDate).crashed
    ensures ImportRows(st, csvRows, owner, parseDate) == ImportRows(st, csvRows[..j], owner, parseDate)
    decreases |csvRows| - j
  {
    if j == |csvRows| {
      assert csvRows[..j] == csvRows;
    } else {
      PrefixOfPrefix(csvRows, j);
      CrashedStays(st, csvRows, j + 1, owner, parseDate);
    }
  }

  /** `Event.objects.get_or_create(title=..., defaults=...)` for one row. */
  method GetOrCreate(events: EventTable, row: CsvRow, owner: string, parseDate: DateParser, ghost created: seq<bool>)
    returns (wasCreated: bool, crashed: bool)
    requires events.Valid()
    modifies events
    ensures events.Valid()
    ensures var r := Step(ImportState(old(events.rows), old(events.nextId), created, false), row, owner, parseDate);
      && events.rows == r.rows && events.nextId == r.nextId && crashed == r.crashed
      && (!crashed ==> r.created == created + [wasCreated])
  {
    wasCreated, crashed := false, false;
    if !(Fields <= row.Keys) {
      crashed := true;
      return;
    }
    var ks := WithTitle(events.rows, row["title"]);
    if |ks| == 1 {
      return;
    } else if |ks| >= 2 {
      crashed := true;
      return;
    }
    var e := NewEvent(row, owner, parseDate);
    if e.None? {
      crashed := true;
      return;
    }
    var id := events.Add(e.value);
    wasCreated := true;
  }

  /** import_events_from_csv over the file's rows; `created` holds the flag
      each row printed. The table and the flags end as the fold says. */
  method ImportEvents(events: EventTable, csvRows: seq<CsvRow>, owner: string, parseDate: DateParser)
    returns (created: seq<bool>, crashed: bool)
    requires events.Valid()
    modifies events
    ensures events.Valid()
    ensures var r := ImportRows(ImportState(old(events.rows), old(events.nextId), [], false), csvRows, owner, parseDate);
      events.rows == r.rows && events.nextId == r.nextId && created == r.created && crashed == r.crashed
  {
    ghost var start := ImportState(events.rows, events.nextId, [], false);
    created, crashed := [], false;
    var i := 0;
    while i < |csvRows|
      invariant 0 <= i <= |csvRows|
      invariant events.Valid() && !crashed
      invariant ImportState(events.rows, events.nextId, created, crashed) == ImportRows(start, csvRows[..i], owner, parseDate)
    {
      assert csvRows[..i + 1][..i] == csvRows[..i];
      var wasCreated;
      wasCreated, crashed := GetOrCreate(events, csvRows[i], owner, parseDate, created);
      if crashed {
        CrashedStays(start, csvRows, i + 1, owner, parseDate);
        return;
      }
      created := created + [wasCreated];
      i := i + 1;
    }
    assert csvRows[..i] == csvRows;
  }

  // ------------------------------------------------------------- as written

  /** get_or_create as the function writes it: `defaults` has no created_by,
      and created_by is a NOT NULL foreign key, so creating raises an
      IntegrityError; only a title that is already stored gets through. */
  function StepAsWritten(st: ImportState, row: CsvRow, parseDate: DateParser): (r: ImportState)
    ensures !st.crashed && Fields <= row.Keys && WithTitle(st.rows, row["title"]) == {} ==> r.crashed
  {
    if st.crashed then st
    else if !(Fields <= row.Keys) then st.(crashed := true)
    else if |WithTitle(st.rows, row["title"])| == 1 then st.(created := st.created + [false])
    else st.(crashed := true)
  }

  /** On an empty table the first row, however well formed, raises as
      written, while with an owner it creates its event. */
  lemma MissingOwnerCounterexample(row: CsvRow, owner: string, parseDate: DateParser)
    requires Fields <= row.Keys && parseDate(row["date"]).Some?
    ensures StepAsWritten(ImportState(map[], 1, [], false), row, parseDate).crashed
    ensures var r := Step(ImportState(map[], 1, [], false), row, owner, parseDate);
      !r.crashed && r.created == [true] && r.rows == map[1 := NewEvent(row, owner, parseDate).value]
  {
    assert WithTitle(map[], row["title"]) == {};
  }

  /** Where the function as written does not raise, it does what the model does. */
  lemma AsWrittenAgreesOnStoredTitles(st: ImportState, row: CsvRow, owner: string, parseDate: DateParser)
    requires !StepAsWritten(st, row, parseDate).crashed
    ensures StepAsWritten(st, row, parseDate) == Step(st, row, owner, parseDate)
  {
  }
}
