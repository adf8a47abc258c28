// The import_matches_xlsx management command: the first sheet row names the
// columns, every later non-blank row updates or creates the match with its
// (home team, away team, tip-off) key, and the command reports how many rows
// it imported.
module MatchImport {
  import opened Common
  import opened Matches

  /** A spreadsheet cell value: text, a whole number or a date-time. */
  datatype Cell = Text(s: string) | Whole(n: int) | Moment(t: int)

  /** One sheet row; None is an empty cell. */
  type SheetRow = seq<Option<Cell>>

  /** Oracles: `str()` of a date-time cell, and `datetime.strptime` with the
      command's format, None being the ValueError it raises. */
  type MomentText = int -> string
  type TipoffParser = string -> Option<int>

  /** `str(value)`; an empty cell reads "None". */
  function CellStr(c: Option<Cell>, showMoment: MomentText): string
  {
    match c
    case None => "None"
    case Some(Text(s)) => s
    case Some(Whole(n)) => IntToString(n)
    case Some(Moment(t)) => showMoment(t)
  }

  /** Python truthiness of a cell value: empty cells, "" and 0 are falsy. */
  predicate CellTruthy(c: Option<Cell>)
  {
    c.Some? && c.value != Text("") && c.value != Whole(0)
  }

  /** `not row or all(v is None for v in row)`. */
  predicate Blank(row: SheetRow)
  {
    forall i :: 0 <= i < |row| ==> row[i].None?
  }

  /** `headers.index(name)`: the first column whose header is the name. */
  function HeaderIndex(headers: SheetRow, name: string): (r: Option<nat>)
    ensures r.Some? ==> r.value < |headers| && headers[r.value] == Some(Text(name))
    ensures r.Some? ==> forall i :: 0 <= i < r.value ==> headers[i] != Some(Text(name))
    ensures r.None? ==> forall i :: 0 <= i < |headers| ==> headers[i] != Some(Text(name))
  {
    if headers == [] then None
    else if headers[0] == Some(Text(name)) then Some(0)
    else match HeaderIndex(headers[1..], name)
      case None => None
      case Some(i) => Some(i + 1)
  }

  /** `row[i]` for a column index from `idx`; None when it raises (a column
      `idx` lacks, or a row too short for the index). */
  function CellAt(row: SheetRow, col: Option<nat>): (r: Option<Option<Cell>>)
    ensures r.Some? <==> col.Some? && col.value < |row|
    ensures r.Some? ==> r.value == row[col.value]
  {
    if col.Some? && col.value < |row| then Some(row[col.value]) else None
  }

  /** The cell of the named column. */
  function NamedCell(headers: SheetRow, row: SheetRow, name: string): Option<Option<Cell>>
  {
    CellAt(row, HeaderIndex(headers, name))
  }

  /** The part of `idx` the loop uses: where each of its eight columns is. */
  datatype Layout = Layout(home: Option<nat>, away: Option<nat>, tipoff: Option<nat>, venue: Option<nat>,
                           status: Option<nat>, homeScore: Option<nat>, awayScore: Option<nat>,
                           imageUrl: Option<nat>)

  /** `idx`, built once from the header row. */
  function LayoutOf(headers: SheetRow): Layout
  {
    Layout(HeaderIndex(headers, "home_team"), HeaderIndex(headers, "away_team"), HeaderIndex(headers, "tipoff_at"),
           HeaderIndex(headers, "venue"), HeaderIndex(headers, "status"), HeaderIndex(headers, "home_score"),
           HeaderIndex(headers, "away_score"), HeaderIndex(headers, "image_url"))
  }

  /** `int(value or 0)` for a score column, refused by the non-negative score
      column when negative. None is the exception. */
  function Score(c: Option<Cell>): (r: Option<nat>)
    ensures !CellTruthy(c) ==> r == Some(0)
    ensures c.Some? && c.value.Whole? ==> (r.Some? <==> c.value.n >= 0)
    ensures c.Some? && c.value.Moment? ==> r.None?
  {
    if !CellTruthy(c) then Some(0)
    else match c.value
      case Whole(n) => if n >= 0 then Some(n) else None
      case Text(s) => (match ParseInt(s) case Some(n) => if n >= 0 then Some(n) else None case None => None)
      case Moment(_) => None
  }

  /** The tip-off: a date-time cell as it is, anything else through strptime. */
  function Tipoff(c: Option<Cell>, parseTipoff: TipoffParser, showMoment: MomentText): (r: Option<int>)
    ensures c.Some? && c.value.Moment? ==> r == Some(c.value.t)
  {
    if c.Some? && c.value.Moment? then Some(c.value.t) else parseTipoff(Trim(CellStr(c, showMoment)))
  }

  /** A text column of the row's defaults; a blank cell is stored as "" (see
      VenueAsWritten for what the command does instead). */
  function OptionalText(c: Option<Cell>, showMoment: MomentText): (r: string)
    ensures !CellTruthy(c) ==> r == ""
    ensures CellTruthy(c) ==> r == CellStr(c, showMoment)
  {
    if CellTruthy(c) then CellStr(c, showMoment) else ""
  }

  /** What one non-blank row asks for: the lookup key and the defaults. */
  datatype RowValues = RowValues(home: string, away: string, tipoff: int, venue: string, status: string,
                                 homeScore: nat, awayScore: nat, imageUrl: string)

  /** The values of the eight cells a row is read from, or None when reading
      them raises: a tip-off strptime refuses, or a score int() refuses or
      the non-negative score column does. */
  function FromCells(home: Option<Cell>, away: Option<Cell>, tip: Option<Cell>, venue: Option<Cell>,
                     status: Option<Cell>, hs: Option<Cell>, as_: Option<Cell>, image: Option<Cell>,
                     parseTipoff: TipoffParser, showMoment: MomentText): (r: Option<RowValues>)
    ensures r.Some? <==> Tipoff(tip, parseTipoff, showMoment).Some? && Score(hs).Some? && Score(as_).Some?
    ensures r.Some? ==>
              && r.value.home == Trim(CellStr(home, showMoment)) && Stripped(r.value.home)
              && r.value.away == Trim(CellStr(away, showMoment)) && Stripped(r.value.away)
              && r.value.tipoff == Tipoff(tip, parseTipoff, showMoment).value
              && r.value.homeScore == Score(hs).value && r.value.awayScore == Score(as_).value
              && r.value.venue == OptionalText(venue, showMoment)
              && r.value.imageUrl == OptionalText(image, showMoment)
              && (CellTruthy(status) ==> r.value.status == CellStr(status, showMoment))
              && (!CellTruthy(status) ==> r.value.status == Scheduled)
  {
    var t, h, a := Tipoff(tip, parseTipoff, showMoment), Score(hs), Score(as_);
    if t.None? || h.None? || a.None? then None
    else
      Some(RowValues(Trim(CellStr(home, showMoment)), Trim(CellStr(away, showMoment)), t.value,
                     OptionalText(venue, showMoment),
                     if CellTruthy(status) then CellStr(status, showMoment) else Scheduled,
                     h.value, a.value, OptionalText(image, showMoment)))
  }

  /** Every column the loop reads is present, and the row is long enough for it. */
  predicate HasColumns(layout: Layout, row: SheetRow)
  {
    && CellAt(row, layout.home).Some? && CellAt(row, layout.away).Some? && CellAt(row, layout.tipoff).Some?
    && CellAt(row, layout.venue).Some? && CellAt(row, layout.status).Some?
    && CellAt(row, layout.homeScore).Some? && CellAt(row, layout.awayScore).Some?
    && CellAt(row, layout.imageUrl).Some?
  }

  /** The values of a non-blank row, or None when reading them raises: a
      missing column (KeyError, or TypeError for `row[None]`), a short row
      (IndexError), or a cell FromCells refuses. */
  function ReadRow(layout: Layout, row: SheetRow, parseTipoff: TipoffParser, showMoment: MomentText)
    : (r: Option<RowValues>)
    ensures r.Some? ==> HasColumns(layout, row)
  {
    if !HasColumns(layout, row) then None
    else FromCells(CellAt(row, layout.home).value, CellAt(row, layout.away).value,
                   CellAt(row, layout.tipoff).value, CellAt(row, layout.venue).value,
                   CellAt(row, layout.status).value, CellAt(row, layout.homeScore).value,
                   CellAt(row, layout.awayScore).value, CellAt(row, layout.imageUrl).value,
                   parseTipoff, showMoment)
  }

  /** Columns are found by their header, not their position: two sheets that
      agree on every named cell read the same, whatever their column order. */
  lemma ColumnsByName(h1: SheetRow, r1: SheetRow, h2: SheetRow, r2: SheetRow,
                      parseTipoff: TipoffParser, showMoment: MomentText)
    requires forall name: string :: NamedCell(h1, r1, name) == NamedCell(h2, r2, name)
    ensures ReadRow(LayoutOf(h1), r1, parseTipoff, showMoment) == ReadRow(LayoutOf(h2), r2, parseTipoff, showMoment)
  {
    assert NamedCell(h1, r1, "home_team") == NamedCell(h2, r2, "home_team");
    assert NamedCell(h1, r1, "away_team") == NamedCell(h2, r2, "away_team");
    assert NamedCell(h1, r1, "tipoff_at") == NamedCell(h2, r2, "tipoff_at");
    assert NamedCell(h1, r1, "venue") == NamedCell(h2, r2, "venue");
    assert NamedCell(h1, r1, "status") == NamedCell(h2, r2, "status");
    assert NamedCell(h1, r1, "home_score") == NamedCell(h2, r2, "home_score");
    assert NamedCell(h1, r1, "away_score") == NamedCell(h2, r2, "away_score");
    assert NamedCell(h1, r1, "image_url") == NamedCell(h2, r2, "image_url");
  }

  /** A header found at position i is found there by headers.index. */
  lemma HeaderAt(headers: SheetRow, name: string, i: nat)
    requires i < |headers| && headers[i] == Some(Text(name))
    requires forall j :: 0 <= j < i ==> headers[j] != Some(Text(name))
    ensures HeaderIndex(headers, name) == Some(i)
  {
  }

  /** The update_or_create lookup: home team, away team and tip-off. */
  function Key(m: MatchRow): (string, string, int)
  {
    (m.home, m.away, m.tipoff)
  }

  function RowKey(v: RowValues): (string, string, int)
  {
    (v.home, v.away, v.tipoff)
  }

  /** The stored matches with this row's key. */
  function SameKey(rows: map<nat, MatchRow>, v: RowValues): (ks: set<nat>)
    ensures forall k :: k in ks <==> k in rows && Key(rows[k]) == RowKey(v)
  {
    set k | k in rows && Key(rows[k]) == RowKey(v)
  }

  /** At most one stored match per key. */
  ghost predicate UniqueKeys(rows: map<nat, MatchRow>)
  {
    forall j, k :: j in rows && k in rows && Key(rows[j]) == Key(rows[k]) ==> j == k
  }

  /** The match a row creates: its key, its defaults and no period scores. */
  function NewMatch(v: RowValues): (r: MatchRow)
    ensures Key(r) == RowKey(v)
  {
    MatchRow(v.home, v.away, v.tipoff, v.venue, v.imageUrl, v.status, v.homeScore, v.awayScore, NoPeriods, NoPeriods)
  }

  /** The defaults written over a stored match: exactly venue, status, the
      two totals and image_url change. */
  function WithDefaults(m: MatchRow, v: RowValues): (r: MatchRow)
    ensures Key(r) == Key(m) && r.homePeriods == m.homePeriods && r.awayPeriods == m.awayPeriods
    ensures r.venue == v.venue && r.status == v.status && r.imageUrl == v.imageUrl
    ensures r.homeScore == v.homeScore && r.awayScore == v.awayScore
  {
    m.(venue := v.venue, status := v.status, homeScore := v.homeScore, awayScore := v.awayScore, imageUrl := v.imageUrl)
  }

  function UpdateMatches(rows: map<nat, MatchRow>, ks: set<nat>, v: RowValues): (r: map<nat, MatchRow>)
    ensures r.Keys == rows.Keys
    ensures forall k :: k in rows ==> r[k] == if k in ks then WithDefaults(rows[k], v) else rows[k]
  {
    map k | k in rows :: if k in ks then WithDefaults(rows[k], v) else rows[k]
  }

  /** How the loop treats one row: skipped when blank, an exception when it
      cannot be read, otherwise its values. */
  datatype RowRead = Skip | Broken | Values(v: RowValues)

  function Classify(layout: Layout, row: SheetRow, parseTipoff: TipoffParser, showMoment: MomentText): (r: RowRead)
    ensures r.Skip? <==> Blank(row)
    ensures r.Broken? <==> !Blank(row) && ReadRow(layout, row, parseTipoff, showMoment).None?
    ensures r.Values? ==> ReadRow(layout, row, parseTipoff, showMoment) == Some(r.v)
  {
    if Blank(row) then Skip
    else match ReadRow(layout, row, parseTipoff, showMoment)
      case None => Broken
      case Some(v) => Values(v)
  }

  /** The command's state between rows; `crashed` is an exception, which ends
      the command with the rows already written kept. */
  datatype ImportState = ImportState(rows: map<nat, MatchRow>, nextId: nat, count: nat, crashed: bool)

  /** update_or_create for one row: no match with the key creates one (which
      the check constraint refuses when the teams are equal), one is updated,
      two or more raise MultipleObjectsReturned. */
  function Upsert(st: ImportState, v: RowValues): (r: ImportState)
    requires !st.crashed
    ensures !r.crashed ==> r.count == st.count + 1
    ensures r.crashed ==> r.rows == st.rows && r.nextId == st.nextId
  {
    var ks := SameKey(st.rows, v);
    if |ks| == 0 then
      if StoredMatch(NewMatch(v))
      then st.(rows := st.rows[st.nextId := NewMatch(v)], nextId := st.nextId + 1, count := st.count + 1)
      else st.(crashed := true)
    else if |ks| == 1 then st.(rows := UpdateMatches(st.rows, ks, v), count := st.count + 1)
    else st.(crashed := true)
  }

  /** One row of the loop; after an exception nothing more happens. */
  function Step(st: ImportState, rr: RowRead): (r: ImportState)
    ensures st.crashed || rr.Skip? ==> r == st
    ensures !st.crashed && rr.Broken? ==> r == st.(crashed := true)
  {
    if st.crashed then st
    else match rr
      case Skip => st
      case Broken => st.(crashed := true)
      case Values(v) => Upsert(st, v)
  }

  /** What the loop makes of each row of the sheet. */
  function RowOutcomes(layout: Layout, sheet: seq<SheetRow>, parseTipoff: TipoffParser, showMoment: MomentText)
    : (r: seq<RowRead>)
    ensures |r| == |sheet|
    ensures forall i :: 0 <= i < |sheet| ==> r[i] == Classify(layout, sheet[i], parseTipoff, showMoment)
  {
    seq(|sheet|, i requires 0 <= i < |sheet| => Classify(layout, sheet[i], parseTipoff, showMoment))
  }

  /** The loop over the rows, as a fold from the last row back. */
  function ImportRows(st: ImportState, outcomes: seq<RowRead>): ImportState
  {
    if outcomes == [] then st else Step(ImportRows(st, outcomes[..|outcomes| - 1]), outcomes[|outcomes| - 1])
  }

  /** The number of rows that are not skipped. */
  function NonBlankCount(outcomes: seq<RowRead>): (n: nat)
    ensures n <= |outcomes|
  {
    if outcomes == [] then 0 else NonBlankCount(outcomes[..|outcomes| - 1]) + (if outcomes[|outcomes| - 1].Skip? then 0 else 1)
  }

  /** Without a crash, the reported count is the number of non-blank rows. */
  lemma {:induction false} ImportCount(st: ImportState, outcomes: seq<RowRead>)
    requires !ImportRows(st, outcomes).crashed
    ensures ImportRows(st, outcomes).count == st.count + NonBlankCount(outcomes)
  {
    if outcomes != [] {
      assert !ImportRows(st, outcomes[..|outcomes| - 1]).crashed;
      ImportCount(st, outcomes[..|outcomes| - 1]);
    }
  }

  /** The invariant the import keeps: keys below nextId, the table's check
      constraint, and one match per key. */
  ghost predicate Consistent(st: ImportState)
  {
    && 0 < st.nextId
    && (forall k :: k in st.rows ==> 0 < k < st.nextId && StoredMatch(st.rows[k]))
    && UniqueKeys(st.rows)
  }

  /** An upsert keeps the invariant and every stored match's key; it never
      finds two matches for a key; a stored key is updated in place, adding
      no match; a new key is created at nextId unless its teams are equal. */
  lemma UpsertKeeps(st: ImportState, v: RowValues)
    requires Consistent(st) && !st.crashed
    ensures var r := Upsert(st, v);
      && Consistent(r)
      && (forall k :: k in st.rows ==> k in r.rows && Key(r.rows[k]) == Key(st.rows[k]))
      && (SameKey(st.rows, v) != {} ==> !r.crashed && r.rows.Keys == st.rows.Keys && r.nextId == st.nextId)
      && (SameKey(st.rows, v) == {} ==> (r.crashed <==> v.home == v.away))
      && (!r.crashed ==> SameKey(r.rows, v) != {})
  {
    var ks := SameKey(st.rows, v);
    if |ks| >= 2 {
      var j :| j in ks;
      assert ks == (ks - {j}) + {j};
      var k :| k in ks - {j};
      assert false;
    }
    if |ks| == 0 {
      assert st.nextId !in st.rows;
    } else {
      var k :| k in ks;
    }
  }

  /** The import keeps the invariant. */
  lemma {:induction false} ImportKeeps(st: ImportState, outcomes: seq<RowRead>)
    requires Consistent(st)
    ensures Consistent(ImportRows(st, outcomes))
  {
    if outcomes != [] {
      var prefix := outcomes[..|outcomes| - 1];
      ImportKeeps(st, prefix);
      var before := ImportRows(st, prefix);
      var rr := outcomes[|outcomes| - 1];
      if !before.crashed && rr.Values? {
        UpsertKeeps(before, rr.v);
      }
    }
  }

  /** Importing a row whose key is stored updates that match: its key, its
      period scores and every other match are kept, and the table does not grow. */
  lemma ReimportUpdates(st: ImportState, v: RowValues, k: nat)
    requires Consistent(st) && !st.crashed && k in SameKey(st.rows, v)
    ensures var r := Upsert(st, v);
      && !r.crashed && r.rows.Keys == st.rows.Keys && r.nextId == st.nextId
      && r.rows[k] == WithDefaults(st.rows[k], v)
      && forall j :: j in st.rows && j != k ==> r.rows[j] == st.rows[j]
  {
    UpsertKeeps(st, v);
    var ks := SameKey(st.rows, v);
    assert ks == {k} by {
      forall j | j in ks ensures j == k {
      }
    }
  }

  /** No row raises on reading, and every readable row has its key among the rows. */
  ghost predicate Covers(rows: map<nat, MatchRow>, outcomes: seq<RowRead>)
  {
    forall i :: 0 <= i < |outcomes| ==>
      !outcomes[i].Broken? && (outcomes[i].Values? ==> SameKey(rows, outcomes[i].v) != {})
  }

  /** The same matches under the same keys, other fields aside. */
  ghost predicate SameShape(a: map<nat, MatchRow>, b: map<nat, MatchRow>)
  {
    a.Keys == b.Keys && forall k :: k in a ==> Key(a[k]) == Key(b[k])
  }

  /** After an import that does not raise, every readable row's match is stored. */
  lemma {:induction false} ImportCovers(st: ImportState, outcomes: seq<RowRead>)
    requires Consistent(st)
    requires !ImportRows(st, outcomes).crashed
    ensures Covers(ImportRows(st, outcomes).rows, outcomes)
  {
    if outcomes != [] {
      var prefix := outcomes[..|outcomes| - 1];
      var before := ImportRows(st, prefix);
      var after := ImportRows(st, outcomes);
      var rr := outcomes[|outcomes| - 1];
      assert !before.crashed;
      ImportCovers(st, prefix);
      ImportKeeps(st, prefix);
      if rr.Values? {
        UpsertKeeps(before, rr.v);
      }
      assert forall k :: k in before.rows ==> k in after.rows && Key(after.rows[k]) == Key(before.rows[k]);
      forall i | 0 <= i < |prefix|
        ensures !outcomes[i].Broken? && (outcomes[i].Values? ==> SameKey(after.rows, outcomes[i].v) != {})
      {
        assert prefix[i] == outcomes[i];
        if outcomes[i].Values? {
          var k :| k in SameKey(before.rows, outcomes[i].v);
          assert k in SameKey(after.rows, outcomes[i].v);
        }
      }
    }
  }

  /** Importing onto rows that already cover the sheet raises nothing and
      only updates: the same matches keep the same keys and no id is used. */
  lemma {:induction false} CoveredImportOnlyUpdates(st: ImportState, outcomes: seq<RowRead>)
    requires Consistent(st) && !st.crashed && Covers(st.rows, outcomes)
    ensures var r := ImportRows(st, outcomes);
      !r.crashed && SameShape(r.rows, st.rows) && r.nextId == st.nextId
  {
    if outcomes != [] {
      var prefix := outcomes[..|outcomes| - 1];
      var before := ImportRows(st, prefix);
      assert Covers(st.rows, prefix) by {
        forall i | 0 <= i < |prefix|
          ensures !prefix[i].Broken? && (prefix[i].Values? ==> SameKey(st.rows, prefix[i].v) != {})
        {
          assert prefix[i] == outcomes[i];
        }
      }
      CoveredImportOnlyUpdates(st, prefix);
      ImportKeeps(st, prefix);
      assert !before.crashed && SameShape(before.rows, st.rows);
      var rr := outcomes[|outcomes| - 1];
      if rr.Values? {
        var k :| k in SameKey(st.rows, rr.v);
        assert k in SameKey(before.rows, rr.v);
        UpsertKeeps(before, rr.v);
      }
    }
  }

  /** Importing the same sheet twice: the second run raises nothing, creates
      no match and leaves every match under its key, so re-importing updates
      the stored matches instead of duplicating them. */
  lemma ReimportCreatesNothing(st: ImportState, outcomes: seq<RowRead>)
    requires Consistent(st) && !st.crashed
    requires !ImportRows(st, outcomes).crashed
    ensures var first := ImportRows(st, outcomes);
      var second := ImportRows(first.(count := 0), outcomes);
      !second.crashed && SameShape(second.rows, first.rows) && second.nextId == first.nextId
  {
    var first := ImportRows(st, outcomes);
    ImportKeeps(st, outcomes);
    ImportCovers(st, outcomes);
    CoveredImportOnlyUpdates(first.(count := 0), outcomes);
  }

  lemma PrefixOfPrefix(outcomes: seq<RowRead>, j: nat)
    requires j < |outcomes|
    ensures outcomes[..j + 1][..j] == outcomes[..j]
  {
  }

  lemma {:induction false} CrashedStays(st: ImportState, outcomes: seq<RowRead>, j: nat)
    requires j <= |outcomes|
    requires ImportRows(st, outcomes[..j]).crashed
    ensures ImportRows(st, outcomes) == ImportRows(st, outcomes[..j])
    decreases |outcomes| - j
  {
    if j == |outcomes| {
      assert outcomes[..j] == outcomes;
    } else {
      PrefixOfPrefix(outcomes, j);
      CrashedStays(st, outcomes, j + 1);
    }
  }

  /** The fold over one more row is one more Step. */
  lemma ImportRowsSnoc(st: ImportState, outcomes: seq<RowRead>, i: nat)
    requires i < |outcomes|
    ensures ImportRows(st, outcomes[..i + 1]) == Step(ImportRows(st, outcomes[..i]), outcomes[i])
  {
    PrefixOfPrefix(outcomes, i);
  }

  /** `Match.objects.update_or_create` for one row's values: the table ends
      as Upsert says, and `ok` is false exactly when it raises. */
  method UpsertRow(matches: MatchTable, v: RowValues, ghost count: nat) returns (ok: bool)
    requires matches.Valid()
    modifies matches
    ensures matches.Valid()
    ensures var r := Upsert(ImportState(old(matches.rows), old(matches.nextId), count, false), v);
      ok == !r.crashed && matches.rows == r.rows && matches.nextId == r.nextId
  {
    var ks := SameKey(matches.rows, v);
    if |ks| == 0 {
      var id := matches.Create(NewMatch(v));
      ok := id.Some?;
    } else if |ks| == 1 {
      matches.rows := UpdateMatches(matches.rows, ks, v);
      ok := true;
    } else {
      ok := false;
    }
  }

  /** The body of the loop for one row: the table and the count change as Step says. */
  method ImportRow(matches: MatchTable, layout: Layout, row: SheetRow, parseTipoff: TipoffParser,
                   showMoment: MomentText, count: nat) returns (newCount: nat, crashed: bool)
    requires matches.Valid()
    modifies matches
    ensures matches.Valid()
    ensures ImportState(matches.rows, matches.nextId, newCount, crashed)
         == Step(ImportState(old(matches.rows), old(matches.nextId), count, false),
                 Classify(layout, row, parseTipoff, showMoment))
  {
    newCount, crashed := count, false;
    var rr := Classify(layout, row, parseTipoff, showMoment);
    if rr.Broken? {
      crashed := true;
    } else if rr.Values? {
      var ok := UpsertRow(matches, rr.v, count);
      if ok {
        newCount := count + 1;
      } else {
        crashed := true;
      }
    }
  }

  /** The command's loop over the rows after the header row: the table and
      the count end as the fold says, stopping at the row that raises. */
  method Handle(matches: MatchTable, headers: SheetRow, sheet: seq<SheetRow>, parseTipoff: TipoffParser,
                showMoment: MomentText) returns (count: nat, crashed: bool)
    requires matches.Valid()
    modifies matches
    ensures matches.Valid()
    ensures var r := ImportRows(ImportState(old(matches.rows), old(matches.nextId), 0, false),
                                RowOutcomes(LayoutOf(headers), sheet, parseTipoff, showMoment));
      matches.rows == r.rows && matches.nextId == r.nextId && count == r.count && crashed == r.crashed
  {
    ghost var start := ImportState(matches.rows, matches.nextId, 0, false);
    var layout := LayoutOf(headers);
    ghost var outcomes := RowOutcomes(layout, sheet, parseTipoff, showMoment);
    count, crashed := 0, false;
    var i := 0;
    while i < |sheet|
      invariant 0 <= i <= |sheet|
      invariant matches.Valid() && !crashed
      invariant ImportState(matches.rows, matches.nextId, count, crashed) == ImportRows(start, outcomes[..i])
    {
      ImportRowsSnoc(start, outcomes, i);
      count, crashed := ImportRow(matches, layout, sheet[i], parseTipoff, showMoment, count);
      if crashed {
        CrashedStays(start, outcomes, i + 1);
        return;
      }
      i := i + 1;
    }
    assert outcomes[..i] == outcomes;
  }

  // ------------------------------------------------------------- as written

  /** `row[idx.get("venue")] or None` (and the same for image_url), as the
      command writes it: a blank cell becomes None, which the NOT NULL venue
      and image_url columns refuse with an IntegrityError. */
  function VenueAsWritten(c: Option<Cell>, showMoment: MomentText): (r: Option<string>)
    ensures r.None? <==> !CellTruthy(c)
    ensures r.Some? ==> r.value == OptionalText(c, showMoment)
  {
    if CellTruthy(c) then Some(CellStr(c, showMoment)) else None
  }

  /** Whether the command as written can save a readable row: only when both
      the venue and the image_url cells are filled in. */
  predicate SavesAsWritten(layout: Layout, row: SheetRow, parseTipoff: TipoffParser, showMoment: MomentText)
  {
    && ReadRow(layout, row, parseTipoff, showMoment).Some?
    && VenueAsWritten(CellAt(row, layout.venue).value, showMoment).Some?
    && VenueAsWritten(CellAt(row, layout.imageUrl).value, showMoment).Some?
  }

  /** For every readable row, the command as written saves it exactly when
      both the venue and the image_url cells are filled in. */
  lemma AsWrittenNeedsVenueAndImage(layout: Layout, row: SheetRow, parseTipoff: TipoffParser, showMoment: MomentText)
    requires ReadRow(layout, row, parseTipoff, showMoment).Some?
    ensures SavesAsWritten(layout, row, parseTipoff, showMoment) <==>
              CellTruthy(CellAt(row, layout.venue).value) && CellTruthy(CellAt(row, layout.imageUrl).value)
  {
  }

  /** A row with both teams and a date-time tip-off, all other cells empty:
      as written its venue is NULL, so saving it raises, while storing the
      columns' blank value "" imports it as a scheduled 0-0 match. */
  lemma BlankVenueCounterexample(parseTipoff: TipoffParser, showMoment: MomentText)
    ensures VenueAsWritten(None, showMoment).None?
    ensures FromCells(Some(Text("BOS")), Some(Text("MIA")), Some(Moment(0)), None, None, None, None, None,
                      parseTipoff, showMoment)
         == Some(RowValues("BOS", "MIA", 0, "", Scheduled, 0, 0, ""))
  {
    assert Stripped("BOS") && Stripped("MIA");
  }

  /** Where the command as written does save a row, it saves what the model saves. */
  lemma AsWrittenAgreesWhenFilled(layout: Layout, row: SheetRow, parseTipoff: TipoffParser, showMoment: MomentText)
    requires SavesAsWritten(layout, row, parseTipoff, showMoment)
    ensures var v := ReadRow(layout, row, parseTipoff, showMoment).value;
      && v.venue == VenueAsWritten(CellAt(row, layout.venue).value, showMoment).value
      && v.imageUrl == VenueAsWritten(CellAt(row, layout.imageUrl).value, showMoment).value
  {
  }
}
