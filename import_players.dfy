// The import_players management command: it reads per-game averages from a
// CSV file (one dictionary per row, a missing column being None) and
// updates or creates one player per (name, team) pair, counting how many
// rows created a player and how many updated one.
module PlayerImport {
  import opened Common
  import opened Players

  /** One row as csv.DictReader yields it: an absent key reads as None. */
  type CsvRow = map<string, string>

  /** The texts to_float reads as "no value". */
  const Sentinels: set<string> := {"", "-", "NA", "None"}

  /** to_float(v) with its default 0.0: None, a sentinel after trimming, and
      text float() refuses all give the default. */
  function ToFloat(v: Option<string>, parseFloat: FloatParser): (r: real)
    ensures v.Some? && Trim(v.value) !in Sentinels && parseFloat(Trim(v.value)).Some? ==>
              r == parseFloat(Trim(v.value)).value
    ensures !(v.Some? && Trim(v.value) !in Sentinels && parseFloat(Trim(v.value)).Some?) ==> r == 0.0
  {
    if v.None? then 0.0
    else
      var s := Trim(v.value);
      if s in Sentinels then 0.0
      else match parseFloat(s)
        case None => 0.0
        case Some(x) => x
  }

  /** Surrounding whitespace never changes what to_float reads. */
  lemma ToFloatTrims(s: string, parseFloat: FloatParser)
    ensures ToFloat(Some(Trim(s)), parseFloat) == ToFloat(Some(s), parseFloat)
    ensures Trim(s) in Sentinels ==> ToFloat(Some(s), parseFloat) == 0.0
  {
    assert Trim(Trim(s)) == Trim(s);
  }

  /** `row.get("TRB") or row.get("REB")`: the REB column stands in when TRB is empty or absent. */
  function ReboundText(row: CsvRow): (r: Option<string>)
    ensures Truthy(Get(row, "TRB")) ==> r == Some(row["TRB"])
    ensures !Truthy(Get(row, "TRB")) ==> r == Get(row, "REB")
  {
    if Truthy(Get(row, "TRB")) then Get(row, "TRB") else Get(row, "REB")
  }

  /** The rows the command imports: a non-empty player and team, and not the
      "TOT" aggregate unless asked for. */
  predicate Kept(row: CsvRow, includeTot: bool)
  {
    Truthy(Get(row, "Player")) && Truthy(Get(row, "Tm")) && !(row["Tm"] == "TOT" && !includeTot)
  }

  /** The stored players with this (name, team) pair. */
  function SamePair(rows: map<nat, Player>, name: string, team: string): (ks: set<nat>)
    ensures forall k :: k in ks <==> k in rows && rows[k].name == name && rows[k].team == team
  {
    set k | k in rows && rows[k].name == name && rows[k].team == team
  }

  /** At most one stored player per (name, team) pair. */
  ghost predicate UniquePairs(rows: map<nat, Player>)
  {
    forall j, k :: j in rows && k in rows && rows[j].name == rows[k].name && rows[j].team == rows[k].team ==> j == k
  }

  /** The `defaults` of update_or_create, written over a player. */
  function WithRowStats(p: Player, row: CsvRow, parseFloat: FloatParser): Player
  {
    p.(position := if Truthy(Get(row, "Pos")) then row["Pos"] else "",
       pointsPerGame := ToFloat(Get(row, "PTS"), parseFloat),
       reboundsPerGame := ToFloat(ReboundText(row), parseFloat),
       assistsPerGame := ToFloat(Get(row, "AST"), parseFloat))
  }

  /** The player a kept row creates. */
  function NewPlayer(row: CsvRow, parseFloat: FloatParser): (p: Player)
    requires Truthy(Get(row, "Player")) && Truthy(Get(row, "Tm"))
    ensures p.name == row["Player"] && p.team == row["Tm"]
  {
    WithRowStats(Player(row["Player"], "", row["Tm"], 0.0, 0.0, 0.0), row, parseFloat)
  }

  /** The table after updating the players in `ks` from the row. */
  function UpdatePlayers(rows: map<nat, Player>, ks: set<nat>, row: CsvRow, parseFloat: FloatParser): (r: map<nat, Player>)
    ensures r.Keys == rows.Keys
    ensures forall k :: k in rows ==> r[k].name == rows[k].name && r[k].team == rows[k].team
  {
    map k | k in rows :: if k in ks then WithRowStats(rows[k], row, parseFloat) else rows[k]
  }

  /** The command's state between rows. `crashed` is the MultipleObjectsReturned
      that update_or_create raises when two players share the pair; it ends
      the command, keeping the rows already written. */
  datatype ImportState = ImportState(rows: map<nat, Player>, nextId: nat, created: nat, updated: nat, crashed: bool)

  ghost predicate KeysBelow(st: ImportState)
  {
    forall k :: k in st.rows ==> k < st.nextId
  }

  /** One row of the loop. */
  function Step(st: ImportState, row: CsvRow, includeTot: bool, parseFloat: FloatParser): (r: ImportState)
    ensures st.crashed || !Kept(row, includeTot) ==> r == st
    ensures !st.crashed && Kept(row, includeTot) ==>
              var ks := SamePair(st.rows, row["Player"], row["Tm"]);
              && (r.created == st.created + 1 <==> ks == {})
              && (r.updated == st.updated + 1 <==> |ks| == 1)
              && (r.crashed <==> |ks| >= 2)
              && (ks == {} ==> r.rows == st.rows[st.nextId := NewPlayer(row, parseFloat)] && r.nextId == st.nextId + 1)
              && (|ks| == 1 ==> r.rows == UpdatePlayers(st.rows, ks, row, parseFloat) && r.nextId == st.nextId)
              && (|ks| >= 2 ==> r.rows == st.rows && r.nextId == st.nextId)
    ensures KeysBelow(st) ==> KeysBelow(r)
  {
    if st.crashed || !Kept(row, includeTot) then st
    else
      var ks := SamePair(st.rows, row["Player"], row["Tm"]);
      if |ks| == 0 then
        st.(rows := st.rows[st.nextId := NewPlayer(row, parseFloat)], nextId := st.nextId + 1, created := st.created + 1)
      else if |ks| == 1 then
        st.(rows := UpdatePlayers(st.rows, ks, row, parseFloat), updated := st.updated + 1)
      else
        st.(crashed := true)
  }

  /** The whole loop, as a fold over the rows. */
  function ImportRows(st: ImportState, rows: seq<CsvRow>, includeTot: bool, parseFloat: FloatParser): (r: ImportState)
    ensures KeysBelow(st) ==> KeysBelow(r)
    ensures st.nextId <= r.nextId
  {
    if rows == [] then st
    else Step(ImportRows(st, rows[..|rows| - 1], includeTot, parseFloat), rows[|rows| - 1], includeTot, parseFloat)
  }

  /** The number of kept rows. */
  function KeptCount(rows: seq<CsvRow>, includeTot: bool): (n: nat)
    ensures n <= |rows|
  {
    if rows == [] then 0
    else KeptCount(rows[..|rows| - 1], includeTot) + (if Kept(rows[|rows| - 1], includeTot) then 1 else 0)
  }

  lemma PrefixOfPrefix(rows: seq<CsvRow>, j: nat)
    requires j < |rows|
    ensures rows[..j + 1][..j] == rows[..j]
  {
  }

  /** Once the command has crashed, the remaining rows change nothing. */
  lemma {:induction false} CrashedStays(st: ImportState, rows: seq<CsvRow>, j: nat, includeTot: bool, parseFloat: FloatParser)
    requires j <= |rows|
    requires ImportRows(st, rows[..j], includeTot, parseFloat).crashed
    ensures ImportRows(st, rows, includeTot, parseFloat) == ImportRows(st, rows[..j], includeTot, parseFloat)
    decreases |rows| - j
  {
    if j == |rows| {
      assert rows[..j] == rows;
    } else {
      PrefixOfPrefix(rows, j);
      assert ImportRows(st, rows[..j + 1], includeTot, parseFloat) == ImportRows(st, rows[..j], includeTot, parseFloat);
      CrashedStays(st, rows, j + 1, includeTot, parseFloat);
    }
  }

  /** Starting from a table with at most one player per pair, the import never
      crashes and leaves at most one player per pair. */
  lemma {:induction false} ImportKeepsPairsUnique(st: ImportState, rows: seq<CsvRow>, includeTot: bool, parseFloat: FloatParser)
    requires !st.crashed && KeysBelow(st) && UniquePairs(st.rows)
    ensures var r := ImportRows(st, rows, includeTot, parseFloat);
      !r.crashed && KeysBelow(r) && UniquePairs(r.rows)
  {
    if rows != [] {
      var prefix := rows[..|rows| - 1];
      var row := rows[|rows| - 1];
      ImportKeepsPairsUnique(st, prefix, includeTot, parseFloat);
      var before := ImportRows(st, prefix, includeTot, parseFloat);
      StepKeepsPairsUnique(before, row, includeTot, parseFloat);
    }
  }

  /** Under UniquePairs a pair names at most one stored player. */
  lemma AtMostOnePair(rows: map<nat, Player>, name: string, team: string)
    requires UniquePairs(rows)
    ensures |SamePair(rows, name, team)| <= 1
  {
    var ks := SamePair(rows, name, team);
    if ks != {} {
      var j :| j in ks;
      assert ks == {j};
    }
  }

  lemma StepKeepsPairsUnique(st: ImportState, row: CsvRow, includeTot: bool, parseFloat: FloatParser)
    requires !st.crashed && KeysBelow(st) && UniquePairs(st.rows)
    ensures var r := Step(st, row, includeTot, parseFloat);
      !r.crashed && KeysBelow(r) && UniquePairs(r.rows)
  {
    if Kept(row, includeTot) {
      AtMostOnePair(st.rows, row["Player"], row["Tm"]);
      var ks := SamePair(st.rows, row["Player"], row["Tm"]);
      if |ks| == 0 {
        assert st.nextId !in st.rows;
      }
    }
  }

  /** Without a crash, every kept row counts exactly once: as a creation or as an update. */
  lemma {:induction false} ImportCounts(st: ImportState, rows: seq<CsvRow>, includeTot: bool, parseFloat: FloatParser)
    requires !ImportRows(st, rows, includeTot, parseFloat).crashed
    ensures var r := ImportRows(st, rows, includeTot, parseFloat);
      r.created + r.updated == st.created + st.updated + KeptCount(rows, includeTot)
      && r.created >= st.created && r.updated >= st.updated
  {
    if rows != [] {
      var prefix := rows[..|rows| - 1];
      var before := ImportRows(st, prefix, includeTot, parseFloat);
      assert !before.crashed;
      ImportCounts(st, prefix, includeTot, parseFloat);
    }
  }

  /** After an import without a crash, every kept row's pair has a stored player. */
  lemma {:induction false} ImportedPairsPresent(st: ImportState, rows: seq<CsvRow>, includeTot: bool, parseFloat: FloatParser)
    requires KeysBelow(st)
    requires !ImportRows(st, rows, includeTot, parseFloat).crashed
    ensures var r := ImportRows(st, rows, includeTot, parseFloat);
      forall i :: 0 <= i < |rows| && Kept(rows[i], includeTot) ==>
        SamePair(r.rows, rows[i]["Player"], rows[i]["Tm"]) != {}
  {
    if rows != [] {
      var prefix := rows[..|rows| - 1];
      var row := rows[|rows| - 1];
      var before := ImportRows(st, prefix, includeTot, parseFloat);
      var r := ImportRows(st, rows, includeTot, parseFloat);
      assert !before.crashed;
      ImportedPairsPresent(st, prefix, includeTot, parseFloat);
      forall i | 0 <= i < |rows| && Kept(rows[i], includeTot)
        ensures SamePair(r.rows, rows[i]["Player"], rows[i]["Tm"]) != {}
      {
        if i < |rows| - 1 {
          assert rows[i] == prefix[i];
          var k :| k in SamePair(before.rows, rows[i]["Player"], rows[i]["Tm"]);
          StepKeepsPlayer(before, row, includeTot, parseFloat, k);
          assert k in SamePair(r.rows, rows[i]["Player"], rows[i]["Tm"]);
        } else {
          var ks := SamePair(before.rows, row["Player"], row["Tm"]);
          if |ks| == 0 {
            assert before.nextId in SamePair(r.rows, row["Player"], row["Tm"]);
          } else {
            var k :| k in ks;
            assert k in SamePair(r.rows, row["Player"], row["Tm"]);
          }
        }
      }
    }
  }

  /** A step removes no player and renames nobody. */
  lemma StepKeepsPlayer(st: ImportState, row: CsvRow, includeTot: bool, parseFloat: FloatParser, k: nat)
    requires k in st.rows && KeysBelow(st)
    ensures var r := Step(st, row, includeTot, parseFloat);
      k in r.rows && r.rows[k].name == st.rows[k].name && r.rows[k].team == st.rows[k].team
  {
  }

  /** The body of the loop for one row: the table and the counters change as Step says. */
  method ImportRow(players: PlayerTable, row: CsvRow, includeTot: bool, parseFloat: FloatParser,
                   created: nat, updated: nat) returns (newCreated: nat, newUpdated: nat, crashed: bool)
    requires players.Valid()
    modifies players
    ensures players.Valid()
    ensures ImportState(players.rows, players.nextId, newCreated, newUpdated, crashed)
         == Step(ImportState(old(players.rows), old(players.nextId), created, updated, false), row, includeTot, parseFloat)
  {
    newCreated, newUpdated, crashed := created, updated, false;
    if Kept(row, includeTot) {
      var ks := SamePair(players.rows, row["Player"], row["Tm"]);
      if |ks| == 0 {
        var id := players.Add(NewPlayer(row, parseFloat));
        newCreated := created + 1;
      } else if |ks| == 1 {
        players.rows := UpdatePlayers(players.rows, ks, row, parseFloat);
        newUpdated := updated + 1;
      } else {
        crashed := true;
      }
    }
  }

  /** The command's loop: the players table and the two counters end as the
      fold over the rows says, stopping at the row that crashes. */
  method Handle(players: PlayerTable, csvRows: seq<CsvRow>, includeTot: bool, parseFloat: FloatParser)
    returns (created: nat, updated: nat, crashed: bool)
    requires players.Valid()
    modifies players
    ensures players.Valid()
    ensures var r := ImportRows(ImportState(old(players.rows), old(players.nextId), 0, 0, false), csvRows, includeTot, parseFloat);
      && players.rows == r.rows && players.nextId == r.nextId
      && created == r.created && updated == r.updated && crashed == r.crashed
  {
    ghost var start := ImportState(players.rows, players.nextId, 0, 0, false);
    created, updated, crashed := 0, 0, false;
    var i := 0;
    while i < |csvRows|
      invariant 0 <= i <= |csvRows|
      invariant players.Valid() && !crashed
      invariant ImportState(players.rows, players.nextId, created, updated, crashed)
                == ImportRows(start, csvRows[..i], includeTot, parseFloat)
    {
      assert csvRows[..i + 1][..i] == csvRows[..i];
      created, updated, crashed := ImportRow(players, csvRows[i], includeTot, parseFloat, created, updated);
      if crashed {
        CrashedStays(start, csvRows, i + 1, includeTot, parseFloat);
        return;
      }
      i := i + 1;
    }
    assert csvRows[..i] == csvRows;
  }
}
