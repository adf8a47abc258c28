// The match data: teams, roster players, matches with their per-period scores
// and status, and player box scores. A Match row keeps its two totals next to
// seven optional period scores per side; recalc_totals_from_periods derives
// the totals from the periods.
module Matches {
  import opened Common

  datatype Team = Team(name: string, city: string, shortName: string)

  /** Team.__str__: the short name when there is one, the name otherwise. */
  function TeamDisplay(t: Team): (r: string)
    ensures t.shortName != "" ==> r == t.shortName
    ensures t.shortName == "" ==> r == t.name
    ensures t.name != "" ==> r != ""
  {
    if t.shortName != "" then t.shortName else t.name
  }

  /** A roster entry (the Player model of the matches app); (team, fullName) is unique. */
  datatype RosterPlayer = RosterPlayer(team: string, fullName: string, jerseyNumber: Option<nat>,
                                       position: string, isActive: bool)

  // Match.Status values.
  const Scheduled: string := "scheduled"
  const Live: string := "live"
  const Finished: string := "finished"
  const Canceled: string := "canceled"

  predicate IsScheduled(status: string) { status == Scheduled }
  predicate IsLive(status: string) { status == Live }
  predicate IsFinished(status: string) { status == Finished }

  /** At most one of the three status properties holds, none for a canceled
      match, and each holds only for its own value. */
  lemma StatusExclusive(status: string)
    ensures !(IsScheduled(status) && IsLive(status))
    ensures !(IsScheduled(status) && IsFinished(status))
    ensures !(IsLive(status) && IsFinished(status))
    ensures status == Canceled ==> !IsScheduled(status) && !IsLive(status) && !IsFinished(status)
    ensures IsScheduled(status) || IsLive(status) || IsFinished(status) <==> status in {Scheduled, Live, Finished}
  {
  }

  /** One side's optional scores for the four quarters and up to three overtimes. */
  datatype Periods = Periods(q1: Option<nat>, q2: Option<nat>, q3: Option<nat>, q4: Option<nat>,
                             ot1: Option<nat>, ot2: Option<nat>, ot3: Option<nat>)

  const NoPeriods := Periods(None, None, None, None, None, None, None)

  /** The list recalc_totals_from_periods sums, in its order: quarters, then overtimes. */
  function Parts(p: Periods): (r: seq<Option<nat>>)
    ensures |r| == 7
    ensures r[..4] == [p.q1, p.q2, p.q3, p.q4]
    ensures r[4..] == [p.ot1, p.ot2, p.ot3]
  {
    [p.q1, p.q2, p.q3, p.q4, p.ot1, p.ot2, p.ot3]
  }

  /** `sum(p or 0 for p in parts)`. */
  function SumPresent(parts: seq<Option<nat>>): nat
  {
    if parts == [] then 0 else parts[0].GetOr(0) + SumPresent(parts[1..])
  }

  function PeriodSum(p: Periods): nat
  {
    SumPresent(Parts(p))
  }

  lemma SumCons(x: Option<nat>, s: seq<Option<nat>>)
    ensures SumPresent([x] + s) == x.GetOr(0) + SumPresent(s)
  {
    assert ([x] + s)[1..] == s;
  }

  /** The total is the sum of the seven periods, a missing one counting 0. */
  lemma PeriodSumExplicit(p: Periods)
    ensures PeriodSum(p) == p.q1.GetOr(0) + p.q2.GetOr(0) + p.q3.GetOr(0) + p.q4.GetOr(0)
                            + p.ot1.GetOr(0) + p.ot2.GetOr(0) + p.ot3.GetOr(0)
  {
    var s6: seq<Option<nat>> := [p.ot3];
    var s5 := [p.ot2] + s6;
    var s4 := [p.ot1] + s5;
    var s3 := [p.q4] + s4;
    var s2 := [p.q3] + s3;
    var s1 := [p.q2] + s2;
    var s0 := [p.q1] + s1;
    SumCons(p.ot3, []);
    SumCons(p.ot2, s6);
    SumCons(p.ot1, s5);
    SumCons(p.q4, s4);
    SumCons(p.q3, s3);
    SumCons(p.q2, s2);
    SumCons(p.q1, s1);
    assert [p.ot3] + [] == s6;
    assert Parts(p) == s0;
  }

  /** went_to_ot: any of the six overtime values (three per side) is set. */
  function WentToOt(home: Periods, away: Periods): (r: bool)
    ensures r <==> exists i :: 4 <= i < 7 && (Parts(home)[i].Some? || Parts(away)[i].Some?)
  {
    var r := home.ot1.Some? || away.ot1.Some? || home.ot2.Some? || away.ot2.Some?
             || home.ot3.Some? || away.ot3.Some?;
    assert home.ot1 == Parts(home)[4] && home.ot2 == Parts(home)[5] && home.ot3 == Parts(home)[6];
    assert away.ot1 == Parts(away)[4] && away.ot2 == Parts(away)[5] && away.ot3 == Parts(away)[6];
    r
  }

  /** Quarter scores play no part in went_to_ot, and a game without overtime
      totals its four quarters only. */
  lemma WentToOtIgnoresQuarters(home: Periods, away: Periods, h: Periods, a: Periods)
    requires h.ot1 == home.ot1 && h.ot2 == home.ot2 && h.ot3 == home.ot3
    requires a.ot1 == away.ot1 && a.ot2 == away.ot2 && a.ot3 == away.ot3
    ensures WentToOt(h, a) == WentToOt(home, away)
    ensures !WentToOt(home, away) ==>
              PeriodSum(home) == home.q1.GetOr(0) + home.q2.GetOr(0) + home.q3.GetOr(0) + home.q4.GetOr(0)
  {
    PeriodSumExplicit(home);
  }

  datatype MatchRow = MatchRow(
    home: string,
    away: string,
    /** tipoff_at, an opaque ordered timestamp. */
    tipoff: int,
    venue: string,
    imageUrl: string,
    status: string,
    homeScore: nat,
    awayScore: nat,
    homePeriods: Periods,
    awayPeriods: Periods)

  /** The match_home_neq_away check constraint; the totals are non-negative by type. */
  predicate StoredMatch(m: MatchRow)
  {
    m.home != m.away
  }

  /** The row after recalc_totals_from_periods: both totals recomputed from
      their periods and nothing else changed. */
  function Recalc(m: MatchRow): (r: MatchRow)
    ensures r.homeScore == PeriodSum(m.homePeriods) && r.awayScore == PeriodSum(m.awayPeriods)
    ensures r.(homeScore := m.homeScore, awayScore := m.awayScore) == m
  {
    m.(homeScore := PeriodSum(m.homePeriods), awayScore := PeriodSum(m.awayPeriods))
  }

  /** Recalculating twice is recalculating once, and keeps a stored match stored. */
  lemma RecalcIdempotent(m: MatchRow)
    ensures Recalc(Recalc(m)) == Recalc(m)
    ensures StoredMatch(m) ==> StoredMatch(Recalc(m))
  {
  }

  /** A player's line for one match. `minutes` is a count of minutes, possibly fractional. */
  datatype BoxScore = BoxScore(
    matchId: nat,
    playerId: nat,
    team: string,
    isStarter: bool,
    minutes: real,
    pts: nat, reb: nat, ast: nat, stl: nat, blk: nat, tov: nat, pf: nat,
    fgMade: nat, fgAtt: nat, tpMade: nat, tpAtt: nat, ftMade: nat, ftAtt: nat,
    plusMinus: int)

  /** fg_pct, tp_pct and ft_pct: made over attempted, 0 with no attempts. */
  function Pct(made: nat, att: nat): (r: real)
    ensures att == 0 ==> r == 0.0
    ensures att > 0 ==> r * (att as real) == made as real
    ensures made <= att ==> 0.0 <= r <= 1.0
  {
    if att > 0 then made as real / att as real else 0.0
  }

  function FgPct(b: BoxScore): real { Pct(b.fgMade, b.fgAtt) }
  function TpPct(b: BoxScore): real { Pct(b.tpMade, b.tpAtt) }
  function FtPct(b: BoxScore): real { Pct(b.ftMade, b.ftAtt) }

  /** The stored matches, keyed by primary key. Keys are handed out from 1
      upwards, as the database's auto-increment does. */
  class MatchTable {
    var rows: map<nat, MatchRow>
    var nextId: nat

    ghost predicate Valid()
      reads this
    {
      0 < nextId && forall k :: k in rows ==> 0 < k < nextId && StoredMatch(rows[k])
    }

    constructor ()
      ensures Valid() && rows == map[] && nextId == 1
    {
      rows := map[];
      nextId := 1;
    }

    /** `Match.objects.create(...)`: the database refuses a row whose teams are
        equal; otherwise it gets the next key. */
    method Create(m: MatchRow) returns (id: Option<nat>)
      requires Valid()
      modifies this
      ensures Valid()
      ensures id.Some? <==> StoredMatch(m)
      ensures id.Some? ==> id.value == old(nextId) && rows == old(rows)[id.value := m] && nextId == old(nextId) + 1
      ensures id.None? ==> rows == old(rows) && nextId == old(nextId)
    {
      if !StoredMatch(m) {
        return None;
      }
      id := Some(nextId);
      rows := rows[nextId := m];
      nextId := nextId + 1;
    }
  }

  /** A Match instance in memory: its primary key once saved, and its field values. */
  class Match {
    var pk: Option<nat>
    var row: MatchRow

    constructor (pk: Option<nat>, row: MatchRow)
      ensures this.pk == pk && this.row == row
    {
      this.pk := pk;
      this.row := row;
    }

    /** recalc_totals_from_periods(save): the instance's totals become the period
        sums; with `save` only the two total columns of the stored row are
        written. Saving an instance with no key, or whose row is gone, fails. */
    method RecalcTotalsFromPeriods(save: bool, table: MatchTable) returns (ok: bool)
      requires table.Valid()
      modifies this, table
      ensures table.Valid()
      ensures row == Recalc(old(row)) && pk == old(pk)
      ensures table.nextId == old(table.nextId)
      ensures ok <==> !save || (pk.Some? && pk.value in old(table.rows))
      ensures ok && save ==>
                table.rows == old(table.rows)[pk.value := old(table.rows)[pk.value].(homeScore := row.homeScore,
                                                                                 awayScore := row.awayScore)]
      ensures !(ok && save) ==> table.rows == old(table.rows)
    {
      row := Recalc(row);
      if !save {
        return true;
      }
      if pk.None? || pk.value !in table.rows {
        return false;
      }
      var stored := table.rows[pk.value];
      table.rows := table.rows[pk.value := stored.(homeScore := row.homeScore, awayScore := row.awayScore)];
      ok := true;
    }
  }

  /** The stored box scores; one per (match, player) pair. */
  class BoxScoreTable {
    var rows: map<nat, BoxScore>
    var nextId: nat

    ghost predicate Valid()
      reads this
    {
      && 0 < nextId
      && (forall k :: k in rows ==> 0 < k < nextId)
      && (forall j, k ::
            j in rows && k in rows && rows[j].matchId == rows[k].matchId && rows[j].playerId == rows[k].playerId
            ==> j == k)
    }

    constructor ()
      ensures Valid() && rows == map[] && nextId == 1
    {
      rows := map[];
      nextId := 1;
    }
  }

  /** Another stored line than `except` already has this (match, player) pair. */
  predicate PairTaken(rows: map<nat, BoxScore>, b: BoxScore, except: Option<nat>)
  {
    exists k :: k in rows && Some(k) != except && rows[k].matchId == b.matchId && rows[k].playerId == b.playerId
  }
}
