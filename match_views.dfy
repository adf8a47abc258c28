// The matches views: the public schedule and results listings (a filter and
// an order over the stored matches), the login-protected edit views (delete,
// per-period score update, adding and editing box scores) and the JSON
// endpoint the mobile client creates matches through.
module MatchViews {
  import opened Common
  import opened Accounts
  import opened Http
  import opened Sorting
  import opened Matches
  import opened MatchForms

  const DetailRoute: string := "matches:detail"
  const ScheduleRoute: string := "matches:schedule"
  const ConfirmDeletePage: string := "matches/match_confirm_delete.html"
  const ScoreFormPage: string := "matches/match_score_form.html"
  const BoxScoreFormPage: string := "matches/boxscore_form.html"
  const NotFound: Response := Status(404, map[])

  // ------------------------------------------------------------- listings

  /** The search text: `(request.GET.get("q") or "").strip()`. */
  function SearchText(query: map<string, string>): string
  {
    Trim(Get(query, "q").GetOr(""))
  }

  /** A match is found by `q` when `q` is empty or occurs, ignoring case, in
      the home team, the away team or the venue. */
  predicate SearchHit(q: string, m: MatchRow)
  {
    q == "" || IContains(m.home, q) || IContains(m.away, q) || IContains(m.venue, q)
  }

  predicate TipoffBefore(a: MatchRow, b: MatchRow) { a.tipoff <= b.tipoff }
  predicate TipoffAfter(a: MatchRow, b: MatchRow) { a.tipoff >= b.tipoff }

  /** match_schedule: every match the search finds, earliest tip-off first. */
  function MatchSchedule(stored: seq<MatchRow>, query: map<string, string>): (r: seq<MatchRow>)
    ensures forall i, j :: 0 <= i < j < |r| ==> r[i].tipoff <= r[j].tipoff
    ensures forall m :: m in r <==> m in stored && SearchHit(SearchText(query), m)
    ensures multiset(r) == multiset(Filter(stored, (m: MatchRow) => SearchHit(SearchText(query), m)))
  {
    var found := Filter(stored, (m: MatchRow) => SearchHit(SearchText(query), m));
    SortByOrdered(found, TipoffBefore);
    OrderedIsPairwise(SortBy(found, TipoffBefore), TipoffBefore);
    SortBy(found, TipoffBefore)
  }

  /** The matches match_results lists. */
  predicate ResultHit(q: string, m: MatchRow)
  {
    IsFinished(m.status) && SearchHit(q, m)
  }

  /** match_results: the finished matches the search finds, latest tip-off first. */
  function MatchResults(stored: seq<MatchRow>, query: map<string, string>): (r: seq<MatchRow>)
    ensures forall i, j :: 0 <= i < j < |r| ==> r[i].tipoff >= r[j].tipoff
    ensures forall m :: m in r <==> m in stored && IsFinished(m.status) && SearchHit(SearchText(query), m)
    ensures multiset(r) == multiset(Filter(stored, (m: MatchRow) => ResultHit(SearchText(query), m)))
  {
    var found := Filter(stored, (m: MatchRow) => ResultHit(SearchText(query), m));
    SortByOrdered(found, TipoffAfter);
    OrderedIsPairwise(SortBy(found, TipoffAfter), TipoffAfter);
    SortBy(found, TipoffAfter)
  }

  /** Results are the finished part of the schedule for the same search. */
  lemma ResultsWithinSchedule(stored: seq<MatchRow>, query: map<string, string>)
    ensures forall m :: m in MatchResults(stored, query) <==>
                        m in MatchSchedule(stored, query) && IsFinished(m.status)
  {
  }

  // ------------------------------------------------------------- access

  /** `@login_required` then `@require_http_methods(["GET", "POST"])`: None lets the view run. */
  function EditGate(u: Identity, verb: Method): (r: Option<Response>)
    ensures r.None? <==> u.Authenticated? && verb in {GET, POST}
    ensures !u.Authenticated? ==> r == LoginRequired(u)
    ensures u.Authenticated? && verb !in {GET, POST} ==> r == Some(Status(405, map[]))
  {
    match LoginRequired(u)
    case Some(refused) => Some(refused)
    case None => RequireMethods(verb, {GET, POST})
  }

  /** The edit views check login only: every logged-in user passes, whatever the role. */
  lemma AnyRolePasses(u: User, v: User, verb: Method)
    ensures EditGate(Authenticated(u), verb) == EditGate(Authenticated(v), verb)
    ensures EditGate(Anonymous, verb) == Some(Redirect(LoginUrl))
  {
  }

  /** Every stored box score belongs to a stored match and to one of its two teams. */
  ghost predicate BoxTeamsConsistent(boxes: map<nat, BoxScore>, matches: map<nat, MatchRow>)
  {
    forall k :: k in boxes ==>
      boxes[k].matchId in matches &&
      boxes[k].team in {matches[boxes[k].matchId].home, matches[boxes[k].matchId].away}
  }

  // ------------------------------------------------------------- match_delete

  /** The box scores that survive deleting match `pk` (the foreign key cascades). */
  function WithoutMatch(boxes: map<nat, BoxScore>, pk: nat): (r: map<nat, BoxScore>)
    ensures forall k :: k in r <==> k in boxes && boxes[k].matchId != pk
    ensures forall k :: k in r ==> r[k] == boxes[k]
  {
    map k | k in boxes && boxes[k].matchId != pk :: boxes[k]
  }

  /** match_delete: POST deletes the match and its box scores; GET only asks
      for confirmation. */
  method MatchDelete(request: Request, matches: MatchTable, boxes: BoxScoreTable, pk: nat)
    returns (response: Response)
    requires matches.Valid() && boxes.Valid()
    modifies matches, boxes
    ensures matches.Valid() && boxes.Valid()
    ensures matches.nextId == old(matches.nextId) && boxes.nextId == old(boxes.nextId)
    ensures BoxTeamsConsistent(old(boxes.rows), old(matches.rows)) ==> BoxTeamsConsistent(boxes.rows, matches.rows)
    ensures EditGate(request.user, request.verb).Some? ==>
              response == EditGate(request.user, request.verb).value &&
              matches.rows == old(matches.rows) && boxes.rows == old(boxes.rows)
    ensures EditGate(request.user, request.verb).None? && pk !in old(matches.rows) ==>
              response == NotFound && matches.rows == old(matches.rows) && boxes.rows == old(boxes.rows)
    ensures EditGate(request.user, request.verb).None? && pk in old(matches.rows) && request.verb == GET ==>
              response == Render(ConfirmDeletePage) && matches.rows == old(matches.rows) && boxes.rows == old(boxes.rows)
    ensures EditGate(request.user, request.verb).None? && pk in old(matches.rows) && request.verb == POST ==>
              && response == Redirect(ScheduleRoute)
              && matches.rows == old(matches.rows) - {pk}
              && boxes.rows == WithoutMatch(old(boxes.rows), pk)
  {
    var refused := EditGate(request.user, request.verb);
    if refused.Some? {
      return refused.value;
    }
    if pk !in matches.rows {
      return NotFound;
    }
    if request.verb == POST {
      matches.rows := matches.rows - {pk};
      boxes.rows := WithoutMatch(boxes.rows, pk);
      return Redirect(ScheduleRoute);
    }
    response := Render(ConfirmDeletePage);
  }

  // ------------------------------------------------------------- match_update_score

  /** The fourteen period values of a MatchScoreForm that passed field validation. */
  datatype ScoreSubmission = ScoreSubmission(home: Periods, away: Periods)

  /** match_update_score: a valid POST stores the submitted periods and then the
      totals recomputed from them; an invalid POST and a GET show the form. */
  method MatchUpdateScore(request: Request, matches: MatchTable, pk: nat, submitted: Option<ScoreSubmission>)
    returns (response: Response)
    requires matches.Valid()
    modifies matches
    ensures matches.Valid() && matches.nextId == old(matches.nextId)
    ensures EditGate(request.user, request.verb).Some? ==>
              response == EditGate(request.user, request.verb).value && matches.rows == old(matches.rows)
    ensures EditGate(request.user, request.verb).None? && pk !in old(matches.rows) ==>
              response == NotFound && matches.rows == old(matches.rows)
    ensures EditGate(request.user, request.verb).None? && pk in old(matches.rows) &&
            (request.verb == GET || submitted.None?) ==>
              response == Render(ScoreFormPage) && matches.rows == old(matches.rows)
    ensures EditGate(request.user, request.verb).None? && pk in old(matches.rows) &&
            request.verb == POST && submitted.Some? ==>
              var row := old(matches.rows)[pk].(homePeriods := submitted.value.home, awayPeriods := submitted.value.away);
              && response == Redirect(DetailRoute)
              && matches.rows == old(matches.rows)[pk := Recalc(row)]
              && matches.rows[pk].homeScore == PeriodSum(submitted.value.home)
              && matches.rows[pk].awayScore == PeriodSum(submitted.value.away)
  {
    var refused := EditGate(request.user, request.verb);
    if refused.Some? {
      return refused.value;
    }
    if pk !in matches.rows {
      return NotFound;
    }
    if request.verb == GET || submitted.None? {
      return Render(ScoreFormPage);
    }
    var m := new Match(Some(pk), matches.rows[pk]);
    // form.save(): the instance, with the submitted periods, written back whole.
    m.row := m.row.(homePeriods := submitted.value.home, awayPeriods := submitted.value.away);
    matches.rows := matches.rows[pk := m.row];
    var saved := m.RecalcTotalsFromPeriods(true, matches);
    response := Redirect(DetailRoute);
  }

  // ------------------------------------------------------------- box scores

  /** The form passed both field validation and clean. */
  predicate FormValid(form: BoundBoxForm, parseFloat: FloatParser)
  {
    form.fieldErrors == [] && CheckBoxScore(form.cleaned, parseFloat).Cleaned?
  }

  /** The box score a valid form would save for match `pk`. */
  function SubmittedBox(pk: nat, submitted: BoxFields, parseFloat: FloatParser): (b: BoxScore)
    requires CheckBoxScore(submitted, parseFloat).Cleaned?
    ensures b.matchId == pk && b.team == submitted.team.value
  {
    BoxFromForm(pk, submitted, CheckBoxScore(submitted, parseFloat).minutes)
  }

  /** Runs the bound form's validation and reports whether it is valid. */
  method ValidateBoxForm(form: BoundBoxForm, parseFloat: FloatParser) returns (valid: bool, minutes: real)
    ensures valid <==> FormValid(form, parseFloat)
    ensures valid ==> minutes == CheckBoxScore(form.cleaned, parseFloat).minutes
  {
    var f := new BoxScoreForm(form.cleaned, form.fieldErrors);
    f.Clean(parseFloat);
    valid := f.IsValid();
    minutes := if f.cleanedMinutes.Some? then f.cleanedMinutes.value else 0.0;
  }

  /** The form boxscore_add and boxscore_edit bind once the match is found,
      with the queryset the evidently intended `__init__` sets. */
  function CorrectedForm(m: MatchRow, roster: map<nat, RosterPlayer>, others: BoxFields,
                         otherErrors: seq<FormError>, posted: Option<nat>): BoundBoxForm
  {
    BindBoxForm(others, otherErrors, posted, TeamPlayers(roster, m.home, m.away))
  }

  /** What boxscore_add does with a bound form: a valid POST saves a box score
      for this match only when its team is the home or away team, and the
      database refuses a second line for the same player in the same match. */
  method AddBoxLine(request: Request, matches: MatchTable, boxes: BoxScoreTable, pk: nat,
                    form: BoundBoxForm, parseFloat: FloatParser)
    returns (response: Response)
    requires matches.Valid() && boxes.Valid()
    modifies boxes
    ensures boxes.Valid()
    ensures BoxTeamsConsistent(old(boxes.rows), matches.rows) ==> BoxTeamsConsistent(boxes.rows, matches.rows)
    ensures EditGate(request.user, request.verb).Some? ==>
              response == EditGate(request.user, request.verb).value && boxes.rows == old(boxes.rows) && boxes.nextId == old(boxes.nextId)
    ensures EditGate(request.user, request.verb).None? && pk !in matches.rows ==>
              response == NotFound && boxes.rows == old(boxes.rows) && boxes.nextId == old(boxes.nextId)
    ensures EditGate(request.user, request.verb).None? && pk in matches.rows &&
            (request.verb == GET || !FormValid(form, parseFloat)) ==>
              response == Render(BoxScoreFormPage) && boxes.rows == old(boxes.rows) && boxes.nextId == old(boxes.nextId)
    ensures EditGate(request.user, request.verb).None? && pk in matches.rows &&
            request.verb == POST && FormValid(form, parseFloat) ==>
              var b := SubmittedBox(pk, form.cleaned, parseFloat);
              && (b.team !in {matches.rows[pk].home, matches.rows[pk].away} ==>
                    response == Redirect(DetailRoute) && boxes.rows == old(boxes.rows))
              && (b.team in {matches.rows[pk].home, matches.rows[pk].away} && PairTaken(old(boxes.rows), b, None) ==>
                    response == ServerError && boxes.rows == old(boxes.rows))
              && (b.team in {matches.rows[pk].home, matches.rows[pk].away} && !PairTaken(old(boxes.rows), b, None) ==>
                    response == Redirect(DetailRoute) &&
                    boxes.rows == old(boxes.rows)[old(boxes.nextId) := b] && boxes.nextId == old(boxes.nextId) + 1)
  {
    var refused := EditGate(request.user, request.verb);
    if refused.Some? {
      return refused.value;
    }
    if pk !in matches.rows {
      return NotFound;
    }
    if request.verb == GET {
      return Render(BoxScoreFormPage);
    }
    var valid, minutes := ValidateBoxForm(form, parseFloat);
    if !valid {
      return Render(BoxScoreFormPage);
    }
    var m := matches.rows[pk];
    var box := BoxFromForm(pk, form.cleaned, minutes);
    if box.team != m.home && box.team != m.away {
      return Redirect(DetailRoute);
    }
    if PairTaken(boxes.rows, box, None) {
      return ServerError;
    }
    boxes.rows := boxes.rows[boxes.nextId := box];
    boxes.nextId := boxes.nextId + 1;
    response := Redirect(DetailRoute);
  }

  /** boxscore_add as written: the form's player field keeps the empty
      queryset, so no request ever saves a box score; a POST shows the form
      again, like a GET. */
  method BoxscoreAdd(request: Request, matches: MatchTable, boxes: BoxScoreTable, pk: nat,
                     others: BoxFields, otherErrors: seq<FormError>, posted: Option<nat>, parseFloat: FloatParser)
    returns (response: Response)
    requires matches.Valid() && boxes.Valid()
    modifies boxes
    ensures boxes.Valid() && boxes.rows == old(boxes.rows) && boxes.nextId == old(boxes.nextId)
    ensures EditGate(request.user, request.verb).Some? ==> response == EditGate(request.user, request.verb).value
    ensures EditGate(request.user, request.verb).None? && pk !in matches.rows ==> response == NotFound
    ensures EditGate(request.user, request.verb).None? && pk in matches.rows ==> response == Render(BoxScoreFormPage)
  {
    AsWrittenNeverValid(others, otherErrors, posted, parseFloat);
    response := AddBoxLine(request, matches, boxes, pk, BindBoxForm(others, otherErrors, posted, NoPlayers), parseFloat);
  }

  /** boxscore_add with the two teams' players as the queryset: a valid POST
      always names a player of this match, so the view's own team check never
      fires, and the line is saved unless that player already has one. */
  method BoxscoreAddCorrected(request: Request, matches: MatchTable, roster: map<nat, RosterPlayer>,
                              boxes: BoxScoreTable, pk: nat, others: BoxFields, otherErrors: seq<FormError>,
                              posted: Option<nat>, parseFloat: FloatParser)
    returns (response: Response)
    requires matches.Valid() && boxes.Valid()
    modifies boxes
    ensures boxes.Valid()
    ensures BoxTeamsConsistent(old(boxes.rows), matches.rows) ==> BoxTeamsConsistent(boxes.rows, matches.rows)
    ensures EditGate(request.user, request.verb).Some? ==>
              response == EditGate(request.user, request.verb).value && boxes.rows == old(boxes.rows)
    ensures EditGate(request.user, request.verb).None? && pk !in matches.rows ==>
              response == NotFound && boxes.rows == old(boxes.rows)
    ensures EditGate(request.user, request.verb).None? && pk in matches.rows ==>
              var form := CorrectedForm(matches.rows[pk], roster, others, otherErrors, posted);
              && (request.verb == GET || !FormValid(form, parseFloat) ==>
                    response == Render(BoxScoreFormPage) && boxes.rows == old(boxes.rows))
              && (request.verb == POST && FormValid(form, parseFloat) ==>
                    var b := SubmittedBox(pk, form.cleaned, parseFloat);
                    && (PairTaken(old(boxes.rows), b, None) ==> response == ServerError && boxes.rows == old(boxes.rows))
                    && (!PairTaken(old(boxes.rows), b, None) ==>
                          response == Redirect(DetailRoute) &&
                          boxes.rows == old(boxes.rows)[old(boxes.nextId) := b] && boxes.nextId == old(boxes.nextId) + 1))
  {
    var form := BindBoxForm(others, otherErrors, posted, NoPlayers);
    if pk in matches.rows {
      var m := matches.rows[pk];
      form := CorrectedForm(m, roster, others, otherErrors, posted);
      TeamPlayersChosen(roster, m.home, m.away, others, otherErrors, posted, parseFloat);
    }
    response := AddBoxLine(request, matches, boxes, pk, form, parseFloat);
  }

  /** What boxscore_edit does with a bound form: the same rule for an existing
      line of this match; a refused edit leaves the stored line as it was. */
  method EditBoxLine(request: Request, matches: MatchTable, boxes: BoxScoreTable, pk: nat, boxId: nat,
                     form: BoundBoxForm, parseFloat: FloatParser)
    returns (response: Response)
    requires matches.Valid() && boxes.Valid()
    modifies boxes
    ensures boxes.Valid() && boxes.nextId == old(boxes.nextId)
    ensures BoxTeamsConsistent(old(boxes.rows), matches.rows) ==> BoxTeamsConsistent(boxes.rows, matches.rows)
    ensures EditGate(request.user, request.verb).Some? ==>
              response == EditGate(request.user, request.verb).value && boxes.rows == old(boxes.rows)
    ensures EditGate(request.user, request.verb).None? &&
            (pk !in matches.rows || boxId !in old(boxes.rows) || old(boxes.rows)[boxId].matchId != pk) ==>
              response == NotFound && boxes.rows == old(boxes.rows)
    ensures EditGate(request.user, request.verb).None? && pk in matches.rows &&
            boxId in old(boxes.rows) && old(boxes.rows)[boxId].matchId == pk &&
            (request.verb == GET || !FormValid(form, parseFloat)) ==>
              response == Render(BoxScoreFormPage) && boxes.rows == old(boxes.rows)
    ensures EditGate(request.user, request.verb).None? && pk in matches.rows &&
            boxId in old(boxes.rows) && old(boxes.rows)[boxId].matchId == pk &&
            request.verb == POST && FormValid(form, parseFloat) ==>
              var b := SubmittedBox(pk, form.cleaned, parseFloat);
              && (b.team !in {matches.rows[pk].home, matches.rows[pk].away} ==>
                    response == Redirect(DetailRoute) && boxes.rows == old(boxes.rows))
              && (b.team in {matches.rows[pk].home, matches.rows[pk].away} && PairTaken(old(boxes.rows), b, Some(boxId)) ==>
                    response == ServerError && boxes.rows == old(boxes.rows))
              && (b.team in {matches.rows[pk].home, matches.rows[pk].away} && !PairTaken(old(boxes.rows), b, Some(boxId)) ==>
                    response == Redirect(DetailRoute) && boxes.rows == old(boxes.rows)[boxId := b])
  {
    var refused := EditGate(request.user, request.verb);
    if refused.Some? {
      return refused.value;
    }
    if pk !in matches.rows || boxId !in boxes.rows || boxes.rows[boxId].matchId != pk {
      return NotFound;
    }
    if request.verb == GET {
      return Render(BoxScoreFormPage);
    }
    var valid, minutes := ValidateBoxForm(form, parseFloat);
    if !valid {
      return Render(BoxScoreFormPage);
    }
    var m := matches.rows[pk];
    var box := BoxFromForm(pk, form.cleaned, minutes);
    if box.team != m.home && box.team != m.away {
      return Redirect(DetailRoute);
    }
    if PairTaken(boxes.rows, box, Some(boxId)) {
      return ServerError;
    }
    boxes.rows := boxes.rows[boxId := box];
    response := Redirect(DetailRoute);
  }

  /** boxscore_edit as written: as with boxscore_add, the empty queryset
      makes every POST fail validation, so no stored line ever changes. */
  method BoxscoreEdit(request: Request, matches: MatchTable, boxes: BoxScoreTable, pk: nat, boxId: nat,
                      others: BoxFields, otherErrors: seq<FormError>, posted: Option<nat>, parseFloat: FloatParser)
    returns (response: Response)
    requires matches.Valid() && boxes.Valid()
    modifies boxes
    ensures boxes.Valid() && boxes.rows == old(boxes.rows) && boxes.nextId == old(boxes.nextId)
    ensures EditGate(request.user, request.verb).Some? ==> response == EditGate(request.user, request.verb).value
    ensures EditGate(request.user, request.verb).None? &&
            (pk !in matches.rows || boxId !in old(boxes.rows) || old(boxes.rows)[boxId].matchId != pk) ==>
              response == NotFound
    ensures EditGate(request.user, request.verb).None? && pk in matches.rows &&
            boxId in old(boxes.rows) && old(boxes.rows)[boxId].matchId == pk ==>
              response == Render(BoxScoreFormPage)
  {
    AsWrittenNeverValid(others, otherErrors, posted, parseFloat);
    response := EditBoxLine(request, matches, boxes, pk, boxId, BindBoxForm(others, otherErrors, posted, NoPlayers), parseFloat);
  }

  /** boxscore_edit with the two teams' players as the queryset: a valid POST
      replaces the line unless another line of this match has that player. */
  method BoxscoreEditCorrected(request: Request, matches: MatchTable, roster: map<nat, RosterPlayer>,
                               boxes: BoxScoreTable, pk: nat, boxId: nat, others: BoxFields,
                               otherErrors: seq<FormError>, posted: Option<nat>, parseFloat: FloatParser)
    returns (response: Response)
    requires matches.Valid() && boxes.Valid()
    modifies boxes
    ensures boxes.Valid() && boxes.nextId == old(boxes.nextId)
    ensures BoxTeamsConsistent(old(boxes.rows), matches.rows) ==> BoxTeamsConsistent(boxes.rows, matches.rows)
    ensures EditGate(request.user, request.verb).Some? ==>
              response == EditGate(request.user, request.verb).value && boxes.rows == old(boxes.rows)
    ensures EditGate(request.user, request.verb).None? &&
            (pk !in matches.rows || boxId !in old(boxes.rows) || old(boxes.rows)[boxId].matchId != pk) ==>
              response == NotFound && boxes.rows == old(boxes.rows)
    ensures EditGate(request.user, request.verb).None? && pk in matches.rows &&
            boxId in old(boxes.rows) && old(boxes.rows)[boxId].matchId == pk ==>
              var form := CorrectedForm(matches.rows[pk], roster, others, otherErrors, posted);
              && (request.verb == GET || !FormValid(form, parseFloat) ==>
                    response == Render(BoxScoreFormPage) && boxes.rows == old(boxes.rows))
              && (request.verb == POST && FormValid(form, parseFloat) ==>
                    var b := SubmittedBox(pk, form.cleaned, parseFloat);
                    && (PairTaken(old(boxes.rows), b, Some(boxId)) ==> response == ServerError && boxes.rows == old(boxes.rows))
                    && (!PairTaken(old(boxes.rows), b, Some(boxId)) ==>
                          response == Redirect(DetailRoute) && boxes.rows == old(boxes.rows)[boxId := b]))
  {
    var form := BindBoxForm(others, otherErrors, posted, NoPlayers);
    if pk in matches.rows {
      var m := matches.rows[pk];
      form := CorrectedForm(m, roster, others, otherErrors, posted);
      TeamPlayersChosen(roster, m.home, m.away, others, otherErrors, posted, parseFloat);
    }
    response := EditBoxLine(request, matches, boxes, pk, boxId, form, parseFloat);
  }

  // ------------------------------------------------------------- create_match_flutter

  /** `parse_datetime`, an oracle: None when the text is not a date-time. */
  type DatetimeParser = string -> Option<int>

  /** `int(data.get(key, 0))`: a missing score is 0; None is the ValueError. */
  function ScoreField(fields: map<string, string>, key: string): (r: Option<int>)
    ensures key !in fields ==> r == Some(0)
    ensures key in fields ==> r == ParseInt(fields[key])
  {
    if key in fields then ParseInt(fields[key]) else Some(0)
  }

  /** A JSON integer n, read as its decimal text, is the score n. */
  lemma ScoreOfIntegerText(fields: map<string, string>, key: string, n: int)
    ensures ScoreField(fields[key := IntToString(n)], key) == Some(n)
  {
    ParseIntOfString(n);
  }

  const FlutterKeys: set<string> := {"home_team", "away_team", "tipoff_at", "venue", "image_url", "status"}

  /** The match create_match_flutter stores, or None when building or saving it
      raises: a missing key, an unparsable tip-off (a NULL in a NOT NULL
      column), a score that is not an integer or is negative, equal teams. */
  function FlutterMatch(body: JsonBody, parseDatetime: DatetimeParser): (r: Option<MatchRow>)
    ensures r.Some? <==>
              && body.Object? && FlutterKeys <= body.fields.Keys
              && parseDatetime(body.fields["tipoff_at"]).Some?
              && ScoreField(body.fields, "home_score").Some? && ScoreField(body.fields, "home_score").value >= 0
              && ScoreField(body.fields, "away_score").Some? && ScoreField(body.fields, "away_score").value >= 0
              && body.fields["home_team"] != body.fields["away_team"]
    ensures r.Some? ==>
              && StoredMatch(r.value)
              && r.value.home == body.fields["home_team"] && r.value.away == body.fields["away_team"]
              && r.value.tipoff == parseDatetime(body.fields["tipoff_at"]).value
              && r.value.venue == body.fields["venue"] && r.value.imageUrl == body.fields["image_url"]
              && r.value.status == body.fields["status"]
              && r.value.homeScore == ScoreField(body.fields, "home_score").value
              && r.value.awayScore == ScoreField(body.fields, "away_score").value
              && r.value.homePeriods == NoPeriods && r.value.awayPeriods == NoPeriods
  {
    if body.Malformed? || !(FlutterKeys <= body.fields.Keys) then None
    else
      var f := body.fields;
      match (parseDatetime(f["tipoff_at"]), ScoreField(f, "home_score"), ScoreField(f, "away_score"))
      case (Some(tipoff), Some(h), Some(a)) =>
        if h < 0 || a < 0 || f["home_team"] == f["away_team"] then None
        else Some(MatchRow(f["home_team"], f["away_team"], tipoff, f["venue"], f["image_url"], f["status"],
                           h, a, NoPeriods, NoPeriods))
      case _ => None
  }

  /** A scoreless body creates a 0-0 match. */
  lemma FlutterScoresDefault(body: JsonBody, parseDatetime: DatetimeParser)
    requires FlutterMatch(body, parseDatetime).Some?
    requires "home_score" !in body.fields && "away_score" !in body.fields
    ensures FlutterMatch(body, parseDatetime).value.homeScore == 0
    ensures FlutterMatch(body, parseDatetime).value.awayScore == 0
  {
  }

  /** create_match_flutter: POST stores the match built from the JSON body and
      answers 200, or answers 500 when that raises; any other method gets 401. */
  method CreateMatchFlutter(request: Request, matches: MatchTable, parseDatetime: DatetimeParser)
    returns (response: Response)
    requires matches.Valid()
    modifies matches
    ensures matches.Valid()
    ensures request.verb != POST ==>
              && response == Status(401, ErrorBody("Invalid method"))
              && matches.rows == old(matches.rows) && matches.nextId == old(matches.nextId)
    ensures request.verb == POST && FlutterMatch(request.body, parseDatetime).None? ==>
              && response == Status(500, map["status" := JStr("error")])
              && matches.rows == old(matches.rows) && matches.nextId == old(matches.nextId)
    ensures request.verb == POST && FlutterMatch(request.body, parseDatetime).Some? ==>
              && response == Status(200, map["status" := JStr("success")])
              && old(matches.nextId) !in old(matches.rows)
              && matches.rows == old(matches.rows)[old(matches.nextId) := FlutterMatch(request.body, parseDatetime).value]
              && matches.nextId == old(matches.nextId) + 1
  {
    if request.verb != POST {
      return Status(401, ErrorBody("Invalid method"));
    }
    var row := FlutterMatch(request.body, parseDatetime);
    if row.None? {
      return Status(500, map["status" := JStr("error")]);
    }
    var id := matches.Create(row.value);
    response := Status(200, map["status" := JStr("success")]);
  }
}
