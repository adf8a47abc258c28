// The match forms' own rules: MatchForm.clean (home and away must differ),
// PlayerBoxScoreForm.clean (team and player checks, the "mm:ss" or decimal
// minutes parser, shooting checks) and the "mm:ss" display of stored minutes.
// The framework's per-field cleaning runs before `clean` and is not modelled:
// `clean` receives its result, with None for a field that failed or was absent.
module MatchForms {
  import opened Common
  import opened Matches

  // ---------------------------------------------------------------- MatchForm

  /** MatchForm.clean puts an error on away_team exactly when both teams are
      given and equal. */
  function SameTeamsError(home: Option<string>, away: Option<string>): (r: bool)
    ensures r <==> home.Some? && away.Some? && home.value != "" && home.value == away.value
  {
    home.Some? && home.value != "" && away.Some? && away.value != "" && home.value == away.value
  }

  /** A match form that passes clean with both (required) teams filled in
      satisfies the stored home != away constraint. */
  lemma MatchFormKeepsTeamsApart(m: MatchRow)
    requires m.home != "" && m.away != ""
    requires !SameTeamsError(Some(m.home), Some(m.away))
    ensures StoredMatch(m)
  {
  }

  // ---------------------------------------------------------------- minutes

  datatype MinutesParse = Minutes(value: real) | BadMinutes

  /** The text `clean` parses: `(cleaned.get("minutes") or "").strip()`. */
  function MinutesText(raw: Option<string>): string
  {
    Trim(raw.GetOr(""))
  }

  /** "m:s": the text must split at ':' into exactly two integers (tuple
      unpacking raises otherwise) with m >= 0 and 0 <= s < 60. */
  function ColonMinutes(t: string): (r: MinutesParse)
    ensures r.Minutes? <==>
              var parts := Split(t, ':');
              && |parts| == 2 && ParseInt(parts[0]).Some? && ParseInt(parts[1]).Some?
              && ParseInt(parts[0]).value >= 0 && 0 <= ParseInt(parts[1]).value < 60
    ensures r.Minutes? ==>
              var parts := Split(t, ':');
              r.value == ParseInt(parts[0]).value as real + ParseInt(parts[1]).value as real / 60.0
  {
    var parts := Split(t, ':');
    if |parts| != 2 then BadMinutes
    else
      match (ParseInt(parts[0]), ParseInt(parts[1]))
      case (Some(m), Some(s)) =>
        if m < 0 || s < 0 || s >= 60 then BadMinutes else Minutes(m as real + s as real / 60.0)
      case _ => BadMinutes
  }

  /** The minutes parser of PlayerBoxScoreForm.clean: "m:s" as above, the empty
      text as 0, anything else through `float`. */
  function ParseMinutes(raw: Option<string>, parseFloat: FloatParser): (r: MinutesParse)
    ensures ':' in MinutesText(raw) ==> r == ColonMinutes(MinutesText(raw))
    ensures MinutesText(raw) == "" ==> r == Minutes(0.0)
    ensures ':' !in MinutesText(raw) && MinutesText(raw) != "" ==>
              (r.Minutes? <==> parseFloat(MinutesText(raw)).Some?) &&
              (r.Minutes? ==> r.value == parseFloat(MinutesText(raw)).value)
  {
    var t := MinutesText(raw);
    if ':' in t then ColonMinutes(t)
    else if t == "" then Minutes(0.0)
    else
      match parseFloat(t)
      case Some(x) => Minutes(x)
      case None => BadMinutes
  }

  /** Python's round() on a minutes count: the nearest integer, ties to even. */
  function RoundHalfEven(x: real): (r: int)
    ensures r as real - 0.5 <= x <= r as real + 0.5
    ensures x == r as real - 0.5 || x == r as real + 0.5 ==> r % 2 == 0
  {
    var f := x.Floor;
    var frac := x - f as real;
    if frac < 0.5 then f
    else if frac > 0.5 then f + 1
    else if f % 2 == 0 then f
    else f + 1
  }

  lemma RoundWhole(t: int)
    ensures RoundHalfEven(t as real) == t
  {
    assert (t as real).Floor == t;
  }

  /** `f"{n:02d}"`: at least two digits, zero-padded; a negative number keeps
      its sign and is not padded further (it is already two characters wide). */
  function Pad2(n: int): (r: string)
    ensures n >= 0 ==> |r| >= 2 && AllDigits(r) && DigitsValue(r) == n
    ensures 0 <= n < 100 ==> |r| == 2
    ensures n < 0 ==> r == "-" + NatToString(-n)
  {
    if n < 0 then "-" + NatToString(-n)
    else if n < 10 then
      LeadingZero(NatToString(n));
      "0" + NatToString(n)
    else
      NatToString(n)
  }

  /** A zero-padded numeral parses back to its value. */
  lemma ParsePad2(n: nat)
    ensures ParseInt(Pad2(n)) == Some(n)
  {
    ParseDigits(Pad2(n));
  }

  /** The "mm:ss" text of a number of whole seconds: divmod by 60, each half padded. */
  function FormatSeconds(total: int): string
  {
    Pad2(total / 60) + ":" + Pad2(total % 60)
  }

  /** The display of a stored minutes value: round(minutes * 60) seconds as "mm:ss". */
  function FormatMinutes(minutes: real): string
  {
    FormatSeconds(RoundHalfEven(minutes * 60.0))
  }

  /** PlayerBoxScoreForm.__init__: an edited box score (a saved instance, whose
      key is truthy) with non-zero minutes shows them as "mm:ss"; otherwise the
      field keeps its normal initial value (None here). */
  function InitialMinutes(pk: Option<nat>, minutes: real): (r: Option<string>)
    ensures r.Some? <==> pk.Some? && pk.value != 0 && minutes != 0.0
    ensures r.Some? ==> r.value == FormatMinutes(minutes)
  {
    if pk.Some? && pk.value != 0 && minutes != 0.0 then Some(FormatMinutes(minutes)) else None
  }

  /** 32.5 minutes display as "32:30". */
  lemma DisplayExample()
    ensures FormatMinutes(32.5) == "32:30"
  {
    RoundWhole(1950);
    assert 32.5 * 60.0 == 1950 as real;
    assert FormatMinutes(32.5) == FormatSeconds(1950);
    assert 1950 / 60 == 32 && 1950 % 60 == 30;
    TwoDigitExamples();
  }

  lemma TwoDigitExamples()
    ensures Pad2(32) == "32" && Pad2(30) == "30"
  {
    assert NatToString(3) == "3";
    assert NatToString(32) == "32";
    assert NatToString(30) == "30";
  }

  /** A padded non-negative number is all digits, so it holds no ':' and no space. */
  lemma Pad2Shape(n: nat)
    ensures ':' !in Pad2(n) && IsDigit(Pad2(n)[0]) && IsDigit(Pad2(n)[|Pad2(n)| - 1])
  {
    var p := Pad2(n);
    assert forall i :: 0 <= i < |p| ==> p[i] != ':' by {
      assert AllDigits(p);
    }
  }

  /** "mm:ss" built from two padded numbers is already stripped and splits into them. */
  lemma ColonTextShape(m: nat, s: nat)
    ensures var text := Pad2(m) + ":" + Pad2(s);
      && MinutesText(Some(text)) == text && ':' in text && Split(text, ':') == [Pad2(m), Pad2(s)]
  {
    var mm := Pad2(m);
    var ss := Pad2(s);
    var text := mm + ":" + ss;
    assert text == mm + [':'] + ss;
    Pad2Shape(m);
    Pad2Shape(s);
    assert text[0] == mm[0] && text[|text| - 1] == ss[|ss| - 1];
    assert Stripped(text);
    assert text[|mm|] == ':';
    SplitAtFirst(mm, ':', ss);
    SplitNoSep(ss, ':');
  }

  /** A text that splits into two parsed numbers with s < 60 reads as m + s/60 minutes. */
  lemma ColonOfParts(t: string, a: string, b: string, m: nat, s: nat)
    requires Split(t, ':') == [a, b] && s < 60
    requires ParseInt(a) == Some(m as int) && ParseInt(b) == Some(s as int)
    ensures ColonMinutes(t) == Minutes(m as real + s as real / 60.0)
  {
  }

  /** The colon parser reads two padded numbers with s < 60 as m + s/60 minutes. */
  lemma ColonOfPadded(m: nat, s: nat)
    requires s < 60
    ensures ColonMinutes(Pad2(m) + ":" + Pad2(s)) == Minutes(m as real + s as real / 60.0)
  {
    ColonTextShape(m, s);
    ParsePad2(m);
    ParsePad2(s);
    ColonOfParts(Pad2(m) + ":" + Pad2(s), Pad2(m), Pad2(s), m, s);
  }

  /** Two padded numbers with s < 60 parse as m + s/60 minutes. */
  lemma ParsePaddedColon(m: nat, s: nat, parseFloat: FloatParser)
    requires s < 60
    ensures ParseMinutes(Some(Pad2(m) + ":" + Pad2(s)), parseFloat) == Minutes(m as real + s as real / 60.0)
  {
    var text := Pad2(m) + ":" + Pad2(s);
    ColonTextShape(m, s);
    assert MinutesText(Some(text)) == text;
    ColonOfPadded(m, s);
  }

  lemma SecondsAsMinutes(t: nat)
    ensures (t / 60) as real + (t % 60) as real / 60.0 == t as real / 60.0
  {
    var m, s := t / 60, t % 60;
    assert t == 60 * m + s;
    assert t as real == 60.0 * m as real + s as real;
  }

  /** Round trip: t whole seconds formatted as "mm:ss" parse back to exactly t/60 minutes. */
  lemma FormatParseRoundTrip(t: nat, parseFloat: FloatParser)
    ensures ParseMinutes(Some(FormatSeconds(t)), parseFloat) == Minutes(t as real / 60.0)
  {
    ParsePaddedColon(t / 60, t % 60, parseFloat);
    SecondsAsMinutes(t);
  }

  /** For any non-negative stored minutes, the displayed "mm:ss" parses back to
      the minutes rounded to the nearest second. */
  lemma DisplayThenParse(minutes: real, parseFloat: FloatParser)
    requires minutes >= 0.0
    ensures var t := RoundHalfEven(minutes * 60.0);
      && t >= 0
      && ParseMinutes(Some(FormatMinutes(minutes)), parseFloat) == Minutes(t as real / 60.0)
      && -1.0 / 120.0 <= t as real / 60.0 - minutes <= 1.0 / 120.0
  {
    var t := RoundHalfEven(minutes * 60.0);
    FormatParseRoundTrip(t, parseFloat);
  }

  /** Whole seconds display exactly: formatting t/60 minutes gives t's "mm:ss". */
  lemma WholeSecondsDisplay(t: nat)
    ensures FormatMinutes(t as real / 60.0) == FormatSeconds(t)
  {
    assert t as real / 60.0 * 60.0 == t as real;
    RoundWhole(t);
  }

  // ------------------------------------------------------- PlayerBoxScoreForm

  /** The player the ModelChoiceField resolved: its key and its row. */
  datatype PlayerChoice = PlayerChoice(id: nat, player: RosterPlayer)

  /** The cleaned data PlayerBoxScoreForm.clean starts from. */
  datatype BoxFields = BoxFields(
    team: Option<string>,
    player: Option<PlayerChoice>,
    isStarter: bool,
    minutes: Option<string>,
    pts: Option<nat>, reb: Option<nat>, ast: Option<nat>, stl: Option<nat>,
    blk: Option<nat>, tov: Option<nat>, pf: Option<nat>,
    fgMade: Option<nat>, fgAtt: Option<nat>, tpMade: Option<nat>, tpAtt: Option<nat>,
    ftMade: Option<nat>, ftAtt: Option<nat>,
    plusMinus: Option<int>)

  datatype FormError = FieldError(field: string, message: string) | NonFieldError(message: string)

  const TeamMissing: string := "Masukkan nama tim."
  const PlayerMissing: string := "Pilih pemain."
  const PlayerNotInTeam: string := "Pemain tidak berada di tim yang dipilih."
  const BadMinutesFormat: string := "Gunakan angka atau format mm:ss yang valid, contoh 25:30."
  const NegativeMinutes: string := "Menit bermain tidak boleh negatif."
  const FgTooMany: string := "FG made tidak boleh melebihi FG attempt."
  const TpTooMany: string := "3PT made tidak boleh melebihi 3PT attempt."
  const FtTooMany: string := "FT made tidak boleh melebihi FT attempt."

  /** How clean ends: success with the parsed minutes, an error on one field
      (add_error then return), or a ValidationError raised from clean (a
      non-field error), with the minutes value clean had stored by then. */
  datatype CleanOutcome =
    | Cleaned(minutes: real)
    | FieldFailed(field: string, message: string)
    | FormFailed(message: string, storedMinutes: Option<real>)

  /** The team and player checks, which come first. */
  predicate PlayerMatchesTeam(f: BoxFields)
  {
    Truthy(f.team) && f.player.Some? && f.player.value.player.team == f.team.value
  }

  /** Made never exceeds attempted, a missing count being 0. */
  predicate ShootingConsistent(f: BoxFields)
  {
    && f.fgMade.GetOr(0) <= f.fgAtt.GetOr(0)
    && f.tpMade.GetOr(0) <= f.tpAtt.GetOr(0)
    && f.ftMade.GetOr(0) <= f.ftAtt.GetOr(0)
  }

  /** What a box score must satisfy to pass clean. */
  predicate ValidBoxScore(f: BoxFields, parseFloat: FloatParser)
  {
    && PlayerMatchesTeam(f)
    && ParseMinutes(f.minutes, parseFloat).Minutes?
    && ParseMinutes(f.minutes, parseFloat).value >= 0.0
    && ShootingConsistent(f)
  }

  /** The outcome of PlayerBoxScoreForm.clean, check by check in the order the
      form makes them, stopping at the first failure. */
  function CheckBoxScore(f: BoxFields, parseFloat: FloatParser): (r: CleanOutcome)
    ensures !Truthy(f.team) ==> r == FieldFailed("team", TeamMissing)
    ensures Truthy(f.team) && f.player.None? ==> r == FieldFailed("player", PlayerMissing)
    ensures Truthy(f.team) && f.player.Some? && !PlayerMatchesTeam(f) ==> r == FieldFailed("player", PlayerNotInTeam)
    ensures PlayerMatchesTeam(f) && ParseMinutes(f.minutes, parseFloat).BadMinutes? ==>
              r == FieldFailed("minutes", BadMinutesFormat)
    ensures r.FieldFailed? ==> r.field in {"team", "player", "minutes"}
    ensures r.FormFailed? ==> (r.storedMinutes.None? <==> r.message == NegativeMinutes)
  {
    if !Truthy(f.team) then FieldFailed("team", TeamMissing)
    else if f.player.None? then FieldFailed("player", PlayerMissing)
    else if f.player.value.player.team != f.team.value then FieldFailed("player", PlayerNotInTeam)
    else
      match ParseMinutes(f.minutes, parseFloat)
      case BadMinutes => FieldFailed("minutes", BadMinutesFormat)
      case Minutes(m) =>
        if m < 0.0 then FormFailed(NegativeMinutes, None)
        else if f.fgMade.GetOr(0) > f.fgAtt.GetOr(0) then FormFailed(FgTooMany, Some(m))
        else if f.tpMade.GetOr(0) > f.tpAtt.GetOr(0) then FormFailed(TpTooMany, Some(m))
        else if f.ftMade.GetOr(0) > f.ftAtt.GetOr(0) then FormFailed(FtTooMany, Some(m))
        else Cleaned(m)
  }

  /** clean succeeds exactly on valid box scores, and then yields the parsed minutes. */
  lemma CheckBoxScoreIsValidity(f: BoxFields, parseFloat: FloatParser)
    ensures CheckBoxScore(f, parseFloat).Cleaned? <==> ValidBoxScore(f, parseFloat)
    ensures CheckBoxScore(f, parseFloat).Cleaned? ==>
              CheckBoxScore(f, parseFloat).minutes == ParseMinutes(f.minutes, parseFloat).value
  {
  }

  /** The team and player checks come before everything else: when they fail,
      neither the minutes nor the shooting counts affect the outcome. */
  lemma IdentityChecksFirst(f: BoxFields, g: BoxFields, parseFloat: FloatParser)
    requires !PlayerMatchesTeam(f)
    requires g.team == f.team && g.player == f.player
    ensures CheckBoxScore(g, parseFloat) == CheckBoxScore(f, parseFloat)
    ensures CheckBoxScore(f, parseFloat).FieldFailed?
  {
  }

  /** A made count above its attempts always fails, once the identity and
      minutes checks have passed. */
  lemma ShootingRejected(f: BoxFields, parseFloat: FloatParser)
    requires PlayerMatchesTeam(f)
    requires ParseMinutes(f.minutes, parseFloat).Minutes? && ParseMinutes(f.minutes, parseFloat).value >= 0.0
    requires !ShootingConsistent(f)
    ensures CheckBoxScore(f, parseFloat).FormFailed?
    ensures CheckBoxScore(f, parseFloat).message in {FgTooMany, TpTooMany, FtTooMany}
  {
  }

  /** `add_error(field, ...)` removes the field from the cleaned data. */
  function WithoutField(f: BoxFields, field: string): (g: BoxFields)
    ensures field == "team" ==> g == f.(team := None)
    ensures field == "player" ==> g == f.(player := None)
    ensures field == "minutes" ==> g == f.(minutes := None)
    ensures field !in {"team", "player", "minutes"} ==> g == f
  {
    if field == "team" then f.(team := None)
    else if field == "player" then f.(player := None)
    else if field == "minutes" then f.(minutes := None)
    else f
  }

  // ------------------------------------------------ the `player` choice field

  /** The players a `player` ModelChoiceField offers, by primary key. */
  type PlayerQueryset = map<nat, RosterPlayer>

  /** `Player.objects.none()`, the queryset the field is declared with. Of the
      form's two `__init__` definitions only the second is in effect, and it
      never replaces this queryset. */
  const NoPlayers: PlayerQueryset := map[]

  /** The queryset the first, shadowed `__init__` sets: the stored players of
      the match's two teams. */
  function TeamPlayers(roster: map<nat, RosterPlayer>, home: string, away: string): (q: PlayerQueryset)
    ensures forall k :: k in q <==> k in roster && (roster[k].team == home || roster[k].team == away)
    ensures forall k :: k in q ==> q[k] == roster[k]
  {
    map k | k in roster && (roster[k].team == home || roster[k].team == away) :: roster[k]
  }

  const ChoiceRequired: string := "This field is required."
  const InvalidChoice: string := "Select a valid choice. That choice is not one of the available choices."

  datatype ChoiceOutcome = Chosen(choice: PlayerChoice) | ChoiceFailed(message: string)

  /** ModelChoiceField.clean on the posted key: nothing posted is the
      "required" error, a key the queryset does not hold is "invalid_choice",
      any other key chooses that player. */
  function CleanPlayerField(posted: Option<nat>, queryset: PlayerQueryset): (r: ChoiceOutcome)
    ensures r.Chosen? <==> posted.Some? && posted.value in queryset
    ensures r.Chosen? ==> r.choice == PlayerChoice(posted.value, queryset[posted.value])
    ensures posted.None? ==> r == ChoiceFailed(ChoiceRequired)
    ensures posted.Some? && posted.value !in queryset ==> r == ChoiceFailed(InvalidChoice)
  {
    if posted.None? then ChoiceFailed(ChoiceRequired)
    else if posted.value in queryset then Chosen(PlayerChoice(posted.value, queryset[posted.value]))
    else ChoiceFailed(InvalidChoice)
  }

  /** A bound form after field validation: what clean starts from, and the
      field errors found so far. */
  datatype BoundBoxForm = BoundBoxForm(cleaned: BoxFields, fieldErrors: seq<FormError>)

  /** Field validation of a bound PlayerBoxScoreForm. The other fields' cleaned
      values and errors come from the framework's field classes (`others`,
      `otherErrors`); `player` is cleaned against the queryset, and when it
      fails it is left out of the cleaned data and its error comes first. */
  function BindBoxForm(others: BoxFields, otherErrors: seq<FormError>, posted: Option<nat>, queryset: PlayerQueryset)
    : (form: BoundBoxForm)
    ensures CleanPlayerField(posted, queryset).Chosen? ==>
              form == BoundBoxForm(others.(player := Some(CleanPlayerField(posted, queryset).choice)), otherErrors)
    ensures CleanPlayerField(posted, queryset).ChoiceFailed? ==>
              form == BoundBoxForm(others.(player := None),
                                   [FieldError("player", CleanPlayerField(posted, queryset).message)] + otherErrors)
  {
    match CleanPlayerField(posted, queryset)
    case Chosen(c) => BoundBoxForm(others.(player := Some(c)), otherErrors)
    case ChoiceFailed(m) => BoundBoxForm(others.(player := None), [FieldError("player", m)] + otherErrors)
  }

  /** As written, no bound form gets a player: the field always fails, and
      clean then stops at the team or the player check. */
  lemma AsWrittenNeverValid(others: BoxFields, otherErrors: seq<FormError>, posted: Option<nat>, parseFloat: FloatParser)
    ensures var form := BindBoxForm(others, otherErrors, posted, NoPlayers);
      && form.cleaned.player.None? && form.fieldErrors != []
      && CheckBoxScore(form.cleaned, parseFloat).FieldFailed?
      && CheckBoxScore(form.cleaned, parseFloat).field in {"team", "player"}
  {
  }

  /** With the two teams' players as the queryset, the form gets a player
      exactly when the posted key is a stored player of either team, and a form
      that passes clean is for one of the two teams. */
  lemma TeamPlayersChosen(roster: map<nat, RosterPlayer>, home: string, away: string, others: BoxFields,
                          otherErrors: seq<FormError>, posted: Option<nat>, parseFloat: FloatParser)
    ensures var form := BindBoxForm(others, otherErrors, posted, TeamPlayers(roster, home, away));
      && (form.cleaned.player.Some? <==>
            posted.Some? && posted.value in roster && (roster[posted.value].team == home || roster[posted.value].team == away))
      && (CheckBoxScore(form.cleaned, parseFloat).Cleaned? ==>
            form.cleaned.team.Some? && (form.cleaned.team.value == home || form.cleaned.team.value == away))
  {
    var form := BindBoxForm(others, otherErrors, posted, TeamPlayers(roster, home, away));
    if CheckBoxScore(form.cleaned, parseFloat).Cleaned? {
      CheckBoxScoreIsValidity(form.cleaned, parseFloat);
      var k := form.cleaned.player.value.id;
      assert form.cleaned.player.value.player == roster[k];
    }
  }

  /** A bound PlayerBoxScoreForm: the cleaned data, the minutes value clean
      writes back into it, and the errors collected so far (those of the
      field cleaning first). */
  class BoxScoreForm {
    var cleaned: BoxFields
    var cleanedMinutes: Option<real>
    var errors: seq<FormError>

    constructor (cleaned: BoxFields, fieldErrors: seq<FormError>)
      ensures this.cleaned == cleaned && cleanedMinutes.None? && errors == fieldErrors
    {
      this.cleaned := cleaned;
      cleanedMinutes := None;
      errors := fieldErrors;
    }

    predicate IsValid()
      reads this
    {
      errors == []
    }

    /** PlayerBoxScoreForm.clean, step by step. */
    method Clean(parseFloat: FloatParser)
      modifies this
      ensures var r := CheckBoxScore(old(cleaned), parseFloat);
        && (r.Cleaned? ==>
              errors == old(errors) && cleaned == old(cleaned) && cleanedMinutes == Some(r.minutes))
        && (r.FieldFailed? ==>
              && errors == old(errors) + [FieldError(r.field, r.message)]
              && cleaned == WithoutField(old(cleaned), r.field) && cleanedMinutes == old(cleanedMinutes))
        && (r.FormFailed? ==>
              && errors == old(errors) + [NonFieldError(r.message)] && cleaned == old(cleaned)
              && cleanedMinutes == if r.storedMinutes.Some? then r.storedMinutes else old(cleanedMinutes))
    {
      ghost var outcome := CheckBoxScore(cleaned, parseFloat);
      var teamName := cleaned.team;
      var playerObj := cleaned.player;
      if !Truthy(teamName) {
        AddError("team", TeamMissing);
        return;
      }
      if playerObj.None? {
        AddError("player", PlayerMissing);
        return;
      }
      if playerObj.value.player.team != teamName.value {
        AddError("player", PlayerNotInTeam);
        return;
      }
      assert PlayerMatchesTeam(cleaned);
      var parsed := ParseMinutes(cleaned.minutes, parseFloat);
      if parsed.BadMinutes? {
        AddError("minutes", BadMinutesFormat);
        return;
      }
      var minutes := parsed.value;
      if minutes < 0.0 {
        assert outcome == FormFailed(NegativeMinutes, None);
        errors := errors + [NonFieldError(NegativeMinutes)];
        return;
      }
      cleanedMinutes := Some(minutes);
      var fgMade, fgAtt := cleaned.fgMade.GetOr(0), cleaned.fgAtt.GetOr(0);
      var tpMade, tpAtt := cleaned.tpMade.GetOr(0), cleaned.tpAtt.GetOr(0);
      var ftMade, ftAtt := cleaned.ftMade.GetOr(0), cleaned.ftAtt.GetOr(0);
      if fgMade > fgAtt {
        assert outcome == FormFailed(FgTooMany, Some(minutes));
        errors := errors + [NonFieldError(FgTooMany)];
      } else if tpMade > tpAtt {
        assert outcome == FormFailed(TpTooMany, Some(minutes));
        errors := errors + [NonFieldError(TpTooMany)];
      } else if ftMade > ftAtt {
        assert outcome == FormFailed(FtTooMany, Some(minutes));
        errors := errors + [NonFieldError(FtTooMany)];
      } else {
        assert outcome == Cleaned(minutes);
      }
    }

    method AddError(field: string, message: string)
      modifies this
      ensures errors == old(errors) + [FieldError(field, message)]
      ensures cleaned == WithoutField(old(cleaned), field) && cleanedMinutes == old(cleanedMinutes)
    {
      errors := errors + [FieldError(field, message)];
      cleaned := WithoutField(cleaned, field);
    }
  }

  /** The box score `form.save(commit=False)` builds from a valid form, for the
      given match. (A valid form has every required count, so the defaults
      never apply.) */
  function BoxFromForm(matchId: nat, f: BoxFields, minutes: real): (b: BoxScore)
    requires f.team.Some? && f.player.Some?
    ensures b.matchId == matchId && b.playerId == f.player.value.id && b.team == f.team.value
    ensures b.minutes == minutes && b.isStarter == f.isStarter
    ensures b.fgMade == f.fgMade.GetOr(0) && b.fgAtt == f.fgAtt.GetOr(0)
    ensures b.tpMade == f.tpMade.GetOr(0) && b.tpAtt == f.tpAtt.GetOr(0)
    ensures b.ftMade == f.ftMade.GetOr(0) && b.ftAtt == f.ftAtt.GetOr(0)
    ensures b.pts == f.pts.GetOr(0) && b.reb == f.reb.GetOr(0) && b.ast == f.ast.GetOr(0) && b.stl == f.stl.GetOr(0)
    ensures b.blk == f.blk.GetOr(0) && b.tov == f.tov.GetOr(0) && b.pf == f.pf.GetOr(0) && b.plusMinus == f.plusMinus.GetOr(0)
  {
    BoxScore(matchId, f.player.value.id, f.team.value, f.isStarter, minutes,
             f.pts.GetOr(0), f.reb.GetOr(0), f.ast.GetOr(0), f.stl.GetOr(0), f.blk.GetOr(0),
             f.tov.GetOr(0), f.pf.GetOr(0),
             f.fgMade.GetOr(0), f.fgAtt.GetOr(0), f.tpMade.GetOr(0), f.tpAtt.GetOr(0),
             f.ftMade.GetOr(0), f.ftAtt.GetOr(0), f.plusMinus.GetOr(0))
  }

  /** A box score built from a form that passed clean has consistent shooting,
      so each percentage lies between 0 and 1. */
  lemma CleanedBoxPercentages(matchId: nat, f: BoxFields, parseFloat: FloatParser)
    requires CheckBoxScore(f, parseFloat).Cleaned?
    ensures f.team.Some? && f.player.Some?
    ensures var b := BoxFromForm(matchId, f, CheckBoxScore(f, parseFloat).minutes);
      && 0.0 <= FgPct(b) <= 1.0 && 0.0 <= TpPct(b) <= 1.0 && 0.0 <= FtPct(b) <= 1.0
      && b.minutes >= 0.0
  {
    CheckBoxScoreIsValidity(f, parseFloat);
  }

  // --------------------------------------------- minutes as the form declares it

  /** What `(cleaned.get("minutes") or "").strip()` does with the value the
      model's DecimalField actually leaves in cleaned_data: None and a zero
      Decimal are falsy and give ""; any other Decimal has no `strip` and
      raises AttributeError (None here). */
  function MinutesTextAsWritten(decimalMinutes: Option<real>): (r: Option<string>)
    ensures r.None? <==> decimalMinutes.Some? && decimalMinutes.value != 0.0
    ensures r.Some? ==> r.value == ""
  {
    if decimalMinutes.Some? && decimalMinutes.value != 0.0 then None else Some("")
  }

  /** Once the player queryset holds the two teams' players, as the shadowed
      `__init__` sets it, a posted player of the posted home team passes the
      team and player checks, so clean goes on to read the minutes: a box score
      with 32.5 minutes then makes clean raise, and the only minutes value that
      reaches the parser is 0. */
  lemma MinutesAsWrittenCounterexample(roster: map<nat, RosterPlayer>, home: string, away: string,
                                       others: BoxFields, otherErrors: seq<FormError>, k: nat,
                                       parseFloat: FloatParser)
    requires k in roster && roster[k].team == home && home != "" && others.team == Some(home)
    ensures PlayerMatchesTeam(BindBoxForm(others, otherErrors, Some(k), TeamPlayers(roster, home, away)).cleaned)
    ensures MinutesTextAsWritten(Some(32.5)).None?
    ensures forall d :: MinutesTextAsWritten(d).Some? ==>
              ParseMinutes(MinutesTextAsWritten(d), parseFloat) == Minutes(0.0)
  {
    var q := TeamPlayers(roster, home, away);
    assert k in q && q[k] == roster[k];
  }
}
