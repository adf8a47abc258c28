# dribbl-id core, modelled in Dafny

dribbl-id is a Django web application about basketball. It has accounts with
an `admin`/`user` role, matches with their per-period scores and player box
scores, events, news, a player table, and three bulk-import scripts. This
project models the application's own rules and proves properties of them:

- the match scoring rules: the totals recomputed from seven optional periods,
  overtime, status, shooting percentages and the home ≠ away constraint;
- the match forms: the home/away check, and the box-score `clean`. That
  covers the team and player checks, the `mm:ss` or decimal minutes parser,
  the shooting checks, and the `mm:ss` display of stored minutes;
- the match views: the schedule and results listings (a filter plus an
  order), and the login-only edit views (delete, score update, box score add
  and edit), plus the JSON create endpoint;
- the session authentication layer:
  - `create_user`/`create_superuser`, permissions and the display string;
  - session register, login and logout (with the `last_login` cookie);
  - the middleware that turns a session `user_id` into `request.user`;
  - the JSON `login`/`register`/`logout` endpoints;
  - the `login_required_custom` decorator;
- the role-gated CRUD views of events, news and players. Their checks run in
  a fixed order with exact status codes, and the store is left unchanged when
  a check fails. The news listing also has a filter and a sort;
- the bulk imports:
  - players: update-or-create on (name, team), with created/updated counters;
  - matches from a spreadsheet: update-or-create on (home, away, tip-off),
    with a row count;
  - events from CSV: get-or-create on the title.

### How the model is built

**Stores.** Each table is a class with a `map` field from primary key to
record. Auto-increment keys come from a `nextId` counter. A `Valid()`
predicate states each table's invariants: keys below `nextId`, unique
usernames, one box score per (match, player) pair, and home ≠ away.

**Handlers.** A view is a method. It takes a `Request`, which carries the
session object and a mutable `user`, and returns a `Response`:
`Redirect(url)`, `Status(code, body)` or `Render(page)`. Its `ensures`
clauses give the response and the new state of every store it may touch, case
by case, in the order the view makes its checks.

**Identity.** `request.user` is `Anonymous`, `Authenticated(user)` or
`NoneUser`. `NoneUser` is the `None` that the custom middleware stores for a
stale session.

**Oracles.** Calls into libraries whose code is not modelled become
parameters. The only thing assumed of them is what a contract explicitly
requires:
- the password hasher (`Sound`: a password checks against its own hash, and a missing password against none);
- `authenticate`;
- `float()`, date and date-time parsing, and `strip_tags`;
- the form field cleaning;
- new uuids, passed in as a `freshId` parameter.

**Imports.** Each import loop is a `while` loop. It is proved equal to a
left fold (`ImportRows`) of a one-row `Step` function over the rows.
Properties of the whole import are then proved about the fold: no duplicate
keys, the counters, existing rows kept, and re-import creates nothing.

## Model

| member | source | states |
|---|---|---|
| Accounts.NewUser | main/models.py:24-33 | A new user row carries the given id, username and hash. Given extra fields win; otherwise the defaults apply: role `user`, active, not staff. Bio and picture are as given. |
| Accounts.NewUserDefaults | main/models.py:28-33 | With no extra fields, a new user is an active, non-staff `user`. |
| Accounts.PermsIgnoreTheirArgument | main/models.py:41-45 | `has_perm` and `has_module_perms` give the same answer for every argument, and are true iff the role is `admin`. |
| Accounts.UserDisplay | main/models.py:47-48 | The display string is the username, then " (", then the role, then ")". It has exactly that length. |
| Accounts.FindByUsername | main/models.py:25 | The lookup finds a user iff a row has that username. The user found has that name and is a stored row. |
| Accounts.UserTable.Insert | main/models.py:24-25 | An insert succeeds iff both the id and the username are free. On success exactly that row is added; otherwise the table is unchanged. Unique usernames are kept. |
| Accounts.UserTable.CreateUser | main/models.py:6-12 | An empty username fails with `ValueError('Username harus diisi')` and stores nothing. A taken username fails with IntegrityError. Otherwise exactly one row is added: the hash of the password plus the extra fields. |
| Accounts.UserTable.CreateSuperuser | main/models.py:14-16 | Same as create_user, with role `admin` unless the caller gave a role. |
| Http.IsAuthenticated | main/middleware.py:9 | `is_authenticated`: true exactly for a user row. It raises (None) exactly for the `None` the middleware leaves. |
| Http.LoginRequired | players/views.py:11 | `login_required` lets exactly authenticated callers through. It redirects the anonymous caller to the login URL; `None` in request.user raises (500). |
| Http.RequireMethods | matches/views.py:141 | `require_http_methods` lets exactly the allowed methods through and answers every other with 405. |
| Middleware.ResolveUser | main/middleware.py:9-15 | A request that already has a user keeps it. An anonymous request without a truthy session `user_id` stays anonymous. Otherwise the user becomes the stored row with that id, or `None` when no user has that id. |
| Middleware.ResolvedUserIsStored | main/middleware.py:10-15 | An anonymous request that resolves to a user gets the stored row its session `user_id` names. `None` arises exactly from an anonymous request whose truthy `user_id` is not stored. |
| Middleware.ResolveIdempotent | main/middleware.py:9 | Running the middleware again on a request it resolved to a user changes nothing. |
| Middleware.CustomAuthMiddleware | main/middleware.py:7-18 | `request.user` becomes ResolveUser of the old user, the session and the user table. `get_response` is called with that request, and its response is returned unmodified. A request already carrying `None` raises (500). |
| Decorators.Decorate | authentication/decorators.py:5-11 | The wrapped view redirects a falsy `request.user` (only `None`) to `login_url` without calling the view. Otherwise it returns the view's own result for the same arguments. |
| Decorators.LoginRequiredCustom | authentication/decorators.py:4-15 | Given a view, it gives the wrapped view. Given none, it gives the decorator itself (the factory form). The default `login_url` is `/auth/login/`. |
| Decorators.FactoryDecorates | authentication/decorators.py:13-15 | The factory form, applied to a view, behaves as the directly wrapped view, and redirects `None`. |
| Decorators.AnonymousReachesView | authentication/decorators.py:8-10 | The test is truthiness, not authentication: an anonymous caller reaches the view, and only `None` is redirected to `/auth/login/`. |
| MainViews.RegisteredUser | main/views.py:22-39 | The registered row has the posted username, the posted role (default `user`) and the hash of the posted password. All other fields are at their defaults. |
| MainViews.Credentials | main/views.py:48-53 | login_user logs in a user iff a stored row has the posted username and its hash checks against the posted password. `is_active` plays no part. |
| MainViews.CredentialsFindStored | main/views.py:48-53 | A stored user whose hash checks against the posted password is the one login_user finds: with unique usernames there is no other. |
| MainViews.LoggedInSession | main/views.py:54-56 | Login adds exactly the keys `user_id`, `username` and `role`, with the user's id, name and role. Every other session key keeps its value. |
| MainViews.Register | main/views.py:20-44 | A non-POST renders the form. A missing or empty username or password redirects back to register and adds nothing. So does a taken username. Otherwise exactly RegisteredUser is added and the response redirects to login. |
| MainViews.LoginUser | main/views.py:46-68 | With matching credentials, the session becomes LoggedInSession and the response goes home, setting `last_login` to the given time. In every other case, including an unknown name, a wrong password or a non-POST, the login page is shown and the session is untouched. |
| MainViews.LogoutUser | main/views.py:70-75 | The session is emptied, `last_login` is deleted and the response goes home, whoever was logged in. |
| MainViews.LoggedInSessionResolves | main/views.py:54-56 | The session login_user writes resolves, through the middleware, back to the same user. |
| MainViews.RegisterLoginLogout | main/views.py:20-75 | Register with a fresh name, then log in with the same credentials: the session holds that user's id, name and role (default `user`), and the middleware then sees that user. Logout empties the session. |
| AuthViews.LoginTarget | authentication/views.py:10-22 | A login logs someone in iff it is a POST with a JSON object body whose credentials authenticate an active user. That user is the one logged in. |
| AuthViews.LoginResponse | authentication/views.py:9-40 | Non-POST gives 405. A malformed body gives 400 before any authentication. Rejected credentials, or an inactive account, give 401 with status false. Success gives 200 with the user's username and role and status true. |
| AuthViews.AuthLoginSession | authentication/views.py:22 | The framework's login flushes a stale session first: one holding another user's key, or a session auth hash other than the user's own. It then stores the user's key, the model backend's path and the user's session auth hash. Every other key of a session that is not stale is kept. |
| AuthViews.LoginSessionIdempotent | authentication/views.py:22 | The session that login leaves is not stale for the same user, so logging that user in again changes nothing. |
| AuthViews.Login | authentication/views.py:9-40 | The response is LoginResponse. Only a successful login changes `request.user` and the session, which becomes AuthLoginSession with the user's session auth hash. Every failure leaves both untouched. |
| AuthViews.Register | authentication/views.py:43-71 | Non-POST gives 400 and adds nothing. A body without the three keys raises (500). A taken username gives 400 and adds nothing. Otherwise exactly one user is added, with the body's role and the hash of its password, and the answer is 200 with that name and role. |
| AuthViews.UsernameOf | authentication/views.py:75 | `request.user.username`: "" for the anonymous user and the name for a user row. It raises for `None`. |
| AuthViews.Logout | authentication/views.py:74-82 | The session is emptied and the request becomes anonymous. The answer is 200 naming the user that was logged in. With `None` in request.user it raises (500) and nothing changes. |
| AuthViews.LoginThenLogout | authentication/views.py:9-82 | Login then logout through the JSON endpoints always ends with an anonymous request, an empty session and a 200 logout. After a successful login, that logout names the logged-in user. |
| Matches.TeamDisplay | matches/models.py:17-20 | The display is the short name when it is not empty, else the name, so a named team never displays as empty. |
| Matches.StatusExclusive | matches/models.py:128-138 | At most one of is_scheduled, is_live and is_finished holds; none holds for `canceled`. One of them holds iff the status is scheduled, live or finished. The status choices are those of matches/models.py:62-66. |
| Matches.Parts | matches/models.py:121-122 | The summed list has seven entries: its first four are the four quarters and its last three the three overtimes, in order. |
| Matches.PeriodSumExplicit | matches/models.py:121-124 | A side's total is the sum of its seven periods, a missing period counting as 0. |
| Matches.WentToOt | matches/models.py:115-117 | went_to_ot is true iff one of the six overtime values (three per side) is set. |
| Matches.WentToOtIgnoresQuarters | matches/models.py:115-124 | Quarter scores never change went_to_ot. Without overtime, a total is the sum of the four quarters. |
| Matches.Recalc | matches/models.py:119-124 | After recalculation both totals equal their period sums. Every other field, including all period fields, is unchanged. |
| Matches.RecalcIdempotent | matches/models.py:119-124 | Recalculating twice gives the same as once. A stored match (home ≠ away) stays stored. |
| Matches.Pct | matches/models.py:184-194 | A percentage is 0 with no attempts, otherwise made divided by attempts. It lies in [0, 1] when made ≤ attempted. |
| Matches.MatchTable.Create | matches/models.py:101-106 | Creating a match succeeds iff home ≠ away (the table's check constraint). On success the row is added under the next key; otherwise the table is unchanged. |
| Matches.Match.RecalcTotalsFromPeriods | matches/models.py:119-126 | The instance's totals become the period sums and nothing else changes. With `save`, only the stored row's two total columns are written. Without `save`, the table is untouched. |
| MatchForms.SameTeamsError | matches/forms.py:65-71 | MatchForm.clean puts an error on away_team iff both teams are non-empty and equal. |
| MatchForms.MatchFormKeepsTeamsApart | matches/forms.py:65-71 | A match form that passes clean satisfies the stored home ≠ away constraint. That constraint is the one at matches/models.py:101-106. |
| MatchForms.ColonMinutes | matches/forms.py:193-197 | A colon text is accepted iff it splits at ':' into exactly two integers with m ≥ 0 and 0 ≤ s < 60. It then gives m + s/60 minutes. |
| MatchForms.ParseMinutes | matches/forms.py:191-203 | The stripped minutes text: with a colon it is parsed as ColonMinutes; empty it gives 0; otherwise it is `float()` of the text, and fails exactly where `float()` fails. |
| MatchForms.RoundHalfEven | matches/forms.py:161 | `round()` gives an integer within 1/2 of its argument; a tie goes to the even neighbour. |
| MatchForms.RoundWhole | matches/forms.py:161 | `round()` of a whole number is that number. |
| MatchForms.Pad2 | matches/forms.py:163 | `{:02d}` of n ≥ 0 is at least two decimal digits whose value is n, and exactly two below 100. A negative n keeps its sign. |
| MatchForms.ParsePad2 | matches/forms.py:194 | A zero-padded numeral parses back to its value. The numeral is formatted as at line 163. |
| MatchForms.InitialMinutes | matches/forms.py:159-163 | An edited box score shows `mm:ss` iff it is saved and its minutes are non-zero. The text shown is round(minutes·60) seconds split by divmod 60. |
| MatchForms.DisplayExample | matches/forms.py:160-163 | 32.5 minutes display as "32:30". |
| MatchForms.Pad2Shape | matches/forms.py:163 | A padded number contains no ':' and starts and ends with a digit. |
| MatchForms.ColonTextShape | matches/forms.py:191-194 | "mm:ss" built from two padded numbers is already stripped, contains ':' and splits into the two numbers. The numbers are padded as at line 163. |
| MatchForms.ParsePaddedColon | matches/forms.py:193-197 | Two padded numbers with s < 60 parse as m + s/60 minutes. |
| MatchForms.SecondsAsMinutes | matches/forms.py:197 | Splitting t seconds by divmod 60 and parsing the halves back gives t/60 minutes. The split is the divmod of line 162. |
| MatchForms.FormatParseRoundTrip | matches/forms.py:160-197 | Round trip: t whole seconds formatted as `mm:ss` parse back to exactly t/60 minutes. |
| MatchForms.DisplayThenParse | matches/forms.py:160-197 | Any stored minutes ≥ 0 display as a text that parses back to the minutes rounded to the nearest second, within 1/120 of a minute. |
| MatchForms.WholeSecondsDisplay | matches/forms.py:160-163 | Minutes that are a whole number of seconds display exactly as those seconds' "mm:ss". |
| MatchForms.CheckBoxScore | matches/forms.py:170-224 | clean checks in order and stops at the first failure: a missing team, then a missing player, then a player of another team, then unparsable minutes. Each of these is a field error on team, player or minutes. A form-level error keeps the parsed minutes, except the negative-minutes error. |
| MatchForms.CheckBoxScoreIsValidity | matches/forms.py:170-224 | clean succeeds iff the player is in the chosen team, the minutes parse to a value ≥ 0, and made ≤ attempted in all three shooting categories (a missing count is 0). It then yields the parsed minutes. |
| MatchForms.IdentityChecksFirst | matches/forms.py:174-188 | When the team or player check fails, neither the minutes nor any shooting count changes the outcome. |
| MatchForms.ShootingRejected | matches/forms.py:209-222 | Once the identity and minutes checks pass, any made count above its attempts is rejected, with one of the three shooting messages. |
| MatchForms.WithoutField | matches/forms.py:178-201 | `add_error(field, ...)` removes exactly that field from the cleaned data. |
| MatchForms.BoxScoreForm.Clean | matches/forms.py:170-224 | The form's errors, cleaned data and stored minutes change exactly as CheckBoxScore says. Success leaves no new error and stores the parsed minutes. A field failure appends one field error and drops that field. A raised error appends one non-field error. |
| MatchForms.BoxScoreForm.AddError | matches/forms.py:178-201 | Appends exactly one field error and drops that field from the cleaned data. |
| MatchForms.BoxFromForm | matches/views.py:176-177 | The saved box score carries the match, the chosen player and team, the cleaned minutes and every count of the form (points, rebounds, assists, steals, blocks, turnovers, fouls, the three made/attempted pairs and plus_minus), a blank count being 0. |
| MatchForms.CleanedBoxPercentages | matches/forms.py:209-222 | A box score that passed clean has minutes ≥ 0 and all three percentages in [0, 1]. The percentages are those computed at matches/models.py:184-194. |
| MatchViews.MatchSchedule | matches/views.py:30-39 | The schedule holds exactly the stored matches the search finds: a match is found when the stripped `q` is empty or occurs, ignoring case, in home, away or venue. Each is listed as often as it is stored, earliest tip-off first. |
| MatchViews.MatchResults | matches/views.py:42-55 | Results hold exactly the finished matches the same search finds, each as often as it is stored, latest tip-off first. |
| MatchViews.ResultsWithinSchedule | matches/views.py:30-55 | A match is in the results iff it is in the schedule for the same search and is finished. |
| MatchViews.EditGate | matches/views.py:140-141 | The edit views let a caller through iff logged in and using GET or POST. The anonymous caller is redirected to login; any other method gets 405. Lines 64-65, 151-152, 169-170 and 190-191 repeat the same gate. |
| MatchViews.AnyRolePasses | matches/views.py:140 | The edit views check login only: every logged-in user passes alike, whatever the role. Lines 151, 169 and 190 repeat the same check. |
| MatchViews.WithoutMatch | matches/models.py:145 | Deleting a match removes exactly its box scores (the foreign key cascades) and keeps every other box score unchanged. |
| MatchViews.MatchDelete | matches/views.py:140-148 | After the gate, a missing match is 404. A GET only renders the confirmation and changes nothing. A POST removes exactly that match and its box scores and redirects to the schedule. |
| MatchViews.MatchUpdateScore | matches/views.py:151-165 | After a valid POST the match has the submitted periods. Its totals equal the recomputed sum of those periods, and every other match is unchanged. A GET or an invalid form changes nothing. |
| MatchViews.SubmittedBox | matches/views.py:176-177 | The box score a valid form saves belongs to this match and to the form's team. |
| MatchViews.ValidateBoxForm | matches/forms.py:170-224 | A bound form is valid iff field validation found no error and clean succeeds. The minutes returned are then clean's. |
| MatchViews.AddBoxLine | matches/views.py:169-187 | What boxscore_add does with a bound form. A box score whose team is neither the home nor the away team is not saved, and the view redirects to the detail page. A valid one is added under the next key. A second line for the same (match, player) raises. Box scores stay consistent with their match's teams. |
| MatchViews.EditBoxLine | matches/views.py:190-208 | What boxscore_edit does with a bound form. The same team rule applies to an existing line of this match. A refused edit, a GET or an invalid form leaves the stored line unchanged. A valid edit replaces exactly that line. |
| MatchViews.BoxscoreAdd | matches/views.py:169-187 | As written, the form's player field keeps the empty queryset (matches/forms.py:101-107). So for every request the stored box scores and the key counter are unchanged: a refused request gets the gate's answer, a missing match 404, and anything else the form page again. |
| MatchViews.BoxscoreEdit | matches/views.py:190-208 | As written, no request ever changes a stored line, for the same reason. A refused request gets the gate's answer, a missing match or a line of another match 404, and anything else the form page again. |
| MatchViews.BoxscoreAddCorrected | matches/views.py:169-187 | With the two teams' players as the queryset, a valid POST is saved under the next key unless that player already has a line in the match, which raises. The team-mismatch redirect can no longer fire. A GET or an invalid form changes nothing. Box scores stay consistent with their match's teams. |
| MatchViews.BoxscoreEditCorrected | matches/views.py:190-208 | With the two teams' players as the queryset, a valid POST replaces exactly that line unless another line of the match has that player, which raises. A GET, an invalid form or a missing line changes nothing. |
| MatchViews.ScoreField | matches/views.py:265-266 | `int(data.get(key, 0))`: a missing score is 0; otherwise the key's text parsed as an integer. |
| MatchViews.ScoreOfIntegerText | matches/views.py:265-266 | A JSON integer n, read as its decimal text, gives the score n, as `int(n)` does. |
| MatchViews.FlutterMatch | matches/views.py:258-267 | A match is built iff every key is present, the tip-off parses, both scores are non-negative integers, and the teams differ. It then carries exactly the body's values and no period scores. |
| MatchViews.FlutterScoresDefault | matches/views.py:265-266 | A body without scores creates a 0-0 match. |
| MatchViews.CreateMatchFlutter | matches/views.py:249-274 | Non-POST gets 401 and changes nothing. A body that cannot be built gets 500 and changes nothing. Otherwise exactly the FlutterMatch row is added under the next key, which was unused, with 200, and the key counter grows by one. |
| Events.EventTable.Add | events/views.py:71-80 | Creating an event adds it under the next, previously unused key. |
| Events.Visible | events/views.py:29-32 | An admin session sees every event; any other session sees exactly the public ones. |
| Events.NonAdminSeesPublicOnly | events/views.py:29-32 | What a non-admin sees is what an admin sees, less the private events. |
| Events.TimeTextAsWritten | events/views.py:42 | `time` is a CharField (events/models.py:12), so `e.time.strftime` raises for any non-empty time. A missing or empty time gives "". |
| Events.TimeTextCounterexample | events/views.py:42 | Wherever the entry as written does not raise, it equals the stored text or "". An event at "15:00" makes it raise, where the intended entry is "15:00". |
| Events.EventList | events/views.py:22-50 | Without a truthy session `user_id` the caller is redirected to `/login` and shown nothing. Otherwise the caller is shown Visible as a page, or for AJAX as JSON with status 200, which fails with status 500 iff some listed event has a non-empty time. |
| Events.EventListCorrected | events/views.py:22-50 | With the stored time text as the entry, a signed-in AJAX caller always gets status 200, and each listed event's "time" entry is its stored text or "". Nothing else changes. |
| Events.PostedEvent | events/views.py:62-80 | An event is built iff title, description and a parsable date are posted. `is_public` is set iff the field is "on"; `created_by` is the session's user_id; the other fields are stored as posted. |
| Events.CreateEvent | events/views.py:53-88 | No `user_id`: 403 Unauthorized, checked before the role. A non-admin: 403 Forbidden. Neither creates anything. An admin's POST adds exactly one event, PostedEvent, or raises and adds none; a GET renders the form. |
| Events.EditOverwritesAll | events/views.py:98-106 | An edit replaces every field but the owner, so its result depends only on the form and the owner, and the owner is kept. Editing twice with the same form is editing once. |
| Events.EditEvent | events/views.py:91-113 | Only the role is checked: a non-admin gets 403 and the event is unchanged. Then a missing event is 404. An admin's POST overwrites exactly that event; every other request changes nothing. |
| Events.DeleteEvent | events/views.py:116-129 | A non-admin gets 403 and the event remains. An admin deletes exactly that event, on any HTTP method; a missing one is 404. |
| Events.NonAdminChangesNothing | events/views.py:57-60 | A non-admin session gets 403 from create, edit and delete, and the event table is unchanged. Edit and delete repeat the check at lines 92-94 and 120-121. |
| News.NewsOrder | news/views.py:43-50 | The order of each `sort` value: `oldest` is ascending published_at; `title_asc`/`title_desc` sort by title; any other value is newest first. |
| News.NewsOrderIsOrder | news/views.py:43-50 | Every sort order is total and transitive. |
| News.NewsListing | news/views.py:24-50 | The listing holds exactly the stored items that match the category exactly (when one is given) and whose title or content contains the search text, ignoring case (when one is given). Each is listed as often as it is stored, in the `sort` order. |
| News.ListingTitleOrder | news/views.py:45-46 | Under `title_asc`, titles come in non-decreasing order, and different titles come in strictly increasing order. |
| News.AddForm | news/views.py:88-91 | Title and content are stripped of whitespace and of tags, and the category of whitespace. A blank thumbnail becomes None. |
| News.MissingField | news/views.py:93-109 | The first empty required field is reported, in the order title, content, category; nothing is reported iff all three are non-empty. |
| News.AdminGate | news/views.py:76-86 | Only an admin passes. The anonymous caller gets 401 before a non-admin gets 403, and `None` in request.user raises. Edit and delete repeat the gate at lines 135-139 and 169-173. |
| News.AddNews | news/views.py:72-131 | Non-POST gets 405. Then come 401 and 403, then 400 for the first missing field; none of them adds anything. Otherwise exactly one item is added under the new id, written by the caller, with 201. |
| News.StoreForm | news/views.py:93-131 | A form with a missing field gets 400 with that field's message and nothing is stored. A complete form stores exactly one item under the new id, written by the caller, and the response is 201 with the new id. |
| News.EditedNews | news/views.py:143-157 | An edit overwrites title and content (tags stripped; an absent one becomes the text "None"), category and thumbnail with the posted values. It keeps the author and publication time, and raises iff the category is absent. |
| News.EditKeepsProvenance | news/views.py:143-157 | The result of an edit depends only on the form, the author and the time. Editing twice with the same form is editing once. |
| News.EditNews | news/views.py:133-164 | 401, then 403, then 405 for non-POST; each leaves the item. An admin's POST overwrites exactly that item. A missing item or category is a caught 500 that changes nothing. |
| News.DeleteNews | news/views.py:166-180 | Non-POST is 405, then 401 or 403; each leaves the item. An admin's POST removes exactly that item; a missing one is a caught 500. |
| News.GateOrder | news/views.py:76-86 | 401 comes before 403, and no caller but an admin gets past the gate. |
| News.NewsJson | news/views.py:198-204 | `user_id` is null iff the item has no author, and is otherwise the author's id. |
| Players.PlayerTable.Add | players/views.py:18 | Saving a player adds it under the next, previously unused key. |
| Players.AdminGate | players/views.py:11-14 | Only an admin passes. An anonymous caller is sent to login, and a logged-in non-admin gets 403. Edit and delete repeat the gate at lines 24-27 and 38-41. |
| Players.PlayerList | players/views.py:7-9 | Every player is listed to every caller, with no login and no role check. |
| Players.AddPlayer | players/views.py:11-22 | A refused caller changes nothing. An admin's valid POST saves exactly one player; an invalid POST or a GET saves nothing. |
| Players.EditPlayer | players/views.py:24-36 | A refused caller changes nothing, and a missing player is 404. A GET or an invalid POST modifies nothing. A valid POST replaces only the addressed player. |
| Players.DeletePlayer | players/views.py:38-46 | A refused caller changes nothing, and a missing player is 404. Only a POST deletes, and only the addressed player. |
| Players.OnlyAdminsPass | players/views.py:11-14 | The anonymous caller is redirected to login and a non-admin gets 403, whatever the request; an admin passes. |
| PlayerImport.ToFloat | main/management/commands/import_players.py:8-17 | The default 0.0 is returned for None, for "", "-", "NA" or "None" after stripping, and for text `float` refuses. Otherwise the value is the float of the stripped text. |
| PlayerImport.ToFloatTrims | main/management/commands/import_players.py:11-13 | Surrounding whitespace never changes what to_float reads, and a sentinel reads as the default. |
| PlayerImport.ReboundText | main/management/commands/import_players.py:53 | Rebounds come from TRB, falling back to REB when TRB is empty or absent. |
| PlayerImport.SamePair | main/management/commands/import_players.py:56-58 | The update_or_create lookup finds exactly the players with that (name, team). |
| PlayerImport.NewPlayer | main/management/commands/import_players.py:56-65 | A created player carries the row's name and team. |
| PlayerImport.UpdatePlayers | main/management/commands/import_players.py:59-64 | An update changes only the defaults: no player is added, removed or renamed. |
| PlayerImport.Step | main/management/commands/import_players.py:42-67 | A row missing Player or Tm is skipped, and so is a TOT row without `--include-tot`. For any other row, `created` increments iff its pair was absent, and the NewPlayer is then stored under the next key. `updated` increments iff the pair was present once, and that one player then gets the row's stats (UpdatePlayers). Two matches raise and write nothing. |
| PlayerImport.KeptCount | main/management/commands/import_players.py:46-50 | The number of kept rows is at most the number of rows. |
| PlayerImport.CrashedStays | main/management/commands/import_players.py:56-65 | Once update_or_create has raised, the remaining rows change nothing. |
| PlayerImport.ImportKeepsPairsUnique | main/management/commands/import_players.py:56-65 | From a table with at most one player per (name, team), the import never raises and leaves at most one player per pair. |
| PlayerImport.StepKeepsPairsUnique | main/management/commands/import_players.py:56-65 | One row keeps at most one player per pair and never raises on such a table. |
| PlayerImport.AtMostOnePair | main/management/commands/import_players.py:56-58 | On a table with at most one player per (name, team), the update_or_create lookup finds at most one player, so it cannot raise MultipleObjectsReturned. |
| PlayerImport.ImportCounts | main/management/commands/import_players.py:66-67 | Without an error, `created` + `updated` grows by exactly the number of kept rows. |
| PlayerImport.ImportedPairsPresent | main/management/commands/import_players.py:56-65 | After the import, every kept row's (name, team) pair has a stored player. |
| PlayerImport.StepKeepsPlayer | main/management/commands/import_players.py:56-65 | A row never removes or renames a stored player. |
| PlayerImport.ImportRow | main/management/commands/import_players.py:42-67 | The table and both counters change as Step of the row says. |
| PlayerImport.Handle | main/management/commands/import_players.py:36-67 | The players table and both counters end as the fold of Step over the rows, stopping at the row that raises. |
| MatchImport.HeaderIndex | main/management/commands/import_matches_xlsx.py:29-30 | A column is the first one whose header is the name, or absent when no header is. |
| MatchImport.HeaderAt | main/management/commands/import_matches_xlsx.py:30 | A header first found at position i is indexed at i. |
| MatchImport.CellAt | main/management/commands/import_matches_xlsx.py:37-54 | A cell is read iff the column exists and the row is long enough, and then it is that cell. |
| MatchImport.Score | main/management/commands/import_matches_xlsx.py:52-53 | A blank (falsy) score cell is 0. A whole-number cell is accepted iff it is non-negative, and a date-time cell raises. |
| MatchImport.Tipoff | main/management/commands/import_matches_xlsx.py:39-45 | A date-time cell is taken as the tip-off as it is. Any other cell goes to the strptime oracle. |
| MatchImport.OptionalText | main/management/commands/import_matches_xlsx.py:50-54 | A blank venue or image_url is stored as ""; otherwise it is the cell's text. This is the corrected behaviour; as written see MatchImport.VenueAsWritten. |
| MatchImport.FromCells | main/management/commands/import_matches_xlsx.py:37-55 | A row is read iff its tip-off and both scores are. Team names are whitespace-stripped. A blank status is `scheduled`, blank scores are 0, and blank venue and image_url are blank (the corrected behaviour; as written see MatchImport.VenueAsWritten). |
| MatchImport.ReadRow | main/management/commands/import_matches_xlsx.py:37-55 | A row that reads has every column it uses. |
| MatchImport.ColumnsByName | main/management/commands/import_matches_xlsx.py:29-30 | Columns are addressed by header name, not position: two sheets that agree on every named cell read the same row, whatever their column order. |
| MatchImport.SameKey | main/management/commands/import_matches_xlsx.py:57-60 | The lookup finds exactly the matches with the row's (home, away, tip-off). |
| MatchImport.NewMatch | main/management/commands/import_matches_xlsx.py:57-62 | A created match has the row's key. |
| MatchImport.WithDefaults | main/management/commands/import_matches_xlsx.py:49-61 | An update changes exactly the venue, status, both totals and image_url. The key and the period scores are kept. |
| MatchImport.UpdateMatches | main/management/commands/import_matches_xlsx.py:57-62 | Only the matched rows change, and only by WithDefaults. |
| MatchImport.Classify | main/management/commands/import_matches_xlsx.py:34-55 | A row is skipped iff it is empty or all None, raises iff it does not read, and otherwise gives its values. |
| MatchImport.Upsert | main/management/commands/import_matches_xlsx.py:57-63 | A row that does not raise adds one to the count; a raising row leaves the table unchanged. |
| MatchImport.Step | main/management/commands/import_matches_xlsx.py:33-63 | A skipped row changes nothing, and a row that cannot be read raises. |
| MatchImport.RowOutcomes | main/management/commands/import_matches_xlsx.py:33-55 | Every sheet row is classified with the one header layout. |
| MatchImport.NonBlankCount | main/management/commands/import_matches_xlsx.py:34-63 | The number of non-blank rows is at most the number of rows. |
| MatchImport.ImportCount | main/management/commands/import_matches_xlsx.py:63-65 | Without an error, the reported count is the number of non-blank rows. |
| MatchImport.UpsertKeeps | main/management/commands/import_matches_xlsx.py:57-62 | An upsert keeps one match per key and the home ≠ away constraint, and keeps every stored key. A stored key is updated without growing the table; a new key is created unless its teams are equal. The constraint is the one at matches/models.py:101-106. |
| MatchImport.ImportKeeps | main/management/commands/import_matches_xlsx.py:33-63 | The whole import keeps the key and constraint invariant. |
| MatchImport.ReimportUpdates | main/management/commands/import_matches_xlsx.py:57-62 | A row whose key is stored updates exactly that match, by WithDefaults. Every other match is unchanged and the table does not grow. |
| MatchImport.ImportCovers | main/management/commands/import_matches_xlsx.py:33-63 | After an import without error, every row's match is stored under its key. |
| MatchImport.CoveredImportOnlyUpdates | main/management/commands/import_matches_xlsx.py:57-62 | Importing onto rows that already hold every key raises nothing and only updates: the same matches keep the same keys. |
| MatchImport.ReimportCreatesNothing | main/management/commands/import_matches_xlsx.py:57-62 | Importing the same sheet a second time creates no match and keeps every match under its key. |
| MatchImport.CrashedStays | main/management/commands/import_matches_xlsx.py:33-63 | Once a row has raised, the remaining rows change nothing. |
| MatchImport.UpsertRow | main/management/commands/import_matches_xlsx.py:57-62 | The table ends as Upsert says. |
| MatchImport.ImportRow | main/management/commands/import_matches_xlsx.py:34-63 | The table and the count end as Step of the classified row says. |
| MatchImport.Handle | main/management/commands/import_matches_xlsx.py:21-65 | The table, the count and the error end as the fold of Step over the classified rows, starting from count 0. |
| MatchImport.VenueAsWritten | main/management/commands/import_matches_xlsx.py:50-54 | As written, `value or None` gives NULL for a blank venue or image_url. |
| MatchImport.AsWrittenNeedsVenueAndImage | main/management/commands/import_matches_xlsx.py:50-54 | As written, a readable row saves iff both its venue and its image_url cell are non-blank. The two columns are NOT NULL at matches/models.py:73-74. |
| MatchImport.BlankVenueCounterexample | main/management/commands/import_matches_xlsx.py:50 | A row with an empty venue cell gives NULL as written, but reads as a valid match with venue "". |
| MatchImport.AsWrittenAgreesWhenFilled | main/management/commands/import_matches_xlsx.py:49-55 | With venue and image_url filled in, the command as written and the model read the same values. |
| EventImport.NewEvent | data/events/import_events.py:8-17 | A new event is built iff the date parses. It carries the row's cells, with `is_public` iff the stripped, upper-cased cell is "TRUE". |
| EventImport.WithTitle | data/events/import_events.py:9 | The get_or_create lookup finds exactly the events with the row's title. |
| EventImport.Step | data/events/import_events.py:8-18 | After an error, rows change nothing. A row that does not raise adds exactly one flag to `created`. |
| EventImport.StepGetsOrCreates | data/events/import_events.py:8-23 | A stored title leaves the table as it is and reports false. A new title adds exactly one event with the row's fields and reports true, so `created` is true iff no event had the title. Stored events are never changed, and one event per title is kept. A row raises iff it lacks a column, or its title is new and its date does not parse. |
| EventImport.ImportKeeps | data/events/import_events.py:7-18 | The import keeps one event per title. |
| EventImport.ImportKeepsExisting | data/events/import_events.py:8-19 | An event stored before the import is never changed or removed. |
| EventImport.ImportStoresTitles | data/events/import_events.py:7-18 | Without an error, there is one `created` flag per row, and every row's title is stored afterwards. |
| EventImport.StoredTitlesOnlySkip | data/events/import_events.py:8-23 | On a table already holding every title, the import changes nothing and reports every row as existing. |
| EventImport.ReimportChangesNothing | data/events/import_events.py:7-23 | Running the import again on the same file adds nothing and reports every row as existing. |
| EventImport.CrashedStays | data/events/import_events.py:7-18 | Once a row has raised, the remaining rows change nothing. |
| EventImport.GetOrCreate | data/events/import_events.py:8-18 | The table and the `created` flag end as Step says. |
| EventImport.ImportEvents | data/events/import_events.py:4-23 | The table and the printed flags end as the fold of Step over the rows. |
| EventImport.StepAsWritten | data/events/import_events.py:8-18 | As written, a new title always raises, because `created_by` is a NOT NULL foreign key that the defaults omit. The foreign key is declared at events/models.py:9. |
| EventImport.MissingOwnerCounterexample | data/events/import_events.py:8-18 | On an empty table, a well-formed first row raises as written. With an owner, it creates its event and reports true. |
| EventImport.AsWrittenAgreesOnStoredTitles | data/events/import_events.py:8-23 | Wherever the script as written does not raise, it does what the model does. |
| MatchForms.TeamPlayers | matches/forms.py:109-117 | The queryset the shadowed `__init__` sets holds exactly the roster players of the match's home or away team, unchanged. |
| MatchForms.CleanPlayerField | matches/forms.py:101-107 | The ModelChoiceField fails with "required" iff no player is posted, and with "invalid choice" iff the posted key is not in the queryset. Otherwise it yields that key and its player. |
| MatchForms.BindBoxForm | matches/forms.py:101-107 | A chosen player goes into cleaned_data and adds no error. A failed choice leaves `player` out of cleaned_data and puts its field error first. The other fields and their errors are kept. |
| MatchForms.AsWrittenNeverValid | matches/forms.py:101-168 | With `Player.objects.none()` as the queryset (the second `__init__` never replaces it), every bound form has a field error and no player, and clean fails on its team or player. So no form is ever valid. |
| MatchForms.TeamPlayersChosen | matches/forms.py:109-117 | With the team-filtered queryset, a player is chosen iff the posted key is a roster player of the home or away team. A form that then passes clean has the home or the away team. |
| MatchForms.MinutesTextAsWritten | matches/forms.py:191 | The minutes field is the model's DecimalField, so clean receives a Decimal or None. `.strip()` then raises for any non-zero Decimal, and gives "" otherwise. The field is declared at matches/models.py:151. |
| MatchForms.MinutesAsWrittenCounterexample | matches/forms.py:191-199 | Once the queryset holds the two teams' players, a posted home-team player passes the team and player checks, so clean reads the minutes. 32.5 minutes then make clean raise. The only minutes value that reaches the parser is 0. |
| Common.Get | main/middleware.py:10-13 | `dict.get` and the primary-key lookup find a value iff the key is present, and then give that key's value. |
| Common.Trim | matches/views.py:31 | `str.strip()` gives a string with no surrounding whitespace, where whitespace is every character `str.isspace` accepts, and leaves a stripped string alone. |
| Common.TrimInfix | matches/views.py:31 | What strip removes is whitespace from the two ends only: the result is a slice of the input with only whitespace before and after it. |
| Common.ParseInt | matches/forms.py:194 | `int()` of text succeeds iff the stripped text is one or more decimal digits, or a sign followed by one or more digits. The value is then the digits' value, negated after '-'. |
| Common.ParseIntOfString | matches/forms.py:194 | `int(str(i)) == i` for every integer i. |
| Sorting.SortByOrdered | news/views.py:43-50 | Under a total, transitive order, the sort gives an ordered permutation of its input. |

## Left out

- HTML templates, the messages framework, CSRF exemption and URL routing are not modelled. A rendered page is only a template name, and a redirect only the route name. The JSON payloads of listings are not modelled.
- `show_main`, `match_detail`, `match_create`, `match_edit`, `show_news_detail`, `get_news_json`, the XML views and `matches_json` are left out. They render, serialise or run a plain model form with no rule of the application's own.
- `show_news_page` is wrapped in `main.decorators.login_required_custom`. main/decorators.py is not part of this model, so that gate is not modelled; the listing's filter and sort are.
- Password hashing, `authenticate`, the form field cleaning, `float()`, date and date-time parsing and `strip_tags` are oracle parameters. Nothing is assumed of them except the hasher's `Sound` where a contract requires it.
- Timestamps (`tipoff_at`, `published_at`, `date`, `now()`) are opaque integers. Time zones (`make_aware`) and `Match.__str__` are not modelled.
- New uuids are a `freshId` parameter assumed unused. The auto-increment keys come from a `nextId` counter.
- MatchViews.ScoreField: the values of a JSON request body are modelled as text. A JSON integer n is read as its decimal text, which gives n back (ScoreOfIntegerText) and is also what a CharField stores for it. JSON null, floats, booleans and nested values are not modelled: `int()` of null raises and answers 500, `int()` truncates a float (85.9 is saved as 85), and `parse_datetime` raises on any non-string tip-off. The same holds for the login and register bodies. In register, a non-string password makes `set_password` raise after `create` has already stored the user.
- Exception messages inside caught 500 answers are not modelled; the body only says `"status": "error"`.
- String case handling (`icontains`, `.upper()`) is ASCII only. `int()` does not accept `_` digit separators or non-ASCII decimal digits.
- Ordering by `title` compares code points (`LexLe`). The database orders text by its collation, which this model does not fix; the sort's ordering and permutation properties hold for any total order.
- Database `max_length` limits are not modelled. Neither are foreign keys to a missing row, the 32767 bound of PositiveSmallIntegerField, or `Decimal` quantization of minutes to two places.
- MatchViews.MatchSchedule: the database orders matches with equal tip-offs arbitrarily; the model fixes one order (stable insertion).
- Middleware.ResolveUser: a session `user_id` that is not a valid uuid makes the lookup raise a validation error rather than DoesNotExist. The model treats it as a stale id (None). login_user only ever writes valid ids.
- AuthViews.AuthLoginSession: the new session key that `cycle_key` and `flush` give the session, the CSRF token rotation and the `last_login` update made by the `user_logged_in` signal are not modelled. The session's stored data is.
- AuthViews.Logout: the `except` branch (401 "Logout failed.") is not modelled, because the framework's logout does not raise on a session.
- The `hasattr(request, 'user')` test of the middleware is not modelled; the framework's authentication middleware always sets the attribute.
- Float and boolean spreadsheet cells are not modelled, and neither is the shape of `str()` of a date-time. Cells are text, integers or date-times.
- The `--sheet` option, workbook loading and the missing-file CommandError are left out. The `--dtfmt` format is folded into the tip-off parser oracle.
- csv.DictReader's `None` for the missing cells of a short row is not modelled.
- The per-row messages that import_events prints are modelled as the `created` flags. The commands' stdout summaries are left out, and so is file reading everywhere.
- EventImport.Step: the model gives new events an `owner` parameter for the NOT NULL `created_by` the script omits (see Findings). `time`, `location` and `image_url` are stored as given.
- Events and EventImport: events/models.py:2 imports CustomUser from the `authentication` app, which is not in INSTALLED_APPS (dribbl_id/settings.py:61-76), so as written the events app fails to load. The model takes `created_by` to be a key of the installed user model, main.CustomUser (AUTH_USER_MODEL, dribbl_id/settings.py:78), and does not model the load failure.
- PlayerImport.Handle: the `--include-ttot` spelling the command also accepts is the same boolean parameter.
- The first `PlayerBoxScoreForm.__init__` (matches/forms.py:109-117) is shadowed by the second one, so the player queryset stays empty in the code as written. Its team filter is what MatchForms.TeamPlayers models, and the corrected views use it (see Findings). Its ordering by `full_name` only orders the choices and is not modelled.
- MatchViews.AddBoxLine: the errors of the fields other than `player` are given as a parameter (field cleaning is an oracle). A posted player key that is not a number is not representable.
- The `is_featured` assignment in `edit_news_entry_ajax` sets an attribute the News model does not have; it is not modelled.

## Findings

| source | as written | input that shows it | evidently intended | confidence | as-written member | corrected member |
|---|---|---|---|---|---|---|
| matches/forms.py:191 | `(cleaned.get("minutes") or "").strip()` runs on the value of the model's DecimalField (matches/models.py:151). A non-zero Decimal has no `strip`, so clean raises AttributeError; only 0 or a missing value reaches the `mm:ss` parser. | once the player queryset is set (next row), a home-team player with minutes "32.5" | the minutes field is read as text, so "32:30" and "32.5" both parse | not executed | MatchForms.MinutesAsWrittenCounterexample | MatchForms.FormatParseRoundTrip |
| matches/forms.py:143-168 | The second `__init__` shadows the first and never sets the player field's queryset, which stays `Player.objects.none()` (lines 101-107). Every posted player is "not one of the available choices", so no box score form is ever valid and boxscore_add and boxscore_edit never save. | a POST to boxscore_add naming a home-team player, with every other field valid | the player choices are the home and away teams' players, as the first `__init__` sets them | not executed | MatchViews.BoxscoreAdd | MatchViews.BoxscoreAddCorrected |
| main/management/commands/import_matches_xlsx.py:50-54 | `row[...] or None` stores NULL for a blank venue or image_url. Both columns are NOT NULL (matches/models.py:73-74), so the row raises IntegrityError. | a sheet row with an empty venue cell | a blank venue or image_url is stored as "" | not executed | MatchImport.BlankVenueCounterexample | MatchImport.FromCells |
| events/views.py:42 | `e.time.strftime('%H:%M')` runs on the text of the CharField `time` (events/models.py:12). Text has no `strftime`, so the AJAX listing raises AttributeError and answers 500 as soon as one listed event has a time. | an AJAX request from a signed-in user while a public event has time "15:00" | the listing shows the stored time text, "" when there is none | not executed | Events.EventList | Events.EventListCorrected |
| data/events/import_events.py:8-18 | get_or_create's defaults leave out `created_by`, a NOT NULL foreign key (events/models.py:9). Every new title raises IntegrityError. | a well-formed CSV row on an empty event table | a new title creates its event with an owner | not executed | EventImport.MissingOwnerCounterexample | EventImport.StepGetsOrCreates |
