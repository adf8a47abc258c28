// The players app: a table of per-game player averages, listed for anybody
// and changed only by admins. The change views use the framework's
// login_required and then check the role themselves.
module Players {
  import opened Common
  import opened Accounts
  import opened Http

  const PlayerListRoute: string := "players:player_list"
  const PlayerListPage: string := "players/players_list.html"
  const PlayerFormPage: string := "players/player_form.html"
  const PlayerDeletePage: string := "players/player_delete.html"
  const NotFound: Response := Status(404, map[])
  /** HttpResponseForbidden; its text is not modelled. */
  const Forbidden: Response := Status(403, map[])

  datatype Player = Player(name: string, position: string, team: string,
                           pointsPerGame: real, assistsPerGame: real, reboundsPerGame: real)

  /** PlayerForm's field validation, an oracle: the player the posted fields
      describe, or None when the form has errors. The form covers all six
      fields of the model. */
  type PlayerFormCleaner = map<string, string> -> Option<Player>

  /** The stored players, keyed by the database's auto-increment id. */
  class PlayerTable {
    var rows: map<nat, Player>
    var nextId: nat

    ghost predicate Valid()
      reads this
    {
      0 < nextId && forall k :: k in rows ==> 0 < k < nextId
    }

    constructor (initial: map<nat, Player>, nextId: nat)
      requires 0 < nextId && forall k :: k in initial ==> 0 < k < nextId
      ensures Valid() && rows == initial && this.nextId == nextId
    {
      rows := initial;
      this.nextId := nextId;
    }

    /** Saving a new player: the row gets the next key. */
    method Add(p: Player) returns (id: nat)
      requires Valid()
      modifies this
      ensures Valid()
      ensures id == old(nextId) && id !in old(rows)
      ensures rows == old(rows)[id := p] && nextId == old(nextId) + 1
    {
      id := nextId;
      rows := rows[id := p];
      nextId := nextId + 1;
    }
  }

  /** login_required, then the role: None lets an admin through. */
  function AdminGate(u: Identity): (r: Option<Response>)
    ensures r.None? <==> u.Authenticated? && u.user.role == AdminRole
    ensures !u.Authenticated? ==> r == LoginRequired(u)
    ensures u.Authenticated? && u.user.role != AdminRole ==> r == Some(Forbidden)
  {
    match LoginRequired(u)
    case Some(refused) => Some(refused)
    case None => if RoleOf(u) != AdminRole then Some(Forbidden) else None
  }

  /** player_list: every player, for any caller, logged in or not. */
  method PlayerList(request: Request, players: PlayerTable) returns (response: Response, shown: set<nat>)
    ensures response == Render(PlayerListPage) && shown == players.rows.Keys
  {
    response := Render(PlayerListPage);
    shown := players.rows.Keys;
  }

  /** add_player: a valid POST from an admin saves exactly one player; any
      other request of an admin shows the form and saves nothing. */
  method AddPlayer(request: Request, players: PlayerTable, clean: PlayerFormCleaner) returns (response: Response)
    requires players.Valid()
    modifies players
    ensures players.Valid()
    ensures AdminGate(request.user).Some? ==>
              response == AdminGate(request.user).value && players.rows == old(players.rows)
    ensures AdminGate(request.user).None? && (request.verb != POST || clean(request.post).None?) ==>
              response == Render(PlayerFormPage) && players.rows == old(players.rows)
    ensures AdminGate(request.user).None? && request.verb == POST && clean(request.post).Some? ==>
              response == Redirect(PlayerListRoute) &&
              players.rows == old(players.rows)[old(players.nextId) := clean(request.post).value]
  {
    var refused := AdminGate(request.user);
    if refused.Some? {
      return refused.value;
    }
    if request.verb == POST {
      var p := clean(request.post);
      if p.Some? {
        var id := players.Add(p.value);
        return Redirect(PlayerListRoute);
      }
    }
    response := Render(PlayerFormPage);
  }

  /** edit_player: after the gate a missing player is 404; a valid POST
      replaces only the addressed player; anything else changes nothing. */
  method EditPlayer(request: Request, players: PlayerTable, playerId: nat, clean: PlayerFormCleaner)
    returns (response: Response)
    requires players.Valid()
    modifies players
    ensures players.Valid() && players.nextId == old(players.nextId)
    ensures AdminGate(request.user).Some? ==>
              response == AdminGate(request.user).value && players.rows == old(players.rows)
    ensures AdminGate(request.user).None? && playerId !in old(players.rows) ==>
              response == NotFound && players.rows == old(players.rows)
    ensures AdminGate(request.user).None? && playerId in old(players.rows) &&
            (request.verb != POST || clean(request.post).None?) ==>
              response == Render(PlayerFormPage) && players.rows == old(players.rows)
    ensures AdminGate(request.user).None? && playerId in old(players.rows) &&
            request.verb == POST && clean(request.post).Some? ==>
              response == Redirect(PlayerListRoute) &&
              players.rows == old(players.rows)[playerId := clean(request.post).value]
  {
    var refused := AdminGate(request.user);
    if refused.Some? {
      return refused.value;
    }
    if playerId !in players.rows {
      return NotFound;
    }
    if request.verb == POST {
      var p := clean(request.post);
      if p.Some? {
        players.rows := players.rows[playerId := p.value];
        return Redirect(PlayerListRoute);
      }
    }
    response := Render(PlayerFormPage);
  }

  /** delete_player: after the gate a missing player is 404; only a POST
      deletes, and only the addressed player. */
  method DeletePlayer(request: Request, players: PlayerTable, playerId: nat) returns (response: Response)
    requires players.Valid()
    modifies players
    ensures players.Valid() && players.nextId == old(players.nextId)
    ensures AdminGate(request.user).Some? ==>
              response == AdminGate(request.user).value && players.rows == old(players.rows)
    ensures AdminGate(request.user).None? && playerId !in old(players.rows) ==>
              response == NotFound && players.rows == old(players.rows)
    ensures AdminGate(request.user).None? && playerId in old(players.rows) && request.verb != POST ==>
              response == Render(PlayerDeletePage) && players.rows == old(players.rows)
    ensures AdminGate(request.user).None? && playerId in old(players.rows) && request.verb == POST ==>
              response == Redirect(PlayerListRoute) && players.rows == old(players.rows) - {playerId}
  {
    var refused := AdminGate(request.user);
    if refused.Some? {
      return refused.value;
    }
    if playerId !in players.rows {
      return NotFound;
    }
    if request.verb == POST {
      players.rows := players.rows - {playerId};
      return Redirect(PlayerListRoute);
    }
    response := Render(PlayerDeletePage);
  }

  /** The gate refuses an anonymous caller with the login redirect and a
      logged-in non-admin with 403, whatever the request. */
  lemma OnlyAdminsPass(u: User)
    ensures AdminGate(Anonymous) == Some(Redirect(LoginUrl))
    ensures AdminGate(NoneUser) == Some(ServerError)
    ensures u.role != AdminRole ==> AdminGate(Authenticated(u)) == Some(Forbidden)
    ensures u.role == AdminRole ==> AdminGate(Authenticated(u)).None?
  {
  }
}
