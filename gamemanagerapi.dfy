/** The HTTP face of the game manager (gamemanagerapi.py): one handler per route, each turning the path
    segments after its route into a `GameManager` call and the outcome into a JSON response. */
module Api {
  import opened Wrappers
  import opened Seqs
  import opened Util
  import opened Registry
  import opened GameManagement
  import opened Routing

  /** The JSON values a response body holds. */
  datatype Value = Str(s: string) | Int(i: int) | Null | List(items: seq<Value>) | Object(fields: map<string, Value>)

  /** A response: its JSON body and its status code. */
  datatype Response = Response(body: map<string, Value>, status: string)

  /** `build_response`: "status" says success or error, "message" is present only for a non-empty message,
      and the keys of `extra` are merged last, so they win over both. */
  function BuildResponse(success: bool, message: string := "", extra: map<string, Value> := map[]): (r: Response)
    ensures r.status == if success then "200" else "400"
    ensures r.body.Keys == {"status"} + (if message != "" then {"message"} else {}) + extra.Keys
    ensures forall k :: k in extra ==> r.body[k] == extra[k]
    ensures "status" !in extra ==> r.body["status"] == Str(if success then "success" else "error")
    ensures "message" !in extra && message != "" ==> r.body["message"] == Str(message)
  {
    var body := map["status" := Str(if success then "success" else "error")];
    var body := if message != "" then body["message" := Str(message)] else body;
    var body := if extra != map[] then body + extra else body;
    Response(body, if success then "200" else "400")
  }

  /** The `try`/`except GameManagerError` of every mutating handler: a plain success, or an error response
      carrying the error's text. */
  function Reply(outcome: Outcome<Error>): (r: Response)
    ensures r.status == "200" <==> outcome.Pass?
    ensures outcome.Pass? ==> r.body == map["status" := Str("success")]
    ensures outcome.Fail? ==> r.body == map["status" := Str("error"), "message" := Str(Message(outcome.error))]
  {
    match outcome
    case Pass => BuildResponse(true)
    case Fail(e) => BuildResponse(false, Message(e))
  }

  /** One entry of `player_list`. */
  function PlayerEntry(p: Player): Value
  {
    Object(map[
      "name" := Str(p.name),
      "lobby" := if p.lobby.Some? then Str(p.lobby.value) else Null,
      "game" := if p.game.Some? then Str(p.game.value) else Null])
  }

  /** One entry of `lobby_list`. */
  function LobbyEntry(l: Lobby): Value
  {
    Object(map[
      "name" := Str(l.name),
      "players" := List(seq(|l.players|, i requires 0 <= i < |l.players| => Str(l.players[i]))),
      "min_players" := Int(l.minPlayers),
      "max_players" := Int(l.maxPlayers),
      "player_count" := Int(|l.players|)])
  }

  /** One entry of `game_list`. */
  function GameEntry(g: Instance): Value
  {
    var game := g.Base();
    Object(map[
      "id" := Str(game.id),
      "name" := Str(game.GetName()),
      "players" := List(seq(|game.players|, i requires 0 <= i < |game.players| => Str(game.players[i]))),
      "player_count" := Int(|game.players|)])
  }

  class GameManagerApi {
    const gameManager: GameManager

    constructor (gameManager: GameManager)
      ensures this.gameManager == gameManager
    {
      this.gameManager := gameManager;
    }

    /** `player_join`: register the player named by the first path segment. */
    method PlayerJoin(context: RouterContext) returns (r: Response)
      requires gameManager.Valid()
      modifies gameManager
      ensures gameManager.Valid()
      ensures var name, m := ParseUrlPath(context.additional)[0], gameManager;
        && (name in old(m.playerNameMap) ==> r == Reply(Fail(PlayerExists(name))) && unchanged(m))
        && (name !in old(m.playerNameMap) ==>
              && r == Reply(Pass)
              && m.players == old(m.players) + [name]
              && m.playerNameMap == old(m.playerNameMap)[name := Player(name, None, None)]
              && m.lobbies == old(m.lobbies) && m.lobbyNameMap == old(m.lobbyNameMap)
              && m.games == old(m.games) && m.gameIdMap == old(m.gameIdMap))
    {
      var path := ParseUrlPath(context.additional);
      var outcome := gameManager.AddPlayer(path[0]);
      r := Reply(outcome);
    }

    /** `player_disconnect`: remove the player named by the first path segment, taking it out of its lobby
        first. */
    method PlayerDisconnect(context: RouterContext) returns (r: Response)
      requires gameManager.Valid()
      modifies gameManager
      ensures gameManager.Valid()
      ensures var name, m := ParseUrlPath(context.additional)[0], gameManager;
        && (name !in old(m.playerNameMap) ==> r == Reply(Fail(PlayerCannotBeRemoved(name))) && unchanged(m))
        && (name in old(m.playerNameMap) ==>
              && r == Reply(Pass)
              && m.players == Without(old(m.players), {name})
              && m.playerNameMap == old(m.playerNameMap) - {name}
              && m.lobbies == old(m.lobbies)
              && (old(m.playerNameMap)[name].lobby.None? ==> m.lobbyNameMap == old(m.lobbyNameMap))
              && (old(m.playerNameMap)[name].lobby.Some? ==>
                    var l := old(m.playerNameMap)[name].lobby.value;
                    m.lobbyNameMap == old(m.lobbyNameMap)[l := old(m.lobbyNameMap)[l].(players := Without(old(m.lobbyNameMap)[l].players, {name}))])
              && m.games == old(m.games) && m.gameIdMap == old(m.gameIdMap))
    {
      var path := ParseUrlPath(context.additional);
      var outcome := gameManager.RemovePlayer(path[0]);
      r := Reply(outcome);
    }

    /** `lobby_join`: the first two path segments name the lobby and the player. With fewer than two
        segments `path[1]` raises an error the handler does not catch (`None` here), and nothing changes. */
    method LobbyJoin(context: RouterContext) returns (r: Option<Response>)
      requires gameManager.Valid()
      modifies gameManager
      ensures gameManager.Valid()
      ensures var path, m := ParseUrlPath(context.additional), gameManager;
        && (|path| < 2 ==> r == None && unchanged(m))
        && (|path| >= 2 ==>
              var outcome := JoinLobbyCheck(old(m.lobbyNameMap), old(m.playerNameMap), path[0], path[1]);
              && r == Some(Reply(outcome))
              && (outcome.Fail? ==> unchanged(m))
              && (outcome.Pass? ==>
                    var lobbyName, playerName := path[0], path[1];
                    && m.playerNameMap == old(m.playerNameMap)[playerName := old(m.playerNameMap)[playerName].(lobby := Some(lobbyName))]
                    && m.lobbyNameMap == old(m.lobbyNameMap)[lobbyName := old(m.lobbyNameMap)[lobbyName].(players := old(m.lobbyNameMap)[lobbyName].players + [playerName])]
                    && m.lobbies == old(m.lobbies) && m.players == old(m.players)
                    && m.games == old(m.games) && m.gameIdMap == old(m.gameIdMap)))
    {
      var path := ParseUrlPath(context.additional);
      if |path| < 2 {
        return None;
      }
      var outcome := gameManager.JoinLobby(path[0], path[1]);
      r := Some(Reply(outcome));
    }

    /** `lobby_leave`: the first two path segments name the lobby and the player. */
    method LobbyLeave(context: RouterContext) returns (r: Option<Response>)
      requires gameManager.Valid()
      modifies gameManager
      ensures gameManager.Valid()
      ensures var path, m := ParseUrlPath(context.additional), gameManager;
        && (|path| < 2 ==> r == None && unchanged(m))
        && (|path| >= 2 ==>
              var outcome := LeaveLobbyCheck(old(m.lobbyNameMap), old(m.playerNameMap), path[0], path[1]);
              && r == Some(Reply(outcome))
              && (outcome.Fail? ==> unchanged(m))
              && (outcome.Pass? ==>
                    var lobbyName, playerName := path[0], path[1];
                    && m.playerNameMap == old(m.playerNameMap)[playerName := old(m.playerNameMap)[playerName].(lobby := None)]
                    && m.lobbyNameMap == old(m.lobbyNameMap)[lobbyName := old(m.lobbyNameMap)[lobbyName].(players := Without(old(m.lobbyNameMap)[lobbyName].players, {playerName}))]
                    && m.lobbies == old(m.lobbies) && m.players == old(m.players)
                    && m.games == old(m.games) && m.gameIdMap == old(m.gameIdMap)))
    {
      var path := ParseUrlPath(context.additional);
      if |path| < 2 {
        return None;
      }
      var outcome := gameManager.LeaveLobby(path[0], path[1]);
      r := Some(Reply(outcome));
    }

    /** `game_start`: start a game in the lobby named by the first path segment. `chosen` and `gameId` name
        the players the manager picked and the id it drew. */
    method GameStart(context: RouterContext) returns (r: Response, ghost chosen: seq<string>, ghost gameId: string)
      requires gameManager.Valid()
      modifies gameManager
      ensures gameManager.Valid()
      ensures var name, m := ParseUrlPath(context.additional)[0], gameManager;
        var lobbies := old(m.lobbyNameMap);
        && (name !in lobbies ==> r == Reply(Fail(LobbyNotFound(name))))
        && (name in lobbies && |lobbies[name].players| < lobbies[name].minPlayers ==>
              r == Reply(Fail(NotEnoughPlayers(name, |lobbies[name].players|, lobbies[name].minPlayers))))
        && (name in lobbies && |lobbies[name].players| >= lobbies[name].minPlayers ==>
              r == Reply(Pass) || r == Reply(Fail(IdExhausted(10))))
        && (r.status == "400" ==> unchanged(m))
        && (r.status == "200" ==>
              var lobby := lobbies[name];
              && name in lobbies
              && IsSelection(chosen, lobby.players, lobby.maxPlayers)
              && |gameId| == 6 && IsLowercase(gameId) && gameId !in old(m.gameIdMap)
              && m.games == old(m.games) + [gameId]
              && gameId in m.gameIdMap && m.gameIdMap == old(m.gameIdMap)[gameId := m.gameIdMap[gameId]]
              && m.gameIdMap[gameId].Base().players == chosen
              && (lobby.gameFactory == GameClass <==> m.gameIdMap[gameId].PlainGame?)
              && m.lobbyNameMap == lobbies[name := lobby.(players := Without(lobby.players, Elems(chosen)))]
              && m.playerNameMap == Moved(old(m.playerNameMap), chosen, gameId)
              && m.lobbies == old(m.lobbies) && m.players == old(m.players))
      ensures r.status == "200" <==> |gameManager.games| == |old(gameManager.games)| + 1
    {
      var path := ParseUrlPath(context.additional);
      var outcome;
      outcome, chosen, gameId := gameManager.StartGame(path[0]);
      r := Reply(outcome);
    }

    /** `game_leave`: the first two path segments name the game and the player. */
    method GameLeave(context: RouterContext) returns (r: Option<Response>)
      requires gameManager.Valid()
      modifies gameManager
      ensures gameManager.Valid()
      ensures var path, m := ParseUrlPath(context.additional), gameManager;
        && (|path| < 2 ==> r == None && unchanged(m))
        && (|path| >= 2 ==>
              var outcome := LeaveGameCheck(old(m.gameIdMap).Keys, old(m.playerNameMap), path[0], path[1]);
              && r == Some(Reply(outcome))
              && (outcome.Fail? ==> unchanged(m))
              && (outcome.Pass? ==>
                    var playerName := path[1];
                    && m.playerNameMap == old(m.playerNameMap)[playerName := old(m.playerNameMap)[playerName].(game := None)]
                    && m.lobbies == old(m.lobbies) && m.lobbyNameMap == old(m.lobbyNameMap) && m.players == old(m.players)
                    && m.games == old(m.games) && m.gameIdMap == old(m.gameIdMap)))
    {
      var path := ParseUrlPath(context.additional);
      if |path| < 2 {
        return None;
      }
      var outcome := gameManager.LeaveGame(path[0], path[1]);
      r := Some(Reply(outcome));
    }

    /** `player_list`: every registered player, in registration order, with its lobby and game or null. */
    function PlayerList(): (r: Response)
      reads gameManager
      requires forall n :: n in gameManager.players ==> n in gameManager.playerNameMap
      ensures r.status == "200" && r.body.Keys == {"status", "players"}
      ensures r.body["players"].List? && |r.body["players"].items| == |gameManager.players|
      ensures forall i :: 0 <= i < |gameManager.players| ==>
        r.body["players"].items[i] == PlayerEntry(gameManager.playerNameMap[gameManager.players[i]])
    {
      var names, m := gameManager.players, gameManager.playerNameMap;
      var entries := seq(|names|, i requires 0 <= i < |names| => PlayerEntry(m[names[i]]));
      BuildResponse(true, "", map["players" := List(entries)])
    }

    /** `lobby_list`: every lobby, in creation order, with its waiting players and their count. */
    function LobbyList(): (r: Response)
      reads gameManager
      requires forall n :: n in gameManager.lobbies ==> n in gameManager.lobbyNameMap
      ensures r.status == "200" && r.body.Keys == {"status", "lobbies"}
      ensures r.body["lobbies"].List? && |r.body["lobbies"].items| == |gameManager.lobbies|
      ensures forall i :: 0 <= i < |gameManager.lobbies| ==>
        var lobby := gameManager.lobbyNameMap[gameManager.lobbies[i]];
        var entry := r.body["lobbies"].items[i];
        && entry.Object? && entry.fields.Keys == {"name", "players", "min_players", "max_players", "player_count"}
        && entry.fields["name"] == Str(lobby.name)
        && entry.fields["players"].List? && |entry.fields["players"].items| == |lobby.players|
        && entry.fields["player_count"] == Int(|entry.fields["players"].items|)
    {
      var names, m := gameManager.lobbies, gameManager.lobbyNameMap;
      var entries := seq(|names|, i requires 0 <= i < |names| => LobbyEntry(m[names[i]]));
      BuildResponse(true, "", map["lobbies" := List(entries)])
    }

    /** `game_list`: every game ever started, in start order, with its (empty) name and its players. */
    function GameList(): (r: Response)
      reads gameManager
      requires forall id :: id in gameManager.games ==> id in gameManager.gameIdMap
      ensures r.status == "200" && r.body.Keys == {"status", "games"}
      ensures r.body["games"].List? && |r.body["games"].items| == |gameManager.games|
      ensures forall i :: 0 <= i < |gameManager.games| ==>
        var game := gameManager.gameIdMap[gameManager.games[i]].Base();
        var entry := r.body["games"].items[i];
        && entry.Object? && entry.fields.Keys == {"id", "name", "players", "player_count"}
        && entry.fields["id"] == Str(game.id) && entry.fields["name"] == Str("")
        && entry.fields["player_count"] == Int(|game.players|)
    {
      var ids, m := gameManager.games, gameManager.gameIdMap;
      var entries := seq(|ids|, i requires 0 <= i < |ids| => GameEntry(m[ids[i]]));
      BuildResponse(true, "", map["games" := List(entries)])
    }

    /** `setup_routes`: the nine handlers, as prefix routes under the router's base, in this order. */
    method SetupRoutes(router: Router)
      requires router.Valid()
      modifies router
      ensures router.Valid()
      ensures router.prefixRoutes == old(router.prefixRoutes) + ApiRoutes(router.baseRoute)
      ensures router.staticRoutes == old(router.staticRoutes) && router.defaultRoute == old(router.defaultRoute)
    {
      ghost var before := router.prefixRoutes;
      AddEndpoint(router, "player_join");
      ghost var added := [(router.baseRoute + "player_join", Endpoint("player_join"))];
      AddEndpoint(router, "player_disconnect");
      added := added + [(router.baseRoute + "player_disconnect", Endpoint("player_disconnect"))];
      AddEndpoint(router, "player_list");
      added := added + [(router.baseRoute + "player_list", Endpoint("player_list"))];
      AddEndpoint(router, "lobby_join");
      added := added + [(router.baseRoute + "lobby_join", Endpoint("lobby_join"))];
      AddEndpoint(router, "lobby_leave");
      added := added + [(router.baseRoute + "lobby_leave", Endpoint("lobby_leave"))];
      AddEndpoint(router, "lobby_list");
      added := added + [(router.baseRoute + "lobby_list", Endpoint("lobby_list"))];
      AddEndpoint(router, "game_start");
      added := added + [(router.baseRoute + "game_start", Endpoint("game_start"))];
      AddEndpoint(router, "game_leave");
      added := added + [(router.baseRoute + "game_leave", Endpoint("game_leave"))];
      AddEndpoint(router, "game_list");
      added := added + [(router.baseRoute + "game_list", Endpoint("game_list"))];
      assert router.prefixRoutes == before + added;
    }
  }

  /** One `add_prefix_route` call of `setup_routes`: the handler named `name` is appended under the router's
      base plus `name`. Which earlier prefixes hide it is only logged by the source and is dropped here. */
  method AddEndpoint(router: Router, name: string)
    requires router.Valid()
    modifies router
    ensures router.Valid()
    ensures router.prefixRoutes == old(router.prefixRoutes) + [(router.baseRoute + name, Endpoint(name))]
    ensures router.staticRoutes == old(router.staticRoutes) && router.defaultRoute == old(router.defaultRoute)
  {
    var _ := router.AddPrefixRoute(name, Endpoint(name));
  }

  /** The prefix routes `setup_routes` adds under base route `base`, in order, each served by the handler
      of the same name. */
  function ApiRoutes(base: string): (r: seq<(string, Handler)>)
    ensures |r| == 9
    ensures forall i :: 0 <= i < |r| ==> StartsWith(r[i].0, base) && r[i].1 == Endpoint(r[i].0[|base|..])
  {
    [(base + "player_join", Endpoint("player_join"))]
    + [(base + "player_disconnect", Endpoint("player_disconnect"))]
    + [(base + "player_list", Endpoint("player_list"))]
    + [(base + "lobby_join", Endpoint("lobby_join"))]
    + [(base + "lobby_leave", Endpoint("lobby_leave"))]
    + [(base + "lobby_list", Endpoint("lobby_list"))]
    + [(base + "game_start", Endpoint("game_start"))]
    + [(base + "game_leave", Endpoint("game_leave"))]
    + [(base + "game_list", Endpoint("game_list"))]
  }
}
