/** The records of the game registry (gamemanager.py) as values: players and lobbies, the errors the
    registry raises, the checks each operation makes, and the invariants the registry keeps, with the
    lemmas that every update keeps them. Objects that point at each other in the source (a player's lobby,
    a player's game) are referred to here by their unique name or id. */
module Registry {
  import opened Wrappers
  import opened Seqs
  import opened Games
  import opened GuessGames

  /** The game class a lobby instantiates (`Lobby.game_factory`). */
  datatype GameFactory = GameClass | GuessGameClass

  /** A running game object, of whichever class its lobby produces. */
  datatype Instance = PlainGame(game: Game) | GuessInstance(guess: GuessGame)
  {
    /** The `Game` part every variant has: id, players and scores. */
    function Base(): Game
    {
      match this
      case PlainGame(g) => g
      case GuessInstance(gg) => gg.base
    }
  }

  /** A registered player and the lobby name or game id it currently occupies, if any. */
  datatype Player = Player(name: string, lobby: Option<string>, game: Option<string>)

  /** A lobby: the game it starts, its player bounds (`maxPlayers == 0` means unbounded) and its waiting
      list, in order of arrival. */
  datatype Lobby = Lobby(name: string, gameFactory: GameFactory, minPlayers: int, maxPlayers: int, players: seq<string>)

  /** The `GameManagerError`s the registry raises, one per `raise` in the source. */
  datatype Error =
    | LobbyExists(lobby: string)
    | PlayerExists(player: string)
    | PlayerCannotBeRemoved(player: string)
    | LobbyNotFound(lobby: string)
    | PlayerNotFound(player: string)
    | AlreadyInGame(player: string, gameId: string)
    | AlreadyInLobby(player: string, lobby: string)
    | InAnotherLobby(player: string, lobby: string)
    | NotInLobby(player: string)
    | LeavingAnotherLobby(player: string, lobby: string)
    | IdExhausted(attempts: int)
    | NotEnoughPlayers(lobby: string, waiting: int, minPlayers: int)
    | GameNotFound(gameId: string)
    | NotInGame(player: string)
    | LeavingAnotherGame(player: string, gameId: string)

  /** Decimal digits of a natural number, as `%d` prints it. */
  function NatToString(n: nat): (r: string)
    ensures |r| >= 1
    ensures forall i :: 0 <= i < |r| ==> '0' <= r[i] <= '9'
  {
    if n < 10 then ["0123456789"[n]] else NatToString(n / 10) + ["0123456789"[n % 10]]
  }

  /** `%d` on any integer. */
  function IntToString(i: int): (r: string)
    ensures |r| >= 1
  {
    if i < 0 then "-" + NatToString(-i) else NatToString(i)
  }

  /** The text of each error, as `str(ex)` gives it; never empty. */
  function Message(e: Error): (r: string)
    ensures |r| > 0
  {
    match e
    case LobbyExists(l) => "Lobby already exists: " + l
    case PlayerExists(p) => "Player already exists: " + p
    case PlayerCannotBeRemoved(p) => "Player cannot be removed, they do not exist: " + p
    case LobbyNotFound(l) => "Lobby does not exist: " + l
    case PlayerNotFound(p) => "Player does not exist: " + p
    case AlreadyInGame(p, g) => "Player " + p + " is already in another game: " + g
    case AlreadyInLobby(p, l) => "Player " + p + " is already in lobby: " + l
    case InAnotherLobby(p, l) => "Player " + p + " is already in another lobby: " + l
    case NotInLobby(p) => "Player " + p + " cannot leave lobby, they are not in one"
    case LeavingAnotherLobby(p, l) => "Player " + p + " cannot leave lobby, they are in another lobby: " + l
    case IdExhausted(n) => "Could not generate unique game id after " + IntToString(n) + " attempts"
    case NotEnoughPlayers(l, n, m) =>
      "Cannot start game, lobby " + l + " does not have enough players. (" + IntToString(n) + "/" + IntToString(m) + ")"
    case GameNotFound(g) => "Game does not exist: " + g
    case NotInGame(p) => "Player " + p + " cannot leave game, they are not in one"
    case LeavingAnotherGame(p, g) => "Player " + p + " cannot leave game, they are in another game: " + g
  }

  /** A list and a map that register the same names, each name once. */
  ghost predicate Registered<T>(order: seq<string>, m: map<string, T>)
  {
    NoDup(order) && forall n :: n in order <==> n in m
  }

  /** The error `join_lobby` raises, checked in the source's order: unknown lobby, unknown player, player in
      a game, player already in this lobby, player in another lobby. A player may join exactly when both
      exist and the player is in no lobby and no game. */
  function JoinLobbyCheck(lobbyMap: map<string, Lobby>, playerMap: map<string, Player>, lobbyName: string, playerName: string): (r: Outcome<Error>)
    ensures r == Pass <==>
      lobbyName in lobbyMap && playerName in playerMap && playerMap[playerName].lobby.None? && playerMap[playerName].game.None?
  {
    if lobbyName !in lobbyMap then Fail(LobbyNotFound(lobbyName))
    else if playerName !in playerMap then Fail(PlayerNotFound(playerName))
    else
      var p := playerMap[playerName];
      if p.game.Some? then Fail(AlreadyInGame(playerName, p.game.value))
      else if p.lobby == Some(lobbyName) then Fail(AlreadyInLobby(playerName, lobbyName))
      else if p.lobby.Some? then Fail(InAnotherLobby(playerName, p.lobby.value))
      else Pass
  }

  /** The error `leave_lobby` raises, in the source's order: unknown lobby, unknown player, player in no
      lobby, player in another lobby. A player may leave exactly the lobby it is in. */
  function LeaveLobbyCheck(lobbyMap: map<string, Lobby>, playerMap: map<string, Player>, lobbyName: string, playerName: string): (r: Outcome<Error>)
    ensures r == Pass <==> lobbyName in lobbyMap && playerName in playerMap && playerMap[playerName].lobby == Some(lobbyName)
  {
    if lobbyName !in lobbyMap then Fail(LobbyNotFound(lobbyName))
    else if playerName !in playerMap then Fail(PlayerNotFound(playerName))
    else
      var p := playerMap[playerName];
      if p.lobby.None? then Fail(NotInLobby(playerName))
      else if p.lobby != Some(lobbyName) then Fail(LeavingAnotherLobby(playerName, p.lobby.value))
      else Pass
  }

  /** The error `leave_game` raises, in the source's order: unknown game, unknown player, player in no game,
      player in another game. A player may leave exactly the registered game it is in. */
  function LeaveGameCheck(gameIds: set<string>, playerMap: map<string, Player>, gameId: string, playerName: string): (r: Outcome<Error>)
    ensures r == Pass <==> gameId in gameIds && playerName in playerMap && playerMap[playerName].game == Some(gameId)
  {
    if gameId !in gameIds then Fail(GameNotFound(gameId))
    else if playerName !in playerMap then Fail(PlayerNotFound(playerName))
    else
      var p := playerMap[playerName];
      if p.game.None? then Fail(NotInGame(playerName))
      else if p.game != Some(gameId) then Fail(LeavingAnotherGame(playerName, p.game.value))
      else Pass
  }

  /** Appending a new name to the list and adding it to the map keeps them in step. */
  lemma RegisterKeepsRegistered<T>(order: seq<string>, m: map<string, T>, x: string, v: T)
    requires Registered(order, m) && x !in m
    ensures Registered(order + [x], m[x := v])
  {
  }

  /** A new player, in no lobby and no game, keeps the membership rules. */
  lemma AddPlayerKeepsConsistent(lobbyMap: map<string, Lobby>, playerMap: map<string, Player>, known: set<string>, p: string)
    requires Consistent(lobbyMap, playerMap, known) && p !in playerMap
    ensures Consistent(lobbyMap, playerMap[p := Player(p, None, None)], known)
  {
  }

  /** A new lobby, with an empty waiting list, keeps the membership rules. */
  lemma AddLobbyKeepsConsistent(lobbyMap: map<string, Lobby>, playerMap: map<string, Player>, known: set<string>,
                                l: string, f: GameFactory, minPlayers: int, maxPlayers: int)
    requires Consistent(lobbyMap, playerMap, known) && l !in lobbyMap
    ensures Consistent(lobbyMap[l := Lobby(l, f, minPlayers, maxPlayers, [])], playerMap, known)
  {
  }

  /** Dropping a name from both the list and the map keeps them in step. */
  lemma UnregisterKeepsRegistered<T>(order: seq<string>, m: map<string, T>, x: string)
    requires Registered(order, m)
    ensures Registered(Without(order, {x}), m - {x})
  {
    WithoutNoDup(order, {x});
    forall n ensures n in Without(order, {x}) <==> n in order && n != x {
      WithoutMembers(order, {x}, n);
    }
  }

  /** Only lowercase ASCII letters (`string.ascii_lowercase`). */
  predicate IsLowercase(s: string)
  {
    forall i :: 0 <= i < |s| ==> 'a' <= s[i] <= 'z'
  }

  /** The players `start_game` may take from a waiting list: with a positive maximum that the list exceeds,
      exactly `maxPlayers` distinct waiting players in any order (`random.sample`); otherwise all of them
      in any order (`random.shuffle`). */
  predicate IsSelection(chosen: seq<string>, waiting: seq<string>, maxPlayers: int)
  {
    if maxPlayers > 0 && |waiting| > maxPlayers then
      |chosen| == maxPlayers && NoDup(chosen) && forall n :: n in chosen ==> n in waiting
    else
      multiset(chosen) == multiset(waiting)
  }

  /** Membership rules, with the games a player may refer to given as `known`: no player is both in a
      lobby and in a game; a player's lobby and game exist; a lobby's waiting list names each player once,
      and names exactly the registered players whose lobby it is. */
  ghost predicate Consistent(lobbyMap: map<string, Lobby>, playerMap: map<string, Player>, known: set<string>)
  {
    && (forall n :: n in playerMap ==> !(playerMap[n].lobby.Some? && playerMap[n].game.Some?))
    && (forall n :: n in playerMap && playerMap[n].lobby.Some? ==> playerMap[n].lobby.value in lobbyMap)
    && (forall n :: n in playerMap && playerMap[n].game.Some? ==> playerMap[n].game.value in known)
    && (forall l :: l in lobbyMap ==> NoDup(lobbyMap[l].players))
    && (forall l, n :: l in lobbyMap && n in lobbyMap[l].players ==> n in playerMap && playerMap[n].lobby == Some(l))
    && (forall l, n :: l in lobbyMap && n in playerMap && playerMap[n].lobby == Some(l) ==> n in lobbyMap[l].players)
  }

  /** The players after `start_game` has moved `chosen` out of their lobby and into game `gameId`. */
  ghost function Moved(playerMap: map<string, Player>, chosen: seq<string>, gameId: string): map<string, Player>
  {
    map n | n in playerMap :: if n in chosen then playerMap[n].(lobby := None, game := Some(gameId)) else playerMap[n]
  }

  /** Moving one more player: the player leaves its lobby, then points at the game. */
  lemma MovedStep(playerMap: map<string, Player>, done: seq<string>, x: string, gameId: string)
    requires x in playerMap
    ensures var m := Moved(playerMap, done, gameId);
      Moved(playerMap, done + [x], gameId) == m[x := m[x].(lobby := None)][x := m[x].(lobby := None).(game := Some(gameId))]
  {
    var m := Moved(playerMap, done, gameId);
    var m' := Moved(playerMap, done + [x], gameId);
    assert forall n :: n in done + [x] <==> n in done || n == x;
    assert m'.Keys == m.Keys;
  }

  /** `join_lobby` keeps the membership rules: a player in no lobby and no game is appended to a waiting
      list and points at that lobby. */
  lemma JoinKeepsConsistent(lobbyMap: map<string, Lobby>, playerMap: map<string, Player>, known: set<string>, l: string, p: string)
    requires Consistent(lobbyMap, playerMap, known)
    requires l in lobbyMap && p in playerMap && playerMap[p].lobby.None? && playerMap[p].game.None?
    ensures Consistent(lobbyMap[l := lobbyMap[l].(players := lobbyMap[l].players + [p])],
                       playerMap[p := playerMap[p].(lobby := Some(l))], known)
  {
    var lobby := lobbyMap[l];
    assert p !in lobby.players;
    var lm := lobbyMap[l := lobby.(players := lobby.players + [p])];
    var pm := playerMap[p := playerMap[p].(lobby := Some(l))];
    forall l2, n | l2 in lm && n in lm[l2].players ensures n in pm && pm[n].lobby == Some(l2) {
      if l2 == l && n != p {
        assert n in lobby.players;
      }
    }
  }

  /** `leave_lobby` keeps the membership rules: the player is filtered out of its lobby's waiting list and
      points at no lobby. */
  lemma LeaveKeepsConsistent(lobbyMap: map<string, Lobby>, playerMap: map<string, Player>, known: set<string>, l: string, p: string)
    requires Consistent(lobbyMap, playerMap, known)
    requires l in lobbyMap && p in playerMap && playerMap[p].lobby == Some(l)
    ensures Consistent(lobbyMap[l := lobbyMap[l].(players := Without(lobbyMap[l].players, {p}))],
                       playerMap[p := playerMap[p].(lobby := None)], known)
  {
    var lobby := lobbyMap[l];
    var rest := Without(lobby.players, {p});
    WithoutNoDup(lobby.players, {p});
    forall n ensures n in rest <==> n in lobby.players && n != p {
      WithoutMembers(lobby.players, {p}, n);
    }
  }

  /** Moving the selected waiting players of lobby `l` into a new game `gameId` keeps the membership rules,
      once `gameId` is a known game. */
  lemma StartKeepsConsistent(lobbyMap: map<string, Lobby>, playerMap: map<string, Player>, known: set<string>,
                             l: string, chosen: seq<string>, gameId: string)
    requires Consistent(lobbyMap, playerMap, known)
    requires l in lobbyMap && forall n :: n in chosen ==> n in lobbyMap[l].players
    ensures Consistent(lobbyMap[l := lobbyMap[l].(players := Without(lobbyMap[l].players, Elems(chosen)))],
                       Moved(playerMap, chosen, gameId), known + {gameId})
  {
    var lobby := lobbyMap[l];
    var rest := Without(lobby.players, Elems(chosen));
    WithoutNoDup(lobby.players, Elems(chosen));
    forall n ensures n in rest <==> n in lobby.players && n !in chosen {
      WithoutMembers(lobby.players, Elems(chosen), n);
    }
    var lm := lobbyMap[l := lobby.(players := rest)];
    var pm := Moved(playerMap, chosen, gameId);
    forall n | n in pm ensures !(pm[n].lobby.Some? && pm[n].game.Some?) {
      if n in chosen {
        assert n in lobby.players;
      }
    }
  }

  /** Unregistering a player that is in no lobby and no game keeps the membership rules. */
  lemma RemoveKeepsConsistent(lobbyMap: map<string, Lobby>, playerMap: map<string, Player>, known: set<string>, p: string)
    requires Consistent(lobbyMap, playerMap, known)
    requires p in playerMap && playerMap[p].lobby.None?
    ensures Consistent(lobbyMap, playerMap - {p}, known)
  {
    forall l, n | l in lobbyMap && n in lobbyMap[l].players ensures n != p {
    }
  }

  /** Lobbies: list and map in step, each lobby filed under its own name. */
  ghost predicate LobbiesIndexed(order: seq<string>, m: map<string, Lobby>)
  {
    Registered(order, m) && forall n :: n in m ==> m[n].name == n
  }

  /** Players: list and map in step, each player filed under its own name. */
  ghost predicate PlayersIndexed(order: seq<string>, m: map<string, Player>)
  {
    Registered(order, m) && forall n :: n in m ==> m[n].name == n
  }

  /** Games: list and map in step, each game filed under its own id; so no id is used twice. */
  ghost predicate GamesIndexed(order: seq<string>, m: map<string, Instance>)
  {
    Registered(order, m) && forall id :: id in m ==> m[id].Base().id == id
  }

  lemma AddLobbyKeepsIndexed(order: seq<string>, m: map<string, Lobby>, v: Lobby)
    requires LobbiesIndexed(order, m) && v.name !in m
    ensures LobbiesIndexed(order + [v.name], m[v.name := v])
  {
    RegisterKeepsRegistered(order, m, v.name, v);
  }

  lemma UpdateLobbyKeepsIndexed(order: seq<string>, m: map<string, Lobby>, v: Lobby)
    requires LobbiesIndexed(order, m) && v.name in m
    ensures LobbiesIndexed(order, m[v.name := v])
  {
  }

  lemma AddPlayerKeepsIndexed(order: seq<string>, m: map<string, Player>, v: Player)
    requires PlayersIndexed(order, m) && v.name !in m
    ensures PlayersIndexed(order + [v.name], m[v.name := v])
  {
    RegisterKeepsRegistered(order, m, v.name, v);
  }

  lemma UpdatePlayerKeepsIndexed(order: seq<string>, m: map<string, Player>, v: Player)
    requires PlayersIndexed(order, m) && v.name in m
    ensures PlayersIndexed(order, m[v.name := v])
  {
  }

  lemma RemovePlayerKeepsIndexed(order: seq<string>, m: map<string, Player>, x: string)
    requires PlayersIndexed(order, m)
    ensures PlayersIndexed(Without(order, {x}), m - {x})
  {
    UnregisterKeepsRegistered(order, m, x);
  }

  lemma MovedKeepsIndexed(order: seq<string>, m: map<string, Player>, chosen: seq<string>, gameId: string)
    requires PlayersIndexed(order, m)
    ensures PlayersIndexed(order, Moved(m, chosen, gameId))
  {
  }

  lemma AddGameKeepsIndexed(order: seq<string>, m: map<string, Instance>, g: Instance)
    requires GamesIndexed(order, m) && g.Base().id !in m
    ensures GamesIndexed(order + [g.Base().id], m[g.Base().id := g])
  {
    RegisterKeepsRegistered(order, m, g.Base().id, g);
  }

  /** `leave_game` keeps the membership rules: clearing a player's game never breaks them. */
  lemma LeaveGameKeepsConsistent(lobbyMap: map<string, Lobby>, playerMap: map<string, Player>, known: set<string>, p: string)
    requires Consistent(lobbyMap, playerMap, known) && p in playerMap
    ensures Consistent(lobbyMap, playerMap[p := playerMap[p].(game := None)], known)
  {
  }
}
