/** The game manager (gamemanager.py): registries of lobbies, players and games, each kept both as a list
    of names in registration order and as a map from name to record, and the operations that move players
    between lobbies and games. */
module GameManagement {
  import opened Wrappers
  import opened Seqs
  import opened Games
  import opened GuessGames
  import opened Registry

  /** The players `start_game` takes from a waiting list (which never holds a name twice):
      `random.sample` when a positive maximum is exceeded, `random.shuffle` otherwise. Any outcome the
      library may produce is possible. */
  method SelectPlayers(waiting: seq<string>, maxPlayers: int) returns (selected: seq<string>)
    requires NoDup(waiting)
    ensures IsSelection(selected, waiting, maxPlayers)
    ensures NoDup(selected)
    ensures forall n :: n in selected ==> n in waiting
    ensures |selected| == if maxPlayers > 0 && |waiting| > maxPlayers then maxPlayers else |waiting|
  {
    if maxPlayers > 0 && |waiting| > maxPlayers {
      // Sampling: any `maxPlayers` distinct waiting players, in any order.
      var prefix := waiting[..maxPlayers];
      assert forall n :: n in prefix ==> n in waiting;
      assert IsSelection(prefix, waiting, maxPlayers);
      selected :| IsSelection(selected, waiting, maxPlayers);
    } else {
      // Shuffling: all waiting players, in any order.
      selected :| multiset(selected) == multiset(waiting);
      forall n | n in selected ensures n in waiting {
        assert n in multiset(selected);
      }
      assert |selected| == |multiset(selected)| == |multiset(waiting)| == |waiting|;
      PermutationNoDup(waiting, selected);
    }
  }

  /** `lobby.game_factory(game_id, names)`: a new game object of the lobby's class. */
  method NewGame(gameFactory: GameFactory, gameId: string, names: seq<string>) returns (game: Instance)
    ensures fresh(game.Base())
    ensures game.Base().id == gameId && game.Base().players == names
    ensures gameFactory == GameClass <==> game.PlainGame?
  {
    match gameFactory {
      case GameClass =>
        var g := new Game(gameId, names);
        game := PlainGame(g);
      case GuessGameClass =>
        var gg := new GuessGame(gameId, names);
        game := GuessInstance(gg);
    }
  }

  /** The loop at the end of `start_game`, on the manager's lobby and player maps: each selected player
      leaves the lobby (with `leave_lobby`, which cannot fail for a waiting player) and then points at the
      new game. */
  method MoveIntoGame(lobbyMap: map<string, Lobby>, playerMap: map<string, Player>, lobbyName: string,
                      selected: seq<string>, gameId: string)
    returns (lobbies: map<string, Lobby>, players: map<string, Player>)
    requires lobbyName in lobbyMap && NoDup(lobbyMap[lobbyName].players)
    requires NoDup(selected) && forall n :: n in selected ==> n in lobbyMap[lobbyName].players && n in playerMap
    ensures lobbies == lobbyMap[lobbyName := lobbyMap[lobbyName].(players := Without(lobbyMap[lobbyName].players, Elems(selected)))]
    ensures players == Moved(playerMap, selected, gameId)
  {
    var lobby := lobbyMap[lobbyName];
    var waiting := lobby.players;
    WithoutNothing(waiting);
    assert Elems(selected[..0]) == {};
    assert Moved(playerMap, selected[..0], gameId) == playerMap;
    lobbies, players := lobbyMap, playerMap;
    var i := 0;
    while i < |selected|
      invariant 0 <= i <= |selected|
      invariant lobbies == lobbyMap[lobbyName := lobby.(players := Without(waiting, Elems(selected[..i])))]
      invariant players == Moved(playerMap, selected[..i], gameId)
    {
      var name := selected[i];
      assert selected[..i + 1] == selected[..i] + [name];
      assert Elems(selected[..i + 1]) == Elems(selected[..i]) + {name};
      assert name !in selected[..i];
      MovedStep(playerMap, selected[..i], name, gameId);
      RemoveNext(waiting, Elems(selected[..i]), name);
      // The player leaves the lobby, as `leave_lobby` does for a waiting player ...
      var current := lobbies[lobbyName];
      players := players[name := players[name].(lobby := None)];
      lobbies := lobbies[lobbyName := current.(players := Remove(current.players, name))];
      // ... and then points at the new game.
      players := players[name := players[name].(game := Some(gameId))];
      i := i + 1;
    }
    assert selected[..i] == selected;
  }

  class GameManager {
    var lobbies: seq<string>
    var lobbyNameMap: map<string, Lobby>
    var players: seq<string>
    var playerNameMap: map<string, Player>
    var games: seq<string>
    var gameIdMap: map<string, Instance>

    /** Each list and its map agree, and each record is filed under its own name or id; game ids are
        therefore unique over the whole history. */
    ghost predicate Registries()
      reads this
    {
      && LobbiesIndexed(lobbies, lobbyNameMap)
      && PlayersIndexed(players, playerNameMap)
      && GamesIndexed(games, gameIdMap)
    }

    /** The membership rules (`Consistent`) on this manager's lobbies and players. */
    ghost predicate Membership(known: set<string>)
      reads this
    {
      Consistent(lobbyNameMap, playerNameMap, known)
    }

    ghost predicate Valid()
      reads this
    {
      Registries() && Membership(gameIdMap.Keys)
    }

    constructor ()
      ensures Valid()
      ensures lobbies == [] && lobbyNameMap == map[]
      ensures players == [] && playerNameMap == map[]
      ensures games == [] && gameIdMap == map[]
    {
      lobbies, lobbyNameMap := [], map[];
      players, playerNameMap := [], map[];
      games, gameIdMap := [], map[];
    }

    /** Register a lobby with an empty waiting list, unless the name is taken. */
    method AddLobby(name: string, gameFactory: GameFactory, minPlayers: int, maxPlayers: int := 0) returns (r: Outcome<Error>)
      requires Valid()
      modifies this
      ensures Valid()
      ensures name in old(lobbyNameMap) ==> r == Fail(LobbyExists(name)) && unchanged(this)
      ensures name !in old(lobbyNameMap) ==>
        && r == Pass
        && lobbies == old(lobbies) + [name]
        && lobbyNameMap == old(lobbyNameMap)[name := Lobby(name, gameFactory, minPlayers, maxPlayers, [])]
        && players == old(players) && playerNameMap == old(playerNameMap)
        && games == old(games) && gameIdMap == old(gameIdMap)
    {
      if name in lobbyNameMap {
        return Fail(LobbyExists(name));
      }
      AddLobbyKeepsIndexed(lobbies, lobbyNameMap, Lobby(name, gameFactory, minPlayers, maxPlayers, []));
      AddLobbyKeepsConsistent(lobbyNameMap, playerNameMap, gameIdMap.Keys, name, gameFactory, minPlayers, maxPlayers);
      lobbies := lobbies + [name];
      lobbyNameMap := lobbyNameMap[name := Lobby(name, gameFactory, minPlayers, maxPlayers, [])];
      assert Registries();
      assert Membership(gameIdMap.Keys);
      r := Pass;
    }

    /** Register a player in no lobby and no game, unless the name is taken. */
    method AddPlayer(name: string) returns (r: Outcome<Error>)
      requires Valid()
      modifies this
      ensures Valid()
      ensures name in old(playerNameMap) ==> r == Fail(PlayerExists(name)) && unchanged(this)
      ensures name !in old(playerNameMap) ==>
        && r == Pass
        && players == old(players) + [name]
        && playerNameMap == old(playerNameMap)[name := Player(name, None, None)]
        && lobbies == old(lobbies) && lobbyNameMap == old(lobbyNameMap)
        && games == old(games) && gameIdMap == old(gameIdMap)
    {
      if name in playerNameMap {
        return Fail(PlayerExists(name));
      }
      AddPlayerKeepsIndexed(players, playerNameMap, Player(name, None, None));
      AddPlayerKeepsConsistent(lobbyNameMap, playerNameMap, gameIdMap.Keys, name);
      players := players + [name];
      playerNameMap := playerNameMap[name := Player(name, None, None)];
      assert Registries();
      assert Membership(gameIdMap.Keys);
      r := Pass;
    }

    /** Put a waiting player at the end of a lobby's list. Rejected, in this order: an unknown lobby, an
        unknown player, a player in a game, a player already in this lobby, a player in another lobby. */
    method JoinLobby(lobbyName: string, playerName: string) returns (r: Outcome<Error>)
      requires Valid()
      modifies this
      ensures Valid()
      ensures r == JoinLobbyCheck(old(lobbyNameMap), old(playerNameMap), lobbyName, playerName)
      ensures r.Fail? ==> unchanged(this)
      ensures r.Pass? ==>
        && playerNameMap == old(playerNameMap)[playerName := old(playerNameMap)[playerName].(lobby := Some(lobbyName))]
        && lobbyNameMap == old(lobbyNameMap)[lobbyName := old(lobbyNameMap)[lobbyName].(players := old(lobbyNameMap)[lobbyName].players + [playerName])]
        && lobbies == old(lobbies) && players == old(players)
        && games == old(games) && gameIdMap == old(gameIdMap)
    {
      if lobbyName !in lobbyNameMap {
        return Fail(LobbyNotFound(lobbyName));
      }
      if playerName !in playerNameMap {
        return Fail(PlayerNotFound(playerName));
      }
      var lobby := lobbyNameMap[lobbyName];
      var player := playerNameMap[playerName];
      if player.game.Some? {
        return Fail(AlreadyInGame(playerName, player.game.value));
      }
      if player.lobby == Some(lobbyName) {
        return Fail(AlreadyInLobby(playerName, lobbyName));
      }
      if player.lobby.Some? {
        return Fail(InAnotherLobby(playerName, player.lobby.value));
      }
      JoinKeepsConsistent(lobbyNameMap, playerNameMap, gameIdMap.Keys, lobbyName, playerName);
      UpdatePlayerKeepsIndexed(players, playerNameMap, player.(lobby := Some(lobbyName)));
      UpdateLobbyKeepsIndexed(lobbies, lobbyNameMap, lobby.(players := lobby.players + [playerName]));
      playerNameMap := playerNameMap[playerName := player.(lobby := Some(lobbyName))];
      lobbyNameMap := lobbyNameMap[lobbyName := lobby.(players := lobby.players + [playerName])];
      assert Registries();
      assert Membership(gameIdMap.Keys);
      r := Pass;
    }

    /** Take a player out of the lobby it waits in. Rejected: an unknown lobby or player, a player in no
        lobby, a player in another lobby. On success the others keep their places in the list. */
    method LeaveLobby(lobbyName: string, playerName: string) returns (r: Outcome<Error>)
      requires Valid()
      modifies this
      ensures Valid()
      ensures r == LeaveLobbyCheck(old(lobbyNameMap), old(playerNameMap), lobbyName, playerName)
      ensures r.Fail? ==> unchanged(this)
      ensures r.Pass? ==>
        && playerNameMap == old(playerNameMap)[playerName := old(playerNameMap)[playerName].(lobby := None)]
        && lobbyNameMap == old(lobbyNameMap)[lobbyName := old(lobbyNameMap)[lobbyName].(players := Without(old(lobbyNameMap)[lobbyName].players, {playerName}))]
        && lobbies == old(lobbies) && players == old(players)
        && games == old(games) && gameIdMap == old(gameIdMap)
    {
      if lobbyName !in lobbyNameMap {
        return Fail(LobbyNotFound(lobbyName));
      }
      if playerName !in playerNameMap {
        return Fail(PlayerNotFound(playerName));
      }
      var lobby := lobbyNameMap[lobbyName];
      var player := playerNameMap[playerName];
      if player.lobby.None? {
        return Fail(NotInLobby(playerName));
      }
      if player.lobby != Some(lobbyName) {
        return Fail(LeavingAnotherLobby(playerName, player.lobby.value));
      }
      var waiting := RemoveOnce(lobby.players, playerName);
      var left := lobby.(players := waiting);
      var idle := player.(lobby := None);
      LeaveKeepsConsistent(lobbyNameMap, playerNameMap, gameIdMap.Keys, lobbyName, playerName);
      UpdatePlayerKeepsIndexed(players, playerNameMap, idle);
      UpdateLobbyKeepsIndexed(lobbies, lobbyNameMap, left);
      playerNameMap := playerNameMap[playerName := idle];
      lobbyNameMap := lobbyNameMap[lobbyName := left];
      assert Registries();
      assert Membership(gameIdMap.Keys);
      r := Pass;
    }

    /** Clear a player's game; the game itself stays registered. Rejected: an unknown game or player, a
        player in no game, a player in another game. */
    method LeaveGame(gameId: string, playerName: string) returns (r: Outcome<Error>)
      requires Valid()
      modifies this
      ensures Valid()
      ensures r == LeaveGameCheck(old(gameIdMap).Keys, old(playerNameMap), gameId, playerName)
      ensures r.Fail? ==> unchanged(this)
      ensures r.Pass? ==>
        && playerNameMap == old(playerNameMap)[playerName := old(playerNameMap)[playerName].(game := None)]
        && lobbies == old(lobbies) && lobbyNameMap == old(lobbyNameMap) && players == old(players)
        && games == old(games) && gameIdMap == old(gameIdMap)
    {
      if gameId !in gameIdMap {
        return Fail(GameNotFound(gameId));
      }
      if playerName !in playerNameMap {
        return Fail(PlayerNotFound(playerName));
      }
      var player := playerNameMap[playerName];
      if player.game.None? {
        return Fail(NotInGame(playerName));
      }
      if player.game != Some(gameId) {
        return Fail(LeavingAnotherGame(playerName, player.game.value));
      }
      LeaveGameKeepsConsistent(lobbyNameMap, playerNameMap, gameIdMap.Keys, playerName);
      UpdatePlayerKeepsIndexed(players, playerNameMap, player.(game := None));
      playerNameMap := playerNameMap[playerName := player.(game := None)];
      assert Registries();
      assert Membership(gameIdMap.Keys);
      r := Pass;
    }

    /** Unregister a player, first taking it out of its lobby or game. Rejected only for an unknown name. */
    method RemovePlayer(name: string) returns (r: Outcome<Error>)
      requires Valid()
      modifies this
      ensures Valid()
      ensures name !in old(playerNameMap) ==> r == Fail(PlayerCannotBeRemoved(name)) && unchanged(this)
      ensures name in old(playerNameMap) ==>
        && r == Pass
        && players == Without(old(players), {name})
        && playerNameMap == old(playerNameMap) - {name}
        && lobbies == old(lobbies)
        && (old(playerNameMap)[name].lobby.None? ==> lobbyNameMap == old(lobbyNameMap))
        && (old(playerNameMap)[name].lobby.Some? ==>
              var l := old(playerNameMap)[name].lobby.value;
              lobbyNameMap == old(lobbyNameMap)[l := old(lobbyNameMap)[l].(players := Without(old(lobbyNameMap)[l].players, {name}))])
        && games == old(games) && gameIdMap == old(gameIdMap)
    {
      if name !in playerNameMap {
        return Fail(PlayerCannotBeRemoved(name));
      }
      Detach(name);
      assert playerNameMap - {name} == old(playerNameMap) - {name};
      RemoveKeepsConsistent(lobbyNameMap, playerNameMap, gameIdMap.Keys, name);
      RemovePlayerKeepsIndexed(players, playerNameMap, name);
      players := RemoveOnce(players, name);
      playerNameMap := playerNameMap - {name};
      assert Registries();
      assert Membership(gameIdMap.Keys);
      r := Pass;
    }

    /** The first half of `remove_player`: a player waiting in a lobby leaves it, and a player in a game
        leaves the game. Neither call can fail for a registered player. */
    method Detach(name: string)
      requires Valid() && name in playerNameMap
      modifies this
      ensures Valid()
      ensures playerNameMap == old(playerNameMap)[name := old(playerNameMap)[name].(lobby := None, game := None)]
      ensures old(playerNameMap)[name].lobby.None? ==> lobbyNameMap == old(lobbyNameMap)
      ensures old(playerNameMap)[name].lobby.Some? ==>
        var l := old(playerNameMap)[name].lobby.value;
        lobbyNameMap == old(lobbyNameMap)[l := old(lobbyNameMap)[l].(players := Without(old(lobbyNameMap)[l].players, {name}))]
      ensures lobbies == old(lobbies) && players == old(players) && games == old(games) && gameIdMap == old(gameIdMap)
    {
      var player := playerNameMap[name];
      assert !(player.lobby.Some? && player.game.Some?);
      if player.lobby.Some? {
        var left := LeaveLobby(player.lobby.value, name);
        assert left == Pass;
      }
      player := playerNameMap[name];
      if player.game.Some? {
        var left := LeaveGame(player.game.value, name);
        assert left == Pass;
      }
    }

    /** Draw a fresh game id: up to 10 attempts, each a string of `length` random lowercase letters, the first
        one that is not already a registered id winning. `tried` lists the strings drawn. */
    method RandomGameId(length: int) returns (r: Result<string, Error>, ghost tried: seq<string>)
      ensures forall i :: 0 <= i < |tried| ==>
        |tried[i]| == (if length < 0 then 0 else length) && IsLowercase(tried[i])
      ensures r.Ok? ==> |r.value| == (if length < 0 then 0 else length) && IsLowercase(r.value) && r.value !in gameIdMap
      ensures r.Err? ==> r.error == IdExhausted(10)
      ensures r.Ok? ==>
        && 1 <= |tried| <= 10 && tried[|tried| - 1] == r.value
        && forall i :: 0 <= i < |tried| - 1 ==> tried[i] in gameIdMap
      ensures r.Err? ==> |tried| == 10 && forall i :: 0 <= i < |tried| ==> tried[i] in gameIdMap
    {
      tried := [];
      var attempt := 0;
      while attempt < 10
        invariant 0 <= attempt <= 10 && |tried| == attempt
        invariant forall i :: 0 <= i < |tried| ==>
          |tried[i]| == (if length < 0 then 0 else length) && IsLowercase(tried[i]) && tried[i] in gameIdMap
      {
        var id := "";
        while |id| < length
          invariant |id| <= (if length < 0 then 0 else length) && IsLowercase(id)
        {
          var c :| 'a' <= c <= 'z';
          id := id + [c];
        }
        tried := tried + [id];
        if id !in gameIdMap {
          return Ok(id), tried;
        }
        attempt := attempt + 1;
      }
      r := Err(IdExhausted(attempt));
    }

    /** Turn a lobby's waiting list into a game: check the minimum, select the players (`IsSelection`),
        draw a fresh 6-letter id, then move every selected player out of the lobby and into the new game,
        which is registered last. The players left behind keep waiting in their original order. Every
        failure happens before anything changes. */
    method StartGame(lobbyName: string) returns (r: Outcome<Error>, ghost chosen: seq<string>, ghost gameId: string)
      requires Valid()
      modifies this
      ensures Valid()
      ensures lobbyName !in old(lobbyNameMap) ==> r == Fail(LobbyNotFound(lobbyName))
      ensures lobbyName in old(lobbyNameMap) && |old(lobbyNameMap)[lobbyName].players| < old(lobbyNameMap)[lobbyName].minPlayers ==>
        r == Fail(NotEnoughPlayers(lobbyName, |old(lobbyNameMap)[lobbyName].players|, old(lobbyNameMap)[lobbyName].minPlayers))
      ensures lobbyName in old(lobbyNameMap) && |old(lobbyNameMap)[lobbyName].players| >= old(lobbyNameMap)[lobbyName].minPlayers ==>
        r == Pass || r == Fail(IdExhausted(10))
      ensures r.Fail? ==> unchanged(this)
      ensures r.Pass? ==>
        var lobby := old(lobbyNameMap)[lobbyName];
        && lobbyName in old(lobbyNameMap)
        && IsSelection(chosen, lobby.players, lobby.maxPlayers)
        && |chosen| == (if lobby.maxPlayers > 0 && |lobby.players| > lobby.maxPlayers then lobby.maxPlayers else |lobby.players|)
        && |gameId| == 6 && IsLowercase(gameId) && gameId !in old(gameIdMap)
        && games == old(games) + [gameId]
        && gameId in gameIdMap && gameIdMap == old(gameIdMap)[gameId := gameIdMap[gameId]]
        && fresh(gameIdMap[gameId].Base())
        && gameIdMap[gameId].Base().players == chosen
        && (lobby.gameFactory == GameClass <==> gameIdMap[gameId].PlainGame?)
        && lobbyNameMap == old(lobbyNameMap)[lobbyName := lobby.(players := Without(lobby.players, Elems(chosen)))]
        && playerNameMap == Moved(old(playerNameMap), chosen, gameId)
        && lobbies == old(lobbies) && players == old(players)
    {
      chosen, gameId := [], "";
      if lobbyName !in lobbyNameMap {
        r := Fail(LobbyNotFound(lobbyName));
        return;
      }
      var lobby := lobbyNameMap[lobbyName];
      var waiting := lobby.players;
      if |waiting| < lobby.minPlayers {
        r := Fail(NotEnoughPlayers(lobbyName, |lobby.players|, lobby.minPlayers));
        return;
      }
      var selected := SelectPlayers(waiting, lobby.maxPlayers);
      chosen := selected;
      var drawn;
      ghost var tried;
      drawn, tried := RandomGameId(6);
      if drawn.Err? {
        r := Fail(drawn.error);
        return;
      }
      var id := drawn.value;
      gameId := id;
      var game := NewGame(lobby.gameFactory, id, selected);

      MovePlayers(lobbyName, selected, id);
      AddGame(game);
      r := Pass;
    }
    /** The loop of `start_game` on the manager: the selected players leave their lobby and point at the new
        game `gameId`, which is registered right after (so the rules hold once `gameId` counts as known). */
    method MovePlayers(lobbyName: string, selected: seq<string>, gameId: string)
      requires Valid()
      requires lobbyName in lobbyNameMap && NoDup(selected)
      requires forall n :: n in selected ==> n in lobbyNameMap[lobbyName].players
      modifies this
      ensures Registries() && Membership(gameIdMap.Keys + {gameId})
      ensures var lobby := old(lobbyNameMap)[lobbyName];
        lobbyNameMap == old(lobbyNameMap)[lobbyName := lobby.(players := Without(lobby.players, Elems(selected)))]
      ensures playerNameMap == Moved(old(playerNameMap), selected, gameId)
      ensures lobbies == old(lobbies) && players == old(players) && games == old(games) && gameIdMap == old(gameIdMap)
    {
      var lobby := lobbyNameMap[lobbyName];
      assert forall n :: n in selected ==> n in playerNameMap;
      StartKeepsConsistent(lobbyNameMap, playerNameMap, gameIdMap.Keys, lobbyName, selected, gameId);
      MovedKeepsIndexed(players, playerNameMap, selected, gameId);
      UpdateLobbyKeepsIndexed(lobbies, lobbyNameMap, lobby.(players := Without(lobby.players, Elems(selected))));
      lobbyNameMap, playerNameMap := MoveIntoGame(lobbyNameMap, playerNameMap, lobbyName, selected, gameId);
      assert Registries();
    }

    /** The last lines of `start_game`: the new game is appended to the games and filed under its id. */
    method AddGame(game: Instance)
      requires Registries() && Membership(gameIdMap.Keys + {game.Base().id})
      requires game.Base().id !in gameIdMap
      modifies this
      ensures Valid()
      ensures games == old(games) + [game.Base().id] && gameIdMap == old(gameIdMap)[game.Base().id := game]
      ensures lobbies == old(lobbies) && lobbyNameMap == old(lobbyNameMap)
      ensures players == old(players) && playerNameMap == old(playerNameMap)
    {
      var id := game.Base().id;
      AddGameKeepsIndexed(games, gameIdMap, game);
      assert gameIdMap[id := game].Keys == gameIdMap.Keys + {id};
      games, gameIdMap := games + [id], gameIdMap[id := game];
      assert Registries();
    }
  }
}
