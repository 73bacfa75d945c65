# Game manager registry, router and API — a Dafny model

This project models the core of a small multiplayer game server written in Python. The model covers:

- **The game manager** (`gamemanager.py`). It is a registry of lobbies, players and games. Each registry is
  kept twice: as a list in registration order, and as a map from name (or game id) to record. A player
  registers, joins a lobby's waiting list, and leaves it again. When a lobby starts a game, some or all of
  its waiting players move into a new game under a fresh random six-letter id. A player can later leave
  that game or disconnect.
- **The router** (`router.py`). It dispatches a request path in three steps: an exact static route first,
  then the first prefix route in the order routes were added, then a default route. Sub-routers live under
  a longer base route.
- **`parse_url_path`** (`util.py`), which splits a path into its segments.
- **The games**: the `Game` base class (`game.py`) and the number-guessing game (`game_guess.py`).
- **The HTTP handlers** (`gamemanagerapi.py`). They read path segments, call the manager, and wrap the
  result (or the manager's error text) in a JSON response envelope.

Files:

- `wrappers.dfy` — `Option`, `Outcome` and `Result`.
- `seqs.dfy` — list helpers:
  - Python's `list.remove` (`Remove`);
  - an order-keeping filter (`Without`), with its lemmas.
- `util.dfy` — `parse_url_path` and Python's `split`, `join` and `startswith`.
- `game.dfy` and `game_guess.dfy` — the two game classes.
- `registry.dfy` — the manager's records as values:
  - players, lobbies and the errors;
  - the checks each operation makes, in the source's order;
  - the invariants, and the lemmas that each update keeps them.
- `gamemanager.dfy` — the `GameManager` class. Its methods update the lists and maps in place.
- `router.dfy` — the `Router` class and request dispatch.
- `gamemanagerapi.dfy` — the response envelope, the handlers and the list projections.

Choices that shape the model:

- **Records and links.** Players and lobbies are values stored in the manager's maps. In the source, a
  player's `lobby` and `game` attributes point at objects. In the model they hold the lobby's name and the
  game's id. Names and ids are unique, and nothing is ever renamed, so `player.lobby is lobby` becomes
  equality of names.
- **Randomness** is nondeterministic choice (`:|`):
  - `random.sample` may return any list of `max_players` distinct waiting players;
  - `random.shuffle` may return any reordering;
  - each id letter may be any of `a`–`z`;
  - the secret number may be any value from 1 to 10.

  Every property below therefore holds for every possible random outcome.
- **Exceptions become results.**
  - A `GameManagerError` is an `Outcome.Fail(Error)`. Its text, as `str(ex)` gives it, is `Message(e)`.
  - A `GameOverError` is the `Turn` value `Over(reason)`.
- **The membership invariant.** It is kept on the manager's maps (`Registry.Consistent`):
  - no player is both in a lobby and in a game;
  - a player's lobby and game exist;
  - every waiting list holds distinct names;
  - a player is on lobby L's waiting list exactly when the player's `lobby` is L.

  The second invariant (`Registries`) says that each list and its map hold the same names, each name once.
  It also says that every record is filed under its own name or id.

## Model

| member | source | states |
|---|---|---|
| Util.Split | util.py:6 | Python `str.split` on one character: at least one piece, and no piece contains the separator |
| Util.JoinSplit | util.py:6 | joining the pieces of a split with the separator gives back the original string |
| Util.SplitCount | util.py:6 | a string with k separators splits into exactly k + 1 pieces |
| Util.StripLeadingSlash | util.py:3-4 | a path that starts with `/` is `/` followed by the result; any other path comes back unchanged |
| Util.ParseUrlPath | util.py:2-6 | the result has at least one segment, and no segment contains `/` |
| Util.ParseUrlPathRoundTrip | util.py:2-6 | joining the segments with `/` gives the path minus its optional leading `/`; there is one segment more than there are slashes left |
| Util.ParseUrlPathDoubleSlash | util.py:3-4 | only one leading slash is removed: a path `//x` keeps an empty first segment |
| Games.Game.constructor | game.py:6-9 | id and players are stored unchanged; there is one score per player, and every score is 0 |
| Games.Game.GetName | game.py:11-12 | the base game's name is the empty string |
| Games.Game.SetupGame | game.py:14-15 | setting up a base game changes nothing |
| GuessGames.GuessGame.constructor | game.py:6-9 | the inherited constructor: base id and players as given, all scores 0, not yet set up |
| GuessGames.GuessGame.SetupGame | game_guess.py:5-9 | score 100, guess limit 4, no guesses, a secret from 1 to 10; the guessing invariant then holds |
| GuessGames.GuessGame.MakeGuess | game_guess.py:11-20 | the guess is always recorded first. The secret ends the game with "The number was guessed!" and keeps the score; this is checked before the limit. Otherwise reaching the limit ends it with "Exceeded attempts." and keeps the score. Otherwise the turn continues and the score drops by exactly 10. While the game is not over, score = 100 − 10·guesses and fewer than 4 guesses were made, so the score stays at 70 or above |
| Registry.NatToString | gamemanager.py:118 | `%d` of a natural number is a non-empty string of decimal digits |
| Registry.IntToString | gamemanager.py:128 | `%d` of any integer is non-empty |
| Registry.Message | gamemanager.py:39-159 | each error's text, as `str(ex)` gives it for the matching `raise`; never empty |
| Registry.JoinLobbyCheck | gamemanager.py:71-85 | the errors of `join_lobby` in source order; it passes exactly when lobby and player exist and the player is in no lobby and no game |
| Registry.LeaveLobbyCheck | gamemanager.py:91-103 | the errors of `leave_lobby` in source order; it passes exactly when lobby and player exist and the player's lobby is that lobby |
| Registry.LeaveGameCheck | gamemanager.py:147-159 | the errors of `leave_game` in source order; it passes exactly when game and player exist and the player's game is that game |
| Registry.RegisterKeepsRegistered | gamemanager.py:41-53 | appending a new name to a list and filing it in the map keeps the two in step |
| Registry.UnregisterKeepsRegistered | gamemanager.py:68-69 | removing a name from both the list and the map keeps the two in step |
| Registry.AddPlayerKeepsConsistent | gamemanager.py:50-53 | a new player in no lobby and no game keeps the membership invariant |
| Registry.AddLobbyKeepsConsistent | gamemanager.py:41-44 | a new lobby with an empty waiting list keeps the membership invariant |
| Registry.JoinKeepsConsistent | gamemanager.py:80-89 | a free player appended to a waiting list, and pointing at it, keeps the membership invariant |
| Registry.LeaveKeepsConsistent | gamemanager.py:100-107 | a player dropped from its lobby's list, with the link cleared, keeps the membership invariant |
| Registry.StartKeepsConsistent | gamemanager.py:139-141 | moving waiting players out of their lobby into a new game keeps the membership invariant once the id is known |
| Registry.RemoveKeepsConsistent | gamemanager.py:68-69 | deleting a player in no lobby keeps the membership invariant |
| Registry.LeaveGameKeepsConsistent | gamemanager.py:161-162 | clearing a player's game keeps the membership invariant |
| Registry.MovedStep | gamemanager.py:139-141 | one loop step of `start_game` (leave the lobby, then set the game) extends the moved map by that player |
| Registry.AddLobbyKeepsIndexed | gamemanager.py:42-44 | the lobby list and map stay in step after `add_lobby` |
| Registry.UpdateLobbyKeepsIndexed | gamemanager.py:89 | changing a lobby's waiting list keeps the lobby list and map in step |
| Registry.AddPlayerKeepsIndexed | gamemanager.py:51-53 | the player list and map stay in step after `add_player` |
| Registry.UpdatePlayerKeepsIndexed | gamemanager.py:88 | changing a player's links keeps the player list and map in step |
| Registry.RemovePlayerKeepsIndexed | gamemanager.py:68-69 | removing a player from both keeps the player list and map in step |
| Registry.MovedKeepsIndexed | gamemanager.py:139-141 | moving players into a game keeps the player list and map in step |
| Registry.AddGameKeepsIndexed | gamemanager.py:144-145 | appending a game under a fresh id keeps the game list and map in step, so ids stay unique |
| Seqs.FirstIndex | gamemanager.py:68 | the position `list.remove` acts on: it holds the item, and no earlier position does |
| Seqs.Remove | gamemanager.py:68 | Python `list.remove` of an item the list holds: exactly the first occurrence goes, and everything before and after it stays in order |
| Seqs.RemoveOnce | gamemanager.py:107 | `list.remove` on a list that holds the item once is the list filtered by that item |
| Seqs.RemoveIsWithout | gamemanager.py:107 | on a list without duplicates, removing the first occurrence keeps the others in their order |
| GameManagement.SelectPlayers | gamemanager.py:130-133 | above a positive maximum, exactly `max_players` distinct waiting players; otherwise a reordering of all of them |
| GameManagement.NewGame | gamemanager.py:137 | `game_factory(game_id, names)`: a new game of the lobby's class with that id and those players |
| GameManagement.MoveIntoGame | gamemanager.py:139-141 | after the loop, the lobby's list is the old list minus the selected players, in the old order; each selected player is in no lobby and in the new game; nobody else changes |
| GameManagement.GameManager.constructor | gamemanager.py:26-35 | all six lists and maps start empty, and the invariants hold |
| GameManagement.GameManager.AddLobby | gamemanager.py:37-44 | a taken name fails with "Lobby already exists" and changes nothing. Otherwise the name is appended to the list, and a lobby with an empty waiting list is filed under it |
| GameManagement.GameManager.AddPlayer | gamemanager.py:46-53 | a taken name fails with "Player already exists" and changes nothing. Otherwise the name is appended and a player in no lobby and no game is filed under it |
| GameManagement.GameManager.JoinLobby | gamemanager.py:71-89 | the outcome is `JoinLobbyCheck`; a failure changes nothing; on success the player points at the lobby and is appended at the end of its waiting list |
| GameManagement.GameManager.LeaveLobby | gamemanager.py:91-107 | the outcome is `LeaveLobbyCheck`; a failure changes nothing; on success the player's lobby is cleared, and exactly that player leaves the list, the others keeping their order |
| GameManagement.GameManager.LeaveGame | gamemanager.py:147-163 | the outcome is `LeaveGameCheck`; a failure changes nothing; on success only the player's game is cleared, and the game stays registered |
| GameManagement.GameManager.RemovePlayer | gamemanager.py:55-69 | an unknown name fails and changes nothing. Otherwise the player leaves its lobby, if any, and is then removed from the player list (others in order) and from the map. Lobbies and games are otherwise untouched |
| GameManagement.GameManager.Detach | gamemanager.py:59-65 | the first half of `remove_player`: the player's lobby and game are cleared, the lobby's list loses the player, and the invariants hold |
| GameManagement.GameManager.RandomGameId | gamemanager.py:109-118 | at most 10 draws of `length` lowercase letters. The result is the first draw that is not a registered id; every earlier draw was registered. Failure is `IdExhausted(10)` after 10 registered draws |
| GameManagement.GameManager.StartGame | gamemanager.py:120-145 | an unknown lobby, or too few waiting players, fails with the source's error; any failure (including the id) changes nothing. On success: the selection rule, a fresh 6-letter lowercase id appended and filed, a new game of the lobby's class with the chosen players, the lobby keeps the unchosen players in order, the chosen point at the game and at no lobby, and the invariants hold |
| GameManagement.GameManager.MovePlayers | gamemanager.py:139-141 | the player loop on the manager: the lobby and player maps as `MoveIntoGame` states, with the invariants holding once the new id is registered |
| GameManagement.GameManager.AddGame | gamemanager.py:144-145 | the game is appended to the list and filed under its id; the invariants hold again |
| Routing.FirstPrefix | router.py:58-59 | the index found is of a route that starts the path, and no earlier route does; no index means no route does |
| Routing.Hiding | router.py:32-34 | the warnings are no more than the stored prefixes |
| Routing.HidingMembers | router.py:32-34 | a prefix is warned about exactly when it is stored and starts the new route |
| Routing.Router.constructor | router.py:15-19 | the base route as given, no static or prefix routes, no default |
| Routing.Router.AddStaticRoute | router.py:21-27 | the handler is stored under base + route and overwrites any earlier one; `duplicate` is exactly whether there was one; nothing else changes |
| Routing.Router.HiddenBy | router.py:32-34 | the warning loop yields the stored prefixes that start the new route, in insertion order |
| Routing.Router.AddPrefixRoute | router.py:29-36 | base + route is always appended at the end of the prefix list, even when hidden; `hiddenBy` is exactly the earlier prefixes the source warns about, in order; nothing else changes |
| Routing.Router.AddDefaultRoute | router.py:38-42 | the handler becomes the default, replacing any earlier one; `replaced` is exactly whether there was one |
| Routing.Router.AddSubRouter | router.py:44-47 | a new empty router based at base + b, appended here as a prefix route at base + b |
| Routing.Router.HandleRequest | router.py:53-68 | an exact static match wins, with context ("static", path, ""). Otherwise the first prefix in insertion order that starts the path wins, with ("prefix", prefix, rest) and prefix + rest = path. Otherwise the default handler gets ("default", "", path). With no default the result is none |
| Routing.Router.HandleSubrouterRequest | router.py:49-51 | the full path is routed by this router alone: a static match is the path itself, a prefix match lies under this router's base and prefix + rest = path, and any non-default dispatch means the path is under the base; no dispatch only when there is no default |
| Routing.SubRouterDispatch | router.py:44-51 | when a parent dispatches to a sub-router that `add_sub_router` registered, the matched route is the sub-router's base, the path is under it, base + rest = path, and the sub-router routes the full path rather than the rest |
| Routing.Router.OutsideBase | router.py:53-68 | since every stored route starts with the base route, a path outside the base reaches only the default |
| Api.BuildResponse | gamemanagerapi.py:101-118 | success gives status "success" and code 200, failure "error" and 400. The keys are status, then message exactly when it is non-empty, then the extra keys, whose values override |
| Api.Reply | gamemanagerapi.py:11-18 | a normal return is a plain success; a `GameManagerError` is a 400 response carrying the error text |
| Api.GameManagerApi.constructor | gamemanagerapi.py:8-9 | the API wraps the given manager |
| Api.GameManagerApi.PlayerJoin | gamemanagerapi.py:11-18 | a taken name gives the error reply and changes nothing; otherwise a 200 reply, and the first path segment is appended to the players and filed as a player in no lobby and no game, with lobbies and games unchanged |
| Api.GameManagerApi.PlayerDisconnect | gamemanagerapi.py:20-27 | an unknown name gives the error reply and changes nothing; otherwise a 200 reply, the player leaves its lobby's list (others in order) and is removed from the player list and map; games are unchanged |
| Api.GameManagerApi.LobbyJoin | gamemanagerapi.py:40-47 | fewer than two segments escape as an uncaught error, with no change. Otherwise the reply is for the outcome `JoinLobbyCheck` gives; an error changes nothing, and success links the player to the lobby and appends it to the waiting list |
| Api.GameManagerApi.LobbyLeave | gamemanagerapi.py:49-56 | fewer than two segments escape as an uncaught error, with no change. Otherwise the reply is for the outcome `LeaveLobbyCheck` gives; an error changes nothing, and success clears the player's lobby and filters it out of the waiting list |
| Api.GameManagerApi.GameStart | gamemanagerapi.py:71-78 | the reply carries the lobby-not-found or not-enough-players error, or a success or the id error; a 400 reply changes nothing. A 200 reply (exactly when a game was added) means a selection of the waiting players moved into a new game under a fresh 6-letter id, and the lobby kept the others in order |
| Api.GameManagerApi.GameLeave | gamemanagerapi.py:80-87 | fewer than two segments escape as an uncaught error, with no change. Otherwise the reply is for the outcome `LeaveGameCheck` gives; an error changes nothing, and success clears only the player's game |
| Api.GameManagerApi.PlayerList | gamemanagerapi.py:29-38 | one entry per registered player in registration order, with its lobby name and game id, or null |
| Api.GameManagerApi.LobbyList | gamemanagerapi.py:58-69 | one entry per lobby in creation order; each entry's `player_count` equals the number of names in its `players` |
| Api.GameManagerApi.GameList | gamemanagerapi.py:89-99 | one entry per started game in start order, with its id, the empty name and `player_count` equal to its number of players |
| Api.AddEndpoint | gamemanagerapi.py:121 | one `add_prefix_route` call of `setup_routes`: the named handler is appended under base + name, nothing else changes |
| Api.GameManagerApi.SetupRoutes | gamemanagerapi.py:120-131 | the nine handlers are appended as prefix routes under the router's base, in the source's order |
| Api.ApiRoutes | gamemanagerapi.py:120-131 | nine routes, each under the base, each served by the endpoint of the route's own name |

## Left out

- Logging is left out in every file. Where a router warning depends on the state, its condition is returned instead: `duplicate` from `AddStaticRoute`, `replaced` from `AddDefaultRoute`, and `hiddenBy` (the prefixes that hide a new prefix route) from `AddPrefixRoute`. `setup_routes` and `add_sub_router` ignore these, and so do `AddEndpoint` and `AddSubRouter`.
- The web server (`webserver.py`) and process wiring (`main.py`) are left out. This covers socket I/O, request parsing, JSON serialisation, task scheduling and static files. The `Request` argument every handler takes is unused by the handlers and is dropped.
- The random distributions are not modelled: `random.sample`, `random.shuffle`, `random.choice` and `random.randint` are nondeterministic choices with only their size, membership and range facts.
- `main.py:35` calls `game_manager.start_game_loop()`, which `gamemanager.py` does not define; it is not modelled. `start_game` never calls `setup_game`, and neither does the model.
- Route handlers are opaque: `handle_request` returns which handler it would call and with which context, rather than calling it. Running the chosen handler is the caller's step (the API handlers are modelled separately).
- `Lobby.games` is never written by the source and is not modelled.
- GameManagement.GameManager.StartGame: `start_game` keeps the game object itself in `game_id_map`. The model keeps the games as values of `Instance` (a `Game` or a `GuessGame`), because classes cannot inherit here. `GuessGame` holds its `Game` part as the field `base`.
- GuessGames.GuessGame.MakeGuess: requires `SetupGame` to have run. Before it, the source has no `score` or `guesses` attribute and fails with an attribute error.
- Api.GameManagerApi.LobbyJoin, Api.GameManagerApi.LobbyLeave, Api.GameManagerApi.GameLeave: an `IndexError` from a missing second segment escapes to the web server. It is modelled as a `None` result with no state change; the server's own reply to it is out of scope.
- GameManagement.SelectPlayers: requires a waiting list without duplicate names, which the manager's invariant guarantees. `random.sample` picks distinct positions, which for such a list are distinct players.
- Integer widths do not arise: Python integers are unbounded, and so are Dafny's.

## Findings

No defect in the source is claimed. One behaviour is worth knowing:

- If a lobby has `min_players > max_players > 0`, `start_game` still starts, with exactly `max_players`
  players, which is fewer than the minimum. `GameManagement.GameManager.StartGame` states the size of the
  selection exactly, so this case is visible in its contract.
