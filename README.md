# Project Storms menus and passenger pool, modelled in Dafny

This project models three Unity scripts of the Project Storms airship game.

- **The player-setup lobby** (`PlayerSetupMenu`, module `PlayerSetup` in `player_setup.dfy`).
  - Four players ready up, each with a faction.
  - In the team game mode, the first two distinct factions chosen become the factions of team one and team two.
  - Four groups of faction-selection buttons are switched interactable or not. When a player readies in the team game mode and three players are then ready with team one's faction set, team one's group closes, whichever team those three players are on, and the other groups are left as they were: a group of neither team may still be open. Otherwise, once both team factions are set, only their two groups stay open.
  - Once all four players are ready, the start-game menu replaces the player menus.
- **The passenger pool** (`SpawnPassengers`, module `Passengers` in `spawn_passengers.dfy`).
  - A list of inactive passenger bodies is built once.
  - A countdown fires a spawn every `spawnRateInSeconds`.
  - A spawn activates the first inactive passenger, places it at the spawner and gives it a jump impulse.
- **The main menu's game-mode configuration** (`MainMenu`, module `Menu` in `menu.dfy`).
  - It holds the selected game mode and map.
  - `isTeamsGameMode` is read by the lobby.
  - A guard refuses to start a match when the map name is empty or the game mode is NONE. A map name that was never set is not refused.

State the scripts change in place is held in classes:

- The lobby's player slots are an array of `Player` records.
- Each button group is a `bool` array of "interactable" flags.
- The pool is a `seq` field.

The engine calls of the main menu cannot be performed here, so they are appended to an `effects` trace, in order. The lobby's button state is specified through `Buttons()`, a value of the four groups' flags. It is proved against the pure functions `EnableAll`, `WithGroup` and `RestrictToTeams`. The pool is specified by `SpawnInto` and `FirstInactive`.

## Model

| member | source | states |
|---|---|---|
| PlayerSetup.GetFaction | Assets/Scripts/Menu/PlayerSetupMenu.cs:195-215 | The four faction names map to their factions. Every other string maps to NONE. A faction found maps back to the name given. |
| PlayerSetup.FactionNameRoundTrip | Assets/Scripts/Menu/PlayerSetupMenu.cs:195-215 | Each selectable faction's button name is recognised and maps back to that faction. |
| PlayerSetup.ReadyCount | Assets/Scripts/Menu/PlayerSetupMenu.cs:73-88 | The number of ready players never exceeds the number of slots. |
| PlayerSetup.ReadyCountAll | Assets/Scripts/Menu/PlayerSetupMenu.cs:73-88 | The count equals the number of slots exactly when every player is ready. |
| PlayerSetup.ReadyCountNone | Assets/Scripts/Menu/PlayerSetupMenu.cs:73-88 | The count is zero exactly when no player is ready. |
| PlayerSetup.ReadyCountUpdate | Assets/Scripts/Menu/PlayerSetupMenu.cs:73-88 | Replacing one slot changes the count by the change of that slot's ready flag. |
| PlayerSetup.Cancelled | Assets/Scripts/Menu/PlayerSetupMenu.cs:187-192 | After a cancel, every slot is unready with faction NONE, keeps its team, and the ready count is zero. |
| PlayerSetup.ClaimTeamFaction | Assets/Scripts/Menu/PlayerSetupMenu.cs:237-250 | At most one team slot changes, and only from NONE to the faction. When team one's slot is free and team two does not hold the faction, team one takes it. The faction ends on a team iff it already was or a slot was free. Distinct team factions stay distinct. |
| PlayerSetup.ReleaseTeamFaction | Assets/Scripts/Menu/PlayerSetupMenu.cs:472-490 | Team slots are only cleared, at most one. Team one's slot changes only if it held the faction, and team two's only if it held the faction and team one did not. Distinctness is kept. A released faction is held by neither team. A faction no team holds changes nothing. |
| PlayerSetup.ClaimThenRelease | Assets/Scripts/Menu/PlayerSetupMenu.cs:237-250 | Releasing a faction that has just claimed a free slot restores both team slots. |
| PlayerSetup.EnableAll | Assets/Scripts/Menu/PlayerSetupMenu.cs:410-431 | Every button of every group becomes interactable, and group sizes are kept. |
| PlayerSetup.EnableAllIdempotent | Assets/Scripts/Menu/PlayerSetupMenu.cs:410-431 | Enabling all groups twice is the same as once. |
| PlayerSetup.WithGroup | Assets/Scripts/Menu/PlayerSetupMenu.cs:283-286 | Every button of one group takes the given flag. The other groups are unchanged. |
| PlayerSetup.RestrictToTeams | Assets/Scripts/Menu/PlayerSetupMenu.cs:319-408 | With either team faction NONE the groups are unchanged. Otherwise a group's buttons are interactable iff its faction is one of the two team factions. |
| PlayerSetup.RestrictToTeamsIdempotent | Assets/Scripts/Menu/PlayerSetupMenu.cs:319-408 | Restricting to the same team factions twice is the same as once. |
| PlayerSetup.SetInteractable | Assets/Scripts/Menu/PlayerSetupMenu.cs:283-286 | Every button of the array ends with the given flag. |
| PlayerSetup.RestrictByGroups | Assets/Scripts/Menu/PlayerSetupMenu.cs:319-408 | Closing the four groups and then opening the two team groups, in the script's order, yields `RestrictToTeams`. |
| PlayerSetup.EnableByGroups | Assets/Scripts/Menu/PlayerSetupMenu.cs:410-431 | Opening the four groups one by one yields `EnableAll`. |
| PlayerSetup.PlayerSetupMenu.constructor | Assets/Scripts/Menu/PlayerSetupMenu.cs:90-101 | The lobby starts with four fresh unready slots, no team factions, a zeroed countdown of the configured length, and four groups of the configured sizes with all buttons interactable. |
| PlayerSetup.PlayerSetupMenu.PlayersReadyCount | Assets/Scripts/Menu/PlayerSetupMenu.cs:73-88 | The loop returns `ReadyCount` of the slots. |
| PlayerSetup.PlayerSetupMenu.Update | Assets/Scripts/Menu/PlayerSetupMenu.cs:127-164 | While all players are ready and the countdown is short of `countdownTime`, it advances by the frame time. Otherwise it stays. |
| PlayerSetup.PlayerSetupMenu.ResetButtons | Assets/Scripts/Menu/PlayerSetupMenu.cs:140-146 | All groups are enabled and both team factions become NONE. |
| PlayerSetup.PlayerSetupMenu.ShowStartGameMenu | Assets/Scripts/Menu/PlayerSetupMenu.cs:166-175 | The players are flagged all ready. The start-game menu shows, and the player menus and back button hide. |
| PlayerSetup.PlayerSetupMenu.CancelStartGame | Assets/Scripts/Menu/PlayerSetupMenu.cs:177-193 | The menus swap back and the countdown and ready flag reset. Every slot becomes `Cancelled`, with no ready player. Team factions and the buttons are not in its frame. |
| PlayerSetup.PlayerSetupMenu.ReadyPlayer | Assets/Scripts/Menu/PlayerSetupMenu.cs:217-317 | An id outside 1..4 or faction NONE changes nothing. Otherwise: only the player's slot changes, to ready with the faction and the team of that faction. Team factions follow `ClaimTeamFaction` in team mode. The buttons follow `WithGroup` or `RestrictToTeams`. `allPlayersReady` becomes true exactly when all four are ready, and then the start-game menu shows. Team factions stay distinct. |
| PlayerSetup.PlayerSetupMenu.ReadySlot | Assets/Scripts/Menu/PlayerSetupMenu.cs:232-314 | The same effects as a valid `ReadyPlayer`, for a checked slot index. |
| PlayerSetup.PlayerSetupMenu.ShowStartGameMenuIfAllReady | Assets/Scripts/Menu/PlayerSetupMenu.cs:306-314 | The start-game menu shows iff all four players are ready. Otherwise the menus are unchanged. |
| PlayerSetup.PlayerSetupMenu.JoinTeam | Assets/Scripts/Menu/PlayerSetupMenu.cs:296-304 | Only the player's team changes: to team one or team two if its faction is that team's, else it is kept. |
| PlayerSetup.PlayerSetupMenu.ChooseTeamFaction | Assets/Scripts/Menu/PlayerSetupMenu.cs:237-294 | The team-mode block: team factions follow `ClaimTeamFaction`. With three ready and team one set, team one's group closes. Otherwise the groups follow `RestrictToTeams`. |
| PlayerSetup.PlayerSetupMenu.ClaimTeamSlot | Assets/Scripts/Menu/PlayerSetupMenu.cs:240-250 | Team factions follow `ClaimTeamFaction` and stay distinct. |
| PlayerSetup.PlayerSetupMenu.NarrowTeamButtons | Assets/Scripts/Menu/PlayerSetupMenu.cs:252-293 | With three ready and team one's faction set, every button of team one's group ends non-interactable. Otherwise `RestrictToTeams`. |
| PlayerSetup.PlayerSetupMenu.DisableNonTeamFactions | Assets/Scripts/Menu/PlayerSetupMenu.cs:319-408 | The button groups become `RestrictToTeams` of the old groups: unchanged unless both team factions are set. |
| PlayerSetup.PlayerSetupMenu.SetGroup | Assets/Scripts/Menu/PlayerSetupMenu.cs:350-377 | One group's buttons all take the flag, and the other groups are untouched. |
| PlayerSetup.PlayerSetupMenu.EnableAllTeamButtons | Assets/Scripts/Menu/PlayerSetupMenu.cs:410-431 | The button groups become `EnableAll` of the old groups. |
| PlayerSetup.PlayerSetupMenu.ReadyPlayerNamed | Assets/Scripts/Menu/PlayerSetupMenu.cs:433-455 | A name that is no faction's changes nothing. Otherwise it has the full effect of a valid `ReadyPlayer` with `GetFaction(name)`: only that player's slot changes, to ready with the named faction and its team; team factions follow `ClaimTeamFaction` in team mode; the buttons follow `WithGroup` or `RestrictToTeams`; `allPlayersReady` and the menus follow whether all four are ready. |
| PlayerSetup.PlayerSetupMenu.UnreadyPlayer | Assets/Scripts/Menu/PlayerSetupMenu.cs:457-504 | An id outside 1..4 changes nothing. Otherwise the slot becomes unready with faction NONE. With two or fewer ready, the faction is released from its team. With two ready, or three ready and team two unset, all groups are enabled. Team factions are only ever cleared. |
| Passengers.FirstInactive | Assets/Scripts/EnvironmentScripts/SpawnPassengers.cs:110-113 | The index found is the lowest inactive one. It equals the pool size iff every entry is active. |
| Passengers.SpawnInto | Assets/Scripts/EnvironmentScripts/SpawnPassengers.cs:110-139 | The pool size is kept and only the first inactive entry changes. That entry becomes active at the spawner, with identity rotation, mass 0.01, zero velocities and a forward impulse of 10 times its mass. A fully active pool is unchanged. |
| Passengers.ActiveCount | Assets/Scripts/EnvironmentScripts/SpawnPassengers.cs:110-139 | The active count is at most the pool size and is zero iff no entry is active. |
| Passengers.ActiveCountUpdate | Assets/Scripts/EnvironmentScripts/SpawnPassengers.cs:110-139 | Replacing one entry changes the active count by the change of its flag. |
| Passengers.SpawnActivatesAtMostOne | Assets/Scripts/EnvironmentScripts/SpawnPassengers.cs:110-139 | A spawn raises the active count by one if an inactive entry exists, else by zero. |
| Passengers.SpawnPassengers.constructor | Assets/Scripts/EnvironmentScripts/SpawnPassengers.cs:23-32 | The configured pool size and spawn interval are stored, and the pool is empty. |
| Passengers.SpawnPassengers.Start | Assets/Scripts/EnvironmentScripts/SpawnPassengers.cs:41-65 | The pool holds exactly `pooledAmount` entries (none when it is negative), all pooled and inactive. The interval is saved as the start rate. |
| Passengers.SpawnPassengers.Update | Assets/Scripts/EnvironmentScripts/SpawnPassengers.cs:67-101 | If the decremented countdown is below zero, one spawn is attempted and the countdown restarts at the start rate. Otherwise the countdown is decremented and the pool unchanged. |
| Passengers.SpawnPassengers.SpawnPassenger | Assets/Scripts/EnvironmentScripts/SpawnPassengers.cs:103-140 | The scan with early exit yields `SpawnInto` of the old pool. |
| Menu.StartMatchRequests | Assets/Scripts/Menu/MainMenu.cs:63-84 | No request iff the map name is "" or the mode is NONE. A never-set map name is not refused. Otherwise the game mode is written before the map is loaded. |
| Menu.MainMenu.IsTeamsGameMode | Assets/Scripts/Menu/MainMenu.cs:20-26 | Holds iff the game mode is TEAMS. |
| Menu.MainMenu.constructor | Assets/Scripts/Menu/MainMenu.cs:34-35 | The game mode starts as NONE, so the menu is not in the team game mode, and no map is set. |
| Menu.MainMenu.ExitGame | Assets/Scripts/Menu/MainMenu.cs:37-46 | A quit request is appended. |
| Menu.MainMenu.SetMap | Assets/Scripts/Menu/MainMenu.cs:48-51 | The map name is stored unchanged. |
| Menu.MainMenu.SetGamemodeTeams | Assets/Scripts/Menu/MainMenu.cs:53-56 | The mode becomes TEAMS, and `isTeamsGameMode` holds. |
| Menu.MainMenu.SetGamemodeFFA | Assets/Scripts/Menu/MainMenu.cs:58-61 | The mode becomes FFA, and `isTeamsGameMode` does not hold. |
| Menu.MainMenu.StartMatch | Assets/Scripts/Menu/MainMenu.cs:63-84 | The requests appended are `StartMatchRequests` of the current map and mode. A rejected configuration appends nothing. |
| Menu.MainMenu.LoadLevelNamed | Assets/Scripts/Menu/MainMenu.cs:86-89 | A load request for the given level is appended. |

## Left out

- Floating point: countdowns, masses and vectors are `real`, so single-precision rounding is not modelled.
- The countdown display text, every `Debug.Log`/`Debug.LogError` message, and the unimplemented match start in `UpdateCountDown` are not modelled. `Update` keeps only the timer arithmetic.
- The frame time `Time.deltaTime` is a parameter of each `Update`.
- The menus' initial visibility, the size of each faction's button group and the countdown length (`countdownTime`, 5 unless the scene changes it) come from the scene. They are constructor parameters.
  - Every button is taken to start interactable.
  - The lobby's `Awake` lookup of the main menu is the constructor's `menu` argument, and is assumed to be found (a missing main menu would make the script fail on its first team-mode check).
- The `Player` objects are held as records in the array. Each slot is its own object in the script and none is shared, so no aliasing is lost.
- The declaration of the `Gamemode` enum is not part of this model. It is modelled with the three values the scripts use: NONE, TEAMS and FFA.
- `Application.Quit`, `Application.LoadLevel` and the level-settings write are recorded in `effects` rather than performed. The editor-only `EditorApplication` call and the `UNITY_EDITOR` level override in `StartMatch` are not modelled.
- The passenger bodies' engine set-up is reduced to what the script writes: an active flag, position, rotation, mass, velocities and the impulse last applied.
  - `CreatePrimitive`, the rigid body, gravity, the tag and the destroy script are not modelled.
  - The engine's default unit mass is kept for pooled bodies.
  - The physics that later moves a body, or returns it to the pool, is not modelled.
- The spawner's world position and `TransformDirection(Vector3.forward)` are parameters `at` and `forward`. The debug ray drawn in `Update` and the commented-out raycast trigger are not modelled.
- Passengers.SpawnPassengers.SpawnPassenger: `activeInHierarchy` is modelled as the entry's own active flag, since pooled bodies have no parent.
- PlayerSetup.PlayerSetupMenu.ReadyPlayerNamed: stands for the four button handlers `ReadyPlayer1` to `ReadyPlayer4`, which differ only in the fixed player id they pass.
- The ship flight, state and part-destruction scripts, the cameras, the sky-whale steering and the editor colouring script are not part of this model.
