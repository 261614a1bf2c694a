/**
 * The main menu's game-mode configuration: the selected game mode and map,
 * and the guard that decides whether a match may start.
 *
 * The engine calls the script makes (writing the level settings' game mode,
 * loading a level, quitting) are not performed here; each is appended to
 * `effects`, so that their order is part of the model.
 */
module Menu {

  /** The game mode chosen in the main menu; NONE until a mode button is pressed. */
  datatype Gamemode = None | Ffa | Teams

  /** A map name as the script stores it: a C# string that is null until set. */
  datatype MapName = Null | Named(name: string)

  /** A request handed to the engine. */
  datatype Effect =
    | SetLevelGamemode(mode: Gamemode)  // LevelSettings.Instance.gamemode = mode
    | LoadLevel(level: MapName)         // Application.LoadLevel(level)
    | Quit                              // Application.Quit()

  /** The map name that makes StartMatch refuse to start. */
  const EmptyMapName: MapName := Named("")

  /**
   * The requests StartMatch hands to the engine for a given map name and
   * game mode: none when the guard rejects the configuration, otherwise the
   * game mode is written to the level settings before the map is loaded.
   */
  function StartMatchRequests(name: MapName, mode: Gamemode): (r: seq<Effect>)
    ensures r == [] <==> name == EmptyMapName || mode == None
    ensures r != [] ==> |r| == 2 && r[0] == SetLevelGamemode(mode) && r[1] == LoadLevel(name)
    ensures name == Null && mode != None ==> r != []
  {
    if name == EmptyMapName || mode == None then []
    else [SetLevelGamemode(mode), LoadLevel(name)]
  }

  class MainMenu {
    var gameMode: Gamemode
    var mapName: MapName
    /** Every request handed to the engine so far, oldest first. */
    var effects: seq<Effect>

    constructor ()
      ensures gameMode == None && mapName == Null && effects == []
      ensures !IsTeamsGameMode()
    {
      gameMode := None;
      mapName := Null;
      effects := [];
    }

    /** Whether the selected game mode is the team game mode. */
    predicate IsTeamsGameMode(): (teams: bool)
      reads this
      ensures teams <==> gameMode == Teams
      ensures teams ==> gameMode != None && gameMode != Ffa
    {
      gameMode == Teams
    }

    method ExitGame()
      modifies this`effects
      ensures effects == old(effects) + [Quit]
    {
      effects := effects + [Quit];
    }

    method SetMap(name: string)
      modifies this`mapName
      ensures mapName == Named(name)
    {
      mapName := Named(name);
    }

    method SetGamemodeTeams()
      modifies this`gameMode
      ensures gameMode == Teams && IsTeamsGameMode()
    {
      gameMode := Teams;
    }

    method SetGamemodeFFA()
      modifies this`gameMode
      ensures gameMode == Ffa && !IsTeamsGameMode()
    {
      gameMode := Ffa;
    }

    method StartMatch()
      modifies this`effects
      ensures effects == old(effects) + StartMatchRequests(mapName, gameMode)
      ensures mapName == EmptyMapName || gameMode == None ==> effects == old(effects)
    {
      if mapName == EmptyMapName || gameMode == None {
        return;
      }
      effects := effects + [SetLevelGamemode(gameMode)];
      effects := effects + [LoadLevel(mapName)];
    }

    method LoadLevelNamed(levelName: string)
      modifies this`effects
      ensures effects == old(effects) + [LoadLevel(Named(levelName))]
    {
      effects := effects + [LoadLevel(Named(levelName))];
    }
  }
}
