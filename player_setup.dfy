/**
 * The player-setup lobby: four player slots that ready up with a faction,
 * the two factions that form the teams in the team game mode, and the four
 * per-faction groups of selection buttons whose "interactable" flags steer
 * which factions the remaining players may still pick.
 *
 * The main menu is read for its game mode. Showing and hiding the start-game
 * menu, the player sub-menus and the back button are three flags.
 */
module PlayerSetup {
  import Menu

  datatype Faction = None | Navy | Pirates | Tinkerers | Vikings

  /** A player's team; FFA is declared by the script but never assigned. */
  datatype Team = Ffa | TeamOne | TeamTwo | Unassigned

  datatype Player = Player(ready: bool, faction: Faction, team: Team)

  /** A player slot as the lobby creates it. */
  const NewPlayer: Player := Player(false, None, Unassigned)

  /** The button names of the four selectable factions. */
  const FactionNames: set<string> := {"Navy", "Pirates", "Tinkerers", "Vikings"}

  /** The name a faction's buttons pass to the lobby. */
  function FactionName(f: Faction): string
    requires f != None
  {
    if f == Navy then "Navy"
    else if f == Pirates then "Pirates"
    else if f == Tinkerers then "Tinkerers"
    else "Vikings"
  }

  /** Maps a button's faction name to its faction; any other string is NONE. */
  function GetFaction(name: string): (f: Faction)
    ensures f == None <==> name !in FactionNames
    ensures f != None ==> FactionName(f) == name
  {
    if name == "Navy" then Navy
    else if name == "Pirates" then Pirates
    else if name == "Tinkerers" then Tinkerers
    else if name == "Vikings" then Vikings
    else None
  }

  /** Every selectable faction's name maps back to it. */
  lemma FactionNameRoundTrip(f: Faction)
    requires f != None
    ensures FactionName(f) in FactionNames
    ensures GetFaction(FactionName(f)) == f
  {
  }

  // ---------------------------------------------------------------------------
  // Player slots

  predicate AllReady(players: seq<Player>) {
    forall j :: 0 <= j < |players| ==> players[j].ready
  }

  function ReadyBit(p: Player): nat {
    if p.ready then 1 else 0
  }

  /** The number of ready players. */
  function ReadyCount(players: seq<Player>): (n: nat)
    ensures n <= |players|
  {
    if players == [] then 0
    else ReadyCount(players[..|players| - 1]) + ReadyBit(players[|players| - 1])
  }

  /** Every slot is counted exactly when every player is ready. */
  lemma {:induction false} ReadyCountAll(players: seq<Player>)
    ensures ReadyCount(players) == |players| <==> AllReady(players)
  {
    if players != [] {
      var n := |players| - 1;
      ReadyCountAll(players[..n]);
      assert AllReady(players) <==> AllReady(players[..n]) && players[n].ready;
    }
  }

  /** No slot is counted exactly when no player is ready. */
  lemma {:induction false} ReadyCountNone(players: seq<Player>)
    ensures ReadyCount(players) == 0 <==> forall j :: 0 <= j < |players| ==> !players[j].ready
  {
    if players != [] {
      var n := |players| - 1;
      ReadyCountNone(players[..n]);
      assert (forall j :: 0 <= j < |players| ==> !players[j].ready) <==>
        (forall j :: 0 <= j < n ==> !players[..n][j].ready) && !players[n].ready;
    }
  }

  /** Replacing one slot changes the ready count by the difference of their flags. */
  lemma {:induction false} ReadyCountUpdate(players: seq<Player>, k: nat, p: Player)
    requires k < |players|
    ensures ReadyCount(players[k := p]) == ReadyCount(players) - ReadyBit(players[k]) + ReadyBit(p)
  {
    var n := |players| - 1;
    if k == n {
      assert players[k := p][..n] == players[..n];
    } else {
      assert players[k := p][..n] == players[..n][k := p];
      ReadyCountUpdate(players[..n], k, p);
    }
  }

  /** A slot after its player is unreadied: not ready, no faction, team kept. */
  function Unreadied(p: Player): Player {
    p.(ready := false, faction := None)
  }

  /** The slots after the start of the game is cancelled. */
  function Cancelled(players: seq<Player>): (r: seq<Player>)
    ensures |r| == |players|
    ensures forall j :: 0 <= j < |r| ==>
      !r[j].ready && r[j].faction == None && r[j].team == players[j].team
    ensures ReadyCount(r) == 0
  {
    var r := seq(|players|, j requires 0 <= j < |players| => Unreadied(players[j]));
    ReadyCountNone(r);
    r
  }

  // ---------------------------------------------------------------------------
  // Team factions

  /** The two team factions differ unless both are NONE. */
  predicate TeamsDistinct(t1: Faction, t2: Faction) {
    t1 == t2 ==> t1 == None
  }

  /**
   * The team factions after a player readies with faction `f` in the team
   * game mode: `f` takes team one's slot if that is free and team two does
   * not already have `f`, else team two's slot if that is free and team one
   * does not already have `f`.
   */
  function ClaimTeamFaction(t1: Faction, t2: Faction, f: Faction): (r: (Faction, Faction))
    requires f != None
    ensures r.0 == t1 || r.1 == t2
    ensures r.0 == t1 || (t1 == None && r.0 == f)
    ensures r.1 == t2 || (t2 == None && r.1 == f)
    ensures t1 == None && f != t2 ==> r.0 == f
    ensures (f == r.0 || f == r.1) <==> (f == t1 || f == t2 || t1 == None || t2 == None)
    ensures TeamsDistinct(t1, t2) ==> TeamsDistinct(r.0, r.1)
  {
    if t1 == None && f != t2 then (f, t2)
    else if t2 == None && f != t1 then (t1, f)
    else (t1, t2)
  }

  /** The team factions after a player of faction `f` leaves: the team holding `f` loses it. */
  function ReleaseTeamFaction(t1: Faction, t2: Faction, f: Faction): (r: (Faction, Faction))
    ensures r.0 == t1 || r.0 == None
    ensures r.1 == t2 || r.1 == None
    ensures r.0 == t1 || r.1 == t2
    ensures TeamsDistinct(t1, t2) ==> TeamsDistinct(r.0, r.1)
    ensures TeamsDistinct(t1, t2) && f != None ==> r.0 != f && r.1 != f
    ensures f != t1 && f != t2 ==> r == (t1, t2)
    ensures r.0 != t1 ==> f == t1
    ensures r.1 != t2 ==> f == t2 && f != t1
  {
    if f == t1 then (None, t2)
    else if f == t2 then (t1, None)
    else (t1, t2)
  }

  /**
   * Releasing a faction that has just claimed a free team slot gives the
   * slots back as they were.
   */
  lemma ClaimThenRelease(t1: Faction, t2: Faction, f: Faction)
    requires TeamsDistinct(t1, t2) && f != None && f != t1 && f != t2
    ensures var c := ClaimTeamFaction(t1, t2, f); ReleaseTeamFaction(c.0, c.1, f) == (t1, t2)
  {
  }

  /** The team a player of faction `f` ends on, given the team factions and its previous team. */
  function TeamOf(f: Faction, t1: Faction, t2: Faction, previous: Team): Team {
    if f == t1 then TeamOne else if f == t2 then TeamTwo else previous
  }

  // ---------------------------------------------------------------------------
  // Faction button groups, as their "interactable" flags

  /** The four groups' flags; `Get` and `Set` look a group up by its faction. */
  datatype Groups = Groups(navy: seq<bool>, pirates: seq<bool>, tinkerers: seq<bool>, vikings: seq<bool>)
  {
    function Get(f: Faction): seq<bool>
      requires f != None
    {
      match f
      case Navy => navy
      case Pirates => pirates
      case Tinkerers => tinkerers
      case Vikings => vikings
    }

    function Set(f: Faction, flags: seq<bool>): (r: Groups)
      requires f != None
      ensures r.Get(f) == flags
      ensures forall h :: h != None && h != f ==> r.Get(h) == Get(h)
    {
      match f
      case Navy => this.(navy := flags)
      case Pirates => this.(pirates := flags)
      case Tinkerers => this.(tinkerers := flags)
      case Vikings => this.(vikings := flags)
    }
  }

  /** Two group states agree when every faction's group does. */
  lemma GroupsEqual(a: Groups, b: Groups)
    requires forall f :: f != None ==> a.Get(f) == b.Get(f)
    ensures a == b
  {
    assert a.Get(Navy) == b.Get(Navy) && a.Get(Pirates) == b.Get(Pirates);
    assert a.Get(Tinkerers) == b.Get(Tinkerers) && a.Get(Vikings) == b.Get(Vikings);
  }

  /** `n` buttons, all with the flag `v`. */
  function Filled(n: nat, v: bool): (r: seq<bool>)
    ensures |r| == n && forall j :: 0 <= j < n ==> r[j] == v
  {
    seq(n, _ => v)
  }

  /** Every button of every group made interactable. */
  function EnableAll(g: Groups): (r: Groups)
    ensures forall f :: f != None ==>
      |r.Get(f)| == |g.Get(f)| && forall j :: 0 <= j < |r.Get(f)| ==> r.Get(f)[j]
  {
    Groups(Filled(|g.navy|, true), Filled(|g.pirates|, true),
           Filled(|g.tinkerers|, true), Filled(|g.vikings|, true))
  }

  /** Every button of group `f` set to `value`; the other groups unchanged. */
  function WithGroup(g: Groups, f: Faction, value: bool): (r: Groups)
    requires f != None
    ensures |r.Get(f)| == |g.Get(f)| && forall j :: 0 <= j < |r.Get(f)| ==> r.Get(f)[j] == value
    ensures forall h :: h != None && h != f ==> r.Get(h) == g.Get(h)
  {
    g.Set(f, Filled(|g.Get(f)|, value))
  }

  /**
   * Once both team factions are set, a group's buttons are interactable
   * exactly when the group's faction is one of the two; while either team
   * faction is NONE the groups are left as they are.
   */
  function RestrictToTeams(g: Groups, t1: Faction, t2: Faction): (r: Groups)
    ensures t1 == None || t2 == None ==> r == g
    ensures t1 != None && t2 != None ==>
      forall f :: f != None ==>
        |r.Get(f)| == |g.Get(f)| && forall j :: 0 <= j < |r.Get(f)| ==> (r.Get(f)[j] <==> f == t1 || f == t2)
  {
    if t1 == None || t2 == None then g
    else Groups(Filled(|g.navy|, Navy == t1 || Navy == t2), Filled(|g.pirates|, Pirates == t1 || Pirates == t2),
                Filled(|g.tinkerers|, Tinkerers == t1 || Tinkerers == t2),
                Filled(|g.vikings|, Vikings == t1 || Vikings == t2))
  }

  /** Restricting the groups to the same two team factions a second time changes nothing. */
  lemma RestrictToTeamsIdempotent(g: Groups, t1: Faction, t2: Faction)
    ensures RestrictToTeams(RestrictToTeams(g, t1, t2), t1, t2) == RestrictToTeams(g, t1, t2)
  {
    if t1 != None && t2 != None {
      var r := RestrictToTeams(g, t1, t2);
      forall f | f != None
        ensures RestrictToTeams(r, t1, t2).Get(f) == r.Get(f)
      {
        RestrictToTeamsAt(g, t1, t2, f);
        RestrictToTeamsAt(r, t1, t2, f);
      }
      GroupsEqual(RestrictToTeams(r, t1, t2), r);
    }
  }

  /** Enabling every group a second time changes nothing. */
  lemma EnableAllIdempotent(g: Groups)
    ensures EnableAll(EnableAll(g)) == EnableAll(g)
  {
    GroupsEqual(EnableAll(EnableAll(g)), EnableAll(g));
  }

  /** Sets every button of `buttons` to `value`. */
  method SetInteractable(buttons: array<bool>, value: bool)
    modifies buttons
    ensures buttons[..] == Filled(buttons.Length, value)
  {
    for i := 0 to buttons.Length
      invariant forall j :: 0 <= j < i ==> buttons[j] == value
    {
      buttons[i] := value;
    }
  }

  /** Looking up a group after the groups were restricted to two team factions. */
  lemma RestrictToTeamsAt(g: Groups, t1: Faction, t2: Faction, f: Faction)
    requires t1 != None && t2 != None && f != None
    ensures RestrictToTeams(g, t1, t2).Get(f) == Filled(|g.Get(f)|, f == t1 || f == t2)
  {
  }

  /**
   * Closing all four groups and then opening the two team factions' groups,
   * one at a time, leaves exactly the two team groups open.
   */
  lemma RestrictByGroups(g: Groups, t1: Faction, t2: Faction)
    requires t1 != None && t2 != None
    ensures RestrictToTeams(g, t1, t2) ==
      WithGroup(WithGroup(WithGroup(WithGroup(WithGroup(WithGroup(g,
        Navy, false), Pirates, false), Tinkerers, false), Vikings, false), t1, true), t2, true)
  {
    var cleared := WithGroup(WithGroup(WithGroup(WithGroup(g, Navy, false), Pirates, false), Tinkerers, false), Vikings, false);
    var after := WithGroup(WithGroup(cleared, t1, true), t2, true);
    var r := RestrictToTeams(g, t1, t2);
    forall f | f != None
      ensures after.Get(f) == r.Get(f)
    {
      RestrictToTeamsAt(g, t1, t2, f);
    }
    GroupsEqual(after, r);
  }

  /** Opening the four groups one at a time opens every group. */
  lemma EnableByGroups(g: Groups)
    ensures EnableAll(g) ==
      WithGroup(WithGroup(WithGroup(WithGroup(g, Navy, true), Pirates, true), Tinkerers, true), Vikings, true)
  {
    var after := WithGroup(WithGroup(WithGroup(WithGroup(g, Navy, true), Pirates, true), Tinkerers, true), Vikings, true);
    GroupsEqual(after, EnableAll(g));
  }

  // ---------------------------------------------------------------------------
  // The lobby

  predicate ValidPlayerId(id: int) {
    1 <= id <= 4
  }

  class PlayerSetupMenu {
    const mainMenu: Menu.MainMenu
    const players: array<Player>
    const navyButtons: array<bool>
    const piratesButtons: array<bool>
    const tinkerersButtons: array<bool>
    const vikingsButtons: array<bool>

    /** Seconds the start countdown runs. */
    var countdownTime: int
    var currentCountdownTime: real
    var allPlayersReady: bool

    var team1Faction: Faction
    var team2Faction: Faction

    var startGameMenuActive: bool
    var playerSubmenusActive: bool
    var backButtonActive: bool

    ghost predicate Valid()
      reads this
    {
      && players.Length == 4
      && navyButtons != piratesButtons && navyButtons != tinkerersButtons
      && navyButtons != vikingsButtons && piratesButtons != tinkerersButtons
      && piratesButtons != vikingsButtons && tinkerersButtons != vikingsButtons
      && TeamsDistinct(team1Faction, team2Faction)
    }

    /** The button group of a selectable faction. */
    function ButtonsOf(f: Faction): (buttons: array<bool>)
      requires f != None
      ensures buttons in ButtonArrays()
    {
      match f
      case Navy => navyButtons
      case Pirates => piratesButtons
      case Tinkerers => tinkerersButtons
      case Vikings => vikingsButtons
    }

    ghost function ButtonArrays(): set<array<bool>> {
      {navyButtons, piratesButtons, tinkerersButtons, vikingsButtons}
    }

    /** The interactable flags of the four groups, by faction. */
    ghost function Buttons(): Groups
      reads navyButtons, piratesButtons, tinkerersButtons, vikingsButtons
    {
      Groups(navyButtons[..], piratesButtons[..], tinkerersButtons[..], vikingsButtons[..])
    }

    /**
     * The lobby as it wakes up: four unready slots, no team factions, no
     * countdown. The scene sizes each faction's group and sets the countdown
     * length and the menus' visibility; every button starts interactable.
     */
    constructor (menu: Menu.MainMenu, navyCount: nat, piratesCount: nat, tinkerersCount: nat, vikingsCount: nat,
                 countdownTime: int, startGameMenuShown: bool, playerSubmenusShown: bool, backButtonShown: bool)
      ensures Valid()
      ensures mainMenu == menu
      ensures fresh(players) && players[..] == [NewPlayer, NewPlayer, NewPlayer, NewPlayer]
      ensures fresh(navyButtons) && fresh(piratesButtons) && fresh(tinkerersButtons) && fresh(vikingsButtons)
      ensures Buttons() == Groups(Filled(navyCount, true), Filled(piratesCount, true),
                                  Filled(tinkerersCount, true), Filled(vikingsCount, true))
      ensures team1Faction == None && team2Faction == None
      ensures this.countdownTime == countdownTime && currentCountdownTime == 0.0 && !allPlayersReady
      ensures startGameMenuActive == startGameMenuShown && playerSubmenusActive == playerSubmenusShown
      ensures backButtonActive == backButtonShown
    {
      mainMenu := menu;
      players := new Player[4](_ => NewPlayer);
      navyButtons := new bool[navyCount](_ => true);
      piratesButtons := new bool[piratesCount](_ => true);
      tinkerersButtons := new bool[tinkerersCount](_ => true);
      vikingsButtons := new bool[vikingsCount](_ => true);
      this.countdownTime := countdownTime;
      currentCountdownTime := 0.0;
      allPlayersReady := false;
      team1Faction := None;
      team2Faction := None;
      startGameMenuActive := startGameMenuShown;
      playerSubmenusActive := playerSubmenusShown;
      backButtonActive := backButtonShown;
      new;
      assert players[..] == [NewPlayer, NewPlayer, NewPlayer, NewPlayer];
      assert navyButtons[..] == Filled(navyCount, true);
      assert piratesButtons[..] == Filled(piratesCount, true);
      assert tinkerersButtons[..] == Filled(tinkerersCount, true);
      assert vikingsButtons[..] == Filled(vikingsCount, true);
    }

    /** Counts the ready players. */
    method PlayersReadyCount() returns (count: nat)
      ensures count == ReadyCount(players[..])
    {
      count := 0;
      for i := 0 to players.Length
        invariant count == ReadyCount(players[..i])
      {
        assert players[..i + 1][..i] == players[..i];
        if players[i].ready {
          count := count + 1;
        }
      }
      assert players[..players.Length] == players[..];
    }

    /** One frame: while all players are ready the countdown runs until it reaches `countdownTime`. */
    method Update(deltaTime: real)
      modifies this`currentCountdownTime
      ensures currentCountdownTime ==
        if allPlayersReady && old(currentCountdownTime) < countdownTime as real
        then old(currentCountdownTime) + deltaTime
        else old(currentCountdownTime)
    {
      if allPlayersReady {
        if currentCountdownTime >= countdownTime as real {
          // The match start is not implemented; the script only logs here.
        } else {
          currentCountdownTime := currentCountdownTime + deltaTime;
        }
      }
    }

    /** Makes every faction selectable again and forgets both team factions. */
    method ResetButtons()
      requires Valid()
      modifies ButtonArrays(), this`team1Faction, this`team2Faction
      ensures Valid()
      ensures Buttons() == EnableAll(old(Buttons()))
      ensures team1Faction == None && team2Faction == None
    {
      EnableAllTeamButtons();
      team1Faction := None;
      team2Faction := None;
    }

    /** Flags all players ready and swaps the player menus for the start-game menu. */
    method ShowStartGameMenu()
      modifies this`allPlayersReady, this`startGameMenuActive, this`playerSubmenusActive, this`backButtonActive
      ensures allPlayersReady && startGameMenuActive && !playerSubmenusActive && !backButtonActive
    {
      allPlayersReady := true;
      startGameMenuActive := true;
      playerSubmenusActive := false;
      backButtonActive := false;
    }

    /**
     * Returns to the player menus: the countdown restarts from zero, no
     * player is ready and none has a faction; teams and team factions stay.
     */
    method CancelStartGame()
      modifies players, this`startGameMenuActive, this`playerSubmenusActive
      modifies this`currentCountdownTime, this`allPlayersReady
      ensures !startGameMenuActive && playerSubmenusActive
      ensures currentCountdownTime == 0.0 && !allPlayersReady
      ensures players[..] == Cancelled(old(players[..]))
      ensures ReadyCount(players[..]) == 0
    {
      startGameMenuActive := false;
      playerSubmenusActive := true;
      currentCountdownTime := 0.0;
      allPlayersReady := false;
      for i := 0 to players.Length
        modifies players
        invariant forall j :: 0 <= j < i ==> players[j] == Unreadied(old(players[j]))
        invariant forall j :: i <= j < players.Length ==> players[j] == old(players[j])
      {
        players[i] := Unreadied(players[i]);
      }
      assert players[..] == Cancelled(old(players[..]));
    }

    /**
     * Readies player `id` (1 to 4) with `faction`. An id out of range or the
     * faction NONE leaves the lobby as it was. In the team game mode the
     * faction may claim a free team slot, and the button groups are then
     * narrowed: with three players ready and team one's faction set, team
     * one's group is closed; otherwise, once both team factions are set,
     * only their two groups stay open. The player joins the team whose
     * faction it picked. When all four are ready the start-game menu shows.
     */
    method ReadyPlayer(id: int, faction: Faction)
      requires Valid()
      modifies players, ButtonArrays(), this`team1Faction, this`team2Faction
      modifies this`allPlayersReady, this`startGameMenuActive, this`playerSubmenusActive, this`backButtonActive
      ensures Valid()
      ensures !ValidPlayerId(id) || faction == None ==>
        unchanged(this, players, navyButtons, piratesButtons, tinkerersButtons, vikingsButtons)
      ensures ValidPlayerId(id) && faction != None ==>
        (team1Faction, team2Faction) ==
          if mainMenu.IsTeamsGameMode()
          then ClaimTeamFaction(old(team1Faction), old(team2Faction), faction)
          else (old(team1Faction), old(team2Faction))
      ensures ValidPlayerId(id) && faction != None ==>
        players[..] == old(players[..])[id - 1 := Player(true, faction,
          TeamOf(faction, team1Faction, team2Faction, old(players[id - 1].team)))]
      ensures ValidPlayerId(id) && faction != None ==>
        Buttons() ==
          if !mainMenu.IsTeamsGameMode() then old(Buttons())
          else if ReadyCount(players[..]) == 3 && team1Faction != None
          then WithGroup(old(Buttons()), team1Faction, false)
          else RestrictToTeams(old(Buttons()), team1Faction, team2Faction)
      ensures ValidPlayerId(id) && faction != None ==>
        allPlayersReady == (old(allPlayersReady) || AllReady(players[..]))
      ensures ValidPlayerId(id) && faction != None && AllReady(players[..]) ==>
        startGameMenuActive && !playerSubmenusActive && !backButtonActive
      ensures ValidPlayerId(id) && faction != None && !AllReady(players[..]) ==>
        && startGameMenuActive == old(startGameMenuActive)
        && playerSubmenusActive == old(playerSubmenusActive)
        && backButtonActive == old(backButtonActive)
    {
      if id < 1 || id > 4 {
        return;
      } else if faction == None {
        return;
      }
      ReadySlot(id - 1, faction);
    }

    /** ReadyPlayer once the id and the faction have passed its checks; `p` is the slot index. */
    method ReadySlot(p: nat, faction: Faction)
      requires Valid() && p < 4 && faction != None
      modifies players, ButtonArrays(), this`team1Faction, this`team2Faction
      modifies this`allPlayersReady, this`startGameMenuActive, this`playerSubmenusActive, this`backButtonActive
      ensures Valid()
      ensures (team1Faction, team2Faction) ==
          if mainMenu.IsTeamsGameMode()
          then ClaimTeamFaction(old(team1Faction), old(team2Faction), faction)
          else (old(team1Faction), old(team2Faction))
      ensures players[..] == old(players[..])[p := Player(true, faction,
          TeamOf(faction, team1Faction, team2Faction, old(players[p].team)))]
      ensures Buttons() ==
          if !mainMenu.IsTeamsGameMode() then old(Buttons())
          else if ReadyCount(players[..]) == 3 && team1Faction != None
          then WithGroup(old(Buttons()), team1Faction, false)
          else RestrictToTeams(old(Buttons()), team1Faction, team2Faction)
      ensures allPlayersReady == (old(allPlayersReady) || AllReady(players[..]))
      ensures AllReady(players[..]) ==> startGameMenuActive && !playerSubmenusActive && !backButtonActive
      ensures !AllReady(players[..]) ==>
        && startGameMenuActive == old(startGameMenuActive)
        && playerSubmenusActive == old(playerSubmenusActive)
        && backButtonActive == old(backButtonActive)
    {
      players[p] := players[p].(ready := true, faction := faction);
      ghost var readied := players[..];

      if mainMenu.IsTeamsGameMode() {
        ChooseTeamFaction(faction);
      }

      JoinTeam(p, faction);
      ReadyCountUpdate(readied, p, players[p]);
      ShowStartGameMenuIfAllReady();
    }

    /** Shows the start-game menu once all four players are ready. */
    method ShowStartGameMenuIfAllReady()
      requires Valid()
      modifies this`allPlayersReady, this`startGameMenuActive, this`playerSubmenusActive, this`backButtonActive
      ensures allPlayersReady == (old(allPlayersReady) || AllReady(players[..]))
      ensures AllReady(players[..]) ==> startGameMenuActive && !playerSubmenusActive && !backButtonActive
      ensures !AllReady(players[..]) ==>
        && startGameMenuActive == old(startGameMenuActive)
        && playerSubmenusActive == old(playerSubmenusActive)
        && backButtonActive == old(backButtonActive)
    {
      assert players[..] == [players[0], players[1], players[2], players[3]];
      if players[0].ready && players[1].ready && players[2].ready && players[3].ready {
        ShowStartGameMenu();
      }
    }

    /** Puts player `p` on the team whose faction is `faction`; otherwise its team stays. */
    method JoinTeam(p: nat, faction: Faction)
      requires Valid() && p < 4
      modifies players
      ensures players[..] == old(players[..])[p := old(players[p]).(team :=
        TeamOf(faction, team1Faction, team2Faction, old(players[p].team)))]
    {
      if faction == team1Faction {
        players[p] := players[p].(team := TeamOne);
      } else if faction == team2Faction {
        players[p] := players[p].(team := TeamTwo);
      }
    }

    /**
     * The team game mode's part of readying a player with `faction`: the
     * faction may claim a free team slot, then the button groups are
     * narrowed. With three players ready and team one's faction set, team
     * one's group is closed so that the last player cannot join it;
     * otherwise, once both team factions are set, only their groups stay open.
     */
    method ChooseTeamFaction(faction: Faction)
      requires Valid() && faction != None
      modifies ButtonArrays(), this`team1Faction, this`team2Faction
      ensures Valid()
      ensures (team1Faction, team2Faction) == ClaimTeamFaction(old(team1Faction), old(team2Faction), faction)
      ensures Buttons() ==
        if ReadyCount(players[..]) == 3 && team1Faction != None
        then WithGroup(old(Buttons()), team1Faction, false)
        else RestrictToTeams(old(Buttons()), team1Faction, team2Faction)
    {
      ClaimTeamSlot(faction);
      NarrowTeamButtons();
    }

    /** Gives `faction` the first free team slot, unless the other team already has it. */
    method ClaimTeamSlot(faction: Faction)
      requires Valid() && faction != None
      modifies this`team1Faction, this`team2Faction
      ensures Valid()
      ensures (team1Faction, team2Faction) == ClaimTeamFaction(old(team1Faction), old(team2Faction), faction)
    {
      if team1Faction == None && faction != team2Faction {
        team1Faction := faction;
      } else if team2Faction == None && faction != team1Faction {
        team2Faction := faction;
      }
    }

    /**
     * With three players ready and team one's faction set, closes team one's
     * group; otherwise leaves only the team factions' groups open once both
     * are set.
     */
    method NarrowTeamButtons()
      requires Valid()
      modifies ButtonArrays()
      ensures Buttons() ==
        if ReadyCount(players[..]) == 3 && team1Faction != None
        then WithGroup(old(Buttons()), team1Faction, false)
        else RestrictToTeams(old(Buttons()), team1Faction, team2Faction)
      ensures ReadyCount(players[..]) == 3 && team1Faction != None ==>
        forall j :: 0 <= j < ButtonsOf(team1Faction).Length ==> !ButtonsOf(team1Faction)[j]
    {
      var count := PlayersReadyCount();
      if count == 3 && team1Faction != None {
        SetGroup(team1Faction, false);
      } else {
        DisableNonTeamFactions();
      }
    }

    /** Once both team factions are set, leaves only their two button groups interactable. */
    method DisableNonTeamFactions()
      requires Valid()
      modifies ButtonArrays()
      ensures Buttons() == RestrictToTeams(old(Buttons()), team1Faction, team2Faction)
    {
      if team1Faction == None || team2Faction == None {
        return;
      }
      ghost var g := Buttons();
      SetGroup(Navy, false);
      SetGroup(Pirates, false);
      SetGroup(Tinkerers, false);
      SetGroup(Vikings, false);
      SetGroup(team1Faction, true);
      SetGroup(team2Faction, true);
      RestrictByGroups(g, team1Faction, team2Faction);
    }

    /** Sets every button of faction `f`'s group to `value`; the other groups are untouched. */
    method SetGroup(f: Faction, value: bool)
      requires Valid() && f != None
      modifies ButtonsOf(f)
      ensures Buttons() == WithGroup(old(Buttons()), f, value)
    {
      SetInteractable(ButtonsOf(f), value);
    }

    /** Makes every button of every group interactable. */
    method EnableAllTeamButtons()
      requires Valid()
      modifies ButtonArrays()
      ensures Buttons() == EnableAll(old(Buttons()))
    {
      ghost var g := Buttons();
      SetGroup(Navy, true);
      SetGroup(Pirates, true);
      SetGroup(Tinkerers, true);
      SetGroup(Vikings, true);
      EnableByGroups(g);
    }

    /**
     * The button handlers ReadyPlayer1 to ReadyPlayer4: each readies its own
     * player `id` with the faction named by the button pressed. A name that
     * is not a faction's leaves the lobby as it was.
     */
    method ReadyPlayerNamed(id: int, name: string)
      requires Valid() && ValidPlayerId(id)
      modifies players, ButtonArrays(), this`team1Faction, this`team2Faction
      modifies this`allPlayersReady, this`startGameMenuActive, this`playerSubmenusActive, this`backButtonActive
      ensures Valid()
      ensures name !in FactionNames ==>
        unchanged(this, players, navyButtons, piratesButtons, tinkerersButtons, vikingsButtons)
      ensures name in FactionNames ==>
        (team1Faction, team2Faction) ==
          if mainMenu.IsTeamsGameMode()
          then ClaimTeamFaction(old(team1Faction), old(team2Faction), GetFaction(name))
          else (old(team1Faction), old(team2Faction))
      ensures name in FactionNames ==>
        players[..] == old(players[..])[id - 1 := Player(true, GetFaction(name),
          TeamOf(GetFaction(name), team1Faction, team2Faction, old(players[id - 1].team)))]
      ensures name in FactionNames ==>
        Buttons() ==
          if !mainMenu.IsTeamsGameMode() then old(Buttons())
          else if ReadyCount(players[..]) == 3 && team1Faction != None
          then WithGroup(old(Buttons()), team1Faction, false)
          else RestrictToTeams(old(Buttons()), team1Faction, team2Faction)
      ensures name in FactionNames ==>
        allPlayersReady == (old(allPlayersReady) || AllReady(players[..]))
      ensures name in FactionNames && AllReady(players[..]) ==>
        startGameMenuActive && !playerSubmenusActive && !backButtonActive
      ensures name in FactionNames && !AllReady(players[..]) ==>
        && startGameMenuActive == old(startGameMenuActive)
        && playerSubmenusActive == old(playerSubmenusActive)
        && backButtonActive == old(backButtonActive)
    {
      ReadyPlayer(id, GetFaction(name));
    }

    /**
     * Unreadies player `id` (1 to 4); an id out of range leaves the lobby as
     * it was. The ready count before the call decides the rest: with two or
     * fewer ready the player's faction is released from its team slot, and
     * with exactly two ready, or three ready and team two's faction unset,
     * every button group is enabled again. The player ends not ready and
     * without a faction.
     */
    method UnreadyPlayer(id: int)
      requires Valid()
      modifies players, ButtonArrays(), this`team1Faction, this`team2Faction
      ensures Valid()
      ensures !ValidPlayerId(id) ==>
        && players[..] == old(players[..]) && Buttons() == old(Buttons())
        && team1Faction == old(team1Faction) && team2Faction == old(team2Faction)
      ensures ValidPlayerId(id) ==>
        var count := ReadyCount(old(players[..]));
        && players[..] == old(players[..])[id - 1 := Unreadied(old(players[id - 1]))]
        && (team1Faction, team2Faction) ==
             (if count <= 2 then ReleaseTeamFaction(old(team1Faction), old(team2Faction), old(players[id - 1].faction))
              else (old(team1Faction), old(team2Faction)))
        && Buttons() == (if count == 2 || (count == 3 && old(team2Faction) == None)
                         then EnableAll(old(Buttons())) else old(Buttons()))
      ensures ValidPlayerId(id) ==>
        && !players[id - 1].ready && players[id - 1].faction == None
        && (team1Faction == old(team1Faction) || team1Faction == None)
        && (team2Faction == old(team2Faction) || team2Faction == None)
    {
      if id < 1 || id > 4 {
        return;
      }
      var p := id - 1;
      var count := PlayersReadyCount();
      if count == 2 {
        EnableAllTeamButtons();
        if players[p].faction == team1Faction {
          team1Faction := None;
        } else if players[p].faction == team2Faction {
          team2Faction := None;
        }
      } else if count < 2 {
        if players[p].faction == team1Faction {
          team1Faction := None;
        } else if players[p].faction == team2Faction {
          team2Faction := None;
        }
      } else if count == 3 && team2Faction == None {
        EnableAllTeamButtons();
      }

      players[p] := Unreadied(players[p]);
    }
  }
}
