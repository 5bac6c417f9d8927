/**
 The state the kingdoms mod reads and writes, abstracted away from the game engine:
 a team component per player (kingdom id, king flag, respawn flag), the player's
 spawn point, position and game mode, the set of players currently online, and the
 server scoreboard's assignment of player names to teams.
 */
module KingdomState {

  /** A player's identity; the scoreboard keys its teams by this same name. */
  type PlayerId = string

  /** The name of a scoreboard team. */
  type TeamName = string

  /** Kingdom ids stored on the team component; the component holds a plain int. */
  const NO_KINGDOM: int := 0
  const THESIUM_KINGDOM: int := 1
  const KRULATH_KINGDOM: int := 2

  /** Roster capacity checked before a player is added to a kingdom's team. */
  const MAX_PLAYERS_PER_TEAM: nat := 50

  datatype Option<+T> = None | Some(value: T)

  /** A block position in the world. */
  datatype Pos = Pos(x: int, y: int, z: int)

  /** The engine's game modes; the mod only ever switches a player to Spectator. */
  datatype GameMode = Survival | Creative | Adventure | Spectator

  /** The two kingdoms a player can choose, each with its own selection packet,
      scoreboard team and home coordinates. */
  datatype Kingdom = Thesium | Krulath {

    function Id(): int {
      match this
      case Thesium => THESIUM_KINGDOM
      case Krulath => KRULATH_KINGDOM
    }

    function Team(): TeamName {
      match this
      case Thesium => "thesium_team"
      case Krulath => "krulath_team"
    }

    /** Where a newly accepted member is teleported and where they respawn. */
    function Home(): Pos {
      match this
      case Thesium => Pos(-1467, 99, -1399)
      case Krulath => Pos(375, 167, 394)
    }
  }

  /** The per-player team component. */
  datatype TeamComponent = TeamComponent(kingdom: int, isKing: bool, respawnAllowed: bool)

  /** The component a player starts with: no kingdom, not king, may respawn. */
  const DefaultComponent := TeamComponent(NO_KINGDOM, false, true)

  /** A player entity as far as the mod is concerned. */
  datatype Player = Player(component: TeamComponent, spawn: Pos, position: Pos, mode: GameMode)

  /** Everything the handlers see. `players` holds every known player's state,
      `online` is the server's current player list, and `teams` is the scoreboard:
      each player name is on at most one team. */
  datatype World = World(players: map<PlayerId, Player>, online: set<PlayerId>, teams: map<PlayerId, TeamName>)

  /** An event about player `p` is only ever raised for a connected player,
      whose component always exists. */
  predicate Present(w: World, p: PlayerId) {
    p in w.online && p in w.players
  }

  /** The names the scoreboard lists on team `t`. */
  function Roster(teams: map<PlayerId, TeamName>, t: TeamName): set<PlayerId> {
    set q | q in teams && teams[q] == t
  }

  /** The scoreboard team of `p`, or None when the name is on no team. */
  function TeamOf(w: World, p: PlayerId): Option<TeamName> {
    if p in w.teams then Some(w.teams[p]) else None
  }

  /** The messages and packets a handler emits; their text and styling are not modelled. */
  datatype Note =
    | SelectionPrompt
    | JoinedKingdom(kingdom: Kingdom)
    | TeamFull
    | RespawnDenied
    | KingRespawnDenied
    | KingdomFallen(name: string)

  datatype Output = Send(to: PlayerId, note: Note) | Broadcast(note: Note)

  /** The result of handling one event: the new world and what was emitted. */
  datatype Step = Step(world: World, out: seq<Output>)
}
