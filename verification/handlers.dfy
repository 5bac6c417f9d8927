/**
 The mod's event handlers as pure transitions over a `World`: the join prompt,
 kingdom selection (one transition for both selection packets), respawn gating,
 the after-respawn (king fall) listener and the friendly-fire decision.
 */
module KingdomHandlers {
  import opened KingdomState

  /** True when kingdom `k`'s team still has room for one more name. */
  predicate HasRoom(teams: map<PlayerId, TeamName>, k: Kingdom) {
    |Roster(teams, k.Team())| < MAX_PLAYERS_PER_TEAM
  }

  /** Player join: the selection screen is requested exactly when the joining
      player's component names no kingdom. The handler only reads. */
  function OnJoin(w: World, p: PlayerId): (r: Step)
    requires Present(w, p)
    ensures r.world == w
    ensures |r.out| <= 1
    ensures Send(p, SelectionPrompt) in r.out <==> w.players[p].component.kingdom == NO_KINGDOM
    ensures w.players[p].component.kingdom != NO_KINGDOM ==> r.out == []
  {
    if w.players[p].component.kingdom == NO_KINGDOM then Step(w, [Send(p, SelectionPrompt)])
    else Step(w, [])
  }

  /** Kingdom selection. The component's kingdom is set first, whatever follows;
      then, only if the team has room, the name is put on the kingdom's team and
      the player's spawn point and position move to the kingdom's home. */
  function SelectKingdom(w: World, p: PlayerId, k: Kingdom): (r: Step)
    requires Present(w, p)
    ensures r.world.online == w.online
    ensures r.world.players.Keys == w.players.Keys
    ensures forall q :: q in w.players && q != p ==> r.world.players[q] == w.players[q]
    // the kingdom id is recorded even when the team turns the player away
    ensures r.world.players[p].component == w.players[p].component.(kingdom := k.Id())
    ensures r.world.players[p].mode == w.players[p].mode
    ensures HasRoom(w.teams, k) ==>
      && TeamOf(r.world, p) == Some(k.Team())
      && (forall q :: q != p ==> TeamOf(r.world, q) == TeamOf(w, q))
      && r.world.players[p].spawn == k.Home()
      && r.world.players[p].position == k.Home()
      && r.out == [Send(p, JoinedKingdom(k))]
    ensures !HasRoom(w.teams, k) ==>
      && r.world.teams == w.teams
      && r.world.players[p].spawn == w.players[p].spawn
      && r.world.players[p].position == w.players[p].position
      && r.out == [Send(p, TeamFull)]
  {
    var pl := w.players[p];
    var marked := pl.(component := pl.component.(kingdom := k.Id()));
    if HasRoom(w.teams, k) then
      var moved := marked.(spawn := k.Home(), position := k.Home());
      Step(w.(players := w.players[p := moved], teams := w.teams[p := k.Team()]),
           [Send(p, JoinedKingdom(k))])
    else
      Step(w.(players := w.players[p := marked]), [Send(p, TeamFull)])
  }

  /** Respawn copy: a player whose component forbids respawning is put into
      Spectator mode and told so; anyone else respawns untouched. */
  function OnRespawnCopy(w: World, p: PlayerId): (r: Step)
    requires Present(w, p)
    ensures r.world.online == w.online && r.world.teams == w.teams
    ensures r.world.players.Keys == w.players.Keys
    ensures forall q :: q in w.players && q != p ==> r.world.players[q] == w.players[q]
    ensures r.world.players[p].component == w.players[p].component
    ensures r.world.players[p].spawn == w.players[p].spawn
    ensures r.world.players[p].position == w.players[p].position
    ensures !w.players[p].component.respawnAllowed ==>
      r.world.players[p].mode == Spectator && r.out == [Send(p, RespawnDenied)]
    ensures w.players[p].component.respawnAllowed ==>
      r.world.players[p].mode == w.players[p].mode && r.out == []
  {
    var pl := w.players[p];
    if !pl.component.respawnAllowed then
      Step(w.(players := w.players[p := pl.(mode := Spectator)]), [Send(p, RespawnDenied)])
    else
      Step(w, [])
  }

  /** The kingdom named in the fall broadcast: "Thesium" for id 1, and
      "Krul'ath" for every other id, the no-kingdom id included. */
  function FallenName(kingdom: int): (name: string)
    ensures name == "Thesium" || name == "Krul'ath"
    ensures name == "Thesium" <==> kingdom == THESIUM_KINGDOM
  {
    if kingdom == THESIUM_KINGDOM then "Thesium" else "Krul'ath"
  }

  /** The players a fallen king of kingdom `kingdom` takes down with them:
      those online whose component names that kingdom. */
  predicate Affected(w: World, q: PlayerId, kingdom: int) {
    q in w.online && q in w.players && w.players[q].component.kingdom == kingdom
  }

  /** The state of player `q` after a king of kingdom `kingdom` falls. */
  function Revoked(w: World, q: PlayerId, kingdom: int): Player
    requires q in w.players
  {
    var pl := w.players[q];
    if Affected(w, q, kingdom) then
      pl.(component := pl.component.(respawnAllowed := false))
    else pl
  }

  /** After respawn: when the respawned player was king, they are put into
      Spectator mode, every online player whose component kingdom equals theirs
      loses respawn rights, and the fall is broadcast. A non-king's respawn
      changes nothing. */
  function OnAfterRespawn(w: World, p: PlayerId): (r: Step)
    requires Present(w, p)
    ensures r.world.online == w.online && r.world.teams == w.teams
    ensures r.world.players.Keys == w.players.Keys
    ensures !w.players[p].component.isKing ==> r.world == w && r.out == []
    ensures w.players[p].component.isKing ==>
      && r.world.players[p].mode == Spectator
      && r.out == [Send(p, KingRespawnDenied),
                   Broadcast(KingdomFallen(FallenName(w.players[p].component.kingdom)))]
    // the king's own kingdom, online: respawn rights revoked, nothing else touched
    ensures w.players[p].component.isKing ==>
      forall q :: Affected(w, q, w.players[p].component.kingdom) ==>
        r.world.players[q].component == w.players[q].component.(respawnAllowed := false)
    // everyone else keeps their component
    ensures forall q :: q in w.players && !Affected(w, q, w.players[p].component.kingdom) ==>
        r.world.players[q].component == w.players[q].component
    ensures forall q :: q in w.players ==>
      && r.world.players[q].spawn == w.players[q].spawn
      && r.world.players[q].position == w.players[q].position
    ensures forall q :: q in w.players && q != p ==> r.world.players[q].mode == w.players[q].mode
  {
    var king := w.players[p].component;
    if !king.isKing then
      Step(w, [])
    else
      var fallen := map q | q in w.players :: Revoked(w, q, king.kingdom);
      var players := fallen[p := fallen[p].(mode := Spectator)];
      Step(w.(players := players),
           [Send(p, KingRespawnDenied), Broadcast(KingdomFallen(FallenName(king.kingdom)))])
  }

  /** The entity an attack is aimed at. */
  datatype Target = PlayerTarget(id: PlayerId) | OtherEntity

  datatype AttackDecision = Pass | Fail

  /** Two players are teammates when the first is on a scoreboard team and the
      second is on that same team. The component kingdom plays no part. */
  function SameTeam(w: World, a: PlayerId, b: PlayerId): (r: bool)
    ensures r <==> a in w.teams && b in w.teams && w.teams[a] == w.teams[b]
  {
    TeamOf(w, a) != None && TeamOf(w, a) == TeamOf(w, b)
  }

  /** Friendly fire: an attack on a player on the attacker's own team fails;
      every other attack passes through. */
  function OnAttack(w: World, attacker: PlayerId, target: Target): (r: AttackDecision)
    ensures r == Fail <==>
      target.PlayerTarget? && attacker in w.teams && target.id in w.teams
      && w.teams[attacker] == w.teams[target.id]
  {
    if target.PlayerTarget? && SameTeam(w, attacker, target.id) then Fail else Pass
  }
}
