/**
 Properties of the kingdom handlers: the roster capacity bound over any run of
 events, permanence of a respawn lockout, confinement and idempotence of a king's
 fall, the consequences of recording the kingdom before the capacity check, and
 the symmetry of the friendly-fire decision.
 */
module KingdomProperties {
  import opened KingdomState
  import opened KingdomHandlers

  /* ---------------------------------------------------------------------- */
  /* Rosters and capacity                                                    */
  /* ---------------------------------------------------------------------- */

  /** Both kingdom teams are within capacity. */
  predicate RostersBounded(teams: map<PlayerId, TeamName>) {
    forall k: Kingdom :: |Roster(teams, k.Team())| <= MAX_PLAYERS_PER_TEAM
  }

  /** Putting name `p` on team `t` adds `p` to that roster and takes it off
      every other roster, since a name is on at most one team. */
  lemma RosterAfterAssign(teams: map<PlayerId, TeamName>, p: PlayerId, t: TeamName, u: TeamName)
    ensures u == t ==> Roster(teams[p := t], u) == Roster(teams, u) + {p}
    ensures u != t ==> Roster(teams[p := t], u) == Roster(teams, u) - {p}
    ensures |Roster(teams[p := t], u)| <= |Roster(teams, u)| + (if u == t then 1 else 0)
  {
  }

  /** Selection never pushes a team past capacity: every roster either does not
      grow, or is the chosen kingdom's and ends with at most 50 names. */
  lemma SelectionRespectsCapacity(w: World, p: PlayerId, k: Kingdom, u: TeamName)
    requires Present(w, p)
    ensures var after := SelectKingdom(w, p, k).world.teams;
      || |Roster(after, u)| <= |Roster(w.teams, u)|
      || (u == k.Team() && |Roster(after, u)| <= MAX_PLAYERS_PER_TEAM)
  {
    if HasRoom(w.teams, k) {
      assert SelectKingdom(w, p, k).world.teams == w.teams[p := k.Team()];
      RosterAfterAssign(w.teams, p, k.Team(), u);
    }
  }

  /** One selection keeps both kingdom rosters within capacity. */
  lemma SelectionKeepsRostersBounded(w: World, p: PlayerId, k: Kingdom)
    requires Present(w, p)
    requires RostersBounded(w.teams)
    ensures RostersBounded(SelectKingdom(w, p, k).world.teams)
  {
    forall j: Kingdom
      ensures |Roster(SelectKingdom(w, p, k).world.teams, j.Team())| <= MAX_PLAYERS_PER_TEAM
    {
      SelectionRespectsCapacity(w, p, k, j.Team());
    }
  }

  /** A selection with room for exactly one more accepts the player, fills the
      team to capacity and sends them home. */
  lemma LastSeatIsTaken(w: World, p: PlayerId, k: Kingdom)
    requires Present(w, p)
    requires |Roster(w.teams, k.Team())| == MAX_PLAYERS_PER_TEAM - 1
    requires p !in Roster(w.teams, k.Team())
    ensures var after := SelectKingdom(w, p, k).world;
      && |Roster(after.teams, k.Team())| == MAX_PLAYERS_PER_TEAM
      && after.players[p].spawn == k.Home()
      && after.players[p].position == k.Home()
  {
    RosterAfterAssign(w.teams, p, k.Team(), k.Team());
    var before := Roster(w.teams, k.Team());
    assert |before + {p}| == |before| + 1;
  }

  /** A full team turns the next player away: no roster change, no move. */
  lemma FullTeamRejects(w: World, p: PlayerId, k: Kingdom)
    requires Present(w, p)
    requires |Roster(w.teams, k.Team())| >= MAX_PLAYERS_PER_TEAM
    ensures var r := SelectKingdom(w, p, k);
      && r.out == [Send(p, TeamFull)]
      && r.world.teams == w.teams
      && r.world.players[p].position == w.players[p].position
      && r.world.players[p].component.kingdom == k.Id()
  {
  }

  /* ---------------------------------------------------------------------- */
  /* The kingdom id is recorded before the capacity check                    */
  /* ---------------------------------------------------------------------- */

  /** A player still holding the default component is prompted on joining,
      and respawns without losing their game mode or anything else. */
  lemma DefaultPlayerIsPromptedAndRespawns(w: World, p: PlayerId)
    requires Present(w, p)
    requires w.players[p].component == DefaultComponent
    ensures OnJoin(w, p).out == [Send(p, SelectionPrompt)]
    ensures Respawn(w, p) == Step(w, [])
  {
  }

  /** Once a player has selected, they are never prompted again on joining,
      whether or not the team accepted them. */
  lemma SelectionEndsPrompt(w: World, p: PlayerId, k: Kingdom)
    requires Present(w, p)
    ensures OnJoin(SelectKingdom(w, p, k).world, p).out == []
  {
  }

  /** A player not already on a full team who is turned away by it carries that kingdom's id, but the
      kingdom's members may still attack them and be attacked by them, because
      friendly fire reads the scoreboard and not the component. */
  lemma RejectedPlayerIsUnprotected(w: World, p: PlayerId, k: Kingdom, q: PlayerId)
    requires Present(w, p)
    requires !HasRoom(w.teams, k)
    requires TeamOf(w, p) != Some(k.Team())
    requires q in Roster(w.teams, k.Team())
    ensures var after := SelectKingdom(w, p, k).world;
      && after.players[p].component.kingdom == k.Id()
      && TeamOf(after, q) == Some(k.Team())
      && OnAttack(after, q, PlayerTarget(p)) == Pass
      && OnAttack(after, p, PlayerTarget(q)) == Pass
  {
  }

  /** Nothing stops a player who already has a kingdom from selecting another.
      A member of kingdom `j`'s team who selects a full kingdom `k` takes `k`'s
      id but stays on `j`'s team: `j`'s king falling no longer costs them their
      respawn right, while `j`'s members still cannot hit them; `k`'s king
      falling costs them the right instead. */
  lemma ReselectionIntoFullKingdomSplitsState(w: World, p: PlayerId, j: Kingdom, k: Kingdom,
                                              king: PlayerId, mate: PlayerId, otherKing: PlayerId)
    requires Present(w, p) && Present(w, king) && Present(w, otherKing)
    requires j != k && king != p && otherKing != p
    requires TeamOf(w, p) == Some(j.Team()) && TeamOf(w, mate) == Some(j.Team())
    requires !HasRoom(w.teams, k)
    requires w.players[king].component.isKing && w.players[king].component.kingdom == j.Id()
    requires w.players[otherKing].component.isKing && w.players[otherKing].component.kingdom == k.Id()
    ensures var after := SelectKingdom(w, p, k).world;
      && after.players[p].component.kingdom == k.Id()
      && TeamOf(after, p) == Some(j.Team())
      && OnAfterRespawn(after, king).world.players[p].component.respawnAllowed
         == w.players[p].component.respawnAllowed
      && OnAttack(after, mate, PlayerTarget(p)) == Fail
      && !OnAfterRespawn(after, otherKing).world.players[p].component.respawnAllowed
  {
  }

  /* ---------------------------------------------------------------------- */
  /* Respawn and the king's fall                                             */
  /* ---------------------------------------------------------------------- */

  /** A full respawn: the copy handler runs first, then the after-respawn
      listener, on the same player. So a locked-out player is told they cannot
      respawn before any king notice, and a king who still had the right gets
      only the king notice and the broadcast. */
  function Respawn(w: World, p: PlayerId): (r: Step)
    requires Present(w, p)
    ensures r.world.players.Keys == w.players.Keys && r.world.online == w.online
    ensures !w.players[p].component.respawnAllowed ==>
      |r.out| >= 1 && r.out[0] == Send(p, RespawnDenied)
    ensures w.players[p].component.respawnAllowed && w.players[p].component.isKing ==>
      r.out == [Send(p, KingRespawnDenied),
                Broadcast(KingdomFallen(FallenName(w.players[p].component.kingdom)))]
    ensures w.players[p].component.isKing ==>
      && |r.out| >= 2
      && r.out[|r.out| - 2] == Send(p, KingRespawnDenied)
      && r.out[|r.out| - 1] == Broadcast(KingdomFallen(FallenName(w.players[p].component.kingdom)))
  {
    var copied := OnRespawnCopy(w, p);
    var after := OnAfterRespawn(copied.world, p);
    Step(after.world, copied.out + after.out)
  }

  /** A respawn leaves the player in Spectator mode exactly when they were king,
      had lost respawn rights, or were spectating already. */
  lemma RespawnEndsSpectating(w: World, p: PlayerId)
    requires Present(w, p)
    ensures Respawn(w, p).world.players[p].mode == Spectator <==>
      var c := w.players[p].component;
      c.isKing || !c.respawnAllowed || w.players[p].mode == Spectator
  {
  }

  /** A non-king's respawn changes no player's respawn rights, and no one's
      game mode except, when they had lost their rights, their own. */
  lemma NonKingRespawnRevokesNothing(w: World, p: PlayerId)
    requires Present(w, p)
    requires !w.players[p].component.isKing
    ensures var after := Respawn(w, p).world;
      && (forall q :: q in w.players ==> after.players[q].component == w.players[q].component)
      && (forall q :: q in w.players && q != p ==> after.players[q].mode == w.players[q].mode)
      && (w.players[p].component.respawnAllowed ==> after == w)
  {
  }

  /** After a king falls, every online member of the king's kingdom who then
      respawns is forced to spectate. */
  lemma FallenKingdomCannotRespawn(w: World, p: PlayerId, q: PlayerId)
    requires Present(w, p) && Present(w, q)
    requires w.players[p].component.isKing
    requires w.players[q].component.kingdom == w.players[p].component.kingdom
    ensures var fallen := OnAfterRespawn(w, p).world;
      var r := OnRespawnCopy(fallen, q);
      r.world.players[q].mode == Spectator && r.out == [Send(q, RespawnDenied)]
  {
  }

  /** A king's fall does not reach players of another kingdom: their whole
      state is unchanged and their next respawn is decided as before. */
  lemma FallConfinedToKingdom(w: World, p: PlayerId, q: PlayerId)
    requires Present(w, p) && Present(w, q)
    requires q != p
    requires w.players[q].component.kingdom != w.players[p].component.kingdom
    ensures var fallen := OnAfterRespawn(w, p).world;
      && fallen.players[q] == w.players[q]
      && OnRespawnCopy(fallen, q).world.players[q] == OnRespawnCopy(w, q).world.players[q]
  {
  }

  /** The fall matches on the component id alone: a king holding no kingdom
      takes respawn rights from every online player who has no kingdom, and the
      broadcast then names Krul'ath. */
  lemma KinglessFallLocksUnaffiliated(w: World, p: PlayerId, q: PlayerId)
    requires Present(w, p) && Present(w, q)
    requires w.players[p].component.isKing && w.players[p].component.kingdom == NO_KINGDOM
    requires w.players[q].component.kingdom == NO_KINGDOM
    ensures var r := OnAfterRespawn(w, p);
      && !r.world.players[q].component.respawnAllowed
      && Broadcast(KingdomFallen("Krul'ath")) in r.out
  {
  }

  /** The king's fall is idempotent: handling the same king's respawn again
      leaves the world as the first fall left it. */
  lemma FallIsIdempotent(w: World, p: PlayerId)
    requires Present(w, p)
    ensures var once := OnAfterRespawn(w, p).world;
      OnAfterRespawn(once, p).world == once
  {
  }

  /* ---------------------------------------------------------------------- */
  /* Runs of events                                                          */
  /* ---------------------------------------------------------------------- */

  /** The events that change or read kingdom state. */
  datatype Event =
    | Join(p: PlayerId)
    | Select(p: PlayerId, kingdom: Kingdom)
    | RespawnCopy(p: PlayerId)
    | AfterRespawn(p: PlayerId)

  /** Handle one event; the engine raises none for a player who is not present,
      so such an event is ignored. */
  function Handle(w: World, e: Event): (r: Step)
    ensures r.world.players.Keys == w.players.Keys && r.world.online == w.online
    ensures !Present(w, e.p) ==> r == Step(w, [])
  {
    if !Present(w, e.p) then Step(w, [])
    else match e
      case Join(p) => OnJoin(w, p)
      case Select(p, k) => SelectKingdom(w, p, k)
      case RespawnCopy(p) => OnRespawnCopy(w, p)
      case AfterRespawn(p) => OnAfterRespawn(w, p)
  }

  /** The world after handling `events` in order. */
  function Run(w: World, events: seq<Event>): World
    decreases |events|
  {
    if events == [] then w else Run(Handle(w, events[0]).world, events[1..])
  }

  lemma HandleKeepsRostersBounded(w: World, e: Event)
    requires RostersBounded(w.teams)
    ensures RostersBounded(Handle(w, e).world.teams)
  {
    if Present(w, e.p) && e.Select? {
      SelectionKeepsRostersBounded(w, e.p, e.kingdom);
    }
  }

  /** Capacity: whatever sequence of events is handled, neither kingdom's team
      ever holds more than 50 names. */
  lemma {:induction false} RunKeepsRostersBounded(w: World, events: seq<Event>)
    requires RostersBounded(w.teams)
    ensures RostersBounded(Run(w, events).teams)
    decreases |events|
  {
    if events != [] {
      HandleKeepsRostersBounded(w, events[0]);
      RunKeepsRostersBounded(Handle(w, events[0]).world, events[1..]);
    }
  }

  /** No handler restores respawn rights or changes who is king. */
  lemma HandleKeepsLockoutAndKings(w: World, e: Event, q: PlayerId)
    requires q in w.players
    ensures q in Handle(w, e).world.players
    ensures var c := Handle(w, e).world.players[q].component;
      && c.isKing == w.players[q].component.isKing
      && (!w.players[q].component.respawnAllowed ==> !c.respawnAllowed)
  {
  }

  /** A lost respawn right is lost for good, and the king flags never change,
      over any sequence of events. */
  lemma {:induction false} RunKeepsLockoutAndKings(w: World, events: seq<Event>, q: PlayerId)
    requires q in w.players
    ensures q in Run(w, events).players
    ensures var c := Run(w, events).players[q].component;
      && c.isKing == w.players[q].component.isKing
      && (!w.players[q].component.respawnAllowed ==> !c.respawnAllowed)
    decreases |events|
  {
    if events != [] {
      HandleKeepsLockoutAndKings(w, events[0], q);
      RunKeepsLockoutAndKings(Handle(w, events[0]).world, events[1..], q);
    }
  }

  /* ---------------------------------------------------------------------- */
  /* Friendly fire                                                           */
  /* ---------------------------------------------------------------------- */

  /** The attack decision between two players does not depend on who strikes. */
  lemma AttackIsSymmetric(w: World, a: PlayerId, b: PlayerId)
    ensures OnAttack(w, a, PlayerTarget(b)) == OnAttack(w, b, PlayerTarget(a))
  {
  }

  /** A player on no team is never protected and never held back. */
  lemma UnteamedNeverBlocked(w: World, a: PlayerId, b: PlayerId)
    requires TeamOf(w, a) == None
    ensures OnAttack(w, a, PlayerTarget(b)) == Pass
    ensures OnAttack(w, b, PlayerTarget(a)) == Pass
  {
  }

  /** Members of one kingdom team cannot hurt each other, and attacks on
      anything that is not a player always go through. */
  lemma TeammatesBlocked(w: World, a: PlayerId, b: PlayerId, k: Kingdom)
    requires a in Roster(w.teams, k.Team()) && b in Roster(w.teams, k.Team())
    ensures OnAttack(w, a, PlayerTarget(b)) == Fail
    ensures OnAttack(w, a, OtherEntity) == Pass
  {
  }

  /** The attack decision reads only the scoreboard: components, positions and
      modes play no part. */
  lemma AttackReadsOnlyScoreboard(w: World, w': World, a: PlayerId, t: Target)
    requires w.teams == w'.teams
    ensures OnAttack(w, a, t) == OnAttack(w', a, t)
  {
  }
}
