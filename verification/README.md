# Kingdoms: membership and respawn-eligibility model

A Dafny model of the rules of the kingdoms mod for a voxel sandbox game server.
Players join one of two kingdoms, Thesium or Krul'ath. Each player carries a team component
holding a kingdom id (0 none, 1 Thesium, 2 Krul'ath), a king flag and a respawn flag. Each
kingdom has a scoreboard team whose roster is capped at 50 names.

The mod reacts to five engine events, and each is modelled as a pure function over a `World`
value. A `World` holds every known player's state, the set of online players, and the
scoreboard's map from player name to team. Each handler returns the new world together with
the packets and messages it emits, reduced to tags:

- **join:** request the selection screen when the player has no kingdom;
- **kingdom selection:** one transition, parameterised by kingdom, covering both selection packets;
- **respawn copy:** a player who has lost respawn rights becomes a spectator;
- **after respawn:** a king's respawn takes respawn rights from every online member of the kingdom;
- **attack:** an attack between two players on the same scoreboard team is cancelled.

Files:

- `state.dfy` (module `KingdomState`): constants, the component, player and world records, rosters.
- `handlers.dfy` (module `KingdomHandlers`): the five handlers.
- `properties.dfy` (module `KingdomProperties`): the capacity bound over any run of events,
  permanence of a respawn lockout, confinement and idempotence of a king's fall, the
  consequences of recording the kingdom before the capacity check, and the friendly-fire lemmas.

The model follows the code as written, including these behaviours:

- Selection writes the chosen kingdom id into the component *before* the capacity check. A player
  not already on a full team who is turned away by it therefore keeps that kingdom's id but is not
  on its roster. Because the join prompt depends on the component, such a player is never prompted again
  (`SelectionEndsPrompt`). Friendly fire reads the scoreboard, so that player is not protected
  from the kingdom's members (`RejectedPlayerIsUnprotected`). Nothing resets the rejected
  player's component to NO_KINGDOM.
- Friendly fire compares scoreboard teams, not component kingdoms. Any shared team blocks an
  attack, including a team that is not a kingdom team.
- A king's fall revokes respawn rights only for players who are online at that moment. An
  offline member of the kingdom keeps the right.
- A player who already has a kingdom may select again, and nothing checks this. Selecting a full
  kingdom from another kingdom's team writes the new id into the component while the name stays on
  the old team. The old team's members still cannot hit them. The player keeps their respawn right
  when the king of the team they play on falls, and loses it instead when the king of the kingdom
  whose id they carry falls (`ReselectionIntoFullKingdomSplitsState`). A member of a full team who
  selects that same team again is turned away too, but stays on the team.
- The roster is the live scoreboard team. Players who leave the server stay on it, so they
  still count towards the cap.
- The fall broadcast names "Thesium" for kingdom id 1 and "Krul'ath" for every other id,
  including 0 (`FallenName`).
- Nothing in Kingdoms.java ties the king flag to a kingdom id. If a king with kingdom id 0 falls,
  every online player without a kingdom loses respawn rights, because the match is on the
  component id alone (`KinglessFallLocksUnaffiliated`).

Putting a name on a team takes it off any team it was on before. The model assumes this of the
engine's scoreboard, and it is why the scoreboard is a map from name to team.

## Model

| member | source | states |
|---|---|---|
| KingdomHandlers.OnJoin | src/main/java/net/pixeldreamstudios/kingdoms/Kingdoms.java:46-51 | The selection prompt is sent to the joining player exactly when their component kingdom is NO_KINGDOM, nothing at all is emitted otherwise, and the world is left unchanged |
| KingdomHandlers.SelectKingdom | src/main/java/net/pixeldreamstudios/kingdoms/Kingdoms.java:54-102 | The component kingdom becomes the chosen one even when the team is full. With room, the player is on the kingdom's team, no one else's team changes, spawn and position are the kingdom's home, and a joined message is sent. Without room, the scoreboard, spawn and position are unchanged and only a team-full message is sent. Other players are untouched |
| KingdomHandlers.OnRespawnCopy | src/main/java/net/pixeldreamstudios/kingdoms/Kingdoms.java:105-114 | A player without respawn rights ends in Spectator and is told so. A player with the right keeps their mode and nothing is emitted. No component, position or other player changes |
| KingdomHandlers.FallenName | src/main/java/net/pixeldreamstudios/kingdoms/Kingdoms.java:135-138 | The broadcast names Thesium exactly for id 1 and Krul'ath otherwise, the no-kingdom id included |
| KingdomHandlers.OnAfterRespawn | src/main/java/net/pixeldreamstudios/kingdoms/Kingdoms.java:117-142 | For a king: they end in Spectator, every online player of the king's component kingdom loses respawn rights and nothing else in their component, all other components are unchanged, and a private notice plus a fall broadcast are emitted. For a non-king the world is unchanged and nothing is emitted |
| KingdomHandlers.SameTeam | src/main/java/net/pixeldreamstudios/kingdoms/Kingdoms.java:157-159 | Two players are teammates exactly when both names are on the scoreboard and on the same team |
| KingdomHandlers.OnAttack | src/main/java/net/pixeldreamstudios/kingdoms/Kingdoms.java:145-155 | An attack fails exactly when the target is a player and attacker and target are on the same scoreboard team, and passes otherwise |
| KingdomProperties.RosterAfterAssign | src/main/java/net/pixeldreamstudios/kingdoms/Kingdoms.java:68 | Adding a name to a team adds it to that roster and removes it from every other roster, so a roster grows by at most one |
| KingdomProperties.SelectionRespectsCapacity | src/main/java/net/pixeldreamstudios/kingdoms/Kingdoms.java:67-68 | After a selection every roster is either no larger than before, or is the chosen kingdom's roster and holds at most 50 names |
| KingdomProperties.SelectionKeepsRostersBounded | src/main/java/net/pixeldreamstudios/kingdoms/Kingdoms.java:92-93 | If both kingdom rosters hold at most 50 names before a selection, they still do after it |
| KingdomProperties.LastSeatIsTaken | src/main/java/net/pixeldreamstudios/kingdoms/Kingdoms.java:67-71 | With 49 names on the roster, a new player is accepted, the roster reaches exactly 50, and the player's spawn and position are the kingdom's home |
| KingdomProperties.FullTeamRejects | src/main/java/net/pixeldreamstudios/kingdoms/Kingdoms.java:92-100 | With 50 or more names on the roster, the player gets only a team-full message, the scoreboard and position are unchanged, and the component still records the kingdom |
| KingdomProperties.DefaultPlayerIsPromptedAndRespawns | src/main/java/net/pixeldreamstudios/kingdoms/Kingdoms.java:46-142 | A player holding the default component (no kingdom, not king, respawn allowed) is sent the selection prompt on joining, and a respawn changes nothing and emits nothing |
| KingdomProperties.SelectionEndsPrompt | src/main/java/net/pixeldreamstudios/kingdoms/Kingdoms.java:47-56 | After any selection, accepted or not, joining again emits no prompt |
| KingdomProperties.RejectedPlayerIsUnprotected | src/main/java/net/pixeldreamstudios/kingdoms/Kingdoms.java:56-75 | A player not already on a full team who is turned away by it carries the kingdom's id, yet attacks between them and the kingdom's members pass in both directions |
| KingdomProperties.Respawn | src/main/java/net/pixeldreamstudios/kingdoms/Kingdoms.java:105-142 | A respawn runs the copy listener and then the after-respawn listener. A locked-out player's first message is the respawn denial. A king who still had the right gets only the king notice and the fall broadcast. Any king's last two outputs are the king notice followed by the broadcast |
| KingdomProperties.ReselectionIntoFullKingdomSplitsState | src/main/java/net/pixeldreamstudios/kingdoms/Kingdoms.java:79-100 | A member of one kingdom's team who selects the other, full kingdom takes its id but stays on the old team. The old king's fall leaves their respawn right unchanged, and old teammates are still blocked from hitting them. The fall of the king of the kingdom whose id they now carry does take their respawn right |
| KingdomProperties.RespawnEndsSpectating | src/main/java/net/pixeldreamstudios/kingdoms/Kingdoms.java:105-124 | Across both respawn handlers the player ends in Spectator exactly when they were king, had lost respawn rights, or were already spectating |
| KingdomProperties.NonKingRespawnRevokesNothing | src/main/java/net/pixeldreamstudios/kingdoms/Kingdoms.java:118-121 | A non-king's respawn changes no component and no other player's mode. When the non-king still has respawn rights, the world is unchanged |
| KingdomProperties.FallenKingdomCannotRespawn | src/main/java/net/pixeldreamstudios/kingdoms/Kingdoms.java:106-132 | After a king falls, every online player of the king's kingdom who respawns is put into Spectator and told they cannot respawn |
| KingdomProperties.FallConfinedToKingdom | src/main/java/net/pixeldreamstudios/kingdoms/Kingdoms.java:127-132 | A king's fall leaves a player of another kingdom entirely unchanged, and that player's next respawn is decided exactly as before |
| KingdomProperties.KinglessFallLocksUnaffiliated | src/main/java/net/pixeldreamstudios/kingdoms/Kingdoms.java:127-136 | When a king with kingdom id 0 falls, whether or not they still had the right themselves, every online player without a kingdom loses respawn rights, and the broadcast names Krul'ath |
| KingdomProperties.Handle | src/main/java/net/pixeldreamstudios/kingdoms/Kingdoms.java:45-142 | An event dispatches to its handler. An event for a player who is not online and known is ignored: the world is unchanged and nothing is emitted |
| KingdomProperties.FallIsIdempotent | src/main/java/net/pixeldreamstudios/kingdoms/Kingdoms.java:121-132 | Handling the same king's respawn a second time leaves the world as the first time left it |
| KingdomProperties.HandleKeepsRostersBounded | src/main/java/net/pixeldreamstudios/kingdoms/Kingdoms.java:67-68 | No single event takes a kingdom roster above 50 names |
| KingdomProperties.RunKeepsRostersBounded | src/main/java/net/pixeldreamstudios/kingdoms/Kingdoms.java:32 | After any sequence of join, selection and respawn events, both kingdom rosters still hold at most 50 names |
| KingdomProperties.HandleKeepsLockoutAndKings | src/main/java/net/pixeldreamstudios/kingdoms/Kingdoms.java:130 | No event restores a lost respawn right or changes a king flag |
| KingdomProperties.RunKeepsLockoutAndKings | src/main/java/net/pixeldreamstudios/kingdoms/Kingdoms.java:105-142 | Over any sequence of events a known player stays known, keeps their king flag, and never regains a lost respawn right |
| KingdomProperties.AttackIsSymmetric | src/main/java/net/pixeldreamstudios/kingdoms/Kingdoms.java:157-158 | The decision when player a attacks player b equals the decision when b attacks a |
| KingdomProperties.UnteamedNeverBlocked | src/main/java/net/pixeldreamstudios/kingdoms/Kingdoms.java:158 | A player on no team is never protected and never blocked |
| KingdomProperties.TeammatesBlocked | src/main/java/net/pixeldreamstudios/kingdoms/Kingdoms.java:146-153 | Two members of a kingdom team cannot attack each other, and attacks on non-player entities always pass |
| KingdomProperties.AttackReadsOnlyScoreboard | src/main/java/net/pixeldreamstudios/kingdoms/Kingdoms.java:158 | Two worlds with the same scoreboard give the same attack decision, whatever their components |

## Left out

- Packet transport and thread hand-off (`ServerPlayNetworking`, `server.execute`). Each handler runs as one atomic step, and the emitted packet is the `SelectionPrompt` tag.
- Message text, styling and the one-tick delay of the "joined" message (`TickTask`). Only a tag records that a message was emitted.
- Scoreboard team creation, display names and colours (Kingdoms.java:61-65, 86-90). Both kingdom teams are treated as always existing.
- Command handling and the team component's storage are not part of this model. How kings are appointed and how respawn rights are reset are therefore not modelled. Components start with the default: no kingdom, not king, respawn allowed.
- Logger output, mod initialisation and event registration.
- The engine's bookkeeping of who is online, who connects and who disconnects. The online set is an input that no handler changes.
- The order of the two respawn listeners is taken from the engine: the copy listener (Kingdoms.java:106-114) runs before the after-respawn listener (Kingdoms.java:118-142). `Respawn` fixes this order, and the outputs stated by `RespawnEndsSpectating`, `NonKingRespawnRevokesNothing` and `DefaultPlayerIsPromptedAndRespawns` depend on it. In the other order, a king would also receive the respawn denial.
- What the engine itself does on respawn: moving the player to their spawn point, and copying the component from the old player entity to the new one. One player id stands for both entities.
- The `alive` flag that both respawn events receive. The source ignores it, so the model has no such flag. As a consequence, every respawn the engine performs is treated alike, including one where the old player is still alive: a king who respawns without dying also triggers the fall.
- The dimension and the angle, forced and message arguments of `setRespawnPosition`. Spawn and position are integer block coordinates.
- Attacks are not part of the event runs in `KingdomProperties.Run`, because the attack decision changes no state.
