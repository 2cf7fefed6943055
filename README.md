# Vibeathon session core in Dafny

This project models the core of vibeathon, a two-player cooperative browser
game. A Reader reads a ticket (a question) at the board. Both players carry
typed blocks from the shelves to the compiler desk until every requirement
slot of the ticket is collected. The Compiler then submits an answer. The
model covers these parts:

- the `Game` session controller (`vibeathon/src/game.js`): its score, combo,
  active ticket, chaos modifier, wrong-block penalty, submission deadline,
  players, stations and ground blocks;
- the interaction resolver that moves a block between a hand, the ground
  list and the bin;
- the per-frame update with its three deadlines;
- the player's movement with axis-separated collision resolution
  (`vibeathon/src/entities.js`);
- the constants of `vibeathon/src/data.js`.

Modules, in dependency order:

- `Wrappers`: `Option`.
- `Geometry`: rectangles, the strict overlap test `Intersects` shared by
  `Entity.collidesWith` (entities.js:15-22), `Player.rectIntersect`
  (entities.js:120-127) and `Game.rectIntersect` (game.js:281-288), and growing
  a rectangle.
- `Catalog`: block kinds, chaos events, the question catalogue reduced to id,
  answer, required kinds and time budget, and the map and timing constants.
- `Tickets`: the ticket value and the pure searches over it (`findIndex` for
  the lowest open slot, `every` for readiness), with lemmas about offering
  blocks one after another.
- `Entities`: `Block`, `Station` and `Player` as classes, because the source
  updates them in place and compares them by identity. Movement is specified
  by the functions `Steer` (entities.js:40-75), `Resolve` (entities.js:78-87),
  `Turn` (entities.js:91-97) and `Move`, their composition. `Player.Intent`,
  `Player.Face`, `Player.CheckCollision` and `Player.Update` are the imperative
  steps of `Player.update`, each proved against those functions.
- `Session`: the `Game` class. `Valid()` is the invariant every operation
  keeps: combo at least 1, a ticket's collected array never longer than its
  requirement list, no player or station listed twice, and exclusive block
  ownership. `PlayersClear()` is the invariant that every player lies inside
  the map and overlaps no station. `Snap()` is the tuple of the session's own
  fields, used to say what an operation leaves unchanged. The frame's three
  deadlines are the predicates `Expired` (the ticket's time left, game.js:519-542),
  `PenaltyDue` (the wrong-block penalty, game.js:549-563) and `DeadlineDue`
  (the submission deadline, game.js:571-585).
- `Restart`: the two restart scenarios behind the finding below.

Time is an integer `now` in milliseconds, passed as a parameter, plus the
frame time `dt`, also a whole number of milliseconds (see "Left out"). Random draws (`spawnTicket`'s question, `triggerChaos`'s
event) are an index parameter that must be in range. Keyboard state is the
set of key codes currently held. Positions are real numbers, so 0.707 and 0.5
are exact.

A ticket's collected-slot array does not start with one entry per
requirement. `spawnTicket` creates it empty (`collectedBlocks: []`,
game.js:126), and `tryInsertBlock` writes `true` at an index (game.js:253),
which in JavaScript may extend the array with holes. `Tickets.Mark` models
that extension, and `Tickets.Filled` reads an index past the end as "not
collected". The invariant kept is that the array is never longer than the
requirement list.

The outcome of one player's action is stated against a `Scene`, a value
record of what the session and that player looked like before the action:
the session's fields, the held block and its position and flag, the station
in reach and the first overlapping ground block. `Session.ViewAfter`,
`Session.HandAfter` and `Session.HeldAfter` give, for each branch of
`handlePlayerAction`, the new session fields, the new hand and where the
block that was held ends up, and `Session.Game.Acted` holds exactly when the
live state matches them.

## Model

| member | source | states |
|---|---|---|
| `Geometry.IntersectsSymmetric` | vibeathon/src/entities.js:15-22 | the overlap test gives the same answer with its arguments swapped |
| `Geometry.TouchingDoNotIntersect` | vibeathon/src/entities.js:120-127 | rectangles that only share an edge do not intersect, because all four comparisons are strict |
| `Geometry.Grow` | vibeathon/src/game.js:270-276 | the grown rectangle reaches exactly `d` beyond the original on the far sides |
| `Geometry.GrowKeepsOverlap` | vibeathon/src/game.js:268-279 | growing the player's rectangle by a non-negative buffer never loses an overlap |
| `Catalog.QuestionsWellFormed` | vibeathon/src/data.js:17-138 | every question of the catalogue requires at least one block and allows at least 60 seconds |
| `Tickets.Spawn` | vibeathon/src/game.js:120-130 | a new ticket keeps its question and expires `time * 1000` ms after `now`; no slot is collected; a kind is insertable exactly when the question lists it |
| `Tickets.FirstOpenFrom` | vibeathon/src/game.js:248-250 | the result is -1 or an open slot of the kind at or after `from`; no earlier slot in that range is open; -1 means none is |
| `Tickets.FirstOpen` | vibeathon/src/game.js:248-250 | the lowest open slot of the kind; -1 exactly when the kind is not insertable |
| `Tickets.Mark` | vibeathon/src/game.js:253 | after marking, slot `i` and every slot collected before read as collected, and nothing else does; holes are added when `i` is past the end |
| `Tickets.Collect` | vibeathon/src/game.js:235-266 | an insertable kind fills exactly its lowest open slot; a kind that is not insertable leaves the ticket as it was; no slot goes back from collected; question and expiry are kept; the size invariant is kept |
| `Tickets.ReadyTakesNothing` | vibeathon/src/game.js:248-250 | a ticket with every slot collected takes no further block |
| `Tickets.CollectAll` | vibeathon/src/game.js:235-266 | a series of offers keeps the ticket's question and expiry |
| `Tickets.CollectPrefixFillsPrefix` | vibeathon/src/game.js:248-253 | offering the first n requirements of a fresh ticket in order fills exactly slots 0 to n-1 |
| `Tickets.CollectRequirementsIsReady` | vibeathon/src/game.js:258 | offering exactly the requirement list in order makes a fresh ticket ready |
| `Entities.Block.constructor` | vibeathon/src/entities.js:130-137 | a new block has the given kind and position, is 32 by 32 and is not flagged wrong |
| `Entities.Station.constructor` | vibeathon/src/entities.js:139-146 | a station has the given kind and rectangle and is not highlighted |
| `Entities.Station.KnowledgeShelf` | vibeathon/src/entities.js:148-154 | a shelf is bound to its block kind and is one tile in size |
| `Entities.Player.constructor` | vibeathon/src/entities.js:26-37 | a new player is 40 by 40 with speed 4, faces down and holds nothing |
| `Entities.Player.CheckCollision` | vibeathon/src/entities.js:106-118 | true exactly when the player's rectangle at (x, y) leaves the map or overlaps some solid |
| `Entities.Player.Intent` | vibeathon/src/entities.js:40-75 | the key-by-key accumulation, the SLOW halving and the diagonal scaling give exactly the velocity `Steer` specifies |
| `Entities.Player.Face` | vibeathon/src/entities.js:91-97 | the four rules in order give exactly the facing `Turn` specifies |
| `Entities.Player.Update` | vibeathon/src/entities.js:39-104 | the new position and facing are `Move` of the old ones; a held block ends at (x + 4, y - 10) of its holder |
| `Entities.ReversedLeftMovesRight` | vibeathon/src/entities.js:49-54 | under REVERSE, holding only the LEFT key moves the player right at full speed |
| `Entities.SlowHalvesVelocity` | vibeathon/src/entities.js:63-66 | under SLOW both components are exactly half of those the same keys give without chaos |
| `Entities.VelocityMagnitudes` | vibeathon/src/entities.js:57-75 | each moving component is worth the speed (halved under SLOW), further scaled by 0.707 when both axes move |
| `Entities.NoKeysNoMove` | vibeathon/src/entities.js:39-97 | with no key held the position and facing are unchanged |
| `Entities.ResolveStaysInside` | vibeathon/src/entities.js:78-87 | a player inside the map before a frame is inside it after |
| `Entities.ResolveStaysClear` | vibeathon/src/entities.js:78-87 | a player overlapping no solid before a frame overlaps none after |
| `Entities.ResolveAxisWise` | vibeathon/src/entities.js:78-87 | each axis moves by its full component or not at all, and a kept move is never blocked |
| `Entities.BlockedXLeavesYFree` | vibeathon/src/entities.js:78-87 | a blocked X move does not stop a free Y move: the player slides along the wall |
| `Entities.TurnFollowsDisplacement` | vibeathon/src/entities.js:91-97 | the last matching rule of down, left, up, right wins; with no displacement the facing is kept |
| `Session.NearestStation` | vibeathon/src/game.js:268-279 | the first station in list order that the player's rectangle grown by 15 touches, or -1 when none does |
| `Session.FirstOverlapping` | vibeathon/src/game.js:290-292 | the first ground block in list order that the player overlaps, or -1 when none does |
| `Session.Without` | vibeathon/src/game.js:230 | filtering a block out never lengthens the ground list |
| `Session.WithoutMembers` | vibeathon/src/game.js:230 | the filtered list holds every block of the original except the one removed, and nothing else |
| `Session.WithoutAbsent` | vibeathon/src/game.js:230 | filtering out a block that is not listed changes nothing |
| `Session.WithoutAt` | vibeathon/src/game.js:226-231 | in a list without repetitions, filtering out the block at index `i` removes exactly that entry and keeps the order |
| `Session.WithoutDistinct` | vibeathon/src/game.js:230 | filtering keeps a list without repetitions |
| `Session.Arm` | vibeathon/src/game.js:258-262 | an armed deadline is never re-armed; a deadline is set only for a ready ticket, to `now + 15000` |
| `Session.SpeedDoublesTicketTime` | vibeathon/src/game.js:529-535 | under SPEED, frames lasting T in all leave the ticket expired exactly when the unaccelerated ticket would be after 2T (the "2x time" of data.js:142), its expiry pulled in by T; under any other modifier the ticket is untouched |
| `Session.StartPositionsClear` | vibeathon/src/game.js:98-118 | both players of a fresh level start inside the map and clear of every station |
| `Session.MoveKeepsUnblocked` | vibeathon/src/entities.js:78-87 | a frame's movement keeps a player that was clear of the map edges and the stations clear |
| `Session.BuildStations` | vibeathon/src/game.js:105-115 | seven fresh, distinct stations: board, desk, bin and the four shelves, with the source's rectangles |
| `Session.Game.constructor` | vibeathon/src/game.js:2-44 | the session starts in the menu with score 0, combo 1, no ticket, modifier, penalty or deadline, and a fresh level |
| `Session.Game.SetupLevel` | vibeathon/src/game.js:98-118 | two fresh players (Reader at (100, 100), Compiler at (200, 100)), the seven stations and an empty ground list, with the invariants established |
| `Session.Game.SpawnTicket` | vibeathon/src/game.js:120-130 | the ticket becomes `Spawn` of the drawn question at `now`, and the submission deadline is disarmed |
| `Session.Game.StartGame` | vibeathon/src/game.js:76-96 | playing, with score 0, combo 1, a fresh level and a new ticket; the penalty, the chaos modifier and the view flags are left as they were |
| `Session.Game.StartFreshGame` | vibeathon/src/game.js:76-96 | as `StartGame` (playing, score 0, combo 1, a fresh level, a new ticket, the chaos end time and both view flags kept), and no penalty, deadline or chaos modifier survives |
| `Session.Game.GameOver` | vibeathon/src/game.js:676-699 | the session is over and both interaction views are closed |
| `Session.Game.TriggerChaos` | vibeathon/src/game.js:631-649 | an active modifier is kept as it is; otherwise the drawn event becomes active until `now` plus its duration |
| `Session.Game.EndChaos` | vibeathon/src/game.js:651-655 | no modifier is active |
| `Session.Game.StartWrongBlockPenalty` | vibeathon/src/game.js:657-670 | a pending penalty is kept; otherwise the penalty is armed for the block at `now + 10000` |
| `Session.Game.ClearWrongBlockPenalty` | vibeathon/src/game.js:672-674 | no penalty is armed |
| `Session.Game.OpenReaderModal` | vibeathon/src/game.js:294-296 | the ticket view opens exactly when there is a ticket |
| `Session.Game.OpenCompilerModal` | vibeathon/src/game.js:323-335 | the submission view opens exactly when there is a ticket and every slot is collected |
| `Session.Game.TryInsertBlock` | vibeathon/src/game.js:235-266 | an insertable block is consumed, its slot marked and the deadline armed as `Arm` says; otherwise nothing changes and the block stays held; an armed deadline is never re-armed |
| `Session.Game.DestroyHeld` | vibeathon/src/game.js:178-184 | the held block leaves play; a block flagged wrong clears the penalty, whichever block armed it; nothing else changes |
| `Session.Game.PutDown` | vibeathon/src/game.js:187-190 | the held block takes the given position and joins the end of the ground list; the hand is empty; nothing else changes |
| `Session.Game.TakeNew` | vibeathon/src/game.js:213-216 | the hand holds a new, unflagged block of the shelf's kind at the player's position |
| `Session.Game.PickUp` | vibeathon/src/game.js:226-231 | the hand takes the ground block, which is filtered out of the ground list, and ownership stays exclusive |
| `Session.Game.DropAtFeet` | vibeathon/src/game.js:192-207 | the block lands at (x, y + h) at the end of the ground list; a kind the ticket does not list, or any kind with no ticket, is flagged and arms the penalty unless one is pending |
| `Session.Game.DropAtStation` | vibeathon/src/game.js:171-191 | at the desk: the insertion attempt; at the bin: the block is destroyed; at any other station: it is put down at the station's corner plus 10 |
| `Session.Game.DropHeld` | vibeathon/src/game.js:168-207 | a player holding a block acts as `Acted` says: by the station in reach, the insertion attempt at the desk, destruction at the bin, putting down at another station, or a drop at the feet |
| `Session.Game.UseStation` | vibeathon/src/game.js:211-223 | a shelf hands out a new block; the board acts only for the Reader, the desk only for the Compiler with a ready ticket; nothing else changes |
| `Session.Game.TakeOrUse` | vibeathon/src/game.js:208-232 | an empty-handed player acts as `Acted` says: a station in reach is used and no ground block is taken; with none, the first overlapping ground block is picked up, or nothing happens; a shelf hands out a fresh block |
| `Session.Game.HandlePlayerAction` | vibeathon/src/game.js:166-233 | the player acts as `Acted` says over all nine outcomes of the branch table; every other player keeps its hand and its held block unchanged; the state, score, combo, modifier and lists are kept, and the session invariant holds |
| `Session.Game.CheckInteraction` | vibeathon/src/game.js:155-164 | while playing, the player whose action key is the released key acts as `Acted` says; every other player keeps its hand, and the block in it keeps its position and its wrong mark; outside play, or when no player's action key matches, nothing changes, held blocks included; no player moves; score, combo and chaos are kept; the invariants hold |
| `Session.Game.ActOnKey` | vibeathon/src/game.js:158-163 | the loop over the players: the one whose action key is the code acts as `Acted` says, every other player keeps its hand and its held block unchanged, and when no key matches the session is unchanged; the state, score, combo, chaos and lists are kept |
| `Session.Game.ActAt` | vibeathon/src/game.js:160-162 | the player at the given index acts as `Acted` says and every other player keeps its hand and its held block unchanged |
| `Session.Game.SubmitAnswer` | vibeathon/src/game.js:404-444 | the deadline is cleared and both views close; a timeout or a wrong answer costs 20 and resets the combo to 1; a correct answer earns 100 times the combo and raises it, so the combo stays at least 1 |
| `Session.Game.MoveOne` | vibeathon/src/game.js:596 | one player moves as `Move` says against the map and the stations, its held block follows, the other players and their blocks stay put, and every player stays clear |
| `Session.Game.MovePlayers` | vibeathon/src/game.js:593-596 | every player ends where `Move` takes it from its own starting pose, every held block ends beside its holder, and every player stays clear |
| `Session.Game.ClearHighlights` | vibeathon/src/game.js:606-609 | no station is highlighted |
| `Session.Game.LightReach` | vibeathon/src/game.js:612-615 | the station within reach of the player is lit and its index returned; every other station's highlight is kept |
| `Session.Game.RefreshHighlights` | vibeathon/src/game.js:606-618 | a station is highlighted exactly when it is the station within reach of some player |
| `Session.Game.CheckTimers` | vibeathon/src/game.js:516-590 | SPEED pulls the ticket's expiry in; an expired ticket, penalty or submission deadline ends the session and closes the views; only the last two halt the frame |
| `Session.Game.Advance` | vibeathon/src/game.js:593-628 | movement under the modifier active at the start of the frame with every held block beside its holder, the modifier ending exactly when `now` is past its end time, the highlights, and the ticket view closed |
| `Session.Game.Update` | vibeathon/src/game.js:514-628 | the whole frame: which deadlines end the session, that a halted frame moves nothing, held blocks included, and otherwise the movement with the held blocks beside their holders, the end of chaos and the highlights; the ticket view is closed at the end of every frame; score, combo, penalty, deadline, lists and hands are kept |
| `Session.ViewAfter` | vibeathon/src/game.js:166-233 | each branch of the action table changes only the ground list, the ticket, the deadline, the penalty and the two view flags, never the state, score, combo, modifier, players or stations |
| `Session.KeyHolder` | vibeathon/src/game.js:157-162 | the first player whose action key is the code, or -1 when none has it |
| `Session.FirstWithRole` | vibeathon/src/game.js:623 | the first player of the role, or -1 when there is none |
| `Session.FirstOfKind` | vibeathon/src/game.js:624 | the first station of the kind, or -1 when there is none |
| `Session.Game.FreshLevelKeysDistinct` | vibeathon/src/game.js:100-101 | the two players of a fresh level have different action keys |
| `Session.Game.CloseReaderView` | vibeathon/src/game.js:620-628 | an open ticket view stays open exactly when the Reader overlaps the board, and so always closes while the Reader is clear of the stations |
| `Session.Game.ReaderNeverOverlapsBoard` | vibeathon/src/game.js:593-625 | a Reader clear of every station never overlaps the board, because the board is one of the solids |
| `Session.Game.CloseReaderViewWhenAway` | vibeathon/src/game.js:620-628 | an open ticket view stays open exactly while the board is within the Reader's interaction reach, so it stays open while the board is the station in reach |
| `Session.Game.SettleFrame` | vibeathon/src/game.js:599-618 | the modifier ends exactly when `now` is past its end time, and a station is highlighted exactly when it is within reach of some player |
| `Session.Game.EndFrame` | vibeathon/src/game.js:599-628 | as `SettleFrame`, and the ticket view ends closed |
| `Restart.PenaltyLossOutlivesRestart` | vibeathon/src/game.js:76-96 | after a restart with `StartGame`, an expired penalty ends the new session on its first frame |
| `Restart.FreshRestartPlays` | vibeathon/src/game.js:76-96 | after `StartFreshGame`, a frame before the new ticket's time is up keeps the session playing |

## Left out

- DOM and HUD work is presentational and is not modelled: `updateTicketUI`, `updateHUD`, `updateTutorialText`, `showNotification`, `draw`, the renderer, the modal contents, the prompts (`highlightPrompt`), colours and labels. Only whether each interaction view is open is kept, as a boolean.
- Session.Game.CloseReaderView: requires a Reader and a board while the ticket view is open, because the source dereferences both and would throw without them; every level built by `setupLevel` has both.
- Event listeners, the animation-frame loop, background music and the clocks are outside the model. `now` and `dt` are parameters. A restart is a call to `StartGame`, and a frame is a call to `Update`.
- Session.Accelerated: the frame time `dt` is a whole number of milliseconds and a ticket's `expiresAt` stays an integer. In the source, `dt` is a difference of animation-frame timestamps (game.js:505), which are fractional milliseconds. Under SPEED, `expiresAt -= dt` (game.js:533) then makes the expiry fractional. The model does not capture a fractional expiry, or a SPEED frame whose expiry lands between two whole milliseconds.
- Session.SpeedDoublesTicketTime: states SPEED's doubling for runs of whole-millisecond frames only, for the same reason.
- Session.Game.CheckTimers: takes `dt` and compares `expiresAt` with `now` in whole milliseconds, for the same reason. `Date.now()` is an integer in the source, so only the fractional expiry is lost.
- Session.Game.Update: takes the frame time in whole milliseconds, as `CheckTimers` does.
- Timers are not modelled. `submitAnswer` schedules `spawnTicket` 1500 ms later; here that is a separate call to `SpawnTicket`. In that window the old ticket stays active and ready, so `SubmitAnswer` can be called again, as in the source.
- The compiler view's 15-second countdown, its automatic wrong submission, and its race with the submission-deadline check are not modelled. The timeout is `SubmitAnswer(None)`, called explicitly.
- `Math.random` is not modelled. The question and the chaos event are index parameters.
- The questions' text and options, the block types' colours and labels, and the unused fields `dashCooldown`, `isInteracting`, `markedForDeletion` and `isPickedUp` are not modelled. The INTERN role and more than two players are not configured by the level, and neither is modelled.
- Floating point is replaced by exact real arithmetic, so 0.707 and 0.5 are exact. Rounding of positions is not modelled.
- Session.Game.SubmitAnswer: requires a ticket, because the source reads the active ticket's answer and would throw without one.

## Findings

| source | as written | input that shows it | evidently intended | confidence | as-written member | corrected member |
|---|---|---|---|---|---|---|
| vibeathon/src/game.js:76-96 | `startGame` resets the score, combo, level and ticket, but never clears `wrongBlockPenalty` | A session ends because a wrong-block penalty expired at time t. The players restart with Space at any time `now >= t`. The first `update` of the new session finds the old penalty past its time and ends the game again. | a restart clears the penalty, so the new session plays until its ticket runs out | not executed | `Restart.PenaltyLossOutlivesRestart` | `Session.Game.StartFreshGame` (property: `Restart.FreshRestartPlays`) |
| vibeathon/src/game.js:620-628 | the ticket view closes unless `p1.collidesWith(board)`, a strict overlap test | The Reader presses E at the board, which opens the view; the next frame's close check finds the Reader outside the board's rectangle, because movement never lets a player overlap a station, and closes it | the view closes only once the Reader walks away from the board, within the reach used to open it | not executed | `Session.Game.CloseReaderView` (property: `Session.Game.ReaderNeverOverlapsBoard`, and `Session.Game.Update` ends every frame with the view closed) | `Session.Game.CloseReaderViewWhenAway` |
