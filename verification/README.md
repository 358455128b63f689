# tailsnail: a verified model

tailsnail is a multiplayer snake game played over a private network. One player hosts a lobby, runs the
authoritative simulation for everybody in it, and turns every finished match into a record that its players sign;
peers keep such records and gossip them to each other. This project models that in Dafny and proves what each part
is relied on for. It covers `internal/game`, `internal/netplay/host.go`, `internal/proto/match.go`,
`internal/store`, `internal/gossip`, the camera of `internal/ui/game.go` and `internal/logring`.

Run `dafny verify dfyconfig.toml` to check everything.

## How it is laid out

Parts the source computes as expressions are functions; parts it updates in place are classes and loops, each proved
against a function or relation on values, about which the theorems are then proved.

- **The simulation.** `Types`, `Movement` (the simultaneous rule of a move), `Soundness` (geometry), `World` (all
  state and its transitions), `Bookkeeping` (growth, kills, deaths, places), `Runs` (every run), `Walled` (why
  matches end), `MoveClock` (which ticks are moves, and what one does, told without the functions of `Movement`),
  `KillCredit` and `SharedTail` (shared cells and who is credited on them), `DeathOrder` and `HeadToHead` (what the
  order of listing does to places), `Spawn` and `MoveLoops` (lemmas for the loops), and `Sim.dfy`: class `Sim`,
  whose sequential loops are proved to implement the simultaneous rule. The random generator is any choice at all.
- **Bots and prediction.** `FloodFill`, `Bot`, `Prediction`.
- **Records.** `Text`, `Sorting`, `Canonical` (the encoder and a reader that undoes it), `Records`, `HashedText`
  (the hashed text written out member by member), `Verdicts` (what is refused, case by case), `Names` (cleaning what
  people are called), `Attestation`, `Store` (class `MatchStore`), `Gossip`, `Convergence`, `Reconciliation` (what
  becomes of the signatures of each match), `Batches` (how many exchanges that takes), `GossipNetwork` (any number
  of peers). Signing, signature checking, key decoding, formatting of times and the digest are function values about
  which nothing is assumed; where a statement needs the digest not to collide on two results, it says so.
- **The host.** `Roster` (seats), `MatchReport` (`buildResult`), `Lobby` (the whole lobby as a value, and the
  elementary moves it makes), `Consent` (what the history says), `LobbyInvariant`, `LobbyMoves`, `LobbyRuns` (every
  move and every run keep the invariant), `Effects` and `Endings` (what each move does, told without the functions
  that define it), `Guarantees` (what follows for players), `Filing` and `LateRecords` (what becomes of a record),
  `Drops` and `Ticks` (lemmas for the class), `HostedBots`, and `Host.dfy`: class `Host`, whose methods are the
  commands. Each command is proved to be a run of moves. A client that cannot take a message loses its seat in the
  middle of whatever is being sent; which clients do is left open, so every statement holds whoever is lost and
  whenever.
- **Smaller parts.** `Camera`; `Utf8`, `Escapes` and `LogRing`; `Samples`, the small lobby and board of the lemmas
  that show that something happens.

## What the proofs found

Seven things the code's comments or one's expectations suggest are not so. The code is modelled as it is; for each
there is a lemma with an input, and one with the exact condition.

- **A late record ends the next match.** `finalizeRecord` resets the lobby whatever it is doing
  (`internal/netplay/host.go:357-359`, `internal/netplay/host.go:677-682`). A match may start while the record of
  the previous one still waits for signatures, and is thrown away when that record is closed
  (`LateRecords.ALateRecordEndsAMatch`, a run from a new lobby). `LateRecords.LateRecordIff` says when a match can
  be on before the record is due, and `Hosting.Host.Housekeeping` that a match in progress survives housekeeping if
  and only if no record is pending that all seated have signed or whose time is up. Only a match that is over is
  ever filed, so the one thrown away is not.
- **A record can be lost.** There is room for one pending record, and the next one filed takes its place
  (`internal/netplay/host.go:567`). `Filing.FiledIsHandedOverIff` says that a record reaches the store if and only
  if one is closed before that, and before the lobby shuts down; `LateRecords.ARecordIsOverwritten` is a run in
  which it does not.
- **Lowering the seat count can turn a person out.** The comment speaks of a floor under the seat count
  (`internal/netplay/host.go:894-897`), but bots are removed from the highest seat down before seats are cut from
  the highest down, so a bot can keep a lower seat while a person loses a higher one
  (`Guarantees.SettingsCanCostASeat`). `Roster.PersonKeptIff` and `Guarantees.SettingsCostASeat` give the exact
  condition; it never happens if people and bots asked for fit.
- **Equal signature counts never reconcile.** `Missing` compares counts (`internal/gossip/gossip.go:79`), so two
  copies of a record with equally many but different signatures stay different for ever
  (`Reconciliation.DuelStaysHalfSigned`). `Reconciliation.SignersAgreeIff` is the exact condition;
  `Reconciliation.Reconciled` says that every match one side lacked, or had fewer signatures of under the same hash,
  ends with all signers either knew on both sides, and that every other match, such as one held under two hashes, is
  left as it was. A third peer that has all the signers heals the others (`GossipNetwork.KnowerHeals`).
- **An empty name does not keep the old one.** New settings rename the lobby only if the cleaned name is not empty
  (`internal/netplay/host.go:904-906`), but cleaning never gives an empty name (`internal/proto/match.go:464-466`),
  so no name at all renames the lobby to anonymous (`Names.RenamedAlways`). Nor is a name clean after one cleaning:
  cutting it can leave white space at its end, and `Names.CleanAgainIff` is the exact condition.
- **Living snakes can share a cell.** A tail about to move is open to others even when its owner then eats and keeps
  it (`SharedTail.TwoCanShareACell`); `Soundness.SharedCellIsATail` is the exact condition, and bodies without their
  last cells stay disjoint always.
- **There is an ordering advantage.** The comment on a move says there is none (`internal/game/sim.go:123-124`). Who
  lives, where and how long does not depend on the order of listing (`Movement.NoOrderingAdvantage`), but two things
  do. The dead of one move are booked in seat order, and who is booked later is placed better: of two snakes that
  die in the last move the later seat wins, so a head-on between two is always won by seat 1, and the tie-break on
  length the comment on placements speaks of (`internal/game/sim.go:344-346`) never decides
  (`DeathOrder.LaterSeatPlacesBetter`, `Bookkeeping.PlacementsRankEverybody`, `HeadToHead.LongerLosesHeadOn`). Death
  order and places go by snake exactly if at most one dies in the move (`DeathOrder.DeathOrderFollowsIff`,
  `DeathOrder.PlacesFollowIff`). And a kill goes by snake exactly if nobody runs into a cell that is solid for two
  (`KillCredit.KillsFollowIff`, `SharedTail.CreditCanDependOnOrder`).

## Model

| member | source | states |
|---|---|---|
| Types.FindSnake | internal/game/types.go:220-229 | The loop finds the first snake with the id, or none if no snake has it. |
| Types.WrapUnique | internal/game/sim.go:241-254 | Folding a coordinate yields the only value inside the arena congruent to it, whatever its sign or size. |
| Types.AheadAxis | internal/game/predict.go:51-65 | One step from inside a wrapping arena stays inside it, and is the opposite edge exactly when it would leave. |
| Types.FourWays | internal/game/types.go:36-48 | Up is one row less, right one column more, down and left the reverse; at the edge of a wrapping arena the next cell is on the edge across. |
| Movement.NoOrderingAdvantage | internal/game/sim.go:123-239 | Up to the booking of deaths and kills: listing the snakes in another order permutes who lives, bodies, growth, scores and headings with them and leaves the food the same. |
| DeathOrder.DeathOrderFollowsIff | internal/game/sim.go:226-237 | A move books its dead in the same order however the snakes are listed if and only if at most one dies in it. |
| DeathOrder.PlacesFollowIff | internal/game/sim.go:344-377 | If a match ends with the move, its places go by snake in every listing if and only if at most one snake dies in it. |
| DeathOrder.LaterSeatPlacesBetter | internal/game/sim.go:226-237 | Of two snakes that die in the move a match ends with, the one in the later seat is placed better, whoever was longer; so a head-on between two is always won by the later seat. |
| DeathOrder.SwapSwapsDeaths | internal/game/sim.go:226-237 | Swapping two snakes that die in one move swaps the order they are booked in. |
| HeadToHead.LongerLosesHeadOn | internal/game/sim.go:344-377 | It does happen, in the second move of a match of two on a board the layout is taken to allow: they meet head to head, and the longer, in the lower seat, is placed second. |
| HeadToHead.SwapSwapsWinner | internal/game/sim.go:159-161 | Had the same two been listed the other way round, the other would have been placed first. |
| KillCredit.KillsFollowIff | internal/game/sim.go:131-142 | Kill credits follow the snakes too in every reordering, if and only if no living snake that leaves no wall and meets no head runs into a cell solid for two living snakes; such a cell is credited to whichever of the two is listed later. |
| KillCredit.DisputeDependsOnOrder | internal/game/sim.go:187-193 | For every such death there are two snakes whose swapping changes what one of them is credited with. |
| SharedTail.CreditCanDependOnOrder | internal/game/sim.go:131-142 | It does happen, in the second move of a match on a board that is a start because the layout may propose any heads: a third snake runs onto the cell two living ones share, and whose kill it is depends on their order. |
| Movement.DoomedAreTheDying | internal/game/sim.go:159-198 | The snakes put to death in a move are exactly the living ones whose new head leaves a walled arena, meets another new head, or hits a cell solid before the move. |
| Movement.DoomedInSeatOrder | internal/game/sim.go:226-237 | They die in seat order, which is the order they are booked in. |
| Soundness.MoveKeepsSound | internal/game/sim.go:123-239 | A move keeps every living snake in the arena, at least 3 long, without a repeated cell, a chain of unit steps modulo wrap whose neck-to-head step is its heading, bodies without tails disjoint, and the food distinct, inside and off every living body. |
| Soundness.NeverIntoNeck | internal/game/sim.go:64-79 | Whatever was asked for, the next head of a living snake is never its own neck. |
| Soundness.SteeringKeepsHeading | internal/game/sim.go:67-79 | A heading byte of any value leaves a legal queued heading: one of the four, and not a reversal. |
| Soundness.SharedCellIsATail | internal/game/sim.go:131-142 | Two survivors that shared no cell share one after the move if and only if one of them stepped onto the last cell of the other, which had no growth due and ate, and so kept it. |
| SharedTail.TwoCanShareACell | internal/game/sim.go:131-142 | It does happen, in the first move of a match on such a board: no two snakes shared a cell, one eats while another steps onto its tail, and two living snakes share that cell. |
| Soundness.SurvivorsApart | internal/game/sim.go:159-224 | Two survivors of one move are disjoint but for their tails. |
| Soundness.SurvivorHeadIsFresh | internal/game/sim.go:171-224 | A survivor moves onto a cell of the arena that its own body does not hold. |
| World.SteerKeepsInv | internal/game/sim.go:67-79 | Steering keeps both the geometry and the books. |
| World.CoastKeepsInv | internal/game/sim.go:84-92 | So does marking a snake as coasting or back. |
| Bookkeeping.PlacementsRankEverybody | internal/game/sim.go:347-377 | At the end the places are distinct and within 1..n, a survivor is first, and of two dead snakes one is placed better exactly if it is later in the death order, which a later tick implies; length and seat never decide between them. |
| Bookkeeping.EliminationKeepsLedger | internal/game/sim.go:95-103 | Eliminating a snake keeps the books: length plus growth due is 3 plus twice the score, longest length is length, the death order lists exactly the dead once each by time of death, kills never exceed deaths, and places are given exactly when the match is decided. |
| Bookkeeping.CheckingKeepsLedger | internal/game/sim.go:330-342 | Closing a decided match turns the open books into closed ones. |
| Bookkeeping.CreditsAtMostVictims | internal/game/sim.go:226-237 | However kills are credited, a move hands out no more of them than there are victims. |
| Bookkeeping.KillingTheSurvivor | internal/game/sim.go:281-288 | Eliminating the survivor of a finished match changes no comparison the ranking makes. |
| Bookkeeping.MoveKeepsLedger | internal/game/sim.go:200-239 | A whole move, with all its deaths at once, keeps the books. |
| Runs.StartedIsInv | internal/game/sim.go:23-50 | A freshly spawned match satisfies every invariant. |
| Runs.EliminationKeepsInv | internal/game/sim.go:95-103 | Elimination keeps the geometry as well as the books. |
| Runs.NextKeepsInv | internal/game/sim.go:108-121 | Every transition of a match keeps its invariants: steering, coasting, elimination, and a tick with or without a move. |
| Runs.RunKeepsInv | internal/game/sim.go:67-121 | So does every interleaving of them, at every point. |
| Runs.EveryReachableState | internal/game/sim.go:23-121 | In every state of every run from a started match, geometry and books both hold. |
| Runs.PlacesStand | internal/game/sim.go:344-377 | Once a match is over its places never change, whatever is still sent to it. |
| MoveClock.BetweenMoves | internal/game/sim.go:110-117 | On a tick that TicksPerMove does not divide, and once a match is over, a step advances the clock and changes nothing else. |
| MoveClock.SteerTakesEffect | internal/game/sim.go:63-79 | A turn asked for replaces any waiting one exactly if the snake lives, is not coasting, and the byte is one of the four headings and not the reverse of the present one; no other snake changes. |
| MoveClock.OnTheMove | internal/game/sim.go:114-174 | On every other tick the head of each survivor is one cell on, in the direction last asked for. |
| MoveClock.MovesAreCounted | internal/game/sim.go:105-121 | In every run of a match not over, whatever else is sent to it, k ticks from tick t hold exactly (t + k) / TicksPerMove - t / TicksPerMove moves. |
| MoveClock.MoveDecides | internal/game/sim.go:125-224 | Against the board alone: the dead stay as they were; of the living exactly those die, at this tick, whose new cell is outside, reached by another head, or held by a living body other than by the tail of one not growing; the rest gain the new cell in front, lose the last unless growth was due or they ate, and score one for a pellet. |
| MoveClock.KillsAreCounted | internal/game/sim.go:176-234 | A snake gains one kill for each snake that stayed inside, met no head, and ran into a cell it holds, as the last seated of those who hold it, and none for its own death. |
| MoveClock.FoodAfter | internal/game/sim.go:256-276 | A pellet goes exactly if somebody living has arrived on it; then food is back at the number configured, or every cell no living snake covers has a pellet, and it is never topped up beyond that number. |
| MoveClock.OverIff | internal/game/sim.go:330-342 | A match is over exactly when no two snakes live or, if there is only one, when that is dead. |
| Runs.CoastersNeverTurn | internal/game/sim.go:81-92 | In every run, a snake marked as coasting has no turn waiting, so it goes straight on until it is taken back. |
| Simulation.Sim.SetDirection | internal/game/sim.go:67-79 | The object steers exactly the snake named, and only if it lives, is not coasting, and the byte is a cardinal that does not reverse it. |
| Simulation.Sim.SetCoasting | internal/game/sim.go:84-92 | Coasting is set on the snake named and drops its queued input. |
| Simulation.Sim.Eliminate | internal/game/sim.go:95-103 | A living snake dies now and the match is closed if that decides it; anything else is untouched. |
| Simulation.Sim.Step | internal/game/sim.go:108-121 | One call is one tick: on a tick that TicksPerMove does not divide, or of a match that is over, the clock alone advances; on every other one the simultaneous move happens with everything it decides. |
| Simulation.Sim.Advance | internal/game/sim.go:125-239 | The loops over maps and slices produce the simultaneous outcome of the move: state, death order, and food put back. |
| Simulation.Sim.PlanMoves | internal/game/sim.go:144-157 | Turning and planning snake by snake yields each living snake's new head and how many snakes arrive at each cell. |
| Simulation.Sim.ResolveDeaths | internal/game/sim.go:159-198 | The collision loop finds exactly the doomed, in seat order, and who is owed the credit. |
| Simulation.Sim.MoveSurvivors | internal/game/sim.go:200-224 | Moving and feeding survivors one after another gives each the body it has in the simultaneous outcome, every pellet eaten at most once. |
| Simulation.Sim.BuryDoomed | internal/game/sim.go:226-237 | Burying them one after another completes the simultaneous outcome and appends them to the death order. |
| Simulation.Sim.EatAt | internal/game/sim.go:257-265 | The first pellet on the cell is removed, and reported, if there is one. |
| Simulation.Sim.FreeCell | internal/game/sim.go:293-326 | Sampling with the scan behind it finds a free cell, and reports none only if every cell is taken. |
| Simulation.Sim.ReplenishFood | internal/game/sim.go:268-276 | Food is topped up to the configured count with distinct free cells, or until the arena is full; what was there stays. |
| Simulation.Sim.Kill | internal/game/sim.go:281-288 | A death is booked once, at the present tick. |
| Simulation.Sim.CheckOver | internal/game/sim.go:330-342 | The match closes exactly when it is decided and was not closed before. |
| Simulation.Sim.AssignPlacements | internal/game/sim.go:347-377 | Sorting and numbering gives each snake one more than the number of snakes that rank ahead of it. |
| Simulation.Sim.New | internal/game/sim.go:23-50 | The only errors are an invalid configuration and no seats; up to eight distinct seats otherwise start a match in order, each snake where and as the ring layout proposes it unless that is taken, whatever heads and headings are proposed. |
| Simulation.Sim.SpawnAll | internal/game/sim.go:38-42 | Up to eight snakes are spawned pairwise disjoint, in seat order, each from the proposal of its own number and against those before it. |
| Simulation.Sim.SpawnSnake | internal/game/spawn.go:22-52 | The snake faces as proposed, or the other way if its trail would leave the arena; it is at the proposed head, moved off the edge, unless a snake is in the way; and it is straight, inside the arena, and clear of the seven that may be there already. |
| Simulation.Sim.OverlapsExisting | internal/game/spawn.go:56-65 | The nested loops report an overlap exactly when there is one. |
| Simulation.Sim.FindClearRun | internal/game/spawn.go:67-92 | The scan returns a straight clear run from the interior, and gives up only if there is none. |
| Simulation.Sim.FirstFood | internal/game/sim.go:43-47 | The opening pellets are distinct, free, and as many as configured if there is room. |
| Simulation.MoveIsStep | internal/game/sim.go:108-121 | The move followed by the check for the end is one step of the specification and keeps all invariants. |
| Spawn.ClearRunExists | internal/game/spawn.go:67-92 | With at most seven snakes of three cells about, there is always a clear straight run: more disjoint runs fit the smallest arena than there are cells to block them. |
| Spawn.AnchorsDisjoint | internal/game/spawn.go:67-92 | The runs counted do not share cells. |
| Spawn.Blockers | internal/game/spawn.go:67-92 | So many blocked runs take as many distinct occupied cells. |
| Walled.LeftAloneEveryMatchEnds | internal/game/sim.go:108-174 | In a walled arena with nothing queued and no further input, every match from any reachable state is over within max(width, height) times TicksPerMove ticks. |
| Walled.StepNearer | internal/game/sim.go:166-174 | Each move brings every living snake one cell nearer the wall it is heading for. |
| Prediction.PredictionIsRight | internal/game/predict.go:16-48 | If the snake survives the move, the predicted body is the real one, less the last cell if it grew, with the same heading, whatever the others did. |
| Prediction.PredictionTouchesOneSnake | internal/game/predict.go:16-48 | A prediction changes the body and heading of one snake at most, never its length, and never reverses it. |
| Prediction.PredictionStaysInside | internal/game/predict.go:34-47 | A predicted head is in the arena if the one shown was; a step out of a walled arena leaves the body as it was and turns the snake only, any other moves the head one cell. |
| FloodFill.OpenRoom | internal/game/bot.go:138-167 | The bounded search counts exactly the smaller of 24 and the number of cells reachable through unblocked ones, with or without wrap. |
| FloodFill.ClosedHoldsRegion | internal/game/bot.go:138-167 | Any set that holds the start and is closed under unblocked neighbours holds everything reachable by a path. |
| Bot.ChooseDirection | internal/game/bot.go:15-104 | With a candidate, the one chosen is such that no other is better: uncontested if any is; of those alike in that, none is nearer to its nearest pellet, none as near has more room, counted up to 24, and none as near and roomy comes before it in order. Without one it is the present heading, and up for a missing or dead snake. |
| Bot.BlockedCells | internal/game/bot.go:26-39 | The blocked cells are those solid at the next move. |
| Bot.ContestedCells | internal/game/bot.go:41-60 | The contested cells are those the head of another snake may step onto. |
| Bot.NearestFood | internal/game/bot.go:114-136 | The result is at most the distance to every pellet, the shorter way around on a wrapping axis, and is one of these distances, or the sentinel if none is smaller than it. |
| Bot.BestIsSafe | internal/game/bot.go:62-104 | If any candidate is uncontested, so is the one chosen. |
| Bot.BestIsUnbettered | internal/game/bot.go:88-102 | The order options are sorted in says just that, in terms of least distances, reachable cells and directions. |
| Bot.StepIsAtMostOne | internal/game/bot.go:126-136 | One step brings a pellet nearer by at most one, around the edges too. |
| Bot.SomeStepIsNearer | internal/game/bot.go:126-136 | And some step brings it nearer while it is not nought; so the distance is the least number of steps to the pellet. |
| Bot.NoCandidateIsFatal | internal/game/bot.go:61-86 | Steered in a direction that is no candidate and no reversal, a snake dies in the next move whatever the others do, as long as they live to make it. |
| Bot.ContestedCanCollide | internal/game/bot.go:41-60 | If a cell is contested, the snake that threatens it and the bot can be steered onto it in the same move, and both die head-on. |
| Bot.BotSurvives | internal/game/bot.go:15-104 | A living, non-coasting bot with a move that is neither fatal nor contested chooses such a one, the simulation accepts it, and the bot survives the next move whatever every other snake does. |
| Canonical.RoundTrip | internal/proto/match.go:373-429 | A reader for the emitted subset of JSON (sections 2 to 7 of RFC 8259) gets back every generic value from its canonical text, whatever follows it. |
| Canonical.CanonicalIsInjective | internal/proto/match.go:355-371 | Equal canonical texts are of equal values. |
| Canonical.TextRoundTrip | internal/proto/match.go:387-392 | A quoted string reads back as it was, with quotes, controls and line separators escaped. |
| Canonical.WriteCanonical | internal/proto/match.go:374-429 | The recursive writer appends the canonical text of its value to the buffer, whatever order maps are walked in, an object with its keys in the order of strings. |
| Canonical.MembersInOrder | internal/proto/match.go:402-424 | The members of an object are written in the order of their keys, each key a proper beginning of the next or less where they first differ. |
| Text.StrLessIff | internal/proto/match.go:408 | The order of strings: one precedes another if and only if they agree up to where it ends first, or has the lesser character. |
| Text.SortedSetIff | internal/proto/match.go:403-408 | There is exactly one listing of a set in that order, and it is what sorting yields. |
| HashedText.PlacementText | internal/proto/match.go:40-48 | The text of a placement is its six members by name in order, numbers in decimal and the key quoted. |
| HashedText.ParticipantText | internal/proto/match.go:30-38 | The text of a participant is its members by name in order, without login or device where they are not known. |
| HashedText.ConfigText | internal/game/types.go:104-123 | The text of the settings is their members by name in order, without bots if there are none. |
| HashedText.ResultText | internal/proto/match.go:50-63 | The text of a result is its nine members by name in order, with the settings and both lists written out. |
| HashedText.HashedBytes | internal/proto/match.go:130-155 | The digest is taken of the domain line and that text, with participants by key and placements by place and key, in whatever order the lists were given. |
| HashedText.PlainStays | internal/proto/match.go:387-392 | Text without quotes, backslashes, controls, line separators or the three characters of markup is written as it is. |
| HashedText.DigitsMean | internal/proto/match.go:385-386 | A number is written in decimal without a zero in front. |
| Canonical.KeysOf | internal/proto/match.go:403-409 | Keys taken from a map in any order sort to one and the same list. |
| Records.NormalizeForgetsOrder | internal/proto/match.go:112-128 | The order participants and placements are listed in changes neither the normal form nor the bytes, as long as keys and ranks are distinct. |
| Records.NormalizeTwice | internal/proto/match.go:112-128 | Where keys and ranks are distinct, the arrangements a correct sort may leave, stable or not, are exactly one: participants in order of keys, placements in order of places and then keys; and sorting that one again leaves it as it is. |
| Records.ResultInjective | internal/proto/match.go:29-68 | Two results with the same generic form are the same result, empty fields left out and all. |
| Records.BytesBindContent | internal/proto/match.go:125-145 | Equal canonical bytes describe the same result up to the order of its lists. |
| Attestation.Validate | internal/proto/match.go:196-226 | Validation passes exactly results of version 1 with an ID, a host key that plays, distinct decodable keys, and placements of participants only. |
| Verdicts.RefusedIff | internal/proto/match.go:196-226 | A result is refused exactly if it is of another version, lacks an ID, a host or participants, has somebody twice or under what is no key, a host who does not play, or somebody placed who does not. |
| Verdicts.RecordRefusedIff | internal/proto/match.go:298-327 | A record is refused exactly for a result like that, another hash, two signatures under one key, or a signature by nobody who plays, under what is no key, or not over its hash. |
| Names.TrimmedIs | internal/proto/match.go:453-460 | Cleaning a name takes the control characters out and then the white space off both ends, and nothing else. |
| Names.NameIsSafe | internal/proto/match.go:451-468 | A name others see is never empty or longer than 24 characters, has no control character, and does not begin with white space. |
| Names.RenamedAlways | internal/netplay/host.go:904-906 | So the condition new settings put on the name always holds, and asking for no name calls the lobby anonymous. |
| Names.CleanAgainIff | internal/proto/match.go:453-468 | Cleaning a name again changes it exactly if it was cut after 24 characters of which the last is white space. |
| Names.CleaningAgainCanShorten | internal/proto/match.go:461-463 | Which happens. |
| Attestation.NewAttestedRecord | internal/proto/match.go:244-255 | A record is made exactly of results whose normal form validates, with the hash of that form and no signatures. |
| Attestation.ComputeHash | internal/proto/match.go:133-155 | The hash is the digest of the domain prefix and the canonical bytes of the normalised result. |
| Attestation.Verify | internal/proto/match.go:298-327 | Verification passes exactly when the result validates, the hash is its hash, and the signatures are by distinct participants and verify. |
| Attestation.AddSignature | internal/proto/match.go:257-276 | A signature is taken in exactly if its key plays and it verifies, replacing an earlier one under the same key. |
| Attestation.SignedBy | internal/proto/match.go:329-337 | The loop finds a signature under the key exactly if there is one. |
| Attestation.WithSignatureAscending | internal/proto/match.go:265-275 | Signatures stay strictly sorted by key, and one new signature brings that about. |
| Attestation.SignedStaysVerified | internal/proto/match.go:257-276 | An accepted signature leaves a verified record verified, its result unchanged, its signers one more at most. |
| Attestation.SignersPlay | internal/proto/match.go:298-327 | The signers of a verified record are participants, and the list lengths count them. |
| Attestation.FullyAttestedMeansEverybody | internal/proto/match.go:339-342 | Comparing two lengths decides whether everybody who played has signed. |
| Attestation.HashBindsResult | internal/proto/match.go:133-155 | If the digest does not collide on them, equal hashes mean the same result up to list order, and the same people. |
| Store.CheckMatchId | internal/store/store.go:77-97 | The loop accepts exactly canonical lower-case UUIDs. |
| Verdicts.MatchIdIff | internal/store/store.go:77-97 | Accepted IDs are exactly five groups of 8, 4, 4, 4 and 12 lower-case hex digits joined by dashes. |
| Store.MatchStore.Put | internal/store/store.go:103-148 | The map changes as specified: new verified records are added, held ones gain signatures, everything else is refused and changes nothing. |
| Store.MatchStore.Inventory | internal/store/store.go:192-204 | The inventory lists each record held once, sorted by ID, with hash and signature count. |
| Store.MergingUnites | internal/store/store.go:115-136 | Merging the signatures of a verified copy of the same match never fails, keeps the record verified and its result, adds exactly the new signers, and reports whether there were any. |
| Store.PutEffect | internal/store/store.go:103-148 | Putting a record that agrees with what is held leaves the union of both sets of signers, and every other record alone. |
| Store.PutKeepsStoreOk | internal/store/store.go:103-148 | Whatever is put, every record held still verifies under its own match ID. |
| Store.ConflictIsRefused | internal/store/store.go:118-124 | Different content for an ID already held is refused and changes nothing. |
| Store.EqualHashSameMatch | internal/store/store.go:116-124 | Without a collision, verified records with equal hashes are of the same match. |
| Store.PutsUniteOffers | internal/store/store.go:103-148 | After any sequence of puts, with repeats, bad records and conflicting ones among them, each match good records were offered of is held with the result and hash of the first of them and the union of the signers of all good offers under that hash; copies under one hash are taken to be of the same people. |
| Store.AnyPutsUnite | internal/store/store.go:103-148 | The same for any sequence at all, as long as the digest does not collide on the results offered. |
| Store.PutsForgetOrder | internal/store/store.go:103-148 | Two sequences offering the same records, in any order and number, end with the same matches; with the same signers where they hold a match under the same hash; and with the same hash where all good offers of a match have one. |
| Gossip.Missing | internal/gossip/gossip.go:66-85 | The result is the sorted IDs of entries not held, or held under the same hash with strictly fewer signatures. |
| Gossip.MissingIsLacks | internal/gossip/gossip.go:66-85 | On inventories of two stores that is the set of records one lacks of the other. |
| Gossip.CollectFrom | internal/gossip/gossip.go:87-100 | At most 48 records are collected, in order, skipping those not held. |
| Gossip.Absorb | internal/gossip/gossip.go:102-116 | Every record is put whatever became of the others, and the counts are of those that changed something and those refused. |
| Gossip.Answer | internal/gossip/gossip.go:164-177 | The listening half answers an inventory with at most 48 wants and at most 48 records the dialer lacks. |
| Gossip.Reply | internal/gossip/gossip.go:143-159 | The dialing half absorbs the answer and sends a third message exactly when something is wanted. |
| Gossip.RunExchange | internal/gossip/gossip.go:118-201 | Dialing and listening halves run step by step change both stores, and both tallies, as one exchange; each half decides alike whether there is a third message. |
| Gossip.PullEffect | internal/gossip/gossip.go:87-116 | Absorbing a batch of what is lacked gives, for each of its IDs, the union of signers, and touches nothing else. |
| Gossip.NewsIsReceived | internal/gossip/gossip.go:102-116 | A batch of news is received to the last record and nothing of it is refused. |
| Convergence.ExchangeGrows | internal/gossip/gossip.go:118-201 | An exchange loses no match and no signature on either side and invents none; unless all is settled one side gains something. |
| Convergence.ExchangeMoves | internal/gossip/gossip.go:87-100 | Exactly the smaller of 48 and what is lacking travels each way, all of it counts as received, none as rejected. |
| Convergence.ExchangeProgress | internal/gossip/gossip.go:118-201 | The number of facts one side has and the other has not strictly falls with every exchange until all is settled, and then nothing changes. |
| Convergence.GossipConverges | internal/gossip/gossip.go:118-201 | However two peers take turns in dialing, as many exchanges as there are facts only one of them has settle them, the cap notwithstanding, if copies under one hash are of the same people. |
| Batches.BatchesSuffice | internal/gossip/gossip.go:87-100 | Counting what has to travel one way, which is what that side lacks and what will return to it because each side has signers the other has not: as many exchanges as batches of 48 in the greater of the two ways, and one more, settle and reconcile two peers. |
| Batches.BatchesNeeded | internal/gossip/gossip.go:87-100 | And no fewer than that number of batches can: each exchange takes at most 48 off either way. |
| GossipNetwork.NetworkConverges | internal/gossip/gossip.go:1-6 | Any number of peers that do not contradict each other: after as many rounds in which every two meet as there are facts to be learnt, every two are settled, and what is known altogether is what was. |
| GossipNetwork.FewAreUseful | internal/gossip/gossip.go:118-201 | In any sequence of meetings at most that many are of peers not settled; all others change nothing. |
| GossipNetwork.KnowerHeals | internal/gossip/gossip.go:66-85 | If one peer has every signer anybody knows of a match under its only hash, all peers end with exactly these signers, also those that equal counts kept apart. |
| GossipNetwork.PutsNetworkConverges | internal/gossip/gossip.go:1-6 | Any number of stores, each filled by any sequence of puts, are settled in pairs by as many such rounds, if the digest collides on none of the results put into any two of them. |
| Reconciliation.Reconciled | internal/gossip/gossip.go:118-201 | After that many exchanges, capped or not, every match one side lacked or had fewer signatures of under the same hash is held by both with all signers either knew, and every other match is exactly as it was. |
| Reconciliation.SignersAgreeIff | internal/gossip/gossip.go:66-85 | The signers of a match end equal on both sides if and only if one side lacked it or had fewer signatures under the same hash, or they were equal to begin with. |
| Reconciliation.PutsReconcile | internal/gossip/gossip.go:118-201 | Two stores filled by any two sequences of puts: if the digest does not collide on the results put, enough exchanges settle them, and a match one of them was behind on ends with everybody who signed a good offer of it, under the hash held, to either. |
| Reconciliation.PutsArePeers | internal/store/store.go:103-148 | Stores filled by any puts verify throughout and hold the same people wherever they hold the same hash, if the digest does not collide on the results put. |
| Convergence.SettledMeaning | internal/gossip/gossip.go:66-85 | Settled means the same match IDs, and equal signature counts wherever hashes agree. |
| Convergence.SettledStays | internal/gossip/gossip.go:192-197 | Settled peers stay as they are, whoever dials. |
| Reconciliation.TwoExchangesUnite | internal/gossip/gossip.go:118-201 | Two uncapped exchanges, each dialled by either side, already give both sides the union of signers of every match whose counts differed. |
| Reconciliation.EqualCountsNeverReconcile | internal/gossip/gossip.go:66-85 | Equally many but different signatures under one hash are never exchanged, however long the peers go on. |
| Reconciliation.DuelStaysHalfSigned | internal/gossip/gossip.go:66-85 | It does happen: two stores each given one copy of a match between two players, signed by one of them each, are settled at once and keep one signature each for ever, although both copies verify and nothing collides. |
| Roster.FreeMeansFree | internal/netplay/host.go:935-962 | While there is room the seat and palette handed out are in nobody's use. |
| Roster.FreeSeat | internal/netplay/host.go:935-949 | The loop finds the lowest seat not in use below eight. |
| Roster.FreePalette | internal/netplay/host.go:951-963 | The loop finds the lowest palette not in use. |
| Roster.BotSeats | internal/netplay/host.go:852-861 | The bots are listed in seat order, the last being the highest. |
| Roster.AdmitKeepsSeats | internal/netplay/host.go:790-791 | Appending a seat and sorting keeps ids ascending from the host's 0 and everything distinct, if the newcomer clashes with nobody. |
| Roster.WithoutKeepsSeats | internal/netplay/host.go:1101-1127 | Taking any other seat than the host's away keeps the roster in order. |
| Roster.ResettledFits | internal/netplay/host.go:808-849 | Whatever valid settings are applied to a roster in order, it ends in order, with no more seats and bots than they allow. |
| Roster.ResettledPeople | internal/netplay/host.go:808-849 | Nobody comes to sit down by it but bots. |
| Roster.PersonKeptIff | internal/netplay/host.go:917-932 | A person keeps their seat through new settings exactly when the people below them and those of the bots below them that stay do not fill the seat count by themselves. |
| Roster.EverybodyKeptWhenTheyFit | internal/netplay/host.go:894-912 | Nobody is turned out if the people present and the bots asked for fit the new seat count. |
| Roster.SeatsAsAskedFor | internal/netplay/host.go:808-849 | The lobby ends up with its people and as many bots as asked for, or full if that is more than there are seats. |
| Guarantees.SettingsCostASeat | internal/netplay/host.go:882-915 | The same condition for the whole command, with the clamping of seats to people and of bots to seats that comes before it. |
| Guarantees.SettingsCanCostASeat | internal/netplay/host.go:917-932 | It does happen, in a lobby just opened for four with two bots and joined by a guest: valid settings for two seats and one bot take the guest out, although two people fit. |
| MatchReport.BuildResult | internal/netplay/host.go:585-640 | The loops over line-up and snakes draw up the normalised report. |
| MatchReport.EverybodyRecordedOnce | internal/netplay/host.go:608-638 | Everybody there at kickoff is a participant exactly once, and in the placements exactly once with what became of their own snake. |
| MatchReport.NobodyElseRecorded | internal/netplay/host.go:608-638 | Nobody else, and no bot, is in either list. |
| MatchReport.PlacesRecordedDiffer | internal/netplay/host.go:619-637 | No two people are recorded with the same place. |
| MatchReport.FiguresRecorded | internal/netplay/host.go:619-637 | When a match is over, everybody's placement holds the place, length, score and kills of their own snake, and the tick it died or the last one; length plus growth still due is 3 plus twice the score, and there are no more kills than deaths. |
| MatchReport.PeopleRecorded | internal/netplay/host.go:608-618 | Everybody at kickoff is listed with their key, name, login, device and seat. |
| MatchReport.HeadingRecorded | internal/netplay/host.go:595-607 | The report has version 1, ID, name, times and host as told, and the settings with as many bots as there were, whatever number was asked for. |
| MatchReport.ReportIsValid | internal/netplay/host.go:551-556 | The report of a match with a proper line-up always passes validation, so drawing it up never fails. |
| Filing.FiledIsKept | internal/netplay/host.go:567-572 | In every run, a record filed is there with its time limit and all its signatures at the next move that files or closes a record, and is closed only when everybody seated has signed or its time is up. |
| Filing.FiledIsHandedOverIff | internal/netplay/host.go:567-568 | The record of a match is handed to the store if and only if a record is closed after it is filed and before the next one is; otherwise the next one takes its place, or the run ends. |
| Filing.FilingLosesIff | internal/netplay/host.go:567-567 | A filing loses a record, one filed before or pending from the start and not closed since, if and only if a record is pending when it comes. |
| LateRecords.ARecordIsOverwritten | internal/netplay/host.go:567-568 | It does happen, from a lobby just opened: the next match ends before the record of the last is due, and however the run goes on that record never reaches the store. |
| Consent.EntryHadConsent | internal/netplay/host.go:1047-1069 | In a consented history, whoever is in a match entered had readied quoting the generation of the very settings it was built from, after those were made and without taking it back, and between the countdown's start and the entry there are only readies and un-readies. |
| Consent.GenerationsAscend | internal/netplay/host.go:902-903 | A generation names one set of settings only. |
| LobbyMoves.ReadyKeeps | internal/netplay/host.go:1047-1069 | A ready is accepted only for the present generation, so whoever is flagged ready stands by one for it. |
| Effects.ReadyTakesEffect | internal/netplay/host.go:1047-1069 | A ready of somebody seated, quoting the present generation while the lobby is open or counting, sets that one flag to what it says, on or off, and is noted exactly if that is a change. |
| Effects.StaleReadyIsRefused | internal/netplay/host.go:1047-1058 | A ready of another generation, in another phase or from nobody seated changes nothing. |
| Effects.UnreadyCallsOff | internal/netplay/host.go:341-345 | After an un-ready during a countdown the next step of the lobby calls it off, whatever the clock says. |
| Effects.AttestTakesEffect | internal/netplay/host.go:1081-1094 | A signature sent from a seat adds that player to the signers and marks the seat if and only if it is for the match on record, under the seat's own key, of somebody who played, and verifies over the hash; otherwise nothing changes. |
| Effects.HearTakesEffect | internal/netplay/host.go:993-1006 | Hearing from a seat resets its clock, and takes its snake back and shows it connected if it was coasting; nobody else is touched. |
| Effects.QuietTakesEffect | internal/netplay/host.go:378-386 | A seat fallen silent is marked, and in a match its snake, and no other, coasts with no turn waiting. |
| Effects.VerdictByTheClock | internal/netplay/host.go:364-387 | A seat with a connection is dropped after ten seconds of silence, marked after four if it is not yet, and left alone before. |
| Effects.QueueTakesEffect | internal/netplay/host.go:1073-1078 | An input during a match replaces the same player's waiting one and no other, and outside of a match it is ignored. |
| Effects.InputArrives | internal/netplay/host.go:499-505 | In a tick the snake of somebody whose input waits is steered by that input and by nothing else. |
| Effects.AdmissionIff | internal/netplay/host.go:751-771 | A joiner is admitted exactly to an open lobby with a free seat, under a key that decodes and that nobody seated has. |
| Effects.JoinTakesEffect | internal/netplay/host.go:773-791 | A newcomer gets a seat and a palette nobody has, under their own key and name, not ready; everybody else's seat stays as it is. |
| Effects.ReconfigureTakesEffect | internal/netplay/host.go:882-915 | New settings apply with at least a seat for every person and bots only as far as that leaves a seat, under the next generation; nobody has agreed to them yet, and a countdown is over. |
| Effects.BeginTakesEffect | internal/netplay/host.go:416-456 | A countdown takes down the line-up and the settings with their seed, and ends in three seconds. |
| Effects.PlayTakesEffect | internal/netplay/host.go:459-469 | Play begins with the line-up and settings taken down then, and is noted. |
| LobbyMoves.DropKeeps | internal/netplay/host.go:1101-1127 | Losing a seat in any phase keeps every invariant: a match loses the snake with the seat, a countdown is called off, the advert follows. |
| LobbyMoves.ReopenKeeps | internal/netplay/host.go:474-482 | Calling off a countdown and resetting after a match keep every invariant. |
| Endings.StepByTheClock | internal/netplay/host.go:335-355 | An open lobby starts counting exactly when somebody is there and everybody is ready; a countdown is called off when that ends, becomes a match once its time is up, and else goes on. |
| Endings.ThreeSecondsToThink | internal/netplay/host.go:335-350 | In every run, a match is entered three seconds after its countdown began at the earliest. |
| Endings.DropTakesEffect | internal/netplay/host.go:1101-1127 | Dropping a seat closes up the list, kills that snake and no other in a match, and calls a countdown off with nobody left ready; nothing else changes. |
| Endings.DropIsRefused | internal/netplay/host.go:1101-1106 | The host's seat cannot be dropped, nor one nobody has. |
| Endings.ReopeningTakesEffect | internal/netplay/host.go:474-482 | A countdown called off and a match that is over leave the lobby open and only bots ready; the board stays in the second case only. |
| Endings.StepTakesEffect | internal/netplay/host.go:485-520 | In a tick each seat's last client tick becomes that of its waiting input if there is one, and then nothing waits. |
| Endings.FilingTakesEffect | internal/netplay/host.go:567-571 | A record filed waits four seconds with the host marked as having signed. |
| Endings.DueIff | internal/netplay/host.go:357-359 | It is due once every person seated has signed, or its time has passed. |
| Endings.ClosingTakesEffect | internal/netplay/host.go:658-682 | Closing it takes it away and leaves the lobby open with only bots ready, whatever it was doing. |
| LobbyRuns.JoinKeeps | internal/netplay/host.go:751-803 | Admitting a joiner keeps seats, palettes and keys distinct and the roster within its limits. |
| LobbyRuns.ReconfigureKeeps | internal/netplay/host.go:882-915 | New settings keep every invariant and leave nobody ready but the bots. |
| LobbyRuns.BeginKeeps | internal/netplay/host.go:416-456 | Beginning a countdown sets up a sound board on which the line-up is the seats and the settings are the lobby's but for the seed. |
| LobbyRuns.PlayKeeps | internal/netplay/host.go:459-469 | When play begins the history permits the entry: an unbroken countdown, the settings in force, and a standing ready for them from everybody. |
| LobbyRuns.TickKeeps | internal/netplay/host.go:485-520 | A tick keeps every living snake seated, every seat in the match, and the simulation sound. |
| LobbyRuns.FiledIsGood | internal/netplay/host.go:551-566 | The record of a finished match verifies and is named by a proper match ID, signed by the host or not. |
| LobbyRuns.HostSigns | internal/netplay/host.go:551-566 | What is filed is of this match, under the lobby's name, the settings played and the formatted times of its start and of now; and the host is its one signer if and only if its signature over this very hash verifies, else nobody is. |
| LobbyRuns.AttestKeeps | internal/netplay/host.go:1081-1096 | Taking in an attestation leaves a record the store would take. |
| LobbyRuns.MoveKeeps | internal/netplay/host.go:252-297 | Every elementary change the host makes keeps all invariants of the lobby. |
| LobbyRuns.RunKeeps | internal/netplay/host.go:252-297 | So does every run of them. |
| Guarantees.EveryLobbyState | internal/netplay/host.go:136-177 | From a new lobby, every run, with seats lost to slow clients at any point of it, keeps the roster in order, the advert true, the simulation sound, readies standing and pending records good. |
| Guarantees.EnteredFromCountdown | internal/netplay/host.go:335-355 | A match is entered only from a countdown, everybody ready and seated as the line-up, on a board where nothing has moved. |
| Guarantees.NobodyPlaysUnasked | internal/netplay/host.go:882-915 | In every run from a new lobby, every match ever entered had the consent of everybody in it. |
| Guarantees.HistoryGrows | internal/netplay/host.go:252-297 | The history those statements are about only grows. |
| Guarantees.RosterInOrder | internal/netplay/host.go:1256-1273 | Ids ascend from the host's 0 below 8, palettes and people's keys are distinct, bots are ready and no more than configured, seats no more than configured, and the advert agrees with all of it. |
| Guarantees.SnakesAndSeats | internal/netplay/host.go:1101-1115 | During a match its snakes are the kickoff roster, every seat is one of it, and every living snake still has its seat. |
| Guarantees.FinishedMatchIsRecorded | internal/netplay/host.go:538-640 | When a match is over, alone against bots or not, its report validates and has each person at kickoff once as participant and once in the placements, no other snake sharing their place. |
| LateRecords.LateRecordEndsNextMatch | internal/netplay/host.go:357-359 | Closing a record when the next match is on reopens the lobby in the middle of that match, everybody unready, the simulation left standing. |
| LateRecords.LateRecordIff | internal/netplay/host.go:357-359 | A match started now can be on before the pending record is due if and only if somebody seated has not signed and the countdown of three seconds ends within the time of the record. |
| LateRecords.ALateRecordEndsAMatch | internal/netplay/host.go:357-359 | It does happen, from a lobby just opened, with every guard and clock kept: a record filed at four seconds is not due when the next match gets under way at seven, and closing it just after eight ends that match. |
| HostedBots.ChoiceArrives | internal/netplay/host.go:489-507 | What reaches a bot's snake in a tick is what the bot chose for the state at the top of it, whatever people asked for. |
| HostedBots.BotNeverCoasts | internal/netplay/host.go:364-387 | In a match of a lobby that keeps its invariant, as every run does, the snake of a seated bot is never coasting: a bot has no connection to fall silent. |
| HostedBots.HostedBotSurvives | internal/netplay/host.go:485-511 | A living bot of a hosted match with any move neither fatal nor contested is alive after the tick. |
| Hosting.Host.NewHost | internal/netplay/host.go:136-177 | The only error is an invalid configuration; otherwise the lobby opens under the cleaned name, with the host in seat 0 and the bots asked for. |
| Hosting.Host.SendTo | internal/netplay/host.go:1164-1192 | Sending can cost a seat only if the client has a connection and the message must arrive, and then only that seat first. |
| Hosting.Host.RemoveSeat | internal/netplay/host.go:1101-1127 | The seat goes, forfeiting its snake in a match and calling off a countdown; a missing seat and the host's are left. |
| Hosting.Host.AbortCountdown | internal/netplay/host.go:474-482 | The simulation goes, the lobby is open, nobody is ready. |
| Hosting.Host.SyncBots | internal/netplay/host.go:808-849 | The two loops unseat the highest bots down to the number wanted, or seat new ones up to it while there is room. |
| Hosting.Host.DropSeatsBeyondCapacity | internal/netplay/host.go:917-932 | The loop cuts the roster to the seat count from the highest seat down, sparing the host. |
| Hosting.Host.Reconfigure | internal/netplay/host.go:882-915 | Valid settings are applied in an open lobby or countdown and take effect as one change; otherwise nothing changes but seats lost in telling so. |
| Hosting.Host.SetReady | internal/netplay/host.go:1047-1069 | The flag changes exactly for a present seat, the present generation, another value, and an open lobby or countdown. |
| Hosting.Host.SetHostReady | internal/netplay/host.go:206-210 | The host's own ready quotes the generation of the moment it is handled. |
| Hosting.Host.HostInput | internal/netplay/host.go:213-215 | The heading the host steers by is queued for seat 0, during a match only. |
| Hosting.Host.QueueInput | internal/netplay/host.go:1073-1078 | The latest input of a match is kept per seat; outside a match none is. |
| Hosting.Host.Kick | internal/netplay/host.go:218-232 | A seat named and found, other than the host's, is dropped first and gone afterwards, whether its client could still be told or not; otherwise nothing changes. |
| Hosting.Host.Disconnect | internal/netplay/host.go:965-973 | A connection that ends takes away the seat it serves, and changes nothing if that seat is no longer its own. |
| Hosting.Host.Allocate | internal/netplay/host.go:751-803 | A joiner is refused for exactly the reasons listed, in that order, and seated otherwise. |
| Hosting.Host.HandleClient | internal/netplay/host.go:993-1040 | A message counts only from the connection holding the seat; it ends coasting first, then does what it asks. |
| Hosting.Host.AddAttestation | internal/netplay/host.go:1081-1096 | A signature is taken in exactly if a record is pending for that match, the key is the seat's own, and the record accepts it. |
| Hosting.Host.CheckLiveness | internal/netplay/host.go:364-387 | Each seat of the list as it was is judged by its silence: dropped from 10 seconds, coasting from 4, otherwise let be. |
| Hosting.Host.CheckEveryoneReady | internal/netplay/host.go:392-406 | True exactly when there is a person seated and everybody is ready. |
| Hosting.Host.BeginCountdown | internal/netplay/host.go:416-456 | The countdown starts with a match built for the seats; with a roster in order building it cannot fail. |
| Hosting.Host.BeginPlay | internal/netplay/host.go:459-469 | Play begins and the lobby is in the match afterwards, whoever is lost in telling so. |
| Hosting.Host.SteerBots | internal/netplay/host.go:489-497 | Bots still playing each choose once, all for the state at the top of the tick. |
| Hosting.Host.ApplyPending | internal/netplay/host.go:498-504 | Every pending input is applied once, in whatever order the map gives them, and acknowledged to its seat. |
| Hosting.Host.Tick | internal/netplay/host.go:485-520 | A tick is the bots' choices, then people's inputs, then one step; if that ends the match, the lobby is open with the record filed, and otherwise still in the match. |
| Hosting.Host.EndMatch | internal/netplay/host.go:538-582 | The lobby opens, the record is of the final state and the line-up at kickoff, and the simulation is gone, whoever is lost in telling so. |
| Hosting.Host.DrawUp | internal/netplay/host.go:551-562 | The record drawn up never fails validation and carries the host's signature if it verifies. |
| Hosting.Host.FinalizeRecord | internal/netplay/host.go:658-673 | The pending record goes to the store, which takes it unless it conflicts, and the lobby is reset in any phase. |
| Hosting.Host.Housekeeping | internal/netplay/host.go:322-360 | Silence, then the clock, then a record that is due; a match in progress is left alone exactly if no record is due, and a match begins only from a countdown with everybody ready. |
| Hosting.Host.Shutdown | internal/netplay/host.go:301-318 | The lobby is closed and its advert says so. |
| Camera.ClippedFits | internal/ui/game.go:403-412 | Any rectangle received is clipped to one in order inside the grid, and one that was is left as it is. |
| Camera.AxisShown | internal/ui/game.go:356-401 | On either kind of axis every coordinate of the window comes from the world, and no two from the same one. |
| Camera.AxisCentred | internal/ui/game.go:380-391 | On a wrapping axis the player is at the middle of the view. |
| Camera.StepShiftsWindow | internal/ui/game.go:343-358 | One step of the player on a wrapping arena shifts the window by that one cell, folded the same way. |
| Camera.AxisWalled | internal/ui/game.go:391-396 | On a walled axis the window stays in the world, contains the player, and centres on them unless it touches a wall. |
| Camera.GameView.ArenaWindow | internal/ui/game.go:359-401 | World, view size, wrapping and window are set as the arena, the room available and the player's head decide, dead or alive. |
| Camera.GameView.CellsInBuffer | internal/ui/game.go:587-612 | Every lookup is inside the buffer, and no two screen positions show the same cell, however malformed the arena received. |
| Camera.GameView.FrameArena | internal/ui/game.go:587-612 | The loops show at each screen position the buffer cell that belongs there. |
| Utf8.RunesOfText | internal/logring/logring.go:181-206 | Decoding undoes encoding on every text of scalar values (section 3 of RFC 3629). |
| Escapes.SkipEscape | internal/logring/logring.go:213-257 | Started on a complete escape sequence of the grammar, the scanner stops just past it: a control sequence with parameters, intermediates and a final byte, one of four control strings with its terminator, or a short sequence (sections 5.4 and 5.6 of ECMA-48, less the string opened by ESC X). |
| Escapes.EscapeIsSkipped | internal/logring/logring.go:213-257 | Whatever follows it, exactly the bytes of a complete sequence are skipped. |
| Escapes.CutStringIsSkipped | internal/logring/logring.go:229-245 | A control string cut short is skipped up to the next escape character, which is looked at anew, or to the end of the line. |
| LogRing.KeptIsVisible | internal/logring/logring.go:181-201 | Of characters and complete escape sequences in any order exactly the characters are kept, less controls and with tabs as four spaces, and what follows is scanned as if it stood alone. |
| LogRing.EscapeLeavesNoTrace | internal/logring/logring.go:181-201 | So a complete escape sequence leaves no trace: what is kept of a line with it is what is kept of the line without it. |
| LogRing.Sanitize | internal/logring/logring.go:181-207 | The loop over the bytes of any line ends with its kept text, trimmed and capped; for a line of characters and complete escape sequences that is the characters, less controls. |
| LogRing.SanitizedIs | internal/logring/logring.go:193-207 | What is kept of a line loses the blanks at its end, and is cut to its first 2000 characters and an ellipsis if it is longer. |
| LogRing.SanitizedIsClean | internal/logring/logring.go:181-207 | What is left of any bytes is at most 2001 characters, none a control character, the last not blank. |
| LogRing.StartOfStringStays | internal/logring/logring.go:229-256 | Of a string opened by ESC X (section 5.6 of ECMA-48) only these two bytes go, and its text stays. |
| LogRing.SanitizedBytes | internal/logring/logring.go:176-180 | Every byte of it is at least 0x20 and none is 0x7F, so none is an escape or another seven-bit control. |
| LogRing.SanitizeIsIdempotent | internal/logring/logring.go:181-207 | Sanitising twice is sanitising once. |
| LogRing.Ring.Append | internal/logring/logring.go:72-94 | A line is kept as sanitised, unless nothing is left of it. |
| LogRing.Ring.Lines | internal/logring/logring.go:97-112 | The lines returned are the last ones kept, as many as the capacity allows, oldest first. |
| LogRing.Ring.Tail | internal/logring/logring.go:115-126 | So are the last n of them. |
| LogRing.WritingOver | internal/logring/logring.go:79-83 | Writing over the oldest slot of a full ring drops that line and appends; the last free slot fills it. |
| Simulation.SolidMap | internal/game/sim.go:131-142 | The map holds exactly the cells solid at the next move, a cell of two bodies under the later owner. |
| Simulation.CountAlive | internal/game/types.go:245-253 | The loop counts the living snakes. |
| Simulation.Sim.OccupiedCells | internal/game/sim.go:293-305 | Exactly the cells of living bodies and pellets count as occupied. |
| Roster.FindSeat | internal/netplay/host.go:1240-1247 | The loop finds the first seat with the id, or none if no seat has it. |
| Roster.CountBots | internal/netplay/host.go:866-874 | The loop counts the bots seated, and with them the people. |
| Hosting.Host.RefreshAdvert | internal/netplay/host.go:1256-1273 | The advert is of the roster, settings and phase as they are now. |
| Hosting.Host.ClearReady | internal/netplay/host.go:684-691 | Everybody is unready afterwards but the bots, and the countdown display is back at zero. |
| Hosting.Host.BroadcastLobby | internal/netplay/host.go:1195-1203 | Telling everybody over a copy of the seats drops some seats at most; the phase stays, unless that calls off a countdown. |
| Hosting.Host.TimeOut | internal/netplay/host.go:370-377 | Eliminating the snake first and then taking the seat away comes to the same as taking the seat away. |
| Hosting.Host.MarkQuiet | internal/netplay/host.go:378-386 | A quiet client is marked, and its snake coasts if it is playing. |
| Hosting.Host.CallOff | internal/netplay/host.go:341-345 | A countdown in which somebody un-readied is called off. |
| Hosting.Host.CheckAllSigned | internal/netplay/host.go:643-653 | True exactly when every person still seated has signed. |
| Hosting.Host.ResetAfterMatch | internal/netplay/host.go:675-682 | The lobby is open and unready afterwards, whatever phase it was in. |
| LogRing.Ring.constructor | internal/logring/logring.go:46-52 | A new ring is empty and has the capacity asked for, or 500 if that is not positive. |
| Camera.GameView.Lookup | internal/ui/game.go:587-605 | The folded coordinates are the ones of the cell that belongs at the screen position. |

## Left out

- Events of a tick, notes in the lobby feed, log lines and everything only shown to the user.
- The PCG generator: `freeCell` may return any free cell, and the exhaustive scan that makes it total is kept.
- The floating-point ring layout (`internal/game/spawn.go:9-21`): the head and heading it proposes are any at all,
  so the boards of `SharedTail`, `HeadToHead` and `Samples` count as starts although the ring would place their
  snakes elsewhere.
- `sort.Slice` and `sort.Strings` are insertion sorts. The source's are not stable; with distinct keys and ranks, as
  in every report the host draws up, there is one possible outcome (`Records.NormalizeTwice`). For a result received
  with two placements of one key and place, which validation admits, the order the source leaves those two in is not
  modelled.
- `SnakeByID` and `seatByID` return pointers into a list; here they return positions. Seats, players and snakes are
  values, so which seat object a goroutine still holds is told by the number of its connection.
- Cryptography, base64, the formatting of times and randomness are function values or parameters; signing always
  gives a signature, which may not verify; match IDs are any proper UUIDs, and seeds any integers.
- JSON strings are sequences of characters; bytes that are not UTF-8 and the library's own replacement of them are
  not modelled. Numbers are kept as their text.
- A list never appended to encodes as null, an empty one as well; the source's lists of a finished match are never
  empty.
- Writing files and reading them back at start-up (`internal/store/store.go:32-68`): writes succeed and the store
  starts empty.
- `Put` shares the backing array of signatures with the stored record; here signatures are value sequences, so a
  failed merge leaves nothing behind.
- Network failures in the middle of an exchange: an exchange runs to its end. A failed one is a prefix of puts,
  which `Store.PutKeepsStoreOk` covers.
- Goroutines, channels and timers: a command is one atomic method and time is a parameter. Messages are not modelled
  beyond their effect on seats, so nothing is claimed about their delivery. Sending to a seat already removed does
  nothing here, which is a simplification: in the source it is a send on the closed channel of that seat.
- Whole seconds left in a countdown are computed exactly rather than through floating point.
- `Simulation.Sim.New`: the invariants of a started match are stated for at most eight distinct seats, as the lobby
  guarantees; more are spawned but may overlap.
- The host's own public key is taken to decode, and a connection to have a number other than 0.
- `Types.Direction` is a byte, and the remainder in `Opposite` is taken after it wraps, as in the source.
- Length-prefixed framing, client sessions, discovery, leaderboard, export and the remaining screens: they would add
  easy members only.
