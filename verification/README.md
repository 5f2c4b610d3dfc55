# Exolon and its factory, modelled in Dafny

The repository holds a game, Exolon, written in Swift, and a control plane in Python that decides
how much autonomy an agent gets and seals the sites it produces. This project models the parts of
both in which a promise spans many operations, and proves those promises for every input and every
run.

- **The event log** (`FixedWidth`, `Lanes`, `LogStream`, `EventLog`, `EventWriter`, `LogLaws`,
  `LogRecords`, `LogFiles`, `LogStamps`, `LogFailures`, `JsonText`). `LogStream` says what the log
  promises without a ring: an append history, a cursor and the lines that reached a file. `EventLog`
  is the ring, the counters and the drain, each method proved to be a step of that machine;
  `EventWriter` adds the buffer, the files and their pruning. The laws hold over all runs of the
  machine; `LogRecords` and `LogFiles` read what is recorded and written off the calls alone, and
  `LogFailures` says which configurations have runs that fail.
- **The scene** (`Ledger`, `LedgerRuns`, `SceneModel`, `GameScene`, `SceneLaws`, `SceneTheorems`,
  `SceneSteps`, `SceneExits`, `SceneWire`, `SceneHighScore`). `SceneModel` is one game as a step
  relation, `GameScene` the class proved equal to it, step by step. The theorems tie what a step
  does to the game's numbers to what the events say; `SceneSteps` and `SceneExits` give every step
  of a session in closed form; `SceneWire` and `SceneHighScore` show which of those events survive
  their 16-bit lanes.
- **Level geometry** (`GameConstants`, `Rects`, `Surfaces`, `CollisionRects`, `Ground`, `Terrain`,
  `BeamFields`, `BeamPools`). Run merging, rectangle subtraction, the nearest standing surface and
  the beam sweep, each against its exact point-set or graph meaning, and the shared hit points of a
  beam over any volley.
- **The clock** (`TickDriver`, `TickReports`) and **the player** (`Players`, `PlayerMoves`): a
  frame-by-frame ledger of time, the jump latch over all runs, and each move in plain coordinates.
- **Autonomy** (`NearestRank`, `Autonomy`, `AutonomyLaws`, `AutonomyReasons`, `AutonomyCohorts`):
  what a recommendation means, which fact of the cohort each reason is, and what a demotion
  guarantees.
- **Site artifacts** (`LandingArtifact`, `LandingRetention`, `LandingAgreement`, `LandingSealing`,
  `LandingEpochs`): a sealer and a verifier written apart, proved to describe the same archive, and
  what each of them accepts.
- **The marker splice** (`MarkerBlock`).

`Basics` holds what several of these share. `dafny verify dfyconfig.toml` checks everything.

## What the proofs found

- A failed rotation loses the batch it was made for without counting it; conservation of appends
  holds exactly while none has failed. Some run fails exactly for a recording log whose first file
  can be created but not every later one.
- A rotation prunes by number alone, so it also removes files of other runs under the same prefix
  whose number is below this run's window.
- `flush` on a closed log with records pending never returns.
- The player's `contextHoldsJumpLatch` is redundant: the edge latch alone gives the same runs.
- `resolveSolidCollision` separates the player from a solid in every case but the deep-overlap
  fallback, which never does.
- The beam sweep counts its reach from zero, so separate markers left of zero share a field.
- A high score loaded from storage can exceed the two lanes it is recorded in, and is then reported
  saturated by every title and game-over record: in some session exactly when it is above 2^31 - 1.
  Every other event of the scene is exact.
- A teleport, a death or a respawn ends a crouch without a record, so two beginnings of a crouch can
  follow each other.
- A render call with a time that is not finite leaves the step count of the last frame in place, so
  a slow frame is reported twice.
- No recommendation can be `qualified` today: every hand-over bundle is constructed as blocked
  (factory/src/adaptive_factory/shadow_contracts.py:550-551), and both availability flags are constantly false
  (factory/src/adaptive_factory/m7_autonomy_bridge.py:167-173).
- An evaluation past the expiry returns a profile that is no longer halted. The guarantee of
  demotion can therefore end where an evaluation dated before the expiry follows one dated at or past
  it without an accepted demotion in between, and nowhere else.
- The sealer never asks which source epoch it is sealing, while the verifier accepts the full member
  list for the present epoch only.
- Of a document with its markers in the wrong order the splice fails with an uncaught search error
  rather than its own.

## Conventions and hypotheses

- One drain of the log is atomic, and there is a single producer; locks, queues and timers are not
  modelled. Whether the file of a generation can be created, and how long a formatted line is, are
  functions of the configuration.
- Durations of the scene are whole fixed steps; the level reports contacts, kills and the exit of a
  step as input. The next level is the next zone up to zone 124, which has none; this agrees with
  the maps the repository ships. The saved-checkpoint flag and the stored checkpoint are one field.
- Coordinates and times are real numbers, rectangles half-open, and overlap means common area.
  Tile sizes are at least one, and rectangle sizes not negative.
- A record's zone is the log's zone lane, fixed at the start of a step, so a checkpoint saved after
  a transition carries the outgoing zone.
- SHA-1, SHA-256, canonical JSON, case folding and the ZIP container are uninterpreted functions;
  what the agreement needs of them is that the manifest and the archive at hand read back as written
  (`ReadBack`), and that SHA-256 does not collide on the files at hand.
- The splice is stated for names without `<` and line breaks; the two names in use, `decisions.md`
  and `mistakes.md`, are such (`ShippedNamesArePlain`).

## Model

| member | source | states |
|---|---|---|
| LogLaws.WrittenRecordsKeepTheirPosition | Exolon/GameCore/Diagnostics/GameplayEventLog.swift:603-710 | in every run, through losses and rotations, a written record's append position is the body lines before it plus the counts of the drop lines before it |
| LogLaws.AppendsAreConserved | Exolon/GameCore/Diagnostics/GameplayEventLog.swift:603-710 | appended = written + pending + dropped, exactly while no rotation has failed; otherwise at most one batch is missing |
| LogLaws.StreamIsDense | Exolon/GameCore/Diagnostics/GameplayEventLog.swift:678-820 | across all files lines are numbered 0, 1, 2, …; a drop line names its two neighbours; a file starts with `log.begin` and, unless last, ends with `log.rotate`; nothing follows `log.end` |
| LogLaws.LogEndClosesTheBooks | Exolon/GameCore/Diagnostics/GameplayEventLog.swift:566-599 | closing a log whose files work ends the stream with `log.end`, whose `events` is body lines plus declared losses |
| LogLaws.WorkingFilesNeverFail | Exolon/GameCore/Diagnostics/GameplayEventLog.swift:741-789 | when every generation can be created, no run ever reaches the failed state |
| LogLaws.BarrierEndsExactlyWhen | Exolon/GameCore/Diagnostics/GameplayEventLog.swift:550-562 | the barrier loop ends if and only if nothing is pending, or the log is open and its batch size positive |
| LogFailures.RotationCanFailExactlyWhen | Exolon/GameCore/Diagnostics/GameplayEventLog.swift:741-789 | some run reaches a failed rotation if and only if the log records, takes batches, and its first file can be created but not every later one; the run is built |
| LogFailures.ClosedLogSpins | Exolon/GameCore/Diagnostics/GameplayEventLog.swift:550-562 | every recording log has a run after which the barrier never ends: a record after the close |
| LogStamps.StampsNeverGoBack | Exolon/GameCore/Diagnostics/GameplayEventLog.swift:678-820 | tick, frame and microsecond stamp never decrease along the stream while the 32-bit counters do not wrap |
| LogRecords.HistoryIsTheCalls | Exolon/GameCore/Diagnostics/GameplayEventLog.swift:445-491 | in every run the history is exactly the admitted calls and the heartbeats on their interval, in order, each record with its own kind, entity and payload and with the tick, frame and zone its call found |
| LogRecords.PendingIsCounted | Exolon/GameCore/Diagnostics/GameplayEventLog.swift:603-668 | after every call what is pending is what was, and what the call added, within the ring's capacity, less what it drained; a drain takes at most a batch, and an emission drains exactly when the batch is full |
| LogFiles.BracketsTellTheirBatch | Exolon/GameCore/Diagnostics/GameplayEventLog.swift:665-710 | in every run a header, a retiring line and a loss line carry the stamp of the batch after them, and a loss line the sum of all losses up to it |
| LogFiles.LogEndSaysWhy | Exolon/GameCore/Diagnostics/GameplayEventLog.swift:566-599 | the terminal line carries the reason of the close and the counters of its moment |
| LogFiles.RotatesExactlyWhenFull | Exolon/GameCore/Diagnostics/GameplayEventLog.swift:681-689 | a call that drains one batch into an open file retires that file first exactly when its lines have reached the limit |
| EventLog.RoundedPowerOfTwo | Exolon/GameCore/Diagnostics/GameplayEventLog.swift:1155-1159 | the least power of two that is at least the wanted size and at least 16 |
| FixedWidth.MaskIsModulo | Exolon/GameCore/Diagnostics/GameplayEventLog.swift:356-366 | `index & mask` is the index modulo the capacity for every power of two |
| FixedWidth.DistinctSlots | Exolon/GameCore/Diagnostics/GameplayEventLog.swift:603-618 | fewer than capacity consecutive positions occupy different slots |
| EventLog.GameplayEventLog.constructor | Exolon/GameCore/Diagnostics/GameplayEventLog.swift:356-385 | a new log is the empty stream, with a power-of-two ring that fits what was wanted |
| EventLog.GameplayEventLog.Emit | Exolon/GameCore/Diagnostics/GameplayEventLog.swift:445-471 | level filter, stamp, store and inline drain together are one step of the history machine, whose records `HistoryIsTheCalls` reads off the calls |
| EventLog.GameplayEventLog.StoreLocked | Exolon/GameCore/Diagnostics/GameplayEventLog.swift:603-618 | writing into the ring appends to the history, and a full ring gives up its oldest record and counts it |
| EventLog.GameplayEventLog.BeginTick | Exolon/GameCore/Diagnostics/GameplayEventLog.swift:482-491 | clamps the zone, wraps the tick and sends a heartbeat on its interval |
| EventLog.GameplayEventLog.ViewNewest | Exolon/GameCore/Diagnostics/GameplayEventLog.swift:493-509 | returns the newest pending records, in order, and changes nothing |
| EventLog.GameplayEventLog.ClaimBatch | Exolon/GameCore/Diagnostics/GameplayEventLog.swift:650-668 | claims the oldest pending records, and the loss window only together with a batch |
| EventLog.GameplayEventLog.FormatBatch | Exolon/GameCore/Diagnostics/GameplayEventLog.swift:690-705 | the loss bracket, then the records, numbered in one go |
| EventLog.GameplayEventLog.DrainNow | Exolon/GameCore/Diagnostics/GameplayEventLog.swift:644-710 | one drain of ring, counters and files is one atomic drain of the history machine, failure paths included |
| EventLog.GameplayEventLog.RotateFile | Exolon/GameCore/Diagnostics/GameplayEventLog.swift:767-789 | retires the file with its own line and opens the next, or fails |
| EventLog.GameplayEventLog.DrainEverything | Exolon/GameCore/Diagnostics/GameplayEventLog.swift:558-562 | terminates with nothing pending and no undeclared loss whenever the barrier can end |
| EventLog.GameplayEventLog.Shutdown | Exolon/GameCore/Diagnostics/GameplayEventLog.swift:566-599 | drains, closes, and writes the terminal line once |
| EventWriter.FileWriter.FlushBuffer | Exolon/GameCore/Diagnostics/GameplayEventLog.swift:166-171 | what was buffered is on disk, in order, and nothing else moved |
| EventWriter.FileWriter.Write | Exolon/GameCore/Diagnostics/GameplayEventLog.swift:100-104 | with a file open the lines are the end of its generation and of the stream, otherwise they are lost; between calls the buffer stays below its limit |
| EventWriter.FileWriter.PruneOldFiles | Exolon/GameCore/Diagnostics/GameplayEventLog.swift:124-132 | removes exactly the files whose number fell out of this run's window, its own and those of other runs alike |
| EventWriter.FileWriter.FilesAreTheirGenerations | Exolon/GameCore/Diagnostics/GameplayEventLog.swift:95-171 | once synchronized, the surviving files are the newest generations, each complete |
| EventWriter.FileWriter.AtMostKeptFiles | Exolon/GameCore/Diagnostics/GameplayEventLog.swift:124-132 | the directory never holds more than the kept number of generations |
| EventWriter.FileWriter.OtherRunsLoseFilesExactlyWhen | Exolon/GameCore/Diagnostics/GameplayEventLog.swift:124-132 | after a rotation another run's file is left exactly when its number is in this run's window or its name has none |
| EventWriter.RotationTakesAnothersFile | Exolon/GameCore/Diagnostics/GameplayEventLog.swift:124-132 | a run in which the first rotation removes another run's file |
| Lanes.SplitThenJoin | Exolon/GameCore/Diagnostics/GameplayEventSink.swift:263-273 | a 32-bit value survives two 16-bit lanes |
| Lanes.MicrosecondsAreNearest | Exolon/GameCore/Diagnostics/GameplayEventSink.swift:282-284 | the timestamp is the nearest microsecond, and different ticks never share one |
| JsonText.EscapedJSONString | Exolon/GameCore/Diagnostics/GameplayEventLog.swift:1162-1181 | the escaping loop computes the quoted escape of the whole value |
| JsonText.EscapeRoundTrip | Exolon/GameCore/Diagnostics/GameplayEventLog.swift:1162-1181 | a reader of the string grammar in section 7 of RFC 8259 recovers every value exactly |
| JsonText.EscapedIsOneLine | Exolon/GameCore/Diagnostics/GameplayEventLog.swift:1162-1181 | no control character survives escaping, so a record stays one line |
| JsonText.EscapedPlaceByPlace | Exolon/GameCore/Diagnostics/GameplayEventLog.swift:1162-1181 | a plain character stands for itself; quotes, backslash, newline, return and tab take two places, any other control character six, in small letters |
| Ledger.StageBoundaryLedger.DecideOutcome | Exolon/GameCore/Diagnostics/StageBoundaryLedger.swift:222-254 | not applicable, suppressed or awarded; nothing is charged before every component is accepted |
| Ledger.StageBoundaryLedger.NoteExoskeletonActivated | Exolon/GameCore/Diagnostics/StageBoundaryLedger.swift:180-187 | sets the latch, and records the first activation only |
| Ledger.StageBoundaryLedger.NoteStageStarted | Exolon/GameCore/Diagnostics/StageBoundaryLedger.swift:189-194 | restarts the stage clock and clears the latch |
| Ledger.ChargeCounts | Exolon/GameCore/Diagnostics/StageBoundaryLedger.swift:222-254 | an award raises the once-keys of its zone and of no other, each component as often as it occurs |
| Ledger.PaidZoneStaysSuppressed | Exolon/GameCore/Diagnostics/StageBoundaryLedger.swift:222-254 | a zone that paid is suppressed for the rest of the playthrough, whatever lives and clock, and no other zone is affected |
| Ledger.FullAwardTotal | Exolon/GameCore/Diagnostics/StageBoundaryLedger.swift:40-56 | an award is lives, bravery and ladder together, at most 26 000 |
| Ledger.LadderIsMonotone | Exolon/GameCore/Diagnostics/StageBoundaryLedger.swift:52-65 | the ladder never pays more for more time, nothing from phase four on, nothing to an unobserved clock |
| LedgerRuns.AnswersExactly | Exolon/GameCore/Diagnostics/StageBoundaryLedger.swift:222-254 | over every playthrough, for every allowance and list of components, a stage end is awarded, with exactly these points, lives and phase, unless that would pay one of its components more often than allowed; no other zone is |
| LedgerRuns.PaysTheFirstTimes | Exolon/GameCore/Diagnostics/StageBoundaryLedger.swift:222-254 | with a list that names no component twice a stage end pays the first times it is reached, as often as it may, every time if there is no limit |
| SceneLaws.SessionKeeps | Exolon/GameCore/GameScene.swift:263-446 | every reachable state keeps the joint invariant of flow, numbers, ledger, suit and event story |
| SceneTheorems.SessionBounds | Exolon/GameCore/GameScene.swift:263-446 | dying exactly when dead or game over; lives 1–9, 0 in game over; points 0–999 999 and at most the high score; every state in play has a checkpoint |
| SceneSteps.StepInClosedForm | Exolon/GameCore/GameScene.swift:334-446 | in every session a playing step up to the exit is given at once, every number and every record, by the scene before it, the keys and the world: the changing room, the weapons, the death slide, protection, kills, pickups and contacts |
| SceneSteps.StepPaysItsReports | Exolon/GameCore/GameScene.swift:531-775 | in every session a playing step up to the exit raises the score by exactly the capped sum of what its world reports, with one score record for each in order: kills by kind, the launcher bonus, and a bubble or an egg exactly when it is asked |
| SceneExits.ExitInClosedForm | Exolon/GameCore/GameScene.swift:793-905 | in every session a step that leaves a screen is its boundary and its arrival, each given at once: the records in order, points, life, refill, suit, zone, stage clock and checkpoint; it pays exactly at a stage end that has not paid since the last reset |
| SceneExits.MenuInClosedForm | Exolon/GameCore/GameScene.swift:273-331 | in every session every other step, on the title, in a pause, at game over and at the end of the content, is given at once |
| SceneExits.PauseChangesNothing | Exolon/GameCore/GameScene.swift:1187-1214 | however long a pause lasts, the press that ends it finds the game the press that began it left, unless the run was restarted |
| SceneExits.TitleIsFresh | Exolon/GameCore/GameScene.swift:959-978 | until a game is started the title shows a fresh one and the stored high score |
| SceneTheorems.StepStage | Exolon/GameCore/GameScene.swift:878-886 | the stage clock restarts and the latch is cleared in exactly the steps that leave for zone 25, 50, 75 or 100, restart a run, or start a new game; in every other step the clock stands and the latch is only ever set, by a changing room |
| SceneTheorems.StageIsTheRuns | Exolon/GameCore/GameScene.swift:959-978 | in every session the clock counts from the last step that began a stage, and the events say "suited in this stage" exactly when a step since then took the suit |
| SceneTheorems.LatchRemembersTheSuit | Exolon/GameCore/GameScene.swift:359-371 | while a game is on, suit on implies latch set, and the latch says exactly that a changing room switched the suit on in this stage, both by the events and by the steps of the run |
| SceneTheorems.ExitPaysExactly | Exolon/GameCore/GameScene.swift:793-857 | a step that leaves a screen raises the score, and the sum of its boundary score records, by exactly what the boundary is worth: nothing, or 1 000 a life, 10 000 for bravery and the timed bonus of the steps since the stage began; with it a life, full ammunition and no suit |
| SceneTheorems.OnlyExitsPay | Exolon/GameCore/GameScene.swift:263-446 | every other step leaves the boundary points as they are, or resets them together with the score |
| SceneTheorems.BoundaryScoreIsRecorded | Exolon/GameCore/GameScene.swift:825-857 | every score a boundary awards is followed, with nothing but a high score and the suit in between, by its record and its three clauses, which add up to it |
| SceneTheorems.RecordIsScored | Exolon/GameCore/GameScene.swift:825-857 | and every boundary record follows the score award it describes |
| SceneTheorems.BraveryPaysExactlyWhen | Exolon/GameCore/GameScene.swift:825-857 | beside lives and timed bonus every boundary score award holds 10 000 points exactly when no changing room switched the suit on since the stage began, by entering zone 25, 50, 75 or 100 or by a restart, through deaths, pauses, toggles and every other zone change |
| SceneTheorems.EachStageEndPaysOncePerReset | Exolon/GameCore/GameScene.swift:793-857 | two awards of one stage end always have a score reset between them, the title loop included |
| SceneTheorems.BoundaryPointsAreBounded | Exolon/GameCore/GameScene.swift:793-857 | between two resets of the score the score awards of boundaries add up to at most 130 000 |
| SceneTheorems.SuppressionChangesNothing | Exolon/GameCore/GameScene.swift:825-857 | a step that leaves a stage end is suppressed exactly when that end has paid, only on the last screen, and then the boundary does nothing but say so |
| SceneTheorems.SuppressedOnlyOnRepeat | Exolon/GameCore/GameScene.swift:825-857 | every suppressed trigger of a session is on the last screen, after a recorded award of it, with the game saved since and no reset of the score in between |
| SceneTheorems.SessionIsSound | Exolon/GameCore/GameScene.swift:825-957 | every event of a session owes the events before it what its kind says: amounts by reason, scores, lives, order of a boundary's records |
| SceneTheorems.SuitedMeans | Exolon/GameCore/Diagnostics/StageBoundaryLedger.swift:180-194 | the latch read from events is "switched on by a changing room since a stage-start zone was entered or the run restarted" |
| GameScene.Game.FixedUpdate | Exolon/GameCore/GameScene.swift:263-446 | one fixed step of the class is one step of the session machine, whose steps `StepInClosedForm`, `ExitInClosedForm` and `MenuInClosedForm` give at once |
| GameScene.Game.UpdateDeathSequence | Exolon/GameCore/GameScene.swift:448-479 | settle delay, life paid, then game over or respawn |
| GameScene.Game.UpdateLethalEntities | Exolon/GameCore/GameScene.swift:712-775 | which contacts hit, in which order, and which end the questioning |
| GameScene.Game.HitPlayer | Exolon/GameCore/GameScene.swift:777-791 | what a hit changes, and what protection swallows |
| GameScene.Game.CheckScreenExit | Exolon/GameCore/GameScene.swift:793-823 | boundary first, then transition or content complete |
| GameScene.Game.ApplyStageBoundary | Exolon/GameCore/GameScene.swift:825-857 | points, life, refill and suit removal of one award, in order |
| GameScene.Game.Transition | Exolon/GameCore/GameScene.swift:859-905 | entering a zone, a new stage's clock, and the checkpoint |
| GameScene.Game.AwardPoints | Exolon/GameCore/GameScene.swift:907-917 | clamped score, record and high score |
| GameScene.Game.StartFromTitle | Exolon/GameCore/GameScene.swift:959-978 | a title start begins or resumes without paying anything twice |
| GameScene.Game.EnterGameOver | Exolon/GameCore/GameScene.swift:980-1001 | the run is closed, its ledger and checkpoint forgotten |
| GameScene.Game.PausePressed | Exolon/GameCore/GameScene.swift:1187-1214 | pause and resume restore the flow they left |
| GameScene.Game.RestartFromBeginning | Exolon/GameCore/GameScene.swift:1222-1279 | a restart resets score, ledger, suit and checkpoint |
| SceneWire.SplitIsLossless | Exolon/GameCore/Diagnostics/GameplayEventSink.swift:263-273 | the saturating split is lossless exactly for 0 to 2^31 - 1 |
| SceneWire.CheckpointFields | Exolon/GameCore/Diagnostics/GameplayEventSink.swift:345-352 | the packed checkpoint lane is lossless exactly within its bit widths |
| SceneWire.SessionEventsSurvive | Exolon/GameCore/Diagnostics/GameplayEventSink.swift:520-709 | a record of a session is read back from its lanes exactly unless it is a title or game-over record with a high score past 2^31 - 1 |
| SceneHighScore.SessionsReadBackExactlyWhen | Exolon/GameCore/Diagnostics/GameplayEventSink.swift:520-709 | all sessions are read back in full if and only if the stored high score is at most 2^31 - 1; for a larger one the launch, which shows it, is already a losing session |
| SceneHighScore.GameOverLosesIt | Exolon/GameCore/GameScene.swift:980-1001 | for every larger stored high score some session plays on until its game-over record loses it too; the session is built |
| SceneHighScore.HighScoresAreBounded | Exolon/GameCore/GameScene.swift:907-945 | no title and no end of a game in a session shows a high score above both the stored one and the ceiling of the score |
| SceneWire.ReplayReproducesTheScore | Exolon/GameCore/Diagnostics/GameplayEventSink.swift:628-631 | replaying the records of any session gives the game's score after every step |
| SceneWire.ScoreRecordsAgree | Exolon/GameCore/Diagnostics/GameplayEventSink.swift:628-631 | a score record carries its points and reason, and its `points_before` is the replay of the records before it |
| Surfaces.BuildQuery | Exolon/GameCore/Levels/TMXMapLoader.swift:140-160 | a point is in a cell exactly when it is in a filled tile of the first Collision layer, in the place the map gives that tile; the cells are row-major, and a missing or malformed layer has none |
| Surfaces.SolidExactlyWhen | Exolon/GameCore/Levels/TMXMapLoader.swift:151-157 | a cell is solid exactly when its number without the flip bits names a tile |
| Surfaces.CollisionNameExactlyWhen | Exolon/GameCore/Levels/TMXMapLoader.swift:140-146 | a layer is the Collision layer exactly when its name is that word in any case |
| Ground.FallbackPlaneY | Exolon/GameCore/Levels/TMXMapLoader.swift:166-168 | the lowest cell top, or the default ground |
| Ground.GroundY | Exolon/GameCore/Levels/TMXMapLoader.swift:172-178 | the highest surface over the span at or below the limit, else the fallback plane |
| Ground.SurfaceTops | Exolon/GameCore/Levels/TMXMapLoader.swift:181-187 | the tops over the span, ascending, each once |
| Ground.BoundedSurfaceY | Exolon/GameCore/Levels/TMXMapLoader.swift:196-220 | the nearest surface in the window, the lower on ties, clear ones preferred; none exactly when the window is empty |
| Ground.BetterExactlyWhen | Exolon/GameCore/Levels/TMXMapLoader.swift:207-220 | what nearest and lower on ties mean: between the other height and its mirror image beyond the line, or that image and the lower |
| Ground.ClearMeansNoOverlap | Exolon/GameCore/Levels/TMXMapLoader.swift:196-205 | "clear" holds exactly when the standing body overlaps no collision rectangle |
| Ground.ResolvedPlayerBottom | Exolon/GameCore/Levels/TMXMapLoader.swift:105-123 | a spawn moves by at most one tile, to the nearest surface the player can stand on free, if there is any |
| Ground.ObjectNamedIsTheFirst | Exolon/GameCore/Levels/TMXMapLoader.swift:55-62 | the object of a name is the first of that name in the first group that has one |
| Ground.WorldBottomLeftIsTheLowerEdge | Exolon/GameCore/Levels/TMXMapLoader.swift:71-79 | a rectangle object hangs below its line and any other stands on it, both measured from the lower edge of the map |
| CollisionRects.ComputeCollisionRects | Exolon/GameCore/Levels/TMXMapLoader.swift:243-263 | the row loop computes the merged rectangles |
| CollisionRects.MergedRectsAreExact | Exolon/GameCore/Levels/TMXMapLoader.swift:243-263 | the rectangles cover exactly the union of the solid cells, one tile tall, pairwise apart, never touching along a row, top to bottom then left to right |
| Rects.SubtractIsDifference | Exolon/GameCore/Levels/TMXLevelRuntime.swift:582-614 | the pieces are exactly the points of the rectangle outside the cut |
| Rects.SubtractKeepsShape | Exolon/GameCore/Levels/TMXLevelRuntime.swift:582-614 | every piece has area, lies inside, and no two overlap |
| Rects.SubtractSplitsBesideOnly | Exolon/GameCore/Levels/TMXLevelRuntime.swift:582-614 | without an overlap the rectangle stays whole; what lies below and above it keeps the whole width, only beside it the rectangle is split |
| Rects.SubtractAllIsDifference | Exolon/GameCore/Levels/TMXLevelRuntime.swift:123-148 | cutting a list removes exactly the cut |
| Rects.SubtractAllKeepsShape | Exolon/GameCore/Levels/TMXLevelRuntime.swift:123-148 | cutting a list keeps positive area, and disjointness whenever it was there |
| Terrain.LevelTerrain.TerrainRects | Exolon/GameCore/Levels/TMXLevelRuntime.swift:123-148 | a point is terrain exactly when it is in a collision rectangle, in no changing-room exclusion, and not in a guidance base once there are towers and all of them are destroyed; the pieces have area and do not overlap |
| Terrain.CutAllIsExact | Exolon/GameCore/Levels/TMXLevelRuntime.swift:123-148 | the terrain is exactly the collision points in no active exclusion, with positive, pairwise disjoint pieces |
| Terrain.OpenedPoints | Exolon/GameCore/Levels/TMXLevelRuntime.swift:123-148 | destroying a guidance tower opens exactly the points of the bases when it is the last one, nothing otherwise, and closes none |
| BeamFields.SortIndices | Exolon/GameCore/Levels/TMXMapLoader.swift:307-310 | every box once, by left edge and then number, stated on the edges themselves |
| BeamFields.Groups | Exolon/GameCore/Levels/TMXMapLoader.swift:303-324 | the groups hold every box once, in sweep order, none empty; two boxes share a group exactly when they are connected or each is connected to a box left of zero, so the groups are the components if and only if the boxes left of zero hang together |
| BeamFields.PathStaysInGroup | Exolon/GameCore/Levels/TMXMapLoader.swift:303-324 | no chain of overlaps leaves a group |
| BeamFields.ApartLeftOfZero | Exolon/GameCore/Levels/TMXMapLoader.swift:314-320 | two separate boxes left of zero that the sweep would still put together |
| BeamPools.BeamFieldModel.RegisterHit | Exolon/GameCore/Levels/TMXMapLoader.swift:289-296 | a hit is reported as the destruction exactly when it is the 25th, and only then are the sides covered |
| BeamPools.ForceFieldBarrier.HitByBlaster | Exolon/GameCore/Objects/LevelObstacles.swift:785-809 | a hit on any side counts for the field, and the field is active exactly before its 25th |
| BeamPools.BuildField | Exolon/GameCore/Levels/TMXLevelRuntime.swift:514-527 | a group's field with a handler for each of its sides |
| BeamPools.BuildFields | Exolon/GameCore/Levels/TMXLevelRuntime.swift:514-529 | the sides stand in sweep order, each with its own marker's box; two share a field exactly when their markers are connected or each is connected to a marker left of zero; every field has sides and starts untouched |
| BeamPools.UpdateBullets | Exolon/GameCore/GameScene.swift:563-570 | each bullet that gets this far strikes the first standing side it meets, and 1 000 points are paid per field destroyed |
| BeamPools.DestroyedOnceOnTheLastHit | Exolon/GameCore/GameScene.swift:563-570 | from the start of a level and for any bullets a field is destroyed exactly when 25 of them have struck its sides, in any mixture, once, and is never struck again |
| BeamPools.VolleysCompose | Exolon/GameCore/GameScene.swift:563-570 | two volleys one after the other leave the same hits and the same destructions, in order, as both together, from any hits |
| BeamPools.DestroyedOnceInALevel | Exolon/GameCore/GameScene.swift:563-570 | the same over all the steps of a level, however the bullets are spread over them |
| TickDriver.EverySecondAccountedFor | Exolon/GameCore/Diagnostics/FixedTickDriver.swift:80-129 | over every run, charged time = steps × step length + remainder + discarded time |
| TickDriver.FrameWithinBudget | Exolon/GameCore/Diagnostics/FixedTickDriver.swift:107-114 | no frame runs more than its budget, a reset in the middle included |
| TickDriver.FramesEndBelowStepExactlyWhen | Exolon/GameCore/Diagnostics/FixedTickDriver.swift:58-114 | every frame of every run ends with less than one step owed if and only if the budget covers the longest frame |
| TickDriver.ShortBudgetLeavesAStep | Exolon/GameCore/Diagnostics/FixedTickDriver.swift:58-114 | the three-frame run that shows it for any other clock |
| TickDriver.ProductBudget | Exolon/GameCore/Diagnostics/FixedTickDriver.swift:15-21 | the shipped constants give fifteen steps, and cover the frame exactly |
| TickDriver.PendingStepsAreExactInEveryFrame | Exolon/GameCore/Diagnostics/FixedTickDriver.swift:72-75 | asked anywhere in any frame, `pendingSteps` is the number of steps still to run unless a reset intervenes |
| TickDriver.ResetEndsTheFrame | Exolon/GameCore/Diagnostics/FixedTickDriver.swift:116-129 | after a reset no step runs before the next frame and the remainder is what was discarded; with the switch off a reset changes nothing |
| TickDriver.ResetReportsWhatItPrevents | Exolon/GameCore/Diagnostics/FixedTickDriver.swift:116-143 | anywhere in any frame a reset reports exactly the steps it keeps from running, which are the pending steps shown just before |
| TickDriver.SlowFrameIsReportedAgainExactlyWhen | Exolon/GameCore/Diagnostics/FixedTickDriver.swift:80-102 | the next call reports a slow frame a second time exactly when the time of this call was not finite |
| TickDriver.NeverAheadOfTheClock | Exolon/GameCore/Diagnostics/FixedTickDriver.swift:80-114 | simulated time never exceeds the time between the first and the last frame |
| TickDriver.KeepsUpWithTheClock | Exolon/GameCore/Diagnostics/FixedTickDriver.swift:80-114 | without resets and over-long frames the step count is the whole steps in that time |
| TickReports.RunChargesTheGaps | Exolon/GameCore/Diagnostics/FixedTickDriver.swift:80-102 | in every run the charged time is the sum of the gaps between the finite times, each cut to the longest frame, and a call with none to charge runs nothing |
| TickReports.FrameCountsItsSteps | Exolon/GameCore/Diagnostics/FixedTickDriver.swift:80-129 | a frame counts its own steps, from none; after a reset it counts none, and a time that is not finite leaves the count |
| TickReports.FrameReportsExactly | Exolon/GameCore/Diagnostics/FixedTickDriver.swift:80-151 | a frame reports, in this order, the steps of the frame before it, its gap if it was cut, and the reset in which it ended, each number in terms of the times alone |
| TickReports.BudgetExactlyWhen | Exolon/GameCore/Diagnostics/FixedTickDriver.swift:47-56 | the step budget is the most whole steps the longest frame pays for, and one where it pays for none |
| TickReports.MicrosAreNearest | Exolon/GameCore/Diagnostics/FixedTickDriver.swift:131-151 | reported times are the nearest whole microseconds, away from zero on a tie |
| TickDriver.FixedTickDriver.BeginFrame | Exolon/GameCore/Diagnostics/FixedTickDriver.swift:80-102 | clamped charge, first frame, backward and non-finite times, and the reports of a slow or cut frame |
| TickDriver.FixedTickDriver.BeginStep | Exolon/GameCore/Diagnostics/FixedTickDriver.swift:107-114 | one step paid and counted, or refused |
| TickDriver.FixedTickDriver.Reset | Exolon/GameCore/Diagnostics/FixedTickDriver.swift:122-129 | the accumulator and the frame's count are dropped and reported with the reason, the reference time kept |
| TickDriver.Update | Exolon/GameCore/GameScene.swift:242-257 | the catch-up loop terminates, is one frame of the clock machine, and reports what that frame reports |
| Players.LatchIsHeldExactlyWhen | Exolon/GameCore/Player/Player.swift:94-139 | the latch is held exactly when a press, teleport or consumed press took it and nothing freed it since |
| Players.JumpsExactlyWhen | Exolon/GameCore/Player/Player.swift:116-131 | a jump starts exactly when a living, standing, upright player has the key down and the latch is free; `afterContextConsume` is never true |
| Players.NoJumpWithoutRelease | Exolon/GameCore/Player/Player.swift:235-293 | after a teleport, a consumed press or a jump, the next jump has a released key, a death or a respawn in between |
| Players.TwoJumpsAreTwoPresses | Exolon/GameCore/Player/Player.swift:94-139 | between two jumps there is always a released key, a death or a respawn |
| Players.ContextFlagChangesNothing | Exolon/GameCore/Player/Player.swift:45-50 | with or without `contextHoldsJumpLatch` every run moves the same way and emits the same records |
| Players.ResolvedIsClearExactlyWhen | Exolon/GameCore/Player/Player.swift:162-206 | a resolved solid no longer overlaps the player, unless the overlap was deep |
| Players.DeepOverlapStays | Exolon/GameCore/Player/Player.swift:162-206 | a reachable player and a solid in which the overlap is deep and stays |
| Players.ResolvedKeepsTheLatch | Exolon/GameCore/Player/Player.swift:162-206 | resolving leaves the latch alone and reports a landing exactly when an airborne player comes to stand on that solid |
| Players.CrouchIsToldExactlyWhen | Exolon/GameCore/Player/Player.swift:355-376 | the crouch records say that the player crouches exactly when he does, until a teleport, a death or a respawn ends a crouch in silence |
| Players.CrouchBeginsTwice | Exolon/GameCore/Player/Player.swift:235-271 | crouch, teleport, crouch: two beginnings are recorded with no end in between |
| PlayerMoves.UpdateInClosedForm | Exolon/GameCore/Player/Player.swift:94-156 | one update in plain coordinates: speed and facing from the keys, the jump, gravity and its limit, the screen's edges, the fallback floor, the motion shown and the records, for a living and for a dying player |
| PlayerMoves.KeysSteer | Exolon/GameCore/Player/Player.swift:110-122 | with one key down a living player who does not crouch faces its way and never moves the other way; with both or none he stands and keeps his facing |
| PlayerMoves.ContactExactlyWhen | Exolon/GameCore/Player/Player.swift:162-206 | which contact a solid makes is read off where the player was: above it and not rising, below it and rising, to its left, to its right, each within one point, or deep |
| PlayerMoves.ResolvedIsFlush | Exolon/GameCore/Player/Player.swift:162-206 | each contact puts the player flush against the solid on the side he came from, stops that motion and changes nothing else |
| PlayerMoves.SupportLostExactlyWhen | Exolon/GameCore/Player/Player.swift:210-229 | support is lost exactly without a solid under the inset feet, within one and a half points, and more than that above the fallback floor |
| PlayerMoves.PlacedExactly | Exolon/GameCore/Player/Player.swift:232-293 | where a teleport, a respawn, a death and a consumed press leave the player, his facing and the latch |
| PlayerMoves.FinalMotionExactly | Exolon/GameCore/Player/Player.swift:355-376 | the motion shown at the end of a step, and the crouch it begins or ends |
| Players.Player.Update | Exolon/GameCore/Player/Player.swift:94-156 | one update of the fields, in the source's order: walking, jump edge, latch sampling, gravity, clamp, fallback floor and records |
| Players.Player.ResolveSolidCollision | Exolon/GameCore/Player/Player.swift:162-206 | which of the six contacts applies, and where each one leaves the player |
| Players.Player.RefreshGroundSupport | Exolon/GameCore/Player/Player.swift:210-229 | support is lost exactly without a solid within reach above the fallback floor |
| Players.Player.Teleport | Exolon/GameCore/Player/Player.swift:235-243 | arrives standing, latch held; nothing while dying |
| Players.Player.BeginDeath | Exolon/GameCore/Player/Player.swift:247-255 | thrown up, latch cleared; once |
| Players.Player.Respawn | Exolon/GameCore/Player/Player.swift:262-271 | back at the spawn, latch cleared |
| NearestRank.P95MeetsLimitExactlyWhen | factory/src/adaptive_factory/autonomy.py:725-728 | the percentile meets a limit if and only if at least 95 in 100 values do |
| AutonomyLaws.Pigeonhole | factory/src/adaptive_factory/autonomy.py:392-411 | as many different digests as slots, each found in a slot: the slots differ and every one is found |
| AutonomyLaws.TasksAreTheOutcomes | factory/src/adaptive_factory/autonomy.py:392-419 | the tasks of a cohort that can be constructed are in one-to-one correspondence with its outcomes, over the right bundles |
| AutonomyCohorts.AdmittedExactlyWhen | factory/src/adaptive_factory/autonomy.py:352-470 | a cohort can be constructed exactly when its tasks are sorted, different, tied one for one to its bundles and outcomes, inside the window, and its limits are the permitted ones |
| AutonomyCohorts.AnsweredExactlyWhen | factory/src/adaptive_factory/autonomy.py:829-853 | a request is answered exactly when the window is closed and a stored profile is of this tuple and of its expiry; the first of these that fails is named |
| AutonomyCohorts.ProfileAdmittedExactlyWhen | factory/src/adaptive_factory/autonomy.py:552-582 | a profile can be constructed exactly within its bounds, halted at the lowest level only |
| AutonomyCohorts.RecommendationAdmittedExactlyWhen | factory/src/adaptive_factory/autonomy.py:652-682 | a recommendation can be constructed exactly when the level rises by one for a qualified cohort and stands otherwise, and the reason is the expiry exactly from the expiry on, at the lowest level only |
| AutonomyReasons.ProfileDescribesTheTasks | factory/src/adaptive_factory/autonomy.py:731-770 | each number of the profile is what the tasks show: totals are the bounded sums of their own field and zero exactly when no task has such a failure, counts, percentiles and days likewise |
| AutonomyReasons.ReasonIsTheFirstFact | factory/src/adaptive_factory/autonomy.py:773-883 | every reason is a fact of the cohort and the first such fact in priority order, each stated over the tasks, and the level rises by one exactly when nothing is against it |
| AutonomyLaws.AcceptedMeansMerged | factory/src/adaptive_factory/autonomy.py:778-785 | no task lacks acceptance exactly when every outcome was merged and accepted |
| AutonomyLaws.AuditMeansClean | factory/src/adaptive_factory/autonomy.py:793-802 | the two audit gates open exactly when every sampled task was accepted and every represented day has an accepted audit |
| AutonomyLaws.LimitsMeanClean | factory/src/adaptive_factory/autonomy.py:803-816 | the quality, failure and cost gates open exactly when every task is within them |
| AutonomyLaws.GatesOpenExactlyWhen | factory/src/adaptive_factory/autonomy.py:773-826 | all gates open if and only if the cohort has shown everything it has to |
| AutonomyLaws.QualifiedExactlyWhen | factory/src/adaptive_factory/autonomy.py:829-883 | `qualified` if and only if in time, not halted, not replayed, below the ceiling, and everything shown |
| AutonomyLaws.RefusedExactlyWhen | factory/src/adaptive_factory/autonomy.py:829-883 | an evaluation is refused only for time, tuple or expiry: profile and recommendation always pass their own checks, and the reason is the one `ReasonIsTheFirstFact` describes |
| AutonomyLaws.ShippedHandoffNeverQualifies | factory/src/adaptive_factory/autonomy.py:817-825 | no cohort handed over by the shipped producer can qualify |
| AutonomyLaws.DemotionExactlyWhen | factory/src/adaptive_factory/autonomy.py:946-982 | demotion is refused only for its facts; the profile is halted at L0, otherwise only its fact count grows, and the decision names the fact of highest priority |
| AutonomyLaws.DemotionHolds | factory/src/adaptive_factory/autonomy.py:829-982 | after a demotion no sequence of evaluations and demotions recommends a level above L0, expiry included, unless an evaluation dated before the expiry follows one dated at or past it without an accepted demotion in between |
| AutonomyLaws.ReopenedExactlyWhen | factory/src/adaptive_factory/autonomy.py:829-982 | after a demotion and any sequence of requests an evaluation recommends more than L0 if and only if it is dated before the expiry, its cohort is new and has shown everything, and the halt was lifted and not renewed |
| AutonomyLaws.HaltGoneExactlyWhen | factory/src/adaptive_factory/autonomy.py:846-851 | the halt is gone exactly when some accepted evaluation past the expiry has had no accepted demotion since; the level stays L0 |
| AutonomyLaws.BackwardsClockReopens | factory/src/adaptive_factory/autonomy.py:846-851 | the smallest such sequence: an expired evaluation, then one dated earlier, promotes |
| AutonomyLaws.LevelNeverRises | factory/src/adaptive_factory/autonomy.py:829-982 | no evaluation or demotion raises the stored level |
| LandingArtifact.ValidatedInventory | factory/src/adaptive_factory/landing_artifact.py:639-663 | the loop returns the members by path, or the error of the first faulty one |
| LandingAgreement.InventoryAcceptedExactlyWhen | factory/src/adaptive_factory/landing_artifact.py:639-663 | accepted if and only if non-empty, sorted, plain files under sound paths, no repeats even up to letter case |
| LandingArtifact.MemberRecords | factory/src/adaptive_factory/landing_artifact.py:422-443 | a record per deploy member, or an error exactly when a body does not have its candidate object |
| LandingArtifact.OutputDirectory.WritePair | factory/src/adaptive_factory/landing_artifact.py:547-636 | archive and sidecar are written together, or the directory is left as it was |
| LandingArtifact.OutputDirectory.Seal | factory/src/adaptive_factory/landing_artifact.py:339-473 | the whole sealing, checks in their order, is its specification |
| LandingSealing.SealsExactlyWhen | factory/src/adaptive_factory/landing_artifact.py:339-473 | a sealing completes exactly when nothing is wrong, and otherwise names the first fault and leaves the directory as it was; each fault is stated over the members and files at hand |
| LandingSealing.PathOkExactlyWhen | factory/src/adaptive_factory/landing_artifact.py:666-680 | a path is let through exactly when it is sound names joined by slashes without a backslash or a NUL, or the directory itself |
| LandingAgreement.OnlyWrittenMembersChange | factory/src/adaptive_factory/landing_artifact.py:518-545 | in a sealed manifest a member comes from the candidate exactly when its object changed, and those are the two files a landing may write |
| LandingAgreement.SealedIsAcceptedExactlyWhen | factory/src/adaptive_factory/landing_artifact_retention.py:170-341 | what the sealer completes the verifier accepts, for its own evidence and input, if and only if the source is the present epoch and the manifest within the bound, given that this manifest and this archive read back as written |
| LandingAgreement.NamesAgree | factory/src/adaptive_factory/landing_artifact_retention.py:206-229 | the names and the sidecar the verifier computes are the sealer's, and no other bytes pass as the sidecar |
| LandingAgreement.DeployedExactlyWhen | factory/src/adaptive_factory/landing_artifact.py:94-110 | the verifier expects all members exactly for the present source epoch; what it expects of the others is `VerifierExpectsExactly` |
| LandingEpochs.VerifierExpectsExactly | factory/src/adaptive_factory/landing_artifact.py:94-110 | for all three epochs the expected members, in order: `index.css` exactly outside the oldest, the two analytics files exactly in the present one, every other member in each; no list for any other source |
| LandingEpochs.AcceptedExactlyWhen | factory/src/adaptive_factory/landing_artifact_retention.py:170-341 | a record, of a past epoch as of the present one, is accepted exactly when its binding, names, files, manifest and archive agree with the list of its epoch |
| LandingAgreement.AcceptedIsWhatWasSealed | factory/src/adaptive_factory/landing_artifact_retention.py:217-253 | an accepted record with a sealed artifact's identity has the sealed bytes, unless SHA-256 collides on them |
| LandingAgreement.SealingIsContained | factory/src/adaptive_factory/landing_artifact.py:547-636 | sealing touches only its two files, failing touches nothing, and sealing again changes nothing |
| LandingRetention.RoundTripExactlyWhen | factory/src/adaptive_factory/landing_artifact_retention.py:104-153 | writing a record and reading it back gives it back, exactly within the reader's bounds |
| LandingRetention.DictRoundTrip | factory/src/adaptive_factory/landing_artifact_retention.py:104-153 | reading then writing gives the dictionary back |
| LandingRetention.AcceptedIsStorable | factory/src/adaptive_factory/landing_artifact_retention.py:104-253 | whatever the verifier accepts can be stored and read back |
| LandingRetention.HexRoundTrip | factory/src/adaptive_factory/landing_artifact_retention.py:344-352 | bytes survive their hexadecimal form |
| LandingRetention.UnhexRoundTrip | factory/src/adaptive_factory/landing_artifact_retention.py:344-352 | accepted hexadecimal text survives the conversion to bytes and back |
| MarkerBlock.CountsOneExactlyWhen | scripts/grok_governance.py:72-82 | one counted occurrence means exactly one occurrence, none means none |
| MarkerBlock.NothingStraddles | scripts/grok_governance.py:81-91 | no marker lies across either end of a spliced block |
| MarkerBlock.MergeSwapsBlock | scripts/grok_governance.py:79-84 | merging into a document with a block swaps the block and nothing else |
| MarkerBlock.MergesExactlyWhen | scripts/grok_governance.py:73-84 | a merge succeeds exactly without markers or with one of each in order; the wrong order is the uncaught failure |
| MarkerBlock.WrongOrderIsUncaught | scripts/grok_governance.py:73-84 | for every plain name the two markers the wrong way round are such a document |
| MarkerBlock.LastProjectionWins | scripts/grok_governance.py:72-91 | whatever was merged before leaves no trace |
| MarkerBlock.MergeIsIdempotent | scripts/grok_governance.py:72-91 | merging twice is merging once |
| MarkerBlock.TextOutsideIsKept | scripts/grok_governance.py:72-91 | the text outside the block is kept, character for character |
| MarkerBlock.RenderedIsBlock | scripts/grok_governance.py:72-76 | a body without `<` between the two markers, as the generator renders it, is a well-formed block |

## Left out

- The text of a line: lines keep what locates and counts them; the payload lanes of the scene's events are in `SceneWire`, those of other records are not part of this model.
- EventLog.GameplayEventLog.DrainNow: is one atomic step, because the lock and the drain queue are not part of this model; an append between the claim and the write is not modelled.
- EventLog.GameplayEventLog.Flush: requires that the barrier can end, because the model's methods terminate; the case in which the original spins is the other half of `BarrierEndsExactlyWhen`.
- EventWriter.FileWriter.PruneOldFiles: files of other runs are names with the number read from them; a directory that cannot be listed or a file that cannot be removed is not modelled.
- The in-memory writer, the flush policy per record kind and the one-time stderr report of the log.
- GameScene.Game.FixedUpdate: flow-change, motion, input-edge, pause-press, cheat, `input.contextual_consumed`, `player.teleport`, `player.shoot_denied` and `bonus.double_launcher` records are not emitted, and pictures, sounds, overlays and the positions in records are not modelled; contacts and kills are inputs of a step.
- GameScene.Game.UpdateDeathSequence: the record of the first grounded step of a death slide is not emitted.
- GameScene.Game.HitPlayer: the records of a hit and of a swallowed hit are not emitted, only the start of the death.
- GameScene.Game.CheckScreenExit: the zone-exit and `state.content_complete` records are not emitted, and whether the player is past the exit is an input of the step.
- GameScene.Game.Transition: the player's placement in the new level is `Ground.ResolvedPlayerBottom` and `Players`, and the reset of the clock is `TickDriver`; neither is part of the scene's state, and the level-load records are not emitted.
- GameScene.Game.PausePressed: the records of entering and leaving the pause are not emitted.
- GameScene.Game.RestartFromBeginning: the level-load records are not emitted, and the reset of the clock is `TickDriver`.
- SceneWire.SessionEventsSurvive: the position lanes of a record are left at zero.
- The debug warp, the double-launcher timing and the random hazards, eggs, bubbles, missiles and pistons: single clamps, or inputs of a step.
- Surfaces.BuildQuery: lower-casing of the layer name is ASCII only, which decides the one name that is looked for.
- Parsing of level files, base64 and compression; map data starts as values.
- TickDriver.FixedTickDriver.BeginFrame: time is real, so a difference of two finite times is finite.
- Rounding of floating-point numbers, everywhere.
- Players.Player.Update: positions and speeds inside records are left out.
- The blaster and grenade origins of the player, and the suit toggle, which is part of the scene.
- Autonomy field formats: identifiers and digests are any strings, because their patterns rest on regular expressions; the name of the first mismatched binding is not kept.
- LandingArtifact.OutputDirectory.Seal: what Git and the file system report is given as a workspace value; the clone, its guards, file modes and fsync are not modelled.
- LandingRetention.Validate: directory and file permissions are not modelled, and a manifest is typed, so type checks of its fields have no counterpart.
- LandingRetention.FromDict: nested records are kept as values; their own readers, and the digest of the artifact record, are not part of this model.
- MarkerBlock.MergeIsIdempotent: is stated for plain names and well-formed projections only; for a name with `<` in it occurrences of a marker could overlap.
- The TypeScript port, the command lines, the HTTP service, the brokers and the contract parsers.
