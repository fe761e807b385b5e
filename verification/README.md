# Luminophore: verified models of its hard parts

This project models, in Dafny, the parts of the Luminophore shell and its update guardian where a
mistake would be hard to see: geometry on contour graphs, protocols with lost replies, crashes and
cancellation, merging queues, text patching that has to preserve what it does not understand, and
transactions that compensate. Run `dafny verify dfyconfig.toml` to check everything.

| files | what they model |
|---|---|
| `Contours`, `ContourWalks`, `ContourTracing` | marching squares over a bitmap, and the walks that use every contour edge once |
| `LineSimplification` | Douglas-Peucker simplification and fitting the lines into the icon's box |
| `IconStore` | approving a generated icon, stopped between any two writes, and reopening the store |
| `VisualReceipts` | writes with receipts, lost replies, late deliveries and fences between client and compositor |
| `SpatialDiagnostics` | the check of a board state, and what a state without findings guarantees |
| `WallpaperTrace`, `WallpaperController` | the two-phase wallpaper protocol: what a run may be, and the worker that keeps to it |
| `DdcQueue` | merging brightness and power requests, with one worker per bus |
| `Chords`, `Bindings`, `BindingTransaction` | key chords, the binding registry and its document, and the two-file transaction |
| `KeyPlaces`, `TomlLines`, `TomlPatch`, `TomlTexts` | changing one value in a TOML text, on lines and on the text itself |
| `UpdateRecords` | observe, evaluate, build, stage, install: programs that read and replace records without a lock, with crashes |
| `AppearanceTransaction` | previews and their application, with compensation |
| `JobJournal`, `JobLedger` | what happened to appearance jobs as a journal, and the ledger under interleaved requests, workers and cleaning up |
| `GreetdFrames`, `GreetdClient` | frames over any chunking, and the authentication conversation |
| `Wrappers`, `Sequences`, `JsonValues` | options, results, two facts on sequences, JSON values |

How the outside world enters: a component that runs against files, sockets, processes or other
threads takes a script, a schedule or a list of steps as input and every method is proved for all of
them. A call that may fail takes its outcome from the script; a program that may be overtaken lets the
next batch of outside steps happen at each point where that is possible; a crash is a step of its own.

## What does not hold

The proofs turned up promises the code does not keep. Each is stated with a concrete input and with the
exact condition:

- Merging brightness deltas loses part of one exactly when the delta before it would have run into a
  limit and the new one points back (`MergeIsExactUnlessLossy`, `OvershootThenBackIsLossy`). Over whole
  runs nothing is lost if the deltas since the last absolute write point in one direction, or none of
  them runs into a limit (`MergingIsExact`).
- The digest of the two binding files is ambiguous exactly for the pairs `LooksAlike` describes
  (`DigestsAgree`, `SomeFilesAreConfused`); a state file without NUL is never affected.
- Changing a TOML value and changing it again is changing it once exactly when the first literal holds no
  character at which text is split into lines, and the line of the key keeps its end or is followed by a
  line that is nothing but its own tail (`LastWriteWinsUnlessBroken`, `WritesOver`). JSON leaves U+0085,
  U+2028 and U+2029 as they are (`SeparatorBreaksItsLine`); with such a character in the old value the
  rest of it is joined to the new one, and a second change can leave a space behind though neither
  literal holds a break (`SpaceIsLeft`). Two changes of different keys then commute exactly if each order
  finds both keys or neither does (`SeparateChangesCommute`, `KeyIsLost`).
- A batch of wallpapers that changed something and fails is not undone exactly when none of its commands
  failed with an error of the provider: every command was accepted and the last check failed, or a command
  or that check raised something else, like output that cannot be decoded (`BatchEnds`,
  `BatchCompensatesUnlessUnverified`; `UnverifiedBatchStays`, `BatchBreaksOff`). Applying an appearance then
  says that it was rolled back, and the wallpapers stay as the batch left them (`AppearanceService.Apply`;
  `UnverifiedApplyStays`, `BrokenApplyStays`).
- A command that fails after it changed its monitor is not undone (`FailingChangeStays`): a rollback
  fails only after two calls that misbehaved, or one of this kind.
- A bad binding file is not always reported as a validation error. Another exception comes through
  exactly for three causes (`ThreeCauses`, `WhatComesThrough`): parsing raises something else than a
  syntax error, as for an integer of more than 4300 digits; a row, with nothing wrong before it, has the
  flags release and repeating (`ImpossibleFlagsComeThrough`); or the registry it asks for cannot be
  encoded, as with a lone surrogate in a chord (`UnencodableChordsComeThrough`).
- A greetd answer ends the conversation with an exception nobody handles, and without a cancellation,
  exactly if its whole frame arrived and parsing it raises something else than a syntax error, or it is an
  object with an array or an object where a name is looked up (`WhatSurprises`, `ConversationsEndWell`).
  So does a request whose text cannot be encoded.
- Repeating an appearance request, with the payload it was last asked with, is a conflict exactly if its
  job was forgotten, ten minutes after it had been reported, and put back by a worker of that request
  that ended only then (`RepeatIsAnswered`, `PutBackExactly`, `PutBackMeans`; `LateFinishConflicts`). A
  caller that repeats before the job is forgotten, or whose workers had all ended by then, gets the job
  (`RepeatBeforeForgotten`, `RepeatAfterAllEnded`). If the request was asked for again in between, with
  whatever payload, it is answered with what the late worker reports (`AnsweredByAnotherExactly`,
  `AnotherMeans`; `LateFinishAnswersAnother`).
- A record of the update guardian that is replaced by a program after another has replaced it loses that
  step, unless both took the same one (`UpdateGuardian.Replace`); a final state can be lost that way
  (`FinalStateIsLost`). It does not happen as long as no program reads a record while another is about to
  replace it (`UpdateGuardian.Run`), which the service unit ensures for resuming and consuming, one after
  the other.
- An icon whose approval stops after the manifest is dropped again by the next approval of the same
  process (`NextApprovalForgets`). A journal that is JSON but no object keeps the store from opening, every
  time (`OpenStore`).
- A build receipt with fields of the wrong types, or a result nested too deeply to be parsed, stops the
  consumer with an error it does not catch; the record stays building, or evaluating, until it is resumed
  (`UpdateGuardian.ConsumerStep`).

## Model

| member | source | states |
|---|---|---|
| `Contours.MarchingSegments` | config/luminophore_shell/icon_generation.py:182-202 | the loops over rows and columns collect the segments of every cell, in order, and nothing else |
| `Contours.CellPartners` | config/luminophore_shell/icon_generation.py:174-202 | in a cell, a lattice point has one contour edge if it lies on that cell and separates two differing pixels, otherwise none; no edge leads back to its own point |
| `Contours.ContourDegree` | config/luminophore_shell/icon_generation.py:174-202 | for every bitmap: a point between two differing pixels has one contour edge per touching cell (two inside, one on the border), every other point has none |
| `Contours.PartnersAreDistinct` | config/luminophore_shell/icon_generation.py:174-202 | no point has more than two contour neighbours, none of them twice, none of them itself |
| `ContourWalks.BuildAdjacency` | config/luminophore_shell/icon_generation.py:206-212 | the map built segment by segment is exactly the neighbour relation of the segments |
| `ContourWalks.SortedStarts` | config/luminophore_shell/icon_generation.py:213-219 | all points, those with one neighbour first, then by coordinates |
| `ContourWalks.Follow` | config/luminophore_shell/icon_generation.py:221-236 | from a point with an unused edge the inner loop ends, by the number of unused edges, in a maximal trail of unused edges |
| `ContourWalks.MaximalTrailIsComponent` | config/luminophore_shell/icon_generation.py:213-240 | on a curve, a maximal trail started at a loose end (or, if none is left, anywhere) is a whole component: all edges of its points, closed or with loose ends |
| `ContourWalks.SegmentsToLines` | config/luminophore_shell/icon_generation.py:205-240 | for any segments the lines are the long ones among contiguous walks that use every segment exactly once and no other edge; on curves these are one walk per component |
| `ContourTracing.ContoursAreCurves` | config/luminophore_shell/icon_generation.py:174-240 | the contour graph of every bitmap is a curve: at most two distinct neighbours everywhere |
| `ContourTracing.SeparatorsAreContourPoints` | config/luminophore_shell/icon_generation.py:182-202 | with more than one row and column every separating point is a point of the contour graph |
| `ContourTracing.WalksAreComponents` | config/luminophore_shell/icon_generation.py:205-240 | two points lie on one walk exactly when a path connects them |
| `ContourTracing.LooseEndsOnBorder` | config/luminophore_shell/icon_generation.py:174-240 | a walk that is not closed ends on the border of the bitmap |
| `ContourTracing.LongWalksTrace` | config/luminophore_shell/icon_generation.py:205-240 | after the length filter each line is exactly one connected component, no two are the same, and what has no line lies on a component of fewer than four points |
| `ContourTracing.TraceContours` | config/luminophore_shell/icon_generation.py:182-240 | from bitmap to lines: every contour edge is walked once, each line is exactly one connected component, closed or with both ends on the border |
| `LineSimplification.KeptIsSound` | config/luminophore_shell/icon_generation.py:250-263 | a subsequence with both ends; every dropped point is within the limit of the chord of the kept points around it, for any deviation measure |
| `LineSimplification.FarthestIsFirstMaximum` | config/luminophore_shell/icon_generation.py:253-258 | the point to split at is the first of those farthest from the chord |
| `LineSimplification.SimplifyIdempotent` | config/luminophore_shell/icon_generation.py:250-263 | simplifying what was simplified changes nothing, for any deviation measure |
| `LineSimplification.SimplifyLineIsFaithful` | config/luminophore_shell/icon_generation.py:243-263 | both properties for the distance from the line and the tolerance 1.15, compared by squares |
| `LineSimplification.NormalizedFitsBox` | config/luminophore_shell/icon_generation.py:266-278 | every coordinate of every normalised line lies in [4, 44] |
| `LineSimplification.NormalizedFillsBox` | config/luminophore_shell/icon_generation.py:266-278 | when the extent exceeds one, the lines reach 4 and 44 in one direction |
| `IconStore.GeneratedIconStore.Approve` | config/luminophore_shell/icon_generation.py:468-493 | an approval in any process, stopped after any number of its steps: the exact disk, with the manifest written from the entries in memory, and success exactly if all steps were made and the object is intact |
| `IconStore.GeneratedIconStore.Activate` | config/luminophore_shell/icon_generation.py:461-466 | only an intact object becomes the active icon; otherwise nothing changes |
| `IconStore.GeneratedIconStore.Reconcile` | config/luminophore_shell/icon_generation.py:495-505 | repairing the store, stopped after any number of its steps: the exact disk; it raises exactly on a journal that is no object |
| `IconStore.OpenStore` | config/luminophore_shell/icon_generation.py:390-403 | opening the store repairs it, or fails exactly on a journal that is no object, and then again every time |
| `IconStore.StoppedApprovalIsRepaired` | config/luminophore_shell/icon_generation.py:420-505 | stopped before the manifest: the old manifest; stopped after it: the entries with the new one, its object active and no journal, exactly if the object is usable |
| `IconStore.StoppedAtJournal` | config/luminophore_shell/icon_generation.py:468-505 | stopped between journal and manifest: the journal is cleared and nothing shown, unless the old entry is for the same object, which is then shown again |
| `IconStore.NextApprovalForgets` | config/luminophore_shell/icon_generation.py:468-493 | after an approval that did not finish, the next one in the process writes the manifest from the old entries and drops what that one had added |
| `IconStore.ReopeningAgain` | config/luminophore_shell/icon_generation.py:495-505 | wherever repairing stopped, repairing again gives what finishing it would have given |
| `IconStore.JournalIsCleared` | config/luminophore_shell/icon_generation.py:495-505 | reopening clears the journal exactly unless it is unreadable, is no object, or awaits a damaged object |
| `IconStore.ReopeningTwice` | config/luminophore_shell/icon_generation.py:420-444 | reopening again changes nothing |
| `IconStore.OnlyEntriesBecomeActive` | config/luminophore_shell/icon_generation.py:420-466 | reopening makes only objects of manifest entries active, and changes neither manifest nor objects |
| `VisualReceipts.Resolve` | compositor/src/luminophore/LuminophoreVisualSettings.cpp:63-83 | the result is always normalised; recovery happens exactly for an unreadable request, a wrong schema or preset, or an intensity that is not finite, and then replaces every field; otherwise the intensity is the nearest in [0, 3] |
| `VisualReceipts.StepIsGood` | compositor/src/luminophore/LuminophoreVisualSettings.cpp:85-104 | every delivery, foreign write, plain write or restart keeps the log and the receipts in order, and serials never fall |
| `VisualReceipts.AppliedAtMostOnce` | compositor/src/luminophore/LuminophoreVisualSettings.cpp:85-104 | in every reachable world each write of the client took effect at most once, however often it was delivered |
| `VisualReceipts.DeadNeverApplies` | config/luminophore_shell/hyprland.py:569-596 | a write whose source or serial has passed cannot take effect in any later run |
| `VisualReceipts.FencesStayHarmless` | config/luminophore_shell/hyprland.py:583-588 | a fence, whenever it wins in any run, leaves the settings as they were |
| `VisualReceipts.SameSerialSameState` | compositor/src/luminophore/LuminophoreVisualSettings.cpp:85-104 | an unchanged source and serial mean that nothing changed |
| `VisualReceipts.EffectIsConfirmed` | config/luminophore_shell/hyprland.py:589-592 | a state that acknowledges a write proves that this write took effect with its settings |
| `VisualReceipts.HyprlandClient.ApplyVisualSettings` | config/luminophore_shell/hyprland.py:539-567 | at most one change is sent and never while one is uncertain; success means that this change took effect; uncertainty is kept exactly when completion is unknown; undisturbed, an admissible change succeeds |
| `VisualReceipts.HyprlandClient.ReconcileVisualSettings` | config/luminophore_shell/hyprland.py:569-596 | never sends a change; complete means it took effect, superseded that it never can; anything else leaves the uncertainty; undisturbed, a fence always decides |
| `VisualReceipts.HyprlandClient.FenceIfOpen` | config/luminophore_shell/hyprland.py:583-588 | a fence is sent exactly for the source and serial of the request; undisturbed, what is read afterwards decides |
| `SpatialDiagnostics.OverlapMeansCommonCell` | config/luminophore_shell/hyprland.py:459-460 | two views overlap exactly when they share a cell |
| `SpatialDiagnostics.Diagnose` | config/luminophore_shell/hyprland.py:398-456 | the set of findings is exactly the set of faults, each defined on its own |
| `SpatialDiagnostics.CheckViews` | config/luminophore_shell/hyprland.py:405-417 | the loop over the views finds exactly the faults of views |
| `SpatialDiagnostics.CheckBoards` | config/luminophore_shell/hyprland.py:445-455 | the loop over the windows finds exactly the faults of board coordinates and cells |
| `SpatialDiagnostics.CleanMeansPlaced` | config/luminophore_shell/hyprland.py:398-456 | without findings in normal mode every visible tiled window lies in the view of exactly one output |
| `SpatialDiagnostics.CleanViewsAreDisjoint` | config/luminophore_shell/hyprland.py:398-460 | without findings in protocol 1 views are in bounds and share no cell |
| `SpatialDiagnostics.CleanBoardsAreDistinct` | config/luminophore_shell/hyprland.py:398-456 | without findings in protocol 2 outputs bind distinct boards and no two windows share a board cell |
| `WallpaperTrace.GenerationsIncrease` | config/luminophore_shell/background_controller.py:100-104 | in every run each announced generation is higher than all before it |
| `WallpaperTrace.CommitFollowsReady` | config/luminophore_shell/background_controller.py:104-120 | COMMIT g is sent at most once, only after READY g was received, and never together with ABORT g |
| `WallpaperTrace.CommitWasChecked` | config/luminophore_shell/background_controller.py:104-120 | COMMIT g of a scene is sent only after READY g and a reading of the topology behind it, as the last thing, with the value it was prepared for |
| `WallpaperTrace.StoredWasCommitted` | config/luminophore_shell/background_controller.py:104-131 | a scene is stored only after COMMITTED of its own generation, prepared for it, and after the topology was read once more behind that COMMITTED, as the last thing, with the value it was prepared for; a fallback never |
| `WallpaperTrace.SupersededIsNeverStored` | config/luminophore_shell/background_controller.py:63-64 | a request that was superseded is never stored, before or after |
| `WallpaperTrace.AutomaticOnlyWhenOpen` | config/luminophore_shell/background_controller.py:148-170 | after a fallback recorded its topology no automatic attempt is queued or taken until a request of the user is taken, or the monitors changed since and the worker found them to be other than what was recorded |
| `WallpaperTrace.AtMostThreeFailures` | config/luminophore_shell/background_controller.py:190-202 | at most three counted failures in a row precede the fallback |
| `WallpaperTrace.RowsEnd` | config/luminophore_shell/background_controller.py:151-202 | a row of failures ends only where the attempt taken last was stored, is given up for the fallback, or the monitors are other than what the last fallback recorded |
| `WallpaperTrace.OneEndPerAttempt` | config/luminophore_shell/background_controller.py:148-202 | after a success or a fallback another attempt is taken before anything succeeds, fails or falls back again |
| `WallpaperController.BackgroundSceneController.Request` | config/luminophore_shell/background_controller.py:55-71 | latest wins: the waiting request is superseded and replaced; repeating a request changes nothing, reusing its id for another scene is refused; only the oldest jobs beyond 64 are forgotten |
| `WallpaperController.BackgroundSceneController.Restore` | config/luminophore_shell/background_controller.py:235-247 | starting up: the stored scene is active and tried first, unreadable state asks for the fallback, no state changes nothing |
| `WallpaperController.BackgroundSceneController.Listen` | config/luminophore_shell/background_layer.py:85-104 | events of other generations are skipped, EXIT and FAILED of this one are failures, only the awaited message of this generation counts |
| `WallpaperController.BackgroundSceneController.Wait` | config/luminophore_shell/background_layer.py:85-104 | success exactly if the awaited message of that generation was received; undisturbed, an answer that is there is found |
| `WallpaperController.BackgroundSceneController.Send` | config/luminophore_shell/background_layer.py:72-83 | a command goes out exactly if the renderer lives |
| `WallpaperController.BackgroundSceneController.AwaitReady` | config/luminophore_shell/background_controller.py:105-118 | ready with the topology unchanged, or aborted while the renderer lives |
| `WallpaperController.BackgroundSceneController.Confirm` | config/luminophore_shell/background_controller.py:119-129 | success only with the whole history of the generation, in order: prepared, ready, topology read, committed, confirmed, the same topology read again |
| `WallpaperController.BackgroundSceneController.Apply` | config/luminophore_shell/background_controller.py:79-141 | success means the last event stores this scene under this generation and it is the active one; undisturbed, a known scene with an answering renderer succeeds |
| `WallpaperController.BackgroundSceneController.Fallback` | config/luminophore_shell/background_controller.py:208-233 | ends degraded; shown means the fallback was prepared, committed and confirmed and its topology recorded, which closes automatic attempts |
| `WallpaperController.BackgroundSceneController.QueueRecovery` | config/luminophore_shell/background_controller.py:195-198 | the automatic retry never displaces what is waiting |
| `WallpaperController.BackgroundSceneController.CountFailure` | config/luminophore_shell/background_controller.py:193-202 | with an active scene a counted failure leaves a retry waiting, or from the third on the fallback |
| `WallpaperController.BackgroundSceneController.HandleFailure` | config/luminophore_shell/background_controller.py:173-202 | which failures count: those in transition, the four uncertain ones and those of recoveries, never a superseded one |
| `WallpaperController.BackgroundSceneController.NoticeTopology` | config/luminophore_shell/background_controller.py:151-156 | failures count anew exactly if the monitors are not what the last fallback recorded |
| `WallpaperController.BackgroundSceneController.Round` | config/luminophore_shell/background_controller.py:145-206 | one round of the worker, interleaved with everything else, keeps the bounds on failures and automatic attempts; left alone, it first notices monitors that are not what the last fallback recorded |
| `WallpaperController.BackgroundSceneController.Run` | config/luminophore_shell/background_controller.py:143-206 | every run of the worker is a run in the sense of the properties above, with the monitors as they change |
| `DdcQueue.MergeIsExactUnlessLossy` | config/luminophore_shell/hardware_controls.py:353-383 | merging a request has the effect of executing it last exactly when it is not lossy; power is never affected; an absolute write is always exact |
| `DdcQueue.MergeKeepsTheOthers` | config/luminophore_shell/hardware_controls.py:353-383 | only the last waiting request changes, brightness and power keep alternating and are never merged with each other |
| `DdcQueue.SameDirectionIsExact` | config/luminophore_shell/hardware_controls.py:361-369 | a delta in the direction of the one it is merged into loses nothing |
| `DdcQueue.UnsaturatedDeltasAreExact` | config/luminophore_shell/hardware_controls.py:332-369 | deltas merged into one waiting request are exact while no partial sum saturates |
| `DdcQueue.OvershootThenBackIsLossy` | config/luminophore_shell/hardware_controls.py:332-369 | up 60 and down 60 from 50 gives 40 one by one and 50 merged |
| `DdcQueue.MergingIsExact` | config/luminophore_shell/hardware_controls.py:319-437 | in every interleaving in which the commands of a bus succeed: if the deltas since the last absolute write point in one direction, or none, executed in order, runs into a limit, the monitor heads for exactly what executing all requests in order gives, and with nothing left to do is there |
| `DdcQueue.RunKeepsBus` | config/luminophore_shell/hardware_controls.py:341-437 | what every run keeps of such a bus: power is exact, and so is brightness for requests in one direction or within the limits |
| `DdcQueue.AbsoluteWritesForget` | config/luminophore_shell/hardware_controls.py:319-338 | an absolute write makes up for whatever came before it, also for failed commands |
| `DdcQueue.DrainedIsInOrder` | config/luminophore_shell/hardware_controls.py:353-437 | with nothing left to do brightness and power are those of executing all requests in order, unless a merge was lossy or a command failed since the last absolute write |
| `DdcQueue.WorkersFinish` | config/luminophore_shell/hardware_controls.py:416-437 | a worker left alone executes all that waits and ends |
| `DdcQueue.DdcBrightnessQueue.SubmitRequest` | config/luminophore_shell/hardware_controls.py:353-414 | refused out of range; otherwise merged, and a worker is started exactly if the bus has none |
| `DdcQueue.DdcBrightnessQueue.Work` | config/luminophore_shell/hardware_controls.py:416-437 | one step of a worker: finish the command in hand, take the next, or end with nothing left |
| `DdcQueue.DdcBrightnessQueue.Interleave` | config/luminophore_shell/hardware_controls.py:341-437 | in every interleaving: one worker per running bus, whatever waits has one, and the state follows the steps exactly |
| `Chords.NormalizeChord` | config/luminophore_shell/binding_registry.py:24-42 | the loop over the parts computes the normal form, with an error for no part, no key and two keys |
| `Chords.NormalizeIsIdempotent` | config/luminophore_shell/binding_registry.py:24-42 | normalising a normal form changes nothing, for any upper-casing of characters with the laws of `IsCasing` |
| `Chords.ModifiersMayStandAnywhere` | config/luminophore_shell/binding_registry.py:24-42 | the result depends only on the set of modifiers and the key: order, position and repetition do not matter |
| `Bindings.Validate` | config/luminophore_shell/binding_registry.py:88-119 | the loops accept exactly registries with distinct triggers, whole groups and a recovery action |
| `Bindings.UpdateKeepsRegistry` | config/luminophore_shell/binding_registry.py:125-137 | an update gives a valid registry of the same actions with normal chords |
| `Bindings.UpdatesKeepRegistry` | config/luminophore_shell/binding_registry.py:125-137 | so does any sequence of updates |
| `Bindings.DecodeRegistry` | config/luminophore_shell/legacy_bindings.py:12-55 | the loop over the rows agrees with the decoder defined row by row: unknown, repeated and missing rows, wrong types and wrong hashes are errors |
| `Bindings.DocumentRoundTrip` | config/luminophore_shell/generated_bindings.py:14-46 | decoding the serialised document gives back exactly the registry |
| `Bindings.EveryReachableRegistryRoundTrips` | config/luminophore_shell/legacy_bindings.py:12-55 | for every registry reached from the default by updates, for any spelling of chords that is stable |
| `Bindings.NormalFormIsStable` | config/luminophore_shell/binding_registry.py:24-42 | the normal form of chords is such a spelling |
| `Bindings.RegistriesOfNormalChordsRoundTrip` | config/luminophore_shell/legacy_bindings.py:12-55 | so every registry reached with normal chords is valid and round-trips |
| `Bindings.DecodedIsRegistry` | config/luminophore_shell/legacy_bindings.py:12-55 | whatever decodes is a valid registry with the hash it claims, and serialising it decodes to it |
| `Bindings.ImpossibleFlagsComeThrough` | config/luminophore_shell/legacy_bindings.py:25-46 | a whole document: its first row says release and repeating, and another error than the validation error comes out |
| `Bindings.AcceptedRowsDenote` | config/luminophore_shell/legacy_bindings.py:25-50 | an accepted document has exactly one row for each action of the result, with its metadata and flags and a spelling of its chord |
| `Bindings.WhatComesThrough` | config/luminophore_shell/legacy_bindings.py:12-55 | the decoder raises another error exactly if a row has impossible flags with nothing wrong before it, or the registry it asks for cannot be hashed |
| `Bindings.UnencodableChordsComeThrough` | config/luminophore_shell/legacy_bindings.py:49-55 | the document of a registry that cannot be encoded raises another error |
| `BindingTransaction.ThreeCauses` | config/luminophore_shell/legacy_bindings.py:12-55 | for the bytes of a file: parsing raises, impossible flags, or a registry that cannot be encoded, and nothing else |
| `BindingTransaction.DigestsAgree` | config/luminophore_shell/binding_service.py:69-74 | two pairs of files have one digest exactly if they are equal or one looks like the other |
| `BindingTransaction.DigestIsInjectiveOnText` | config/luminophore_shell/binding_service.py:69-74 | files without NUL in the state are told apart |
| `BindingTransaction.SomeFilesAreConfused` | config/luminophore_shell/binding_service.py:69-74 | two different pairs of files with one digest |
| `BindingTransaction.SerialisedReadsBack` | config/luminophore_shell/binding_service.py:101-120 | files written for a registry are read back as that registry |
| `BindingTransaction.BindingPersistenceService.Snapshot` | config/luminophore_shell/binding_service.py:101-120 | the snapshot is what the two files mean, or an error of the file system |
| `BindingTransaction.BindingPersistenceService.Apply` | config/luminophore_shell/binding_service.py:132-164 | for every pattern of failures: both files new and read back as the update, or both as before, or an admitted failure of the rollback, which takes two faults; a stale digest changes nothing; which rejection comes is exact |
| `KeyPlaces.SectionBounds` | config/luminophore_shell/config.py:831-845 | the bounds of a section that has exactly one header, up to the next header |
| `KeyPlaces.FindKey` | config/luminophore_shell/config.py:967-972 | the only line of that key in the section, or none |
| `TomlLines.SplitOfConcat` | config/luminophore_shell/config.py:952-984 | lines that end in breaks are found again in their concatenation |
| `TomlLines.LiteralIsClosed` | config/luminophore_shell/config.py:815-828 | the scanner ends outside quotes, with no comment, on every printed literal: quotes, backslashes and # included |
| `TomlPatch.ScanComment` | config/luminophore_shell/config.py:976-983 | the loop with its two flags finds the comment the scanner defines |
| `TomlPatch.ChangeLine` | config/luminophore_shell/config.py:967-984 | the change of one key in place is the patch of that key |
| `TomlPatch.RenderPatch` | config/luminophore_shell/config.py:952-984 | changes are applied one after the other; nothing is written if one fails or the result does not parse |
| `TomlPatch.RewritingKeeps` | config/luminophore_shell/config.py:973-984 | a rewritten line still holds the key, keeps its indentation, its comment and a line feed at its end, and rewriting it again only replaces the value; a carriage return in front of the line feed goes with the old value unless a comment stands there |
| `TomlPatch.CommentOfRewritten` | config/luminophore_shell/config.py:976-984 | the scanner finds the old comment in the new line |
| `TomlPatch.OnlyOneKeyMatches` | config/luminophore_shell/config.py:968-969 | a line matches one key only |
| `TomlPatch.DistinctKeysCommute` | config/luminophore_shell/config.py:952-984 | within one call changes of distinct keys commute, failures included |
| `TomlTexts.SeparateChangesCommute` | config/luminophore_shell/config.py:952-984 | two calls that change distinct keys to literals without a break give the same text in either order, failures included, if and only if each order finds both keys or neither does, among the lines of the text without the one that the first change joins |
| `TomlTexts.ChangesOfKeptLinesCommute` | config/luminophore_shell/config.py:952-984 | so they do if neither change joins a line |
| `TomlTexts.KeyIsLost` | config/luminophore_shell/config.py:952-984 | an old value with U+2028 in front of what looks like another key: one order fails and the other does not |
| `TomlTexts.OnlyOneLineChanges` | config/luminophore_shell/config.py:952-984 | on the text: exactly the line of the key is replaced and read again, if and only if the new literal holds no line break and the line keeps its end |
| `TomlTexts.LastWriteWinsUnlessBroken` | config/luminophore_shell/config.py:952-984 | two changes of one key, whatever the old value, equal the second alone if and only if the first literal holds no line break, and the line keeps its end or the line joined to it is its own tail |
| `TomlTexts.LastAcceptedWriteWins` | config/luminophore_shell/config.py:952-988 | with the parser in between, for any parser: the same, or both are refused |
| `TomlTexts.SpaceIsLeft` | config/luminophore_shell/config.py:973-984 | an old value with U+2028 in front of #: changing it to 1 and then to 2 leaves a space that changing it to 2 does not |
| `TomlTexts.SeparatorBreaksItsLine` | config/luminophore_shell/config.py:815-828 | a text with U+2028 is printed with that line break in it |
| `UpdateRecords.TerminalStatesLast` | Luminophore-OS/update-guardian/desktop-follow.py:25-33 | a history that reached compatible or installed does not go on |
| `UpdateRecords.InstalledWasBuilt` | Luminophore-OS/update-guardian/desktop-follow.py:25-33 | installed is always preceded by observed, evaluating, building and staged, in this order |
| `UpdateRecords.UpdateGuardian.Load` | Luminophore-OS/update-guardian/desktop-follow.py:202-214 | a transition is prepared exactly along the table, from the record as it was read, with its detail and one more entry in the history |
| `UpdateRecords.UpdateGuardian.Replace` | Luminophore-OS/update-guardian/desktop-follow.py:214-216 | the file of the record is replaced with that, whatever it holds by now: histories only grow if nobody else replaced it since it was read; the first time somebody did, exactly if they took the same step and no other |
| `UpdateRecords.UpdateGuardian.ObserveChange` | Luminophore-OS/update-guardian/desktop-follow.py:143-186 | nothing to follow, known, queue full or a new record: which one, and the exact queue; observing again adds nothing |
| `UpdateRecords.UpdateGuardian.Resume` | Luminophore-OS/update-guardian/desktop-follow.py:219-233 | undisturbed: every interrupted record is observed again with its reason, the others are untouched, nothing is left evaluating or building, and the count is right |
| `UpdateRecords.UpdateGuardian.ConsumerStep` | Luminophore-OS/update-guardian/build-next.py:75-115 | each step of the consumer prepares exactly the transition its work calls for; a package is recorded as built only with a receipt that fits transaction and host; a result it cannot take in stops it with nothing recorded |
| `UpdateRecords.UpdateGuardian.InstallerCheck` | Luminophore-OS/update-guardian/install-release.py:50-84 | receipt, host digest and package, in this order; the first that does not fit ends the installer without a change |
| `UpdateRecords.UpdateGuardian.InstallerPlans` | Luminophore-OS/update-guardian/install-release.py:85-90 | only after the package was put in and its generation admitted is the record to be installed, if it is still staged; otherwise the installer ends |
| `UpdateRecords.UpdateGuardian.InstallerFinishes` | Luminophore-OS/update-guardian/install-release.py:85-90 | the record is replaced with the installed one, no other record is installed, and the installer ends |
| `UpdateRecords.UpdateGuardian.Run` | Luminophore-OS/update-guardian/desktop-follow.py:143-233 | in every run of all programs, reading and replacing records in any order, with crashes: histories are legal, the queue is bounded, and whatever is installed was built and staged for, and seen on, the host it was observed on; if nobody replaces a record another has replaced since it was read, histories only grow and final states stay; and nobody does if no record is read while another program is about to replace it |
| `UpdateRecords.FinalStateIsLost` | Luminophore-OS/update-guardian/desktop-follow.py:202-233 | a consumer records compatible, and resuming, which had read the record before, observes it again: the final state is gone from the history |
| `AppearanceTransaction.QuietBatchSucceeds` | config/luminophore_shell/wallpaper_providers.py:95-117 | without trouble a batch sets every wallpaper |
| `AppearanceTransaction.OneRefusalIsCompensated` | config/luminophore_shell/wallpaper_providers.py:95-117 | a single call that misbehaves, unless it changes something and then fails, never ends in a failed rollback, and after an error of the provider everything is as before |
| `AppearanceTransaction.BatchEnds` | config/luminophore_shell/wallpaper_providers.py:95-117 | everything new and checked, everything as before, an admitted failure of the rollback, completion unknown exactly if every command was accepted and the check found something else, or another exception exactly if the validation, a command or that check raised it, with nothing put back |
| `AppearanceTransaction.BatchCompensatesUnlessUnverified` | config/luminophore_shell/wallpaper_providers.py:95-117 | a failed batch without an admitted failure of the rollback leaves a change exactly if its commands made one and none of them failed with an error of the provider |
| `AppearanceTransaction.UnverifiedBatchStays` | config/luminophore_shell/wallpaper_providers.py:115-117 | one monitor, its check fails: the new wallpaper stays |
| `AppearanceTransaction.BatchBreaksOff` | config/luminophore_shell/wallpaper_providers.py:30-34 | two monitors, the second command prints what cannot be decoded: the first keeps its new wallpaper |
| `AppearanceTransaction.FailingChangeStays` | config/luminophore_shell/wallpaper_providers.py:104-113 | one monitor, its command fails after the change: the rollback fails |
| `AppearanceTransaction.OldenIsBefore` | config/luminophore_shell/wallpaper_providers.py:104-113 | the commands that compensate name the same monitors with their old wallpapers |
| `AppearanceTransaction.AppearanceService.ApplyBatch` | config/luminophore_shell/wallpaper_providers.py:95-117 | the loops over commands and compensations are the batch; only errors of the provider are caught |
| `AppearanceTransaction.AppearanceService.Restore` | config/luminophore_shell/wallpaper_providers.py:124-130 | restoring sets every wallpaper in reverse and checks the result |
| `AppearanceTransaction.AppearanceService.PutState` | config/luminophore_shell/appearance_state.py:101-127 | both files and the shell, or an error that took a fault |
| `AppearanceTransaction.AppearanceService.MakePreview` | config/luminophore_shell/appearance_service.py:70-114 | a preview for all monitors, validated by the provider and compiled row by row, is kept under its content; which error comes, the compiler's own and that of an impossible topology included, is exact |
| `AppearanceTransaction.AppearanceService.Discard` | config/luminophore_shell/appearance_service.py:65-68 | exactly that preview goes |
| `AppearanceTransaction.AppearanceService.Consume` | config/luminophore_shell/appearance_service.py:120-125 | a preview is taken out for good, and is good only if it is the one of the token with monitors and configuration unchanged; impossible monitor names are an error of their own |
| `AppearanceTransaction.AppearanceService.Apply` | config/luminophore_shell/appearance_service.py:116-164 | wallpaper and files all new, or all as before, or an admitted failure of the rollback, which takes two calls that misbehave or one that changed something and failed; except exactly if the batch will break off or stay unverified: then a rollback is reported and the wallpapers stay as the batch left them; each preview is consumed at most as often as it was stored |
| `AppearanceTransaction.UnverifiedApplyStays` | config/luminophore_shell/appearance_service.py:131-164 | one monitor, its check is refused: the apply reports a rollback and the new wallpaper stays |
| `AppearanceTransaction.BrokenApplyStays` | config/luminophore_shell/appearance_service.py:131-164 | two monitors, the second command breaks off: the apply reports a rollback and the first keeps its new wallpaper |
| `JobLedger.Ledger.Cleanup` | config/luminophore_shell/app.py:1584-1597 | exactly finished jobs and unreserved tokens older than ten minutes go; running jobs and reserved tokens stay |
| `JobLedger.Ledger.StartPreview` | config/luminophore_shell/app.py:1605-1674 | a known request gets its job or a conflict and starts nothing; a new one starts one worker with thirty seconds |
| `JobLedger.Ledger.StartApply` | config/luminophore_shell/app.py:1676-1736 | a known request starts nothing; a new one needs a token that is alive and not reserved, and reserves it |
| `JobLedger.Ledger.Status` | config/luminophore_shell/app.py:1792-1809 | a running job past its deadline is reported as unknown, every other job as it is |
| `JobLedger.Ledger.PreviewStep` | config/luminophore_shell/app.py:1632-1664 | compile, keep, report: each step brings the worker closer to its end, and only the last or a failure ends its job |
| `JobLedger.Ledger.EnterService` | config/luminophore_shell/appearance_service.py:116-118 | busy, or the service is held |
| `JobLedger.Ledger.TakePreview` | config/luminophore_shell/appearance_service.py:119-124 | the preview is taken out of the service, or is stale and the service is given back |
| `JobLedger.Ledger.Release` | config/luminophore_shell/app.py:1699-1724 | the reservation goes; the token goes too unless the service was busy or broke down |
| `JobLedger.Ledger.ApplyStep` | config/luminophore_shell/app.py:1697-1725 | each step brings the worker closer to its end, and only the last ends its job, with the phase its outcome calls for |
| `JobLedger.HoldersAreDistinct` | config/luminophore_shell/app.py:1676-1736 | no two workers hold one preview |
| `JobLedger.Ledger.Run` | config/luminophore_shell/app.py:1584-1736 | in every interleaving: no preview in two hands, none succeeds more often than it was stored, every running job has a live worker, and a request repeated with the payload it was last asked with gets its job, or a conflict exactly if the job was put back |
| `JobLedger.LateFinishConflicts` | config/luminophore_shell/app.py:1584-1664 | a forgotten job that finishes late turns its own repetition into a conflict |
| `JobLedger.LateFinishAnswersAnother` | config/luminophore_shell/app.py:1584-1664 | a forgotten job that finishes late answers another request asked under its id, whose own worker still runs |
| `JobJournal.RepeatIsAnswered` | config/luminophore_shell/app.py:1605-1627 | for every journal: repeating a request with its last payload is a conflict exactly if the job was put back, otherwise it is answered with the job |
| `JobJournal.PayloadsAreKept` | config/luminophore_shell/app.py:1584-1627 | the payload that is kept is the one asked for last, and a job is without one exactly if it was put back |
| `JobJournal.PutBackExactly` | config/luminophore_shell/app.py:1584-1603 | a job was put back exactly if it was forgotten, not asked for again, and a worker reported for it since |
| `JobJournal.PutBackMeans` | config/luminophore_shell/app.py:1584-1603 | then the worker that put it back was still alive when the job was forgotten, more than ten minutes after it had been reported |
| `JobJournal.RepeatBeforeForgotten` | config/luminophore_shell/app.py:1605-1627 | a request repeated before its job is forgotten gets the job |
| `JobJournal.RepeatAfterAllEnded` | config/luminophore_shell/app.py:1605-1627 | so does one none of whose workers was alive whenever it was forgotten |
| `JobJournal.RepeatInTime` | config/luminophore_shell/app.py:1584-1627 | and one repeated within ten minutes of its report, cleaning up included |
| `JobJournal.AnsweredByAnotherExactly` | config/luminophore_shell/app.py:1599-1603 | a job shows the report of another worker than its own exactly if the last report since it was asked for is of a worker started for an earlier request |
| `JobJournal.AnotherMeans` | config/luminophore_shell/app.py:1599-1603 | that worker was alive when its job was forgotten, ten minutes after a report, and the id was asked for again before it reported |
| `GreetdFrames.UnpackPack` | config/luminophore_shell/greetd_client.py:49-53 | the four bytes of a length give it back |
| `GreetdFrames.RecvTakesExactly` | config/luminophore_shell/greetd_client.py:56-65 | however bytes are cut, exactly the first ones are taken and the others left |
| `GreetdFrames.RecvNeverTruncates` | config/luminophore_shell/greetd_client.py:56-65 | too few bytes are an error, never a shorter answer |
| `GreetdFrames.DecodeEncoded` | config/luminophore_shell/greetd_client.py:49-79 | decoding an encoded valid message returns it and consumes exactly its bytes, whatever follows |
| `GreetdClient.Client.RecvExactly` | config/luminophore_shell/greetd_client.py:56-65 | the loop over chunks is that function |
| `GreetdClient.Client.ReceiveFrame` | config/luminophore_shell/greetd_client.py:68-79 | the header, the limit, the body and the schema, in this order |
| `GreetdFrames.WhatSurprises` | config/luminophore_shell/greetd_client.py:68-100 | however the bytes are cut: an exception nobody handles is raised exactly if the whole frame arrived and parsing it raises, or it is an object with an array or an object where a name is looked up |
| `GreetdClient.Client.Ask` | config/luminophore_shell/greetd_client.py:122-124 | one request and its answer; nothing is written of a request that cannot be encoded |
| `GreetdClient.PasswordOnce` | config/luminophore_shell/greetd_client.py:180-193 | in every conversation the password goes out at most once, as given, and only in answer to a secret prompt |
| `GreetdClient.StartOnce` | config/luminophore_shell/greetd_client.py:161-173 | the session is started at most once and only after success |
| `GreetdClient.ConversationsEndWell` | config/luminophore_shell/greetd_client.py:145-208 | success exactly if the start was answered with success; every other exit cancels last and reports why, except after an answer nobody expects |
| `GreetdClient.Client.Converse` | config/luminophore_shell/greetd_client.py:145-208 | against every server and every break the client asks exactly what the conversation calls for, and ends as it calls for |
| `GreetdClient.Client.Authenticate` | config/luminophore_shell/greetd_client.py:132-157 | a second caller is told so and changes nothing; without a socket or a usable name nothing is asked; afterwards the client is free again |

## Left out

- GTK, layer-shell, D-Bus, HTTP and subprocess plumbing, and the compositor beyond its visual settings: no state machine of their own that the models need.
- SHA-256, JSON text, TOML parsing and the Lua renderer: hashes are injective, codecs are parameters; the parser that accepts a patched configuration is a parameter of `RenderPatch`.
- Floating point: geometry and intensity are exact reals. The filter for short lines needs square roots and is a parameter of `NormalizeLines`; float literals are not among the printed TOML values.
- Images: the contour pipeline starts from the binary mask; filters, SVG validation and the text of the manifest are not modelled.
- Adding a missing key or section for owned settings, tables, devices and the keymap import of `render_config_patch`: only the change of an existing single-line key is modelled, for keys that need no escaping in a pattern.
- Unicode case mapping: chords are upper-cased by a parameter with the laws of `IsCasing`, which upper-casing of ASCII letters meets (`AsciiIsCasing`); the tables of Unicode are not part of this model.
- Monitors whose highest brightness is not 100, and the power mode behind a brightness write, in the monitor queue.
- Checks of the form of a request before the job ledger sees it; clocks are arguments.
- Rendering outputs and specifications of a scene, and the HELLO handshake, which is a choice that may fail.
- The branch of the appearance state for a native configuration source, file modes, and the compiler of palettes.
- Removing a generated icon, and the sanitising of its manifest.
- The `retry` that failure records name is modelled as a transition from failed to observed, although the command line of the guardian has no such command.
- UpdateRecords.UpdateGuardian.InstallerCheck: package ownership, hash and version checks are one condition, `sound` or `succeeds`, because each only refuses.
- UpdateRecords.UpdateGuardian.Resume: the loop over the queue is stated undisturbed; resuming a record between steps of other programs is a step of `Run`.
- WallpaperController.BackgroundSceneController.Wait: time is a bounded number of rounds that may end early, not seconds.
- JobLedger.Ledger.StartPreview: a worker whose thread cannot be started ends its job in the step that asked for it; the instant in which the job shows as running is not modelled.
- TomlPatch.RenderPatch: a missing owned key is inserted by the source; here the patch fails, because only the change of existing keys is modelled.
- GreetdClient.Client.Authenticate: the `state` shown while a conversation runs is not modelled; it decides nothing.
