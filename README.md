# Draw-To-Smash: the drawing, judging, level and pooling core in Dafny

Draw-To-Smash is a 2D physics puzzle. The player draws a single stroke inside a draw
area. The stroke becomes a rigid body that falls, rolls, hangs on gears or rides lifts,
and has to break the bad eggs of the level. A game manager judges the level after fixed
delays, a level manager loads levels from a list, and an object pool recycles objects.

This project models that core and proves properties of the model. Each source file is
modelled in its own form. The classes the engine updates in place become Dafny classes
whose methods change their fields. The pure parts become functions and lemmas.

| Dafny module (file) | models |
|---|---|
| `Geometry` (geometry.dfy) | 2D vectors and the few operations the drawers use |
| `Ribbon` (ribbon.dfy) | the ribbon a stroke is drawn as, stated as functions of the samples: its vertices, quad strip, outline, centroid, path length and texture rows |
| `StrokeDrawing` (draw_manager.dfy) | the current drawer, `_GamePlay/DrawManager.cs` |
| `FallDrawing` (draw_fall.dfy) | the older drawer and its collision handler, `DrawFall.cs` |
| `GameStates` (game_state.dfy) | the game states both managers share, their guarded transitions and the scene scan |
| `GameFlow` (game_manager.dfy) | the current game manager, `_Manager/GameManager.cs` |
| `LegacyGameFlow` (game_manager_legacy.dfy) | the older game manager, `Manager/GameManager.cs` |
| `LevelIndex` (level_index.dfy) | the index arithmetic both level managers share |
| `Levels` (level_manager.dfy) | the current level manager, `_Manager/LevelManager.cs` |
| `LegacyLevels` (level_manager_legacy.dfy) | the older level manager, `Manager/LevelManager.cs` |
| `Physics` (physics.dfy) | rigidbodies and joints, as far as the gears and lifts touch them |
| `GearPins` (gears.dfy) | a gear pinning strokes with joints, `Gears.cs` and `_GamePlay/Gears.cs` |
| `LiftAttach` (stroke_attach.dfy) | the one-shot attachment of a stroke, `_GamePlay/StrokeAttachToLift.cs` |
| `Pooling` (pool.dfy) | the object pool, `Pool.cs` |
| `Lists`, `Optional` | the engine's list removal and a null-or-value wrapper |

## How the engine is represented

Engine queries become inputs to the methods that use them:

- the draw area under a sample (`hit`);
- `normalized` and `Vector2.Distance` (`norm`, `dist`);
- the layer lookup by name (`nameToLayer`);
- world-to-local transforms (`toLocal`);
- whether an egg is still active (`activeEgg`);
- the objects of the scene (`scene`).

The drawers' geometric facts hold whatever values `norm` and `dist` take.

A coroutine becomes the event at which its wait ends. Examples are `StartJudgeFires`,
`PostStrokeJudgeFires`, `TargetGone` and `DelayOver`. The older manager's countdown is a
loop resumed once per frame, and `CountdownFrame` is one pass of it. A handle to a
coroutine is a `Routine`: `Idle` (null), `Running`, or `Ended`.

An object destroyed by the engine is the engine's null. It is `None`, or an object no
longer alive.

## What is proved

**Drawing (both drawers).**
- The buffers of a stroke in progress are always exactly the ribbon of the accepted
  samples (`Valid`, preserved by every operation):
  - two vertices per sample, symmetric about it and a full thickness apart along its
    normal;
  - a quad strip whose segment j joins vertex pairs j and j+1;
  - the outline: left vertices forward, then right vertices backward;
  - texture rows that follow the length drawn (`DrawManager.cs`) or the sample count
    (`DrawFall.cs`);
  - the polygon collider holding that outline once there is one.
- A stroke is kept only with two samples or more. The second guard of the release
  (`verts.Count < 4`) never decides.
- The current drawer recentres a kept stroke on its centroid. The local vertices then
  sum to zero, and each local vertex placed at the body's position is its world vertex
  again.
- The older drawer's collision handler schedules each target at most once. Exactly one
  delayed vanish runs per scheduled target.

**Judging.**
- Victory and Fail are final under any sequence of events.
- A level is settled only from Gameplay.
- Pause and Resume undo each other. Across the modelled operations of either manager,
  time runs exactly in Gameplay.
- Only the first finished stroke of a level counts.
- The post-stroke judge of either manager loses the level exactly when an active bad
  egg is left, and wins it otherwise.
- The start judge of the current manager can only win.
- In both managers, a judge that finds the state outside Gameplay ends without a
  verdict, and nothing starts it again within the level. In the current manager this
  happens when the game is paused at the moment a judge's wait ends. The older manager's
  countdown checks the state on every frame, so a pause at any frame of its delay ends
  it. The contracts of `PostStrokeJudgeFires`, `CountdownFrame` and
  `NotifyStrokeCompleted` state this.

**Levels.**
- The current index is always a level of the list or -1.
- Next and previous wrap or stop at the ends. With wrap-around they undo each other on
  every level.
- Every entry point (start, replay, next, previous, by id) performs the full load of
  its target: the level becomes current, is saved and reported, and in the current
  manager the game manager is reset.
- A level without prefab leaves no level loaded and keeps the old index.

**Gears.**
- A gear's joint registry never repeats a joint, holds only joints to that gear, and
  stays within `maxPins + 1`.
- A pin adds a hinge at the gear centre. A tether is added exactly when the stroke's
  polygon does not cover the centre.
- A refused pin changes nothing.
- A broken joint leaves the registry. Disabling destroys every remembered joint.

**Pool.**
- The preload queues exactly `preload` fresh, inactive, tagged copies per key that has a
  prefab.
- `Get` dequeues, makes an object or fails, exactly as the source does.
- Despawning returns every live object of the pool to the queue of its key and loses no
  queued object. Only live objects of other pools stay active.

## Model

| member | source | states |
|---|---|---|
| Ribbon.VertsAt | Assets/_Game/Scripts/DrawFall.cs:149-157 | vertices 2i and 2i+1 are the left and right offsets of sample i, symmetric about the sample (their sum is twice the sample) |
| Ribbon.VertsWidth | Assets/_Game/Scripts/_GamePlay/DrawManager.cs:185-193 | with the drawers' half-thickness offset, the two vertices of a sample lie a full thickness apart along the normal of its direction |
| Ribbon.PrefixPair | Assets/_Game/Scripts/DrawFall.cs:148-157 | the vertex pair of a sample depends only on that sample and the one before it, not on later samples |
| Ribbon.VertsSnoc | Assets/_Game/Scripts/DrawFall.cs:148-157 | appending a sample appends exactly its left and right vertex to the vertex buffer |
| Ribbon.QuadStripLength | Assets/_Game/Scripts/DrawFall.cs:163-169 | the index buffer over n samples has six indices per segment |
| Ribbon.QuadStripShape | Assets/_Game/Scripts/DrawFall.cs:163-169 | six indices per segment, and every index names an existing vertex |
| Ribbon.QuadStripAt | Assets/_Game/Scripts/DrawFall.cs:163-169 | segment j occupies indices 6j..6j+5 and joins vertex pairs j and j+1 by the triangles (2j,2j+1,2j+2) and (2j+2,2j+1,2j+3) |
| Ribbon.ReverseAt | Assets/_Game/Scripts/DrawFall.cs:197 | position k of the reversed list is position n-1-k of the list |
| Ribbon.OutlineAt | Assets/_Game/Scripts/DrawFall.cs:184-199 | the outline over p vertex pairs has 2p points: point k < p is left vertex k, and point p+k is right vertex p-1-k |
| Ribbon.BuildOutline | Assets/_Game/Scripts/DrawFall.cs:186-198 | the collecting loop produces the left vertices forward, then the right ones backward |
| Ribbon.RebuildOutline | Assets/_Game/Scripts/_GamePlay/DrawManager.cs:221-236 | with two vertex pairs or more the outline is rebuilt from the vertices; with fewer it is left as it was |
| Ribbon.RibbonAppend | Assets/_Game/Scripts/DrawFall.cs:146-171 | appending one sample the way the drawers do keeps vertices, triangles and outline the ribbon of the samples |
| Ribbon.OutlineLength | Assets/_Game/Scripts/DrawFall.cs:184-199 | the outline has one point per vertex |
| Ribbon.RibbonOutlineSize | Assets/_Game/Scripts/DrawFall.cs:180-181 | a ribbon of two samples or more has an outline with a point per vertex and at least four points; before that the outline is empty |
| Ribbon.SumShift | Assets/_Game/Scripts/_GamePlay/DrawManager.cs:249-253 | moving every vertex by -c moves their sum by -n*c |
| Ribbon.CentredSumIsZero | Assets/_Game/Scripts/_GamePlay/DrawManager.cs:249-253 | after recentring on the centroid, the vertices sum to zero, so their mean is the body's origin |
| Ribbon.OutlineShift | Assets/_Game/Scripts/_GamePlay/DrawManager.cs:253-254 | moving the vertices and then taking the outline equals moving the outline by the same amount |
| Ribbon.CentreOf | Assets/_Game/Scripts/_GamePlay/DrawManager.cs:249-251 | the summing loop divided by the count yields the centroid of the vertices |
| Ribbon.PathLengthMonotone | Assets/_Game/Scripts/_GamePlay/DrawManager.cs:180-181 | with a non-negative distance, the length drawn is non-negative and never shrinks as samples are added |
| Ribbon.CountUvsAt | Assets/_Game/Scripts/DrawFall.cs:159-161 | the texture row of sample i in the count scheme is u = 0 and u = 1 at v = (i+1)/10 |
| StrokeDrawing.Cleared | Assets/_Game/Scripts/_GamePlay/DrawManager.cs:288-289 | all five buffers are emptied and the length drawn is kept (it is reset only when a stroke begins) |
| StrokeDrawing.DrawnCleared | Assets/_Game/Scripts/_GamePlay/DrawManager.cs:289 | emptied buffers are the ribbon of no samples |
| StrokeDrawing.DrawnAppend | Assets/_Game/Scripts/_GamePlay/DrawManager.cs:177-208 | one sample appended as the drawer does keeps the buffers the ribbon of the samples, with texture rows at the new length |
| StrokeDrawing.AppendUvs | Assets/_Game/Scripts/_GamePlay/DrawManager.cs:196-198 | the texture row of a new sample takes v from the length drawn up to and including it |
| StrokeDrawing.AppendSample | Assets/_Game/Scripts/_GamePlay/DrawManager.cs:177-208 | the sample is added; the length grows by the distance from the previous sample (after the first); the buffers stay the ribbon of the samples |
| StrokeDrawing.KeptIsWellFormed | Assets/_Game/Scripts/_GamePlay/DrawManager.cs:242-256 | a kept stroke has at least two vertex pairs, is centred on its origin, and its outline is built from its vertices |
| StrokeDrawing.Recentre | Assets/_Game/Scripts/_GamePlay/DrawManager.cs:249-254 | the centre is the centroid of the vertices, and every vertex and outline point is moved by it |
| StrokeDrawing.RecentringKeepsWorldShape | Assets/_Game/Scripts/_GamePlay/DrawManager.cs:253-256 | each local vertex placed at the body's position is the world vertex it came from |
| StrokeDrawing.VertexGuardRedundant | Assets/_Game/Scripts/_GamePlay/DrawManager.cs:242 | `pts.Count < 2 \|\| verts.Count < 4` holds exactly when `pts.Count < 2` |
| StrokeDrawing.DrawManager.constructor | Assets/_Game/Scripts/_GamePlay/DrawManager.cs:16-26 | no stroke, no area and empty buffers, with the configured thickness, minimum distance and texture scale |
| StrokeDrawing.DrawManager.TryBeginStroke | Assets/_Game/Scripts/_GamePlay/DrawManager.cs:104-111 | a press outside a draw area changes nothing; inside one, a stroke starts with that area and the press as its only sample, and a stroke already in progress is left behind |
| StrokeDrawing.DrawManager.BeginStroke | Assets/_Game/Scripts/_GamePlay/DrawManager.cs:133-169 | the buffers hold the start sample only, the length is zero and the collider has its default shape |
| StrokeDrawing.DrawManager.TryContinueStroke | Assets/_Game/Scripts/_GamePlay/DrawManager.cs:113-120 | a sample is considered only during a stroke and inside its own area; it is appended exactly when it is at least the minimum distance from the last one, and otherwise nothing changes |
| StrokeDrawing.DrawManager.ContinueStroke | Assets/_Game/Scripts/_GamePlay/DrawManager.cs:171-175 | a sample at least the minimum distance from the last one is appended and lengthens the stroke by that distance; a nearer one changes nothing |
| StrokeDrawing.DrawManager.AddPoint | Assets/_Game/Scripts/_GamePlay/DrawManager.cs:177-219 | the sample is appended, the buffers stay the ribbon of the samples, and the collider holds the outline once there is one |
| StrokeDrawing.DrawManager.EndStroke | Assets/_Game/Scripts/_GamePlay/DrawManager.cs:238-293 | without a stroke only the area is forgotten; otherwise a stroke of fewer than two samples is dropped and any other is kept recentred and well formed, the area is hidden, the buffers are emptied and the game manager is notified once |
| StrokeDrawing.DrawManager.KeepStroke | Assets/_Game/Scripts/_GamePlay/DrawManager.cs:248-271 | the kept stroke is placed at the centroid, the drawer's own vertices and outline become the moved ones the kept stroke carries, the collider takes the moved outline, and the earlier kept strokes are untouched |
| StrokeDrawing.DrawManager.ClearAllStrokes | Assets/_Game/Scripts/_GamePlay/DrawManager.cs:295-301 | every stroke under the strokes root, including one in progress, is gone |
| FallDrawing.CountedEmpty | Assets/_Game/Scripts/DrawFall.cs:135 | emptied buffers are the ribbon of no samples |
| FallDrawing.CountedAppend | Assets/_Game/Scripts/DrawFall.cs:146-171 | one sample appended as the drawer does keeps the buffers the ribbon of the samples, with texture rows numbered by count |
| FallDrawing.AppendSample | Assets/_Game/Scripts/DrawFall.cs:148-171 | the sample is added and the buffers stay the ribbon of the samples; the outline has a point per vertex from two samples on |
| FallDrawing.FallenIsWellFormed | Assets/_Game/Scripts/DrawFall.cs:205-225 | a body kept from two samples or more has a quad strip over its pairs, texture rows numbered by pair, and its outline built from its vertices |
| FallDrawing.DrawFall.constructor | Assets/_Game/Scripts/DrawFall.cs:12-27 | no stroke, no area and empty buffers, with the configured thickness, minimum distance and fade choice |
| FallDrawing.DrawFall.TryBeginStroke | Assets/_Game/Scripts/DrawFall.cs:78-85 | a press outside a draw area changes nothing; inside one, a stroke starts with the press as its only sample, and a stroke in progress is left behind |
| FallDrawing.DrawFall.BeginStroke | Assets/_Game/Scripts/DrawFall.cs:108-137 | the buffers hold the start sample only and the collider has its default shape |
| FallDrawing.DrawFall.TryContinueStroke | Assets/_Game/Scripts/DrawFall.cs:87-94 | a sample is considered only during a stroke and inside its own area, and is appended exactly when it is far enough from the last one |
| FallDrawing.DrawFall.ContinueStroke | Assets/_Game/Scripts/DrawFall.cs:140-144 | a sample at least the minimum distance from the last one is appended; a nearer one changes nothing |
| FallDrawing.DrawFall.AddPoint | Assets/_Game/Scripts/DrawFall.cs:146-182 | the sample is appended, the buffers stay the ribbon of the samples, and the collider holds the outline once there is one |
| FallDrawing.DrawFall.EndStroke | Assets/_Game/Scripts/DrawFall.cs:201-238 | without a stroke only the area is forgotten; otherwise a stroke of two samples or more is kept where it was drawn as a well-formed body, the area fades out or is switched off as configured, and every buffer is emptied; nobody is notified |
| FallDrawing.StrokeCollisionHandler.constructor | Assets/_Game/Scripts/DrawFall.cs:221-224 | a handler with the drawer's vanish layers and effect object, and nothing scheduled |
| FallDrawing.StrokeCollisionHandler.IsInVanishLayers | Assets/_Game/Scripts/DrawFall.cs:288-294 | true exactly when some listed name maps to the layer; a missing list names none |
| FallDrawing.StrokeCollisionHandler.OnCollisionEnter2D | Assets/_Game/Scripts/DrawFall.cs:272-286 | a target in a vanish layer that is not yet scheduled is scheduled, gets one delayed vanish and switches the effect on; any other contact changes nothing; each scheduled target has exactly one vanish running |
| FallDrawing.StrokeCollisionHandler.TargetGone | Assets/_Game/Scripts/DrawFall.cs:299-306 | a vanish whose target disappears stops and unschedules the target |
| FallDrawing.StrokeCollisionHandler.DelayOver | Assets/_Game/Scripts/DrawFall.cs:311-319 | at the end of the delay, a target that still exists and is active is switched off, and the target is unscheduled either way |
| GameStates.Paused | Assets/_Game/Scripts/_Manager/GameManager.cs:234-240 | Pause acts only from Gameplay and leaves every other state as it is |
| GameStates.Resumed | Assets/_Game/Scripts/_Manager/GameManager.cs:242-248 | Resume acts only from Pause and leaves every other state as it is |
| GameStates.Won | Assets/_Game/Scripts/_Manager/GameManager.cs:212-221 | Victory is reached only from Gameplay; other states are kept |
| GameStates.Lost | Assets/_Game/Scripts/_Manager/GameManager.cs:223-232 | Fail is reached only from Gameplay; other states are kept |
| GameStates.Verdict | Assets/_Game/Scripts/_Manager/GameManager.cs:162-164 | in Gameplay the level is settled, and it is Fail exactly when a bad egg is left; outside Gameplay nothing changes |
| GameStates.PauseResumeInverse | Assets/_Game/Scripts/_Manager/GameManager.cs:234-248 | Resume undoes Pause from Gameplay, and Pause undoes Resume from Pause |
| GameStates.SettledIsFinal | Assets/_Game/Scripts/_Manager/GameManager.cs:212-248 | from Victory or Fail, no sequence of pauses, resumes, wins, losses or verdicts changes the state |
| GameStates.SettlingNeedsGameplay | Assets/_Game/Scripts/_Manager/GameManager.cs:212-232 | a run that ends settled from an unsettled state settles at a step taken in Gameplay |
| GameStates.FindActiveInLayer | Assets/_Game/Scripts/Manager/GameManager.cs:104-114 | true exactly when some active object of the scene is on the layer |
| GameFlow.Pruned | Assets/_Game/Scripts/_Manager/GameManager.cs:191-193 | the registry keeps exactly the registered eggs that are still active |
| GameFlow.GameManager.constructor | Assets/_Game/Scripts/_Manager/GameManager.cs:11-22 | Gameplay with time running, no stroke, no judge and no registered egg |
| GameFlow.GameManager.Start | Assets/_Game/Scripts/_Manager/GameManager.cs:59-70 | the poll and the start judge are running, whether or not a level load has already started them |
| GameFlow.GameManager.RegisterEgg | Assets/_Game/Scripts/_Manager/GameManager.cs:85-89 | only a live bad egg is added to the registry |
| GameFlow.GameManager.OnEggBroken | Assets/_Game/Scripts/_Manager/GameManager.cs:96-101 | a broken bad egg leaves the registry; a good egg or a missing one changes nothing |
| GameFlow.GameManager.NotifyStrokeCompleted | Assets/_Game/Scripts/_Manager/GameManager.cs:105-122 | only the first report in Gameplay counts: it latches the stroke, switches drawing off, cancels a start judge that has not judged, and starts the post-stroke judge if there is none; any later report changes nothing |
| GameFlow.GameManager.StartJudgeFires | Assets/_Game/Scripts/_Manager/GameManager.cs:136-152 | outside Gameplay it ends without judging; in Gameplay it is marked done and wins exactly when no stroke has finished and no bad egg is left, with the registry pruned to the eggs still active; it never makes the level Fail |
| GameFlow.GameManager.PostStrokeJudgeFires | Assets/_Game/Scripts/_Manager/GameManager.cs:155-165 | outside Gameplay it ends without judging; in Gameplay it is marked done and the level is Fail exactly when a bad egg is left, Victory otherwise, with the registry pruned to the eggs still active |
| GameFlow.GameManager.ExistsActiveInLayer | Assets/_Game/Scripts/_Manager/GameManager.cs:173-209 | the answer is true exactly when a registered bad egg is active or an active object of the scene is on the layer; for the bad-egg layer the inactive eggs are dropped from the registry |
| GameFlow.GameManager.SetVictory | Assets/_Game/Scripts/_Manager/GameManager.cs:212-221 | Victory from Gameplay with time stopped; any other state is kept |
| GameFlow.GameManager.SetFail | Assets/_Game/Scripts/_Manager/GameManager.cs:223-232 | Fail from Gameplay with time stopped; any other state is kept |
| GameFlow.GameManager.Pause | Assets/_Game/Scripts/_Manager/GameManager.cs:234-240 | Pause from Gameplay with time stopped; any other state is kept |
| GameFlow.GameManager.Resume | Assets/_Game/Scripts/_Manager/GameManager.cs:242-248 | Gameplay from Pause with time running; any other state is kept |
| GameFlow.GameManager.ResetForNewLevel | Assets/_Game/Scripts/_Manager/GameManager.cs:265-293 | Gameplay with time running, latches cleared, registry emptied, drawing back on, the start judge running, no post-stroke judge, and the poll running only for a positive interval |
| LegacyGameFlow.GameManager.constructor | Assets/_Game/Scripts/Manager/GameManager.cs:10-16 | Gameplay with time running, no stroke and no countdown, with the configured delay |
| LegacyGameFlow.GameManager.NotifyStrokeCompleted | Assets/_Game/Scripts/Manager/GameManager.cs:48-60 | only the first report in Gameplay counts: it latches the stroke, switches drawing off and starts the countdown, whose first pass runs at once: with a positive delay it has counted one frame and waits, with none the level is judged straight away; any later report changes nothing |
| LegacyGameFlow.GameManager.CountdownFrame | Assets/_Game/Scripts/Manager/GameManager.cs:87-102 | while the delay is not over and the state is Gameplay, one frame's step is counted and the countdown goes on; otherwise it ends: in any state but Gameplay (a pause included) with no verdict, in Gameplay with Fail exactly when an active object is on the bad-egg layer and Victory otherwise |
| LegacyGameFlow.GameManager.SetVictory | Assets/_Game/Scripts/Manager/GameManager.cs:116-124 | Victory from Gameplay with time stopped; any other state is kept |
| LegacyGameFlow.GameManager.SetFail | Assets/_Game/Scripts/Manager/GameManager.cs:126-134 | Fail from Gameplay with time stopped; any other state is kept |
| LegacyGameFlow.GameManager.Pause | Assets/_Game/Scripts/Manager/GameManager.cs:62-68 | Pause from Gameplay with time stopped; any other state is kept |
| LegacyGameFlow.GameManager.Resume | Assets/_Game/Scripts/Manager/GameManager.cs:70-76 | Gameplay from Pause with time running; any other state is kept |
| LevelIndex.Clamp | Assets/_Game/Scripts/_Manager/LevelManager.cs:115 | the value inside the bounds is kept, below them gives the lower bound, above them the upper |
| LevelIndex.Max | Assets/_Game/Scripts/_Manager/LevelManager.cs:63 | the larger of the two values |
| LevelIndex.StartIndex | Assets/_Game/Scripts/_Manager/LevelManager.cs:59-63 | the saved index when progress is saved and a save exists, else the default, always a level of a non-empty list (0 for an empty one) |
| LevelIndex.LoadTarget | Assets/_Game/Scripts/_Manager/LevelManager.cs:115 | a load settles on a level of the list, the requested one when it is in range |
| LevelIndex.NextTarget | Assets/_Game/Scripts/_Manager/LevelManager.cs:77-88 | the following level; past the end the first one with wrap-around, else the last |
| LevelIndex.PrevTarget | Assets/_Game/Scripts/_Manager/LevelManager.cs:90-101 | the preceding level; below the first the last one with wrap-around, else the first |
| LevelIndex.NextPrevInverse | Assets/_Game/Scripts/_Manager/LevelManager.cs:77-101 | with wrap-around next and previous undo each other on every level; without it they do so away from the ends, which are fixed points |
| LevelIndex.FirstIndexWithId | Assets/_Game/Scripts/_Manager/LevelManager.cs:105 | the position of the first level with the id, or -1 exactly when no level has it |
| Levels.LevelManager.constructor | Assets/_Game/Scripts/_Manager/LevelManager.cs:18-31 | no level loaded and the current index -1 |
| Levels.LevelManager.LoadLevel | Assets/_Game/Scripts/_Manager/LevelManager.cs:112-141 | an empty list changes nothing; otherwise the index is clamped, the runtime is cleaned, the old level is reported and destroyed; a missing prefab stops there with no level and the old index; else the level is made current, saved when progress is saved, reported, and the game manager is reset |
| Levels.LevelManager.Start | Assets/_Game/Scripts/_Manager/LevelManager.cs:57-65 | `Loaded` of the start index: the saved index when progress is saved and a save exists, else the default, clamped into the list; an empty list changes nothing |
| Levels.LevelManager.Replay | Assets/_Game/Scripts/_Manager/LevelManager.cs:71-75 | before any level nothing happens; otherwise `Loaded` of the current index: the old level is reported, the same level is made again, saved and reported |
| Levels.LevelManager.NextLevel | Assets/_Game/Scripts/_Manager/LevelManager.cs:77-88 | an empty list changes nothing; otherwise `Loaded` of the following index, or past the end of the first level (wrapping) or the last, so at the last level without wrap-around that level is loaded again |
| Levels.LevelManager.PrevLevel | Assets/_Game/Scripts/_Manager/LevelManager.cs:90-101 | an empty list changes nothing; otherwise `Loaded` of the preceding index, or below 0 of the last level (wrapping) or the first |
| Levels.LevelManager.LoadLevelById | Assets/_Game/Scripts/_Manager/LevelManager.cs:103-108 | an unknown id changes nothing; otherwise `Loaded` of the first level with that id |
| LegacyLevels.LevelManager.constructor | Assets/_Game/Scripts/Manager/LevelManager.cs:18-31 | no level loaded and the current index -1 |
| LegacyLevels.LevelManager.LoadLevel | Assets/_Game/Scripts/Manager/LevelManager.cs:96-133 | the same load without the runtime cleanup and the game manager reset |
| LegacyLevels.LevelManager.Start | Assets/_Game/Scripts/Manager/LevelManager.cs:43-51 | `Loaded` of the start index: the saved index when progress is saved and a save exists, else the default, clamped into the list; an empty list changes nothing |
| LegacyLevels.LevelManager.Replay | Assets/_Game/Scripts/Manager/LevelManager.cs:55-59 | before any level nothing happens; otherwise `Loaded` of the current index: the old level is reported, the same level is made again, saved and reported |
| LegacyLevels.LevelManager.NextLevel | Assets/_Game/Scripts/Manager/LevelManager.cs:61-72 | an empty list changes nothing; otherwise `Loaded` of the following index, or past the end of the first level (wrapping) or the last, so at the last level without wrap-around that level is loaded again |
| LegacyLevels.LevelManager.PrevLevel | Assets/_Game/Scripts/Manager/LevelManager.cs:74-85 | an empty list changes nothing; otherwise `Loaded` of the preceding index, or below 0 of the last level (wrapping) or the first |
| LegacyLevels.LevelManager.LoadLevelById | Assets/_Game/Scripts/Manager/LevelManager.cs:87-92 | an unknown id changes nothing; otherwise `Loaded` of the first level with that id |
| Physics.Joint.constructor | Assets/_Game/Scripts/Gears.cs:67-77 | a live joint with the given kind, connected body, anchors and break thresholds |
| Physics.Body.constructor | Assets/_Game/Scripts/DrawFall.cs:211-212 | a body with its gravity scale and no joints or impulses |
| Lists.RemoveFirst | Assets/_Game/Scripts/Gears.cs:122 | removing an absent element changes nothing; removing a present one shortens the list by one and adds nothing |
| Lists.RemoveFirstMultiset | Assets/_Game/Scripts/Gears.cs:122 | the removal takes out one copy of the element and nothing else |
| Lists.RemoveFirstDistinct | Assets/_Game/Scripts/Gears.cs:122 | in a list without repeats the removed element is gone entirely and no repeat appears |
| Lists.DistinctTail | Assets/_Game/Scripts/Pool.cs:128-136 | dropping the head keeps a list without repeats |
| Lists.RemoveFirstAt | Assets/_Game/Scripts/Pool.cs:128-136 | removing the element at a position that holds its first occurrence removes exactly that position |
| GearPins.RemoveTwice | Assets/_Game/Scripts/Gears.cs:120-123 | a second break of the same joint changes nothing |
| GearPins.Max | Assets/_Game/Scripts/Gears.cs:52 | the larger of the two values |
| GearPins.Gears.constructor | Assets/_Game/Scripts/Gears.cs:7-28 | an empty registry for the gear's body and settings |
| GearPins.Gears.AlreadyPinned | Assets/_Game/Scripts/Gears.cs:110-118 | true exactly when a live joint on the stroke's object is connected to this gear |
| GearPins.Gears.TryPin | Assets/_Game/Scripts/Gears.cs:42-108 | a pin is refused, with no effect, off the stroke layer, with a full registry, without a rigidbody, or for a stroke already pinned; otherwise a hinge at the gear centre and, exactly when the polygon does not cover the centre, a tether from the contact are made, registered and added to the stroke, gravity is at least 1 and a downward impulse is applied; each joint's break force and torque are set exactly when the configured value is positive (`Threshold`); the registry stays within `maxPins + 1` joints (`Valid`, kept by every method) |
| GearPins.Gears.OnJointBreak2D | Assets/_Game/Scripts/Gears.cs:120-123 | the broken joint leaves the registry, which keeps its other joints in order |
| GearPins.Gears.OnDisable | Assets/_Game/Scripts/Gears.cs:125-131 | every remembered joint is destroyed and the registry is emptied |
| LiftAttach.LayersOf | Assets/_Game/Scripts/_GamePlay/StrokeAttachToLift.cs:12-24 | only real layer ids are targets, and a missing list names none |
| LiftAttach.StrokeAttach.constructor | Assets/_Game/Scripts/_GamePlay/StrokeAttachToLift.cs:7-9 | no target layers and not attached |
| LiftAttach.StrokeAttach.Init | Assets/_Game/Scripts/_GamePlay/StrokeAttachToLift.cs:12-24 | the targets become the layers of the non-empty names that name a layer |
| LiftAttach.StrokeAttach.TryAttach | Assets/_Game/Scripts/_GamePlay/StrokeAttachToLift.cs:26-62 | nothing happens once attached, without a contact or off the target layers; a gear with a rigidbody gets a hinge at its centre of mass in both frames, anything else becomes the stroke's parent; either way the stroke is attached from then on |
| Pooling.FindItem | Assets/_Game/Scripts/Pool.cs:72 | the first configured entry with the key, or none exactly when no entry has it |
| Pooling.PreloadOf | Assets/_Game/Scripts/Pool.cs:32-49 | a key with no prefab entry has no preloaded copies |
| Pooling.Enqueue | Assets/_Game/Scripts/Pool.cs:144-147 | the object joins the end of its key's queue, which is created when missing; the other queues are untouched |
| Pooling.SurvivorsMembers | Assets/_Game/Scripts/Pool.cs:128-136 | exactly the live objects without a tag of this pool stay active after a despawn |
| Pooling.ReturnsKeepsQueues | Assets/_Game/Scripts/Pool.cs:128-136 | a despawn loses no queued object: every queue is a prefix of the same queue afterwards |
| Pooling.ReturnedAreQueued | Assets/_Game/Scripts/Pool.cs:128-136 | every live object of this pool in the active list ends up in the queue of its key |
| Pooling.HasPrefabSnoc | Assets/_Game/Scripts/Pool.cs:32-34 | the entries up to j have a prefab for a key exactly when those before j have, or entry j has |
| Pooling.MakeCopies | Assets/_Game/Scripts/Pool.cs:36-48 | `count` new objects (none for a count below one), each switched off and tagged with the key and the owner; every older object keeps its liveness, its activity and its tag |
| Pooling.DespawnStep | Assets/_Game/Scripts/Pool.cs:130-135 | despawning from position i on is despawning entry i after the entries behind it |
| Pooling.Pool.constructor | Assets/_Game/Scripts/Pool.cs:22-27 | no queue and nothing handed out |
| Pooling.Pool.Awake | Assets/_Game/Scripts/Pool.cs:29-51 | the queues are exactly the keys with a prefab entry, each holding `PreloadOf` fresh, switched-off copies tagged with its key and this pool; every object made before the preload keeps its liveness, its activity and its tag |
| Pooling.Pool.Get | Assets/_Game/Scripts/Pool.cs:56-93 | an unknown key gets an empty queue; a stored object is dequeued (a destroyed one yields nothing); only an empty queue makes a new object, from the first entry with the key and only when it has a prefab; the object handed out is switched on and listed once as active |
| Pooling.Pool.InternalReturn | Assets/_Game/Scripts/Pool.cs:139-149 | the object is switched off, queued under its tag's key and removed from the active list |
| Pooling.Pool.ReturnWithKey | Assets/_Game/Scripts/Pool.cs:100-111 | a destroyed object is ignored; an untagged one is tagged with the key and this pool; then it goes back under its tag's key |
| Pooling.Pool.Return | Assets/_Game/Scripts/Pool.cs:114-125 | a destroyed object is ignored; an object of another pool is only switched off; one of this pool goes back under its tag's key |
| Pooling.Pool.DespawnEntry | Assets/_Game/Scripts/Pool.cs:130-135 | one entry of the walk: a destroyed entry is dropped, a live one of this pool is queued and removed, any other is kept and switched off |
| Pooling.Pool.DespawnAll | Assets/_Game/Scripts/Pool.cs:128-136 | the active list keeps exactly the live objects of other pools, every live object of this pool is queued under its key, and every live listed object is switched off |

## Left out

- Meshes, materials, shaders, sorting, colours, fading alphas and UI panels and canvases are not modelled. Only which area is hidden and which panels the state implies are kept.
- Floating point is not modelled. Coordinates are reals, and `normalized` and `Vector2.Distance` are inputs, so a zero-length step (normalising a zero vector) is not distinguished.
- The engine's screen-to-world conversion and the point query for the draw area are inputs. The draw layer test is folded into `hit`.
- Input handling (`Update`, mouse and touch phases) is not modelled. The model starts at the three calls it makes.
- Coroutine timing is not modelled except in the older manager's countdown, which counts each frame's real-time step against its delay. Elsewhere a coroutine's end is an event method, and the durations (judge delays, poll interval, vanish delay, fade duration) do not appear except the poll interval's sign.
- The poll coroutine of the current game manager only waits and decides nothing, so it is a handle that runs or not.
- `ReplayLevel` and `NextLevel` of the current game manager set time running and then forward to the drawer and the level manager; `RestartLevel` of the older one sets time running and reloads the scene. None is modelled. So "time runs exactly in Gameplay" holds only across the modelled operations: a replay from Victory or Fail that never reaches `ResetForNewLevel` (no level loaded, an empty list, a missing prefab) leaves the state as it was with time running.
- GameFlow.GameManager.Start: when the level manager's first load has already reset the manager, the source starts a second poll and a second start judge and loses the handles of the first ones; those unseen duplicates are not modelled.
- The singleton setup in each manager's `Awake` (destroying a second instance) is not modelled.
- StrokeDrawing.DrawManager.ClearAllStrokes: the early return when no strokes root is set is not modelled; the root is assumed present.
- StrokeDrawing.DrawManager.EndStroke: the area is recorded as hidden without telling a fade from an immediate switch-off, which end the same way.
- StrokeDrawing.DrawManager.BeginStroke: the stroke object's layer, which depends on whether a "Line" layer exists, is not modelled.
- Rigidbody settings on kept strokes (the configured `gravityScale`, collision detection mode, interpolation, `WakeUp`, physics material) and on pinned strokes are not modelled.
- FallDrawing.DrawFall.EndStroke: the `StrokeCollisionHandler` added to every kept body, with the drawer's vanish layers, effect and delay, is modelled on its own and not attached to the kept body.
- GearPins.Gears.TryPin: the joints' flags (`autoConfigureConnectedAnchor`, `useLimits`, `enableCollision`, `autoConfigureDistance`) are not modelled. Whether the polygon covers the gear centre is an input.
- The automatic rotation of the gear in `_GamePlay/Gears.cs` (`FixedUpdate`) is not part of this model. That copy's pinning is the same as `Gears.cs` and is modelled once.
- GearPins.Gears.OnJointBreak2D: the engine sends a joint-break message to the object holding the joint, which is the stroke rather than the gear. The model states what the method does when it is called.
- FallDrawing.StrokeCollisionHandler: the scheduled set is static and shared by every handler. One handler object stands for all of them, and the set outliving a level reload is not modelled.
- Levels.LevelManager.LoadLevel: the runtime cleanup (destroying runtime children and egg fragments, clearing strokes, despawning every pool) is counted in `cleanups`, not performed. Each of those operations is modelled on its own class.
- The player preferences are a field (`saved`) of the level manager. Writing them to disk is not modelled.
- The name a level object gets is not modelled.
- Pooling.Pool.Get: the position, rotation and parent given to the object are not modelled, so the overload without a parent is the same method. A destroyed object dequeued from the store is dropped, and nothing is handed out.
- Pooling.Pool.Return: moving the object under the pool's transform is not modelled.
- Pooling.Pool.ReturnWithKey: returning the same object twice enqueues it twice, as the source does. The model keeps that behaviour and does not rule it out.
- LiftAttach.StrokeAttach.TryAttach: the contact's transform, layer, gear and the gear's centre of mass are inputs read from the engine.
- The layer lookup by name is an input function (`nameToLayer`), and so is each transform's world-to-local map.
