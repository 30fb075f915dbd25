# ObjectPainter core in Dafny

ObjectPainter is a Unity editor window that scatters prefabs over scene
geometry with a brush. This project models the sequential logic under the
GUI, and proves properties of it:

- **Brush collection bookkeeping** (`Window`).
  - The window loads the saved brush collection on first use and keeps it non-empty.
  - It keeps the selected brush index in range.
  - Its brush-list buttons add and remove brushes.
- **Brush presets** (`Presets`).
  - Inspector edits: the name, the radius taken as an absolute value, the rate clamped to 1..10000, and the cull angle held in 0..90 by a slider.
  - The prefab list's add, remove, expand-all and collapse-all buttons.
- **Layer-mask field** (`LayerMasks`).
  - A 32-bit C# `int` is modelled bit by bit.
  - The field compresses a physics layer mask to one bit per named layer, lets the mask popup edit it, and expands the answer back.
  - The `> 0` tests are signed, so bit 31 never passes either test.
  - Bit by bit, bits 0-30 round-trip for any list of up to 32 named layers: a bit survives exactly when it was set and a list position below 31 names it.
  - When no named layer is 31, the whole round trip restricts the mask to the named layers.
- **Placement decision** (`Painting`, `Window`).
  - The mouse-stroke state machine.
  - The rate gate.
  - The collider-strict and angle-cull filters.
  - The weighted prefab pick, specified independently as "the earliest best-scoring candidate".
  - The align-mode table.
  - The state update after a placement.
  - Over a run of events: placements are more than 1/rate apart, and a collider-strict stroke that started off geometry places nothing.
- **Resources** (`Resources`).
  - The tool-root path: "Assets", then the found directory with the data path removed and backslashes turned into slashes, then "/ObjectPainter/".
  - The first-match lookup of the saved brush asset.

Engine inputs are parameters:
- raycast results;
- the surface found by the fallback rays;
- `Vector3.Angle`;
- `Random.Range` draws, as a function from draw number to value;
- `EditorApplication.timeSinceStartup`, read twice: once for the rate gate and once for the new time stamp;
- `LayerMask.NameToLayer`;
- the mask popup;
- `Directory.GetDirectories`;
- the asset database.

Floats are exact reals.

Files:
- `values.dfy`: nullable references, results, vectors.
- `mathf.dfy`: `Mathf.Abs`, `Clamp`, `Max`.
- `lists.dfy`: `List.RemoveAt`.
- `layer_masks.dfy`
- `prefab_settings.dfy`: `BrushPrefabSettings` and `AlignMode`.
- `painting.dfy`
- `brush_preset.dfy`
- `window.dfy`
- `resources.dfy`

Entry weights take whatever value the field gives. The draws lie in [0, 1], but no proof needs that, so the model leaves both unconstrained.

## Model

| member | source | states |
|---|---|---|
| Mathf.Abs | Editor/BrushPreset.cs:51 | the radius becomes non-negative and keeps its magnitude |
| Mathf.Clamp | Editor/BrushPreset.cs:52 | result lies in [min, max], equals the value inside the range and the violated bound outside it |
| Mathf.Max | Editor/ObjectPainterWindow.cs:42 | result is the larger of the two |
| Lists.RemovedAt | Editor/BrushPreset.cs:134 | one element shorter; elements before the index are unchanged and those after shift down by one; the multiset loses exactly the removed element |
| LayerMasks.Shl1 | Editor/BrushPreset.cs:180-181 | `1 << n` sets exactly bit n mod 32 (C# masks the shift count) |
| LayerMasks.Or | Editor/BrushPreset.cs:181 | bitwise or, bit by bit |
| LayerMasks.And | Editor/BrushPreset.cs:180 | bitwise and, bit by bit |
| LayerMasks.SignedPositive | Editor/BrushPreset.cs:180 | a C# int is > 0 exactly when bit 31 is clear and another bit is set |
| LayerMasks.OneBitTest | Editor/BrushPreset.cs:189 | `(x & (1 << n)) > 0` holds exactly when n mod 32 is not 31 and that bit of x is set |
| LayerMasks.LayerTest | Editor/BrushPreset.cs:180 | the compress test `(mask & (1 << layer)) > 0` (no contract of its own; LayerTestMeaning states it) |
| LayerMasks.CompactTest | Editor/BrushPreset.cs:189 | the expand test `(compact & (1 << i)) > 0` (no contract of its own; CompactTestMeaning states it) |
| LayerMasks.LayerTestMeaning | Editor/BrushPreset.cs:180 | the compress test passes exactly for a set bit other than bit 31 |
| LayerMasks.CompactTestMeaning | Editor/BrushPreset.cs:189 | below position 31, the expand test is the dense bit itself |
| LayerMasks.Compressed | Editor/BrushPreset.cs:177-182 | the fold of the compress loop; no bit past the last list position is ever set |
| LayerMasks.Expanded | Editor/BrushPreset.cs:186-191 | the fold of the expand loop; only bits of named layers are ever set |
| LayerMasks.CompressedBit | Editor/BrushPreset.cs:177-182 | bit i of the dense mask is set exactly when i is a list position whose layer passes the test |
| LayerMasks.ExpandedBit | Editor/BrushPreset.cs:186-191 | bit k of the result is set exactly when some position below 31 names layer k and its dense bit is set |
| LayerMasks.RoundTripDropsLayer31 | Editor/BrushPreset.cs:177-192 | bit 31 never survives compress-then-expand |
| LayerMasks.RoundTripBit | Editor/BrushPreset.cs:177-192 | for every list of up to 32 named layers and every bit k below 31, bit k survives compress-then-expand exactly when it is set in the input and some list position below 31 names layer k |
| LayerMasks.RoundTrip | Editor/BrushPreset.cs:177-192 | the whole-mask case: with at most 31 named layers, all in 0-30, and the popup returning its input, the result is the input mask restricted to the named layers |
| LayerMasks.CompressMask | Editor/BrushPreset.cs:177-182 | the loop computes the dense mask |
| LayerMasks.ExpandMask | Editor/BrushPreset.cs:186-191 | the loop computes the expanded mask |
| LayerMasks.LayerNumbers | Editor/BrushPreset.cs:172-175 | one layer number per layer name, in order |
| LayerMasks.LayerMaskField | Editor/BrushPreset.cs:168-195 | result is the popup's answer on the compressed mask, expanded again |
| Painting.StartsStroke | Editor/ObjectPainterWindow.cs:320 | the stroke-start condition: a left press without modifiers while no stroke is under way (no contract of its own; MouseStep states its effect) |
| Painting.MouseStep | Editor/ObjectPainterWindow.cs:320-329 | a plain left press with no stroke under way starts one and records the brush collider; a release during a stroke clears both; everything else leaves the state alone |
| Painting.NextTimeStamp | Editor/ObjectPainterWindow.cs:437-438 | `t + (60 / rate) / 60` for the clock reading t equals t + 1/rate and lies after t |
| Painting.ColliderStrictRejects | Editor/ObjectPainterWindow.cs:360 | the collider-strict test: rejects exactly when colliderStrict is on and the surface's collider is not the one the stroke started on (no contract of its own; StrictRejectsWithoutCollider and PlaceStep state its effect) |
| Painting.StrictRejectsWithoutCollider | Editor/ObjectPainterWindow.cs:360 | under colliderStrict a stroke with no recorded collider rejects every surface; without it none is rejected |
| Painting.CullRejects | Editor/ObjectPainterWindow.cs:364-376 | the cull test: with culling on, rejects an angle above cullAngle, or below it when inverted (no contract of its own; CullKeeps states what it keeps) |
| Painting.CullKeeps | Editor/ObjectPainterWindow.cs:364-376 | the cull keeps exactly the angles on the allowed side, and the boundary angle in both modes |
| Painting.PickAfter | Editor/ObjectPainterWindow.cs:276-284 | the pick after any number of loop steps is an index of the prefab list |
| Painting.WeightedPick | Editor/ObjectPainterWindow.cs:271-287 | the whole-list pick is an index of the list and meets IsWeightedPick: the earliest candidate with the top score |
| Painting.PickAfterIsWeightedPick | Editor/ObjectPainterWindow.cs:271-287 | the loop's pick has the top score among all candidates and is the earliest candidate with it |
| Painting.WeightedPickUnique | Editor/ObjectPainterWindow.cs:271-287 | that description fixes the pick uniquely |
| Painting.AllZeroWeightsPickFirst | Editor/ObjectPainterWindow.cs:271-287 | all weights zero gives prefabs[0] |
| Painting.PathAxis | Editor/ObjectPainterWindow.cs:400-430 | the path axis is never the axis set from the normal |
| Painting.AlignAxes | Editor/ObjectPainterWindow.cs:400-430 | None sets no normal axis; the other modes set their axis first, to the normal or its negation; with align-to-path a last assignment sets `up` (Forward/Backward) or `forward` (all other modes) to the stroke direction |
| Painting.OppositeModes | Editor/ObjectPainterWindow.cs:403-426 | Up/Down, Right/Left and Forward/Backward set the same axis to opposite directions |
| Painting.PlaceStep | Editor/ObjectPainterWindow.cs:330-438 | nothing is placed without a stroke, a brush hit, a passed time stamp and a surface hit; when all gates and both filters pass and the picked entry has a prefab, an object is placed; NotPainting and Waiting are reported exactly when their gate is the first to fail, and each filter rejects only its own case; a skip changes no state; a placement records the brush point and the time stamp read at line 438 plus 1/rate, and puts the picked prefab at the surface point under the parent, with the axes the alignment table gives for the picked entry and the stroke direction |
| Painting.PaintStep | Editor/ObjectPainterWindow.cs:318-438 | repaint events and brushes without prefabs change nothing; the stroke fields follow MouseStep; no placement before the time stamp; only a placement moves the time stamp (to the second clock reading, line 438, plus 1/rate) and the last hit point |
| Painting.RunRespectsRate | Editor/ObjectPainterWindow.cs:333-438 | over any run of events, with the clock not running backwards within one event, the first placement comes after the starting time stamp; successive placements are more than 1/rate apart; the stamp is the last placement time plus 1/rate |
| Painting.StrictStrokeOffGeometryPlacesNothing | Editor/ObjectPainterWindow.cs:320-360 | under colliderStrict a stroke that recorded no collider places nothing until the button is released |
| Presets.AllExpanded | Editor/BrushPreset.cs:99-113 | every entry gets the flag; nothing else about any entry, the length or the order changes |
| Presets.LastExpandWins | Editor/BrushPreset.cs:99-113 | expand/collapse twice is the same as the last one alone |
| Presets.CollapseUndoesExpand | Editor/BrushPreset.cs:99-113 | on a collapsed list, collapse-all undoes expand-all |
| Presets.BrushPreset.constructor | Editor/BrushPreset.cs:12-22 | the field defaults; the preset satisfies its range invariant |
| Presets.BrushPreset.ApplyGeneralEdits | Editor/BrushPreset.cs:49-52 | name taken as typed, radius >= 0, rate in [1, 10000]; invariant kept |
| Presets.BrushPreset.ApplyColliderEdits | Editor/BrushPreset.cs:61-62 | the new mask is the layer-mask field's result; colliderStrict follows the toggle |
| Presets.BrushPreset.ApplyCullEdits | Editor/BrushPreset.cs:71-78 | the toggle is always taken; angle (clamped to [0, 90]), invert and reference are taken only while culling is on |
| Presets.BrushPreset.SetAllExpanded | Editor/BrushPreset.cs:99-113 | the loop leaves exactly AllExpanded of the old list |
| Presets.BrushPreset.ExpandAll | Editor/BrushPreset.cs:99-103 | every entry expanded, nothing else changed |
| Presets.BrushPreset.CollapseAll | Editor/BrushPreset.cs:107-113 | every entry collapsed, nothing else changed |
| Presets.BrushPreset.AddPrefab | Editor/BrushPreset.cs:119-120 | one default entry appended and selected |
| Presets.BrushPreset.RemovePrefab | Editor/BrushPreset.cs:131-136 | removes exactly when the selection is in range; then that entry is gone and the selection moves to index - 1 (possibly -1); otherwise nothing changes |
| Window.SavedBrushes.constructor | Editor/SavedBrushes.cs:9 | a new collection is empty |
| Window.NormalizedIndex | Editor/ObjectPainterWindow.cs:54-57 | the result is in range for a non-empty list; an in-range index is kept and any other becomes 0 |
| Window.NormalizedIndexIdempotent | Editor/ObjectPainterWindow.cs:203-206 | normalising again changes nothing |
| Window.IndexAfterRemove | Editor/ObjectPainterWindow.cs:42 | one up, never below 0 |
| Window.IndexAfterRemoveInRange | Editor/ObjectPainterWindow.cs:38-44 | after a removal the selection is in range exactly when a brush is left |
| Window.ObjectPainterWindow.constructor | Editor/ObjectPainterWindow.cs:64-73 | no collection, no selection, no parent, no stroke, time stamp 0, last hit point zero |
| Window.ObjectPainterWindow.GetSavedBrushes | Editor/ObjectPainterWindow.cs:75-92 | loads only when not yet loaded; an empty collection receives one new default brush; a non-empty one is unchanged; the result is never empty |
| Window.ObjectPainterWindow.GetBrushList | Editor/ObjectPainterWindow.cs:15-61 | after the getter the collection is loaded and non-empty and the selection is the normalised old index |
| Window.ObjectPainterWindow.SelectedBrush | Editor/ObjectPainterWindow.cs:198-209 | the inspector shows the brush at the normalised selection of a non-empty collection |
| Window.ObjectPainterWindow.AddBrush | Editor/ObjectPainterWindow.cs:29-30 | one new default brush appended and selected |
| Window.ObjectPainterWindow.RemoveBrush | Editor/ObjectPainterWindow.cs:38-44 | removes exactly when the selection is in range; then that brush is gone, the others keep their order, and the selection becomes max(0, index - 1); otherwise nothing changes |
| Window.ObjectPainterWindow.ChooseRandomPrefab | Editor/ObjectPainterWindow.cs:271-287 | returns the entry of the earliest best-scoring candidate, prefabs[0] being scored twice |
| Window.ObjectPainterWindow.UpdateMouse | Editor/ObjectPainterWindow.cs:320-329 | the stroke fields move as MouseStep says |
| Window.ObjectPainterWindow.PlaceObject | Editor/ObjectPainterWindow.cs:330-438 | state and outcome are those of PlaceStep |
| Window.ObjectPainterWindow.PaintObjects | Editor/ObjectPainterWindow.cs:315-439 | state and outcome are those of PaintStep |
| Resources.ReplaceAll | Editor/ObjectPainterResources.cs:21 | a string without the pattern is returned unchanged; the result holds no character absent from the input and the replacement |
| Resources.ReplaceFromLeftmost | Editor/ObjectPainterResources.cs:21 | the left-to-right scan keeps the text before the first occurrence at or after the scan position, replaces that occurrence and resumes right after it |
| Resources.ReplaceAllLeftmost | Editor/ObjectPainterResources.cs:21 | the leftmost occurrence is replaced, the text before it kept, and the rest after it processed alone; with the unchanged-if-absent clause this fixes the result of string.Replace, so a second copy of the data path inside the directory is removed as well |
| Resources.ReplaceAllLeading | Editor/ObjectPainterResources.cs:21 | a leading occurrence is replaced and the rest is processed alone |
| Resources.ReplaceChar | Editor/ObjectPainterResources.cs:22 | same length; each old character becomes the new one and every other character stays put; the old character is gone |
| Resources.PathToToolRoot | Editor/ObjectPainterResources.cs:13-27 | fails exactly without a data path or a found directory; otherwise begins with "Assets", ends with "/ObjectPainter/", holds no backslash, and the middle is the directory with the data path removed, then its backslashes replaced |
| Resources.MiddleSegment | Editor/ObjectPainterResources.cs:19-22 | for a directory made of the data path, a backslash and a relative path (nested folders included) that does not contain the data path again, the middle is "/" plus the relative path with its backslashes turned into slashes |
| Resources.ReplacementOrderMatters | Editor/ObjectPainterResources.cs:21-22 | replacing backslashes first would stop a data path that contains a backslash from matching |
| Resources.UsualLayout | Editor/ObjectPainterResources.cs:13-27 | in that layout the tool root is "Assets/<relative>/ObjectPainter/", the relative path written with slashes |
| Resources.LoadSavedBrushes | Editor/ObjectPainterResources.cs:29-43 | returns the first guid's asset that loads; a new asset is generated exactly when none loads, including when there are no guids |

## Left out

- GUI and scene-view code is not modelled, because it draws or reads widgets and so is presentation only:
  - all `OnGUI` layout;
  - `BrushPrefabSettings.OnGUI` and `GetHeight`;
  - `DrawBrush`, `Handles`, `Cursor.visible` and `Tools.hidden`;
  - `OnEnable`, `OnDisable` and `Cleanup`;
  - the Tab toggle;
  - scroll positions and `GrabKeyboardFocus`.
- Each widget's returned value is a parameter of the edit methods, and the model keeps only the selected index of a `ReorderableList`.
- Physics is left out because it consists of engine calls:
  - `Physics.Raycast` and the four-ray fallback (lines 343-358 of Editor/ObjectPainterWindow.cs) become the `surface` parameter;
  - `Vector3.Angle` becomes the `angle` parameter;
  - the random point in the disc (lines 336-340) is not modelled;
  - the object's random scale and rotation (lines 387-388 and 432-433), `RotateAround` and `localScale` are not modelled.
- `Physics.queriesHitBackfaces` is not modelled, because it is global engine state. It is set at line 349 and restored only at line 362, so the early returns at lines 357 and 360 leave it set.
- The Alt+scroll radius change (line 260 of Editor/ObjectPainterWindow.cs) is not modelled. It happens outside the inspector and can make the radius negative, so `Presets.BrushPreset.Valid` is kept only by the modelled edits.
- Engine side effects are not modelled, because they are I/O:
  - `PrefabUtility.InstantiatePrefab` (the outcome stands for the new object);
  - `Undo`;
  - `EditorUtility.SetDirty`;
  - `AssetDatabase`;
  - `GenerateSavedBrushesAsset`.
- The `FindAssets` filter string of line 31 of Editor/ObjectPainterResources.cs is not modelled. Its result is the `guids` parameter.
- Floating point is not modelled, because reals are exact. `(60 / rate) / 60` is exactly 1/rate here, while in doubles it may round.
- LayerMasks.RoundTrip: the whole-mask equality requires at most 31 named layers, all in 0-30, because the signed `> 0` tests drop bit 31 and positions past 30. LayerMasks.RoundTripBit states bits 0-30 for any list of up to 32 layers, and LayerMasks.RoundTripDropsLayer31 states bit 31.
- The static `layerNumbers` list is a local sequence, because it is cleared at every call and no state survives between calls.
- Prefab entries are values, so their aliasing through the list is not modelled. Unity serializes them inline, and the only in-place edit of one entry outside the GUI is the isExpanded flag, which the model updates in place.
- The `Debug.LogWarning` for an entry without a prefab (line 382 of Editor/ObjectPainterWindow.cs) is console output and not modelled. The outcome Skipped(NullPrefab) stands for that early return.
- Event modifiers are only "none" or "some". The event kinds other than MouseDown, MouseUp and Repaint are merged, because PaintObjects treats them alike.
- Window.ObjectPainterWindow.PaintObjects: requires a positive brush rate. The rate field keeps the rate in [1, 10000] (Presets.BrushPreset.Valid), and a zero rate turns the time stamp into infinity in the source, which is not modelled. Window.ObjectPainterWindow.PlaceObject, Painting.PlaceStep, Painting.PaintStep, Painting.RunFrames, Painting.RunRespectsRate and Painting.StrictStrokeOffGeometryPlacesNothing share this precondition, and Painting.NextTimeStamp requires a non-zero rate.
- Window.ObjectPainterWindow.PaintObjects: requires the collection loaded and the selection in range, because the scene view calls the getters while drawing the brush just before.
- Window.ObjectPainterWindow.AddBrush: requires the collection loaded and non-empty. The list header runs right after the getter did that, so the getter calls inside the button code (which would only mark the asset dirty) are not repeated. The same holds for Window.ObjectPainterWindow.RemoveBrush.
- Resources.ReplaceAll: models ordinal matching only. An empty pattern is excluded because `string.Replace` throws on it; PathToToolRoot reports that case as a failure.
- Window.ObjectPainterWindow.GetSavedBrushes: a failed load is not modelled; the loaded collection is a non-null input. In the source the load throws when no saved asset loads and no tool directory exists (GenerateSavedBrushesAsset calls PathToToolRoot at line 48 of Editor/ObjectPainterResources.cs, which the model reports as Failure(NoToolDirectory)), and a null asset from GenerateSavedBrushesAsset would make the getter throw at line 84.
