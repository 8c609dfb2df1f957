# PlotVTK key-press state machine, in Dafny

PlotVTK is a set of scripts that display meshes with a rendering toolkit.
Its only logic of its own is the keyboard handler `KeyPressInteractorStyle`
in `PlotVTK.py`, plus the rule by which `append_polydata` labels meshes
before they are merged. This project models both and proves what they
promise.

- `counters.dfy` (module `Counters`): the integer counters. `NextIndex` and
  `Advance` are the cyclic scalar index of key `t`. `Wave` and `Bounce` are
  the triangle waves of key `d` (warp factor, step 5) and key `o` (opacity
  factor, step 10). A wave state that starts on a multiple of the step in
  [0, 100] has a *phase*, and one press advances that phase exactly like
  `NextIndex` advances the scalar index. The periods (40 presses of `d`,
  20 of `o`) then follow from the index's cycle lemma. An opacity that
  starts at 100 % or off the multiples of 10 never meets the exact
  `== 100` / `== 0` test and grows without bound (`OpacityOvershoots`,
  `OpacityBoundedIff`).
- `interactor.dfy` (module `Interactor`): `State` holds every field a key
  press can change: the counters, and the toolkit properties the handler
  sets (scalar visibility, active scalar name and scalar range of the
  mapper, the geometry bound to the mapper, the actor and glyph-actor
  opacities, the number of render requests). `Press` specifies one key
  press and `Run` a key sequence. The class `KeyPressInteractorStyle` keeps
  the same fields and updates them in place as the source does; its
  methods are proved to follow `Press`.
- `append.dfy` (module `AppendPolyData`): the loop of `append_polydata`.
  It gives the `i`-th mesh without a `label_color` array such an array,
  holding `i` at every point, and makes it the active scalars.
- `wrappers.dfy`: `Option`, for names that may be Python's `None`.

Points where the code is followed literally:

- `index_scalar` starts at 0, which already denotes the first array. So the
  first `t` press moves to index 1. With a single array that is the `None`
  sentinel, and the press switches scalar colouring off. The second press
  selects the array (`SingleFieldCycle`).
- The test at `PlotVTK.py:93` is Python truthiness. An unnamed array (the
  toolkit reports `None` as its name) or an empty name switches colouring
  off, exactly like the sentinel (`Truthy`).
- `t` switches colouring on before it reads the range
  (`PlotVTK.py:94-96`). For a named array that is not numeric the toolkit
  refuses it as the active scalars and gives no array to read, so the
  range lookup raises. The press ends with colouring on, the old active
  name, the old range and no render (outcome `Raised`).
- After a `d` press the mapper draws the warp filter's output, which is
  rebuilt from the copy made at construction. Its active scalars are
  therefore the copy's, whatever name an earlier `t` had set
  (`DeformAppliesScale`).
- `array_names` always ends with the sentinel, so it is never empty.
  The "no scalars found" return at `PlotVTK.py:86-88` cannot happen
  (`ArrayNames`), and the model has no branch for it.

## Model

| member | source | states |
|---|---|---|
| `Counters.NextIndex` | PlotVTK.py:89-91 | one `t` step keeps the index in [0, n) and equals (index + 1) mod n |
| `Counters.AdvanceCycle` | PlotVTK.py:89-91 | n steps of the index from any start in [0, n) return to that start |
| `Counters.AdvanceSplit` | PlotVTK.py:89-91 | a + b steps of the index are a steps followed by b steps |
| `Counters.Bounce` | PlotVTK.py:109-111 | a press moves the factor by sign times step; a sign of +1 or -1 stays one of the two and flips exactly when the new factor is 0 or 100 (the same rule as lines 118-121) |
| `Counters.Iterate` | PlotVTK.py:109-111 | over any number of presses a sign of +1 or -1 stays one of the two |
| `Counters.BounceAdvancesPhase` | PlotVTK.py:109-111 | a press keeps a factor that is a multiple of the step in [0, 100] on the wave, and advances its phase by one modulo the period |
| `Counters.IterateOnWave` | PlotVTK.py:109-111 | after any number k of presses the factor is still a multiple of the step in [0, 100], with the sign pointing inwards at the ends, and k phases further on |
| `Counters.WavePeriodic` | PlotVTK.py:109-121 | every state on the wave comes back after one period: 40 presses for step 5, 20 for step 10 |
| `Counters.OpacityOvershoots` | PlotVTK.py:118-121 | starting upwards at 100 or off the multiples of 10, k presses give factor start + 10k with the sign still +1 |
| `Counters.OpacityBoundedIff` | PlotVTK.py:72-121 | for a start in [0, 100] going up, the opacity factor stays in [0, 100] for every number of presses if and only if the start is a multiple of 10 no larger than 90 |
| `Interactor.ArrayNames` | PlotVTK.py:75-76 | `array_names` has one more entry than there are point arrays, lists their names in order, and ends with the `None` sentinel |
| `Interactor.GlyphToggle` | PlotVTK.py:103-104 | the new glyph opacity is non-negative; from 0 it becomes the original opacity, and from the original it becomes 0 |
| `Interactor.CycleScalar` | PlotVTK.py:89-98 | `t` sets the index to (index + 1) mod the length of `array_names` and changes nothing but the index and the mapper's visibility, name and range |
| `Interactor.StepWarp` | PlotVTK.py:109-116 | `d` changes only the warp, the geometry and the active scalars; from a warp on its wave the warp stays on it and the applied scale lies in [0, 1] |
| `Interactor.StepOpacity` | PlotVTK.py:118-122 | `o` changes only the opacity fields; from an opacity on its wave it stays on it and the actor opacity set lies in [0, 1] |
| `Interactor.Press` | PlotVTK.py:80-125 | any key but `q` keeps the scalar index inside `array_names` |
| `Interactor.Run` | PlotVTK.py:80-125 | any key sequence without `q` keeps the scalar index inside `array_names` |
| `Interactor.PressChangesOwnFields` | PlotVTK.py:80-125 | `t` changes only the index and the mapper's scalar state, `g` only the glyph opacity, `d` only the warp, the geometry and the active scalars, `o` only the opacity fields; any other key changes nothing but the render count, which every completed press raises by one and a press cut short leaves alone; only `t` can raise and only `g` or `d` without a glyph actor can return early, so every `o` press and every other key renders |
| `Interactor.NoGlyphGuards` | PlotVTK.py:99-108 | without a glyph actor, `g` and `d` leave the whole state unchanged and render nothing; with one they always end in a render (never a raise) |
| `Interactor.CycleScalarSelects` | PlotVTK.py:89-98 | `t` sets the index to (index + 1) mod the number of names; colouring is on exactly when the name there is a real name, and then, when the press renders, that name is active with the range of the array at that index; the press raises before rendering exactly when that array has no range, and then the old name and range stay; when colouring goes off (always on the sentinel) the mapper keeps its name and range |
| `Interactor.DeformAppliesScale` | PlotVTK.py:109-116 | `d` steps the warp wave once, binds the geometry warped by the new factor over 100, and the drawn mesh has the copy's active scalars |
| `Interactor.OpacityAppliesFactor` | PlotVTK.py:118-122 | `o` steps the opacity wave once and sets the actor opacity to the new factor over 100 |
| `Interactor.PressCounters` | PlotVTK.py:80-125 | each of the four counters moves on its own key only (warp only with a glyph actor) and is left alone by every other key |
| `Interactor.RunIndex` | PlotVTK.py:89-91 | after any key sequence the index has advanced once per `t` in it |
| `Interactor.RunWarp` | PlotVTK.py:105-111 | after any key sequence the warp has stepped once per `d` in it when there is a glyph actor, and not at all otherwise |
| `Interactor.RunOpacity` | PlotVTK.py:117-121 | after any key sequence the opacity has stepped once per `o` in it |
| `Interactor.RunGlyph` | PlotVTK.py:99-104 | after any key sequence the glyph opacity is toggled exactly when `g` occurs an odd number of times and there is a glyph actor |
| `Interactor.ScalarCyclePeriod` | PlotVTK.py:89-91 | pressing `t` once per entry of `array_names` returns the index to its start |
| `Interactor.DeformPeriod` | PlotVTK.py:105-111 | from a warp state on the wave, such as the initial (0, +1) of lines 69-71, any key sequence keeps the warp factor a multiple of 5 in [0, 100], and 40 presses of `d` restore the warp |
| `Interactor.OpacityPeriod` | PlotVTK.py:117-121 | from an opacity state on the wave, such as a start (line 72) that is a multiple of 10 in [0, 90] with sign +1, any key sequence keeps the factor a multiple of 10 in [0, 100], and 20 presses of `o` restore it |
| `Interactor.GlyphTwice` | PlotVTK.py:99-104 | from 0 or the original glyph opacity (line 65), `g` yields the other of the two, and two presses are the identity |
| `Interactor.SingleFieldCycle` | PlotVTK.py:75-98 | with one numeric array "temperature" and the index at 0, the first `t` lands on the sentinel and colouring goes off; the second selects "temperature" with its range; both render |
| `Interactor.KeyPressInteractorStyle.constructor` | PlotVTK.py:60-77 | the handler starts with index 0, warp (0, +1), opacity (start percentage, +1), the glyph opacity remembered, and `array_names` built from the copied mesh |
| `Interactor.KeyPressInteractorStyle.CycleScalarIndex` | PlotVTK.py:85-98 | the `t` block updates the fields in place as `CycleScalar` specifies, keeps the object invariant, and reports whether it raises on a named array without a range |
| `Interactor.KeyPressInteractorStyle.ToggleGlyph` | PlotVTK.py:103-104 | the `g` block changes only the glyph opacity, to `GlyphToggle` of it |
| `Interactor.KeyPressInteractorStyle.StepWarpFactor` | PlotVTK.py:109-116 | the `d` block updates the warp fields, the geometry and the active scalars in place as `StepWarp` specifies and keeps the warp on its wave |
| `Interactor.KeyPressInteractorStyle.StepOpacityFactor` | PlotVTK.py:118-122 | the `o` block updates the opacity fields in place as `StepOpacity` specifies |
| `Interactor.KeyPressInteractorStyle.KeyPressEvent` | PlotVTK.py:80-125 | the handler's new state and outcome are exactly those of `Press` on its old state, and the object invariant is kept |
| `AppendPolyData.Names` | PlotVTK.py:46-47 | the names list has one entry per point array, in order |
| `AppendPolyData.Prepare` | PlotVTK.py:44-53 | the copy of a mesh has `label_color`, equals the mesh when that already had one, and keeps its points and its arrays as a prefix |
| `AppendPolyData.PrepareAll` | PlotVTK.py:42-54 | one copy per input in input order, each with `label_color` and the input's points, and inputs that had `label_color` passed through |
| `AppendPolyData.LabelArray` | PlotVTK.py:49-50 | the label array is named `label_color` and holds the value i at each of the mesh's points |
| `AppendPolyData.AppendInputs` | PlotVTK.py:42-54 | the loop hands the append filter exactly the prepared copies, one per input, in input order |
| `AppendPolyData.PrepareLabels` | PlotVTK.py:44-53 | a mesh with `label_color` passes unchanged; any other keeps its arrays, gains a last array holding i at every point, and makes it the active scalars; either way the copy has `label_color` |
| `AppendPolyData.PrepareAllLabels` | PlotVTK.py:42-54 | the j-th copy has `label_color`; it equals the input when that had one, and otherwise carries the constant-j label as its active scalars |
| `AppendPolyData.PrepareAllIdempotent` | PlotVTK.py:48-52 | labelling an already labelled list changes nothing |

## Left out

- `Interactor.Press`: requires the key not to be `q`. Window teardown (`close_window`, `PlotVTK.py:82-84, 127-131`) is toolkit work, and the exception raised when the handler then reaches `self.parent` at line 123 is not modelled.
- `Interactor.KeyPressInteractorStyle.KeyPressEvent`: requires the key not to be `q`, for the same reason.
- The console messages (`print`) are left out. The `Render()` call becomes a count of render requests.
- The model chooses integers for the warp and opacity factors; in the source `opacity_factor` is the float `100 * opacity` (`PlotVTK.py:72`). The start opacity is given as a whole percentage in [0, 100]; the floating-point product `100 * opacity` and its rounding are not modelled. Glyph opacities are `real`.
- The toolkit clamps an opacity into [0, 1] when it is set. `actorOpacity` is the value the handler passes (`factor / 100`), which can leave [0, 1] on the unbounded opacity runs.
- The geometry computed by the warp filter and the glyph filter, and the merged mesh of the append filter, are left out. The model keeps only the warp scale and the array bookkeeping.
- `activeScalars` is the name the last `t` press set, or, after a `d` press, the active scalars of the copy made at construction, which the warp output carries. Which toolkit dataset object holds the name is not modelled. The toolkit also refuses an array with more than four components as the active scalars; that case is not modelled: every array with a range is taken to be accepted.
- After a press that raises, the toolkit reports the exception and keeps delivering key events; `Run` continues from the state the press left.
- The scalar range of an array is taken as the toolkit reports it (`GetRange`). Its computation is not modelled.
- `plot_vtk` and `MakeAxesActor` only build the scene (camera, axes, scalar bar, annotation, renderer). They supply the handler's inputs: the arrays, the start opacity, the optional glyph actor and the initial mapper state become constructor parameters.
- `Animation.py` (a timer-driven demo) and `main.py` (file loading and a transform) are not part of this model.
