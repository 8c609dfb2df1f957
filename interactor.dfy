/**
 * The keyboard state machine `KeyPressInteractorStyle` of PlotVTK.py.
 *
 * The handler owns a few counters and drives toolkit objects it was given
 * (the surface mapper and actor, an optional glyph actor). The toolkit
 * objects are reduced to the properties the handler sets: scalar
 * visibility, active scalar name and scalar range of the mapper, the
 * geometry bound to the mapper, the opacity of the actor and of the glyph
 * actor, and the number of render requests.
 *
 * `Press` is the specification of one key press on a value `State`;
 * the class `KeyPressInteractorStyle` updates its fields in place as the
 * source does and is proved to follow `Press`.
 */
module Interactor {
  import opened Wrappers
  import opened Counters

  const QuitKey := "q"
  const ScalarKey := "t"
  const GlyphKey := "g"
  const DeformKey := "d"
  const OpacityKey := "o"

  /** A value range as the toolkit reports it. */
  datatype Range = Range(lo: real, hi: real)

  /**
   * A point-data array of the copied mesh: its name (`None` for an unnamed
   * array) and the range `GetRange()` reports for it. The range is `None`
   * when the array is not numeric: `GetArray` then gives `None`, and asking
   * it for a range raises.
   */
  datatype ScalarArray = ScalarArray(name: Option<string>, range: Option<Range>)

  /** What the mapper draws: the original mesh, or the copy warped by `scale`. */
  datatype Geometry = Original | Warped(scale: real)

  /**
   * How the handler ended: with a render request, early on a missing glyph
   * actor, or with an exception before the render.
   */
  datatype Outcome = Rendered | NoVectors | Raised

  /**
   * What the handler is given and never changes: the point arrays of its
   * copy of the mesh, whether there is a glyph actor, the glyph actor's
   * opacity at construction, and the active scalars of the copy.
   */
  datatype Scene = Scene(arrays: seq<ScalarArray>, hasGlyph: bool, glyphOpacity: real,
                         copyActive: Option<string>)

  /** Everything a key press can change. */
  datatype State = State(
    indexScalar: int,
    warp: Wave,
    opacity: Wave,
    scalarVisible: bool,
    activeScalars: Option<string>,
    scalarRange: Range,
    geometry: Geometry,
    actorOpacity: real,
    glyphActorOpacity: real,
    renders: nat)

  /**
   * `array_names`: the names of the point arrays followed by the `None`
   * sentinel, so it is never empty.
   */
  function ArrayNames(arrays: seq<ScalarArray>): (names: seq<Option<string>>)
    ensures |names| == |arrays| + 1 && names[|arrays|] == None
    ensures forall i :: 0 <= i < |arrays| ==> names[i] == arrays[i].name
  {
    seq(|arrays|, i requires 0 <= i < |arrays| => arrays[i].name) + [None]
  }

  /** Python truth of a name: `None` and the empty string are false. */
  predicate Truthy(name: Option<string>) {
    name.Some? && name.value != ""
  }

  /** The scalar index points into `array_names`. */
  predicate Wellformed(scene: Scene, s: State) {
    0 <= s.indexScalar < |scene.arrays| + 1
  }

  /** `abs(current_opacity - glyph_opacity)` */
  function GlyphToggle(current: real, original: real): (r: real)
    ensures r >= 0.0
    ensures original >= 0.0 && current == 0.0 ==> r == original
    ensures current == original ==> r == 0.0
  {
    if current >= original then current - original else original - current
  }

  /** Whether key `t`, landing on index `i`, selects a named array it cannot take a range of. */
  predicate RangeMissing(scene: Scene, i: int) {
    0 <= i < |scene.arrays| && Truthy(scene.arrays[i].name) && scene.arrays[i].range.None?
  }

  /**
   * Key `t`: the next name of `array_names`, and the mapper follows it.
   * Colouring is switched on before the range is read. A non-numeric array
   * has no range, and the toolkit also refuses to make it the active
   * scalars, so such a press leaves colouring on with the old name and the
   * old range.
   */
  function CycleScalar(scene: Scene, s: State): (r: State)
    requires Wellformed(scene, s)
    ensures r.indexScalar == (s.indexScalar + 1) % (|scene.arrays| + 1)
    ensures r.(indexScalar := s.indexScalar, scalarVisible := s.scalarVisible,
               activeScalars := s.activeScalars, scalarRange := s.scalarRange) == s
  {
    var i := NextIndex(s.indexScalar, |scene.arrays| + 1);
    var name := ArrayNames(scene.arrays)[i];
    if Truthy(name) then
      match scene.arrays[i].range
      case Some(range) =>
        s.(indexScalar := i, scalarVisible := true, activeScalars := name, scalarRange := range)
      case None => s.(indexScalar := i, scalarVisible := true)
    else
      s.(indexScalar := i, scalarVisible := false)
  }

  /**
   * Key `d`: one step of the warp wave, applied as a scale of `factor / 100`
   * to the copy; the mapper then draws the warped copy, whose active
   * scalars are the copy's.
   */
  function StepWarp(scene: Scene, s: State): (r: State)
    ensures r.(warp := s.warp, geometry := s.geometry, activeScalars := s.activeScalars) == s
    ensures OnWave(s.warp, WarpStep) ==>
              OnWave(r.warp, WarpStep) && r.geometry.Warped? && 0.0 <= r.geometry.scale <= 1.0
  {
    var w := Bounce(s.warp, WarpStep);
    s.(warp := w, geometry := Warped(w.factor as real / 100.0), activeScalars := scene.copyActive)
  }

  /** Key `o`: one step of the opacity wave, set on the actor as `factor / 100`. */
  function StepOpacity(s: State): (r: State)
    ensures r.(opacity := s.opacity, actorOpacity := s.actorOpacity) == s
    ensures OnWave(s.opacity, OpacityStep) ==>
              OnWave(r.opacity, OpacityStep) && 0.0 <= r.actorOpacity <= 1.0
  {
    var o := Bounce(s.opacity, OpacityStep);
    s.(opacity := o, actorOpacity := o.factor as real / 100.0)
  }

  /** The render request that ends every press that is not cut short. */
  function Render(s: State): (r: (State, Outcome)) {
    (s.(renders := s.renders + 1), Rendered)
  }

  /** One key press (any key but `q`). */
  function Press(scene: Scene, s: State, key: string): (r: (State, Outcome))
    requires Wellformed(scene, s) && key != QuitKey
    ensures Wellformed(scene, r.0)
  {
    if key == ScalarKey then
      var c := CycleScalar(scene, s);
      if RangeMissing(scene, c.indexScalar) then (c, Raised) else Render(c)
    else if (key == GlyphKey || key == DeformKey) && !scene.hasGlyph then (s, NoVectors)
    else if key == GlyphKey then
      Render(s.(glyphActorOpacity := GlyphToggle(s.glyphActorOpacity, scene.glyphOpacity)))
    else if key == DeformKey then Render(StepWarp(scene, s))
    else if key == OpacityKey then Render(StepOpacity(s))
    else Render(s)
  }

  predicate NoQuit(keys: seq<string>) {
    forall j :: 0 <= j < |keys| ==> keys[j] != QuitKey
  }

  /** A sequence of key presses, the first pressed first. */
  function Run(scene: Scene, s: State, keys: seq<string>): (r: State)
    requires Wellformed(scene, s) && NoQuit(keys)
    ensures Wellformed(scene, r)
    decreases |keys|
  {
    if keys == [] then s else Run(scene, Press(scene, s, keys[0]).0, keys[1..])
  }

  /** How many times `key` occurs in `keys`. */
  function Count(keys: seq<string>, key: string): (n: nat)
    decreases |keys|
  {
    if keys == [] then 0 else (if keys[0] == key then 1 else 0) + Count(keys[1..], key)
  }

  /** `key` pressed `n` times. */
  function Repeat(key: string, n: nat): (keys: seq<string>)
    ensures |keys| == n && forall j :: 0 <= j < n ==> keys[j] == key
  {
    seq(n, _ => key)
  }

  // ---------------------------------------------------------------------
  // Properties of one press
  // ---------------------------------------------------------------------

  /**
   * Each key changes only its own fields and then requests a render, unless
   * it is cut short; only `t` can raise, and only `g` and `d` without a glyph
   * actor can return early, so every other press renders. Any key other than
   * `t`, `g`, `d`, `o` only requests a render.
   */
  lemma PressChangesOwnFields(scene: Scene, s: State, key: string)
    requires Wellformed(scene, s) && key != QuitKey
    ensures var (r, outcome) := Press(scene, s, key);
      && (outcome == Rendered ==> r.renders == s.renders + 1)
      && (outcome != Rendered ==> r.renders == s.renders)
      && (outcome == Raised ==> key == ScalarKey)
      && (outcome == NoVectors ==> (key == GlyphKey || key == DeformKey) && !scene.hasGlyph)
      && (key == ScalarKey ==>
            r.(indexScalar := s.indexScalar, scalarVisible := s.scalarVisible,
               activeScalars := s.activeScalars, scalarRange := s.scalarRange,
               renders := s.renders) == s)
      && (key == GlyphKey ==> r.(glyphActorOpacity := s.glyphActorOpacity, renders := s.renders) == s)
      && (key == DeformKey ==>
            r.(warp := s.warp, geometry := s.geometry, activeScalars := s.activeScalars,
               renders := s.renders) == s)
      && (key == OpacityKey ==> r.(opacity := s.opacity, actorOpacity := s.actorOpacity, renders := s.renders) == s)
      && (key !in {ScalarKey, GlyphKey, DeformKey, OpacityKey} ==> (r, outcome) == (s.(renders := s.renders + 1), Rendered))
  {
  }

  /**
   * Without a glyph actor `g` and `d` return at once: nothing changes and
   * nothing is rendered. With one they always render.
   */
  lemma NoGlyphGuards(scene: Scene, s: State, key: string)
    requires Wellformed(scene, s)
    requires key == GlyphKey || key == DeformKey
    ensures !scene.hasGlyph ==> Press(scene, s, key) == (s, NoVectors)
    ensures Press(scene, s, key).1 == NoVectors <==> !scene.hasGlyph
    ensures scene.hasGlyph ==> Press(scene, s, key).1 == Rendered
  {
  }

  /**
   * Key `t` moves the index one on modulo the length of `array_names`. The
   * mapper colours by the array at the new index exactly when its name is
   * a real (non-empty) name, and then makes that name active and takes that
   * array's range; when the array is not numeric the press raises before
   * the render, leaving the old name and range. Otherwise, and always on the
   * sentinel, colouring goes off and the mapper keeps its name and range.
   */
  lemma CycleScalarSelects(scene: Scene, s: State)
    requires Wellformed(scene, s)
    ensures var (r, outcome) := Press(scene, s, ScalarKey);
      var names := ArrayNames(scene.arrays);
      && r.indexScalar == (s.indexScalar + 1) % |names|
      && (r.scalarVisible <==> Truthy(names[r.indexScalar]))
      && (r.scalarVisible ==> r.indexScalar < |scene.arrays|)
      && (r.scalarVisible && outcome == Rendered ==>
            && r.activeScalars == scene.arrays[r.indexScalar].name
            && Some(r.scalarRange) == scene.arrays[r.indexScalar].range)
      && (outcome == Raised <==> r.scalarVisible && scene.arrays[r.indexScalar].range.None?)
      && (outcome == Raised ==> r.activeScalars == s.activeScalars && r.scalarRange == s.scalarRange)
      && (outcome != Raised ==> outcome == Rendered)
      && (!r.scalarVisible ==> r.activeScalars == s.activeScalars && r.scalarRange == s.scalarRange)
      && (r.indexScalar == |scene.arrays| ==> !r.scalarVisible)
  {
  }

  /**
   * Key `d` sets the warp scale to the new factor over 100, and the drawn
   * mesh, rebuilt from the copy, has the copy's active scalars again.
   */
  lemma DeformAppliesScale(scene: Scene, s: State)
    requires Wellformed(scene, s) && scene.hasGlyph
    ensures var r := Press(scene, s, DeformKey).0;
      && r.warp == Bounce(s.warp, WarpStep)
      && r.geometry == Warped(r.warp.factor as real / 100.0)
      && r.activeScalars == scene.copyActive
  {
  }

  /** Key `o` sets the actor's opacity to the new factor over 100. */
  lemma OpacityAppliesFactor(scene: Scene, s: State)
    requires Wellformed(scene, s)
    ensures var r := Press(scene, s, OpacityKey).0;
      r.opacity == Bounce(s.opacity, OpacityStep) && r.actorOpacity == r.opacity.factor as real / 100.0
  {
  }

  // ---------------------------------------------------------------------
  // Properties of key sequences
  // ---------------------------------------------------------------------

  /** What one press does to each counter. */
  lemma PressCounters(scene: Scene, s: State, key: string)
    requires Wellformed(scene, s) && key != QuitKey
    ensures var r := Press(scene, s, key).0;
      && r.indexScalar == (if key == ScalarKey then NextIndex(s.indexScalar, |scene.arrays| + 1) else s.indexScalar)
      && r.warp == (if key == DeformKey && scene.hasGlyph then Bounce(s.warp, WarpStep) else s.warp)
      && r.opacity == (if key == OpacityKey then Bounce(s.opacity, OpacityStep) else s.opacity)
      && r.glyphActorOpacity ==
           (if key == GlyphKey && scene.hasGlyph
            then GlyphToggle(s.glyphActorOpacity, scene.glyphOpacity) else s.glyphActorOpacity)
  {
  }

  lemma NoQuitTail(keys: seq<string>)
    requires keys != [] && NoQuit(keys)
    ensures keys[0] != QuitKey && NoQuit(keys[1..])
  {
    forall j | 0 <= j < |keys[1..]| ensures keys[1..][j] != QuitKey {
      assert keys[1..][j] == keys[j + 1];
    }
  }

  /** Over any key sequence the scalar index has moved once per `t`. */
  lemma {:induction false} RunIndex(scene: Scene, s: State, keys: seq<string>)
    requires Wellformed(scene, s) && NoQuit(keys)
    ensures Run(scene, s, keys).indexScalar
         == Advance(s.indexScalar, |scene.arrays| + 1, Count(keys, ScalarKey))
    decreases |keys|
  {
    if keys != [] {
      NoQuitTail(keys);
      PressCounters(scene, s, keys[0]);
      RunIndex(scene, Press(scene, s, keys[0]).0, keys[1..]);
    }
  }

  /** Over any key sequence the warp has moved once per `d`, when there is a glyph actor. */
  lemma {:induction false} RunWarp(scene: Scene, s: State, keys: seq<string>)
    requires Wellformed(scene, s) && NoQuit(keys)
    ensures Run(scene, s, keys).warp
         == Iterate(s.warp, WarpStep, if scene.hasGlyph then Count(keys, DeformKey) else 0)
    decreases |keys|
  {
    if keys != [] {
      NoQuitTail(keys);
      PressCounters(scene, s, keys[0]);
      RunWarp(scene, Press(scene, s, keys[0]).0, keys[1..]);
    }
  }

  /** Over any key sequence the opacity has moved once per `o`. */
  lemma {:induction false} RunOpacity(scene: Scene, s: State, keys: seq<string>)
    requires Wellformed(scene, s) && NoQuit(keys)
    ensures Run(scene, s, keys).opacity == Iterate(s.opacity, OpacityStep, Count(keys, OpacityKey))
    decreases |keys|
  {
    if keys != [] {
      NoQuitTail(keys);
      PressCounters(scene, s, keys[0]);
      RunOpacity(scene, Press(scene, s, keys[0]).0, keys[1..]);
    }
  }

  /**
   * Over any key sequence the glyph opacity has toggled once per `g`, so it
   * is toggled exactly when `g` was pressed an odd number of times.
   */
  lemma {:induction false} RunGlyph(scene: Scene, s: State, keys: seq<string>)
    requires Wellformed(scene, s) && NoQuit(keys)
    requires scene.glyphOpacity >= 0.0
    requires s.glyphActorOpacity == 0.0 || s.glyphActorOpacity == scene.glyphOpacity
    ensures Run(scene, s, keys).glyphActorOpacity ==
              if scene.hasGlyph && Count(keys, GlyphKey) % 2 == 1
              then GlyphToggle(s.glyphActorOpacity, scene.glyphOpacity)
              else s.glyphActorOpacity
    decreases |keys|
  {
    if keys != [] {
      NoQuitTail(keys);
      PressCounters(scene, s, keys[0]);
      RunGlyph(scene, Press(scene, s, keys[0]).0, keys[1..]);
    }
  }

  lemma {:induction false} CountRepeat(key: string, n: nat)
    ensures Count(Repeat(key, n), key) == n
    decreases n
  {
    if n > 0 {
      assert Repeat(key, n)[1..] == Repeat(key, n - 1);
      CountRepeat(key, n - 1);
    }
  }

  /** Pressing `t` once per entry of `array_names` brings the index back. */
  lemma ScalarCyclePeriod(scene: Scene, s: State)
    requires Wellformed(scene, s)
    ensures Run(scene, s, Repeat(ScalarKey, |ArrayNames(scene.arrays)|)).indexScalar == s.indexScalar
  {
    var n := |scene.arrays| + 1;
    RunIndex(scene, s, Repeat(ScalarKey, n));
    CountRepeat(ScalarKey, n);
    AdvanceCycle(s.indexScalar, n);
  }

  /**
   * From any state on the warp wave (the handler starts at (0, +1)), any key
   * sequence keeps the warp factor a multiple of 5 in [0, 100], and 40
   * presses of `d` bring the warp back.
   */
  lemma DeformPeriod(scene: Scene, s: State, keys: seq<string>)
    requires Wellformed(scene, s) && NoQuit(keys)
    requires OnWave(s.warp, WarpStep)
    ensures OnWave(Run(scene, s, keys).warp, WarpStep)
    ensures scene.hasGlyph ==> Run(scene, s, Repeat(DeformKey, 40)).warp == s.warp
  {
    RunWarp(scene, s, keys);
    IterateOnWave(s.warp, WarpStep, if scene.hasGlyph then Count(keys, DeformKey) else 0);
    RunWarp(scene, s, Repeat(DeformKey, 40));
    CountRepeat(DeformKey, 40);
    WavePeriodic(s.warp, WarpStep);
  }

  /**
   * From any state on the opacity wave (for instance a start percentage
   * that is a multiple of 10 in [0, 90] with sign +1), any key sequence
   * keeps the opacity factor a multiple of 10 in [0, 100], and 20 presses
   * of `o` bring the opacity back.
   */
  lemma OpacityPeriod(scene: Scene, s: State, keys: seq<string>)
    requires Wellformed(scene, s) && NoQuit(keys)
    requires OnWave(s.opacity, OpacityStep)
    ensures OnWave(Run(scene, s, keys).opacity, OpacityStep)
    ensures Run(scene, s, Repeat(OpacityKey, 20)).opacity == s.opacity
  {
    RunOpacity(scene, s, keys);
    IterateOnWave(s.opacity, OpacityStep, Count(keys, OpacityKey));
    RunOpacity(scene, s, Repeat(OpacityKey, 20));
    CountRepeat(OpacityKey, 20);
    WavePeriodic(s.opacity, OpacityStep);
  }

  /**
   * With a glyph actor whose opacity is 0 or its original value, `g`
   * alternates the two values, so pressing it twice changes nothing.
   */
  lemma GlyphTwice(scene: Scene, s: State)
    requires Wellformed(scene, s) && scene.hasGlyph
    requires scene.glyphOpacity >= 0.0
    requires s.glyphActorOpacity == 0.0 || s.glyphActorOpacity == scene.glyphOpacity
    ensures var once := Press(scene, s, GlyphKey).0.glyphActorOpacity;
      (once == 0.0 || once == scene.glyphOpacity) && (scene.glyphOpacity != 0.0 ==> once != s.glyphActorOpacity)
    ensures Run(scene, s, Repeat(GlyphKey, 2)).glyphActorOpacity == s.glyphActorOpacity
  {
    RunGlyph(scene, s, Repeat(GlyphKey, 2));
    CountRepeat(GlyphKey, 2);
  }

  /**
   * With a single array named "temperature" and the index at its start
   * value 0, the first `t` lands on the sentinel and switches scalar
   * colouring off; the second selects "temperature" with its range.
   */
  lemma SingleFieldCycle(range: Range, s: State)
    requires s.indexScalar == 0
    ensures var scene := Scene([ScalarArray(Some("temperature"), Some(range))], false, 0.0, None);
      var (first, outcome1) := Press(scene, s, ScalarKey);
      var (second, outcome2) := Press(scene, first, ScalarKey);
      && outcome1 == Rendered && outcome2 == Rendered
      && first.indexScalar == 1 && !first.scalarVisible
      && second.indexScalar == 0 && second.scalarVisible
      && second.activeScalars == Some("temperature") && second.scalarRange == range
  {
  }

  // ---------------------------------------------------------------------
  // The handler object
  // ---------------------------------------------------------------------

  class KeyPressInteractorStyle {
    /** The point arrays of `polydata`, the handler's deep copy of the mesh. */
    const arrays: seq<ScalarArray>
    const arrayNames: seq<Option<string>>
    /** Whether a glyph actor was given. */
    const hasGlyph: bool
    /** `glyph_opacity`: the glyph actor's opacity at construction, 0.0 without one. */
    const glyphOpacity: real
    /** The active scalars of `polydata`, fixed by the copy at construction. */
    const copyActive: Option<string>

    var indexScalar: int
    var warpFactor: int
    var warpSign: int
    var opacityFactor: int
    var opacitySign: int

    // The toolkit state the handler sets.
    var scalarVisible: bool
    var activeScalars: Option<string>
    var scalarRange: Range
    var geometry: Geometry
    var actorOpacity: real
    var glyphActorOpacity: real
    var renders: nat

    function Config(): Scene {
      Scene(arrays, hasGlyph, glyphOpacity, copyActive)
    }

    function Snapshot(): State
      reads this
    {
      State(indexScalar, Wave(warpFactor, warpSign), Wave(opacityFactor, opacitySign),
            scalarVisible, activeScalars, scalarRange, geometry, actorOpacity,
            glyphActorOpacity, renders)
    }

    ghost predicate Valid()
      reads this
    {
      && arrayNames == ArrayNames(arrays)
      && Wellformed(Config(), Snapshot())
      && OnWave(Wave(warpFactor, warpSign), WarpStep)
      && glyphOpacity >= 0.0
      && (glyphActorOpacity == 0.0 || glyphActorOpacity == glyphOpacity)
    }

    /**
     * `opacityPercent` is `100 * actor opacity`; `glyph` is the glyph
     * actor's opacity when there is one; the mapper state is what the scene
     * builder left on the mapper, whose input the handler copies, so the
     * copy's active scalars are `activeScalars`.
     */
    constructor (arrays: seq<ScalarArray>, opacityPercent: int, glyph: Option<real>,
                 scalarVisible: bool, activeScalars: Option<string>, scalarRange: Range)
      requires 0 <= opacityPercent <= 100
      requires glyph.Some? ==> 0.0 <= glyph.value <= 1.0
      ensures Valid()
      ensures this.arrays == arrays && hasGlyph == glyph.Some?
      ensures glyphOpacity == if glyph.Some? then glyph.value else 0.0
      ensures copyActive == activeScalars
      ensures |arrayNames| == |arrays| + 1 && arrayNames[|arrays|] == None
      ensures Snapshot() == State(0, Wave(0, 1), Wave(opacityPercent, 1), scalarVisible,
                                  activeScalars, scalarRange, Original,
                                  opacityPercent as real / 100.0, glyphOpacity, 0)
    {
      this.arrays := arrays;
      hasGlyph := glyph.Some?;
      glyphOpacity := if glyph.Some? then glyph.value else 0.0;
      warpFactor := 0;
      warpSign := 1;
      opacityFactor := opacityPercent;
      opacitySign := 1;
      arrayNames := ArrayNames(arrays);
      indexScalar := 0;
      this.scalarVisible := scalarVisible;
      this.activeScalars := activeScalars;
      copyActive := activeScalars;
      this.scalarRange := scalarRange;
      geometry := Original;
      actorOpacity := opacityPercent as real / 100.0;
      glyphActorOpacity := if glyph.Some? then glyph.value else 0.0;
      renders := 0;
    }

    /**
     * The `t` block of `key_press_event`; `raised` tells whether it ends by
     * raising, on a named array that has no range.
     */
    method CycleScalarIndex() returns (raised: bool)
      requires Valid()
      modifies this
      ensures Valid()
      ensures Snapshot() == CycleScalar(Config(), old(Snapshot()))
      ensures raised == RangeMissing(Config(), indexScalar)
    {
      // `array_names` always holds the sentinel, so the source's
      // "no scalars found" return cannot happen.
      indexScalar := indexScalar + 1;
      if indexScalar == |arrayNames| {
        indexScalar := 0;
      }
      var name := arrayNames[indexScalar];
      raised := false;
      if name.Some? && name.value != "" {
        scalarVisible := true;
        var range := arrays[indexScalar].range;
        if range.None? {
          // the toolkit refuses a non-numeric array as the active scalars
          raised := true;
          return;
        }
        activeScalars := name;
        scalarRange := range.value;
      } else {
        scalarVisible := false;
      }
    }

    /** The `g` block of `key_press_event`, past its guard. */
    method ToggleGlyph()
      requires Valid() && hasGlyph
      modifies this
      ensures Valid()
      ensures Snapshot() == old(Snapshot()).(glyphActorOpacity := GlyphToggle(old(glyphActorOpacity), glyphOpacity))
    {
      var current := glyphActorOpacity;
      glyphActorOpacity := GlyphToggle(current, glyphOpacity);
    }

    /** The `d` block of `key_press_event`, past its guard. */
    method StepWarpFactor()
      requires Valid() && hasGlyph
      modifies this
      ensures Valid()
      ensures Snapshot() == StepWarp(Config(), old(Snapshot()))
    {
      BounceAdvancesPhase(Wave(warpFactor, warpSign), WarpStep);
      warpFactor := warpFactor + warpSign * WarpStep;
      if warpFactor == 100 || warpFactor == 0 {
        warpSign := -1 * warpSign;
      }
      geometry := Warped(warpFactor as real / 100.0);
      activeScalars := copyActive;
    }

    /** The `o` block of `key_press_event`. */
    method StepOpacityFactor()
      requires Valid()
      modifies this
      ensures Valid()
      ensures Snapshot() == StepOpacity(old(Snapshot()))
    {
      opacityFactor := opacityFactor + opacitySign * OpacityStep;
      if opacityFactor == 100 || opacityFactor == 0 {
        opacitySign := -1 * opacitySign;
      }
      actorOpacity := opacityFactor as real / 100.0;
    }

    /** `key_press_event` for every key but `q`. */
    method KeyPressEvent(key: string) returns (outcome: Outcome)
      requires Valid() && key != QuitKey
      modifies this
      ensures Valid()
      ensures Snapshot() == Press(Config(), old(Snapshot()), key).0
      ensures outcome == Press(Config(), old(Snapshot()), key).1
    {
      if key == ScalarKey {
        var raised := CycleScalarIndex();
        if raised {
          return Raised;
        }
      } else if key == GlyphKey {
        if !hasGlyph {
          return NoVectors;
        }
        ToggleGlyph();
      } else if key == DeformKey {
        if !hasGlyph {
          return NoVectors;
        }
        StepWarpFactor();
      } else if key == OpacityKey {
        StepOpacityFactor();
      }
      renders := renders + 1;
      outcome := Rendered;
    }
  }
}
