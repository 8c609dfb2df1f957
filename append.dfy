/**
 * The labelling rule of `append_polydata` (PlotVTK.py:40-56): every mesh
 * that has no point array named `label_color` gets one holding its
 * position in the list at every point, and that array becomes its active
 * scalars. The merge of the labelled copies into one mesh is done by the
 * toolkit and is not part of this model; the result here is the list of
 * copies handed to the append filter, in order.
 */
module AppendPolyData {
  import opened Wrappers

  const LabelColor := "label_color"

  /** A point-data array: its name (`None` when unnamed) and one value per point. */
  datatype PointArray = PointArray(name: Option<string>, values: seq<real>)

  /** A mesh as far as its point data goes. */
  datatype Mesh = Mesh(numPoints: nat, arrays: seq<PointArray>, activeScalars: Option<string>)

  /** The list of array names the source builds for a mesh. */
  function Names(m: Mesh): (names: seq<Option<string>>)
    ensures |names| == |m.arrays|
    ensures forall j :: 0 <= j < |m.arrays| ==> names[j] == m.arrays[j].name
  {
    seq(|m.arrays|, j requires 0 <= j < |m.arrays| => m.arrays[j].name)
  }

  predicate HasLabel(m: Mesh) {
    Some(LabelColor) in Names(m)
  }

  /** The array `i * np.ones(number of points)` named `label_color`. */
  function LabelArray(numPoints: nat, i: int): (a: PointArray)
    ensures a.name == Some(LabelColor) && |a.values| == numPoints
    ensures forall p :: 0 <= p < numPoints ==> a.values[p] == i as real
  {
    PointArray(Some(LabelColor), seq(numPoints, _ => i as real))
  }

  /** The copy of the `i`-th mesh that goes to the append filter. */
  function Prepare(m: Mesh, i: int): (r: Mesh)
    ensures HasLabel(r)
    ensures HasLabel(m) ==> r == m
    ensures r.numPoints == m.numPoints
    ensures |r.arrays| >= |m.arrays| && r.arrays[..|m.arrays|] == m.arrays
  {
    if HasLabel(m) then m
    else
      var r := m.(arrays := m.arrays + [LabelArray(m.numPoints, i)], activeScalars := Some(LabelColor));
      assert Names(r)[|m.arrays|] == Some(LabelColor);
      r
  }

  /** Every mesh in `polys`, prepared with its position. */
  function PrepareAll(polys: seq<Mesh>): (out: seq<Mesh>)
    ensures |out| == |polys|
    ensures forall j :: 0 <= j < |polys| ==> HasLabel(out[j]) && out[j].numPoints == polys[j].numPoints
    ensures forall j :: 0 <= j < |polys| && HasLabel(polys[j]) ==> out[j] == polys[j]
  {
    seq(|polys|, j requires 0 <= j < |polys| => Prepare(polys[j], j))
  }

  /**
   * The loop of `append_polydata`: walk the list with the counter `i`,
   * label each copy that needs it, and collect the copies in order.
   */
  method AppendInputs(polys: seq<Mesh>) returns (inputs: seq<Mesh>)
    ensures inputs == PrepareAll(polys)
  {
    inputs := [];
    var i := 0;
    while i < |polys|
      invariant 0 <= i <= |polys|
      invariant inputs == PrepareAll(polys[..i])
    {
      var temp := polys[i];
      if Some(LabelColor) !in Names(temp) {
        var labelColor := LabelArray(temp.numPoints, i);
        temp := temp.(arrays := temp.arrays + [labelColor]);
        temp := temp.(activeScalars := Some(LabelColor));
      }
      inputs := inputs + [temp];
      i := i + 1;
    }
    assert polys[..i] == polys;
  }

  /**
   * Every prepared copy has a `label_color` array. A copy that already had
   * one is passed through unchanged; any other keeps its arrays, gains a
   * last array holding `i` at each of its points, and shows it.
   */
  lemma PrepareLabels(m: Mesh, i: int)
    ensures HasLabel(Prepare(m, i))
    ensures HasLabel(m) ==> Prepare(m, i) == m
    ensures !HasLabel(m) ==>
      var r := Prepare(m, i);
      && r.numPoints == m.numPoints
      && r.arrays[..|m.arrays|] == m.arrays
      && |r.arrays| == |m.arrays| + 1
      && r.arrays[|m.arrays|].name == Some(LabelColor)
      && |r.arrays[|m.arrays|].values| == m.numPoints
      && (forall p :: 0 <= p < m.numPoints ==> r.arrays[|m.arrays|].values[p] == i as real)
      && r.activeScalars == Some(LabelColor)
  {
    if !HasLabel(m) {
      var r := Prepare(m, i);
      assert Names(r)[|m.arrays|] == Some(LabelColor);
    }
  }

  /**
   * The list keeps its order and length; the `j`-th copy is labelled with
   * `j` exactly when the `j`-th input had no `label_color`, and every copy
   * ends up with one.
   */
  lemma PrepareAllLabels(polys: seq<Mesh>)
    ensures forall j :: 0 <= j < |polys| ==> HasLabel(PrepareAll(polys)[j])
    ensures forall j :: 0 <= j < |polys| && HasLabel(polys[j]) ==> PrepareAll(polys)[j] == polys[j]
    ensures forall j :: 0 <= j < |polys| && !HasLabel(polys[j]) ==>
              PrepareAll(polys)[j].activeScalars == Some(LabelColor)
              && PrepareAll(polys)[j].arrays == polys[j].arrays + [LabelArray(polys[j].numPoints, j)]
  {
    forall j | 0 <= j < |polys| ensures HasLabel(PrepareAll(polys)[j]) {
      PrepareLabels(polys[j], j);
    }
  }

  /** Labelling twice is labelling once: the second pass finds every label present. */
  lemma PrepareAllIdempotent(polys: seq<Mesh>)
    ensures PrepareAll(PrepareAll(polys)) == PrepareAll(polys)
  {
    PrepareAllLabels(polys);
  }
}
