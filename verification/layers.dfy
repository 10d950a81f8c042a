/** The annotation-pipeline adapters built on the numeric core:
    `merge_list_of_layers` stacks named layers (the raw signal under the
    name "signal", otherwise entries of the annotation mapping) along the
    channel axis, and `convolve_layer` stores the "same" convolution of a
    squared layer under "<layer>_conv". */
module Layers {
  import opened Arrays
  import Convolution

  /** The layer a name selects: "signal" is the raw signal even when the
      annotation mapping holds a key of that name. */
  function Lookup(signal: Array2, annot: map<string, Array2>, name: string): Result<Array2> {
    if name == "signal" then Ok(signal)
    else if name in annot then Ok(annot[name])
    else Err(MissingLayer(name))
  }

  /** The layers the names select, in list order; the first name that
      selects nothing raises a KeyError. */
  function LookupAll(signal: Array2, annot: map<string, Array2>, names: seq<string>): (r: Result<seq<Array2>>)
    ensures r.Ok? ==> |r.value| == |names|
    ensures r.Ok? ==> forall i :: 0 <= i < |names| ==> Lookup(signal, annot, names[i]) == Ok(r.value[i])
    ensures r.Err? ==> exists i :: 0 <= i < |names| && Lookup(signal, annot, names[i]) == Err(r.error)
                                 && forall j :: 0 <= j < i ==> Lookup(signal, annot, names[j]).Ok?
  {
    if names == [] then Ok([])
    else
      var first :- Lookup(signal, annot, names[0]);
      var rest :- LookupAll(signal, annot, names[1..]);
      Ok([first] + rest)
  }

  /** The rows of the layers, one layer after another. */
  function ConcatRows(layers: seq<Array2>): seq<seq<real>> {
    if layers == [] then [] else layers[0].rows + ConcatRows(layers[1..])
  }

  /** Number of rows of all the layers together. */
  function TotalRows(layers: seq<Array2>): nat {
    if layers == [] then 0 else |layers[0].rows| + TotalRows(layers[1..])
  }

  /** np.concatenate(layers, axis=0): at least one layer, all of one time length. */
  function Concatenate(layers: seq<Array2>): (r: Result<Array2>)
    ensures r.Ok? <==> |layers| > 0 && forall i :: 0 <= i < |layers| ==> layers[i].cols == layers[0].cols
    ensures |layers| == 0 ==> r == Err(NothingToConcatenate)
    ensures r.Err? && |layers| > 0 ==> r == Err(ShapeMismatch)
    ensures r.Ok? ==> r.value.cols == layers[0].cols && r.value.rows == ConcatRows(layers)
  {
    if |layers| == 0 then Err(NothingToConcatenate)
    else if exists i :: 0 <= i < |layers| && layers[i].cols != layers[0].cols then Err(ShapeMismatch)
    else Ok(Array2(layers[0].cols, ConcatRows(layers)))
  }

  /** Concatenating layers of one time length keeps that length and adds
      up their channel counts. */
  lemma {:induction false} ConcatShape(layers: seq<Array2>, cols: nat)
    requires forall i :: 0 <= i < |layers| ==> layers[i].WellShaped() && layers[i].cols == cols
    ensures |ConcatRows(layers)| == TotalRows(layers)
    ensures Array2(cols, ConcatRows(layers)).WellShaped()
  {
    if layers != [] {
      ConcatShape(layers[1..], cols);
    }
  }

  /** Slicing the concatenation back at a layer's offset recovers that
      layer's rows unchanged. */
  lemma {:induction false} ConcatSliceRecoversLayer(layers: seq<Array2>, i: nat)
    requires i < |layers|
    ensures TotalRows(layers[..i]) + |layers[i].rows| <= |ConcatRows(layers)|
    ensures ConcatRows(layers)[TotalRows(layers[..i]) .. TotalRows(layers[..i]) + |layers[i].rows|] == layers[i].rows
  {
    if i == 0 {
      assert layers[..0] == [];
      assert ConcatRows(layers) == layers[0].rows + ConcatRows(layers[1..]);
    } else {
      ConcatSliceRecoversLayer(layers[1..], i - 1);
      assert layers[1..][..i - 1] == layers[..i][1..];
      assert TotalRows(layers[..i]) == |layers[0].rows| + TotalRows(layers[1..][..i - 1]);
      assert layers[1..][i - 1] == layers[i];
    }
  }

  /** merge_list_of_layers: gathers the named layers into a list, then
      concatenates them under a new leading axis of extent 1. The
      annotation mapping is handed back unchanged. */
  method MergeListOfLayers(signal: Array2, annot: map<string, Array2>, names: seq<string>)
    returns (r: Result<(seq<Array2>, map<string, Array2>)>)
    ensures r == (var layers :- LookupAll(signal, annot, names);
                  var merged :- Concatenate(layers);
                  Ok(([merged], annot)))
    ensures r.Ok? ==> |r.value.0| == 1 && r.value.1 == annot
  {
    var res: seq<Array2> := [];
    for i := 0 to |names|
      invariant LookupAll(signal, annot, names[..i]) == Ok(res)
    {
      var layer := names[i];
      var data: Array2;
      if layer == "signal" {
        data := signal;
      } else if layer in annot {
        data := annot[layer];
      } else {
        LookupAllStopsAtMissing(signal, annot, names, i);
        return Err(MissingLayer(layer));
      }
      LookupAllExtends(signal, annot, names[..i], layer);
      assert names[..i + 1] == names[..i] + [layer];
      res := res + [data];
    }
    assert names[..|names|] == names;
    var merged :- Concatenate(res);
    return Ok(([merged], annot));
  }

  /** Looking up one more name that resolves extends the list by its layer. */
  lemma {:induction false} LookupAllExtends(signal: Array2, annot: map<string, Array2>, names: seq<string>, name: string)
    requires LookupAll(signal, annot, names).Ok? && Lookup(signal, annot, name).Ok?
    ensures LookupAll(signal, annot, names + [name])
            == Ok(LookupAll(signal, annot, names).value + [Lookup(signal, annot, name).value])
  {
    if names != [] {
      var first := Lookup(signal, annot, names[0]).value;
      assert LookupAll(signal, annot, names[1..]).Ok?;
      assert LookupAll(signal, annot, names).value == [first] + LookupAll(signal, annot, names[1..]).value;
      assert (names + [name])[0] == names[0];
      assert (names + [name])[1..] == names[1..] + [name];
      LookupAllExtends(signal, annot, names[1..], name);
      var v := Lookup(signal, annot, name).value;
      var rest := LookupAll(signal, annot, names[1..]).value;
      assert LookupAll(signal, annot, names + [name])
             == Ok([first] + LookupAll(signal, annot, (names + [name])[1..]).value);
      assert [first] + (rest + [v]) == ([first] + rest) + [v];
    } else {
      assert names + [name] == [name] && [name][1..] == [];
      assert LookupAll(signal, annot, [name][1..]) == Ok([]);
      assert LookupAll(signal, annot, names).value == [];
      var v := Lookup(signal, annot, name).value;
      assert LookupAll(signal, annot, [name]) == Ok([v] + []);
      assert [v] + [] == [] + [v];
    }
  }

  /** Once every name before position i resolves and name i does not, the
      whole lookup fails with that name's KeyError. */
  lemma {:induction false} LookupAllStopsAtMissing(signal: Array2, annot: map<string, Array2>, names: seq<string>, i: nat)
    requires i < |names| && LookupAll(signal, annot, names[..i]).Ok? && Lookup(signal, annot, names[i]).Err?
    ensures LookupAll(signal, annot, names) == Err(MissingLayer(names[i]))
  {
    if i > 0 {
      assert names[..i][1..] == names[1..][..i - 1];
      LookupAllStopsAtMissing(signal, annot, names[1..], i - 1);
    }
  }

  /** The merged array has shape 1 × (sum of the layers' channels) × T, and
      the rows of each named layer sit, in list order, at the offset given
      by the layers before it. */
  lemma {:induction false} MergedLayout(signal: Array2, annot: map<string, Array2>, names: seq<string>, i: nat)
    requires signal.WellShaped() && forall key :: key in annot ==> annot[key].WellShaped()
    requires LookupAll(signal, annot, names).Ok? && Concatenate(LookupAll(signal, annot, names).value).Ok?
    requires i < |names|
    ensures var layers := LookupAll(signal, annot, names).value;
            var merged := Concatenate(layers).value;
            && merged.WellShaped()
            && |merged.rows| == TotalRows(layers)
            && TotalRows(layers[..i]) + |layers[i].rows| <= |merged.rows|
            && merged.rows[TotalRows(layers[..i]) .. TotalRows(layers[..i]) + |layers[i].rows|]
               == Lookup(signal, annot, names[i]).value.rows
  {
    var layers := LookupAll(signal, annot, names).value;
    forall j | 0 <= j < |layers|
      ensures layers[j].WellShaped() && layers[j].cols == layers[0].cols
    {
      assert Lookup(signal, annot, names[j]) == Ok(layers[j]);
    }
    ConcatShape(layers, layers[0].cols);
    ConcatSliceRecoversLayer(layers, i);
  }

  /** `row ** 2`, element by element. */
  function Squared(row: seq<real>): seq<real> {
    seq(|row|, j requires 0 <= j < |row| => row[j] * row[j])
  }

  /** convolve_layer: squares the named layer, convolves each row with the
      kernel in np.convolve's "same" mode (no padding, no kernel checks),
      and stores the result under "<layer>_conv". */
  function ConvolveLayer(signal: Array2, annot: map<string, Array2>, layer: string, kernel: seq<real>)
    : (r: Result<map<string, Array2>>)
    requires signal.WellShaped() && forall key :: key in annot ==> annot[key].WellShaped()
    ensures Lookup(signal, annot, layer).Err? ==> r == Err(MissingLayer(layer))
    ensures r.Ok? <==> Lookup(signal, annot, layer).Ok? && |Lookup(signal, annot, layer).value.rows| > 0
                       && Lookup(signal, annot, layer).value.cols > 0 && |kernel| > 0
    ensures r.Ok? ==> r.value.Keys == annot.Keys + {layer + "_conv"}
    ensures r.Ok? ==> forall key :: key in annot && key != layer + "_conv" ==> r.value[key] == annot[key]
    ensures r.Ok? ==> var data := Lookup(signal, annot, layer).value;
                      var out := r.value[layer + "_conv"];
                      && out.WellShaped() && |out.rows| == |data.rows| && out.cols == Max(data.cols, |kernel|)
                      && forall c :: 0 <= c < |data.rows| ==>
                           Convolution.ConvolveSame(Squared(data.rows[c]), kernel)
                           == Ok(out.rows[c])
  {
    var data :- Lookup(signal, annot, layer);
    assert data.WellShaped();
    var squared := seq(|data.rows|, c requires 0 <= c < |data.rows| => Squared(data.rows[c]));
    assert forall c :: 0 <= c < |squared| ==> |squared[c]| == data.cols;
    if |squared| == 0 then Err(NoIterationDimensions)
    else
      var first :- Convolution.ConvolveSame(squared[0], kernel);
      var rows := seq(|squared|, c requires 0 <= c < |squared| => Convolution.ConvolveSame(squared[c], kernel).value);
      Ok(annot[layer + "_conv" := Array2(|first|, rows)])
  }
}
