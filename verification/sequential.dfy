/** The feed-forward stack builder `build_sequential` of the task VAE, as a list of layer
    descriptors, together with the shape each layer maps its input to.
    Weights, their orthogonal initialisation and the layers' numerics are not modelled. */
module Sequential {
  import opened Results
  import opened Shapes

  datatype Activation = Relu | Tanh

  datatype Layer =
    | Linear(inWidth: nat, outWidth: nat)
    | LayerNorm(width: nat)
    | Nonlin(kind: Activation)

  /** The activation named by `name`; any name other than "relu" and "tanh" is refused. */
  function ParseActivation(name: string): (r: Result<Activation>)
    ensures r.Ok? <==> name == "relu" || name == "tanh"
    ensures r.Ok? ==> (r.value == Relu <==> name == "relu")
    ensures r.Err? ==> r.error == UnknownActivation(name)
  {
    if name == "relu" then Ok(Relu)
    else if name == "tanh" then Ok(Tanh)
    else Err(UnknownActivation(name))
  }

  /** Layers per hidden width in the periodic layout: Linear, LayerNorm when enabled,
      and one nonlinearity slot. */
  function Stride(layerNorm: bool): nat {
    if layerNorm then 3 else 2
  }

  /** Number of layers the builder emits for `n` hidden widths. */
  function StackLength(n: nat, layerNorm: bool, outputActivation: bool): nat
    requires n > 0
  {
    n * Stride(layerNorm) - (if outputActivation then 0 else 1)
  }

  /** Layer `j` of a built stack, read off the periodic layout: block `j / Stride` belongs to
      hidden width `hiddens[j / Stride]`, and within the block the Linear comes first, then
      the LayerNorm (when enabled), then the nonlinearity. */
  function LayerAt(numInputs: nat, hiddens: seq<nat>, act: Activation, layerNorm: bool, j: nat): Layer
    requires j / Stride(layerNorm) < |hiddens|
  {
    var i := j / Stride(layerNorm);
    var o := j % Stride(layerNorm);
    if o == 0 then Linear(if i == 0 then numInputs else hiddens[i - 1], hiddens[i])
    else if layerNorm && o == 1 then LayerNorm(hiddens[i])
    else Nonlin(act)
  }

  /** The layers emitted for `hiddens` by the first append and the loop of the builder,
      before the optional output nonlinearity. */
  function Chain(inWidth: nat, hiddens: seq<nat>, act: Activation, layerNorm: bool): (layers: seq<Layer>)
    requires |hiddens| > 0
    ensures |layers| == |hiddens| * Stride(layerNorm) - 1
    decreases |hiddens|
  {
    [Linear(inWidth, hiddens[0])]
    + (if layerNorm then [LayerNorm(hiddens[0])] else [])
    + (if |hiddens| == 1 then [] else [Nonlin(act)] + Chain(hiddens[0], hiddens[1..], act, layerNorm))
  }

  /** `build_sequential(num_inputs, hiddens, activation, layer_norm, output_activation)`.
      The activation is checked before the hidden widths, so a bad name wins over an empty list. */
  function BuildSequential(numInputs: nat, hiddens: seq<nat>, activation: string, layerNorm: bool,
                           outputActivation: bool): (r: Result<seq<Layer>>)
    ensures r.Ok? <==> (activation == "relu" || activation == "tanh") && |hiddens| > 0
    ensures ParseActivation(activation).Err? ==> r == Err(UnknownActivation(activation))
    ensures ParseActivation(activation).Ok? && |hiddens| == 0 ==> r == Err(EmptyHiddens)
    ensures r.Ok? ==> |r.value| == StackLength(|hiddens|, layerNorm, outputActivation)
    ensures r.Ok? ==> r.value[0] == Linear(numInputs, hiddens[0])
  {
    var act :- ParseActivation(activation);
    if |hiddens| == 0 then Err(EmptyHiddens)
    else Ok(Chain(numInputs, hiddens, act, layerNorm) + (if outputActivation then [Nonlin(act)] else []))
  }

  lemma DivStep(j: nat, d: nat)
    requires d == 2 || d == 3
    requires j >= d
    ensures (j - d) / d == j / d - 1 && (j - d) % d == j % d
  {
  }

  /** Position `j` of a chain holds the layer the periodic layout prescribes. */
  lemma {:induction false} ChainLayoutAt(inWidth: nat, hiddens: seq<nat>, act: Activation, layerNorm: bool, j: nat)
    requires |hiddens| > 0 && j < |Chain(inWidth, hiddens, act, layerNorm)|
    ensures j / Stride(layerNorm) < |hiddens|
    ensures Chain(inWidth, hiddens, act, layerNorm)[j] == LayerAt(inWidth, hiddens, act, layerNorm, j)
    decreases |hiddens|
  {
    var d := Stride(layerNorm);
    var c := Chain(inWidth, hiddens, act, layerNorm);
    if j < d {
      assert j / d == 0 && j % d == j by {
        if layerNorm { assert d == 3; } else { assert d == 2; }
      }
    } else {
      var rest := Chain(hiddens[0], hiddens[1..], act, layerNorm);
      assert |hiddens| > 1;
      assert c == c[..d] + rest;
      assert c[j] == rest[j - d];
      ChainLayoutAt(hiddens[0], hiddens[1..], act, layerNorm, j - d);
      LayerAtShift(inWidth, hiddens, act, layerNorm, j);
    }
  }

  /** Past the first block, the layout of `hiddens` is the layout of its tail, fed the
      first width, one block later. */
  lemma LayerAtShift(inWidth: nat, hiddens: seq<nat>, act: Activation, layerNorm: bool, j: nat)
    requires |hiddens| > 1 && j >= Stride(layerNorm) && (j - Stride(layerNorm)) / Stride(layerNorm) < |hiddens| - 1
    ensures j / Stride(layerNorm) < |hiddens|
    ensures LayerAt(inWidth, hiddens, act, layerNorm, j) == LayerAt(hiddens[0], hiddens[1..], act, layerNorm, j - Stride(layerNorm))
  {
    DivStep(j, Stride(layerNorm));
  }

  /** Every position of a chain holds the layer the periodic layout prescribes. */
  lemma ChainLayout(inWidth: nat, hiddens: seq<nat>, act: Activation, layerNorm: bool)
    requires |hiddens| > 0
    ensures forall j :: 0 <= j < |Chain(inWidth, hiddens, act, layerNorm)| ==>
      j / Stride(layerNorm) < |hiddens| && Chain(inWidth, hiddens, act, layerNorm)[j] == LayerAt(inWidth, hiddens, act, layerNorm, j)
  {
    forall j | 0 <= j < |Chain(inWidth, hiddens, act, layerNorm)|
      ensures j / Stride(layerNorm) < |hiddens| && Chain(inWidth, hiddens, act, layerNorm)[j] == LayerAt(inWidth, hiddens, act, layerNorm, j)
    {
      ChainLayoutAt(inWidth, hiddens, act, layerNorm, j);
    }
  }

  /** The whole built stack, output nonlinearity included, is the periodic layout:
      Linear(numInputs -> hiddens[0]), then Linear(hiddens[i-1] -> hiddens[i]) for every later
      width, each followed by LayerNorm(hiddens[i]) exactly when `layerNorm`, a nonlinearity
      between consecutive blocks, and a final nonlinearity exactly when `outputActivation`. */
  lemma BuildSequentialLayout(numInputs: nat, hiddens: seq<nat>, activation: string, layerNorm: bool,
                              outputActivation: bool, act: Activation)
    requires ParseActivation(activation) == Ok(act) && |hiddens| > 0
    ensures BuildSequential(numInputs, hiddens, activation, layerNorm, outputActivation).Ok?
    ensures var layers := BuildSequential(numInputs, hiddens, activation, layerNorm, outputActivation).value;
      && |layers| == StackLength(|hiddens|, layerNorm, outputActivation)
      && forall j :: 0 <= j < |layers| ==>
           j / Stride(layerNorm) < |hiddens| && layers[j] == LayerAt(numInputs, hiddens, act, layerNorm, j)
  {
    var c := Chain(numInputs, hiddens, act, layerNorm);
    var d := Stride(layerNorm);
    ChainLayout(numInputs, hiddens, act, layerNorm);
    var layers := BuildSequential(numInputs, hiddens, activation, layerNorm, outputActivation).value;
    assert layers == c + (if outputActivation then [Nonlin(act)] else []);
    if outputActivation {
      var j := |c|;
      assert j == (|hiddens| - 1) * d + (d - 1);
      assert j / d == |hiddens| - 1 && j % d == d - 1 by {
        if layerNorm { assert d == 3; } else { assert d == 2; }
      }
      assert layers[j] == LayerAt(numInputs, hiddens, act, layerNorm, j);
    }
  }

  /** Shape produced by one layer, or the error torch raises: a Linear needs a last axis of
      its input width, a LayerNorm one of its own width; a nonlinearity keeps any shape. */
  function ApplyLayer(layer: Layer, s: Shape): (r: Result<Shape>)
    ensures r.Ok? ==> |r.value| == |s|
    ensures r.Ok? && |s| > 0 ==> Lead(r.value) == Lead(s)
    ensures r.Err? ==> r.error == ShapeMismatch
    ensures layer.Nonlin? ==> r == Ok(s)
    ensures layer.Linear? ==> (r.Ok? <==> |s| > 0 && Last(s) == layer.inWidth)
    ensures layer.Linear? && r.Ok? ==> Last(r.value) == layer.outWidth
    ensures layer.LayerNorm? ==> (r.Ok? <==> |s| > 0 && Last(s) == layer.width) && (r.Ok? ==> r.value == s)
  {
    match layer
    case Linear(i, o) => if |s| > 0 && Last(s) == i then Ok(WithLast(s, o)) else Err(ShapeMismatch)
    case LayerNorm(w) => if |s| > 0 && Last(s) == w then Ok(s) else Err(ShapeMismatch)
    case Nonlin(_) => Ok(s)
  }

  /** Shape produced by `nn.Sequential(*layers)`: the layers applied in order. Every layer
      keeps the rank and all axes but the last. */
  function ApplyLayers(layers: seq<Layer>, s: Shape): (r: Result<Shape>)
    ensures r.Ok? ==> |r.value| == |s|
    ensures r.Ok? && |s| > 0 ==> Lead(r.value) == Lead(s)
    ensures r.Err? ==> r.error == ShapeMismatch
  {
    if |layers| == 0 then Ok(s)
    else
      var t :- ApplyLayer(layers[0], s);
      ApplyLayers(layers[1..], t)
  }

  lemma {:induction false} ApplyLayersAppend(a: seq<Layer>, b: seq<Layer>, s: Shape)
    ensures ApplyLayers(a + b, s) == (match ApplyLayers(a, s) case Ok(t) => ApplyLayers(b, t) case Err(e) => Err(e))
    decreases |a|
  {
    if |a| == 0 {
      assert a + b == b;
    } else {
      assert (a + b)[1..] == a[1..] + b;
      match ApplyLayer(a[0], s)
      case Ok(t) => ApplyLayersAppend(a[1..], b, t);
      case Err(_) =>
    }
  }

  /** A chain maps a feature axis of width `inWidth` to the last hidden width and keeps every
      other axis; any other input width is a shape error at the first Linear. */
  lemma {:induction false} ChainOutput(inWidth: nat, hiddens: seq<nat>, act: Activation, layerNorm: bool, s: Shape)
    requires |hiddens| > 0 && |s| > 0
    ensures ApplyLayers(Chain(inWidth, hiddens, act, layerNorm), s)
      == if Last(s) == inWidth then Ok(WithLast(s, hiddens[|hiddens| - 1])) else Err(ShapeMismatch)
    decreases |hiddens|
  {
    var block := [Linear(inWidth, hiddens[0])] + (if layerNorm then [LayerNorm(hiddens[0])] else []);
    var tail := if |hiddens| == 1 then [] else [Nonlin(act)] + Chain(hiddens[0], hiddens[1..], act, layerNorm);
    assert Chain(inWidth, hiddens, act, layerNorm) == block + tail;
    ApplyLayersAppend(block, tail, s);
    if Last(s) == inWidth {
      var t := WithLast(s, hiddens[0]);
      assert ApplyLayers(block, s) == Ok(t) by {
        assert ApplyLayer(block[0], s) == Ok(t);
        assert ApplyLayers(block, s) == ApplyLayers(block[1..], t);
        if layerNorm {
          var norm := [LayerNorm(hiddens[0])];
          assert block[1..] == norm;
          assert ApplyLayer(norm[0], t) == Ok(t);
          assert norm[1..] == [];
          assert ApplyLayers(norm, t) == ApplyLayers(norm[1..], t);
        } else {
          assert block[1..] == [];
        }
      }
      if |hiddens| > 1 {
        ChainOutput(hiddens[0], hiddens[1..], act, layerNorm, t);
        assert tail[1..] == Chain(hiddens[0], hiddens[1..], act, layerNorm);
        assert WithLast(t, hiddens[|hiddens| - 1]) == WithLast(s, hiddens[|hiddens| - 1]);
      }
    } else {
      assert ApplyLayer(block[0], s) == Err(ShapeMismatch);
    }
  }

  /** A built stack maps a feature axis of width `numInputs` to width `hiddens[|hiddens|-1]`,
      keeping the batch axes; every other input width is refused. */
  lemma BuildSequentialOutput(numInputs: nat, hiddens: seq<nat>, activation: string, layerNorm: bool,
                              outputActivation: bool, s: Shape)
    requires BuildSequential(numInputs, hiddens, activation, layerNorm, outputActivation).Ok?
    requires |s| > 0
    ensures ApplyLayers(BuildSequential(numInputs, hiddens, activation, layerNorm, outputActivation).value, s)
      == if Last(s) == numInputs then Ok(WithLast(s, hiddens[|hiddens| - 1])) else Err(ShapeMismatch)
  {
    var act := ParseActivation(activation).value;
    var c := Chain(numInputs, hiddens, act, layerNorm);
    var tail := if outputActivation then [Nonlin(act)] else [];
    ChainOutput(numInputs, hiddens, act, layerNorm, s);
    ApplyLayersAppend(c, tail, s);
    if outputActivation {
      assert tail[1..] == [];
    }
  }
}
