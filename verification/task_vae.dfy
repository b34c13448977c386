/** The task VAE: `VAETaskEncoder` (non-recurrent path), `TaskDecoder` and the `VAE`
    container, modelled on shapes. Construction yields the layer stacks; a forward pass
    yields the shapes of its outputs or the exception the Python code would raise. */
module TaskVae {
  import opened Results
  import opened Shapes
  import opened Sequential

  /** `build_sequential`'s default for `layer_norm`, which the encoder and decoder never override. */
  const DefaultLayerNorm: bool := true

  /** A constructed encoder. `layerNorm` is stored as given but plays no part in the stacks. */
  datatype Encoder = Encoder(obsDim: nat, actDim: nat, rewDim: nat, taskEmbDim: nat, layerNorm: bool,
                             inputFc: seq<Layer>, outputFc: seq<Layer>)

  datatype EncoderOutput = EncoderOutput(taskEmb: Shape, mu: Shape, logVar: Shape, z: Shape)

  /** A constructed decoder; `rewDim` is the width of the reward prediction. */
  datatype Decoder = Decoder(obsDim: nat, rewDim: nat, layers: seq<Layer>)

  datatype DecoderOutput = DecoderOutput(obsPred: Shape, rewPred: Shape)

  datatype Vae = Vae(encoder: Encoder, decoder: Decoder)

  /** `VAETaskEncoder(obs_dim, act_dim, rew_dim, task_embedding_dim, hiddens, activation, layer_norm)`
      with `use_rnn` fixed to false. `hiddens[0]` is read before either stack is built, so an
      empty `hiddens` fails with an index error whatever the activation. */
  function NewEncoder(obsDim: nat, actDim: nat, rewDim: nat, taskEmbDim: nat, hiddens: seq<nat>,
                      activation: string, layerNorm: bool): (r: Result<Encoder>)
    ensures r.Ok? <==> |hiddens| > 0 && (activation == "relu" || activation == "tanh")
    ensures |hiddens| == 0 ==> r == Err(IndexOutOfRange)
    ensures |hiddens| > 0 && ParseActivation(activation).Err? ==> r == Err(UnknownActivation(activation))
    ensures r.Ok? ==>
      && r.value.obsDim == obsDim && r.value.actDim == actDim && r.value.rewDim == rewDim
      && r.value.taskEmbDim == taskEmbDim && r.value.layerNorm == layerNorm
      && r.value.inputFc == [Linear(obsDim + actDim + rewDim, hiddens[0]), LayerNorm(hiddens[0]),
                             Nonlin(ParseActivation(activation).value)]
      && |r.value.outputFc| == 3 * |hiddens|
      && r.value.outputFc[0] == Linear(hiddens[0], (hiddens[1..] + [2 * taskEmbDim])[0])
      && r.value.outputFc[|r.value.outputFc| - 1] == Nonlin(ParseActivation(activation).value)
  {
    if |hiddens| == 0 then Err(IndexOutOfRange)
    else
      var inputFc :- BuildSequential(obsDim + actDim + rewDim, [hiddens[0]], activation, DefaultLayerNorm, true);
      match BuildSequential(hiddens[0], hiddens[1..] + [2 * taskEmbDim], activation, DefaultLayerNorm, true)
      case Ok(outputFc) => Ok(Encoder(obsDim, actDim, rewDim, taskEmbDim, layerNorm, inputFc, outputFc))
      case Err(e) => Err(e)
  }

  /** The encoder's `layer_norm` argument changes nothing but the stored flag: both stacks
      are the same whichever value is passed. */
  lemma EncoderIgnoresLayerNorm(obsDim: nat, actDim: nat, rewDim: nat, taskEmbDim: nat, hiddens: seq<nat>,
                                activation: string)
    requires NewEncoder(obsDim, actDim, rewDim, taskEmbDim, hiddens, activation, true).Ok?
    ensures var on := NewEncoder(obsDim, actDim, rewDim, taskEmbDim, hiddens, activation, true).value;
            var off := NewEncoder(obsDim, actDim, rewDim, taskEmbDim, hiddens, activation, false).value;
            on.inputFc == off.inputFc && on.outputFc == off.outputFc && on.layerNorm != off.layerNorm
  {
  }

  /** Both encoder stacks follow the layout of a LayerNorm-enabled builder call with an output
      nonlinearity: the output stack chains `hiddens[0]` through `hiddens[1..]` to
      `2 * taskEmbDim`, every Linear followed by a LayerNorm and the last layer a nonlinearity. */
  lemma EncoderStacks(obsDim: nat, actDim: nat, rewDim: nat, taskEmbDim: nat, hiddens: seq<nat>,
                      activation: string, layerNorm: bool, s: Shape)
    requires NewEncoder(obsDim, actDim, rewDim, taskEmbDim, hiddens, activation, layerNorm).Ok?
    requires |s| > 0
    ensures var enc := NewEncoder(obsDim, actDim, rewDim, taskEmbDim, hiddens, activation, layerNorm).value;
            var act := ParseActivation(activation).value;
            var widths := hiddens[1..] + [2 * taskEmbDim];
      && |enc.outputFc| == 3 * |widths|
      && (forall j :: 0 <= j < |enc.outputFc| ==> j / 3 < |widths| && enc.outputFc[j] == LayerAt(hiddens[0], widths, act, true, j))
      && ApplyLayers(enc.inputFc, s)
           == (if Last(s) == obsDim + actDim + rewDim then Ok(WithLast(s, hiddens[0])) else Err(ShapeMismatch))
      && ApplyLayers(enc.outputFc, s)
           == (if Last(s) == hiddens[0] then Ok(WithLast(s, 2 * taskEmbDim)) else Err(ShapeMismatch))
  {
    var act := ParseActivation(activation).value;
    var widths := hiddens[1..] + [2 * taskEmbDim];
    BuildSequentialLayout(hiddens[0], widths, activation, DefaultLayerNorm, true, act);
    BuildSequentialOutput(obsDim + actDim + rewDim, [hiddens[0]], activation, DefaultLayerNorm, true, s);
    BuildSequentialOutput(hiddens[0], widths, activation, DefaultLayerNorm, true, s);
  }

  /** Shape handed to `output_fc` on the non-recurrent path: a tensor without a sequence axis
      is unsqueezed to a length-1 sequence and squeezed back, so the shape is unchanged. */
  function SequenceAxisRoundTrip(h: Shape): (r: Shape)
    ensures r == h
  {
    if |h| < 3 then Squeeze0(Unsqueeze0(h)) else h
  }

  /** Axis the mu/log_var split slices: `x[:, :t]` when the output has at most two axes,
      `x[:, :, :t]` otherwise, which is the feature axis only for rank 3. */
  function SplitAxis(rank: nat): nat {
    if rank > 2 then 2 else 1
  }

  /** Shape of `mu + eps * std`, where `eps` and `std` take the shape of `logVar`. */
  function Reparameterise(mu: Shape, logVar: Shape): (r: Result<Shape>)
    ensures r.Ok? <==> mu == logVar
    ensures r.Ok? ==> r.value == mu
  {
    if mu == logVar then Ok(mu) else Err(ShapeMismatch)
  }

  /** `VAETaskEncoder.forward(obs, act, rew)` without hidden state, on shapes. */
  function EncoderForward(enc: Encoder, obs: Shape, act: Shape, rew: Shape): (r: Result<EncoderOutput>)
    ensures r.Ok? ==> Concatenable([obs, act, rew]) && |r.value.taskEmb| == |obs|
    ensures r.Ok? ==> |r.value.mu| == |obs| && r.value.logVar == r.value.mu && r.value.z == r.value.mu
    ensures r.Ok? ==> Last(r.value.taskEmb) == 2 * Last(r.value.mu)
    ensures r.Err? ==> r.error == ShapeMismatch || r.error == IndexOutOfRange
  {
    var x :- Cat([obs, act, rew]);
    var h :- ApplyLayers(enc.inputFc, x);
    var y :- ApplyLayers(enc.outputFc, SequenceAxisRoundTrip(h));
    var axis := SplitAxis(|y|);
    if axis >= |y| then Err(IndexOutOfRange)
    else
      var mu := SliceTo(y, axis, enc.taskEmbDim);
      var logVar := SliceFrom(y, axis, enc.taskEmbDim);
      var taskEmb :- Cat([mu, logVar]);
      var z :- Reparameterise(mu, logVar);
      SumLastTwo(mu, logVar);
      Ok(EncoderOutput(taskEmb, mu, logVar, z))
  }

  /** The success case of the encoder shape contract: exact-width inputs of rank 2 or 3
      give mu, log_var and z of `task_embedding_dim` features and a task embedding of twice
      that, over the inputs' leading axes. */
  lemma EncoderForwardAccepts(obsDim: nat, actDim: nat, rewDim: nat, taskEmbDim: nat, hiddens: seq<nat>,
                              activation: string, layerNorm: bool, obs: Shape, act: Shape, rew: Shape)
    requires NewEncoder(obsDim, actDim, rewDim, taskEmbDim, hiddens, activation, layerNorm).Ok?
    requires |obs| == 2 || |obs| == 3
    requires |act| == |obs| && |rew| == |obs| && Lead(act) == Lead(obs) && Lead(rew) == Lead(obs)
    requires Last(obs) + Last(act) + Last(rew) == obsDim + actDim + rewDim
    ensures EncoderForward(NewEncoder(obsDim, actDim, rewDim, taskEmbDim, hiddens, activation, layerNorm).value, obs, act, rew)
      == Ok(EncoderOutput(Lead(obs) + [2 * taskEmbDim], Lead(obs) + [taskEmbDim], Lead(obs) + [taskEmbDim], Lead(obs) + [taskEmbDim]))
  {
    var enc := NewEncoder(obsDim, actDim, rewDim, taskEmbDim, hiddens, activation, layerNorm).value;
    ConcatenableThree(obs, act, rew);
    var x := Cat([obs, act, rew]).value;
    EncoderStacks(obsDim, actDim, rewDim, taskEmbDim, hiddens, activation, layerNorm, x);
    var h := WithLast(x, hiddens[0]);
    EncoderStacks(obsDim, actDim, rewDim, taskEmbDim, hiddens, activation, layerNorm, h);
    var y := WithLast(h, 2 * taskEmbDim);
    assert ApplyLayers(enc.outputFc, SequenceAxisRoundTrip(h)) == Ok(y);
    assert SplitAxis(|y|) == |y| - 1;
    var mu := SliceTo(y, |y| - 1, taskEmbDim);
    var logVar := SliceFrom(y, |y| - 1, taskEmbDim);
    assert mu == Lead(obs) + [taskEmbDim];
    assert logVar == Lead(obs) + [taskEmbDim];
    SplitThenCat(y, taskEmbDim);
    assert y == Lead(obs) + [2 * taskEmbDim];
  }

  /** Encoder shape contract for inputs of rank 2 (`[batch, features]`) or 3
      (`[seq, batch, features]`): the call succeeds exactly when the three inputs agree on
      their leading axes and their feature widths add up to `obs_dim + act_dim + rew_dim`;
      then mu, log_var and z have `task_embedding_dim` features, the task embedding
      `mu ++ log_var` has `2 * task_embedding_dim`, and every leading axis is preserved. */
  lemma EncoderForwardShapes(obsDim: nat, actDim: nat, rewDim: nat, taskEmbDim: nat, hiddens: seq<nat>,
                             activation: string, layerNorm: bool, obs: Shape, act: Shape, rew: Shape)
    requires NewEncoder(obsDim, actDim, rewDim, taskEmbDim, hiddens, activation, layerNorm).Ok?
    requires |obs| == 2 || |obs| == 3
    ensures var r := EncoderForward(NewEncoder(obsDim, actDim, rewDim, taskEmbDim, hiddens, activation, layerNorm).value, obs, act, rew);
      && (r.Ok? <==>
            && |act| == |obs| && |rew| == |obs| && Lead(act) == Lead(obs) && Lead(rew) == Lead(obs)
            && Last(obs) + Last(act) + Last(rew) == obsDim + actDim + rewDim)
      && (r.Ok? ==>
            && r.value.mu == Lead(obs) + [taskEmbDim]
            && r.value.logVar == Lead(obs) + [taskEmbDim]
            && r.value.z == r.value.mu
            && r.value.taskEmb == Lead(obs) + [2 * taskEmbDim])
  {
    var enc := NewEncoder(obsDim, actDim, rewDim, taskEmbDim, hiddens, activation, layerNorm).value;
    ConcatenableThree(obs, act, rew);
    if Concatenable([obs, act, rew]) {
      var x := Cat([obs, act, rew]).value;
      if Last(x) == obsDim + actDim + rewDim {
        EncoderForwardAccepts(obsDim, actDim, rewDim, taskEmbDim, hiddens, activation, layerNorm, obs, act, rew);
      } else {
        EncoderStacks(obsDim, actDim, rewDim, taskEmbDim, hiddens, activation, layerNorm, x);
      }
    }
  }

  /** A rank-1 input (a single unbatched transition) never gets through the encoder:
      either the widths are refused, or the split `x[:, :t]` indexes an axis that is not there. */
  lemma EncoderRejectsRankOne(enc: Encoder, obs: Shape, act: Shape, rew: Shape)
    requires |obs| == 1
    ensures EncoderForward(enc, obs, act, rew).Err?
  {
  }

  /** On inputs of rank 4 or more the split `x[:, :, :t]` cuts the third axis instead of the
      features. For inputs the encoder's stacks accept, the call succeeds exactly when that
      axis halves evenly at `t` (size `2 * t`, or 0), and then mu keeps all
      `2 * task_embedding_dim` features and the task embedding has `4 * task_embedding_dim`. */
  lemma EncoderRankFourSplitsThirdAxis(obsDim: nat, actDim: nat, rewDim: nat, taskEmbDim: nat, hiddens: seq<nat>,
                                       activation: string, layerNorm: bool, obs: Shape, act: Shape, rew: Shape)
    requires NewEncoder(obsDim, actDim, rewDim, taskEmbDim, hiddens, activation, layerNorm).Ok?
    requires |obs| >= 4
    requires |act| == |obs| && |rew| == |obs| && Lead(act) == Lead(obs) && Lead(rew) == Lead(obs)
    requires Last(obs) + Last(act) + Last(rew) == obsDim + actDim + rewDim
    ensures var r := EncoderForward(NewEncoder(obsDim, actDim, rewDim, taskEmbDim, hiddens, activation, layerNorm).value, obs, act, rew);
      && (r.Ok? <==> 2 * Min(taskEmbDim, obs[2]) == obs[2])
      && (r.Ok? ==> r.value.mu[2] == Min(taskEmbDim, obs[2]) && Last(r.value.mu) == 2 * taskEmbDim
                    && Last(r.value.taskEmb) == 4 * taskEmbDim)
  {
    var enc := NewEncoder(obsDim, actDim, rewDim, taskEmbDim, hiddens, activation, layerNorm).value;
    ConcatenableThree(obs, act, rew);
    var x := Cat([obs, act, rew]).value;
    EncoderStacks(obsDim, actDim, rewDim, taskEmbDim, hiddens, activation, layerNorm, x);
    var h := WithLast(x, hiddens[0]);
    EncoderStacks(obsDim, actDim, rewDim, taskEmbDim, hiddens, activation, layerNorm, h);
    var y := WithLast(h, 2 * taskEmbDim);
    assert ApplyLayers(enc.outputFc, SequenceAxisRoundTrip(h)) == Ok(y);
    assert y[2] == obs[2] by {
      assert y[2] == Lead(y)[2] == Lead(obs)[2];
    }
    assert SplitAxis(|y|) == 2;
    var mu := SliceTo(y, 2, taskEmbDim);
    var logVar := SliceFrom(y, 2, taskEmbDim);
    assert Concatenable([mu, logVar]) <==> Lead(mu) == Lead(logVar) by {
      assert [mu, logVar][1] == logVar;
    }
    assert Lead(mu) == Lead(logVar) <==> mu == logVar;
    assert Lead(mu) == Lead(logVar) <==> 2 * Min(taskEmbDim, obs[2]) == obs[2] by {
      assert Lead(mu)[2] == mu[2] && Lead(logVar)[2] == logVar[2];
    }
    if mu == logVar {
      SumLastTwo(mu, logVar);
    }
  }

  /** `TaskDecoder(task_embedding_dim, obs_dim, act_dim, rew_dim, activation)`: one Linear from
      the concatenated input to `obs_dim + rew_dim`, then a LayerNorm (the builder's default),
      and no nonlinearity. */
  function NewDecoder(taskEmbDim: nat, obsDim: nat, actDim: nat, rewDim: nat, activation: string): (r: Result<Decoder>)
    ensures r.Ok? <==> activation == "relu" || activation == "tanh"
    ensures r.Err? ==> r.error == UnknownActivation(activation)
    ensures r.Ok? ==> r.value.obsDim == obsDim && r.value.rewDim == rewDim
    ensures r.Ok? ==> r.value.layers == [Linear(taskEmbDim + obsDim + actDim, obsDim + rewDim), LayerNorm(obsDim + rewDim)]
  {
    var layers :- BuildSequential(taskEmbDim + obsDim + actDim, [obsDim + rewDim], activation, DefaultLayerNorm, false);
    Ok(Decoder(obsDim, rewDim, layers))
  }

  /** `TaskDecoder.forward(task_emb, obs, act)` on shapes. Only outputs of rank 2 or 3 bind
      `obs_pred`; any other rank reaches the return with it unbound. */
  function DecoderForward(dec: Decoder, taskEmb: Shape, obs: Shape, act: Shape): (r: Result<DecoderOutput>)
    ensures r.Ok? ==> |taskEmb| == 2 || |taskEmb| == 3
    ensures r.Ok? ==> |r.value.obsPred| == |taskEmb| && |r.value.rewPred| == |taskEmb|
    ensures r.Ok? ==> Lead(r.value.obsPred) == Lead(taskEmb) && Lead(r.value.rewPred) == Lead(taskEmb)
    ensures r.Ok? ==> Last(r.value.obsPred) <= dec.obsDim
    ensures r.Err? ==> r.error == ShapeMismatch || r.error == UnboundPrediction
  {
    var x :- Cat([taskEmb, obs, act]);
    var out :- ApplyLayers(dec.layers, x);
    if |out| == 2 || |out| == 3 then
      Ok(DecoderOutput(SliceTo(out, |out| - 1, dec.obsDim), SliceFrom(out, |out| - 1, dec.obsDim)))
    else
      Err(UnboundPrediction)
  }

  lemma DecoderStack(taskEmbDim: nat, obsDim: nat, actDim: nat, rewDim: nat, activation: string, s: Shape)
    requires NewDecoder(taskEmbDim, obsDim, actDim, rewDim, activation).Ok?
    requires |s| > 0
    ensures ApplyLayers(NewDecoder(taskEmbDim, obsDim, actDim, rewDim, activation).value.layers, s)
      == if Last(s) == taskEmbDim + obsDim + actDim then Ok(WithLast(s, obsDim + rewDim)) else Err(ShapeMismatch)
  {
    BuildSequentialOutput(taskEmbDim + obsDim + actDim, [obsDim + rewDim], activation, DefaultLayerNorm, false, s);
  }

  /** Decoder shape contract for inputs of rank 2 or 3: the call succeeds exactly when the
      inputs agree on their leading axes and their widths add up to
      `task_embedding_dim + obs_dim + act_dim`; then the observation prediction has `obs_dim`
      features, the reward prediction `rew_dim`, and together they are the whole output. */
  lemma DecoderForwardShapes(taskEmbDim: nat, obsDim: nat, actDim: nat, rewDim: nat, activation: string,
                             taskEmb: Shape, obs: Shape, act: Shape)
    requires NewDecoder(taskEmbDim, obsDim, actDim, rewDim, activation).Ok?
    requires |taskEmb| == 2 || |taskEmb| == 3
    ensures var r := DecoderForward(NewDecoder(taskEmbDim, obsDim, actDim, rewDim, activation).value, taskEmb, obs, act);
      && (r.Ok? <==>
            && |obs| == |taskEmb| && |act| == |taskEmb| && Lead(obs) == Lead(taskEmb) && Lead(act) == Lead(taskEmb)
            && Last(taskEmb) + Last(obs) + Last(act) == taskEmbDim + obsDim + actDim)
      && (r.Ok? ==>
            && r.value.obsPred == Lead(taskEmb) + [obsDim]
            && r.value.rewPred == Lead(taskEmb) + [rewDim]
            && Cat([r.value.obsPred, r.value.rewPred]) == Ok(Lead(taskEmb) + [obsDim + rewDim]))
  {
    var dec := NewDecoder(taskEmbDim, obsDim, actDim, rewDim, activation).value;
    ConcatenableThree(taskEmb, obs, act);
    if Concatenable([taskEmb, obs, act]) {
      var x := Cat([taskEmb, obs, act]).value;
      DecoderStack(taskEmbDim, obsDim, actDim, rewDim, activation, x);
      if Last(x) == taskEmbDim + obsDim + actDim {
        var out := WithLast(x, obsDim + rewDim);
        SplitThenCat(out, obsDim);
        assert SliceTo(out, |out| - 1, obsDim) == Lead(taskEmb) + [obsDim];
        assert SliceFrom(out, |out| - 1, obsDim) == Lead(taskEmb) + [rewDim];
      }
    }
  }

  /** Inputs of any rank other than 2 or 3 that pass concatenation and the Linear fail with
      the unbound `obs_pred`. */
  lemma DecoderRejectsOtherRanks(taskEmbDim: nat, obsDim: nat, actDim: nat, rewDim: nat, activation: string,
                                 taskEmb: Shape, obs: Shape, act: Shape)
    requires NewDecoder(taskEmbDim, obsDim, actDim, rewDim, activation).Ok?
    requires |taskEmb| != 2 && |taskEmb| != 3
    requires |taskEmb| > 0 && |obs| == |taskEmb| && |act| == |taskEmb|
    requires Lead(obs) == Lead(taskEmb) && Lead(act) == Lead(taskEmb)
    requires Last(taskEmb) + Last(obs) + Last(act) == taskEmbDim + obsDim + actDim
    ensures DecoderForward(NewDecoder(taskEmbDim, obsDim, actDim, rewDim, activation).value, taskEmb, obs, act)
      == Err(UnboundPrediction)
  {
    ConcatenableThree(taskEmb, obs, act);
    DecoderStack(taskEmbDim, obsDim, actDim, rewDim, activation, Cat([taskEmb, obs, act]).value);
  }

  /** `VAE(task_emb_dim, obs_dim, act_dim, rew_dim, n_agents, hiddens, activation, layer_norm)`:
      the encoder is built first, then a decoder whose reward width is `n_agents`. */
  function NewVae(taskEmbDim: nat, obsDim: nat, actDim: nat, rewDim: nat, nAgents: nat, hiddens: seq<nat>,
                  activation: string, layerNorm: bool): (r: Result<Vae>)
    ensures r.Ok? <==> |hiddens| > 0 && (activation == "relu" || activation == "tanh")
    ensures |hiddens| == 0 ==> r == Err(IndexOutOfRange)
    ensures r.Ok? ==> r.value.encoder.rewDim == rewDim && r.value.decoder.rewDim == nAgents
  {
    var encoder :- NewEncoder(obsDim, actDim, rewDim, taskEmbDim, hiddens, activation, layerNorm);
    match NewDecoder(taskEmbDim, obsDim, actDim, nAgents, activation)
    case Ok(decoder) => Ok(Vae(encoder, decoder))
    case Err(e) => Err(e)
  }

  /** Encoding a batch of transitions of exact widths and decoding the sample `z` with the same
      observations and actions succeeds for rank 2 or 3, predicts `obs_dim` observation
      features and `n_agents` reward features, whatever `rew_dim` the encoder was given. */
  lemma VaeEncodeDecodeShapes(taskEmbDim: nat, obsDim: nat, actDim: nat, rewDim: nat, nAgents: nat,
                              hiddens: seq<nat>, activation: string, layerNorm: bool, lead: Shape)
    requires NewVae(taskEmbDim, obsDim, actDim, rewDim, nAgents, hiddens, activation, layerNorm).Ok?
    requires |lead| == 1 || |lead| == 2
    ensures var vae := NewVae(taskEmbDim, obsDim, actDim, rewDim, nAgents, hiddens, activation, layerNorm).value;
            var enc := EncoderForward(vae.encoder, lead + [obsDim], lead + [actDim], lead + [rewDim]);
      && enc.Ok?
      && var dec := DecoderForward(vae.decoder, enc.value.z, lead + [obsDim], lead + [actDim]);
         && dec.Ok?
         && dec.value.obsPred == lead + [obsDim]
         && dec.value.rewPred == lead + [nAgents]
  {
    var obs, act, rew := lead + [obsDim], lead + [actDim], lead + [rewDim];
    assert Lead(obs) == lead && Lead(act) == lead && Lead(rew) == lead;
    EncoderForwardShapes(obsDim, actDim, rewDim, taskEmbDim, hiddens, activation, layerNorm, obs, act, rew);
    var z := lead + [taskEmbDim];
    assert Lead(z) == lead;
    DecoderForwardShapes(taskEmbDim, obsDim, actDim, nAgents, activation, z, obs, act);
  }
}
