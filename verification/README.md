# Task VAE structure and training bookkeeping, in Dafny

This project models two parts of the BabyAI task-embedding pipeline whose behaviour can be
stated exactly:

- **The task VAE's structure and shape logic** (`babyai/models/vae_task_encoder.py`), without any
  tensor values. `build_sequential` becomes a function from its arguments to a list of layer
  descriptors (`Linear(in, out) | LayerNorm(width) | Nonlin(kind)`). `VAETaskEncoder`,
  `TaskDecoder` and `VAE` become constructors that build those lists. Their `forward` methods
  become functions on tensor shapes (`seq<nat>`). Each returns the output shapes, or the
  exception the Python code would raise, as a `Result`.
- **The bookkeeping of the training script** (`4.generate_tree_train_load_models.py`). This covers:
  - the status counters;
  - the log and save interval gates, including Python's `%` by zero;
  - the success indicator and success rate;
  - the best-checkpoint selection rule, over `real`s;
  - the CSV header and data rows;
  - the `while num_frames < frames` loop, fed a list of update results.

Modules:

- `Results`: the `Error` kinds and `Result`/`Option`.
- `Shapes`: `torch.cat` on the last axis, Python slicing, unsqueeze/squeeze of axis 0.
- `Sequential`: the builder, its periodic layout, and shape propagation through a stack.
- `TaskVae`: encoder, decoder, VAE.
- `Training`: the training script's bookkeeping.

Behaviour of the code that the model keeps, where a reader might expect otherwise:

- No dimension is checked for positivity; dimensions are `nat`.
- An empty `hiddens` given to the encoder fails with an `IndexError`, because `hiddens[0]` is read first.
- A decoder output of rank other than 2 or 3 fails with `UnboundLocalError`, not a shape error.
- The encoder's output stack ends in a nonlinearity.
- The encoder ignores its `layer_norm` argument: both stacks always contain LayerNorm.
- The VAE's decoder takes `n_agents` as its reward width.
- A resumed training run restores its counters but starts its best scores at 0, so its first evaluation with a positive success rate is saved as the best model again.

## Model

| member | source | states |
|---|---|---|
| Sequential.ParseActivation | babyai-KN/babyai/models/vae_task_encoder.py:16-21 | "relu" and "tanh" select ReLU and Tanh. Every other name fails with UnknownActivation carrying that name. |
| Sequential.BuildSequential | babyai-KN/babyai/models/vae_task_encoder.py:11-38 | Succeeds iff the activation is "relu" or "tanh" and `hiddens` is non-empty. A bad activation is reported before an empty `hiddens`. On success the stack has `n*stride - 1` layers, plus one if `output_activation` (stride 3 with LayerNorm, 2 without), and starts with `Linear(num_inputs, hiddens[0])`. |
| Sequential.Chain | babyai-KN/babyai/models/vae_task_encoder.py:24-35 | The first Linear (with its LayerNorm) and the loop together emit `n*stride - 1` layers. |
| Sequential.BuildSequentialLayout | babyai-KN/babyai/models/vae_task_encoder.py:24-37 | Position `j` of the built stack is `LayerAt(j)`: the pattern Linear, [LayerNorm], Nonlin repeated once per hidden width. Linear `i` maps `hiddens[i-1]` (or `num_inputs`) to `hiddens[i]`. Each LayerNorm has its Linear's width and appears iff `layer_norm`. A nonlinearity sits between consecutive blocks. The last one appears iff `output_activation`. |
| Sequential.ApplyLayer | babyai-KN/babyai/models/vae_task_encoder.py:24-37 | A Linear accepts exactly a last axis of its input width and replaces it by its output width. A LayerNorm accepts exactly a last axis of its own width and keeps the shape. A nonlinearity keeps any shape. All other axes are kept, and the only failure is a shape mismatch. |
| Sequential.ApplyLayers | babyai-KN/babyai/models/vae_task_encoder.py:38 | Running an `nn.Sequential` of these layers keeps the rank and every axis but the last. Its only failure is a shape mismatch. |
| Sequential.ChainOutput | babyai-KN/babyai/models/vae_task_encoder.py:24-35 | A chain maps a feature width `in` to the last hidden width. Any other input width is refused at the first Linear. |
| Sequential.BuildSequentialOutput | babyai-KN/babyai/models/vae_task_encoder.py:24-32 | A built stack maps feature width `num_inputs` to `hiddens[-1]` and keeps the batch axes. Every other input width is a shape error. |
| Shapes.Cat | babyai-KN/babyai/models/vae_task_encoder.py:86 | `torch.cat(dim=-1)` succeeds iff the parts share rank (at least 1) and leading axes. The result keeps the leading axes, and its feature width is the sum. |
| Shapes.SliceTo | babyai-KN/babyai/models/vae_task_encoder.py:125-129 | `x[..., :k]` on one axis keeps every other axis and cuts that axis to exactly `min(k, size)`. |
| Shapes.SliceFrom | babyai-KN/babyai/models/vae_task_encoder.py:125-129 | `x[..., k:]` on one axis keeps every other axis, and its size on that axis plus the size of `x[..., :k]` is the axis size. |
| Shapes.Squeeze0 | babyai-KN/babyai/models/vae_task_encoder.py:117 | `squeeze(0)` drops axis 0 when it has size 1, and otherwise leaves the shape unchanged. |
| Shapes.SumLastTwo | babyai-KN/babyai/models/vae_task_encoder.py:132 | Concatenating two tensors gives a feature width equal to the sum of theirs. |
| Shapes.Unsqueeze0 | babyai-KN/babyai/models/vae_task_encoder.py:92-117 | Unsqueezing axis 0 adds a size-1 axis, and `squeeze(0)` removes it again. |
| Shapes.SplitThenCat | babyai-KN/babyai/models/vae_task_encoder.py:124-132 | Splitting the feature axis at any point and concatenating the halves gives back the pre-split shape (`task_emb` has the shape of the output). |
| Shapes.CatThenSplit | babyai-KN/babyai/models/vae_task_encoder.py:124-132 | Splitting a two-part concatenation at the first part's width recovers both parts. |
| TaskVae.NewEncoder | babyai-KN/babyai/models/vae_task_encoder.py:42-64 | Empty `hiddens` gives an index error, whatever the activation. A bad activation gives UnknownActivation. Otherwise `input_fc` is exactly `[Linear(obs+act+rew, hiddens[0]), LayerNorm, Nonlin]`. `output_fc` has `3*|hiddens|` layers, starts from `hiddens[0]` and ends in a nonlinearity. |
| TaskVae.EncoderIgnoresLayerNorm | babyai-KN/babyai/models/vae_task_encoder.py:47-64 | The encoder's `layer_norm` argument changes only the stored flag. The stacks are identical for True and False. |
| TaskVae.EncoderStacks | babyai-KN/babyai/models/vae_task_encoder.py:63-64 | `output_fc` follows the LayerNorm-enabled periodic layout over `hiddens[1:] + [2*task_emb_dim]`. `input_fc` maps `obs+act+rew` to `hiddens[0]`, and `output_fc` maps `hiddens[0]` to `2*task_emb_dim`; each refuses other widths. |
| TaskVae.SequenceAxisRoundTrip | babyai-KN/babyai/models/vae_task_encoder.py:92-121 | On the non-recurrent path, the shape fed to `output_fc` equals the shape `input_fc` produced. |
| TaskVae.Reparameterise | babyai-KN/babyai/models/vae_task_encoder.py:70-83 | `z = mu + eps*std` has the shape of `mu`, and requires `log_var` to have the same shape. |
| TaskVae.EncoderForward | babyai-KN/babyai/models/vae_task_encoder.py:85-140 | On success the inputs were concatenable. `mu`, `log_var` and `z` share one shape of the input's rank, and `task_emb` has twice `mu`'s feature width. Failures are shape mismatches or an index error. |
| TaskVae.EncoderForwardAccepts | babyai-KN/babyai/models/vae_task_encoder.py:85-140 | Exact-width rank-2/3 inputs give `mu`, `log_var` and `z` of `lead + [t]` and `task_emb` of `lead + [2t]`. |
| TaskVae.EncoderForwardShapes | babyai-KN/babyai/models/vae_task_encoder.py:85-140 | For rank-2 or rank-3 inputs the forward pass succeeds iff the inputs share leading axes and their widths sum to `obs+act+rew`. Then `mu`, `log_var` and `z` are `lead + [t]`, and `task_emb` is `lead + [2t]`. |
| TaskVae.EncoderRejectsRankOne | babyai-KN/babyai/models/vae_task_encoder.py:124-129 | A rank-1 input always fails. |
| TaskVae.EncoderRankFourSplitsThirdAxis | babyai-KN/babyai/models/vae_task_encoder.py:124-126 | For rank 4 or more, `x[:, :, :t]` cuts axis 2. The call succeeds iff that axis halves evenly at `t`. Then `mu` keeps `2t` features and `task_emb` has `4t`. |
| TaskVae.NewDecoder | babyai-KN/babyai/models/vae_task_encoder.py:144-148 | Fails only on a bad activation. The stack is exactly `[Linear(t+obs+act, obs+rew), LayerNorm(obs+rew)]`, with no nonlinearity. |
| TaskVae.DecoderForward | babyai-KN/babyai/models/vae_task_encoder.py:150-160 | Succeeds only for rank 2 or 3. `obs_pred` and `rew_pred` then keep the input's rank and leading axes, and `obs_pred` has at most `obs_dim` features. Failures are shape mismatches or the unbound `obs_pred`. |
| TaskVae.DecoderForwardShapes | babyai-KN/babyai/models/vae_task_encoder.py:150-160 | For rank 2 or 3 the call succeeds iff the inputs share leading axes and their widths sum to `t+obs+act`. Then `obs_pred` is `lead + [obs_dim]` and `rew_pred` is `lead + [rew_dim]`, and together they make up the output. |
| TaskVae.DecoderRejectsOtherRanks | babyai-KN/babyai/models/vae_task_encoder.py:153-160 | An input of any other rank that passes the concatenation and the Linear fails with the unbound `obs_pred`. |
| TaskVae.NewVae | babyai-KN/babyai/models/vae_task_encoder.py:163-166 | Succeeds iff the encoder does. The encoder's reward width is `rew_dim`, but the decoder's is `n_agents`. |
| TaskVae.VaeEncodeDecodeShapes | babyai-KN/babyai/models/vae_task_encoder.py:165-166 | Encoding exact-width rank-2/3 transitions and decoding `z` succeeds. It predicts `obs_dim` observation features and `n_agents` reward features. |
| Training.PyMod | babyai-KN/scripts/3_pre_train_task/train_task_v9_recon_n_enc_1_dec/4.generate_tree_train_load_models.py:239 | Python `%` gives a remainder with the divisor's sign and magnitude below the divisor's. The dividend is some integer multiple of the divisor plus that remainder. The remainder is zero iff the divisor divides the dividend. |
| Training.ShouldLog | babyai-KN/scripts/3_pre_train_task/train_task_v9_recon_n_enc_1_dec/4.generate_tree_train_load_models.py:239 | Update `i` is logged iff `log_interval` divides `i`. A zero interval raises ZeroDivisionError. |
| Training.ShouldSave | babyai-KN/scripts/3_pre_train_task/train_task_v9_recon_n_enc_1_dec/4.generate_tree_train_load_models.py:271 | Save-and-evaluate runs iff `save_interval > 0` and it divides `i`. It never divides by zero. |
| Training.SuccessIndicator | babyai-KN/scripts/3_pre_train_task/train_task_v9_recon_n_enc_1_dec/4.generate_tree_train_load_models.py:246 | An episode counts as a success iff its return is positive. |
| Training.CountSuccessesCounts | babyai-KN/scripts/3_pre_train_task/train_task_v9_recon_n_enc_1_dec/4.generate_tree_train_load_models.py:246 | Summing the success indicators counts exactly the episodes with a positive return. |
| Training.Summarise | babyai-KN/scripts/3_pre_train_task/train_task_v9_recon_n_enc_1_dec/4.generate_tree_train_load_models.py:296-297 | Scores exist iff there is at least one episode (else NaN). The success rate is in [0, 1]. Rate times the episode count is the number of episodes with positive return. Mean return times the episode count is the sum of the returns. The rate is 1 iff every return is positive and 0 iff none is. With rate 0 the mean return is at most 0. |
| Training.SelectAsWritten | babyai-KN/scripts/3_pre_train_task/train_task_v9_recon_n_enc_1_dec/4.generate_tree_train_load_models.py:298-305 | Saves iff the rate strictly improves, or ties with a higher mean return. `best_success_rate` never decreases and becomes the new rate on a strict improvement. On a tie with a better return, the rate is kept and `best_mean_return` becomes the new return. `best_mean_return` changes only in that branch, so it stays stale after a strict improvement. Without a save nothing changes. |
| Training.SelectLexicographic | babyai-KN/scripts/3_pre_train_task/train_task_v9_recon_n_enc_1_dec/4.generate_tree_train_load_models.py:298-305 | Corrected rule. It saves iff the scores beat the tracked ones lexicographically, and the tracker then holds both new scores. |
| Training.LexicographicKeepsBest | babyai-KN/scripts/3_pre_train_task/train_task_v9_recon_n_enc_1_dec/4.generate_tree_train_load_models.py:298-305 | With the corrected rule, no evaluation in a run beats the checkpoint last saved as best. The tracker holds exactly that checkpoint's scores. |
| Training.AsWrittenOverwritesBetterCheckpoint | babyai-KN/scripts/3_pre_train_task/train_task_v9_recon_n_enc_1_dec/4.generate_tree_train_load_models.py:299-304 | Evaluations (0.5, 0.9) then (0.5, 0.3), starting from (0, 0), save the second over the first, although the first is better. |
| Training.AsWrittenStaleReturn | babyai-KN/scripts/3_pre_train_task/train_task_v9_recon_n_enc_1_dec/4.generate_tree_train_load_models.py:299-304 | After a strict improvement `a`, any `b` with the same rate and a return between the stale best and `a`'s is saved, although `a` beats it. |
| Training.StartState | babyai-KN/scripts/3_pre_train_task/train_task_v9_recon_n_enc_1_dec/4.generate_tree_train_load_models.py:167-173 | The loop starts from the counters restored from `status.json`, or from zero counters when there is none. The best scores start at 0 either way (they are set just before the loop). |
| Training.Advance | babyai-KN/scripts/3_pre_train_task/train_task_v9_recon_n_enc_1_dec/4.generate_tree_train_load_models.py:233-235 | One update adds exactly 1 to `i`, and adds the update's frames and episodes to their totals. |
| Training.Header | babyai-KN/scripts/3_pre_train_task/train_task_v9_recon_n_enc_1_dec/4.generate_tree_train_load_models.py:177-181 | The CSV header has 20 columns. Columns 0-4 are update, episodes, frames, FPS and duration; 5 and 8 are return_mean and return_max; 9 is success_rate; 10 and 13 are num_frames_mean and num_frames_max; 14 is entropy and 19 grad_norm. |
| Training.DataRow | babyai-KN/scripts/3_pre_train_task/train_task_v9_recon_n_enc_1_dec/4.generate_tree_train_load_models.py:249-255 | A data row has exactly as many entries as the header, which the script asserts when tensorboard logging is on. Cells 0-4 are the update counter, episodes, frames, FPS and elapsed seconds; 5 and 8 are the return mean and max; 9 is the success rate; 10 and 13 are the frame-count mean and max; 14 is the entropy and 19 the grad norm. These are the indices whose names `Training.Header` states. |
| Training.LoggedRow | babyai-KN/scripts/3_pre_train_task/train_task_v9_recon_n_enc_1_dec/4.generate_tree_train_load_models.py:241-255 | Building a logged row fails iff the update took zero seconds (ZeroDivisionError in FPS, raised first) or finished no episode (the ValueError of the return statistics). Otherwise the row has the header's width. Its FPS cell is frames over seconds. Its success-rate cell times the episode count is the number of positive returns. |
| Training.Step | babyai-KN/scripts/3_pre_train_task/train_task_v9_recon_n_enc_1_dec/4.generate_tree_train_load_models.py:222-310 | One loop body: it fails iff the log interval is zero, or a logged update took zero seconds or finished no episode. The empty-statistics error is reported exactly when the interval is non-zero and the clock advanced. It advances the counters and logs a header-wide row iff gated. It saves iff gated. A logged row is exactly `Training.LoggedRow` of the advanced counters. When it saves and the evaluation has episodes, the new tracker and the best-checkpoint flag are those the chosen rule (`Training.Select`) gives for the evaluation's scores, and the flag is set iff the scores beat the tracker. Otherwise the tracker is unchanged. The best success rate never decreases. |
| Training.Train | babyai-KN/scripts/3_pre_train_task/train_task_v9_recon_n_enc_1_dec/4.generate_tree_train_load_models.py:222-310 | A run fails only at an update the loop reaches (frame count still below the target, no earlier update raising) whose logging block raises (`Training.Raises`: a zero log interval, or a logged update with zero duration or no episodes). When it succeeds, none of the updates it ran raised. The loop body runs only while `num_frames < frames`, and stops early only once that fails. After `k` iterations, `i` has grown by `k`, and the frames and episodes by the first `k` updates' totals. The final tracker is `Training.SelectionRun` of the chosen rule over the scores of the evaluations those iterations saved (`Training.SavedScores`). Under the corrected rule none of those evaluations beats it. The rows are exactly `Training.LoggedRows`: one per logged update, built from the counters after it, each of the header's width. The best success rate never decreases. A failed run stops on a ZeroDivisionError or on the empty-statistics error. |
| Training.NoneRaiseAll | babyai-KN/scripts/3_pre_train_task/train_task_v9_recon_n_enc_1_dec/4.generate_tree_train_load_models.py:238-243 | Checking, update by update from the most recent back, that no logging block raised is the same as checking every update of the prefix. |
| Training.BelowTargetAll | babyai-KN/scripts/3_pre_train_task/train_task_v9_recon_n_enc_1_dec/4.generate_tree_train_load_models.py:222 | Checking, update by update, that the loop condition `num_frames < frames` held when each update started is the same as checking it for every update of the prefix. |
| Training.LoggedRowsWidth | babyai-KN/scripts/3_pre_train_task/train_task_v9_recon_n_enc_1_dec/4.generate_tree_train_load_models.py:248-254 | Every row the loop writes to the CSV log has as many cells as the header. |

## Left out

- Tensor values: Linear/LayerNorm/ReLU/Tanh numerics, orthogonal weight initialisation (`_init_layer`), `exp`/`randn_like` sampling, the KL and MSE losses, and Adam. These are floating-point computations done by torch.
- The GRU branch of the encoder and `init_hidden`. `use_rnn` is fixed to False, and `init_hidden` reads `rnn_hidden_dim`, which is never set on this path.
- The `__main__` demo of the encoder file. It calls the seven-argument encoder constructor with six arguments and is not library behaviour.
- Reparameterise: torch broadcasting of `mu + eps*std` is not modelled, so the model requires `mu` and `log_var` to have equal shapes. For encoders built by `NewEncoder`, those shapes are equal on every path that reaches the sample.
- Shapes.Cat: torch's legacy acceptance of empty one-dimensional tensors in `cat` is not modelled.
- The `LayerNorm` class comes from torchkit, which is not part of this model. It is modelled as requiring a last axis of its own width, which always holds in the built stacks.
- `utils.synthesize` is not part of this model. Its four statistics of the returns and of the frame counts arrive as inputs, except the success rate, which is computed. The ValueError it raises for an empty return list is modelled as EmptyStatistics. The frame counts per episode arrive only as their summary, so the same error for an empty frame-count list is not modelled separately.
- Summarise: success rate and mean return are exact reals. Float rounding of `np.mean` is not modelled.
- Train: the updates come as a finite list, so a run whose list ends before the frame target stops there. PPO updates, evaluation runs and clocks are inputs.
- The rest of the training script: argument parsing, model loading, building the query encoder and attention block, environments, model names, vocabulary and model save/load, the PPO algorithm, `status.json`, CSV, tensorboard and logger output, git subprocess calls, and garbage collection.

## Findings

| source | as written | input that shows it | evidently intended | confidence | as-written member | corrected member |
|---|---|---|---|---|---|---|
| babyai-KN/scripts/3_pre_train_task/train_task_v9_recon_n_enc_1_dec/4.generate_tree_train_load_models.py:299-304 | A strict success-rate improvement updates `best_success_rate` but leaves `best_mean_return` as it was | Evaluations with (success rate, mean return) = (0.5, 0.9), then (0.5, 0.3), starting from (0, 0): the second is saved as best over the better first | The best checkpoint is the lexicographically best (success rate, mean return) seen so far | not executed | Training.AsWrittenOverwritesBetterCheckpoint | Training.SelectLexicographic |

`Training.Step` and `Training.Train` take the rule as a parameter. `AsWritten` reproduces the script, and `Lexicographic` is the corrected rule (`Training.SelectLexicographic`). `Training.Train` states that its final tracker is the selection run of its rule over the evaluations it saved. So `Training.AsWrittenOverwritesBetterCheckpoint` describes the loop run with `AsWritten`, and `Training.LexicographicKeepsBest` gives the guarantee that `Train` states for `Lexicographic`.
