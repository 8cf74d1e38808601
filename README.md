# MobileNetV3 with instance whitening: a model of the bookkeeping

This project models the discrete part of `network/MobilenetV3.py`, a
MobileNetV3-small backbone whose layers can apply instance whitening
and collect the whitening matrices in a list `w_arr` during a forward pass.
The model covers:

- channel rounding: `_make_divisible` and `InvertedResidualConfig.adjust_channels`;
- the configuration record and the `mobilenet_v3_small` table: `_mobilenet_v3_conf`,
  with `reduced_tail` and `dilated`;
- which stages an `InvertedResidual` block builds, and with which arguments;
- the whitening mode (`iw`) of every module, and how `MobileNetV3.__init__`
  overwrites each configuration's `iw` in place, depending on its position;
- the errors the constructors raise, and in which order;
- the `[x, w_arr]` pair that the `forward` methods of `ConvNormActivation`,
  `SqueezeExcitation` and `InvertedResidual` pass to one another, and the
  entries each one appends to the shared `w_arr`.

Tensors are symbolic. A `Layers.Tensor` records which layer was applied to
which tensor, so a forward result is stated exactly, without numerics.
`w_arr` is a `Layers.WhiteningList` object, because every module of a pass
appends to the same Python list.

Each configuration is a class with one mutable field, `iw`; the network
constructor writes that field. Module objects have only constant fields.

Python exceptions become `Wrappers.Result` / `Wrappers.Error` values
(ValueError, TypeError, IndexError, and `LayerError` for a layer handed the
(tensor, matrix) pair an `InstanceWhitening` returns where it expects a
tensor). A `forward` called with a list whose
length is not 2 returns `None` (`ReturnedNone`).

The files:

- `wrappers.dfy`: `Option`, `Result` and the exception kinds.
- `divisible.dfy`: `_make_divisible`, with Python's `int()` truncation and
  `//` floor division written out.
- `config.dfy`: `InvertedResidualConfig` and `_mobilenet_v3_conf`.
- `layers.dfy`: the whitening layer for each mode, `ConvNormActivation` and
  `SqueezeExcitation`.
- `blocks.dfy`: `InvertedResidual`, its stages and its forward dispatch.
- `network.dfy`: `MobileNetV3.__init__` and the pass over `features`.

Points where the code does something other than its names suggest, and
which the model follows as written:

- The blocks read their whitening mode from the `iw` list by comparing the
  1-based `feature_count` with `iw_layer = [0, 2, 7, 11, 12]`. So the blocks
  at positions 2, 7, 11 and 12 read `iw[3]`, `iw[4]`, `iw[5]` and `iw[6]`;
  position 0 is never reached, and every other block gets 0
  (`Network.ModePositions`).
- In `InvertedResidual`, mode 4 builds `InstanceNorm2d(affine=False)`.
  `ConvNormActivation` and `SqueezeExcitation` build it with `affine=True`
  (`Layers.WhiteningFor` takes the flag).
- `SqueezeExcitation._scale` applies `instance_norm_layer` before the gating
  activation, and `forward` applies it again. So in modes 1 and 2 the gating
  activation is handed a pair and raises, and modes 3 and 4 normalise twice
  (`Layers.SqueezeExcitation.Forward`). `InvertedResidual` builds it only with
  mode 0 (line 228), where both calls are the identity.
- `ConvNormActivation` registers its whitening layer twice: once as the last
  child handed to `nn.Sequential`, and again through the attribute assignment
  of line 123. Its `forward` iterates both, so the layer is called once as an
  ordinary child and once more by the whitening step. The first Findings row
  below gives the effect; the rest of the model uses a `ConvNormActivation`
  that calls it once (`Layers.ConvNormActivation.Forward`).
- With that correction, a pass appends one entry per convolution stage of a
  mode-1 or mode-2 block, plus one for the block's final step, rather than
  one per block (`Blocks.BlockAppendCount`). On the small table at width 1.0
  that is four entries per such block (`Network.SmallTableAppends`).

## Model

| member | source | states |
|---|---|---|
| Divisible.Trunc | network/MobilenetV3.py:73 | `int()` on a float truncates toward zero: the result lies within 1 of its argument, on the zero side |
| Divisible.FloorDiv | network/MobilenetV3.py:73 | `//` on ints is floor division: for a positive divisor, `q * b <= a < q * b + b` |
| Divisible.RoundToMultiple | network/MobilenetV3.py:73 | computes `int(v + divisor / 2) // divisor * divisor`, the rounding inside the `max` (properties: `RoundToMultipleBounds`) |
| Divisible.MakeDivisible | network/MobilenetV3.py:70-76 | computes `_make_divisible`: the floor defaults to the divisor, the larger of floor and rounded value is taken, and one divisor is added when that is below `0.9 * v` (properties: the lemmas below) |
| Divisible.RoundToMultipleBounds | network/MobilenetV3.py:73 | `int(v + d / 2) // d * d` is a multiple of `d` above `v - d/2`, and not above `v + d/2` for `v >= 0` |
| Divisible.MultipleOfDivisor | network/MobilenetV3.py:70-76 | with the default `min_value`, the result is a multiple of the divisor and at least the divisor, for every `v` |
| Divisible.AtLeastMinValue | network/MobilenetV3.py:70-76 | with an explicit `min_value`, the result is at least `min_value` |
| Divisible.ExplicitMinNotRounded | network/MobilenetV3.py:70-76 | an explicit `min_value` that is not a multiple comes back unrounded (`v = 0`, divisor 8, floor 3 gives 3) |
| Divisible.LosesAtMostTenPercent | network/MobilenetV3.py:73-75 | for `v >= 0` the result is at least `0.9 * v`, and at most `v + divisor` unless it is the floor itself |
| Divisible.BumpOnlyWhenShort | network/MobilenetV3.py:74-75 | the `+ divisor` bump happens exactly when the floored, rounded value is below `0.9 * v`, and it then lifts the result above `v` |
| Divisible.FixedPoint | network/MobilenetV3.py:70-76 | a non-negative multiple of the divisor that is at least the floor is returned unchanged |
| Divisible.Idempotent | network/MobilenetV3.py:70-76 | with the default `min_value`, rounding twice gives the result of rounding once |
| Divisible.ExplicitMinNotIdempotent | network/MobilenetV3.py:70-76 | with an explicit `min_value` of 5, rounding is not idempotent (0 gives 5, then 5 gives 8) |
| Divisible.AdjustChannels | network/MobilenetV3.py:174-176 | computes `_make_divisible(channels * width_mult, 8)` with the default floor |
| Divisible.AdjustChannelsProperties | network/MobilenetV3.py:174-176 | `adjust_channels` gives a multiple of 8 that is at least 8; at width 1.0 it leaves a count that is already such a multiple unchanged |
| Config.InvertedResidualConfig.constructor | network/MobilenetV3.py:150-172 | the three channel counts are passed through `adjust_channels`; `use_hs` is `activation == "HS"`; the other fields are stored as given |
| Config.MobileNetV3Conf | network/MobilenetV3.py:392-419 | any arch other than `mobilenet_v3_small` is a ValueError naming it; otherwise eleven fresh configurations, one per table row with mode `iw`, and `last_channel = adjust_channels(1024 // reduce_divider)` |
| Config.SmallSetting | network/MobilenetV3.py:402-414 | the eleven `bneck_conf` rows of the small table before rounding, with `96`, `576` divided by `reduce_divider` in the last three rows and their dilation set by `dilated` |
| Config.SmallLastChannel | network/MobilenetV3.py:415 | `1024 // reduce_divider`, the classifier width before `adjust_channels` |
| Config.AllRowsRounded | network/MobilenetV3.py:402-414 | every channel count of the table, with or without `reduced_tail`, is a multiple of 8 and at least 8 |
| Config.SmallSettingAtUnitWidth | network/MobilenetV3.py:402-415 | at width 1.0, rounding leaves every row's channel counts and the classifier width unchanged |
| Config.ReducedTailHalves | network/MobilenetV3.py:411-415 | `reduced_tail` halves 96, 576 and 1024 in the last three rows and in `last_channel`, and changes nothing else |
| Config.DilatedLastThree | network/MobilenetV3.py:396-413 | `dilated` gives dilation 2 to exactly the last three rows; all other rows have dilation 1 |
| Layers.WhiteningList.Append | network/MobilenetV3.py:138 | `w_arr.append(w)` adds `w` at the end and keeps every earlier entry |
| Layers.WhiteningFor | network/MobilenetV3.py:99-108 | `InstanceWhitening` exactly for modes 1 and 2; the empty `nn.Sequential` exactly outside 1..4 |
| Layers.WhiteningStep | network/MobilenetV3.py:133-140 | modes 1 and 2 whiten and append the matrix; modes 3 and up normalise and append nothing; below 1 nothing is applied |
| Layers.CnaLayers | network/MobilenetV3.py:109-122 | four children with an activation, three without; the whitening layer is always last |
| Layers.CallLayer | network/MobilenetV3.py:137-142 | calling a layer: `InstanceWhitening` returns a (tensor, matrix) pair, the empty `nn.Sequential` returns its argument, any other layer handed a pair raises |
| Layers.CnaPipeline | network/MobilenetV3.py:109-122 | the children before the whitening layer apply the convolution (padding `(k - 1) // 2`, no bias), then BatchNorm, then the activation if there is one |
| Layers.ConvNormActivation.constructor | network/MobilenetV3.py:80-123 | the layers handed to `nn.Sequential` are `CnaLayers(...)`; `instance_norm_layer` is the one for `iw` with affine mode 4; the registered children are those layers followed by the whitening layer again |
| Layers.ConvNormActivation.Output | network/MobilenetV3.py:133-144 | the tensor the corrected forward returns: every layer but the whitening layer applied in order, then the whitening step of the mode |
| Layers.ConvNormActivation.Entries | network/MobilenetV3.py:135-138 | what the corrected forward appends: the whitening matrix of the pre-whitening tensor in modes 1 and 2, nothing otherwise |
| Layers.ConvNormActivation.OutputAsWritten | network/MobilenetV3.py:123-144 | the tensor the loop as written returns outside modes 1 and 2: the whitening layer applied as a child, then again as the whitening step |
| Layers.ConvNormActivation.ForwardAsWritten | network/MobilenetV3.py:123-144 | the loop over the registered children: in modes 1 and 2 raises `LayerError` with nothing appended; otherwise returns `OutputAsWritten(x)`; no mode appends; other lengths return `None` |
| Layers.ConvNormActivation.AsWrittenResultMeans | network/MobilenetV3.py:123-144 | the value that loop ends with is an error exactly in modes 1 and 2 |
| Layers.AsWrittenAgreesWithoutWhitening | network/MobilenetV3.py:123-144 | outside modes 1..4 the loop as written returns what the corrected forward returns, and neither appends |
| Layers.AsWrittenNormalisesTwice | network/MobilenetV3.py:123-144 | in modes 3 and 4 the loop as written applies `instance_norm_layer` once more to the corrected result |
| Layers.ConvNormActivation.Forward | network/MobilenetV3.py:125-144 | the corrected forward, each layer called once: on a pair, returns `[Output(x), w_arr]` with `Entries(x)` appended to that same list; other lengths return `None` and change nothing |
| Layers.CnaAppendCount | network/MobilenetV3.py:133-144 | the corrected forward appends one entry in modes 1 and 2 and none otherwise, whatever the input |
| Layers.SqueezeExcitation.constructor | network/MobilenetV3.py:19-43 | stores the widths, the activations and the mode, with the whitening layer for the mode over the squeeze width |
| Layers.SqueezeExcitation.Squeeze | network/MobilenetV3.py:45-49 | the layers `_scale` applies before `instance_norm_layer`: pooling, `fc1`, the activation, `fc2` |
| Layers.SqueezeExcitation.Output | network/MobilenetV3.py:53-67 | what a forward that does not raise returns: `x` times the gate of `_scale`, whitened by mode |
| Layers.SqueezeExcitation.Scale | network/MobilenetV3.py:45-51 | `_scale` raises exactly in modes 1 and 2; otherwise it is the gating activation of the normalised squeeze |
| Layers.SqueezeExcitation.Forward | network/MobilenetV3.py:53-67 | on a pair: raises in modes 1 and 2; otherwise returns `[scale * x, w_arr]` with the scale normalised a second time in modes 3 and 4; never appends; other lengths return `None` |
| Blocks.DepthwiseStride | network/MobilenetV3.py:212 | the depthwise stride: 1 when dilated, otherwise the configuration's stride |
| Blocks.SqueezeChannels | network/MobilenetV3.py:227 | the squeeze width `_make_divisible(expanded_channels // 4, 8)` |
| Blocks.ExpandPart | network/MobilenetV3.py:198-209 | the expand stage (1x1, expanded width, the block's activation and mode) when the expansion changes the width, nothing otherwise |
| Blocks.DepthwiseSpec | network/MobilenetV3.py:211-225 | the depthwise stage: kernel `cnf.kernel`, `DepthwiseStride`, one group per channel, the configuration's dilation |
| Blocks.SePart | network/MobilenetV3.py:226-228 | the squeeze-excitation stage with `SqueezeChannels`, ReLU and Hardsigmoid, mode 0, when `use_se` |
| Blocks.ProjectSpec | network/MobilenetV3.py:230-235 | the project stage: 1x1 to `out_channels`, no activation, the block's mode |
| Blocks.Plan | network/MobilenetV3.py:195-235 | the stages `__init__` appends, in order: expand, depthwise, squeeze-excitation, project (shape: `PlanShape`) |
| Blocks.BuildStages | network/MobilenetV3.py:195-235 | the stages built are exactly those `Plan(cnf, iw)` describes, in order, each well formed |
| Blocks.PlanShape | network/MobilenetV3.py:198-235 | expand iff `expanded != input`; depthwise with stride 1 under dilation and one group per channel; SE iff `use_se`, with mode 0 and `_make_divisible(expanded // 4, 8)`; project to `out_channels` with no activation; every convolution stage has the block's mode |
| Blocks.NewInvertedResidual | network/MobilenetV3.py:187-191 | a stride outside 1..2 is ValueError("illegal stride value"); otherwise a fresh valid block with `use_res_connect == (stride == 1 and input == out)` |
| Blocks.InvertedResidual.constructor | network/MobilenetV3.py:181-248 | stages as planned; `use_res_connect` is `stride == 1 and input == out`; `iw`, `expand_ratio`, `out_channels` and `_is_cn` taken from the configuration; final whitening layer non-affine in mode 4 |
| Blocks.InvertedResidual.Residual | network/MobilenetV3.py:273-278 | the composed output of the stages, plus the input when `use_res_connect` |
| Blocks.InvertedResidual.Output | network/MobilenetV3.py:273-287 | `Residual` followed by the block's whitening step |
| Blocks.InvertedResidual.Entries | network/MobilenetV3.py:256-287 | every stage's entries in order, then the matrix of the final step in modes 1 and 2 |
| Blocks.InvertedResidual.Forward | network/MobilenetV3.py:250-287 | the dispatch as written: where it stays inside `conv`, returns `[Output(x), w_arr]` with `Entries(x)` appended; otherwise raises IndexError after the stages that exist appended their entries; other lengths return `None` |
| Blocks.InvertedResidual.RunConv | network/MobilenetV3.py:256-271 | with stages run by the corrected `ConvNormActivation`: raises IndexError exactly when the indices as written leave `conv`; always appends every stage's entries; without raising, returns the stages' composed output |
| Blocks.InvertedResidual.RunExpandBranch | network/MobilenetV3.py:256-264 | with stages run by the corrected `ConvNormActivation`: the expand branch never raises IndexError and runs every stage, `conv[3]` only when it exists |
| Blocks.InvertedResidual.RunPlainBranch | network/MobilenetV3.py:265-271 | with stages run by the corrected `ConvNormActivation`: the branch without expansion raises IndexError exactly when `conv` has only two stages, after both have run |
| Blocks.DispatchDefinedMeans | network/MobilenetV3.py:256-271 | `DispatchDefined` holds iff every index the dispatch as written reads is a stage of `conv`, which is iff `conv` has at least three stages |
| Blocks.DispatchDefinedIff | network/MobilenetV3.py:256-271 | the dispatch as written is defined iff the block expands or has SE |
| Blocks.AsWrittenRunsEveryStage | network/MobilenetV3.py:256-271 | where the dispatch as written is defined, it reads each stage index once, in order, like the corrected dispatch |
| Blocks.NoExpandNoSeRaises | network/MobilenetV3.py:265-271 | a two-stage block (no expansion, no SE) asks for `conv[2]`, while the corrected dispatch reads only 0 and 1 |
| Blocks.InvertedResidual.RunEveryStage | network/MobilenetV3.py:256-271 | with the corrected `ConvNormActivation`: every stage in order, each on its predecessor's pair: the composed output, and every stage's entries appended |
| Blocks.InvertedResidual.ForwardEveryStage | network/MobilenetV3.py:250-287 | the corrected forward never raises: on a pair it returns `[Output(x), w_arr]` with `Entries(x)` appended |
| Blocks.PlanAppendsOf | network/MobilenetV3.py:198-235 | the stages of a mode-1 or mode-2 block account for 3 entries with expansion and 2 without; blocks of other modes account for none |
| Blocks.BlockAppendCount | network/MobilenetV3.py:250-287 | with the corrected `ConvNormActivation`, a block forward appends `BlockAppends`: its stages' entries plus one for the final step in modes 1 and 2, and nothing otherwise |
| Network.IndexOf | network/MobilenetV3.py:337 | `list.index`: absent exactly when the value is not in the list; otherwise the first position holding it |
| Network.ModeAt | network/MobilenetV3.py:335-341 | the mode the block at 1-based position `k` gets: `iw[iw_layer.index(k) + 2]` when `k` is in `iw_layer`, IndexError when that is past the end of `iw`, 0 otherwise |
| Network.BlockError | network/MobilenetV3.py:334-342 | the error building the block at position `k` raises: IndexError from the mode lookup first, then the stride's ValueError, or none |
| Network.IwLayerIndexIsIndexOf | network/MobilenetV3.py:332-337 | the case-by-case lookup equals `iw_layer.index(k)` for every `k` |
| Network.ModePositions | network/MobilenetV3.py:331-342 | positions 2, 7, 11 and 12 read `iw[3]`..`iw[6]`, or raise IndexError when `iw` is too short; every other position gets 0 |
| Network.ElevenBlocksModes | network/MobilenetV3.py:331-342 | eleven blocks can read their modes iff `len(iw) >= 6` |
| Network.AssignMode | network/MobilenetV3.py:335-341 | writes the position's mode into `cnf.iw`; raises IndexError, with nothing written, exactly when the index is past the end of `iw` |
| Network.FirstFailure | network/MobilenetV3.py:334-342 | every block before the returned index builds without error, and the block at that index (when not at the end) raises |
| Network.AssignedCount | network/MobilenetV3.py:334-342 | the configurations written are those before the first failure, plus the failing one when it fails on its stride; all of them have defined modes |
| Network.IwAfterStep | network/MobilenetV3.py:338-341 | writing position `i` changes only the `iw` of the object at `i`, also when one object sits at several positions |
| Network.WriteMode | network/MobilenetV3.py:335-341 | a mode read past the end makes this position the first failure, with no configuration changed; otherwise every configuration's `iw` is what positions `1..i+1` wrote |
| Network.BuildBlock | network/MobilenetV3.py:334-342 | an error is the first failure's error (IndexError before the stride's ValueError); success gives a fresh valid block over `cfgs[i]` with its position's mode |
| Network.BuildBlocks | network/MobilenetV3.py:334-342 | returns the first failing position's error, or one fresh block per configuration in order; in both cases each configuration's `iw` is what the positions reached wrote |
| Network.MobileNetV3.BuiltFrom | network/MobilenetV3.py:317-364 | what `__init__` builds from the configurations: stem, one block per configuration with its position's mode, head, and classifier dimensions |
| Network.Assemble | network/MobilenetV3.py:344-364 | head from the last block's `out_channels` to six times that with mode 0, `features` as stem, blocks and head, and the classifier dimensions |
| Network.NewMobileNetV3 | network/MobilenetV3.py:291-364 | empty setting: ValueError; a non-configuration entry: TypeError; neither changes any `iw`. Otherwise: the first failing block's error, or a network built from the setting; each configuration's `iw` is overwritten in place up to where the loop stopped |
| Network.MobileNetV3.FeaturesForward | network/MobilenetV3.py:378-379 | on a pair: the features' composed output, with every stage's entries appended in order; on a list whose length is not 2 (a bare tensor whose batch size is not 2, say), TypeError from `len(None)` |
| Network.RunAllFeatures | network/MobilenetV3.py:357 | `nn.Sequential` hands each stage's pair to the next: the composed output, and all entries in stage order |
| Network.FeatureForward | network/MobilenetV3.py:357 | one child of `features` on the pair it is handed: the stem and head through the corrected `ConvNormActivation` forward, a block through the forward that runs every stage; returns that child's output with its entries appended |
| Network.FeaturesEntriesCount | network/MobilenetV3.py:357 | with the corrected `ConvNormActivation`, a pass appends exactly `TotalAppends` entries, whatever the input |
| Network.BuiltAppends | network/MobilenetV3.py:317-357 | the stem and head have mode 0, so a built network accounts for exactly its blocks' entries (`SettingAppends`) |
| Network.BuiltBlockShape | network/MobilenetV3.py:191-245 | each block of a built network has the stages its configuration and mode call for, adds the residual exactly for stride 1 with equal widths, and ends with the non-affine whitening layer of its mode |
| Network.PassAppends | network/MobilenetV3.py:317-357 | with the corrected `ConvNormActivation`, a pass over a network built from `cfgs` grows `w_arr` by exactly `SettingAppends(cfgs, iw)` entries, whatever the input |
| Network.SmallTableAppends | network/MobilenetV3.py:331-342 | with the corrected `ConvNormActivation`, on the small table at width 1.0 (whatever mode the rows were built with), blocks account for 4 entries for each of `iw[3]`, `iw[4]`, `iw[5]` that is 1 or 2, and no others |
| Network.AllDefinedIff | network/MobilenetV3.py:256-271 | in a built network, the dispatch as written is defined for every child iff every block expands or has SE |
| Network.NarrowSmallBlocksRaise | network/MobilenetV3.py:402-405 | at width 0.1, whatever mode the rows were built with or later given, table rows 2 and 3 round input and expanded to 8 channels and have no SE, so their dispatch as written is not defined |

## Left out

- Numerics: convolutions, normalisation, activations, pooling and dropout are symbolic layer applications. Floats are exact reals, so float rounding in `v + divisor / 2` and `0.9 * v` is not modelled.
- `InstanceWhitening` comes from `instance_whitening.py`, which is not part of this model. Its output is the symbolic whitened tensor, and its matrix is a `Matrix` naming the layer and the input.
- A layer handed a pair: `Layers.CallLayer` raises `LayerError`. The exception a torch layer or `InstanceWhitening` actually raises depends on code that is not part of this model, so its kind is not modelled.
- Weight initialisation (lines 366-376): it only sets parameter values.
- `_forward_impl` and `forward` (lines 378-389): only the `features` call is modelled. Average pooling, flattening and the classifier are pure numerics, and the accumulator does not flow through them.
- `mobilenet_v3` and pretrained loading (lines 422-429): network I/O through `load_state_dict_from_url` and `forgiving_state_restore`.
- The `print` calls in the forward methods are output only.
- `norm_layer` and `block` arguments: the model always uses `BatchNorm2d` and `InvertedResidual`, the defaults the code installs. The `eps`/`momentum` of the BatchNorm partial are not recorded.
- Divisible.MakeDivisible: requires a nonzero divisor. With 0, Python raises ZeroDivisionError, but every caller passes 8.
- `isinstance(inverted_residual_setting, Sequence)`: the setting is a Dafny sequence, so only the per-element check is modelled, through `Network.SettingEntry`.
- Layers.ConvNormActivation.Forward, Layers.SqueezeExcitation.Forward and Blocks.InvertedResidual.Forward: require a pair to hold a tensor and then a list. Any other pair would fail inside PyTorch, which is not modelled.
- Network.MobileNetV3.FeaturesForward: uses the corrected `ConvNormActivation` and the corrected block dispatch (see Findings). The `LayerError` of modes 1 and 2 and the second normalisation of modes 3 and 4 are stated per module by `Layers.ConvNormActivation.ForwardAsWritten`; the IndexError of the dispatch is stated per block by `Blocks.InvertedResidual.Forward` and lifted to the whole network by `Network.AllDefinedIff`. No network-level method runs the code as written.
- Network.MobileNetV3.FeaturesForward: a bare tensor whose batch size is 2 passes the `len` check and is then indexed as a pair of tensors; the model's input is a list of values, so that case is not modelled.
- Network.RunAllFeatures: hands each child the pair the previous one returned, with the corrected `ConvNormActivation` and block dispatch, as `FeaturesForward` does.
- Network.FeatureForward: runs the stem and head through `Layers.ConvNormActivation.Forward` and blocks through `Blocks.InvertedResidual.ForwardEveryStage`, the corrected forwards.
- Blocks.InvertedResidual.Forward: runs each convolution stage through the corrected `Layers.ConvNormActivation.Forward`, so the IndexError finding is stated apart from the double whitening.
- Blocks.InvertedResidual.ForwardEveryStage: runs each convolution stage through the corrected `Layers.ConvNormActivation.Forward`.

## Findings

| source | as written | input that shows it | evidently intended | confidence | as-written member | corrected member |
|---|---|---|---|---|---|---|
| network/MobilenetV3.py:123-144 | `self.instance_norm_layer = instance_norm_layer` registers the whitening layer as a further child of the `nn.Sequential`, so `forward` calls it as an ordinary child (`x = module(x)`) and then again as the whitening step. In modes 1 and 2 the second call is handed the pair the first returned and raises before `w_arr.append`; in modes 3 and 4 the output is normalised twice; no mode appends | `ConvNormActivation(16, 16, iw=1)`, or any network whose `iw[3]` is 1 or 2: the block at position 2 has mode 1 or 2 in each convolution stage (`Layers.ConvNormActivation.ForwardAsWritten`, `Layers.AsWrittenNormalisesTwice`) | call the whitening layer once, as the last step, appending its matrix in modes 1 and 2 | not executed; relies on `nn.Module` registering a module assigned to an attribute as a child | Layers.ConvNormActivation.ForwardAsWritten | Layers.ConvNormActivation.Forward |
| network/MobilenetV3.py:265-271 | without an expand stage, `forward` always calls `conv[0]`, `conv[1]` and `conv[2]`. A block with `expanded_channels == input_channels` and `use_se` false has only two stages, so `conv[2]` raises IndexError after the first two stages have run (and, with the corrected `ConvNormActivation`, appended to `w_arr`) | `_mobilenet_v3_conf("mobilenet_v3_small", width_mult=0.1)`: rows 2 and 3 round input and expanded to 8 channels and have no SE (`Network.NarrowSmallBlocksRaise`) | run every stage of `conv` in order, as the expand branch does with its `len(self.conv) > 3` guard | not executed; follows from the indices in the code | Blocks.InvertedResidual.Forward | Blocks.InvertedResidual.ForwardEveryStage |
