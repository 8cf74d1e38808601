/** `MobileNetV3.__init__` and the accumulator threading over `features`:
    validation of the block list, the per-position whitening modes, the stem,
    head and classifier widths, and a pass over the feature stages. */
module Network {
  import opened Wrappers
  import opened Divisible
  import opened Config
  import opened Layers
  import opened Blocks

  /** An element of `inverted_residual_setting`: a configuration, or any other
      Python value. */
  datatype SettingEntry = ConfigEntry(cnf: InvertedResidualConfig) | OtherEntry

  /** A child of `features`: the stem and head convolutions, or a block. */
  datatype Feature = ConvFeature(cna: ConvNormActivation) | BlockFeature(block: InvertedResidual)

  /** The classifier's dimensions: Linear(inFeatures, hidden), Hardswish,
      Dropout(dropout), Linear(hidden, numClasses). */
  datatype Classifier = Classifier(inFeatures: int, hidden: int, numClasses: int, dropout: real)

  const EmptySettingMessage: string := "The inverted_residual_setting should not be empty"
  const SettingTypeMessage: string := "The inverted_residual_setting should be List[InvertedResidualConfig]"
  const NoneLenMessage: string := "object of type 'NoneType' has no len()"

  /** `iw_layer`: the 1-based block positions that read a mode from `iw`. */
  const IwLayer: seq<int> := [0, 2, 7, 11, 12]

  /** Python's `xs.index(v)`: the first position of `v`, if any. */
  function IndexOf(xs: seq<int>, v: int): (r: Option<nat>)
    ensures r.None? <==> v !in xs
    ensures r.Some? ==> r.value < |xs| && xs[r.value] == v && v !in xs[..r.value]
  {
    if xs == [] then None
    else if xs[0] == v then Some(0)
    else
      var rest := IndexOf(xs[1..], v);
      if rest.None? then None
      else
        assert xs[..rest.value + 1] == [xs[0]] + xs[1..][..rest.value];
        Some(rest.value + 1)
  }

  /** The position of `k` in `iw_layer`, written out case by case;
      `IwLayerIndexIsIndexOf` shows it is Python's `iw_layer.index(k)`. */
  function IwLayerIndex(k: int): Option<nat> {
    if k == 0 then Some(0)
    else if k == 2 then Some(1)
    else if k == 7 then Some(2)
    else if k == 11 then Some(3)
    else if k == 12 then Some(4)
    else None
  }

  /** The mode the block at 1-based position `k` gets:
      `iw[iw_layer.index(k) + 2]` when `k` is in `iw_layer`, 0 otherwise; an
      `iw` list too short for that index raises IndexError. */
  function ModeAt(iw: seq<int>, k: int): Result<int> {
    var idx := IwLayerIndex(k);
    if idx.None? then Ok(0)
    else if idx.value + 2 < |iw| then Ok(iw[idx.value + 2])
    else Err(IndexError)
  }

  /** The error building the block at 1-based position `k` raises, if any:
      reading its mode comes first, then the block's stride check. */
  function BlockError(c: InvertedResidualConfig, k: int, iw: seq<int>): Option<Error> {
    if ModeAt(iw, k).Err? then Some(IndexError)
    else if !(1 <= c.stride <= 2) then Some(ValueError("illegal stride value"))
    else None
  }

  /** The 0-based index of the first block whose construction raises, or the
      length when none does. */
  function FirstFailure(cfgs: seq<InvertedResidualConfig>, iw: seq<int>, from: nat): (p: nat)
    requires from <= |cfgs|
    ensures from <= p <= |cfgs|
    ensures forall j :: from <= j < p ==> BlockError(cfgs[j], j + 1, iw).None?
    ensures p < |cfgs| ==> BlockError(cfgs[p], p + 1, iw).Some?
    decreases |cfgs| - from
  {
    if from == |cfgs| then from
    else if BlockError(cfgs[from], from + 1, iw).Some? then from
    else FirstFailure(cfgs, iw, from + 1)
  }

  /** The written-out lookup agrees with `iw_layer.index` on every
      position. */
  lemma {:induction false} IwLayerIndexIsIndexOf(k: int)
    ensures IwLayerIndex(k) == IndexOf(IwLayer, k)
  {
    var xs := IwLayer;
    assert xs[1..][1..][1..][1..][1..] == [];
    assert xs[1..] == [2, 7, 11, 12] && xs[1..][1..] == [7, 11, 12];
    assert xs[1..][1..][1..] == [11, 12] && xs[1..][1..][1..][1..] == [12];
  }

  /** Every position `1..n` gets a mode without raising. */
  predicate ModesDefined(iw: seq<int>, n: int) {
    forall k :: 1 <= k <= n ==> ModeAt(iw, k).Ok?
  }

  /** How many leading configurations get their `iw` overwritten: all before
      the first failure, and that one too when it fails on its stride (the mode
      is written before the block is built). */
  function AssignedCount(cfgs: seq<InvertedResidualConfig>, iw: seq<int>): (n: nat)
    ensures n <= |cfgs|
    ensures ModesDefined(iw, n)
  {
    var p := FirstFailure(cfgs, iw, 0);
    ModesBeforeFailure(cfgs, iw, p);
    if p < |cfgs| && ModeAt(iw, p + 1).Ok? then p + 1 else p
  }

  /** Every position before a failing one, and before the end, got its
      mode. */
  lemma ModesBeforeFailure(cfgs: seq<InvertedResidualConfig>, iw: seq<int>, i: nat)
    requires i <= FirstFailure(cfgs, iw, 0)
    ensures ModesDefined(iw, i)
  {
    forall k | 1 <= k <= i ensures ModeAt(iw, k).Ok? {
      assert BlockError(cfgs[k - 1], k, iw).None?;
    }
  }

  /** The last position before `upto` holding the object `c`. */
  function LastAt(cfgs: seq<InvertedResidualConfig>, c: InvertedResidualConfig, upto: nat): (r: Option<nat>)
    requires upto <= |cfgs|
    ensures r.Some? ==> r.value < upto && cfgs[r.value] == c
    ensures r.None? ==> forall j :: 0 <= j < upto ==> cfgs[j] != c
  {
    if upto == 0 then None
    else if cfgs[upto - 1] == c then Some(upto - 1)
    else LastAt(cfgs, c, upto - 1)
  }

  /** The `iw` of configuration `c` once positions `0..upto-1` have been
      processed: the mode of the last of those positions holding `c` (one
      object may sit at several positions), or its old value if none does. */
  function IwAfter(cfgs: seq<InvertedResidualConfig>, iw: seq<int>, c: InvertedResidualConfig,
                   upto: nat, oldIw: int): int
    requires upto <= |cfgs| && ModesDefined(iw, upto)
  {
    var last := LastAt(cfgs, c, upto);
    if last.None? then oldIw else ModeAt(iw, last.value + 1).value
  }

  /** Each configuration's current `iw`. */
  function IwMap(cfgs: seq<InvertedResidualConfig>): (m: map<InvertedResidualConfig, int>)
    reads cfgs
    ensures forall c :: c in cfgs ==> c in m && m[c] == c.iw
  {
    map c | c in cfgs :: c.iw
  }

  /** Every configuration's `iw` is what positions `0..upto-1` wrote, or its
      value in `olds` where none of them holds it. */
  predicate ModesWritten(cfgs: seq<InvertedResidualConfig>, iw: seq<int>,
                         olds: map<InvertedResidualConfig, int>, upto: nat)
    reads cfgs
    requires upto <= |cfgs| && ModesDefined(iw, upto)
  {
    forall c :: c in cfgs ==> c in olds && c.iw == IwAfter(cfgs, iw, c, upto, olds[c])
  }

  predicate AllConfigs(setting: seq<SettingEntry>) {
    forall e :: e in setting ==> e.ConfigEntry?
  }

  function Configs(setting: seq<SettingEntry>): (cfgs: seq<InvertedResidualConfig>)
    requires AllConfigs(setting)
    ensures |cfgs| == |setting| && forall k :: 0 <= k < |setting| ==> cfgs[k] == setting[k].cnf
  {
    if setting == [] then [] else [setting[0].cnf] + Configs(setting[1..])
  }

  function ConfigSet(setting: seq<SettingEntry>): set<InvertedResidualConfig> {
    set e | e in setting && e.ConfigEntry? :: e.cnf
  }

  predicate FeatureValid(f: Feature) {
    match f
    case ConvFeature(c) => c.Valid()
    case BlockFeature(b) => b.Runnable()
  }

  /** A feature's forward stays inside its stages (always, for a
      convolution). */
  predicate FeatureDefined(f: Feature) {
    f.BlockFeature? ==>
      DispatchDefined(f.block.cnf.expandedChannels != f.block.cnf.inputChannels, |f.block.conv|)
  }

  function FeatureOutput(f: Feature, x: Tensor): Tensor
    requires FeatureValid(f)
  {
    match f
    case ConvFeature(c) => c.Output(x)
    case BlockFeature(b) => b.Output(x)
  }

  function FeatureEntries(f: Feature, x: Tensor): seq<Matrix>
    requires FeatureValid(f)
  {
    match f
    case ConvFeature(c) => c.Entries(x)
    case BlockFeature(b) => b.Entries(x)
  }

  /** The number of entries a feature appends. */
  function FeatureAppends(f: Feature): nat {
    match f
    case ConvFeature(c) => ModeAppends(c.iw)
    case BlockFeature(b) => BlockAppends(b.cnf.expandedChannels != b.cnf.inputChannels, b.iw)
  }

  predicate AllValid(fs: seq<Feature>) {
    forall k :: 0 <= k < |fs| ==> FeatureValid(fs[k])
  }

  /** Every block's stages are the ones its configuration and mode call for
      (`Blocks.InvertedResidual.Valid`). */
  predicate AllDescribed(fs: seq<Feature>) {
    forall k :: 0 <= k < |fs| && fs[k].BlockFeature? ==> fs[k].block.Valid()
  }

  /** The tensor the first `n` stages of `fs` hand on, each run on its
      predecessor's output. */
  function RunFeatures(fs: seq<Feature>, n: nat, x: Tensor): Tensor
    requires n <= |fs| && AllValid(fs)
  {
    if n == 0 then x else FeatureOutput(fs[n - 1], RunFeatures(fs, n - 1, x))
  }

  /** The entries the first `n` stages of `fs` append, in order. */
  function FeaturesEntries(fs: seq<Feature>, n: nat, x: Tensor): seq<Matrix>
    requires n <= |fs| && AllValid(fs)
  {
    if n == 0 then []
    else FeaturesEntries(fs, n - 1, x) + FeatureEntries(fs[n - 1], RunFeatures(fs, n - 1, x))
  }

  /** The number of entries the first `n` stages of `fs` account for. */
  function TotalAppends(fs: seq<Feature>, n: nat): nat
    requires n <= |fs|
  {
    if n == 0 then 0 else TotalAppends(fs, n - 1) + FeatureAppends(fs[n - 1])
  }

  /** The entries blocks built at positions `1..|cfgs|` append in total,
      given the modes those positions get. */
  function SettingAppends(cfgs: seq<InvertedResidualConfig>, iw: seq<int>): nat
    requires ModesDefined(iw, |cfgs|)
  {
    if cfgs == [] then 0
    else
      var n := |cfgs| - 1;
      SettingAppends(cfgs[..n], iw)
      + BlockAppends(cfgs[n].expandedChannels != cfgs[n].inputChannels, ModeAt(iw, n + 1).value)
  }

  /** The blocks built for `cfgs`, in order, the one at 0-based index `k`
      with the mode of position `k + 1`. */
  predicate BuiltBlocks(bs: seq<InvertedResidual>, cfgs: seq<InvertedResidualConfig>, iw: seq<int>)
    requires ModesDefined(iw, |cfgs|)
  {
    && |bs| == |cfgs|
    && forall k :: 0 <= k < |bs| ==>
         bs[k].Valid() && bs[k].cnf == cfgs[k] && bs[k].iw == ModeAt(iw, k + 1).value
  }

  lemma BuiltBlocksSnoc(bs: seq<InvertedResidual>, cfgs: seq<InvertedResidualConfig>, iw: seq<int>,
                        i: nat, b: InvertedResidual)
    requires i < |cfgs| && ModesDefined(iw, i + 1)
    requires BuiltBlocks(bs, cfgs[..i], iw)
    requires b.Valid() && b.cnf == cfgs[i] && b.iw == ModeAt(iw, i + 1).value
    ensures BuiltBlocks(bs + [b], cfgs[..i + 1], iw)
  {
  }

  function AsFeatures(bs: seq<InvertedResidual>): (fs: seq<Feature>)
    ensures |fs| == |bs| && forall k :: 0 <= k < |bs| ==> fs[k] == BlockFeature(bs[k])
  {
    if bs == [] then [] else [BlockFeature(bs[0])] + AsFeatures(bs[1..])
  }

  class MobileNetV3 {
    const features: seq<Feature>
    const classifier: Classifier

    /** Stem, blocks, head; every stage well formed. */
    predicate Valid() {
      && |features| >= 2
      && features[0].ConvFeature?
      && features[|features| - 1].ConvFeature?
      && (forall k :: 0 < k < |features| - 1 ==> features[k].BlockFeature?)
      && AllValid(features)
    }

    /** What `__init__` builds from the configurations `cfgs`: a stem from 3
        to `cfgs[0].input_channels` channels with stride 2, Hardswish and
        mode 0; one block per configuration, in order, the block at position
        `k` with the mode `ModeAt(iw, k)`; a head from the last block's output
        width to six times that, mode 0; and the classifier from that width
        to `last_channel` to `num_classes`. */
    predicate BuiltFrom(cfgs: seq<InvertedResidualConfig>, iw: seq<int>, lastChannel: int,
                        numClasses: int, dropout: real)
      requires ModesDefined(iw, |cfgs|)
    {
      var n := |cfgs|;
      && n >= 1
      && |features| == n + 2
      && features[0].ConvFeature?
      && features[0].cna.iw == 0
      && features[0].cna.layers == CnaLayers(3, cfgs[0].inputChannels, 3, 2, 1, 1, Some(Hardswish), 0)
      && (forall k :: 1 <= k <= n ==>
            && features[k].BlockFeature?
            && features[k].block.cnf == cfgs[k - 1]
            && features[k].block.iw == ModeAt(iw, k).value)
      && features[n + 1].ConvFeature?
      && features[n + 1].cna.iw == 0
      && features[n + 1].cna.layers
           == CnaLayers(cfgs[n - 1].outChannels, 6 * cfgs[n - 1].outChannels, 1, 1, 1, 1, Some(Hardswish), 0)
      && classifier == Classifier(6 * cfgs[n - 1].outChannels, lastChannel, numClasses, dropout)
    }

    constructor (features: seq<Feature>, classifier: Classifier)
      ensures this.features == features && this.classifier == classifier
    {
      this.features := features;
      this.classifier := classifier;
    }

    /** Every block's dispatch as written stays inside its stages: exactly
        when `forward` as written would run each block without raising
        (`Blocks.InvertedResidual.Forward`, `AllDefinedIff`). */
    predicate AllDefined() {
      forall k :: 0 <= k < |features| ==> FeatureDefined(features[k])
    }

    /** `self.features([x, w_arr])`: `nn.Sequential` hands each stage's
        result to the next, every block running all of its stages. It returns
        the stages' composed output and appends their entries in order. A
        malformed input makes the stem return `None`, on which the next stage's
        `len` raises TypeError. */
    method FeaturesForward(xs: seq<Value>) returns (r: Forwarded)
      requires Valid() && WellTyped(xs)
      modifies ListOf(xs)
      ensures |xs| != 2 ==> r == Raised(TypeError(NoneLenMessage))
      ensures |xs| == 2 ==>
                && r == Returned(RunFeatures(features, |features|, xs[0].t), xs[1].list)
                && xs[1].list.entries == old(xs[1].list.entries) + FeaturesEntries(features, |features|, xs[0].t)
    {
      if |xs| != 2 {
        var none := features[0].cna.Forward(xs);
        return Raised(TypeError(NoneLenMessage));
      }
      var ys := RunAllFeatures(features, xs[0].t, xs);
      r := Returned(ys[0].t, xs[1].list);
    }
  }

  /** The stages of `fs` in order, each on the pair the previous one
      returned. */
  method RunAllFeatures(fs: seq<Feature>, ghost x0: Tensor, xs: seq<Value>) returns (ys: seq<Value>)
    requires AllValid(fs)
    requires |xs| == 2 && xs[0] == TensorValue(x0) && xs[1].ListValue?
    modifies xs[1].list
    ensures ys == [TensorValue(RunFeatures(fs, |fs|, x0)), xs[1]]
    ensures xs[1].list.entries == old(xs[1].list.entries) + FeaturesEntries(fs, |fs|, x0)
  {
    ghost var before := xs[1].list.entries;
    ys := xs;
    for i := 0 to |fs|
      invariant |ys| == 2 && ys[0] == TensorValue(RunFeatures(fs, i, x0)) && ys[1] == xs[1]
      invariant xs[1].list.entries == before + FeaturesEntries(fs, i, x0)
    {
      ys := RunFeature(fs, i, x0, before, ys);
    }
  }

  /** Runs `fs[i]` on the pair left by stages `0..i-1`. */
  method RunFeature(fs: seq<Feature>, i: nat, ghost x0: Tensor, ghost before: seq<Matrix>, xs: seq<Value>)
    returns (ys: seq<Value>)
    requires AllValid(fs) && i < |fs|
    requires |xs| == 2 && xs[0] == TensorValue(RunFeatures(fs, i, x0)) && xs[1].ListValue?
    requires xs[1].list.entries == before + FeaturesEntries(fs, i, x0)
    modifies xs[1].list
    ensures |ys| == 2 && ys[0] == TensorValue(RunFeatures(fs, i + 1, x0)) && ys[1] == xs[1]
    ensures xs[1].list.entries == before + FeaturesEntries(fs, i + 1, x0)
  {
    ghost var x := RunFeatures(fs, i, x0);
    var r := FeatureForward(fs[i], xs);
    ys := r.AsArgs();
    AppendAssoc(before, FeaturesEntries(fs, i, x0), FeatureEntries(fs[i], x));
  }

  /** One stage of `features`: its own `forward`, with every stage of a
      block run. */
  method FeatureForward(f: Feature, xs: seq<Value>) returns (r: Forwarded)
    requires FeatureValid(f) && |xs| == 2 && xs[0].TensorValue? && xs[1].ListValue?
    modifies xs[1].list
    ensures r == Returned(FeatureOutput(f, xs[0].t), xs[1].list)
    ensures xs[1].list.entries == old(xs[1].list.entries) + FeatureEntries(f, xs[0].t)
  {
    match f {
      case ConvFeature(c) =>
        r := c.Forward(xs);
      case BlockFeature(b) =>
        r := b.ForwardEveryStage(xs);
    }
  }

  /** `cnf.iw = ...` for the block at 0-based index `i`: position `i + 1`
      reads `iw[iw_layer.index(i + 1) + 2]` when it is in `iw_layer` and
      takes 0 otherwise; an index past the end raises before anything is
      written. */
  method AssignMode(cfgs: seq<InvertedResidualConfig>, i: nat, iw: seq<int>) returns (raised: bool)
    requires i < |cfgs|
    modifies cfgs[i]
    ensures raised <==> ModeAt(iw, i + 1).Err?
    ensures raised ==> cfgs[i].iw == old(cfgs[i].iw)
    ensures !raised ==> cfgs[i].iw == ModeAt(iw, i + 1).value
  {
    var featureCount := i + 1;
    var mode := 0;
    var layer := IndexOf(IwLayer, featureCount);
    IwLayerIndexIsIndexOf(featureCount);
    if layer.Some? {
      if layer.value + 2 >= |iw| {
        return true;
      }
      mode := iw[layer.value + 2];
    }
    cfgs[i].iw := mode;
    raised := false;
  }

  /** Writing position `i` changes only what `c` would read back if it sits
      at `i`. */
  lemma IwAfterStep(cfgs: seq<InvertedResidualConfig>, iw: seq<int>, c: InvertedResidualConfig,
                    i: nat, oldIw: int)
    requires i < |cfgs| && ModesDefined(iw, i + 1)
    ensures IwAfter(cfgs, iw, c, i + 1, oldIw)
            == if c == cfgs[i] then ModeAt(iw, i + 1).value else IwAfter(cfgs, iw, c, i, oldIw)
  {
  }

  /** The loop of `__init__` over the setting: each configuration's mode is
      written, then its block is built; the first failure stops the loop. */
  method BuildBlocks(cfgs: seq<InvertedResidualConfig>, iw: seq<int>)
    returns (r: Result<seq<InvertedResidual>>)
    modifies cfgs
    ensures var p := FirstFailure(cfgs, iw, 0);
            && (p < |cfgs| ==> r == Err(BlockError(cfgs[p], p + 1, iw).value))
            && (p == |cfgs| ==> r.Ok? && ModesDefined(iw, |cfgs|) && BuiltBlocks(r.value, cfgs, iw)
                                && forall k :: 0 <= k < |cfgs| ==> fresh(r.value[k]))
            && ModesWritten(cfgs, iw, old(IwMap(cfgs)), AssignedCount(cfgs, iw))
  {
    ghost var olds := IwMap(cfgs);
    var bs: seq<InvertedResidual> := [];
    for i := 0 to |cfgs|
      invariant i <= FirstFailure(cfgs, iw, 0)
      invariant ModesDefined(iw, i)
      invariant BuiltBlocks(bs, cfgs[..i], iw)
      invariant forall k :: 0 <= k < i ==> fresh(bs[k])
      invariant ModesWritten(cfgs, iw, olds, i)
    {
      var block := BuildBlock(cfgs, i, iw, olds);
      if block.Err? {
        return Err(block.error);
      }
      BuiltBlocksSnoc(bs, cfgs, iw, i, block.value);
      bs := bs + [block.value];
    }
    assert cfgs[..|cfgs|] == cfgs;
    r := Ok(bs);
  }

  /** One turn of that loop: write the mode of position `i + 1` into
      `cfgs[i]`, then build its block. */
  method BuildBlock(cfgs: seq<InvertedResidualConfig>, i: nat, iw: seq<int>,
                    ghost olds: map<InvertedResidualConfig, int>)
    returns (r: Result<InvertedResidual>)
    requires i <= FirstFailure(cfgs, iw, 0) && i < |cfgs|
    requires ModesDefined(iw, i) && ModesWritten(cfgs, iw, olds, i)
    modifies cfgs[i]
    ensures r.Err? ==> i == FirstFailure(cfgs, iw, 0) && r.error == BlockError(cfgs[i], i + 1, iw).value
    ensures r.Err? ==> ModesWritten(cfgs, iw, olds, AssignedCount(cfgs, iw))
    ensures r.Ok? ==>
              && i + 1 <= FirstFailure(cfgs, iw, 0)
              && ModesDefined(iw, i + 1) && ModesWritten(cfgs, iw, olds, i + 1)
              && fresh(r.value) && r.value.Valid() && r.value.cnf == cfgs[i]
              && r.value.iw == ModeAt(iw, i + 1).value
  {
    var raised := WriteMode(cfgs, i, iw, olds);
    if raised {
      return Err(IndexError);
    }
    r := NewInvertedResidual(cfgs[i]);
    if r.Err? {
      assert BlockError(cfgs[i], i + 1, iw) == Some(ValueError("illegal stride value"));
    } else {
      assert BlockError(cfgs[i], i + 1, iw).None?;
    }
  }

  /** The mode half of that turn: `AssignMode` at position `i + 1`, with
      what it leaves in every configuration. When reading the mode raises,
      position `i + 1` is the first failure and nothing was written. */
  method WriteMode(cfgs: seq<InvertedResidualConfig>, i: nat, iw: seq<int>,
                   ghost olds: map<InvertedResidualConfig, int>) returns (raised: bool)
    requires i <= FirstFailure(cfgs, iw, 0) && i < |cfgs|
    requires ModesDefined(iw, i) && ModesWritten(cfgs, iw, olds, i)
    modifies cfgs[i]
    ensures raised <==> BlockError(cfgs[i], i + 1, iw) == Some(IndexError)
    ensures raised ==> i == FirstFailure(cfgs, iw, 0) && ModesWritten(cfgs, iw, olds, AssignedCount(cfgs, iw))
    ensures !raised ==>
              && ModesDefined(iw, i + 1) && ModesWritten(cfgs, iw, olds, i + 1)
              && cfgs[i].iw == ModeAt(iw, i + 1).value
  {
    ghost var prev := IwMap(cfgs);
    assert forall c :: c in cfgs ==> prev[c] == IwAfter(cfgs, iw, c, i, olds[c]);
    raised := AssignMode(cfgs, i, iw);
    if raised {
      assert IwMap(cfgs) == prev;
      return;
    }
    assert ModesDefined(iw, i + 1);
    forall c | c in cfgs ensures c in olds && c.iw == IwAfter(cfgs, iw, c, i + 1, olds[c]) {
      IwAfterStep(cfgs, iw, c, i, olds[c]);
    }
  }

  /** The rest of `__init__` once the blocks exist: the head from the last
      block's output width to six times that, the `features` sequence and the
      classifier. */
  method Assemble(cfgs: seq<InvertedResidualConfig>, iw: seq<int>, stem: ConvNormActivation,
                  bs: seq<InvertedResidual>, lastChannel: int, numClasses: int, dropout: real)
    returns (net: MobileNetV3)
    requires |cfgs| >= 1 && ModesDefined(iw, |cfgs|) && BuiltBlocks(bs, cfgs, iw)
    requires stem.Valid() && stem.iw == 0
    requires stem.layers == CnaLayers(3, cfgs[0].inputChannels, 3, 2, 1, 1, Some(Hardswish), 0)
    ensures fresh(net) && net.Valid() && AllDescribed(net.features)
    ensures net.BuiltFrom(cfgs, iw, lastChannel, numClasses, dropout)
  {
    var n := |cfgs|;
    var lastOutputChannels := cfgs[n - 1].outChannels;
    var head := new ConvNormActivation(lastOutputChannels, 6 * lastOutputChannels, 1, 1, 1, 1,
                                       Some(Hardswish), 0);
    var all := [ConvFeature(stem)] + AsFeatures(bs) + [ConvFeature(head)];
    AssembledFeatures(stem, bs, head, all);
    net := new MobileNetV3(all, Classifier(6 * lastOutputChannels, lastChannel, numClasses, dropout));
    AssembledBuiltFrom(net, cfgs, iw, stem, bs, head, lastChannel, numClasses, dropout);
  }

  lemma AssembledBuiltFrom(net: MobileNetV3, cfgs: seq<InvertedResidualConfig>, iw: seq<int>,
                           stem: ConvNormActivation, bs: seq<InvertedResidual>, head: ConvNormActivation,
                           lastChannel: int, numClasses: int, dropout: real)
    requires |cfgs| >= 1 && ModesDefined(iw, |cfgs|) && BuiltBlocks(bs, cfgs, iw)
    requires stem.iw == 0 && stem.layers == CnaLayers(3, cfgs[0].inputChannels, 3, 2, 1, 1, Some(Hardswish), 0)
    requires var c := cfgs[|cfgs| - 1].outChannels;
             head.iw == 0 && head.layers == CnaLayers(c, 6 * c, 1, 1, 1, 1, Some(Hardswish), 0)
    requires var fs := net.features;
             && |fs| == |bs| + 2 && fs[0] == ConvFeature(stem) && fs[|bs| + 1] == ConvFeature(head)
             && forall k :: 1 <= k <= |bs| ==> fs[k] == BlockFeature(bs[k - 1])
    requires net.classifier
               == Classifier(6 * cfgs[|cfgs| - 1].outChannels, lastChannel, numClasses, dropout)
    ensures net.BuiltFrom(cfgs, iw, lastChannel, numClasses, dropout)
  {
  }

  lemma AssembledFeatures(stem: ConvNormActivation, bs: seq<InvertedResidual>, head: ConvNormActivation,
                          all: seq<Feature>)
    requires stem.Valid() && head.Valid() && forall k :: 0 <= k < |bs| ==> bs[k].Valid()
    requires all == [ConvFeature(stem)] + AsFeatures(bs) + [ConvFeature(head)]
    ensures |all| == |bs| + 2 && all[0] == ConvFeature(stem) && all[|bs| + 1] == ConvFeature(head)
    ensures forall k :: 1 <= k <= |bs| ==> all[k] == BlockFeature(bs[k - 1])
    ensures AllValid(all) && AllDescribed(all)
  {
    AssembledLayout(stem, bs, head, all);
    forall k | 0 <= k < |all| ensures FeatureValid(all[k]) && (all[k].BlockFeature? ==> all[k].block.Valid()) {
      AssembledFeatureAt(stem, bs, head, all, k);
    }
  }

  lemma AssembledFeatureAt(stem: ConvNormActivation, bs: seq<InvertedResidual>, head: ConvNormActivation,
                           all: seq<Feature>, k: nat)
    requires stem.Valid() && head.Valid() && forall j :: 0 <= j < |bs| ==> bs[j].Valid()
    requires |all| == |bs| + 2 && all[0] == ConvFeature(stem) && all[|bs| + 1] == ConvFeature(head)
    requires forall j :: 1 <= j <= |bs| ==> all[j] == BlockFeature(bs[j - 1])
    requires k < |all|
    ensures FeatureValid(all[k]) && (all[k].BlockFeature? ==> all[k].block.Valid())
  {
    if 1 <= k <= |bs| {
      BlockFeatureValid(bs[k - 1]);
    }
  }

  lemma AssembledLayout(stem: ConvNormActivation, bs: seq<InvertedResidual>, head: ConvNormActivation,
                        all: seq<Feature>)
    requires all == [ConvFeature(stem)] + AsFeatures(bs) + [ConvFeature(head)]
    ensures |all| == |bs| + 2 && all[0] == ConvFeature(stem) && all[|bs| + 1] == ConvFeature(head)
    ensures forall k :: 1 <= k <= |bs| ==> all[k] == BlockFeature(bs[k - 1])
  {
    var fs := AsFeatures(bs);
    var front := [ConvFeature(stem)] + fs;
    assert all == front + [ConvFeature(head)];
    forall k | 1 <= k <= |bs| ensures all[k] == BlockFeature(bs[k - 1]) {
      assert all[k] == front[k] == fs[k - 1];
    }
  }

  lemma BlockFeatureValid(b: InvertedResidual)
    requires b.Valid()
    ensures FeatureValid(BlockFeature(b))
  {
  }

  /** `MobileNetV3(inverted_residual_setting, last_channel, num_classes,
      dropout=dropout, iw=iw)`. An empty setting is a ValueError and a setting
      holding anything but configurations a TypeError, both before any
      change. Otherwise the blocks are built in order, each configuration's
      `iw` overwritten with its position's mode just before its block is
      built; building stops at the first position whose mode index is past
      the end of `iw` (IndexError, that position not written) or whose stride
      is illegal (ValueError, that position written). */
  method NewMobileNetV3(setting: seq<SettingEntry>, lastChannel: int, numClasses: int,
                        dropout: real, iw: seq<int>)
    returns (r: Result<MobileNetV3>)
    modifies ConfigSet(setting)
    ensures setting == [] ==> r == Err(ValueError(EmptySettingMessage))
    ensures setting != [] && !AllConfigs(setting) ==> r == Err(TypeError(SettingTypeMessage))
    ensures setting == [] || !AllConfigs(setting) ==>
              forall c :: c in ConfigSet(setting) ==> c.iw == old(c.iw)
    ensures setting != [] && AllConfigs(setting) ==>
              var cfgs := Configs(setting);
              var p := FirstFailure(cfgs, iw, 0);
              && (p < |cfgs| ==> r == Err(BlockError(cfgs[p], p + 1, iw).value))
              && (p == |cfgs| ==>
                    && r.Ok? && fresh(r.value) && r.value.Valid() && AllDescribed(r.value.features)
                    && ModesDefined(iw, |cfgs|)
                    && r.value.BuiltFrom(cfgs, iw, lastChannel, numClasses, dropout))
              && ModesWritten(cfgs, iw, old(IwMap(cfgs)), AssignedCount(cfgs, iw))
  {
    if setting == [] {
      return Err(ValueError(EmptySettingMessage));
    }
    if !AllConfigs(setting) {
      return Err(TypeError(SettingTypeMessage));
    }
    var cfgs := Configs(setting);
    assert forall c :: c in cfgs <==> c in ConfigSet(setting);
    var firstConvOutputChannels := cfgs[0].inputChannels;
    var stem := new ConvNormActivation(3, firstConvOutputChannels, 3, 2, 1, 1, Some(Hardswish), 0);
    ghost var olds := IwMap(cfgs);
    assert olds == old(IwMap(cfgs));
    var blocks := BuildBlocks(cfgs, iw);
    ghost var written := ModesWritten(cfgs, iw, olds, AssignedCount(cfgs, iw));
    assert written;
    if blocks.Err? {
      return Err(blocks.error);
    }
    var net := Assemble(cfgs, iw, stem, blocks.value, lastChannel, numClasses, dropout);
    assert ModesWritten(cfgs, iw, olds, AssignedCount(cfgs, iw));
    r := Ok(net);
  }

  /** A pass over `features` appends exactly as many entries as its stages
      account for. */
  lemma FeaturesEntriesCount(fs: seq<Feature>, n: nat, x: Tensor)
    requires n <= |fs| && AllValid(fs) && AllDescribed(fs)
    ensures |FeaturesEntries(fs, n, x)| == TotalAppends(fs, n)
  {
    forall k, y | 0 <= k < |fs| ensures |FeatureEntries(fs[k], y)| == FeatureAppends(fs[k]) {
      FeatureEntriesCount(fs[k], y);
    }
    SumOfCounts(fs, n, x);
  }

  lemma {:induction false} SumOfCounts(fs: seq<Feature>, n: nat, x: Tensor)
    requires n <= |fs| && AllValid(fs)
    requires forall k, y :: 0 <= k < |fs| ==> |FeatureEntries(fs[k], y)| == FeatureAppends(fs[k])
    ensures |FeaturesEntries(fs, n, x)| == TotalAppends(fs, n)
  {
    if n > 0 {
      var y := RunFeatures(fs, n - 1, x);
      assert FeaturesEntries(fs, n, x) == FeaturesEntries(fs, n - 1, x) + FeatureEntries(fs[n - 1], y);
      assert |FeatureEntries(fs[n - 1], y)| == FeatureAppends(fs[n - 1]);
      SumOfCounts(fs, n - 1, x);
    }
  }

  lemma FeatureEntriesCount(f: Feature, x: Tensor)
    requires FeatureValid(f) && (f.BlockFeature? ==> f.block.Valid())
    ensures |FeatureEntries(f, x)| == FeatureAppends(f)
  {
    match f {
      case ConvFeature(c) => CnaAppendCount(c, x);
      case BlockFeature(b) => BlockAppendCount(b, x);
    }
  }

  /** The stem and the head never whiten (mode 0), so a network built from
      `cfgs` appends exactly what its blocks account for. */
  lemma {:induction false} BuiltAppends(net: MobileNetV3, cfgs: seq<InvertedResidualConfig>, iw: seq<int>,
                                        lastChannel: int, numClasses: int, dropout: real)
    requires ModesDefined(iw, |cfgs|)
    requires net.BuiltFrom(cfgs, iw, lastChannel, numClasses, dropout)
    ensures TotalAppends(net.features, |net.features|) == SettingAppends(cfgs, iw)
  {
    var n := |cfgs|;
    PrefixAppends(net, cfgs, iw, lastChannel, numClasses, dropout, n);
    assert cfgs[..n] == cfgs;
  }

  lemma {:induction false} PrefixAppends(net: MobileNetV3, cfgs: seq<InvertedResidualConfig>, iw: seq<int>,
                                         lastChannel: int, numClasses: int, dropout: real, k: nat)
    requires ModesDefined(iw, |cfgs|) && k <= |cfgs|
    requires net.BuiltFrom(cfgs, iw, lastChannel, numClasses, dropout)
    ensures TotalAppends(net.features, k + 1) == SettingAppends(cfgs[..k], iw)
  {
    if k > 0 {
      PrefixAppends(net, cfgs, iw, lastChannel, numClasses, dropout, k - 1);
      assert cfgs[..k][..k - 1] == cfgs[..k - 1];
    }
  }

  /** The `w_arr` a pass over a network built from `cfgs` ends with has
      grown by exactly the entries its blocks account for, whatever the
      input. */
  lemma PassAppends(net: MobileNetV3, cfgs: seq<InvertedResidualConfig>, iw: seq<int>,
                    lastChannel: int, numClasses: int, dropout: real, x: Tensor)
    requires ModesDefined(iw, |cfgs|)
    requires net.Valid() && AllDescribed(net.features)
    requires net.BuiltFrom(cfgs, iw, lastChannel, numClasses, dropout)
    ensures |FeaturesEntries(net.features, |net.features|, x)| == SettingAppends(cfgs, iw)
  {
    FeaturesEntriesCount(net.features, |net.features|, x);
    BuiltAppends(net, cfgs, iw, lastChannel, numClasses, dropout);
  }

  /** Each block of a network built from `cfgs` is fixed by its
      configuration and its mode: its stages, whether it adds the residual,
      and its final whitening layer. */
  lemma BuiltBlockShape(net: MobileNetV3, cfgs: seq<InvertedResidualConfig>, iw: seq<int>,
                        lastChannel: int, numClasses: int, dropout: real, k: nat)
    requires ModesDefined(iw, |cfgs|)
    requires AllDescribed(net.features)
    requires net.BuiltFrom(cfgs, iw, lastChannel, numClasses, dropout)
    requires 1 <= k <= |cfgs|
    ensures var b := net.features[k].block;
            var c := cfgs[k - 1];
            var m := ModeAt(iw, k).value;
            && Describes(b.conv, Plan(c, m))
            && b.useResConnect == (c.stride == 1 && c.inputChannels == c.outChannels)
            && b.instanceNormLayer == WhiteningFor(m, c.outChannels, false)
  {
  }

  /** The dispatch as written is defined for every stage of a network
      exactly when each of its blocks has an expansion stage or a
      squeeze-excitation stage. */
  lemma {:induction false} AllDefinedIff(net: MobileNetV3)
    requires net.Valid() && AllDescribed(net.features)
    ensures net.AllDefined() <==>
              forall k :: 0 < k < |net.features| - 1 ==>
                var c := net.features[k].block.cnf;
                c.expandedChannels != c.inputChannels || c.useSe
  {
    var fs := net.features;
    forall k | 0 < k < |fs| - 1
      ensures FeatureDefined(fs[k]) <==>
                (fs[k].block.cnf.expandedChannels != fs[k].block.cnf.inputChannels || fs[k].block.cnf.useSe)
    {
      assert fs[k] in fs;
      BlockDefinedIff(fs[k].block);
    }
    DefinedIffBlocksDefined(fs);
  }

  /** The stem and head are always defined, so a feature list is defined
      exactly where its blocks are. */
  lemma DefinedIffBlocksDefined(fs: seq<Feature>)
    requires |fs| >= 2 && fs[0].ConvFeature? && fs[|fs| - 1].ConvFeature?
    requires forall k :: 0 < k < |fs| - 1 ==> fs[k].BlockFeature?
    requires forall k :: 0 < k < |fs| - 1 ==>
               (FeatureDefined(fs[k]) <==>
                  (fs[k].block.cnf.expandedChannels != fs[k].block.cnf.inputChannels || fs[k].block.cnf.useSe))
    ensures (forall f :: f in fs ==> FeatureDefined(f)) <==>
              forall k :: 0 < k < |fs| - 1 ==>
                var c := fs[k].block.cnf;
                c.expandedChannels != c.inputChannels || c.useSe
  {
    if exists f :: f in fs && !FeatureDefined(f) {
      var f :| f in fs && !FeatureDefined(f);
      var k :| 0 <= k < |fs| && fs[k] == f;
      assert 0 < k < |fs| - 1;
    }
  }

  /** One block's dispatch is defined exactly when it expands or has
      squeeze-excitation. */
  lemma BlockDefinedIff(b: InvertedResidual)
    requires b.Valid()
    ensures FeatureDefined(BlockFeature(b)) <==> (b.cnf.expandedChannels != b.cnf.inputChannels || b.cnf.useSe)
  {
    DispatchDefinedIff(b.cnf, b.iw);
  }

  /** The positions the code reads `iw` at: position 2 reads `iw[3]`, 7 reads
      `iw[4]`, 11 reads `iw[5]` and 12 reads `iw[6]` (raising when the list
      is too short); every other position reached (1 and up) gets 0, and
      `iw[0..2]` are never read. */
  lemma ModePositions(iw: seq<int>, k: int)
    requires k >= 1
    ensures k !in {2, 7, 11, 12} ==> ModeAt(iw, k) == Ok(0)
    ensures k == 2 ==> ModeAt(iw, k) == if |iw| > 3 then Ok(iw[3]) else Err(IndexError)
    ensures k == 7 ==> ModeAt(iw, k) == if |iw| > 4 then Ok(iw[4]) else Err(IndexError)
    ensures k == 11 ==> ModeAt(iw, k) == if |iw| > 5 then Ok(iw[5]) else Err(IndexError)
    ensures k == 12 ==> ModeAt(iw, k) == if |iw| > 6 then Ok(iw[6]) else Err(IndexError)
  {
  }

  /** A setting of eleven blocks needs `iw` to reach index 5 and no further. */
  lemma ElevenBlocksModes(iw: seq<int>)
    ensures ModesDefined(iw, 11) <==> |iw| >= 6
  {
    if ModesDefined(iw, 11) {
      assert ModeAt(iw, 11).Ok?;
    }
  }

  /** On the small table at width 1.0 every block that reads a mode (positions
      2, 7 and 11) expands, so a network built from it appends four entries
      for each of `iw[3]`, `iw[4]`, `iw[5]` that is 1 or 2, and nothing
      else. */
  lemma {:induction false} SmallTableAppends(cfgs: seq<InvertedResidualConfig>, iw: seq<int>,
                                             reducedTail: bool, dilated: bool)
    requires |cfgs| == 11 && |iw| >= 6
    requires forall k :: 0 <= k < 11 ==> ShapedBy(cfgs[k], SmallSetting(reducedTail, dilated)[k], 1.0)
    ensures ModesDefined(iw, 11)
    ensures SettingAppends(cfgs, iw) == 4 * (ModeAppends(iw[3]) + ModeAppends(iw[4]) + ModeAppends(iw[5]))
  {
    ElevenBlocksModes(iw);
    assert forall k :: 1 <= k < 11 ==> cfgs[k].expandedChannels != cfgs[k].inputChannels by {
      var rows := SmallSetting(reducedTail, dilated);
      SmallSettingAtUnitWidth(reducedTail, dilated);
      forall k | 1 <= k < 11 ensures cfgs[k].expandedChannels != cfgs[k].inputChannels {
        assert ShapedBy(cfgs[k], rows[k], 1.0);
      }
    }
    ElevenExpandingBlocksAppends(cfgs, iw);
  }

  /** Eleven blocks of which all but the first expand append four entries
      for each of the modes read at positions 2, 7 and 11 that is 1 or 2. */
  lemma {:induction false} ElevenExpandingBlocksAppends(cfgs: seq<InvertedResidualConfig>, iw: seq<int>)
    requires |cfgs| == 11 && |iw| >= 6 && ModesDefined(iw, 11)
    requires forall k :: 1 <= k < 11 ==> cfgs[k].expandedChannels != cfgs[k].inputChannels
    ensures SettingAppends(cfgs, iw) == 4 * (ModeAppends(iw[3]) + ModeAppends(iw[4]) + ModeAppends(iw[5]))
  {
    var k := 0;
    while k < 11
      invariant 0 <= k <= 11
      invariant ModesDefined(iw, k)
      invariant SettingAppends(cfgs[..k], iw) ==
                  (if k > 1 then 4 * ModeAppends(iw[3]) else 0)
                  + (if k > 6 then 4 * ModeAppends(iw[4]) else 0)
                  + (if k > 10 then 4 * ModeAppends(iw[5]) else 0)
    {
      assert cfgs[..k + 1][..k] == cfgs[..k];
      ModePositions(iw, k + 1);
      k := k + 1;
    }
    assert cfgs[..11] == cfgs;
  }

  /** At width 0.1 the second and third rows of the small table round their
      input and expanded widths to the same 8 channels, and neither has
      squeeze-excitation: their blocks have two stages and raise in
      `forward`. */
  lemma {:induction false} NarrowSmallBlocksRaise(c: InvertedResidualConfig, k: nat, iw: int,
                                                  reducedTail: bool, dilated: bool)
    requires k == 1 || k == 2
    requires ShapedBy(c, SmallSetting(reducedTail, dilated)[k], 0.1)
    ensures c.inputChannels == c.expandedChannels == 8 && !c.useSe
    ensures !DispatchDefined(c.expandedChannels != c.inputChannels, |Plan(c, iw)|)
  {
    assert Trunc(16.0 * 0.1 + 4.0) == 5;
    assert Trunc(72.0 * 0.1 + 4.0) == 11;
    assert Trunc(24.0 * 0.1 + 4.0) == 6;
    assert Trunc(88.0 * 0.1 + 4.0) == 12;
    DispatchDefinedIff(c, iw);
  }
}
