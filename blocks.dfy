/** `InvertedResidual`: expand, depthwise, optional squeeze-excitation and
    project stages, an optional residual sum and a final whitening step. */
module Blocks {
  import opened Wrappers
  import opened Divisible
  import opened Config
  import opened Layers

  /** A child of the block's `conv` sequence. */
  datatype Stage = CnaStage(cna: ConvNormActivation) | SeStage(se: SqueezeExcitation)

  /** A stage described by the arguments it was built with. */
  datatype StageSpec =
    | CnaSpec(layers: seq<Layer>, iw: int)
    | SeSpec(inputChannels: int, squeezeChannels: int, activation: Activation,
             scaleActivation: Activation, iw: int)

  function SpecOf(s: Stage): StageSpec {
    match s
    case CnaStage(c) => CnaSpec(c.layers, c.iw)
    case SeStage(e) => SeSpec(e.inputChannels, e.squeezeChannels, e.activation, e.scaleActivation, e.iw)
  }

  /** A stage a forward can run: a squeeze-excitation stage must not be of
      mode 1 or 2, where its `_scale` raises. */
  predicate StageValid(s: Stage) {
    match s
    case CnaStage(c) => c.Valid()
    case SeStage(e) => e.Valid() && !(e.iw == 1 || e.iw == 2)
  }

  function StageOutput(s: Stage, x: Tensor): Tensor
    requires StageValid(s)
  {
    match s
    case CnaStage(c) => c.Output(x)
    case SeStage(e) => e.Output(x)
  }

  function StageEntries(s: Stage, x: Tensor): seq<Matrix>
    requires StageValid(s)
  {
    match s
    case CnaStage(c) => c.Entries(x)
    case SeStage(e) => []
  }

  /** The number of entries a stage of this description appends. */
  function SpecAppends(p: StageSpec): nat {
    ModeAppends(p.iw)
  }

  /** The tensor left after running the stages in order. */
  function RunStages(ss: seq<Stage>, x: Tensor): Tensor
    requires forall s :: s in ss ==> StageValid(s)
  {
    if ss == [] then x
    else StageOutput(ss[|ss| - 1], RunStages(ss[..|ss| - 1], x))
  }

  /** The entries the stages append, in order, when run on `x`. */
  function StagesEntries(ss: seq<Stage>, x: Tensor): seq<Matrix>
    requires forall s :: s in ss ==> StageValid(s)
  {
    if ss == [] then []
    else StagesEntries(ss[..|ss| - 1], x) + StageEntries(ss[|ss| - 1], RunStages(ss[..|ss| - 1], x))
  }

  /** The entries a list of stage descriptions accounts for, one per stage
      whose mode is 1 or 2. */
  function PlanAppends(ps: seq<StageSpec>): nat {
    if ps == [] then 0 else PlanAppends(ps[..|ps| - 1]) + SpecAppends(ps[|ps| - 1])
  }

  /** The depthwise stride: dilation supersedes stride. */
  function DepthwiseStride(stride: int, dilation: int): int {
    if dilation > 1 then 1 else stride
  }

  /** `_make_divisible(expanded_channels // 4, 8)`. */
  function SqueezeChannels(expandedChannels: int): int {
    MakeDivisible(FloorDiv(expandedChannels, 4) as real, 8, None)
  }

  /** The expand stage, present only when expansion changes the width. */
  function ExpandPart(cnf: InvertedResidualConfig, iw: int): seq<StageSpec> {
    var act := if cnf.useHs then Hardswish else ReLU;
    if cnf.expandedChannels != cnf.inputChannels
    then [CnaSpec(CnaLayers(cnf.inputChannels, cnf.expandedChannels, 1, 1, 1, 1, Some(act), iw), iw)]
    else []
  }

  /** The depthwise stage: one group per channel, stride 1 under dilation. */
  function DepthwiseSpec(cnf: InvertedResidualConfig, iw: int): StageSpec {
    var act := if cnf.useHs then Hardswish else ReLU;
    var e := cnf.expandedChannels;
    CnaSpec(CnaLayers(e, e, cnf.kernel, DepthwiseStride(cnf.stride, cnf.dilation), e,
                      cnf.dilation, Some(act), iw), iw)
  }

  /** The squeeze-excitation stage, present only when `use_se`; it is built
      without `iw`, so its mode is always 0. */
  function SePart(cnf: InvertedResidualConfig): seq<StageSpec> {
    var e := cnf.expandedChannels;
    if cnf.useSe then [SeSpec(e, SqueezeChannels(e), ReLU, Hardsigmoid, 0)] else []
  }

  /** The project stage: a 1x1 convolution without activation. */
  function ProjectSpec(cnf: InvertedResidualConfig, iw: int): StageSpec {
    CnaSpec(CnaLayers(cnf.expandedChannels, cnf.outChannels, 1, 1, 1, 1, None, iw), iw)
  }

  /** The stages `InvertedResidual.__init__` appends to `layers` for `cnf`
      and block mode `iw`. */
  function Plan(cnf: InvertedResidualConfig, iw: int): seq<StageSpec> {
    ExpandPart(cnf, iw) + [DepthwiseSpec(cnf, iw)] + SePart(cnf) + [ProjectSpec(cnf, iw)]
  }

  /** `conv` holds stages described by `ps`, one for one. */
  predicate Describes(ss: seq<Stage>, ps: seq<StageSpec>) {
    |ss| == |ps| && forall k :: 0 <= k < |ss| ==> SpecOf(ss[k]) == ps[k]
  }

  lemma DescribesSnoc(ss: seq<Stage>, ps: seq<StageSpec>, s: Stage, p: StageSpec)
    requires Describes(ss, ps) && SpecOf(s) == p
    ensures Describes(ss + [s], ps + [p])
  {
  }

  /** The stage indices `forward` runs, as written: `conv[0]`, `conv[1]`,
      `conv[2]`, then `conv[3]` only on the expand branch and only when there
      is a fourth stage. */
  function AsWrittenIndices(hasExpand: bool, n: nat): seq<nat> {
    [0, 1, 2] + (if hasExpand && n > 3 then [3] else [])
  }

  /** The dispatch as written stays inside a `conv` of `n` stages: the
      indices ascend, so it is enough that the last one is in range
      (`DispatchDefinedMeans`, which also shows this amounts to `n >= 3`). */
  predicate DispatchDefined(hasExpand: bool, n: nat) {
    var ks := AsWrittenIndices(hasExpand, n);
    ks[|ks| - 1] < n
  }

  /** Every index the dispatch as written reads is a stage of `conv` exactly
      when `DispatchDefined` holds. */
  lemma DispatchDefinedMeans(hasExpand: bool, n: nat)
    ensures DispatchDefined(hasExpand, n) <==> forall k :: k in AsWrittenIndices(hasExpand, n) ==> k < n
    ensures DispatchDefined(hasExpand, n) <==> n >= 3
  {
    var ks := AsWrittenIndices(hasExpand, n);
    if !DispatchDefined(hasExpand, n) {
      assert ks[|ks| - 1] in ks;
    }
  }

  /** The evidently intended dispatch: every stage, in order. */
  function AllIndices(n: nat): (ks: seq<nat>)
    ensures |ks| == n && forall k :: 0 <= k < n ==> ks[k] == k
  {
    seq(n, k => k)
  }

  /** The entries a block of mode `iw` appends: one per convolution stage
      (2, or 3 with expansion) plus one for the final step, when the mode is 1
      or 2; none otherwise. */
  function BlockAppends(hasExpand: bool, iw: int): nat {
    if iw == 1 || iw == 2 then (if hasExpand then 3 else 2) + 1 else 0
  }

  class InvertedResidual {
    const cnf: InvertedResidualConfig
    const useResConnect: bool
    const iw: int
    const expandRatio: int
    const conv: seq<Stage>
    const instanceNormLayer: Whitening
    const outChannels: int
    const isCn: bool

    /** The invariant `__init__` establishes: the stages are the ones `Plan`
        describes, each well formed, the residual sum is used exactly for
        stride 1 with equal widths, and the final whitening layer is the one
        for the mode, never affine. */
    predicate Valid() {
      && Describes(conv, Plan(cnf, iw))
      && Runnable()
      && useResConnect == (cnf.stride == 1 && cnf.inputChannels == cnf.outChannels)
      && instanceNormLayer == WhiteningFor(iw, cnf.outChannels, false)
    }

    /** The part of `Valid` a forward pass relies on: well-formed stages, a
        whitening layer matching the mode, and the stage count. */
    predicate Runnable() {
      && (forall s :: s in conv ==> StageValid(s))
      && ModeMatches(iw, instanceNormLayer)
      && 2 <= |conv| <= 4
      && (cnf.expandedChannels != cnf.inputChannels ==> |conv| >= 3)
      && (cnf.expandedChannels == cnf.inputChannels ==> |conv| <= 3)
    }

    constructor (cnf: InvertedResidualConfig)
      requires 1 <= cnf.stride <= 2
      ensures Valid()
      ensures this.cnf == cnf && iw == cnf.iw
      ensures useResConnect == (cnf.stride == 1 && cnf.inputChannels == cnf.outChannels)
      ensures expandRatio == cnf.expandedChannels
      ensures instanceNormLayer == WhiteningFor(cnf.iw, cnf.outChannels, false)
      ensures outChannels == cnf.outChannels && isCn == (cnf.stride > 1)
    {
      var mode := cnf.iw;
      var layers := BuildStages(cnf, mode);
      PlanShape(cnf, mode);
      this.cnf := cnf;
      this.useResConnect := cnf.stride == 1 && cnf.inputChannels == cnf.outChannels;
      this.iw := mode;
      this.expandRatio := cnf.expandedChannels;
      this.instanceNormLayer := WhiteningFor(mode, cnf.outChannels, false);
      this.conv := layers;
      this.outChannels := cnf.outChannels;
      this.isCn := cnf.stride > 1;
    }

    /** The tensor after the stages and the residual sum, before the final
        whitening step. */
    function Residual(x: Tensor): Tensor
      requires Runnable()
    {
      var convX := RunStages(conv, x);
      if useResConnect then Sum(x, convX) else convX
    }

    function Output(x: Tensor): Tensor
      requires Runnable()
    {
      Whitened(iw, instanceNormLayer, Residual(x))
    }

    function Entries(x: Tensor): seq<Matrix>
      requires Runnable()
    {
      StagesEntries(conv, x) + WhiteningEntries(iw, instanceNormLayer, Residual(x))
    }

    /** `forward([x, w_arr])`, dispatching on the stage indices as written.
        When the dispatch stays inside `conv` it returns `[Output(x), w_arr]`
        with `Entries(x)` appended; otherwise the two stages that exist have
        run and appended before `conv[2]` raises IndexError. Any other arity
        returns `None` and touches nothing. */
    method Forward(xs: seq<Value>) returns (r: Forwarded)
      requires Runnable() && WellTyped(xs)
      modifies ListOf(xs)
      ensures |xs| != 2 ==> r == ReturnedNone
      ensures |xs| == 2 && DispatchDefined(cnf.expandedChannels != cnf.inputChannels, |conv|) ==>
                && r == Returned(Output(xs[0].t), xs[1].list)
                && xs[1].list.entries == old(xs[1].list.entries) + Entries(xs[0].t)
      ensures |xs| == 2 && !DispatchDefined(cnf.expandedChannels != cnf.inputChannels, |conv|) ==>
                && r == Raised(IndexError)
                && xs[1].list.entries == old(xs[1].list.entries) + StagesEntries(conv, xs[0].t)
    {
      if |xs| != 2 {
        return ReturnedNone;
      }
      var x := xs[0].t;
      var wArr := xs[1].list;
      var t, raised := RunConv(x, xs);
      if raised {
        return Raised(IndexError);
      }
      var convX := t[0].t;
      var y := if useResConnect then Sum(x, convX) else convX;
      y := WhiteningStep(iw, instanceNormLayer, y, wArr);
      r := Returned(y, wArr);
    }

    /** The dispatch of `forward` over `conv`, as written: `conv[0]` to
        `conv[2]`, and `conv[3]` on the expand branch when it exists; raises
        when `conv[2]` does not exist, after the stages before it ran. */
    method RunConv(ghost x0: Tensor, xs: seq<Value>) returns (ys: seq<Value>, raised: bool)
      requires Runnable()
      requires |xs| == 2 && xs[0] == TensorValue(x0) && xs[1].ListValue?
      modifies xs[1].list
      ensures raised <==> !DispatchDefined(cnf.expandedChannels != cnf.inputChannels, |conv|)
      ensures xs[1].list.entries == old(xs[1].list.entries) + StagesEntries(conv, x0)
      ensures !raised ==> ys == [TensorValue(RunStages(conv, x0)), xs[1]]
    {
      if cnf.expandedChannels != cnf.inputChannels {
        ys := RunExpandBranch(x0, xs);
        raised := false;
      } else {
        ys, raised := RunPlainBranch(x0, xs);
      }
    }

    /** The expand branch: `conv[0]`, `conv[1]`, `conv[2]`, and `conv[3]`
        when there is one; a block with expansion has at least three stages,
        so this branch never raises. */
    method RunExpandBranch(ghost x0: Tensor, xs: seq<Value>) returns (ys: seq<Value>)
      requires Runnable() && cnf.expandedChannels != cnf.inputChannels
      requires |xs| == 2 && xs[0] == TensorValue(x0) && xs[1].ListValue?
      modifies xs[1].list
      ensures DispatchDefined(true, |conv|)
      ensures xs[1].list.entries == old(xs[1].list.entries) + StagesEntries(conv, x0)
      ensures ys == [TensorValue(RunStages(conv, x0)), xs[1]]
    {
      ghost var before := xs[1].list.entries;
      assert conv[..0] == [];
      ys := RunStage(0, x0, before, xs);
      ys := RunStage(1, x0, before, ys);
      ys := RunStage(2, x0, before, ys);
      if |conv| > 3 {
        ys := RunStage(3, x0, before, ys);
      }
      assert conv[..|conv|] == conv;
    }

    /** The branch without expansion: `conv[0]` to `conv[2]`, which raises
        IndexError after the first two ran when there are only two stages. */
    method RunPlainBranch(ghost x0: Tensor, xs: seq<Value>) returns (ys: seq<Value>, raised: bool)
      requires Runnable() && cnf.expandedChannels == cnf.inputChannels
      requires |xs| == 2 && xs[0] == TensorValue(x0) && xs[1].ListValue?
      modifies xs[1].list
      ensures raised <==> !DispatchDefined(false, |conv|)
      ensures xs[1].list.entries == old(xs[1].list.entries) + StagesEntries(conv, x0)
      ensures !raised ==> ys == [TensorValue(RunStages(conv, x0)), xs[1]]
    {
      ghost var before := xs[1].list.entries;
      assert conv[..0] == [];
      ys := RunStage(0, x0, before, xs);
      ys := RunStage(1, x0, before, ys);
      if |conv| == 2 {
        assert conv[..2] == conv;
        assert AsWrittenIndices(false, |conv|)[2] == 2;
        return ys, true;
      }
      ys := RunStage(2, x0, before, ys);
      raised := false;
      assert conv[..|conv|] == conv;
    }

    /** Every stage of `conv` in order, each on the pair the previous one
        returned. */
    method RunEveryStage(ghost x0: Tensor, xs: seq<Value>) returns (ys: seq<Value>)
      requires Runnable()
      requires |xs| == 2 && xs[0] == TensorValue(x0) && xs[1].ListValue?
      modifies xs[1].list
      ensures xs[1].list.entries == old(xs[1].list.entries) + StagesEntries(conv, x0)
      ensures ys == [TensorValue(RunStages(conv, x0)), xs[1]]
    {
      ghost var before := xs[1].list.entries;
      assert conv[..0] == [];
      ys := xs;
      for k := 0 to |conv|
        invariant |ys| == 2 && ys[0] == TensorValue(RunStages(conv[..k], x0)) && ys[1] == xs[1]
        invariant xs[1].list.entries == before + StagesEntries(conv[..k], x0)
      {
        ys := RunStage(k, x0, before, ys);
      }
      assert conv[..|conv|] == conv;
    }

    /** Runs `conv[k]` on the pair left by stages `0..k-1`. */
    method RunStage(k: nat, ghost x0: Tensor, ghost before: seq<Matrix>, xs: seq<Value>)
      returns (ys: seq<Value>)
      requires Runnable() && k < |conv|
      requires |xs| == 2 && xs[0] == TensorValue(RunStages(conv[..k], x0)) && xs[1].ListValue?
      requires xs[1].list.entries == before + StagesEntries(conv[..k], x0)
      modifies xs[1].list
      ensures |ys| == 2 && ys[0] == TensorValue(RunStages(conv[..k + 1], x0)) && ys[1] == xs[1]
      ensures xs[1].list.entries == before + StagesEntries(conv[..k + 1], x0)
    {
      assert conv[..k + 1][..k] == conv[..k];
      assert conv[k] in conv;
      var r: Forwarded;
      match conv[k] {
        case CnaStage(c) =>
          r := c.Forward(xs);
        case SeStage(e) =>
          r := e.Forward(xs);
      }
      ys := r.AsArgs();
      AppendAssoc(before, StagesEntries(conv[..k], x0), StageEntries(conv[k], RunStages(conv[..k], x0)));
    }

    /** `forward` with the evidently intended dispatch: every stage of `conv`
        in order, whatever the block's shape. It never raises, and returns
        `[Output(x), w_arr]` with `Entries(x)` appended; where the dispatch as
        written is defined the two agree (`AsWrittenRunsEveryStage`). */
    method ForwardEveryStage(xs: seq<Value>) returns (r: Forwarded)
      requires Runnable() && WellTyped(xs)
      modifies ListOf(xs)
      ensures |xs| != 2 ==> r == ReturnedNone
      ensures |xs| == 2 ==>
                && r == Returned(Output(xs[0].t), xs[1].list)
                && xs[1].list.entries == old(xs[1].list.entries) + Entries(xs[0].t)
    {
      if |xs| != 2 {
        return ReturnedNone;
      }
      var x := xs[0].t;
      var wArr := xs[1].list;
      var ys := RunEveryStage(x, xs);
      var convX := ys[0].t;
      var y := if useResConnect then Sum(x, convX) else convX;
      y := WhiteningStep(iw, instanceNormLayer, y, wArr);
      r := Returned(y, wArr);
    }
  }

  /** The stages `__init__` appends to `layers`, in order, every
      convolution stage with mode `mode`. */
  method BuildStages(cnf: InvertedResidualConfig, mode: int) returns (layers: seq<Stage>)
    ensures Describes(layers, Plan(cnf, mode))
    ensures StagesValid(layers)
  {
    var act := if cnf.useHs then Hardswish else ReLU;
    var e := cnf.expandedChannels;
    layers := [];
    if e != cnf.inputChannels {
      var expand := NewCnaStage(cnf.inputChannels, e, 1, 1, 1, 1, Some(act), mode);
      Extend([], [], expand, ExpandPart(cnf, mode)[0]);
      layers := [expand];
    }
    var depthwise := NewCnaStage(e, e, cnf.kernel, DepthwiseStride(cnf.stride, cnf.dilation),
                                 e, cnf.dilation, Some(act), mode);
    Extend(layers, ExpandPart(cnf, mode), depthwise, DepthwiseSpec(cnf, mode));
    layers := layers + [depthwise];
    ghost var front := ExpandPart(cnf, mode) + [DepthwiseSpec(cnf, mode)];
    if cnf.useSe {
      var se := NewSeStage(e, SqueezeChannels(e), ReLU, Hardsigmoid);
      Extend(layers, front, se, SePart(cnf)[0]);
      layers := layers + [se];
    } else {
      assert front + SePart(cnf) == front;
    }
    var project := NewCnaStage(e, cnf.outChannels, 1, 1, 1, 1, None, mode);
    Extend(layers, front + SePart(cnf), project, ProjectSpec(cnf, mode));
    layers := layers + [project];
  }

  /** A `Conv2dNormActivation` stage, built with these arguments. */
  method NewCnaStage(inPlanes: int, outPlanes: int, kernelSize: int, stride: int, groups: int,
                     dilation: int, activation: Option<Activation>, iw: int) returns (s: Stage)
    ensures StageValid(s)
    ensures SpecOf(s) == CnaSpec(CnaLayers(inPlanes, outPlanes, kernelSize, stride, groups, dilation,
                                           activation, iw), iw)
  {
    var c := new ConvNormActivation(inPlanes, outPlanes, kernelSize, stride, groups, dilation, activation, iw);
    s := CnaStage(c);
  }

  /** A `SqueezeExcitation` stage, built with these arguments and `iw` left
      at its default 0. */
  method NewSeStage(inputChannels: int, squeezeChannels: int, activation: Activation,
                    scaleActivation: Activation) returns (s: Stage)
    ensures StageValid(s)
    ensures SpecOf(s) == SeSpec(inputChannels, squeezeChannels, activation, scaleActivation, 0)
  {
    var e := new SqueezeExcitation(inputChannels, squeezeChannels, activation, scaleActivation, 0);
    s := SeStage(e);
  }

  predicate StagesValid(ss: seq<Stage>) {
    forall s :: s in ss ==> StageValid(s)
  }

  lemma Extend(ss: seq<Stage>, ps: seq<StageSpec>, s: Stage, p: StageSpec)
    requires Describes(ss, ps) && StagesValid(ss)
    requires SpecOf(s) == p && StageValid(s)
    ensures Describes(ss + [s], ps + [p]) && StagesValid(ss + [s])
  {
    DescribesSnoc(ss, ps, s, p);
  }

  /** `InvertedResidual(cnf, norm_layer)`: a stride outside 1..2 raises
      ValueError before anything is built. */
  method NewInvertedResidual(cnf: InvertedResidualConfig) returns (r: Result<InvertedResidual>)
    ensures !(1 <= cnf.stride <= 2) ==> r == Err(ValueError("illegal stride value"))
    ensures 1 <= cnf.stride <= 2 ==> r.Ok?
    ensures r.Ok? ==> fresh(r.value) && r.value.Valid() && r.value.cnf == cnf && r.value.iw == cnf.iw
    ensures r.Ok? ==> r.value.useResConnect == (cnf.stride == 1 && cnf.inputChannels == cnf.outChannels)
  {
    if !(1 <= cnf.stride <= 2) {
      return Err(ValueError("illegal stride value"));
    }
    var b := new InvertedResidual(cnf);
    r := Ok(b);
  }

  /** The stages of a block are, in order: expand iff the expansion changes
      the width, depthwise with stride 1 under dilation, squeeze-excitation iff
      `use_se` with mode 0 and `_make_divisible(expanded // 4, 8)` channels,
      then project; every convolution stage carries the block's mode. */
  lemma {:induction false} PlanShape(cnf: InvertedResidualConfig, iw: int)
    ensures var p := Plan(cnf, iw);
            var hasExpand := cnf.expandedChannels != cnf.inputChannels;
            var d := if hasExpand then 1 else 0;
            && |p| == d + 2 + (if cnf.useSe then 1 else 0)
            && (forall k :: 0 <= k < |p| ==> (p[k].SeSpec? <==> cnf.useSe && k == d + 1))
            && (forall k :: 0 <= k < |p| && p[k].SeSpec? ==>
                  p[k].iw == 0 && p[k].squeezeChannels == SqueezeChannels(cnf.expandedChannels))
            && (forall k :: 0 <= k < |p| && p[k].CnaSpec? ==> p[k].iw == iw)
            && p[d].layers[0].stride == (if cnf.dilation > 1 then 1 else cnf.stride)
            && p[d].layers[0].groups == cnf.expandedChannels
            && (hasExpand ==> p[0].layers[0].outChannels == cnf.expandedChannels)
            && p[|p| - 1].layers[0].outChannels == cnf.outChannels
            && |p[|p| - 1].layers| == 3
  {
  }

  /** The dispatch as written indexes `conv[2]` on both branches, so it is
      defined exactly when the block has a third stage: with expansion, or
      with squeeze-excitation. */
  lemma {:induction false} DispatchDefinedIff(cnf: InvertedResidualConfig, iw: int)
    ensures DispatchDefined(cnf.expandedChannels != cnf.inputChannels, |Plan(cnf, iw)|)
            <==> (cnf.expandedChannels != cnf.inputChannels || cnf.useSe)
  {
    PlanShape(cnf, iw);
    var n := |Plan(cnf, iw)|;
    assert AsWrittenIndices(cnf.expandedChannels != cnf.inputChannels, n)[2] == 2;
  }

  /** Where the dispatch as written is defined it runs every stage once, in
      order, exactly as the intended dispatch does. */
  lemma {:induction false} AsWrittenRunsEveryStage(cnf: InvertedResidualConfig, iw: int)
    requires DispatchDefined(cnf.expandedChannels != cnf.inputChannels, |Plan(cnf, iw)|)
    ensures AsWrittenIndices(cnf.expandedChannels != cnf.inputChannels, |Plan(cnf, iw)|)
            == AllIndices(|Plan(cnf, iw)|)
  {
    PlanShape(cnf, iw);
    var hasExpand := cnf.expandedChannels != cnf.inputChannels;
    var n := |Plan(cnf, iw)|;
    assert AsWrittenIndices(hasExpand, n)[2] == 2;
    if hasExpand && n > 3 {
      assert AllIndices(n) == [0, 1, 2, 3];
    } else {
      assert AllIndices(n) == [0, 1, 2];
    }
  }

  /** The block without expansion and without squeeze-excitation has two
      stages, yet the dispatch as written asks for `conv[2]`. */
  lemma NoExpandNoSeRaises()
    ensures !DispatchDefined(false, 2)
    ensures AllIndices(2) == [0, 1]
  {
    assert AsWrittenIndices(false, 2)[2] == 2;
  }

  /** One more stage description adds its own count. */
  lemma {:induction false} PlanAppendsSnoc(ps: seq<StageSpec>, p: StageSpec)
    ensures PlanAppends(ps + [p]) == PlanAppends(ps) + SpecAppends(p)
  {
    assert (ps + [p])[..|ps|] == ps;
  }

  lemma {:induction false} PlanAppendsConcat(a: seq<StageSpec>, b: seq<StageSpec>)
    ensures PlanAppends(a + b) == PlanAppends(a) + PlanAppends(b)
    decreases |b|
  {
    if b == [] {
      assert a + b == a;
    } else {
      var b' := b[..|b| - 1];
      assert a + b == (a + b') + [b[|b| - 1]];
      PlanAppendsConcat(a, b');
    }
  }

  /** The stages append one entry for each stage described with mode 1 or 2,
      whatever the input. */
  lemma StagesEntriesCount(ss: seq<Stage>, ps: seq<StageSpec>, x: Tensor)
    requires forall s :: s in ss ==> StageValid(s)
    requires |ss| == |ps| && forall k :: 0 <= k < |ss| ==> SpecOf(ss[k]) == ps[k]
    ensures |StagesEntries(ss, x)| == PlanAppends(ps)
  {
    forall k, y | 0 <= k < |ss| ensures |StageEntries(ss[k], y)| == SpecAppends(ps[k]) {
      assert ss[k] in ss;
      StageEntriesCount(ss[k], y);
    }
    StagesSum(ss, ps, x);
  }

  lemma StageEntriesCount(s: Stage, x: Tensor)
    requires StageValid(s)
    ensures |StageEntries(s, x)| == SpecAppends(SpecOf(s))
  {
    match s
    case CnaStage(c) =>
      assert |c.Entries(x)| == ModeAppends(c.iw);
    case SeStage(e) =>
  }

  lemma {:induction false} StagesSum(ss: seq<Stage>, ps: seq<StageSpec>, x: Tensor)
    requires forall s :: s in ss ==> StageValid(s)
    requires |ss| == |ps|
    requires forall k, y :: 0 <= k < |ss| ==> |StageEntries(ss[k], y)| == SpecAppends(ps[k])
    ensures |StagesEntries(ss, x)| == PlanAppends(ps)
    decreases |ss|
  {
    if ss != [] {
      var n := |ss| - 1;
      StagesSum(ss[..n], ps[..n], x);
    }
  }

  lemma PlanAppendsSingle(p: StageSpec)
    ensures PlanAppends([p]) == SpecAppends(p)
  {
    assert [p][..0] == [];
  }

  /** The stages of a block of mode `iw` account for one entry per
      convolution stage when the mode is 1 or 2 (the squeeze-excitation stage
      is mode 0), and none otherwise. */
  lemma {:induction false} PlanAppendsOf(cnf: InvertedResidualConfig, iw: int)
    ensures PlanAppends(Plan(cnf, iw)) ==
              if iw == 1 || iw == 2 then (if cnf.expandedChannels != cnf.inputChannels then 3 else 2) else 0
  {
    var ex, dw, se, pr := ExpandPart(cnf, iw), DepthwiseSpec(cnf, iw), SePart(cnf), ProjectSpec(cnf, iw);
    PlanAppendsConcat(ex + [dw] + se, [pr]);
    PlanAppendsConcat(ex + [dw], se);
    PlanAppendsConcat(ex, [dw]);
    PlanAppendsSingle(dw);
    PlanAppendsSingle(pr);
    if ex != [] {
      PlanAppendsSingle(ex[0]);
    } else {
      assert PlanAppends(ex) == 0;
    }
    if se != [] {
      PlanAppendsSingle(se[0]);
    } else {
      assert PlanAppends(se) == 0;
    }
  }

  /** An `InvertedResidual` forward appends one entry per convolution stage
      plus one for its final step when its mode is 1 or 2, and nothing
      otherwise. */
  lemma {:induction false} BlockAppendCount(b: InvertedResidual, x: Tensor)
    requires b.Valid()
    ensures |b.Entries(x)| == BlockAppends(b.cnf.expandedChannels != b.cnf.inputChannels, b.iw)
  {
    StagesEntriesCount(b.conv, Plan(b.cnf, b.iw), x);
    PlanAppendsOf(b.cnf, b.iw);
  }
}
