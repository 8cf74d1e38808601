/** The leaf modules of the network: `ConvNormActivation` and
    `SqueezeExcitation`, and the `[x, w_arr]` pair their `forward` methods
    thread.

    Tensors are symbolic: a `Tensor` records which layer was applied to which
    tensor, so a forward pass can be stated exactly without any numerics. The
    whitening accumulator `w_arr` is one Python list shared by reference by
    every module of a pass; here it is a `WhiteningList` object. */
module Layers {
  import opened Wrappers
  import opened Divisible

  datatype Activation = ReLU | Hardswish | Hardsigmoid

  /** The module behind `instance_norm_layer`: `InstanceWhitening` for modes
      1 and 2, `InstanceNorm2d` for modes 3 and 4, and an empty
      `nn.Sequential()` (the identity) for every other mode. */
  datatype Whitening =
    | InstanceWhitening(channels: int)
    | InstanceNorm(channels: int, affine: bool)
    | NoWhitening

  /** A child of a `ConvNormActivation`'s `nn.Sequential`, or a layer applied
      inside `SqueezeExcitation._scale`. */
  datatype Layer =
    | Conv2d(inChannels: int, outChannels: int, kernelSize: int, stride: int,
             padding: int, dilation: int, groups: int, bias: bool)
    | BatchNorm2d(features: int)
    | Act(activation: Activation)
    | AdaptiveAvgPool2d
    | Whiten(whitening: Whitening)

  datatype Tensor =
    | Input(id: nat)
    | Applied(layer: Layer, arg: Tensor)
    | Product(scale: Tensor, x: Tensor)
    | Sum(left: Tensor, right: Tensor)

  /** The auxiliary matrix `InstanceWhitening` returns beside the whitened
      tensor. */
  datatype Matrix = WhiteningMatrix(layer: Whitening, input: Tensor)

  /** The shared `w_arr` list: the only thing a forward pass mutates. */
  class WhiteningList {
    var entries: seq<Matrix>

    constructor ()
      ensures entries == []
    {
      entries := [];
    }

    method Append(m: Matrix)
      modifies this
      ensures entries == old(entries) + [m]
    {
      entries := entries + [m];
    }
  }

  /** An element of the Python list a `forward` receives. */
  datatype Value = TensorValue(t: Tensor) | ListValue(list: WhiteningList)

  /** What a `forward` does: return the pair `[x, w_arr]`, return `None` after
      an arity error, or raise. */
  datatype Forwarded =
    | Returned(x: Tensor, wArr: WhiteningList)
    | ReturnedNone
    | Raised(error: Error)
  {
    /** The returned pair as the list the next module receives. */
    function AsArgs(): seq<Value>
      requires Returned?
    {
      [TensorValue(x), ListValue(wArr)]
    }
  }

  /** What every caller passes: a pair, when it is one, holds a tensor and then
      the list (anything else would fail inside PyTorch). */
  predicate WellTyped(xs: seq<Value>) {
    |xs| == 2 ==> xs[0].TensorValue? && xs[1].ListValue?
  }

  /** The list a forward may append to. */
  function ListOf(xs: seq<Value>): set<WhiteningList> {
    if |xs| == 2 && xs[1].ListValue? then {xs[1].list} else {}
  }

  /** The `instance_norm_layer` each constructor builds for mode `iw`. Mode 4
      is affine in `ConvNormActivation` and `SqueezeExcitation` but not in
      `InvertedResidual`, hence the flag. */
  function WhiteningFor(iw: int, channels: int, affineMode4: bool): (w: Whitening)
    ensures w.InstanceWhitening? <==> iw == 1 || iw == 2
    ensures w.NoWhitening? <==> !(1 <= iw <= 4)
  {
    if iw == 1 || iw == 2 then InstanceWhitening(channels)
    else if iw == 3 then InstanceNorm(channels, false)
    else if iw == 4 then InstanceNorm(channels, affineMode4)
    else NoWhitening
  }

  /** The layer kind agrees with the mode, as every constructor arranges:
      whitening exactly for modes 1 and 2, the identity outside 1..4. */
  predicate ModeMatches(iw: int, w: Whitening) {
    && (w.InstanceWhitening? <==> iw == 1 || iw == 2)
    && (w.NoWhitening? <==> !(1 <= iw <= 4))
  }

  /** Applying `instance_norm_layer`; the empty `nn.Sequential` is the
      identity. */
  function Normalize(w: Whitening, x: Tensor): Tensor {
    if w.NoWhitening? then x else Applied(Whiten(w), x)
  }

  /** The tensor after the whitening step every forward ends with: skipped for
      modes below 1, otherwise `instance_norm_layer` applied. */
  function Whitened(iw: int, w: Whitening, x: Tensor): Tensor {
    if iw >= 1 then Normalize(w, x) else x
  }

  /** What the whitening step appends: the matrix, for modes 1 and 2 only. */
  function WhiteningEntries(iw: int, w: Whitening, x: Tensor): (ms: seq<Matrix>)
    ensures |ms| == ModeAppends(iw)
  {
    if iw == 1 || iw == 2 then [WhiteningMatrix(w, x)] else []
  }

  /** The number of entries a whitening step of mode `iw` appends. */
  function ModeAppends(iw: int): nat {
    if iw == 1 || iw == 2 then 1 else 0
  }

  /** The whitening step shared by the three `forward` methods: in modes 1 and
      2 the layer returns a pair whose matrix goes to `w_arr`; in modes 3 and up
      it returns a tensor; below 1 nothing is applied. */
  method WhiteningStep(iw: int, w: Whitening, x: Tensor, wArr: WhiteningList) returns (y: Tensor)
    requires ModeMatches(iw, w)
    modifies wArr
    ensures y == Whitened(iw, w, x)
    ensures wArr.entries == old(wArr.entries) + WhiteningEntries(iw, w, x)
  {
    y := x;
    if iw >= 1 {
      if iw == 1 || iw == 2 {
        y := Applied(Whiten(w), x);
        wArr.Append(WhiteningMatrix(w, x));
      } else {
        y := Normalize(w, x);
      }
    }
  }

  /** The layers a chain applies, in order: the result of applying `ls` to `x`. */
  function Run(ls: seq<Layer>, x: Tensor): Tensor {
    if ls == [] then x else Applied(ls[|ls| - 1], Run(ls[..|ls| - 1], x))
  }

  /** The children `ConvNormActivation.__init__` hands to `nn.Sequential`:
      convolution with padding `(kernel_size - 1) // 2` and no bias,
      BatchNorm, the activation when there is one, and the whitening layer. */
  function CnaLayers(inPlanes: int, outPlanes: int, kernelSize: int, stride: int, groups: int,
                     dilation: int, activation: Option<Activation>, iw: int): (ls: seq<Layer>)
    ensures |ls| == (if activation.Some? then 4 else 3)
    ensures ls[|ls| - 1] == Whiten(WhiteningFor(iw, outPlanes, true))
  {
    [Conv2d(inPlanes, outPlanes, kernelSize, stride, FloorDiv(kernelSize - 1, 2), dilation, groups, false),
     BatchNorm2d(outPlanes)]
    + (if activation.Some? then [Act(activation.value)] else [])
    + [Whiten(WhiteningFor(iw, outPlanes, true))]
  }

  /** What calling one layer gives back: a tensor, or the (tensor, matrix)
      pair `InstanceWhitening` returns. */
  datatype Out = TensorOut(t: Tensor) | PairOut(t: Tensor, m: Matrix)

  /** `module(v)` for one layer. The empty `nn.Sequential` hands back whatever
      it is given; `InstanceWhitening` returns a pair; every other layer
      returns a tensor; handed a pair, any layer but the empty one raises. */
  function CallLayer(l: Layer, v: Out): (r: Result<Out>)
    ensures l != Whiten(NoWhitening) && v.PairOut? ==> r == Err(LayerError)
    ensures v.TensorOut? && l.Whiten? && l.whitening.InstanceWhitening? ==>
              r == Ok(PairOut(Normalize(l.whitening, v.t), WhiteningMatrix(l.whitening, v.t)))
    ensures v.TensorOut? && !(l.Whiten? && l.whitening.InstanceWhitening?) ==>
              r == Ok(TensorOut(if l.Whiten? then Normalize(l.whitening, v.t) else Applied(l, v.t)))
  {
    if l == Whiten(NoWhitening) then Ok(v)
    else if v.PairOut? then Err(LayerError)
    else if l.Whiten? && l.whitening.InstanceWhitening? then
      Ok(PairOut(Applied(l, v.t), WhiteningMatrix(l.whitening, v.t)))
    else Ok(TensorOut(Applied(l, v.t)))
  }

  /** One more call on a value that may already have raised. */
  function Then(v: Result<Out>, l: Layer): Result<Out> {
    if v.Err? then v else CallLayer(l, v.value)
  }

  /** Convolution, normalisation, optional activation and, always last, a
      whitening stage. */
  class ConvNormActivation {
    const iw: int
    const layers: seq<Layer>
    const instanceNormLayer: Whitening
    /** The children the `nn.Sequential` iterates: `layers`, and then the
        whitening layer once more, which the attribute assignment
        `self.instance_norm_layer = ...` registers as a further child. */
    const children: seq<Layer>

    /** The invariant `__init__` establishes: the whitening layer for `iw` is
        the last of `layers` and the only whitening layer among them, and the
        registered children repeat it. */
    predicate Valid() {
      && |layers| >= 3
      && ModeMatches(iw, instanceNormLayer)
      && layers[|layers| - 1] == Whiten(instanceNormLayer)
      && (forall k :: 0 <= k < |layers| - 1 ==> !layers[k].Whiten?)
      && children == layers + [Whiten(instanceNormLayer)]
    }

    constructor (inPlanes: int, outPlanes: int, kernelSize: int, stride: int, groups: int,
                 dilation: int, activation: Option<Activation>, iw: int)
      ensures Valid()
      ensures this.iw == iw
      ensures instanceNormLayer == WhiteningFor(iw, outPlanes, true)
      ensures layers == CnaLayers(inPlanes, outPlanes, kernelSize, stride, groups, dilation, activation, iw)
      ensures children == layers + [Whiten(WhiteningFor(iw, outPlanes, true))]
    {
      this.iw := iw;
      var w := WhiteningFor(iw, outPlanes, true);
      this.instanceNormLayer := w;
      var ls := CnaLayers(inPlanes, outPlanes, kernelSize, stride, groups, dilation, activation, iw);
      this.layers := ls;
      this.children := ls + [Whiten(w)];
    }

    /** The tensor a forward over `layers` returns for input `x`: every child
        but the last applied in order, then the whitening step. */
    function Output(x: Tensor): Tensor
      requires Valid()
    {
      Whitened(iw, instanceNormLayer, Run(layers[..|layers| - 1], x))
    }

    /** The entries a forward over `layers` appends for input `x`. */
    function Entries(x: Tensor): seq<Matrix>
      requires Valid()
    {
      WhiteningEntries(iw, instanceNormLayer, Run(layers[..|layers| - 1], x))
    }

    /** The tensor `forward` as written returns outside modes 1 and 2: the
        whitening layer applied once as an ordinary child, then again by the
        whitening step. */
    function OutputAsWritten(x: Tensor): Tensor
      requires Valid()
    {
      Whitened(iw, instanceNormLayer, Normalize(instanceNormLayer, Run(layers[..|layers| - 1], x)))
    }

    /** `forward([x, w_arr])` over `layers`, each applied once, the whitening
        step last: returns `[Output(x), w_arr]` with `Entries(x)` appended to
        the same list; any other arity returns `None` and touches nothing. */
    method Forward(xs: seq<Value>) returns (r: Forwarded)
      requires Valid() && WellTyped(xs)
      modifies ListOf(xs)
      ensures |xs| != 2 ==> r == ReturnedNone
      ensures |xs| == 2 ==>
                && r == Returned(Output(xs[0].t), xs[1].list)
                && xs[1].list.entries == old(xs[1].list.entries) + Entries(xs[0].t)
    {
      if |xs| != 2 {
        return ReturnedNone;
      }
      var wArr := xs[1].list;
      var x := xs[0].t;
      ghost var x0 := x;
      var n := |layers|;
      for i := 0 to n
        invariant i < n ==> x == Run(layers[..i], x0) && wArr.entries == old(wArr.entries)
        invariant i == n ==> x == Output(x0) && wArr.entries == old(wArr.entries) + Entries(x0)
      {
        if i == n - 1 {
          assert layers[..i] == layers[..n - 1];
          x := WhiteningStep(iw, instanceNormLayer, x, wArr);
        } else {
          assert layers[..i + 1][..i] == layers[..i];
          x := Applied(layers[i], x);
        }
      }
      r := Returned(x, wArr);
    }

    /** `forward([x, w_arr])` as written: it iterates the registered
        `children`, so the whitening layer is called once as an ordinary child
        and once more by the whitening step. In modes 1 and 2 that second call
        is handed the pair the first returned and raises before anything is
        appended; modes 3 and 4 normalise twice; no mode appends. */
    method ForwardAsWritten(xs: seq<Value>) returns (r: Forwarded)
      requires Valid() && WellTyped(xs)
      modifies ListOf(xs)
      ensures |xs| != 2 ==> r == ReturnedNone
      ensures |xs| == 2 ==> xs[1].list.entries == old(xs[1].list.entries)
      ensures |xs| == 2 && (iw == 1 || iw == 2) ==> r == Raised(LayerError)
      ensures |xs| == 2 && !(iw == 1 || iw == 2) ==> r == Returned(OutputAsWritten(xs[0].t), xs[1].list)
    {
      if |xs| != 2 {
        return ReturnedNone;
      }
      var wArr := xs[1].list;
      var x := xs[0].t;
      var n := |children|;
      var v: Result<Out> := Ok(TensorOut(x));
      for i := 0 to n
        invariant i <= n - 2 ==> v == Ok(TensorOut(Run(layers[..i], x)))
        invariant i == n - 1 ==> v == CallLayer(Whiten(instanceNormLayer), TensorOut(Run(layers[..n - 2], x)))
        invariant i == n ==> v == AsWrittenResult(x)
      {
        if i == n - 1 {
          if iw >= 1 {
            // `x, w = ...` in modes 1 and 2, `x = ...` otherwise: either way
            // the call comes first, and in modes 1 and 2 it raises.
            v := Then(v, children[i]);
          }
        } else {
          assert layers[..i + 1][..i] == layers[..i];
          v := Then(v, children[i]);
        }
      }
      AsWrittenResultMeans(x);
      match v {
        case Err(e) => r := Raised(e);
        case Ok(TensorOut(t)) => r := Returned(t, wArr);
      }
    }

    /** The value the loop of `ForwardAsWritten` ends with. */
    function AsWrittenResult(x: Tensor): Result<Out>
      requires Valid()
    {
      var v := CallLayer(Whiten(instanceNormLayer), TensorOut(Run(layers[..|layers| - 1], x)));
      if iw >= 1 then Then(v, Whiten(instanceNormLayer)) else v
    }

    /** The value raises exactly in modes 1 and 2, and otherwise holds
        `OutputAsWritten`. */
    lemma AsWrittenResultMeans(x: Tensor)
      requires Valid()
      ensures iw == 1 || iw == 2 ==> AsWrittenResult(x) == Err(LayerError)
      ensures !(iw == 1 || iw == 2) ==> AsWrittenResult(x) == Ok(TensorOut(OutputAsWritten(x)))
    {
    }
  }

  /** Channel attention: the input scaled by a gate computed from it. */
  class SqueezeExcitation {
    const inputChannels: int
    const squeezeChannels: int
    const activation: Activation
    const scaleActivation: Activation
    const iw: int
    const instanceNormLayer: Whitening

    predicate Valid() {
      instanceNormLayer == WhiteningFor(iw, squeezeChannels, true)
    }

    constructor (inputChannels: int, squeezeChannels: int, activation: Activation,
                 scaleActivation: Activation, iw: int)
      ensures Valid()
      ensures this.inputChannels == inputChannels && this.squeezeChannels == squeezeChannels
      ensures this.activation == activation && this.scaleActivation == scaleActivation
      ensures this.iw == iw
    {
      this.inputChannels := inputChannels;
      this.squeezeChannels := squeezeChannels;
      this.activation := activation;
      this.scaleActivation := scaleActivation;
      this.iw := iw;
      this.instanceNormLayer := WhiteningFor(iw, squeezeChannels, true);
    }

    /** The layers `_scale` applies before `instance_norm_layer`: pooling and
        the two 1x1 convolutions around the activation. */
    function Squeeze(x: Tensor): Tensor {
      Run([AdaptiveAvgPool2d,
           Conv2d(inputChannels, squeezeChannels, 1, 1, 0, 1, 1, true),
           Act(activation),
           Conv2d(squeezeChannels, inputChannels, 1, 1, 0, 1, 1, true)], x)
    }

    /** `_scale(x)`: the squeeze, `instance_norm_layer`, then the gating
        activation. In modes 1 and 2 the gating activation is handed the pair
        `InstanceWhitening` returns, and raises. */
    function Scale(x: Tensor): (r: Result<Out>)
      requires Valid()
      ensures r.Err? <==> iw == 1 || iw == 2
      ensures r.Err? ==> r.error == LayerError
      ensures r.Ok? ==> r.value == TensorOut(Applied(Act(scaleActivation), Normalize(instanceNormLayer, Squeeze(x))))
    {
      Then(CallLayer(Whiten(instanceNormLayer), TensorOut(Squeeze(x))), Act(scaleActivation))
    }

    /** What a forward that does not raise returns for input `x`: `x` scaled
        by the gate, the gate normalised a second time in modes 3 and 4. */
    function Output(x: Tensor): Tensor
      requires Valid()
    {
      Product(Whitened(iw, instanceNormLayer,
                       Applied(Act(scaleActivation), Normalize(instanceNormLayer, Squeeze(x)))), x)
    }

    /** `forward([x, w_arr])`: raises in modes 1 and 2, where `_scale` does,
        and otherwise returns `[Output(x), w_arr]`; no mode appends; any other
        arity returns `None`. */
    method Forward(xs: seq<Value>) returns (r: Forwarded)
      requires Valid() && WellTyped(xs)
      modifies ListOf(xs)
      ensures |xs| != 2 ==> r == ReturnedNone
      ensures |xs| == 2 ==> xs[1].list.entries == old(xs[1].list.entries)
      ensures |xs| == 2 && (iw == 1 || iw == 2) ==> r == Raised(LayerError)
      ensures |xs| == 2 && !(iw == 1 || iw == 2) ==> r == Returned(Output(xs[0].t), xs[1].list)
    {
      if |xs| != 2 {
        return ReturnedNone;
      }
      var x := xs[0].t;
      var wArr := xs[1].list;
      match Scale(x) {
        case Err(e) => r := Raised(e);
        case Ok(TensorOut(scale)) =>
          // Modes 1 and 2 raised inside `_scale`: only the tensor branch of
          // the whitening step is reachable.
          var s := if iw >= 1 then Normalize(instanceNormLayer, scale) else scale;
          r := Returned(Product(s, x), wArr);
      }
    }
  }

  /** Applying a chain one layer longer applies its last layer to the
      shorter chain's result. */
  lemma {:induction false} RunSnoc(ls: seq<Layer>, l: Layer, x: Tensor)
    ensures Run(ls + [l], x) == Applied(l, Run(ls, x))
  {
    assert (ls + [l])[..|ls|] == ls;
  }

  /** Appending in two steps is appending the two parts at once. */
  lemma AppendAssoc(a: seq<Matrix>, b: seq<Matrix>, c: seq<Matrix>)
    ensures (a + b) + c == a + (b + c)
  {
  }

  /** A `ConvNormActivation` forward appends exactly one entry when its mode
      is 1 or 2 and none otherwise, whatever the input. */
  lemma CnaAppendCount(c: ConvNormActivation, x: Tensor)
    requires c.Valid()
    ensures |c.Entries(x)| == (if c.iw == 1 || c.iw == 2 then 1 else 0)
  {
  }

  /** Outside modes 1 to 4 the whitening layer is the identity, so `forward`
      as written returns what a forward over `layers` returns, and neither
      appends. */
  lemma AsWrittenAgreesWithoutWhitening(c: ConvNormActivation, x: Tensor)
    requires c.Valid() && !(1 <= c.iw <= 4)
    ensures c.OutputAsWritten(x) == c.Output(x)
    ensures c.Entries(x) == []
  {
  }

  /** In modes 3 and 4 `forward` as written applies `instance_norm_layer`
      once more to the result of a forward over `layers`; as terms, the two
      results differ. */
  lemma AsWrittenNormalisesTwice(c: ConvNormActivation, x: Tensor)
    requires c.Valid() && 3 <= c.iw <= 4
    ensures c.OutputAsWritten(x) == Normalize(c.instanceNormLayer, c.Output(x))
    ensures c.OutputAsWritten(x) != c.Output(x)
  {
  }

  /** The convolution-normalisation pipeline applies convolution, then
      normalisation, then the activation if any, and whitens last. */
  lemma {:induction false} CnaPipeline(inPlanes: int, outPlanes: int, kernelSize: int, stride: int,
                                       groups: int, dilation: int, activation: Option<Activation>,
                                       iw: int, x: Tensor)
    ensures var ls := CnaLayers(inPlanes, outPlanes, kernelSize, stride, groups, dilation, activation, iw);
            var conv := Conv2d(inPlanes, outPlanes, kernelSize, stride, FloorDiv(kernelSize - 1, 2),
                               dilation, groups, false);
            var normed := Applied(BatchNorm2d(outPlanes), Applied(conv, x));
            Run(ls[..|ls| - 1], x) ==
              (if activation.Some? then Applied(Act(activation.value), normed) else normed)
  {
    var ls := CnaLayers(inPlanes, outPlanes, kernelSize, stride, groups, dilation, activation, iw);
    var conv := Conv2d(inPlanes, outPlanes, kernelSize, stride, FloorDiv(kernelSize - 1, 2),
                       dilation, groups, false);
    if activation.Some? {
      assert ls[..|ls| - 1] == [conv, BatchNorm2d(outPlanes)] + [Act(activation.value)];
      RunSnoc([conv, BatchNorm2d(outPlanes)], Act(activation.value), x);
    } else {
      assert ls[..|ls| - 1] == [conv, BatchNorm2d(outPlanes)];
    }
    RunSnoc([conv], BatchNorm2d(outPlanes), x);
    assert [conv] + [BatchNorm2d(outPlanes)] == [conv, BatchNorm2d(outPlanes)];
    RunSnoc([], conv, x);
    assert [] + [conv] == [conv];
  }
}
