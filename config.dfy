/** `InvertedResidualConfig` and `_mobilenet_v3_conf`: the per-block
    configuration record and the fixed table of the small architecture. */
module Config {
  import opened Wrappers
  import opened Divisible

  /** One block's configuration. Channel counts are rounded by
      `adjust_channels` when the record is built and never recomputed; the
      whitening mode `iw` is the one field the network constructor overwrites
      in place, so it is the only mutable one. */
  class InvertedResidualConfig {
    const inputChannels: int
    const kernel: int
    const expandedChannels: int
    const outChannels: int
    const useSe: bool
    const useHs: bool
    const stride: int
    const dilation: int
    var iw: int

    constructor (inputChannels: int, kernel: int, expandedChannels: int, outChannels: int,
                 useSe: bool, activation: string, stride: int, dilation: int,
                 widthMult: real, iw: int)
      ensures this.inputChannels == AdjustChannels(inputChannels, widthMult)
      ensures this.expandedChannels == AdjustChannels(expandedChannels, widthMult)
      ensures this.outChannels == AdjustChannels(outChannels, widthMult)
      ensures this.kernel == kernel && this.useSe == useSe
      ensures this.useHs == (activation == "HS")
      ensures this.stride == stride && this.dilation == dilation
      ensures this.iw == iw
    {
      this.inputChannels := AdjustChannels(inputChannels, widthMult);
      this.kernel := kernel;
      this.expandedChannels := AdjustChannels(expandedChannels, widthMult);
      this.outChannels := AdjustChannels(outChannels, widthMult);
      this.useSe := useSe;
      this.useHs := activation == "HS";
      this.stride := stride;
      this.dilation := dilation;
      this.iw := iw;
    }
  }

  /** The raw arguments of one `bneck_conf(...)` call, before rounding. */
  datatype BneckArgs = BneckArgs(
    inputChannels: int, kernel: int, expandedChannels: int, outChannels: int,
    useSe: bool, activation: string, stride: int, dilation: int)

  const SmallArch: string := "mobilenet_v3_small"

  /** The eleven rows of the small architecture; `reducedTail` halves the
      channels of the last stage and `dilated` gives it dilation 2. */
  function SmallSetting(reducedTail: bool, dilated: bool): (rows: seq<BneckArgs>)
    ensures |rows| == 11
  {
    var rd := if reducedTail then 2 else 1;
    var dil := if dilated then 2 else 1;
    [ BneckArgs(16, 3, 16, 16, true, "RE", 2, 1),
      BneckArgs(16, 3, 72, 24, false, "RE", 2, 1),
      BneckArgs(24, 3, 88, 24, false, "RE", 1, 1),
      BneckArgs(24, 5, 96, 40, true, "HS", 2, 1),
      BneckArgs(40, 5, 240, 40, true, "HS", 1, 1),
      BneckArgs(40, 5, 240, 40, true, "HS", 1, 1),
      BneckArgs(40, 5, 120, 48, true, "HS", 1, 1),
      BneckArgs(48, 5, 144, 48, true, "HS", 1, 1),
      BneckArgs(48, 5, 288, 96 / rd, true, "HS", 2, dil),
      BneckArgs(96 / rd, 5, 576 / rd, 96 / rd, true, "HS", 1, dil),
      BneckArgs(96 / rd, 5, 576 / rd, 96 / rd, true, "HS", 1, dil) ]
  }

  /** The unrounded width of the classifier's hidden layer. */
  function SmallLastChannel(reducedTail: bool): int {
    1024 / (if reducedTail then 2 else 1)
  }

  /** The configuration `_mobilenet_v3_conf` builds from one row. */
  predicate Built(c: InvertedResidualConfig, a: BneckArgs, widthMult: real, iw: int)
    reads c
  {
    && ShapedBy(c, a, widthMult)
    && c.iw == iw
  }

  /** Every field `_mobilenet_v3_conf` sets from one row except the
      whitening mode, which `MobileNetV3.__init__` later overwrites. */
  predicate ShapedBy(c: InvertedResidualConfig, a: BneckArgs, widthMult: real) {
    && c.inputChannels == AdjustChannels(a.inputChannels, widthMult)
    && c.kernel == a.kernel
    && c.expandedChannels == AdjustChannels(a.expandedChannels, widthMult)
    && c.outChannels == AdjustChannels(a.outChannels, widthMult)
    && c.useSe == a.useSe
    && c.useHs == (a.activation == "HS")
    && c.stride == a.stride
    && c.dilation == a.dilation
  }

  /** `_mobilenet_v3_conf(arch, width_mult, iw, reduced_tail, dilated)`: fresh
      configurations for the eleven rows, all with whitening mode `iw`, and the
      rounded classifier width; any other architecture name is a ValueError. */
  method MobileNetV3Conf(arch: string, widthMult: real, iw: int, reducedTail: bool, dilated: bool)
    returns (r: Result<(seq<InvertedResidualConfig>, int)>)
    ensures arch != SmallArch ==> r == Err(ValueError("Unsupported model type " + arch))
    ensures arch == SmallArch ==> r.Ok?
    ensures r.Ok? ==>
              var rows := SmallSetting(reducedTail, dilated);
              && |r.value.0| == |rows|
              && (forall k :: 0 <= k < |rows| ==>
                    fresh(r.value.0[k]) && Built(r.value.0[k], rows[k], widthMult, iw))
              && r.value.1 == AdjustChannels(SmallLastChannel(reducedTail), widthMult)
  {
    if arch != SmallArch {
      return Err(ValueError("Unsupported model type " + arch));
    }
    var rows := SmallSetting(reducedTail, dilated);
    var setting: seq<InvertedResidualConfig> := [];
    for k := 0 to |rows|
      invariant |setting| == k
      invariant forall j :: 0 <= j < k ==> fresh(setting[j]) && Built(setting[j], rows[j], widthMult, iw)
    {
      var a := rows[k];
      var c := new InvertedResidualConfig(a.inputChannels, a.kernel, a.expandedChannels,
                                          a.outChannels, a.useSe, a.activation, a.stride,
                                          a.dilation, widthMult, iw);
      setting := setting + [c];
    }
    r := Ok((setting, AdjustChannels(SmallLastChannel(reducedTail), widthMult)));
  }

  predicate ChannelsRounded(a: BneckArgs) {
    && a.inputChannels >= 8 && a.inputChannels % 8 == 0
    && a.expandedChannels >= 8 && a.expandedChannels % 8 == 0
    && a.outChannels >= 8 && a.outChannels % 8 == 0
  }

  lemma AllRowsRounded(reducedTail: bool, dilated: bool)
    ensures forall k :: 0 <= k < 11 ==> ChannelsRounded(SmallSetting(reducedTail, dilated)[k])
  {
  }

  /** At width 1.0 every channel count of the table, with or without the
      reduced tail, is already a multiple of 8, so rounding leaves the whole
      table and the classifier width unchanged. */
  lemma {:induction false} SmallSettingAtUnitWidth(reducedTail: bool, dilated: bool)
    ensures var rows := SmallSetting(reducedTail, dilated);
            forall k :: 0 <= k < |rows| ==>
              && AdjustChannels(rows[k].inputChannels, 1.0) == rows[k].inputChannels
              && AdjustChannels(rows[k].expandedChannels, 1.0) == rows[k].expandedChannels
              && AdjustChannels(rows[k].outChannels, 1.0) == rows[k].outChannels
    ensures AdjustChannels(SmallLastChannel(reducedTail), 1.0) == SmallLastChannel(reducedTail)
  {
    var rows := SmallSetting(reducedTail, dilated);
    AllRowsRounded(reducedTail, dilated);
    forall k | 0 <= k < |rows|
      ensures && AdjustChannels(rows[k].inputChannels, 1.0) == rows[k].inputChannels
              && AdjustChannels(rows[k].expandedChannels, 1.0) == rows[k].expandedChannels
              && AdjustChannels(rows[k].outChannels, 1.0) == rows[k].outChannels
    {
      var a := rows[k];
      assert ChannelsRounded(a);
      AdjustChannelsProperties(a.inputChannels, 1.0);
      AdjustChannelsProperties(a.expandedChannels, 1.0);
      AdjustChannelsProperties(a.outChannels, 1.0);
    }
    AdjustChannelsProperties(SmallLastChannel(reducedTail), 1.0);
  }

  /** `reduced_tail` halves 96, 576 and 1024 in the last three rows and the
      classifier width, and changes nothing else. */
  lemma ReducedTailHalves(dilated: bool)
    ensures var full := SmallSetting(false, dilated);
            var reduced := SmallSetting(true, dilated);
            && reduced[..8] == full[..8]
            && reduced[8] == full[8].(outChannels := 48)
            && full[8].outChannels == 96
            && reduced[9] == full[9].(inputChannels := 48, expandedChannels := 288, outChannels := 48)
            && reduced[10] == full[10].(inputChannels := 48, expandedChannels := 288, outChannels := 48)
            && full[9].inputChannels == full[9].outChannels == 96 && full[9].expandedChannels == 576
            && full[10] == full[9]
    ensures SmallLastChannel(false) == 1024 && SmallLastChannel(true) == 512
  {
  }

  /** `dilated` sets dilation 2 on exactly the last three rows. */
  lemma DilatedLastThree(reducedTail: bool, dilated: bool)
    ensures var rows := SmallSetting(reducedTail, dilated);
            forall k :: 0 <= k < |rows| ==>
              rows[k].dilation == (if dilated && k >= 8 then 2 else 1)
  {
  }
}
