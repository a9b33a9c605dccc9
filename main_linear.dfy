/** The linear-probe entry point: parse_option (no batch-size override, no trial id),
    the "module." key rewrite set_model applies to a pre-trained state dict, and the
    epoch loop of main, which writes no checkpoints. */
module MainLinear {
  import opened Runtime
  import Strings
  import opened Options
  import opened Session
  import Progress

  /** '{dataset}_{model}_lr_{lr}_decay_{wd}_bsz_{bsz}', where `fmt` stands for Python's
      formatting of a float. */
  function BaseName(args: Args, fmt: real -> string): (name: string)
    ensures args.dataset + "_" + args.model + "_lr_" <= name
    ensures var bsz := "_bsz_" + Strings.IntToString(args.batchSize);
      |name| >= |bsz| && name[|name| - |bsz|..] == bsz
  {
    args.dataset + "_" + args.model + "_lr_" + fmt(args.learningRate) +
    "_decay_" + fmt(args.weightDecay) + "_bsz_" + Strings.IntToString(args.batchSize)
  }

  /** parse_option after argparse: the decay list, the warm-up fields when the flag asks
      for them, the model name and the class count, raising at the first of the three
      failures in the order the source meets them. `cosPi(a, b)` stands for
      math.cos(math.pi * a / b). */
  method ParseOption(args: Args, fmt: real -> string, cosPi: (int, int) -> real) returns (r: Result<RunConfig>)
    ensures r.Ok? <==>
      && DecayEpochs(args.lrDecayEpochs).Ok?
      && !(args.warm && args.cosine && args.epochs == 0)
      && NumClasses(args.dataset).Ok?
    ensures DecayEpochs(args.lrDecayEpochs).Raise? ==>
      r == Raise(DecayEpochs(args.lrDecayEpochs).exception)
    ensures DecayEpochs(args.lrDecayEpochs).Ok? ==>
      (args.warm && args.cosine && args.epochs == 0) ==>
      r == Raise(ZeroDivision)
    ensures DecayEpochs(args.lrDecayEpochs).Ok? ==>
      !(args.warm && args.cosine && args.epochs == 0) ==>
      NumClasses(args.dataset).Raise? ==>
      r == Raise(DatasetNotSupported(args.dataset))
    ensures r.Ok? ==> r.value.args == args
    ensures r.Ok? ==> r.value.lrDecayEpochs == DecayEpochs(args.lrDecayEpochs).value
    ensures r.Ok? ==> r.value.warm == args.warm
    ensures r.Ok? ==> (r.value.warmup.Some? <==> args.warm)
    ensures r.Ok? && args.warm ==>
      r.value.warmup == Some(WarmupSettings(args.cosine, args.learningRate, args.lrDecayRate, args.epochs, cosPi).value)
    ensures r.Ok? ==> r.value.modelName == BaseName(args, fmt) + Suffixes(args.cosine, args.warm)
    ensures r.Ok? ==> r.value.nCls == NumClasses(args.dataset).value
  {
    var lrDecayEpochs := ParseDecayEpochs(args.lrDecayEpochs);
    if lrDecayEpochs.Raise? {
      return Raise(lrDecayEpochs.exception);
    }
    var modelName := BaseName(args, fmt);
    if args.cosine {
      modelName := modelName + "_cosine";
    }
    var warmup: Option<Warmup> := None;
    if args.warm {
      modelName := modelName + "_warm";
      var settings := WarmupSettings(args.cosine, args.learningRate, args.lrDecayRate, args.epochs, cosPi);
      if settings.Raise? {
        return Raise(settings.exception);
      }
      warmup := Some(settings.value);
    }
    var nCls := NumClasses(args.dataset);
    if nCls.Raise? {
      return Raise(nCls.exception);
    }
    r := Ok(RunConfig(args, lrDecayEpochs.value, args.warm, warmup, modelName, nCls.value));
  }

  // ---------------------------------------------------------------------------
  // set_model: the state dict of the pre-trained encoder

  /** The wrapper torch.nn.DataParallel puts in front of every parameter name. */
  const ModulePrefix: string := "module."

  /** k.replace("module.", ""): a key is left unchanged exactly when it holds no
      "module.". */
  function StripModule(k: string): (r: string)
    ensures |r| <= |k|
    ensures r == k <==> !Strings.Contains(k, ModulePrefix)
  {
    Strings.RemoveUnchangedIff(k, ModulePrefix);
    Strings.Remove(k, ModulePrefix)
  }

  /** The dict built by assigning d[k] = v for each pair in order: a later pair with the
      same key overwrites an earlier one. */
  function ToDict<V>(items: seq<(string, V)>): (d: map<string, V>)
    ensures forall i :: 0 <= i < |items| ==> items[i].0 in d
  {
    if items == [] then map[]
    else ToDict(items[..|items| - 1])[items[|items| - 1].0 := items[|items| - 1].1]
  }

  /** The pairs of state_dict.items() with every key stripped, in the same order. */
  function StripKeys<V>(items: seq<(string, V)>): (r: seq<(string, V)>)
    ensures |r| == |items|
    ensures forall i :: 0 <= i < |items| ==> r[i] == (StripModule(items[i].0), items[i].1)
  {
    seq(|items|, i requires 0 <= i < |items| => (StripModule(items[i].0), items[i].1))
  }

  /** The loop that fills new_state_dict with k.replace("module.", "") -> v. */
  method StripStateDict<V>(stateDict: seq<(string, V)>) returns (newStateDict: map<string, V>)
    ensures newStateDict == ToDict(StripKeys(stateDict))
  {
    ghost var stripped := StripKeys(stateDict);
    newStateDict := map[];
    var i := 0;
    while i < |stateDict|
      invariant 0 <= i <= |stateDict|
      invariant newStateDict == ToDict(stripped[..i])
    {
      assert stripped[..i + 1][..i] == stripped[..i];
      var (k, v) := stateDict[i];
      k := StripModule(k);
      newStateDict := newStateDict[k := v];
      i := i + 1;
    }
    assert stripped[..i] == stripped;
  }

  /** Where the encoder runs: on the CPU, or on the given number of CUDA devices. */
  datatype Device = Cpu | Cuda(deviceCount: nat)

  /** The state dict set_model loads into the encoder: none on the CPU, the saved one
      as it is when the encoder is wrapped in DataParallel, and the stripped one on a
      single CUDA device. */
  method SetModel<V>(device: Device, stateDict: seq<(string, V)>) returns (loaded: Option<map<string, V>>)
    ensures device.Cpu? ==> loaded == None
    ensures device.Cuda? && device.deviceCount > 1 ==> loaded == Some(ToDict(stateDict))
    ensures device.Cuda? && device.deviceCount <= 1 ==> loaded == Some(ToDict(StripKeys(stateDict)))
  {
    if device.Cpu? {
      return None;
    }
    var sd := ToDict(stateDict);
    if device.deviceCount <= 1 {
      sd := StripStateDict(stateDict);
    }
    loaded := Some(sd);
  }

  /** Last write wins: a key's value in the dict is the value of the last pair carrying
      that key. */
  lemma {:induction false} ToDictLastWins<V>(items: seq<(string, V)>, i: int)
    requires 0 <= i < |items|
    requires forall j :: i < j < |items| ==> items[j].0 != items[i].0
    ensures ToDict(items)[items[i].0] == items[i].1
    decreases |items|
  {
    var n := |items| - 1;
    var init := items[..n];
    if i < n {
      assert init[i] == items[i];
      assert forall j :: i < j < n ==> init[j] == items[j];
      ToDictLastWins(init, i);
      assert items[n].0 != items[i].0;
      assert ToDict(items) == ToDict(init)[items[n].0 := items[n].1];
    }
  }

  /** The dict's keys are exactly the keys of the pairs. */
  lemma {:induction false} ToDictKeys<V>(items: seq<(string, V)>)
    ensures forall k :: k in ToDict(items) <==> exists i :: 0 <= i < |items| && items[i].0 == k
    decreases |items|
  {
    if items != [] {
      var n := |items| - 1;
      var init := items[..n];
      ToDictKeys(init);
      forall k | k in ToDict(items) ensures exists i :: 0 <= i < |items| && items[i].0 == k {
        if k != items[n].0 {
          assert ToDict(items) == ToDict(init)[items[n].0 := items[n].1];
          var i :| 0 <= i < n && init[i].0 == k;
          assert items[i].0 == k;
        } else {
          assert items[n].0 == k;
        }
      }
    }
  }

  /** Two saved keys that strip to the same name keep the value of the later one. */
  lemma StripCollision<V>(stateDict: seq<(string, V)>, i: int, j: int)
    requires 0 <= i < j < |stateDict|
    requires StripModule(stateDict[i].0) == StripModule(stateDict[j].0)
    requires forall l :: j < l < |stateDict| ==> StripModule(stateDict[l].0) != StripModule(stateDict[j].0)
    ensures ToDict(StripKeys(stateDict))[StripModule(stateDict[i].0)] == stateDict[j].1
  {
    ToDictLastWins(StripKeys(stateDict), j);
  }

  /** A state dict none of whose keys holds "module." is loaded as saved. */
  lemma StripKeysUnprefixed<V>(stateDict: seq<(string, V)>)
    requires forall i :: 0 <= i < |stateDict| ==> !Strings.Contains(stateDict[i].0, ModulePrefix)
    ensures StripKeys(stateDict) == stateDict
  {
    forall i | 0 <= i < |stateDict| ensures StripKeys(stateDict)[i] == stateDict[i] {
      assert StripModule(stateDict[i].0) == stateDict[i].0;
    }
  }

  /** The name DataParallel gives a parameter inside the encoder, 'encoder.module.conv1.weight'
      for 'encoder.conv1.weight', is stripped back to the plain name, provided neither
      part holds "module." of its own. */
  lemma StripDataParallelName(outer: string, inner: string)
    requires !Strings.Contains(outer, ModulePrefix) && !Strings.Contains(inner, ModulePrefix)
    ensures StripModule(outer + ModulePrefix + inner) == outer + inner
  {
    Strings.RemoveInfix(outer, ModulePrefix, inner);
  }

  /** The rewrite is one left-to-right pass: deleting an occurrence can bring a new one
      together, and that one stays. */
  lemma StripIsSinglePass()
    ensures StripModule("modmodule.ule.w") == "module.w"
  {
    assert "modmodule.ule.w" == "mod" + ModulePrefix + "ule.w";
    StripDataParallelName("mod", "ule.w");
  }

  // ---------------------------------------------------------------------------
  // The epoch loop

  /** main's training routine: epochs 1..opt.epochs, each a train pass and a validate
      pass whose results are appended to the histories, and a strict-improvement update
      of best_acc. No checkpoint is written. The loaders have trainBatches and
      valBatches batches; a print_freq of 0 raises in the first pass that has a batch. */
  method TrainingRun(opt: RunConfig, trainBatches: nat, valBatches: nat,
                     train: int -> PassResult, validate: int -> PassResult)
    returns (r: Result<Report>)
    ensures r.Raise? <==>
      opt.args.epochs >= 1 && opt.args.printFreq == 0 && (trainBatches >= 1 || valBatches >= 1)
    ensures r.Raise? ==> r.exception == ZeroDivision
    ensures r.Ok? ==> Records(r.value.history, EpochCount(opt.args.epochs), train, validate)
    ensures r.Ok? ==> r.value.bestAcc == BestAccuracy(r.value.history.valAcc)
    ensures r.Ok? ==> r.value.bestAcc >= 0.0
    ensures r.Ok? ==> forall i :: 0 <= i < |r.value.history.valAcc| ==> r.value.history.valAcc[i] <= r.value.bestAcc
    ensures r.Ok? ==> r.value.checkpoints == []
  {
    var bestAcc: real := 0.0;
    var trainLoss, trainAcc, valLoss, valAcc: seq<real> := [], [], [], [];
    var epoch := 1;
    Progress.PassRaises(trainBatches, opt.args.printFreq);
    Progress.PassRaises(valBatches, opt.args.printFreq);
    while epoch <= opt.args.epochs
      invariant 1 <= epoch <= EpochCount(opt.args.epochs) + 1
      invariant Records(History(trainLoss, trainAcc, valLoss, valAcc), epoch - 1, train, validate)
      invariant bestAcc == BestAccuracy(valAcc)
      invariant epoch > 1 ==> !(opt.args.printFreq == 0 && (trainBatches >= 1 || valBatches >= 1))
    {
      RecordsStep(History(trainLoss, trainAcc, valLoss, valAcc), epoch - 1, train, validate);
      var trainLines := Progress.TrainLines(trainBatches, opt.args.printFreq);
      if trainLines.Raise? {
        return Raise(trainLines.exception);
      }
      var t := train(epoch);
      trainLoss := trainLoss + [t.loss];
      trainAcc := trainAcc + [t.acc];
      var valLines := Progress.ValidateLines(valBatches, opt.args.printFreq);
      if valLines.Raise? {
        return Raise(valLines.exception);
      }
      var v := validate(epoch);
      BestStep(valAcc, v.acc);
      valAcc := valAcc + [v.acc];
      valLoss := valLoss + [v.loss];
      if v.acc > bestAcc {
        bestAcc := v.acc;
      }
      epoch := epoch + 1;
    }
    BestIsMaximum(valAcc);
    r := Ok(Report(History(trainLoss, trainAcc, valLoss, valAcc), bestAcc, []));
  }
}
