/** The supervised cross-entropy entry point: parse_option, and the epoch loop of main,
    which also writes a checkpoint every save_freq epochs and a last one at the end. */
module MainCe {
  import opened Runtime
  import Strings
  import opened Options
  import opened Session
  import Progress

  /** Batches larger than this turn warm-up on whatever the flag says. */
  const LargeBatch: int := 256

  /** 'SupCE_{dataset}_{model}_lr_{lr}_decay_{wd}_bsz_{bsz}_trial_{trial}', where `fmt`
      stands for Python's formatting of a float. */
  function BaseName(args: Args, fmt: real -> string): (name: string)
    ensures "SupCE_" + args.dataset + "_" + args.model + "_lr_" <= name
    ensures |name| >= |args.trial| + 7 && name[|name| - |args.trial| - 7..] == "_trial_" + args.trial
  {
    "SupCE_" + args.dataset + "_" + args.model + "_lr_" + fmt(args.learningRate) +
    "_decay_" + fmt(args.weightDecay) + "_bsz_" + Strings.IntToString(args.batchSize) +
    "_trial_" + args.trial
  }

  /** parse_option after argparse: the decay list, the warm-up decision (a batch over 256
      forces it), the warm-up fields, the model name and the class count, raising at the
      first of the three failures in the order the source meets them. `cosPi(a, b)`
      stands for math.cos(math.pi * a / b). */
  method ParseOption(args: Args, fmt: real -> string, cosPi: (int, int) -> real) returns (r: Result<RunConfig>)
    ensures r.Ok? <==>
      && DecayEpochs(args.lrDecayEpochs).Ok?
      && !((args.warm || args.batchSize > LargeBatch) && args.cosine && args.epochs == 0)
      && NumClasses(args.dataset).Ok?
    ensures DecayEpochs(args.lrDecayEpochs).Raise? ==>
      r == Raise(DecayEpochs(args.lrDecayEpochs).exception)
    ensures DecayEpochs(args.lrDecayEpochs).Ok? ==>
      ((args.warm || args.batchSize > LargeBatch) && args.cosine && args.epochs == 0) ==>
      r == Raise(ZeroDivision)
    ensures DecayEpochs(args.lrDecayEpochs).Ok? ==>
      !((args.warm || args.batchSize > LargeBatch) && args.cosine && args.epochs == 0) ==>
      NumClasses(args.dataset).Raise? ==>
      r == Raise(DatasetNotSupported(args.dataset))
    ensures r.Ok? ==> r.value.args == args
    ensures r.Ok? ==> r.value.lrDecayEpochs == DecayEpochs(args.lrDecayEpochs).value
    ensures r.Ok? ==> r.value.warm == (args.warm || args.batchSize > LargeBatch)
    ensures r.Ok? ==> (r.value.warmup.Some? <==> r.value.warm)
    ensures r.Ok? && r.value.warm ==>
      r.value.warmup == Some(WarmupSettings(args.cosine, args.learningRate, args.lrDecayRate, args.epochs, cosPi).value)
    ensures r.Ok? ==> r.value.modelName == BaseName(args, fmt) + Suffixes(args.cosine, r.value.warm)
    ensures r.Ok? ==> r.value.nCls == NumClasses(args.dataset).value
  {
    var lrDecayEpochs := ParseDecayEpochs(args.lrDecayEpochs);
    if lrDecayEpochs.Raise? {
      return Raise(lrDecayEpochs.exception);
    }
    var modelName := BaseName(args, fmt);
    if args.cosine {
      modelName := modelName + "_cosine";
    }
    var warm := args.warm;
    if args.batchSize > LargeBatch {
      warm := true;
    }
    var warmup: Option<Warmup> := None;
    if warm {
      modelName := modelName + "_warm";
      var settings := WarmupSettings(args.cosine, args.learningRate, args.lrDecayRate, args.epochs, cosPi);
      if settings.Raise? {
        return Raise(settings.exception);
      }
      warmup := Some(settings.value);
    }
    var nCls := NumClasses(args.dataset);
    if nCls.Raise? {
      return Raise(nCls.exception);
    }
    r := Ok(RunConfig(args, lrDecayEpochs.value, warm, warmup, modelName, nCls.value));
  }

  // ---------------------------------------------------------------------------
  // The epoch loop

  /** 'ckpt_epoch_{epoch}.pth'. */
  function CheckpointFile(epoch: int): (file: string)
    ensures |file| > 15 && file[..11] == "ckpt_epoch_" && file[|file| - 4..] == ".pth"
    ensures file != LastFile
  {
    "ckpt_epoch_" + Strings.IntToString(epoch) + ".pth"
  }

  const LastFile: string := "last.pth"

  /** Different epochs write different files, so no periodic checkpoint overwrites
      another. */
  lemma CheckpointFileInjective(e1: int, e2: int)
    ensures CheckpointFile(e1) == CheckpointFile(e2) ==> e1 == e2
  {
    var f1, f2 := CheckpointFile(e1), CheckpointFile(e2);
    if f1 == f2 {
      assert f1[11..|f1| - 4] == Strings.IntToString(e1);
      assert f2[11..|f2| - 4] == Strings.IntToString(e2);
      Strings.ParseIntRoundTrip(e1);
      Strings.ParseIntRoundTrip(e2);
    }
  }

  /** `epoch % save_freq == 0` without raising: save_freq is not 0 and divides epoch
      (the floor remainder Python computes is 0 exactly when Dafny's is). */
  predicate IsSaveEpoch(epoch: int, saveFreq: int) {
    saveFreq != 0 && epoch % saveFreq == 0
  }

  /** The periodic checkpoints written by the end of epoch `last`: those of epoch
      last - 1, then this epoch's file when save_freq divides it. */
  ghost predicate PeriodicUpTo(saved: seq<Checkpoint>, last: int, saveFreq: int)
    decreases last
  {
    if last <= 0 then saved == []
    else if IsSaveEpoch(last, saveFreq) then
      && |saved| > 0
      && saved[|saved| - 1] == Checkpoint(CheckpointFile(last), last)
      && PeriodicUpTo(saved[..|saved| - 1], last - 1, saveFreq)
    else PeriodicUpTo(saved, last - 1, saveFreq)
  }

  /** One more epoch appends that epoch's checkpoint exactly when save_freq divides it. */
  lemma PeriodicStep(saved: seq<Checkpoint>, epoch: int, saveFreq: int)
    requires epoch >= 1 && PeriodicUpTo(saved, epoch - 1, saveFreq)
    ensures IsSaveEpoch(epoch, saveFreq) ==>
      PeriodicUpTo(saved + [Checkpoint(CheckpointFile(epoch), epoch)], epoch, saveFreq)
    ensures !IsSaveEpoch(epoch, saveFreq) ==> PeriodicUpTo(saved, epoch, saveFreq)
  {
    var next := saved + [Checkpoint(CheckpointFile(epoch), epoch)];
    assert next[..|next| - 1] == saved;
  }

  /** Every entry of `saved` is a checkpoint of an epoch of 1..last that save_freq
      divides, under that epoch's file name. */
  ghost predicate SavedInRange(saved: seq<Checkpoint>, last: int, saveFreq: int) {
    forall k :: 0 <= k < |saved| ==>
      && 1 <= saved[k].epoch <= last
      && IsSaveEpoch(saved[k].epoch, saveFreq)
      && saved[k].file == CheckpointFile(saved[k].epoch)
  }

  /** The entries of `saved` are in strictly increasing epoch order. */
  ghost predicate SavedIncreasing(saved: seq<Checkpoint>) {
    forall k, l :: 0 <= k < l < |saved| ==> saved[k].epoch < saved[l].epoch
  }

  /** Every epoch of 1..last that save_freq divides has an entry in `saved`. */
  ghost predicate SavedCovers(saved: seq<Checkpoint>, last: int, saveFreq: int) {
    forall e :: 1 <= e <= last && IsSaveEpoch(e, saveFreq) ==>
      exists k :: 0 <= k < |saved| && saved[k].epoch == e
  }

  /** `saved` holds, in increasing epoch order, one checkpoint for each epoch of 1..last
      that save_freq divides and no other, each under its epoch's file name. */
  ghost predicate SavedExactly(saved: seq<Checkpoint>, last: int, saveFreq: int) {
    SavedInRange(saved, last, saveFreq) && SavedIncreasing(saved) && SavedCovers(saved, last, saveFreq)
  }

  lemma {:induction false} PeriodicInRange(saved: seq<Checkpoint>, last: int, saveFreq: int)
    requires PeriodicUpTo(saved, last, saveFreq)
    ensures SavedInRange(saved, last, saveFreq) && SavedIncreasing(saved)
    decreases last
  {
    if last > 0 {
      if IsSaveEpoch(last, saveFreq) {
        var n := |saved| - 1;
        var init := saved[..n];
        PeriodicInRange(init, last - 1, saveFreq);
        assert saved == init + [saved[n]];
        forall k | 0 <= k < |saved|
          ensures 1 <= saved[k].epoch <= last
          ensures IsSaveEpoch(saved[k].epoch, saveFreq)
          ensures saved[k].file == CheckpointFile(saved[k].epoch)
        {
          if k < n {
            assert saved[k] == init[k];
          }
        }
        forall k, l | 0 <= k < l < |saved|
          ensures saved[k].epoch < saved[l].epoch
        {
          assert saved[k] == init[k];
          if l < n {
            assert saved[l] == init[l];
          }
        }
      } else {
        PeriodicInRange(saved, last - 1, saveFreq);
      }
    }
  }

  lemma {:induction false} PeriodicCovers(saved: seq<Checkpoint>, last: int, saveFreq: int)
    requires PeriodicUpTo(saved, last, saveFreq)
    ensures SavedCovers(saved, last, saveFreq)
    decreases last
  {
    if last > 0 {
      if IsSaveEpoch(last, saveFreq) {
        var n := |saved| - 1;
        var init := saved[..n];
        PeriodicCovers(init, last - 1, saveFreq);
        forall e | 1 <= e <= last && IsSaveEpoch(e, saveFreq)
          ensures exists k :: 0 <= k < |saved| && saved[k].epoch == e
        {
          if e == last {
            assert saved[n].epoch == e;
          } else {
            var k :| 0 <= k < n && init[k].epoch == e;
            assert saved[k].epoch == e;
          }
        }
      } else {
        PeriodicCovers(saved, last - 1, saveFreq);
      }
    }
  }

  /** The checkpoints written epoch by epoch are exactly one per epoch save_freq
      divides, in epoch order. */
  lemma PeriodicSavesExactly(saved: seq<Checkpoint>, last: int, saveFreq: int)
    requires PeriodicUpTo(saved, last, saveFreq)
    ensures SavedExactly(saved, last, saveFreq)
  {
    PeriodicInRange(saved, last, saveFreq);
    PeriodicCovers(saved, last, saveFreq);
  }

  /** The checkpoints of a whole run: the periodic ones, then last.pth tagged with
      opt.epochs. */
  ghost predicate SavedRun(ckpts: seq<Checkpoint>, epochs: int, saveFreq: int) {
    && |ckpts| >= 1
    && ckpts[|ckpts| - 1] == Checkpoint(LastFile, epochs)
    && PeriodicUpTo(ckpts[..|ckpts| - 1], epochs, saveFreq)
  }

  /** Whether a pass of the run raises in its print test: print_freq is 0 and the train
      or the validate loader has a batch. */
  predicate PrintRaises(opt: RunConfig, trainBatches: nat, valBatches: nat) {
    opt.args.printFreq == 0 && (trainBatches >= 1 || valBatches >= 1)
  }

  /** main's training routine: epochs 1..opt.epochs, each a train pass and a validate
      pass whose results are appended to the histories, a strict-improvement update
      of best_acc and, at multiples of save_freq, a checkpoint. The loaders have
      trainBatches and valBatches batches; a print_freq of 0 raises in the first pass
      that has a batch, and a save_freq of 0 raises at the end of the first epoch. */
  method TrainingRun(opt: RunConfig, trainBatches: nat, valBatches: nat,
                     train: int -> PassResult, validate: int -> PassResult)
    returns (r: Result<Report>)
    ensures r.Raise? <==>
      opt.args.epochs >= 1 && (PrintRaises(opt, trainBatches, valBatches) || opt.args.saveFreq == 0)
    ensures r.Raise? ==> r.exception == ZeroDivision
    ensures r.Ok? ==> Records(r.value.history, EpochCount(opt.args.epochs), train, validate)
    ensures r.Ok? ==> r.value.bestAcc == BestAccuracy(r.value.history.valAcc)
    ensures r.Ok? ==> r.value.bestAcc >= 0.0
    ensures r.Ok? ==> forall i :: 0 <= i < |r.value.history.valAcc| ==> r.value.history.valAcc[i] <= r.value.bestAcc
    ensures r.Ok? ==> SavedRun(r.value.checkpoints, opt.args.epochs, opt.args.saveFreq)
  {
    var bestAcc: real := 0.0;
    var trainLoss, trainAcc, valLoss, valAcc: seq<real> := [], [], [], [];
    var saved: seq<Checkpoint> := [];
    var epoch := 1;
    Progress.PassRaises(trainBatches, opt.args.printFreq);
    Progress.PassRaises(valBatches, opt.args.printFreq);
    while epoch <= opt.args.epochs
      invariant 1 <= epoch <= EpochCount(opt.args.epochs) + 1
      invariant epoch > 1 ==> !PrintRaises(opt, trainBatches, valBatches) && opt.args.saveFreq != 0
      invariant Records(History(trainLoss, trainAcc, valLoss, valAcc), epoch - 1, train, validate)
      invariant bestAcc == BestAccuracy(valAcc)
      invariant PeriodicUpTo(saved, epoch - 1, opt.args.saveFreq)
    {
      RecordsStep(History(trainLoss, trainAcc, valLoss, valAcc), epoch - 1, train, validate);
      var trainLines := Progress.TrainLines(trainBatches, opt.args.printFreq);
      if trainLines.Raise? {
        return Raise(trainLines.exception);
      }
      var t := train(epoch);
      trainLoss := trainLoss + [t.loss];
      trainAcc := trainAcc + [t.acc];
      var valLines := Progress.ValidateLines(valBatches, opt.args.printFreq);
      if valLines.Raise? {
        return Raise(valLines.exception);
      }
      var v := validate(epoch);
      BestStep(valAcc, v.acc);
      valAcc := valAcc + [v.acc];
      valLoss := valLoss + [v.loss];
      if v.acc > bestAcc {
        bestAcc := v.acc;
      }
      var m := Mod(epoch, opt.args.saveFreq);
      if m.Raise? {
        return Raise(m.exception);
      }
      PeriodicStep(saved, epoch, opt.args.saveFreq);
      if m.value == 0 {
        saved := saved + [Checkpoint(CheckpointFile(epoch), epoch)];
      }
      epoch := epoch + 1;
    }
    BestIsMaximum(valAcc);
    if opt.args.epochs >= 1 {
      assert epoch == opt.args.epochs + 1;
    }
    var ckpts := saved + [Checkpoint(LastFile, opt.args.epochs)];
    assert ckpts[..|ckpts| - 1] == saved;
    r := Ok(Report(History(trainLoss, trainAcc, valLoss, valAcc), bestAcc, ckpts));
  }
}
