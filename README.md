# SupCon training entry points, modelled in Dafny

This models the plain bookkeeping in the two training entry points of a supervised
contrastive learning repository:

- `main_ce.py` trains a ResNet with cross-entropy.
- `main_linear.py` trains a linear classifier on top of a pre-trained encoder.

The model covers three pieces of each file.

- **parse_option.** This turns the command-line options into a run configuration:
  - the comma-separated `lr_decay_epochs` string becomes a list of ints, through Python's `str.split` and `int()`;
  - warm-up is switched on by the flag, and in `main_ce.py` also by a batch size over 256;
  - the warm-up fields are `warmup_from`, `warm_epochs` and `warmup_to`;
  - the model name gets `_cosine` and `_warm` suffixes;
  - the dataset name maps to a class count.

  A failure raises the Python exception the source would raise, at the point the source would raise it. An int literal that `int()` rejects gives `ValueError`. A cosine warm-up with zero epochs gives `ZeroDivisionError`. An unknown dataset gives `ValueError`.
- **The epoch loop of `main`.** Epochs 1..E each run a train pass and a validate pass. These passes are oracles that map an epoch to a (loss, accuracy) pair. Each epoch appends to four histories. `best_acc` is updated only on a strict improvement, starting from 0. In `main_ce.py` only, the loop writes a checkpoint `ckpt_epoch_{epoch}.pth` every `save_freq` epochs, and a final `last.pth` tagged with `epochs`. A `save_freq` of 0 raises `ZeroDivisionError` at the first epoch.
- **The per-batch print cadence.** The train pass prints after batch `idx` when `(idx + 1) % print_freq == 0`. The validate pass prints when `idx % print_freq == 0`. Both files use these predicates, and the model computes how many lines a pass of n batches prints.

`main_linear.py` has one more piece: the `set_model` rewrite of a pre-trained state dict.
- On a single CUDA device, every key is rebuilt as `k.replace("module.", "")`, with later keys overwriting earlier ones.
- With several devices, the dict is loaded as saved.
- On the CPU, no state dict is loaded at all.

Modules:
- `Runtime`: the exceptions, `Option`/`Result`, and Python's floor `%`.
- `Strings`: Python's `str(int)`, `int(str)`, `split` on one character, `join`, and `replace(pat, "")`.
- `Options`: the derivations shared by both parse_option functions.
- `Session`: the histories and the best-accuracy fold.
- `Progress`: the print cadence.
- `MainCe` and `MainLinear`: each entry point's own parse_option, epoch loop and, for `MainLinear`, `set_model`.

Where the source is a loop that updates variables, the model is a method with a loop. This covers the decay-list loop, the epoch loops and the state-dict loop. Each method is proved against a function or a predicate, and the properties are proved about that function or predicate.

Three things are parameters rather than part of the model:
- Floats are Dafny `real`s.
- Python's formatting of a float inside the model name is a parameter `fmt`.
- `math.cos(math.pi * a / b)` is a parameter `cosPi(a, b)`.

## Model

| member | source | states |
|---|---|---|
| Runtime.Mod | main_ce.py:333 | Python's `a % b`: raises ZeroDivisionError exactly when b is 0; otherwise the result has b's sign, is less than b in magnitude, differs from a by a multiple of b, and is 0 exactly when b divides a |
| Strings.NatToString | main_ce.py:85-87 | `str(n)` of a non-negative int is a non-empty run of decimal digits with no leading zero |
| Strings.IntToString | main_ce.py:85-87 | `str(n)` is non-empty, all digits apart from a leading '-', ends in a digit, and starts with '-' exactly when n is negative |
| Strings.ParseInt | main_ce.py:83 | `int(s)` accepts only a literal that, once the surrounding white space is stripped, is non-empty and ends in a digit; a negative value comes from a literal starting with '-' |
| Strings.ParseIntRoundTrip | main_ce.py:83 | `int(str(n)) == n` for every int n |
| Strings.ParseIntIgnoresSpaces | main_ce.py:83 | `int()` gives the same result with any white space added before and after the literal, so a field like ' 75' parses as 75 |
| Strings.Split | main_ce.py:80 | `s.split(',')` has at least one field and no field holds the separator |
| Strings.JoinSplit | main_ce.py:80 | joining the fields of `s.split(c)` with c gives back s |
| Strings.SplitJoin | main_ce.py:80 | splitting c.join(fields) gives back the fields, when no field holds c |
| Strings.SplitCount | main_ce.py:80 | `s.split(c)` has one more field than s has occurrences of c |
| Strings.Remove | main_linear.py:137 | `s.replace(pat, "")` is never longer than s |
| Strings.RemoveUnchangedIff | main_linear.py:137 | `s.replace(pat, "")` is s exactly when pat does not occur in s |
| Strings.RemoveInfix | main_linear.py:137 | `(a + pat + b).replace(pat, "")` is a + b when pat occurs in neither a nor b and pat's first character does not recur in pat |
| Options.ParseFields | main_ce.py:82-83 | a built list has one entry per field; a failure is the ValueError of a rejected literal |
| Options.DecayEpochs | main_ce.py:80-83 | a built list has one entry more than the option has commas |
| Options.ParseDecayEpochs | main_ce.py:80-83 | the loop appending `int(it)` for every comma field computes the decay list or raises the first rejected field's ValueError; main_linear.py:82-85 runs the same loop |
| Options.ParseFieldsOk | main_ce.py:80-83 | the list is built exactly when int() accepts every field; it then has one entry per field, in field order, each that field's value |
| Options.ParseFieldsFirstError | main_ce.py:82-83 | a failed list raises ValueError naming a field int() rejects, all earlier fields being accepted |
| Options.RaiseIsFinal | main_ce.py:82-83 | once a field is rejected, later fields do not change what is raised |
| Options.DecayEpochsRoundTrip | main_ce.py:80-83 | a non-empty list of ints written with commas parses back to the same list |
| Options.ParseIntFields | main_ce.py:82-83 | int() of the str() of every entry gives back the entries |
| Options.CeDefaultDecayEpochs | main_ce.py:49 | the default '350,400,450' gives [350, 400, 450] |
| Options.LinearDefaultDecayEpochs | main_linear.py:51 | the default '60,75,90' gives [60, 75, 90] |
| Options.EmptyDecayEpochsRaise | main_ce.py:80-83 | an empty option is one empty field, and int('') raises ValueError |
| Options.WarmupSettings | main_ce.py:95-104 | warm-up sets warmup_from 0.01 and warm_epochs 10; without cosine warmup_to is the learning rate exactly; with cosine and 0 epochs the division raises ZeroDivisionError, and nothing else raises; main_linear.py:95-104 sets the same fields |
| Options.CosineWarmupTargetBounds | main_ce.py:99-102 | with cosine annealing, a decay rate in [0, 1] and a cosine in [-1, 1], warmup_to lies between eta_min and the learning rate; it is the learning rate when the cosine is 1 and eta_min when it is -1 |
| Options.Suffixes | main_ce.py:89-96 | the name suffix is `_cosine` when cosine is on, then `_warm` when warm-up is on, and nothing else; main_linear.py:91-96 appends the same suffixes |
| Options.NumClasses | main_ce.py:114-121 | 10 classes for cifar10 and mnist, 100 for cifar100, and ValueError naming the dataset for any other name; main_linear.py:110-117 is the same mapping |
| Session.RecordsStep | main_ce.py:322-328 | appending epoch n + 1's train and validate results to histories of epochs 1..n gives histories of epochs 1..n + 1 |
| Session.BestAccuracy | main_ce.py:295-331 | best_acc after the strict-improvement updates of main_ce.py:330-331, starting from the 0 of main_ce.py:295; its properties are stated by Session.BestStep and Session.BestIsMaximum |
| Session.BestStep | main_ce.py:330-331 | one more epoch applies exactly one more strict-improvement update to best_acc |
| Session.Improve | main_ce.py:330-331 | the best never decreases, covers the new accuracy, and changes only to a strictly larger accuracy |
| Session.BestIsMaximum | main_ce.py:330-331 | best_acc, starting from 0 with strict-improvement updates, is at least 0 and every validation accuracy, and is 0 or one of them: the maximum of 0 and all of them |
| Session.BestAfterMore | main_linear.py:282-283 | later epochs never lower best_acc, and epochs that do not beat it leave it unchanged |
| Progress.TrainPrints | main_ce.py:241 | the train pass prints after batch idx exactly when (idx + 1) % print_freq == 0, and raises ZeroDivisionError when print_freq is 0; main_linear.py:192 is the same test |
| Progress.ValidatePrints | main_ce.py:282 | the validate pass prints at batch idx exactly when idx % print_freq == 0, so always at the first batch; at idx > 0 it agrees with the train predicate at idx - 1; main_linear.py:234 is the same test |
| Progress.TrainLineCount | main_ce.py:212-241 | a train pass over n batches prints floor(n / abs(print_freq)) lines |
| Progress.ValidateLineCount | main_ce.py:264-282 | a validate pass over n batches prints ceil(n / abs(print_freq)) lines: 0 for no batch, else (n - 1) // abs(print_freq) + 1 |
| Progress.ZeroFrequencyRaises | main_ce.py:241 | with print_freq 0 both passes raise ZeroDivisionError once there is a batch |
| Progress.PassRaises | main_ce.py:241 | a train or validate pass over n batches raises exactly when print_freq is 0 and n is at least 1, and what it raises is ZeroDivisionError; main_linear.py:192 and main_linear.py:234 are the same tests |
| MainCe.BaseName | main_ce.py:85-87 | the cross-entropy model name starts with `SupCE_`, the dataset, the model and `_lr_`, and ends with `_trial_` and the trial |
| MainCe.ParseOption | main_ce.py:80-121 | succeeds exactly when the decay list parses, no cosine warm-up divides by zero epochs and the dataset is known, raising the first of those failures otherwise; a batch over 256 forces warm-up on, otherwise the flag stands; warm-up fields exist exactly when warm-up is on; the name is the SupCE base name, then `_cosine` if cosine, then `_warm` if warm-up |
| MainCe.CheckpointFile | main_ce.py:333-335 | a periodic checkpoint file is `ckpt_epoch_` then the epoch then `.pth`, and is never `last.pth` |
| MainCe.CheckpointFileInjective | main_ce.py:333-335 | different epochs get different checkpoint files |
| MainCe.PeriodicStep | main_ce.py:333-336 | one more epoch appends that epoch's checkpoint exactly when save_freq divides it, and appends nothing otherwise |
| MainCe.PeriodicSavesExactly | main_ce.py:333-336 | the checkpoints written epoch by epoch are one per epoch of 1..E that save_freq divides and no other, in increasing epoch order, each under its epoch's file name |
| MainCe.TrainingRun | main_ce.py:308-341 | raises ZeroDivisionError exactly when there is an epoch and either print_freq is 0 while a loader has a batch (main_ce.py:241, main_ce.py:282) or save_freq is 0; otherwise each history holds epochs 1..E in order, best_acc is the maximum of 0 and the validation accuracies, and the checkpoints are those written epoch by epoch at the epochs save_freq divides, then `last.pth` tagged with E |
| MainLinear.BaseName | main_linear.py:87-89 | the linear model name starts with the dataset, the model and `_lr_`, and ends with `_bsz_` and the batch size |
| MainLinear.ParseOption | main_linear.py:82-117 | as the cross-entropy parse_option, with warm-up on exactly when the flag is (no batch-size override) and the base name without prefix or trial |
| MainLinear.ToDict | main_linear.py:135-139 | every key assigned while filling the dict is in it |
| MainLinear.ToDictKeys | main_linear.py:135-139 | the dict's keys are exactly the keys assigned |
| MainLinear.ToDictLastWins | main_linear.py:136-138 | a key's value is the value of the last pair carrying that key |
| MainLinear.StripStateDict | main_linear.py:135-139 | the loop builds the dict that maps each `k.replace("module.", "")` to v, pairs taken in order |
| MainLinear.SetModel | main_linear.py:131-145 | no state dict is loaded on the CPU; with more than one CUDA device the saved dict is loaded as it is; on one device the stripped dict is loaded |
| MainLinear.StripCollision | main_linear.py:136-138 | two keys that strip to the same name end with the later key's value |
| MainLinear.StripModule | main_linear.py:137 | the rewritten key is never longer, and is the key itself exactly when the key holds no "module." |
| MainLinear.StripKeysUnprefixed | main_linear.py:135-139 | a state dict with no "module." in any key keeps every key and value |
| MainLinear.StripDataParallelName | main_linear.py:133-137 | the DataParallel name `outer + "module." + inner` is stripped back to `outer + inner` |
| MainLinear.StripIsSinglePass | main_linear.py:137 | the rewrite is a single left-to-right pass: "modmodule.ule.w" becomes "module.w", which still holds "module." |
| MainLinear.TrainingRun | main_linear.py:260-285 | raises ZeroDivisionError exactly when there is an epoch and print_freq is 0 while a loader has a batch (main_linear.py:192, main_linear.py:234); otherwise each history holds epochs 1..E in order, best_acc is the maximum of 0 and the validation accuracies, and no checkpoint is written |

## Left out

- The helpers imported from `util.py`: `AverageMeter`, `adjust_learning_rate`, `warmup_learning_rate`, `accuracy`, `set_optimizer` and `save_model`. `util.py` is not part of this model. A pass's mean loss and accuracy are oracle values, and a saved checkpoint is only its file name and epoch.
- Options.WarmupSettings: `math.cos` is the oracle `cosPi`. The rest of the cosine `warmup_to` formula is in the model, but in exact real arithmetic, without float rounding.
- Floating point in general: learning rates, decay rates, losses and accuracies are `real`. The text Python writes for a float in the model name is the parameter `fmt`. So argparse's integer default `weight_decay=0` in `main_linear.py`, printed as `0`, stays inside `fmt`.
- argparse itself: option parsing, defaults, types and `choices`. The model starts from the parsed values. Because of `choices`, argparse already rejects an unknown dataset, so that case of NumClasses is not reachable from the command line.
- Creating directories and joining paths: `os.makedirs`, `os.path.join`, `data_folder`, `model_path`, `pic_path`, `save_folder`, `pic_folder`. A checkpoint is named by its file name alone.
- `set_loader`: datasets, transforms and loaders.
- Model construction and device placement: `torch.load`, `DataParallel`, `.cuda()`, `load_state_dict`, and the forward, backward and optimizer steps. MainLinear.SetModel returns the dict that would be loaded. The device is an input.
- The model keeps no order for `new_state_dict`, only its contents. Python's dict order is not part of the model.
- MainCe.TrainingRun and MainLinear.TrainingRun: the oracles depend only on the epoch, and the number of batches in each loader is a fixed input. The state the passes carry from one epoch to the next (weights, optimizer) is not modelled.
- Timing, console output and flushing, apart from when a progress line is printed. The learning curves plotted with matplotlib, and the t-SNE and PCA embedding figures, are also left out.
- Strings.ParseInt, Strings.ParseIntIgnoresSpaces and Options.ParseFieldsOk: `int()` is modelled for ASCII digits, an optional sign, single underscores between digits, and the white space `int()` strips (the ASCII space, `\t` to `\r`, and the non-ASCII Unicode spaces). `int()` also accepts non-ASCII decimal digits, which the model does not (ParseInt rejects them).
- Strings.ParseInt and Strings.ParseIntRoundTrip: Python 3.11 and later refuse by default to convert between `int` and `str` beyond 4300 decimal digits (`sys.set_int_max_str_digits`), raising ValueError; the model has no digit limit, so ParseInt accepts literals of any length and the round trip is stated for every int, including those that Python would refuse.
- Strings.ParseIntIgnoresSpaces: the same 4300-digit limit is not modelled; a literal of more digits parses in the model where Python 3.11 and later raise ValueError.
