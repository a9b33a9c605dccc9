/** The bookkeeping both entry points keep across the epochs of a run: four learning
    curves and the best validation accuracy seen. The train and validate passes are
    oracles that report a mean loss and a mean accuracy for an epoch. */
module Session {

  /** What one train or validate pass returns: losses.avg and top1.avg. */
  datatype PassResult = PassResult(loss: real, acc: real)

  /** The four histories main appends to once per epoch. */
  datatype History = History(trainLoss: seq<real>, trainAcc: seq<real>, valLoss: seq<real>, valAcc: seq<real>)

  /** What the epoch loop leaves behind: the histories, best_acc, and the checkpoints
      written, as (file name, epoch) pairs in the order they were written. */
  datatype Checkpoint = Checkpoint(file: string, epoch: int)
  datatype Report = Report(history: History, bestAcc: real, checkpoints: seq<Checkpoint>)

  /** The number of epochs `range(1, epochs + 1)` runs. */
  function EpochCount(epochs: int): nat {
    if epochs < 0 then 0 else epochs
  }

  /** h holds the results of epochs 1..n, one entry per epoch in each history and in
      epoch order. */
  ghost predicate Records(h: History, n: nat, train: int -> PassResult, validate: int -> PassResult) {
    && |h.trainLoss| == n && |h.trainAcc| == n && |h.valLoss| == n && |h.valAcc| == n
    && (forall i :: 0 <= i < n ==> h.trainLoss[i] == train(i + 1).loss && h.trainAcc[i] == train(i + 1).acc)
    && (forall i :: 0 <= i < n ==> h.valLoss[i] == validate(i + 1).loss && h.valAcc[i] == validate(i + 1).acc)
  }

  /** Appending epoch n + 1's results to a record of epochs 1..n records epochs 1..n + 1. */
  lemma RecordsStep(h: History, n: nat, train: int -> PassResult, validate: int -> PassResult)
    requires Records(h, n, train, validate)
    ensures Records(
      History(h.trainLoss + [train(n + 1).loss], h.trainAcc + [train(n + 1).acc],
              h.valLoss + [validate(n + 1).loss], h.valAcc + [validate(n + 1).acc]),
      n + 1, train, validate)
  {
  }

  /** `if val_acc > best_acc: best_acc = val_acc`: only a strict improvement replaces the best. */
  function Improve(best: real, acc: real): (r: real)
    ensures r >= best && r >= acc
    ensures r != best ==> acc > best && r == acc
  {
    if acc > best then acc else best
  }

  /** best_acc after the updates for the given validation accuracies, starting from 0. */
  function BestAccuracy(accs: seq<real>): real {
    if accs == [] then 0.0 else Improve(BestAccuracy(accs[..|accs| - 1]), accs[|accs| - 1])
  }

  /** One more epoch applies one more update. */
  lemma BestStep(accs: seq<real>, acc: real)
    ensures BestAccuracy(accs + [acc]) == Improve(BestAccuracy(accs), acc)
  {
    assert (accs + [acc])[..|accs|] == accs;
  }

  /** best_acc ends as the maximum of 0 and all validation accuracies. */
  lemma {:induction false} BestIsMaximum(accs: seq<real>)
    ensures BestAccuracy(accs) >= 0.0
    ensures forall i :: 0 <= i < |accs| ==> accs[i] <= BestAccuracy(accs)
    ensures BestAccuracy(accs) == 0.0 || exists i :: 0 <= i < |accs| && accs[i] == BestAccuracy(accs)
    decreases |accs|
  {
    if accs != [] {
      var n := |accs| - 1;
      BestIsMaximum(accs[..n]);
      assert forall i :: 0 <= i < n ==> accs[..n][i] == accs[i];
      if BestAccuracy(accs) != BestAccuracy(accs[..n]) {
        assert accs[n] == BestAccuracy(accs);
      } else if BestAccuracy(accs) != 0.0 {
        var i :| 0 <= i < n && accs[..n][i] == BestAccuracy(accs[..n]);
        assert accs[i] == BestAccuracy(accs);
      }
    }
  }

  /** Later epochs never lower best_acc, and epochs that do not beat it leave it alone. */
  lemma {:induction false} BestAfterMore(accs: seq<real>, more: seq<real>)
    ensures BestAccuracy(accs) <= BestAccuracy(accs + more)
    ensures (forall i :: 0 <= i < |more| ==> more[i] <= BestAccuracy(accs)) ==>
      BestAccuracy(accs + more) == BestAccuracy(accs)
    decreases |more|
  {
    if more == [] {
      assert accs + more == accs;
    } else {
      var n := |more| - 1;
      assert (accs + more)[..|accs + more| - 1] == accs + more[..n];
      BestAfterMore(accs, more[..n]);
    }
  }
}
