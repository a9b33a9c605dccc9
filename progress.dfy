/** When the train and validate passes print a progress line. The train pass prints
    after batch idx when (idx + 1) % print_freq == 0, the validate pass when
    idx % print_freq == 0; a print_freq of 0 raises at the first batch. */
module Progress {
  import opened Runtime

  /** Whether the train pass prints after batch idx (counted from 0). */
  function TrainPrints(idx: nat, printFreq: int): (r: Result<bool>)
    ensures r.Raise? <==> printFreq == 0
    ensures r.Raise? ==> r.exception == ZeroDivision
    ensures r.Ok? ==> (r.value <==> (idx + 1) % printFreq == 0)
  {
    match Mod(idx + 1, printFreq)
    case Raise(e) => Raise(e)
    case Ok(m) => Ok(m == 0)
  }

  /** Whether the validate pass prints at batch idx (counted from 0). */
  function ValidatePrints(idx: nat, printFreq: int): (r: Result<bool>)
    ensures r.Raise? <==> printFreq == 0
    ensures r.Raise? ==> r.exception == ZeroDivision
    ensures r.Ok? ==> (r.value <==> idx % printFreq == 0)
    ensures idx == 0 && printFreq != 0 ==> r == Ok(true)
    ensures idx > 0 ==> r == TrainPrints(idx - 1, printFreq)
  {
    match Mod(idx, printFreq)
    case Raise(e) => Raise(e)
    case Ok(m) => Ok(m == 0)
  }

  /** The number of progress lines a pass over n batches prints, or the exception it
      raises at the first batch. */
  function TrainLines(n: nat, printFreq: int): Result<nat> {
    if n == 0 then Ok(0)
    else
      match TrainLines(n - 1, printFreq)
      case Raise(e) => Raise(e)
      case Ok(c) =>
        match TrainPrints(n - 1, printFreq)
        case Raise(e) => Raise(e)
        case Ok(b) => Ok(if b then c + 1 else c)
  }

  function ValidateLines(n: nat, printFreq: int): Result<nat> {
    if n == 0 then Ok(0)
    else
      match ValidateLines(n - 1, printFreq)
      case Raise(e) => Raise(e)
      case Ok(c) =>
        match ValidatePrints(n - 1, printFreq)
        case Raise(e) => Raise(e)
        case Ok(b) => Ok(if b then c + 1 else c)
  }

  function Abs(x: int): nat {
    if x < 0 then -x else x
  }

  lemma MulNonneg(a: int, b: int)
    requires a >= 0 && b >= 0
    ensures a * b >= 0
  {
  }

  /** Quotient and remainder are the unique q, r with n == p * q + r and 0 <= r < p. */
  lemma DivUnique(n: int, p: int, q: int, r: int)
    requires p > 0 && n == p * q + r && 0 <= r < p
    ensures n / p == q && n % p == r
  {
    var q', r' := n / p, n % p;
    assert n == p * q' + r' && 0 <= r' < p;
    assert q <= q' by {
      if q > q' {
        MulNonneg(p, q - q' - 1);
      }
    }
    assert q' <= q by {
      if q' > q {
        MulNonneg(p, q' - q - 1);
      }
    }
  }

  /** Divisibility does not depend on the divisor's sign. */
  lemma ModAbs(a: int, f: int)
    requires f != 0
    ensures a % f == a % Abs(f)
  {
    if f < 0 {
      assert a == Abs(f) * -(a / f) + a % f;
      DivUnique(a, Abs(f), -(a / f), a % f);
    }
  }

  /** Stepping from n - 1 to n batches adds one multiple of p exactly when p divides n. */
  lemma DivStep(n: nat, p: int)
    requires n >= 1 && p > 0
    ensures n / p == (n - 1) / p + (if n % p == 0 then 1 else 0)
  {
    var q, r := (n - 1) / p, (n - 1) % p;
    assert n - 1 == p * q + r && 0 <= r < p;
    if r == p - 1 {
      assert n == p * (q + 1) + 0;
      DivUnique(n, p, q + 1, 0);
    } else {
      assert n == p * q + (r + 1);
      DivUnique(n, p, q, r + 1);
    }
  }

  /** A train pass over n batches prints floor(n / |print_freq|) lines. */
  lemma {:induction false} TrainLineCount(n: nat, printFreq: int)
    requires printFreq != 0
    ensures TrainLines(n, printFreq) == Ok(n / Abs(printFreq))
  {
    if n > 0 {
      TrainLineCount(n - 1, printFreq);
      DivStep(n, Abs(printFreq));
      ModAbs(n, printFreq);
    }
  }

  /** A validate pass over n batches prints at batch 0 and then at every multiple of
      |print_freq|: ceil(n / |print_freq|) lines. */
  lemma {:induction false} ValidateLineCount(n: nat, printFreq: int)
    requires printFreq != 0
    ensures ValidateLines(n, printFreq) == Ok(if n == 0 then 0 else (n - 1) / Abs(printFreq) + 1)
  {
    if n > 1 {
      var p := Abs(printFreq);
      ValidateLineCount(n - 1, printFreq);
      assert ValidateLines(n - 1, printFreq) == Ok((n - 2) / p + 1);
      DivStep(n - 1, p);
      ModAbs(n - 1, printFreq);
      assert ValidatePrints(n - 1, printFreq) == Ok((n - 1) % p == 0);
    } else if n == 1 {
      assert ValidateLines(0, printFreq) == Ok(0);
    }
  }

  /** With print_freq 0 both passes raise as soon as there is a batch. */
  lemma {:induction false} ZeroFrequencyRaises(n: nat)
    requires n >= 1
    ensures TrainLines(n, 0) == Raise(ZeroDivision)
    ensures ValidateLines(n, 0) == Raise(ZeroDivision)
  {
    if n > 1 {
      ZeroFrequencyRaises(n - 1);
    }
  }

  /** A pass raises exactly when print_freq is 0 and there is a batch, and then it
      raises ZeroDivisionError. */
  lemma PassRaises(n: nat, printFreq: int)
    ensures TrainLines(n, printFreq).Raise? <==> printFreq == 0 && n >= 1
    ensures ValidateLines(n, printFreq).Raise? <==> printFreq == 0 && n >= 1
    ensures TrainLines(n, printFreq).Raise? ==> TrainLines(n, printFreq).exception == ZeroDivision
    ensures ValidateLines(n, printFreq).Raise? ==> ValidateLines(n, printFreq).exception == ZeroDivision
  {
    if printFreq != 0 {
      TrainLineCount(n, printFreq);
      ValidateLineCount(n, printFreq);
    } else if n >= 1 {
      ZeroFrequencyRaises(n);
    }
  }
}
