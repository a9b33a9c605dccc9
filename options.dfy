/** The run configuration that parse_option derives from the command line, shared by
    the cross-entropy entry point (main_ce.py) and the linear-probe entry point
    (main_linear.py): the decay-epoch list, the warm-up fields and the class count. */
module Options {
  import opened Runtime
  import Strings

  /** The options as argparse hands them over, before parse_option derives anything.
      `trial` exists only in main_ce.py and `ckpt` only in main_linear.py. */
  datatype Args = Args(
    printFreq: int,
    saveFreq: int,
    batchSize: int,
    epochs: int,
    learningRate: real,
    lrDecayEpochs: string,
    lrDecayRate: real,
    weightDecay: real,
    momentum: real,
    model: string,
    dataset: string,
    cosine: bool,
    warm: bool,
    trial: string,
    ckpt: string)

  /** opt.warmup_from, opt.warm_epochs and opt.warmup_to; set only when warm-up is on. */
  datatype Warmup = Warmup(warmupFrom: real, warmEpochs: int, warmupTo: real)

  /** The options after parse_option: the arguments plus what it derives from them. */
  datatype RunConfig = RunConfig(
    args: Args,
    lrDecayEpochs: seq<int>,
    warm: bool,
    warmup: Option<Warmup>,
    modelName: string,
    nCls: nat)

  // ---------------------------------------------------------------------------
  // lr_decay_epochs: '350,400,450' -> [350, 400, 450]

  /** int() applied to each field in order; the first field int() rejects is raised. */
  function ParseFields(fields: seq<string>): (r: Result<seq<int>>)
    ensures r.Ok? ==> |r.value| == |fields|
    ensures r.Raise? ==> r.exception.InvalidIntLiteral?
  {
    if fields == [] then Ok([])
    else
      match ParseFields(fields[..|fields| - 1])
      case Raise(e) => Raise(e)
      case Ok(xs) =>
        match Strings.ParseInt(fields[|fields| - 1])
        case None => Raise(InvalidIntLiteral(fields[|fields| - 1]))
        case Some(x) => Ok(xs + [x])
  }

  /** The decay-epoch list parse_option builds from the comma-separated option. */
  function DecayEpochs(text: string): (r: Result<seq<int>>)
    ensures r.Ok? ==> |r.value| == multiset(text)[','] + 1
  {
    Strings.SplitCount(text, ',');
    ParseFields(Strings.Split(text, ','))
  }

  /** The loop of parse_option that appends int(it) for every comma field. */
  method ParseDecayEpochs(text: string) returns (r: Result<seq<int>>)
    ensures r == DecayEpochs(text)
  {
    var iterations := Strings.Split(text, ',');
    var decayEpochs: seq<int> := [];
    var i := 0;
    while i < |iterations|
      invariant 0 <= i <= |iterations|
      invariant ParseFields(iterations[..i]) == Ok(decayEpochs)
    {
      assert iterations[..i + 1][..i] == iterations[..i];
      var it := Strings.ParseInt(iterations[i]);
      if it.None? {
        RaiseIsFinal(iterations, i + 1);
        return Raise(InvalidIntLiteral(iterations[i]));
      }
      decayEpochs := decayEpochs + [it.value];
      i := i + 1;
    }
    assert iterations[..i] == iterations;
    r := Ok(decayEpochs);
  }

  /** Once a field fails, the failure is what the whole list raises. */
  lemma {:induction false} RaiseIsFinal(fields: seq<string>, n: nat)
    requires 0 < n <= |fields|
    requires ParseFields(fields[..n]).Raise?
    ensures ParseFields(fields) == ParseFields(fields[..n])
    decreases |fields| - n
  {
    if n == |fields| {
      assert fields[..n] == fields;
    } else {
      assert fields[..n + 1][..n] == fields[..n];
      RaiseIsFinal(fields, n + 1);
    }
  }

  /** The parsed list exists exactly when int() takes every field, and then it has
      one entry per field, in field order. */
  lemma {:induction false} ParseFieldsOk(fields: seq<string>)
    ensures ParseFields(fields).Ok? <==> forall k :: 0 <= k < |fields| ==> Strings.ParseInt(fields[k]).Some?
    ensures ParseFields(fields).Ok? ==>
      && |ParseFields(fields).value| == |fields|
      && forall k :: 0 <= k < |fields| ==> ParseFields(fields).value[k] == Strings.ParseInt(fields[k]).value
    decreases |fields|
  {
    if fields != [] {
      var n := |fields| - 1;
      var init := fields[..n];
      ParseFieldsOk(init);
      assert forall k :: 0 <= k < n ==> init[k] == fields[k];
    }
  }

  /** When the list is not parsed, what is raised names the first field int() rejects. */
  lemma {:induction false} ParseFieldsFirstError(fields: seq<string>)
    ensures ParseFields(fields).Raise? ==>
      exists k :: 0 <= k < |fields| && Strings.ParseInt(fields[k]).None?
        && ParseFields(fields).exception == InvalidIntLiteral(fields[k])
        && forall j :: 0 <= j < k ==> Strings.ParseInt(fields[j]).Some?
    decreases |fields|
  {
    if fields != [] {
      var n := |fields| - 1;
      var init := fields[..n];
      ParseFieldsFirstError(init);
      assert forall k :: 0 <= k < n ==> init[k] == fields[k];
      if ParseFields(init).Raise? {
        var k :| 0 <= k < n && Strings.ParseInt(init[k]).None?
          && ParseFields(init).exception == InvalidIntLiteral(init[k])
          && forall j :: 0 <= j < k ==> Strings.ParseInt(init[j]).Some?;
        assert Strings.ParseInt(fields[k]).None?;
      } else if Strings.ParseInt(fields[n]).None? {
        ParseFieldsOk(init);
      }
    }
  }

  /** The list of ints written out with commas parses back to the same list. */
  lemma DecayEpochsRoundTrip(xs: seq<int>)
    requires |xs| > 0
    ensures DecayEpochs(Strings.Join(IntFields(xs), ',')) == Ok(xs)
  {
    var fields := IntFields(xs);
    forall k | 0 <= k < |fields| ensures ',' !in fields[k] {
      assert fields[k] == Strings.IntToString(xs[k]);
    }
    Strings.SplitJoin(fields, ',');
    ParseIntFields(xs);
  }

  lemma ParseIntFields(xs: seq<int>)
    ensures ParseFields(IntFields(xs)) == Ok(xs)
  {
    var fields := IntFields(xs);
    forall k | 0 <= k < |xs| ensures Strings.ParseInt(fields[k]) == Some(xs[k]) {
      Strings.ParseIntRoundTrip(xs[k]);
    }
    ParseFieldsOk(fields);
    assert ParseFields(fields).value == xs;
  }

  /** str() of every int, for writing a decay list back out. */
  function IntFields(xs: seq<int>): (fields: seq<string>)
    ensures |fields| == |xs|
    ensures forall k :: 0 <= k < |xs| ==> fields[k] == Strings.IntToString(xs[k])
  {
    seq(|xs|, k requires 0 <= k < |xs| => Strings.IntToString(xs[k]))
  }

  /** The fields str() gives for main_ce.py's default epochs. */
  lemma CeDefaultFields()
    ensures IntFields([350, 400, 450]) == ["350", "400", "450"]
  {
    var fields := IntFields([350, 400, 450]);
    assert fields[0] == "350" by { assert Strings.NatToString(3) == "3"; assert Strings.NatToString(35) == "35"; }
    assert fields[1] == "400" by { assert Strings.NatToString(4) == "4"; assert Strings.NatToString(40) == "40"; }
    assert fields[2] == "450" by { assert Strings.NatToString(4) == "4"; assert Strings.NatToString(45) == "45"; }
  }

  /** The default of main_ce.py, '350,400,450'. */
  lemma CeDefaultDecayEpochs()
    ensures DecayEpochs("350,400,450") == Ok([350, 400, 450])
  {
    CeDefaultFields();
    var fields := ["350", "400", "450"];
    assert Strings.Join(["400", "450"], ',') == "400,450" by {
      assert ["400", "450"][1..] == ["450"];
    }
    assert Strings.Join(fields, ',') == "350,400,450" by {
      assert fields[1..] == ["400", "450"];
    }
    DecayEpochsRoundTrip([350, 400, 450]);
  }

  /** The fields str() gives for main_linear.py's default epochs. */
  lemma LinearDefaultFields()
    ensures IntFields([60, 75, 90]) == ["60", "75", "90"]
  {
    var fields := IntFields([60, 75, 90]);
    assert fields[0] == "60" by { assert Strings.NatToString(6) == "6"; }
    assert fields[1] == "75" by { assert Strings.NatToString(7) == "7"; }
    assert fields[2] == "90" by { assert Strings.NatToString(9) == "9"; }
  }

  /** The default of main_linear.py, '60,75,90'. */
  lemma LinearDefaultDecayEpochs()
    ensures DecayEpochs("60,75,90") == Ok([60, 75, 90])
  {
    LinearDefaultFields();
    var fields := ["60", "75", "90"];
    assert Strings.Join(["75", "90"], ',') == "75,90" by {
      assert ["75", "90"][1..] == ["90"];
    }
    assert Strings.Join(fields, ',') == "60,75,90" by {
      assert fields[1..] == ["75", "90"];
    }
    DecayEpochsRoundTrip([60, 75, 90]);
  }

  /** An empty option is one empty field, which int() rejects. */
  lemma EmptyDecayEpochsRaise()
    ensures DecayEpochs("") == Raise(InvalidIntLiteral(""))
  {
    assert Strings.Split("", ',') == [""];
    assert Strings.ParseInt("").None? by {
      assert Strings.Strip("") == "";
    }
  }

  // ---------------------------------------------------------------------------
  // Warm-up fields

  const WarmupFromRate: real := 0.01
  const WarmupEpochCount: int := 10

  /** eta_min = learning_rate * lr_decay_rate ** 3, the floor of the cosine schedule. */
  function EtaMin(lr: real, decayRate: real): real {
    lr * (decayRate * decayRate * decayRate)
  }

  /** The warm-up fields parse_option sets once warm-up is on. With cosine annealing
      the target is the cosine schedule's rate at the end of warm-up, where
      `cosPi(a, b)` stands for math.cos(math.pi * a / b), and the division by the epoch
      count raises when there are no epochs; otherwise the target is the base rate. */
  function WarmupSettings(cosine: bool, lr: real, decayRate: real, epochs: int,
                          cosPi: (int, int) -> real): (r: Result<Warmup>)
    ensures r.Raise? <==> cosine && epochs == 0
    ensures r.Raise? ==> r.exception == ZeroDivision
    ensures r.Ok? ==> r.value.warmupFrom == 0.01 && r.value.warmEpochs == 10
    ensures r.Ok? && !cosine ==> r.value.warmupTo == lr
  {
    if !cosine then Ok(Warmup(WarmupFromRate, WarmupEpochCount, lr))
    else if epochs == 0 then Raise(ZeroDivision)
    else
      var etaMin := EtaMin(lr, decayRate);
      Ok(Warmup(WarmupFromRate, WarmupEpochCount,
                etaMin + (lr - etaMin) * (1.0 + cosPi(WarmupEpochCount, epochs)) / 2.0))
  }

  /** With cosine annealing the warm-up target lies between eta_min and the base rate,
      for a decay rate in [0, 1]; it is the base rate when the cosine is 1 and eta_min
      when it is -1. */
  lemma CosineWarmupTargetBounds(lr: real, decayRate: real, epochs: int, cosPi: (int, int) -> real)
    requires epochs != 0
    requires 0.0 <= lr && 0.0 <= decayRate <= 1.0
    requires -1.0 <= cosPi(WarmupEpochCount, epochs) <= 1.0
    ensures WarmupSettings(true, lr, decayRate, epochs, cosPi).Ok?
    ensures EtaMin(lr, decayRate) <= WarmupSettings(true, lr, decayRate, epochs, cosPi).value.warmupTo <= lr
    ensures cosPi(WarmupEpochCount, epochs) == 1.0 ==>
      WarmupSettings(true, lr, decayRate, epochs, cosPi).value.warmupTo == lr
    ensures cosPi(WarmupEpochCount, epochs) == -1.0 ==>
      WarmupSettings(true, lr, decayRate, epochs, cosPi).value.warmupTo == EtaMin(lr, decayRate)
  {
    var c := cosPi(WarmupEpochCount, epochs);
    var square := decayRate * decayRate;
    ScaleDown(decayRate, decayRate);
    assert 0.0 <= square <= 1.0;
    var cube := decayRate * square;
    ScaleDown(decayRate, square);
    assert 0.0 <= cube <= 1.0;
    assert cube == decayRate * decayRate * decayRate;
    var etaMin := EtaMin(lr, decayRate);
    assert etaMin == cube * lr;
    ScaleDown(cube, lr);
    assert 0.0 <= etaMin <= lr;
    var w := (1.0 + c) / 2.0;
    assert 0.0 <= w <= 1.0;
    var to := WarmupSettings(true, lr, decayRate, epochs, cosPi).value.warmupTo;
    assert to == etaMin + (lr - etaMin) * (1.0 + c) / 2.0;
    var y := lr - etaMin;
    var d := w * y;
    assert y * (1.0 + c) / 2.0 == d;
    assert to == etaMin + d;
    ScaleDown(w, y);
    assert 0.0 <= d <= y;
  }

  /** Scaling by a factor in [0, 1] keeps a non-negative number between 0 and itself. */
  lemma ScaleDown(x: real, y: real)
    requires 0.0 <= x <= 1.0 && 0.0 <= y
    ensures 0.0 <= x * y <= y
  {
    assert y - x * y == y * (1.0 - x);
  }

  // ---------------------------------------------------------------------------
  // Class count

  /** opt.n_cls for the dataset; parse_option raises for any other dataset name. */
  function NumClasses(dataset: string): (r: Result<nat>)
    ensures r.Ok? <==> dataset == "cifar10" || dataset == "cifar100" || dataset == "mnist"
    ensures r.Raise? ==> r.exception == DatasetNotSupported(dataset)
    ensures r.Ok? ==> r.value == if dataset == "cifar100" then 100 else 10
  {
    if dataset == "cifar10" then Ok(10)
    else if dataset == "cifar100" then Ok(100)
    else if dataset == "mnist" then Ok(10)
    else Raise(DatasetNotSupported(dataset))
  }

  /** The name suffixes: `_cosine` for cosine annealing, then `_warm` for warm-up. */
  function Suffixes(cosine: bool, warm: bool): (r: string)
    ensures |r| == (if cosine then 7 else 0) + (if warm then 5 else 0)
    ensures cosine ==> r[..7] == "_cosine"
    ensures warm ==> r[|r| - 5..] == "_warm"
  {
    (if cosine then "_cosine" else "") + (if warm then "_warm" else "")
  }
}
