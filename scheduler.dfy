/** Learning-rate scheduler selection and evaluation (utils/scheduler.py).

    A schedule maps a step count and the configuration to a learning rate.
    Configuration keys are read with defaults, so a missing key never raises;
    a value of the wrong type, or a zero divisor, raises as Python would.
    `math.cos` is not modelled: it is the parameter `cos` of the cosine
    schedule, and of the handler that may call it. */
module Scheduler {
  import opened SchedulerKinds
  import opened PyObjects
  import opened PyArith

  /** `math.pi`. */
  const PI: real := 3.141592653589793

  // ---------------------------------------------------------------------
  // Defaulted configuration reads

  /** `config.get("NUM_MINIBATCHES", 1)`. */
  function NumMinibatches(config: Config): (v: Value)
    ensures "NUM_MINIBATCHES" in config ==> v == config["NUM_MINIBATCHES"]
    ensures "NUM_MINIBATCHES" !in config ==> v == IntV(1)
  {
    Get(config, "NUM_MINIBATCHES", IntV(1))
  }

  /** `config.get("UPDATE_EPOCHS", 1)`. */
  function UpdateEpochs(config: Config): (v: Value)
    ensures "UPDATE_EPOCHS" in config ==> v == config["UPDATE_EPOCHS"]
    ensures "UPDATE_EPOCHS" !in config ==> v == IntV(1)
  {
    Get(config, "UPDATE_EPOCHS", IntV(1))
  }

  /** `config.get("NUM_UPDATES", 1)`. */
  function NumUpdates(config: Config): (v: Value)
    ensures "NUM_UPDATES" in config ==> v == config["NUM_UPDATES"]
    ensures "NUM_UPDATES" !in config ==> v == IntV(1)
  {
    Get(config, "NUM_UPDATES", IntV(1))
  }

  /** `config.get("LR", 1.0)`. */
  function LearningRate(config: Config): (v: Value)
    ensures "LR" in config ==> v == config["LR"]
    ensures "LR" !in config ==> v == RealV(1.0)
  {
    Get(config, "LR", RealV(1.0))
  }

  /** `config.get("MIN_LR", 0.0)`. */
  function MinLearningRate(config: Config): (v: Value)
    ensures "MIN_LR" in config ==> v == config["MIN_LR"]
    ensures "MIN_LR" !in config ==> v == RealV(0.0)
  {
    Get(config, "MIN_LR", RealV(0.0))
  }

  /** `config.get("T_MAX", 100)`. */
  function TMax(config: Config): (v: Value)
    ensures "T_MAX" in config ==> v == config["T_MAX"]
    ensures "T_MAX" !in config ==> v == IntV(100)
  {
    Get(config, "T_MAX", IntV(100))
  }

  /** The reads the linear schedule needs all hold numbers, and its two
      divisors are non-zero. */
  predicate LinearWellTyped(config: Config) {
    && IsNumber(NumMinibatches(config)) && ToReal(NumMinibatches(config)) != 0.0
    && IsNumber(UpdateEpochs(config))
    && IsNumber(NumUpdates(config)) && ToReal(NumUpdates(config)) != 0.0
    && IsNumber(LearningRate(config))
  }

  /** The reads the cosine schedule needs all hold numbers, and the period
      is non-zero. */
  predicate CosineWellTyped(config: Config) {
    && IsNumber(LearningRate(config))
    && IsNumber(MinLearningRate(config))
    && IsNumber(TMax(config)) && ToReal(TMax(config)) != 0.0
  }

  // ---------------------------------------------------------------------
  // The linear schedule

  /** The step index `floor(count / n) * e` in exact arithmetic. */
  function StepIndexRate(count: int, n: real, e: real): real
    requires n != 0.0
  {
    ((count as real) / n).Floor as real * e
  }

  /** The learning rate `lr` decayed by the fraction `s / u` of the horizon. */
  function Decay(lr: real, s: real, u: real): real
    requires u != 0.0
  {
    lr * (1.0 - s / u)
  }

  /** The linear decay `lr * (1 - floor(count / n) * e / u)` in exact
      arithmetic, the reference the linear schedule is proved against. */
  function LinearRate(count: int, n: real, e: real, u: real, lr: real): real
    requires n != 0.0 && u != 0.0
  {
    Decay(lr, StepIndexRate(count, n, e), u)
  }

  /** The step index `count // n * e`: the minibatch count times the
      epochs per update, as a Python number. */
  function StepIndex(count: int, n: Value, e: Value): (r: Result<Value>)
    ensures IsNumber(n) && ToReal(n) != 0.0 && IsNumber(e) ==>
      r.Ok? && IsNumber(r.value) && ToReal(r.value) == StepIndexRate(count, ToReal(n), ToReal(e))
  {
    var minibatch :- FloorDiv(IntV(count), n);
    Mul(minibatch, e)
  }

  /** The expression `lr * (1.0 - (count // n * e) / u)` on the values read
      from the configuration, evaluated left to right as Python does. */
  function LinearFormula(count: int, n: Value, e: Value, u: Value, lr: Value): (r: Result<Value>)
    ensures r.Ok? ==> r.value.RealV?
  {
    var stepIndex :- StepIndex(count, n, e);
    var ratio :- TrueDiv(stepIndex, u);
    var frac :- Sub(RealV(1.0), ratio);
    Mul(lr, frac)
  }

  /** `linear_schedule(count, config)`: the step index
      `count // NUM_MINIBATCHES * UPDATE_EPOCHS`, taken as a fraction of
      `NUM_UPDATES`, decays the learning rate linearly from `LR`. */
  function LinearSchedule(count: int, config: Config): (r: Result<Value>)
    ensures r.Ok? ==> r.value.RealV?
  {
    LinearFormula(count, NumMinibatches(config), UpdateEpochs(config), NumUpdates(config), LearningRate(config))
  }

  /** `lr * (1.0 - s / u)` on Python numbers, for a step index `s` that is
      already a number. */
  lemma DecayFromStepIndex(s: Value, u: Value, lr: Value)
    requires IsNumber(s) && IsNumber(u) && ToReal(u) != 0.0 && IsNumber(lr)
    ensures TrueDiv(s, u).Ok?
    ensures Sub(RealV(1.0), TrueDiv(s, u).value).Ok?
    ensures Mul(lr, Sub(RealV(1.0), TrueDiv(s, u).value).value)
      == Ok(RealV(Decay(ToReal(lr), ToReal(s), ToReal(u))))
  {
    var ratio := TrueDiv(s, u);
    assert ratio == Ok(RealV(ToReal(s) / ToReal(u)));
    var frac := Sub(RealV(1.0), ratio.value);
    assert frac == Ok(RealV(1.0 - ToReal(s) / ToReal(u)));
    var rate := Mul(lr, frac.value);
    assert rate.Ok? && rate.value.RealV? && rate.value.r == ToReal(lr) * ToReal(frac.value);
    MulCongruence(ToReal(lr), ToReal(frac.value), 1.0 - ToReal(s) / ToReal(u));
    assert rate.value.r == Decay(ToReal(lr), ToReal(s), ToReal(u));
    assert rate == Ok(RealV(rate.value.r));
  }

  /** With numbers for all four operands and non-zero divisors, the
      expression is the exact linear decay. */
  lemma LinearFormulaClosedForm(count: int, n: Value, e: Value, u: Value, lr: Value)
    requires IsNumber(n) && ToReal(n) != 0.0 && IsNumber(e) && IsNumber(u) && ToReal(u) != 0.0 && IsNumber(lr)
    ensures LinearFormula(count, n, e, u, lr)
      == Ok(RealV(LinearRate(count, ToReal(n), ToReal(e), ToReal(u), ToReal(lr))))
  {
    var stepIndex := StepIndex(count, n, e);
    DecayFromStepIndex(stepIndex.value, u, lr);
    assert LinearFormula(count, n, e, u, lr)
      == Mul(lr, Sub(RealV(1.0), TrueDiv(stepIndex.value, u).value).value);
  }

  /** With numbers in every key it reads and non-zero divisors, the linear
      schedule is the exact linear decay. */
  lemma LinearClosedForm(count: int, config: Config)
    requires LinearWellTyped(config)
    ensures LinearSchedule(count, config) == Ok(RealV(LinearRate(count,
      ToReal(NumMinibatches(config)), ToReal(UpdateEpochs(config)),
      ToReal(NumUpdates(config)), ToReal(LearningRate(config)))))
  {
    LinearFormulaClosedForm(count, NumMinibatches(config), UpdateEpochs(config), NumUpdates(config),
      LearningRate(config));
  }

  /** With no keys at all, every default is used: `1.0 - count`. */
  lemma LinearDefaults(count: int)
    ensures LinearSchedule(count, map[]) == Ok(RealV(1.0 - count as real))
  {
    LinearClosedForm(count, map[]);
    FloorUnique(count as real / 1.0, count);
    assert StepIndexRate(count, 1.0, 1.0) == count as real;
  }

  /** At step 0 the linear schedule gives `LR`. */
  lemma LinearAtZero(config: Config)
    requires LinearWellTyped(config)
    ensures LinearSchedule(0, config) == Ok(RealV(ToReal(LearningRate(config))))
  {
    LinearClosedForm(0, config);
    LinearRateAtZero(ToReal(NumMinibatches(config)), ToReal(UpdateEpochs(config)),
      ToReal(NumUpdates(config)), ToReal(LearningRate(config)));
  }

  /** The exact linear decay starts at `lr`. */
  lemma LinearRateAtZero(n: real, e: real, u: real, lr: real)
    requires n != 0.0 && u != 0.0
    ensures LinearRate(0, n, e, u, lr) == lr
  {
    assert (0 as real) / n == 0.0;
    FloorUnique(0.0, 0);
    assert StepIndexRate(0, n, e) == 0.0;
    assert 0.0 / u == 0.0;
  }

  /** With an int `NUM_MINIBATCHES` of `n > 0`, the schedule is constant on
      each block of `n` consecutive counts, whatever the other keys hold. */
  lemma LinearConstantOnBlocks(config: Config, n: int, k: int, j: int)
    requires NumMinibatches(config) == IntV(n) && n > 0
    requires 0 <= j < n
    ensures LinearSchedule(k * n + j, config) == LinearSchedule(k * n, config)
  {
    assert n * k == k * n;
    FloorDivIntUnique(k * n + j, n, k);
    FloorDivIntUnique(k * n, n, k);
  }

  /** The exact linear decay never increases in `count` when the block
      size and horizon are positive and the epochs and rate non-negative. */
  lemma LinearRateNonIncreasing(c1: int, c2: int, n: real, e: real, u: real, lr: real)
    requires n > 0.0 && e >= 0.0 && u > 0.0 && lr >= 0.0
    requires c1 <= c2
    ensures LinearRate(c2, n, e, u, lr) <= LinearRate(c1, n, e, u, lr)
  {
    var x1, x2 := (c1 as real) / n, (c2 as real) / n;
    assert x1 <= x2 by { SignOfProduct(x2 - x1, n); assert (x2 - x1) * n == c2 as real - c1 as real; }
    var s1, s2 := x1.Floor as real * e, x2.Floor as real * e;
    assert x1.Floor <= x2.Floor;
    assert s1 <= s2 by {
      assert s2 - s1 == (x2.Floor as real - x1.Floor as real) * e;
      MulNonNegative(x2.Floor as real - x1.Floor as real, e);
    }
    assert s1 / u <= s2 / u by { SignOfProduct(s2 / u - s1 / u, u); assert (s2 / u - s1 / u) * u == s2 - s1; }
    var f1, f2 := 1.0 - s1 / u, 1.0 - s2 / u;
    assert lr * f2 <= lr * f1 by {
      assert lr * f1 - lr * f2 == lr * (f1 - f2);
      MulNonNegative(lr, f1 - f2);
    }
  }

  /** With positive `NUM_MINIBATCHES` and `NUM_UPDATES` and non-negative
      `UPDATE_EPOCHS` and `LR`, the schedule never increases. */
  lemma LinearNonIncreasing(config: Config, c1: int, c2: int)
    requires LinearWellTyped(config)
    requires ToReal(NumMinibatches(config)) > 0.0 && ToReal(UpdateEpochs(config)) >= 0.0
    requires ToReal(NumUpdates(config)) > 0.0 && ToReal(LearningRate(config)) >= 0.0
    requires c1 <= c2
    ensures LinearSchedule(c1, config).Ok? && LinearSchedule(c2, config).Ok?
    ensures LinearSchedule(c2, config).value.r <= LinearSchedule(c1, config).value.r
  {
    LinearClosedForm(c1, config);
    LinearClosedForm(c2, config);
    LinearRateNonIncreasing(c1, c2, ToReal(NumMinibatches(config)), ToReal(UpdateEpochs(config)),
      ToReal(NumUpdates(config)), ToReal(LearningRate(config)));
  }

  /** The schedule is not clamped: once the step index passes
      `NUM_UPDATES`, a positive learning rate turns negative. */
  lemma LinearBecomesNegative(config: Config, count: int)
    requires LinearWellTyped(config)
    requires ToReal(NumUpdates(config)) > 0.0 && ToReal(LearningRate(config)) > 0.0
    requires StepIndexRate(count, ToReal(NumMinibatches(config)), ToReal(UpdateEpochs(config)))
      > ToReal(NumUpdates(config))
    ensures LinearSchedule(count, config).Ok? && LinearSchedule(count, config).value.r < 0.0
  {
    LinearClosedForm(count, config);
    DecayPastHorizon(ToReal(LearningRate(config)),
      StepIndexRate(count, ToReal(NumMinibatches(config)), ToReal(UpdateEpochs(config))), ToReal(NumUpdates(config)));
  }

  /** Past the horizon `u`, a positive rate decays below zero. */
  lemma DecayPastHorizon(lr: real, s: real, u: real)
    requires u > 0.0 && lr > 0.0 && s > u
    ensures Decay(lr, s, u) < 0.0
  {
    assert s / u > 1.0 by { SignOfProduct(s / u - 1.0, u); assert (s / u - 1.0) * u == s - u; }
    assert lr * (1.0 - s / u) < 0.0 by { SignOfProduct(-(1.0 - s / u), lr); }
  }

  /** A zero `NUM_MINIBATCHES` raises `ZeroDivisionError`; so does a zero
      `NUM_UPDATES` once the step index is computed. */
  lemma LinearDivisionByZero(count: int, config: Config)
    ensures IsNumber(NumMinibatches(config)) && ToReal(NumMinibatches(config)) == 0.0 ==>
      LinearSchedule(count, config) == Err(ZeroDivisionError)
    ensures (&& IsNumber(NumMinibatches(config)) && ToReal(NumMinibatches(config)) != 0.0
             && IsNumber(UpdateEpochs(config))
             && IsNumber(NumUpdates(config)) && ToReal(NumUpdates(config)) == 0.0) ==>
      LinearSchedule(count, config) == Err(ZeroDivisionError)
  {
  }

  // ---------------------------------------------------------------------
  // The cosine annealing schedule

  /** The cosine annealing value at phase `Frac(count / t)` in exact
      arithmetic, the reference the cosine schedule is proved against. */
  function CosineRate(count: int, lr: real, minLr: real, t: real, cos: real -> real): real
    requires t != 0.0
  {
    Blend(lr, minLr, cos(Frac((count as real) / t) * PI))
  }

  /** The angle `(count % T_MAX) / T_MAX * math.pi` handed to `math.cos`:
      the phase of `count` in its cycle, scaled to [0, pi). */
  function CosineAngle(count: int, tMax: Value): (r: Result<real>)
    ensures IsNumber(tMax) && ToReal(tMax) != 0.0 ==>
      r == Ok(Frac((count as real) / ToReal(tMax)) * PI)
    ensures IsNumber(tMax) && ToReal(tMax) == 0.0 ==> r == Err(ZeroDivisionError)
    ensures !IsNumber(tMax) ==> r == Err(TypeError)
    ensures r.Ok? ==> 0.0 <= r.value < PI
  {
    var remainder :- Mod(IntV(count), tMax);
    var phase :- TrueDiv(remainder, tMax);
    var angle :- Mul(phase, RealV(PI));
    AsFloat(angle)
  }

  /** The point a cosine value in [-1, 1] picks between `minLr` (at -1)
      and `lr` (at 1). */
  function Blend(lr: real, minLr: real, c: real): real {
    minLr + 0.5 * (lr - minLr) * (1.0 + c)
  }

  /** `min_lr + 0.5 * (initial_lr - min_lr) * (1 + cosine_value)`. */
  function CosineBlend(initialLr: Value, minLr: Value, cosineValue: real): (r: Result<Value>)
    ensures IsNumber(initialLr) && IsNumber(minLr) ==>
      r == Ok(RealV(Blend(ToReal(initialLr), ToReal(minLr), cosineValue)))
    ensures !(IsNumber(initialLr) && IsNumber(minLr)) ==> r == Err(TypeError)
  {
    var span :- Sub(initialLr, minLr);
    var half :- Mul(RealV(0.5), span);
    var lift :- Add(IntV(1), RealV(cosineValue));
    var scaled :- Mul(half, lift);
    assert scaled == RealV(0.5 * (ToReal(initialLr) - ToReal(minLr)) * (1.0 + cosineValue));
    assert ToReal(minLr) + scaled.r == Blend(ToReal(initialLr), ToReal(minLr), cosineValue);
    Add(minLr, scaled)
  }

  /** `cosine_annealing_schedule(count, config)`: the phase
      `(count % T_MAX) / T_MAX` drives a half cosine from `LR` down toward
      `MIN_LR`. */
  function CosineAnnealingSchedule(count: int, config: Config, cos: real -> real): (r: Result<Value>)
    ensures r.Ok? ==> r.value.RealV?
  {
    var x :- CosineAngle(count, TMax(config));
    CosineBlend(LearningRate(config), MinLearningRate(config), cos(x))
  }

  /** The phase `(count % T_MAX) / T_MAX` is the fractional part of
      `count / T_MAX`, so it lies in [0, 1). */
  lemma CosinePhase(count: int, config: Config)
    requires IsNumber(TMax(config)) && ToReal(TMax(config)) != 0.0
    ensures Mod(IntV(count), TMax(config)).Ok?
    ensures TrueDiv(Mod(IntV(count), TMax(config)).value, TMax(config))
      == Ok(RealV(Frac((count as real) / ToReal(TMax(config)))))
    ensures 0.0 <= Frac((count as real) / ToReal(TMax(config))) < 1.0
  {
  }

  /** With numbers in every key it reads and a non-zero period, the cosine
      schedule is the exact cosine annealing value. */
  lemma CosineClosedForm(count: int, config: Config, cos: real -> real)
    requires CosineWellTyped(config)
    ensures CosineAnnealingSchedule(count, config, cos) == Ok(RealV(CosineRate(count,
      ToReal(LearningRate(config)), ToReal(MinLearningRate(config)), ToReal(TMax(config)), cos)))
  {
    var x := Frac((count as real) / ToReal(TMax(config))) * PI;
    assert CosineAngle(count, TMax(config)) == Ok(x);
    assert CosineAnnealingSchedule(count, config, cos)
      == CosineBlend(LearningRate(config), MinLearningRate(config), cos(x));
  }

  /** The schedule depends on `count` only through `count % T_MAX`. */
  lemma CosineDependsOnRemainder(c1: int, c2: int, config: Config, cos: real -> real)
    requires Mod(IntV(c1), TMax(config)) == Mod(IntV(c2), TMax(config))
    ensures CosineAnnealingSchedule(c1, config, cos) == CosineAnnealingSchedule(c2, config, cos)
  {
  }

  /** With an int `T_MAX` of `t != 0`, the schedule (including any error it
      raises) is periodic in `count` with period `t`. */
  lemma CosinePeriodic(count: int, k: int, config: Config, cos: real -> real)
    requires TMax(config).IntV? && TMax(config).i != 0
    ensures CosineAnnealingSchedule(count + k * TMax(config).i, config, cos)
      == CosineAnnealingSchedule(count, config, cos)
  {
    var t := TMax(config).i;
    ModIntPeriodic(count, k, t);
    CosineDependsOnRemainder(count + k * t, count, config, cos);
  }

  /** A blend with a cosine value in [-1, 1] stays between its ends. */
  lemma BlendBounds(lr: real, minLr: real, c: real)
    requires minLr <= lr && -1.0 <= c <= 1.0
    ensures minLr <= Blend(lr, minLr, c) <= lr
  {
    var span, t := lr - minLr, 0.5 * (1.0 + c);
    assert 0.5 * span * (1.0 + c) == span * t;
    assert span - span * t == span * (1.0 - t);
    MulNonNegative(span, t);
    MulNonNegative(span, 1.0 - t);
  }

  /** When `cos` stays in [-1, 1] and `MIN_LR <= LR`, every value lies in
      `[MIN_LR, LR]`. */
  lemma CosineBounds(count: int, config: Config, cos: real -> real)
    requires CosineWellTyped(config)
    requires ToReal(MinLearningRate(config)) <= ToReal(LearningRate(config))
    requires forall x :: -1.0 <= cos(x) <= 1.0
    ensures CosineAnnealingSchedule(count, config, cos).Ok?
    ensures ToReal(MinLearningRate(config)) <= CosineAnnealingSchedule(count, config, cos).value.r
      <= ToReal(LearningRate(config))
  {
    CosineClosedForm(count, config, cos);
    var c := cos(Frac((count as real) / ToReal(TMax(config))) * PI);
    BlendBounds(ToReal(LearningRate(config)), ToReal(MinLearningRate(config)), c);
  }

  /** When `cos(0) == 1`, every whole multiple of an int `T_MAX` restarts
      the cycle at `LR`. */
  lemma CosineRestartsAtLr(k: int, config: Config, cos: real -> real)
    requires CosineWellTyped(config)
    requires TMax(config).IntV?
    requires cos(0.0) == 1.0
    ensures CosineAnnealingSchedule(k * TMax(config).i, config, cos) == Ok(RealV(ToReal(LearningRate(config))))
  {
    var t := TMax(config).i;
    CosineClosedForm(k * t, config, cos);
    CosineRateAtCycleStart(k, t, ToReal(LearningRate(config)), ToReal(MinLearningRate(config)), cos);
  }

  /** At a whole number of periods the phase is 0, so a `cos` with
      `cos(0) == 1` gives `lr`. */
  lemma CosineRateAtCycleStart(k: int, t: int, lr: real, minLr: real, cos: real -> real)
    requires t != 0 && cos(0.0) == 1.0
    ensures CosineRate(k * t, lr, minLr, t as real, cos) == lr
  {
    assert ((k * t) as real) / (t as real) == k as real by {
      assert (k * t) as real == (k as real) * (t as real);
    }
    FloorUnique(k as real, k);
    assert Frac(k as real) * PI == 0.0;
    assert Blend(lr, minLr, 1.0) == lr;
  }

  /** A zero `T_MAX` raises `ZeroDivisionError`; a `T_MAX` that is not a
      number raises `TypeError`. */
  lemma CosineBadPeriod(count: int, config: Config, cos: real -> real)
    ensures IsNumber(TMax(config)) && ToReal(TMax(config)) == 0.0 ==>
      CosineAnnealingSchedule(count, config, cos) == Err(ZeroDivisionError)
    ensures !IsNumber(TMax(config)) ==> CosineAnnealingSchedule(count, config, cos) == Err(TypeError)
  {
  }

  // ---------------------------------------------------------------------
  // Name resolution and the dispatch table

  const UNKNOWN_PREFIX: string := "Unknown scheduler name: "

  /** Python's `repr` of a list of strings that hold no quote characters. */
  function ListRepr(names: seq<string>): string {
    "[" + QuotedNames(names) + "]"
  }

  function QuotedNames(names: seq<string>): string {
    if |names| == 0 then ""
    else if |names| == 1 then "'" + names[0] + "'"
    else "'" + names[0] + "', " + QuotedNames(names[1..])
  }

  /** The tail of `get_scheduler_from_str`'s error message. */
  function OptionsSuffix(): string {
    ". Available options are: " + ListRepr(MemberNames)
  }

  /** `get_scheduler_from_str(s)`: the member whose name is exactly `s`
      (case-sensitive), or a `ValueError` naming `s` and the options. */
  function GetSchedulerFromStr(s: string): (r: Result<SchedulerEnum>)
    ensures r.Ok? <==> s in MemberNames
    ensures r.Ok? ==> Name(r.value) == s
    ensures r.Err? ==> r.error == ValueError(UNKNOWN_PREFIX, StrV(s), OptionsSuffix())
  {
    if s in Members then Ok(Members[s]) else Err(ValueError(UNKNOWN_PREFIX, StrV(s), OptionsSuffix()))
  }

  /** Every member is found under its own name, and only there. */
  lemma FromStrRoundTrip(e: SchedulerEnum, s: string)
    ensures GetSchedulerFromStr(Name(e)) == Ok(e)
    ensures GetSchedulerFromStr(s) == Ok(e) ==> s == Name(e)
  {
  }

  /** Names are matched case-sensitively; anything else is rejected. */
  lemma FromStrRejects()
    ensures GetSchedulerFromStr("cosineannealinglr").Err?
    ensures GetSchedulerFromStr("InvalidScheduler").Err?
    ensures GetSchedulerFromStr("linearlr").Err?
  {
  }

  /** An occurrence inside `b` is an occurrence inside `a + b`, shifted. */
  lemma OccursAfter(t: string, a: string, b: string, i: int)
    requires OccursAt(t, b, i)
    ensures OccursAt(t, a + b, |a| + i)
  {
    assert (a + b)[|a| + i..|a| + i + |t|] == b[i..i + |t|];
  }

  /** An occurrence inside `a` is an occurrence inside `a + b`. */
  lemma OccursBefore(t: string, a: string, b: string, i: int)
    requires OccursAt(t, a, i)
    ensures OccursAt(t, a + b, i)
  {
    assert (a + b)[i..i + |t|] == a[i..i + |t|];
  }

  /** `t` occurs in `a + t + b` right after `a`. */
  lemma OccursBetween(t: string, a: string, b: string)
    ensures OccursAt(t, a + t + b, |a|)
  {
    assert (a + t + b)[|a|..|a| + |t|] == t;
  }

  /** Every name appears in the quoted listing of the names. */
  lemma {:induction false} QuotedNamesListAll(names: seq<string>)
    ensures forall k | 0 <= k < |names| :: IsSubstring(names[k], QuotedNames(names))
  {
    if |names| == 1 {
      OccursBetween(names[0], "'", "'");
    } else if |names| > 1 {
      var head := "'" + names[0] + "', ";
      var rest := names[1..];
      OccursBetween(names[0], "'", "', " + QuotedNames(rest));
      assert "'" + names[0] + ("', " + QuotedNames(rest)) == QuotedNames(names);
      QuotedNamesListAll(rest);
      forall k | 1 <= k < |names|
        ensures IsSubstring(names[k], QuotedNames(names))
      {
        assert rest[k - 1] == names[k];
        var i :| OccursAt(names[k], QuotedNames(rest), i);
        OccursAfter(names[k], head, QuotedNames(rest), i);
      }
    }
  }

  /** The rejection message starts with "Unknown scheduler name: " and the
      offending name, and lists every valid name. */
  lemma FromStrErrorMessage(s: string)
    requires s !in MemberNames
    ensures GetSchedulerFromStr(s).Err?
    ensures var text := ValueErrorText(GetSchedulerFromStr(s).error);
      && text[..|UNKNOWN_PREFIX| + |s|] == UNKNOWN_PREFIX + s
      && forall n | n in MemberNames :: IsSubstring(n, text)
  {
    var text := ValueErrorText(GetSchedulerFromStr(s).error);
    var lead := UNKNOWN_PREFIX + s;
    var options := ". Available options are: ";
    var quoted := QuotedNames(MemberNames);
    assert text == lead + (options + ("[" + quoted + "]"));
    assert text[..|lead|] == lead;
    QuotedNamesListAll(MemberNames);
    forall n | n in MemberNames
      ensures IsSubstring(n, text)
    {
      var k :| 0 <= k < |MemberNames| && MemberNames[k] == n;
      var i :| OccursAt(n, quoted, i);
      OccursAfter(n, "[", quoted, i);
      OccursBefore(n, "[" + quoted, "]", 1 + i);
      OccursAfter(n, options, "[" + quoted + "]", 1 + i);
      OccursAfter(n, lead, options + ("[" + quoted + "]"), |options| + 1 + i);
    }
  }

  /** A scheduling strategy, one per function the dispatch table names. */
  datatype Strategy = Linear | CosineAnnealing

  /** `scheduler_mapping`: keyed by the enum members themselves. A string,
      even a member's name, is not a key, as a Python `Enum` member never
      equals a string. */
  const SchedulerMapping: map<Value, Strategy> :=
    map[SchedV(LinearLR) := Linear, SchedV(CosineAnnealingLR) := CosineAnnealing]

  /** Calls the strategy's schedule function. */
  function Apply(strategy: Strategy, count: int, config: Config, cos: real -> real): (r: Result<Value>)
    ensures strategy == Linear ==> r == LinearSchedule(count, config)
    ensures strategy == CosineAnnealing ==> r == CosineAnnealingSchedule(count, config, cos)
  {
    match strategy
    case Linear => LinearSchedule(count, config)
    case CosineAnnealing => CosineAnnealingSchedule(count, config, cos)
  }

  /** The keys of the table are exactly the enum members. */
  lemma SchedulerMappingKeys()
    ensures forall v :: v in SchedulerMapping <==> v.SchedV?
  {
    forall v: Value | v.SchedV? ensures v in SchedulerMapping {
      match v.member
      case LinearLR =>
      case CosineAnnealingLR =>
    }
  }

  /** The table maps each member to its schedule and holds no other key. */
  lemma SchedulerMappingTable(count: int, config: Config, cos: real -> real)
    ensures forall v :: v in SchedulerMapping <==> v.SchedV?
    ensures Apply(SchedulerMapping[SchedV(LinearLR)], count, config, cos) == LinearSchedule(count, config)
    ensures Apply(SchedulerMapping[SchedV(CosineAnnealingLR)], count, config, cos)
      == CosineAnnealingSchedule(count, config, cos)
  {
    SchedulerMappingKeys();
  }

  /** `config.get("SCHEDULER", "InvalidScheduer")`. */
  function SchedulerName(config: Config): (v: Value)
    ensures "SCHEDULER" in config ==> v == config["SCHEDULER"]
    ensures "SCHEDULER" !in config ==> v == StrV("InvalidScheduer")
  {
    Get(config, "SCHEDULER", StrV("InvalidScheduer"))
  }

  /** `get_scheduler_handler(config)`: a closure from step count to
      learning rate, or a `ValueError` naming the value found. */
  function GetSchedulerHandler(config: Config, cos: real -> real): (r: Result<int -> Result<Value>>)
    ensures r.Ok? <==> SchedulerName(config).SchedV?
    ensures r.Ok? ==> forall count ::
      r.value(count) == (if SchedulerName(config).member == LinearLR then LinearSchedule(count, config)
                         else CosineAnnealingSchedule(count, config, cos))
    ensures r.Err? ==> r.error == ValueError(UNKNOWN_PREFIX, SchedulerName(config), "")
  {
    var name := SchedulerName(config);
    SchedulerMappingKeys();
    if name in SchedulerMapping then
      var strategy := SchedulerMapping[name];
      Ok(count => Apply(strategy, count, config, cos))
    else
      Err(ValueError(UNKNOWN_PREFIX, name, ""))
  }

  /** A `SCHEDULER` holding a string, even a member's exact name, is
      rejected, without the list of options. */
  lemma HandlerRejectsStrings(config: Config, s: string, cos: real -> real)
    requires "SCHEDULER" in config && config["SCHEDULER"] == StrV(s)
    ensures GetSchedulerHandler(config, cos) == Err(ValueError(UNKNOWN_PREFIX, StrV(s), ""))
  {
  }

  /** A missing `SCHEDULER` is rejected under the default name. */
  lemma HandlerMissingScheduler(config: Config, cos: real -> real)
    requires "SCHEDULER" !in config
    ensures GetSchedulerHandler(config, cos) == Err(ValueError(UNKNOWN_PREFIX, StrV("InvalidScheduer"), ""))
  {
  }

  /** The intended pipeline: a name converted by `get_scheduler_from_str`
      and stored under `SCHEDULER` yields the handler of the schedule so
      named, at every count. */
  lemma HandlerFromName(s: string, config: Config, cos: real -> real, count: int)
    requires s in MemberNames
    ensures GetSchedulerFromStr(s).Ok?
    ensures var named := config["SCHEDULER" := SchedV(GetSchedulerFromStr(s).value)];
      && GetSchedulerHandler(named, cos).Ok?
      && GetSchedulerHandler(named, cos).value(count)
           == (if s == "LinearLR" then LinearSchedule(count, named) else CosineAnnealingSchedule(count, named, cos))
  {
    var named := config["SCHEDULER" := SchedV(GetSchedulerFromStr(s).value)];
    assert SchedulerName(named) == SchedV(GetSchedulerFromStr(s).value);
    assert Name(GetSchedulerFromStr(s).value) == s;
  }
}
