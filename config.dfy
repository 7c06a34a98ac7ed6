/** The enrichment `read_config` applies to a parsed configuration: it derives
    `NUM_UPDATES` and then `MINIBATCH_SIZE` from four entries the file
    provides, writing each into the dictionary in place. Opening the file,
    YAML parsing and printing are not part of this model. */
module Config {
  import opened PyObjects
  import opened PyArith

  const TOTAL_TIMESTEPS: string := "TOTAL_TIMESTEPS"
  const NUM_STEPS: string := "NUM_STEPS"
  const NUM_ENVS: string := "NUM_ENVS"
  const NUM_MINIBATCHES: string := "NUM_MINIBATCHES"
  const NUM_UPDATES: string := "NUM_UPDATES"
  const MINIBATCH_SIZE: string := "MINIBATCH_SIZE"

  /** `key` is present and holds a number. */
  predicate NumberAt(config: Config, key: string) {
    key in config && IsNumber(config[key])
  }

  /** `key` is present and holds an `int`. */
  predicate IntAt(config: Config, key: string) {
    key in config && config[key].IntV?
  }

  /** `config["TOTAL_TIMESTEPS"] // config["NUM_STEPS"] // config["NUM_ENVS"]`,
      evaluated left to right: both operands of the first division are read
      and divided before `NUM_ENVS` is looked up. */
  function NumUpdatesOf(config: Config): (r: Result<Value>)
    ensures TOTAL_TIMESTEPS !in config ==> r == Err(KeyError(TOTAL_TIMESTEPS))
    ensures TOTAL_TIMESTEPS in config && NUM_STEPS !in config ==> r == Err(KeyError(NUM_STEPS))
    ensures (TOTAL_TIMESTEPS in config && NUM_STEPS in config
             && !(IsNumber(config[TOTAL_TIMESTEPS]) && IsNumber(config[NUM_STEPS]))) ==> r == Err(TypeError)
    ensures NumberAt(config, TOTAL_TIMESTEPS) && NumberAt(config, NUM_STEPS) ==>
      && (ToReal(config[NUM_STEPS]) == 0.0 ==> r == Err(ZeroDivisionError))
      && (ToReal(config[NUM_STEPS]) != 0.0 && NUM_ENVS !in config ==> r == Err(KeyError(NUM_ENVS)))
      && (ToReal(config[NUM_STEPS]) != 0.0 && NUM_ENVS in config && !IsNumber(config[NUM_ENVS]) ==>
            r == Err(TypeError))
      && (ToReal(config[NUM_STEPS]) != 0.0 && NumberAt(config, NUM_ENVS) && ToReal(config[NUM_ENVS]) == 0.0 ==>
            r == Err(ZeroDivisionError))
    ensures r.Ok? <==>
      && NumberAt(config, TOTAL_TIMESTEPS) && NumberAt(config, NUM_STEPS) && NumberAt(config, NUM_ENVS)
      && ToReal(config[NUM_STEPS]) != 0.0 && ToReal(config[NUM_ENVS]) != 0.0
    ensures r.Ok? ==>
      && IsNumber(r.value)
      && (r.value.IntV? <==> IntAt(config, TOTAL_TIMESTEPS) && IntAt(config, NUM_STEPS) && IntAt(config, NUM_ENVS))
      && ToReal(r.value) ==
           ((ToReal(config[TOTAL_TIMESTEPS]) / ToReal(config[NUM_STEPS])).Floor as real
              / ToReal(config[NUM_ENVS])).Floor as real
  {
    var total :- Index(config, TOTAL_TIMESTEPS);
    var steps :- Index(config, NUM_STEPS);
    var perEnv :- FloorDiv(total, steps);
    var envs :- Index(config, NUM_ENVS);
    FloorDiv(perEnv, envs)
  }

  /** `config["NUM_ENVS"] * config["NUM_STEPS"] // config["NUM_MINIBATCHES"]`:
      the product is formed before `NUM_MINIBATCHES` is looked up. */
  function MinibatchSizeOf(config: Config): (r: Result<Value>)
    ensures NUM_ENVS !in config ==> r == Err(KeyError(NUM_ENVS))
    ensures NUM_ENVS in config && NUM_STEPS !in config ==> r == Err(KeyError(NUM_STEPS))
    ensures NumberAt(config, NUM_ENVS) && NumberAt(config, NUM_STEPS) ==>
      && (NUM_MINIBATCHES !in config ==> r == Err(KeyError(NUM_MINIBATCHES)))
      && (NUM_MINIBATCHES in config && !IsNumber(config[NUM_MINIBATCHES]) ==> r == Err(TypeError))
      && (NumberAt(config, NUM_MINIBATCHES) && ToReal(config[NUM_MINIBATCHES]) == 0.0 ==>
            r == Err(ZeroDivisionError))
    ensures r.Ok? <==>
      && NumberAt(config, NUM_ENVS) && NumberAt(config, NUM_STEPS) && NumberAt(config, NUM_MINIBATCHES)
      && ToReal(config[NUM_MINIBATCHES]) != 0.0
    ensures (NumberAt(config, NUM_ENVS) && NumberAt(config, NUM_STEPS)
             && NumberAt(config, NUM_MINIBATCHES) && ToReal(config[NUM_MINIBATCHES]) != 0.0) ==>
      && r.Ok?
      && IsNumber(r.value)
      && (r.value.IntV? <==> IntAt(config, NUM_ENVS) && IntAt(config, NUM_STEPS) && IntAt(config, NUM_MINIBATCHES))
      && ToReal(r.value) ==
           (ToReal(config[NUM_ENVS]) * ToReal(config[NUM_STEPS]) / ToReal(config[NUM_MINIBATCHES])).Floor as real
  {
    var envs :- Index(config, NUM_ENVS);
    var steps :- Index(config, NUM_STEPS);
    var batch :- Mul(envs, steps);
    var minibatches :- Index(config, NUM_MINIBATCHES);
    if IsNumber(envs) && IsNumber(steps) && IsNumber(minibatches) && ToReal(minibatches) != 0.0 then
      var product := ToReal(config[NUM_ENVS]) * ToReal(config[NUM_STEPS]);
      assert ToReal(batch) == product;
      FloorOfEqualRatios(ToReal(batch), product, ToReal(minibatches));
      FloorDiv(batch, minibatches)
    else
      FloorDiv(batch, minibatches)
  }

  /** Equal dividends give equal floor quotients. */
  lemma FloorOfEqualRatios(x: real, y: real, d: real)
    requires x == y && d != 0.0
    ensures (x / d).Floor == (y / d).Floor
  {
  }

  /** The configuration dictionary `read_config` builds and then enriches in
      place. */
  class ConfigDict {
    var entries: Config

    constructor (parsed: Config)
      ensures entries == parsed
    {
      entries := parsed;
    }

    /** Writes `NUM_UPDATES`, then computes and writes `MINIBATCH_SIZE`. When
        the second formula raises, the first key has already been written. */
    method Enrich() returns (outcome: Outcome)
      modifies this
      ensures NumUpdatesOf(old(entries)).Err? ==>
        outcome == Fail(NumUpdatesOf(old(entries)).error) && entries == old(entries)
      ensures NumUpdatesOf(old(entries)).Ok? && MinibatchSizeOf(old(entries)).Err? ==>
        && outcome == Fail(MinibatchSizeOf(old(entries)).error)
        && entries == old(entries)[NUM_UPDATES := NumUpdatesOf(old(entries)).value]
      ensures NumUpdatesOf(old(entries)).Ok? && MinibatchSizeOf(old(entries)).Ok? ==>
        && outcome == Pass
        && entries == old(entries)[NUM_UPDATES := NumUpdatesOf(old(entries)).value]
                                  [MINIBATCH_SIZE := MinibatchSizeOf(old(entries)).value]
      ensures forall k | k != NUM_UPDATES && k != MINIBATCH_SIZE ::
        (k in entries <==> k in old(entries)) && (k in entries ==> entries[k] == old(entries)[k])
    {
      var updates := NumUpdatesOf(entries);
      if updates.Err? {
        return Fail(updates.error);
      }
      MinibatchSizeSkipsNumUpdates(entries, updates.value);
      entries := entries[NUM_UPDATES := updates.value];
      var size := MinibatchSizeOf(entries);
      if size.Err? {
        return Fail(size.error);
      }
      entries := entries[MINIBATCH_SIZE := size.value];
      return Pass;
    }
  }

  /** `read_config` after parsing: the enriched dictionary, or the exception
      raised while enriching it (the partly enriched dictionary is then lost
      with the exception). */
  method ReadConfig(parsed: Config) returns (r: Result<Config>)
    ensures r.Ok? <==> NumUpdatesOf(parsed).Ok? && MinibatchSizeOf(parsed).Ok?
    ensures NumUpdatesOf(parsed).Err? ==> r == Err(NumUpdatesOf(parsed).error)
    ensures NumUpdatesOf(parsed).Ok? && MinibatchSizeOf(parsed).Err? ==> r == Err(MinibatchSizeOf(parsed).error)
    ensures r.Ok? ==>
      && r.value.Keys == parsed.Keys + {NUM_UPDATES, MINIBATCH_SIZE}
      && r.value[NUM_UPDATES] == NumUpdatesOf(parsed).value
      && r.value[MINIBATCH_SIZE] == MinibatchSizeOf(parsed).value
      && forall k | k in parsed && k != NUM_UPDATES && k != MINIBATCH_SIZE :: r.value[k] == parsed[k]
  {
    var config := new ConfigDict(parsed);
    var outcome := config.Enrich();
    if outcome.Fail? {
      return Err(outcome.error);
    }
    return Ok(config.entries);
  }

  /** The minibatch formula does not read `NUM_UPDATES`, so writing that key
      first does not change it. */
  lemma MinibatchSizeSkipsNumUpdates(config: Config, v: Value)
    ensures MinibatchSizeOf(config[NUM_UPDATES := v]) == MinibatchSizeOf(config)
  {
    var written := config[NUM_UPDATES := v];
    assert Index(written, NUM_ENVS) == Index(config, NUM_ENVS);
    assert Index(written, NUM_STEPS) == Index(config, NUM_STEPS);
    assert Index(written, NUM_MINIBATCHES) == Index(config, NUM_MINIBATCHES);
  }

  /** With integer entries and positive divisors, the chained division equals
      one division by the number of transitions per update. */
  lemma NumUpdatesChained(config: Config)
    requires IntAt(config, TOTAL_TIMESTEPS) && IntAt(config, NUM_STEPS) && IntAt(config, NUM_ENVS)
    requires config[NUM_STEPS].i > 0 && config[NUM_ENVS].i > 0
    ensures NumUpdatesOf(config) ==
      Ok(IntV(FloorDivInt(config[TOTAL_TIMESTEPS].i, config[NUM_STEPS].i * config[NUM_ENVS].i)))
  {
    var t, s, e := config[TOTAL_TIMESTEPS].i, config[NUM_STEPS].i, config[NUM_ENVS].i;
    assert FloorDiv(IntV(t), IntV(s)) == Ok(IntV(FloorDivInt(t, s)));
    assert FloorDiv(IntV(FloorDivInt(t, s)), IntV(e)) == Ok(IntV(FloorDivInt(FloorDivInt(t, s), e)));
    FloorDivIntChain(t, s, e);
  }

  /** A typical run: one million steps, 128 steps per rollout, 8 environments
      and 4 minibatches give 976 updates of 256 transitions each. */
  lemma ExampleEnrichment()
    ensures var parsed := map[TOTAL_TIMESTEPS := IntV(1000000), NUM_STEPS := IntV(128),
                              NUM_ENVS := IntV(8), NUM_MINIBATCHES := IntV(4)];
      NumUpdatesOf(parsed) == Ok(IntV(976)) && MinibatchSizeOf(parsed) == Ok(IntV(256))
  {
    var parsed := map[TOTAL_TIMESTEPS := IntV(1000000), NUM_STEPS := IntV(128),
                      NUM_ENVS := IntV(8), NUM_MINIBATCHES := IntV(4)];
    FloorDivIntUnique(1000000, 128, 7812);
    FloorDivIntUnique(7812, 8, 976);
    FloorDivIntUnique(1024, 4, 256);
  }
}
