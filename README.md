# Learning-rate scheduler selection and configuration enrichment

This project models two utilities of a reinforcement-learning training loop
and proves properties of the model:

- **The scheduler registry** (`utils/scheduler.py`). It has a closed
  enumeration `SchedulerEnum` with the members `LinearLR` and
  `CosineAnnealingLR`, and two learning-rate formulas, `linear_schedule` and
  `cosine_annealing_schedule`, which read their parameters from the
  configuration with defaults. A table `scheduler_mapping` goes from member
  to formula. `get_scheduler_from_str` resolves a name to a member, and
  `get_scheduler_handler` builds the closure `count -> learning rate` for
  the member stored under `SCHEDULER`.
- **The configuration enrichment** in `read_config` (`utils/config.py`). It
  works on the parsed dictionary. It first writes
  `NUM_UPDATES = TOTAL_TIMESTEPS // NUM_STEPS // NUM_ENVS`, then writes
  `MINIBATCH_SIZE = NUM_ENVS * NUM_STEPS // NUM_MINIBATCHES`, both in place.

The files are:

- `scheduler_enum.dfy` (module `SchedulerKinds`): the enumeration and its
  name table.
- `py_objects.dfy` (module `PyObjects`):
  - the configuration values: `int`, `float` as an exact real, `str`,
    `None`, and an enum member;
  - the exceptions raised;
  - `Result`;
  - the two ways of reading a dictionary, `get` with a default and
    indexing that raises `KeyError`.
- `py_arith.dfy` (module `PyArith`): Python's `//`, `%`, `/`, `*`, `+` and
  `-` on those values.
  - `//` and `%` floor (unlike Dafny's Euclidean operators).
  - Two `int`s stay an `int` under `//`, `%` and `*`.
  - `/` always gives a `float`.
  - `str * int` repeats the string, and `str + str` concatenates.
  - `%` is modelled for a numeric left operand only.
  - Any other mix of types raises `TypeError`.
  - A zero divisor raises `ZeroDivisionError`.
- `scheduler.dfy` (module `Scheduler`): the two formulas, the mapping,
  name resolution and the handler.
  - Each formula is written step by step, in the source's evaluation
    order, so every error case comes from the operator that raises it.
  - Each formula is related by a lemma to a closed form in exact
    arithmetic (`LinearRate`, `CosineRate`).
  - `math.cos` is a parameter `cos: real -> real`.
- `config.dfy` (module `Config`):
  - the two formulas as functions with their error order;
  - the dictionary as a class `ConfigDict`, whose `Enrich` method updates
    the `entries` map in two steps;
  - `ReadConfig`, which enriches an already parsed dictionary.

`get_scheduler_handler` looks up `SCHEDULER` in a table keyed by enum
members. A Python string never equals an enum member, so the handler is
built only when the configuration holds a member. A name string is
rejected even when it is a member's exact name; its caller is expected to
convert the name with `get_scheduler_from_str` first (`HandlerFromName`).
The model follows the code here: `SchedV(member)` values are the keys of
`SchedulerMapping`, and every `StrV` is rejected.

## Model

| member | source | states |
|---|---|---|
| SchedulerKinds.MembersByName | utils/scheduler.py:7-9 | the member table holds exactly the two names, each mapped to the member of that name, and every member is found under its own name |
| PyObjects.Get | utils/scheduler.py:12-15 | `config.get(key, default)` is the value under the key when present and the default otherwise |
| PyObjects.Index | utils/config.py:10 | `config[key]` succeeds exactly when the key is present, with the value under it, and otherwise raises KeyError naming the key |
| PyArith.FloorDivInt | utils/config.py:10 | int `//` rounds toward negative infinity: the quotient q satisfies y*q <= x < y*q + y for a positive divisor and the mirrored bounds for a negative one |
| PyArith.ModInt | utils/scheduler.py:37 | int `%` takes the divisor's sign: in [0, y) for a positive divisor and in (y, 0] for a negative one |
| PyArith.FloorDiv | utils/config.py:10 | `//` raises TypeError on a non-number and ZeroDivisionError on a zero divisor; otherwise it gives the floor of the exact quotient, an `int` exactly when both operands are |
| PyArith.Mod | utils/scheduler.py:37 | for a numeric left operand, `%` has the same error cases as `//`; its result divided by the divisor is the fractional part of the exact quotient, and it is an `int` exactly when both operands are |
| PyArith.TrueDiv | utils/scheduler.py:17 | `/` gives a float equal to the exact quotient, or the same errors as `//` |
| PyArith.Mul | utils/config.py:14 | `*` gives the exact product, an `int` exactly when both operands are; a string times an int (either order) is the string repeated that many times; any other mix raises TypeError |
| PyArith.Add | utils/scheduler.py:38 | `+` gives the exact sum for numbers, concatenates two strings, and raises TypeError for any other mix |
| PyArith.Sub | utils/scheduler.py:17 | `-` gives the exact difference for numbers and raises TypeError otherwise |
| PyArith.FloorDivIntIsFloor | utils/config.py:10 | floor division on ints is the floor of the exact quotient, for both signs of the divisor |
| PyArith.ModIntIsFrac | utils/scheduler.py:37 | the int remainder divided by the divisor is the fractional part of the exact quotient |
| PyArith.ModIntPeriodic | utils/scheduler.py:37 | adding a multiple of the divisor does not change the remainder |
| PyArith.FloorDivIntChain | utils/config.py:10 | two floor divisions by positive ints equal one floor division by their product |
| Scheduler.NumMinibatches | utils/scheduler.py:12 | NUM_MINIBATCHES as stored, or 1 when absent |
| Scheduler.UpdateEpochs | utils/scheduler.py:13 | UPDATE_EPOCHS as stored, or 1 when absent |
| Scheduler.NumUpdates | utils/scheduler.py:14 | NUM_UPDATES as stored, or 1 when absent |
| Scheduler.LearningRate | utils/scheduler.py:15 | LR as stored, or 1.0 when absent (the cosine schedule reads it with the same default at line 32) |
| Scheduler.MinLearningRate | utils/scheduler.py:33 | MIN_LR as stored, or 0.0 when absent |
| Scheduler.TMax | utils/scheduler.py:34 | T_MAX as stored, or 100 when absent |
| Scheduler.StepIndex | utils/scheduler.py:17 | `count // NUM_MINIBATCHES * UPDATE_EPOCHS` is a number equal to floor(count / n) times e whenever n is a non-zero number and e a number |
| Scheduler.LinearFormula | utils/scheduler.py:17-19 | when the formula does not raise, its result is a float |
| Scheduler.LinearSchedule | utils/scheduler.py:11-19 | `linear_schedule` on the defaulted reads returns a float when it does not raise |
| Scheduler.DecayFromStepIndex | utils/scheduler.py:17-19 | from a numeric step index, `LR * (1.0 - s / NUM_UPDATES)` is lr times (1 - s/u) |
| Scheduler.LinearFormulaClosedForm | utils/scheduler.py:17-19 | with numeric operands and non-zero divisors, the formula equals lr times (1 - floor(count/n) * e / u) |
| Scheduler.LinearClosedForm | utils/scheduler.py:11-19 | for a well-typed configuration, the schedule equals that closed form on the values read with their defaults |
| Scheduler.LinearDefaults | utils/scheduler.py:12-19 | with an empty configuration the schedule is 1.0 - count |
| Scheduler.LinearAtZero | utils/scheduler.py:11-19 | at count 0 the schedule returns LR |
| Scheduler.LinearRateAtZero | utils/scheduler.py:17-19 | the closed form at count 0 is lr |
| Scheduler.LinearConstantOnBlocks | utils/scheduler.py:17 | with an int NUM_MINIBATCHES n > 0, the rate is the same for all n counts of a block of minibatches |
| Scheduler.LinearRateNonIncreasing | utils/scheduler.py:17-19 | with positive divisors and non-negative lr and e, the closed form never increases with count |
| Scheduler.LinearNonIncreasing | utils/scheduler.py:11-19 | the same monotonicity for the schedule on a configuration |
| Scheduler.DecayPastHorizon | utils/scheduler.py:17-19 | once the step index passes NUM_UPDATES, the decay is negative (it is not clamped) |
| Scheduler.LinearBecomesNegative | utils/scheduler.py:11-19 | the schedule goes negative past the horizon |
| Scheduler.LinearDivisionByZero | utils/scheduler.py:12-17 | NUM_MINIBATCHES = 0, or NUM_UPDATES = 0 with the earlier reads numeric, raises ZeroDivisionError |
| Scheduler.CosineAngle | utils/scheduler.py:37 | `(count % t_max) / t_max * pi` is frac(count / t_max) times pi, in [0, pi); T_MAX = 0 raises ZeroDivisionError and a non-number raises TypeError |
| Scheduler.CosineBlend | utils/scheduler.py:38 | `min_lr + 0.5 * (initial_lr - min_lr) * (1 + c)` is the blend of the two rates, or TypeError on a non-number |
| Scheduler.CosineAnnealingSchedule | utils/scheduler.py:21-40 | `cosine_annealing_schedule` returns a float when it does not raise |
| Scheduler.CosinePhase | utils/scheduler.py:34-37 | for a non-zero numeric T_MAX, the phase `(count % t_max) / t_max` is frac(count / t_max), which lies in [0, 1) |
| Scheduler.CosineClosedForm | utils/scheduler.py:21-40 | for a well-typed configuration, the schedule equals min_lr + 0.5(lr - min_lr)(1 + cos(frac(count/T) pi)) |
| Scheduler.CosineDependsOnRemainder | utils/scheduler.py:37 | two counts with the same remainder modulo T_MAX give the same result |
| Scheduler.CosinePeriodic | utils/scheduler.py:37 | with an int T_MAX the schedule is periodic with period T_MAX |
| Scheduler.BlendBounds | utils/scheduler.py:38 | with min_lr <= lr and a cosine in [-1, 1], the blend lies between min_lr and lr |
| Scheduler.CosineBounds | utils/scheduler.py:32-40 | so the schedule stays within [MIN_LR, LR] |
| Scheduler.CosineRateAtCycleStart | utils/scheduler.py:37-38 | the closed form at every multiple of the period is lr |
| Scheduler.CosineRestartsAtLr | utils/scheduler.py:37-38 | the schedule restarts at LR at every multiple of an int T_MAX |
| Scheduler.CosineBadPeriod | utils/scheduler.py:34-37 | T_MAX = 0 raises ZeroDivisionError and a non-numeric T_MAX raises TypeError |
| Scheduler.GetSchedulerFromStr | utils/scheduler.py:48-62 | it succeeds exactly when the string is a member's name (case-sensitive) and then returns the member of that name; otherwise it raises ValueError built from the prefix, the string and the options list |
| Scheduler.FromStrRoundTrip | utils/scheduler.py:57-58 | resolving a member's name gives that member back, and only its own name resolves to it |
| Scheduler.FromStrRejects | utils/scheduler.py:57-62 | names differing only in case, and unknown names, are rejected |
| Scheduler.QuotedNamesListAll | utils/scheduler.py:62 | every name appears in the rendered list of names |
| Scheduler.FromStrErrorMessage | utils/scheduler.py:61-62 | the rejection message begins with "Unknown scheduler name: " and the offending string, and contains every valid name |
| Scheduler.SchedulerMappingKeys | utils/scheduler.py:43-46 | the keys of the mapping are exactly the enum members |
| Scheduler.SchedulerMappingTable | utils/scheduler.py:43-46 | LinearLR maps to the linear schedule and CosineAnnealingLR to the cosine schedule |
| Scheduler.Apply | utils/scheduler.py:74 | calling the mapped function: the Linear strategy runs the linear schedule and CosineAnnealing the cosine schedule on (count, config) |
| Scheduler.SchedulerName | utils/scheduler.py:72 | SCHEDULER as stored, or the string "InvalidScheduer" when absent |
| Scheduler.GetSchedulerHandler | utils/scheduler.py:64-76 | a handler is built exactly when SCHEDULER holds an enum member; at every count it equals the mapped schedule applied to the configuration; otherwise it raises ValueError naming the value found, without the options list |
| Scheduler.HandlerRejectsStrings | utils/scheduler.py:72-76 | a string under SCHEDULER is rejected, even a member's exact name |
| Scheduler.HandlerMissingScheduler | utils/scheduler.py:72-76 | a missing SCHEDULER is rejected under the default name "InvalidScheduer" |
| Scheduler.HandlerFromName | utils/scheduler.py:57-74 | storing the member resolved from a valid name yields the handler of the schedule so named, at every count |
| Config.NumUpdatesOf | utils/config.py:9-11 | the errors come in evaluation order: a missing TOTAL_TIMESTEPS, then NUM_STEPS, then a zero or non-numeric NUM_STEPS, then a missing NUM_ENVS, then a zero or non-numeric one; it succeeds exactly when all three are numbers with non-zero divisors; the value is floor(floor(T / S) / E), an int exactly when all three are ints |
| Config.MinibatchSizeOf | utils/config.py:13-15 | the errors come in evaluation order: NUM_ENVS, NUM_STEPS, then NUM_MINIBATCHES (missing, non-numeric, zero); it succeeds exactly when all three are numbers and NUM_MINIBATCHES is non-zero; the value is floor(E * S / M), an int exactly when all three are ints |
| Config.ConfigDict.constructor | utils/config.py:6-7 | the dictionary starts as the parsed mapping |
| Config.ConfigDict.Enrich | utils/config.py:9-15 | a failing NUM_UPDATES leaves the dictionary unchanged; a failing MINIBATCH_SIZE leaves NUM_UPDATES written; success writes both keys (overwriting them if present); every other key keeps its value |
| Config.ReadConfig | utils/config.py:5-19 | the result is the parsed mapping plus both derived keys with the formulas' values, or the first error raised |
| Config.MinibatchSizeSkipsNumUpdates | utils/config.py:9-15 | writing NUM_UPDATES first does not change the minibatch formula |
| Config.NumUpdatesChained | utils/config.py:10 | with int entries and positive NUM_STEPS and NUM_ENVS, NUM_UPDATES is TOTAL_TIMESTEPS // (NUM_STEPS * NUM_ENVS) |
| Config.ExampleEnrichment | utils/config.py:9-15 | 1000000 timesteps, 128 steps, 8 environments and 4 minibatches give 976 updates and a minibatch size of 256 |

## Left out

- Opening the file, YAML parsing and `print_config` (utils/config.py:1-7, 17): these are I/O and foreign library calls. `ReadConfig` starts from the parsed mapping.
- Floating point: floats are exact reals. Rounding, overflow, `inf` and `nan` are not modelled.
- `math.cos` is a parameter of the cosine schedule. Its range [-1, 1] and `cos(0) = 1` are assumed only where a lemma needs them.
- `math.pi` is the exact decimal 3.141592653589793.
- Booleans, lists, dictionaries and other YAML values are not modelled. A configuration value is an int, a float, a string, `None` or an enum member.
- String formatting with `%` (`"%d" % 5`) is not modelled: `PyArith.Mod` takes a numeric left operand, and a string there gives TypeError. The core applies `%` only to the int step count.
- The integer values attached to the enum members (1 and 2) are not modelled; no logic reads them.
- The unused `jax` import and the type annotations are not modelled.
- Scheduler.GetSchedulerHandler: the error keeps the offending value rather than the text `str(value)`. The rendering of a non-string value (an enum member, a float) is not modelled.
- Scheduler.LinearSchedule, Scheduler.CosineAnnealingSchedule: their own contracts state only that the result is a float. The values are stated by `LinearClosedForm` and `CosineClosedForm`, and the error cases by `LinearDivisionByZero` and `CosineBadPeriod`.
- Python's late binding of `config` inside the handler's closure is not modelled. The closure sees later mutations of the dictionary; the model's closure uses the configuration as it was when the handler was built.
- Config.ReadConfig: it does not keep the dictionary's key order.
