/** The Python objects a parsed configuration holds, the exceptions the core
    raises, and the two ways the core reads a configuration dictionary
    (`config.get(key, default)` and `config[key]`). */
module PyObjects {
  import opened SchedulerKinds

  /** A scalar configuration value: an `int`, a `float` (as an exact real),
      a `str`, `None`, or a `SchedulerEnum` member. */
  datatype Value =
    | IntV(i: int)
    | RealV(r: real)
    | StrV(s: string)
    | NoneV
    | SchedV(member: SchedulerEnum)

  /** The exceptions raised by the core. A `ValueError` keeps its message in
      three parts, `prefix + str(subject) + suffix`, so that the offending
      value is kept even when it is not a string. */
  datatype PyError =
    | ValueError(prefix: string, subject: Value, suffix: string)
    | KeyError(key: string)
    | ZeroDivisionError
    | TypeError

  /** The text of a `ValueError` whose subject is a string. */
  function ValueErrorText(e: PyError): string
    requires e.ValueError? && e.subject.StrV?
  {
    e.prefix + e.subject.s + e.suffix
  }

  /** A computation that returns a `T` or raises. */
  datatype Result<+T> = Ok(value: T) | Err(error: PyError) {
    predicate IsFailure() { Err? }
    /** Only called on an `Err`; an `Ok` maps to an arbitrary error so that
        no precondition is needed where a failure cannot happen. */
    function PropagateFailure<U>(): Result<U> {
      match this
      case Err(e) => Err(e)
      case Ok(_) => Err(TypeError)
    }
    function Extract(): T requires Ok? { value }
  }

  /** A statement that completes or raises. */
  datatype Outcome = Pass | Fail(error: PyError)

  /** A parsed configuration dictionary. */
  type Config = map<string, Value>

  /** `config.get(key, default)`. */
  function Get(config: Config, key: string, default: Value): (v: Value)
    ensures key in config ==> v == config[key]
    ensures key !in config ==> v == default
  {
    if key in config then config[key] else default
  }

  /** `config[key]`, which raises `KeyError` for a missing key. */
  function Index(config: Config, key: string): (r: Result<Value>)
    ensures r.Ok? <==> key in config
    ensures r.Ok? ==> r.value == config[key]
    ensures r.Err? ==> r.error == KeyError(key)
  {
    if key in config then Ok(config[key]) else Err(KeyError(key))
  }

  /** `t` occurs in `s` starting at index `i`. */
  predicate OccursAt(t: string, s: string, i: int) {
    0 <= i && i + |t| <= |s| && s[i..i + |t|] == t
  }

  /** `t in s` for strings. */
  ghost predicate IsSubstring(t: string, s: string) {
    exists i :: OccursAt(t, s, i)
  }
}
