/**
 * Configuration lookup as the gateway writes it:
 * `$_ENV['NAME'] ?? getenv('NAME') ?: $default`.
 */
module Environ {
  /** `$_ENV` (filled from the .env file) and the process environment `getenv` reads. */
  datatype Environment = Environment(dotenv: map<string, string>, process: map<string, string>)

  /** The strings PHP treats as false: "" and "0". */
  predicate Falsy(s: string) {
    s == "" || s == "0"
  }

  /**
   * `??` binds tighter than `?:`: `$_ENV` wins when it has the name, then
   * `getenv` (false when unset); a falsy result gives way to `default`.
   */
  function Lookup(e: Environment, name: string, default: string): (r: string)
    ensures name in e.dotenv && !Falsy(e.dotenv[name]) ==> r == e.dotenv[name]
    ensures name in e.dotenv && Falsy(e.dotenv[name]) ==> r == default
    ensures name !in e.dotenv && name in e.process && !Falsy(e.process[name]) ==> r == e.process[name]
    ensures name !in e.dotenv && (name in e.process ==> Falsy(e.process[name])) ==> r == default
  {
    if name in e.dotenv then
      (if Falsy(e.dotenv[name]) then default else e.dotenv[name])
    else if name in e.process && !Falsy(e.process[name]) then e.process[name]
    else default
  }

  /** A set-but-empty `$_ENV` entry hides the process environment: it does not fall through to it. */
  lemma DotenvShadowsProcess(e: Environment, name: string, default: string)
    requires name in e.dotenv && e.dotenv[name] == ""
    ensures Lookup(e, name, default) == default
  {
  }
}
