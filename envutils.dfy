/** `Env` and `EnvWithDefault`: read one environment variable, strip the
    surrounding white space, and treat a blank result as missing. */
module EnvUtils {
  import opened Wrappers
  import opened Strings
  import opened Errors

  /** A snapshot of the process environment: variable name to value. */
  type Environ = map<string, string>

  /** Whether `key` can name a variable at all. The process environment is a
      list of NUL-terminated `name=value` entries split at the first `=`, so no
      name is empty or holds `=` or NUL; Go answers "" for an empty name before
      looking anything up. */
  predicate ValidName(key: string) {
    key != "" && '=' !in key && '\0' !in key
  }

  /** `os.Getenv`: the variable's value, or "" when it is unset or `key`
      cannot name a variable. */
  function Getenv(env: Environ, key: string): (v: string)
    ensures v != "" ==> ValidName(key) && key in env && v == env[key]
    ensures ValidName(key) && key in env ==> v == env[key]
  {
    if ValidName(key) && key in env then env[key] else ""
  }

  /** The trimmed value of `key`, or `defValue` when that is blank. */
  function EnvWithDefault(env: Environ, key: string, defValue: string): (r: string)
    ensures AllSpace(Getenv(env, key)) ==> r == defValue
    ensures !AllSpace(Getenv(env, key)) ==>
      r != "" && NoSurroundingSpace(r) && r == TrimSpace(Getenv(env, key))
  {
    var value := TrimSpace(Getenv(env, key));
    if value == "" then defValue else value
  }

  /** The trimmed value of `key`, or an error naming `key` when that is blank. */
  function Env(env: Environ, key: string): (r: Result<string, Error>)
    ensures r.Failure? <==> AllSpace(Getenv(env, key))
    ensures r.Failure? ==> r.error == NotFound(key)
    ensures r.Success? ==> r.value != "" && NoSurroundingSpace(r.value)
  {
    var value := TrimSpace(Getenv(env, key));
    if value == "" then Failure(NotFound(key)) else Success(value)
  }

  /** An unset variable reads as blank, so the default is returned. */
  lemma EnvWithDefaultUnset(env: Environ, key: string, defValue: string)
    requires key !in env
    ensures EnvWithDefault(env, key, defValue) == defValue
    ensures Env(env, key) == Failure(NotFound(key))
  {
  }

  /** A name that is empty or holds `=` or NUL reads as unset whatever the
      snapshot holds: `Env` fails naming it and `EnvWithDefault` returns the
      default. */
  lemma EnvInvalidName(env: Environ, key: string, defValue: string)
    requires key == "" || '=' in key || '\0' in key
    ensures Env(env, key) == Failure(NotFound(key))
    ensures EnvWithDefault(env, key, defValue) == defValue
  {
  }

  /** The default comes back exactly when the variable is blank or its trimmed
      value happens to equal the default. */
  lemma EnvWithDefaultReturnsDefault(env: Environ, key: string, defValue: string)
    ensures EnvWithDefault(env, key, defValue) == defValue <==>
      AllSpace(Getenv(env, key)) || TrimSpace(Getenv(env, key)) == defValue
  {
  }

  /** A non-blank variable makes the default irrelevant. */
  lemma EnvWithDefaultIgnoresDefault(env: Environ, key: string, d1: string, d2: string)
    requires !AllSpace(Getenv(env, key))
    ensures EnvWithDefault(env, key, d1) == EnvWithDefault(env, key, d2)
  {
  }

  /** `Env` and `EnvWithDefault` agree: where `Env` succeeds with `v`,
      `EnvWithDefault` returns `v` whatever the default; where `Env` fails,
      `EnvWithDefault` returns the default. */
  lemma EnvAgreesWithDefault(env: Environ, key: string, defValue: string)
    ensures Env(env, key).Success? ==> EnvWithDefault(env, key, defValue) == Env(env, key).value
    ensures Env(env, key).Failure? ==> EnvWithDefault(env, key, defValue) == defValue
  {
  }

  /** A value either helper reads from the environment is already trimmed:
      trimming it again changes nothing. */
  lemma EnvResultsAreTrimmed(env: Environ, key: string, defValue: string)
    ensures Env(env, key).Success? ==> TrimSpace(Env(env, key).value) == Env(env, key).value
    ensures !AllSpace(Getenv(env, key)) ==>
      TrimSpace(EnvWithDefault(env, key, defValue)) == EnvWithDefault(env, key, defValue)
  {
    TrimSpaceIdempotent(Getenv(env, key));
  }

  /** What `Env` returns is the variable's value with only white space removed
      around it. */
  lemma EnvValueInVariable(env: Environ, key: string) returns (pre: string, post: string)
    requires Env(env, key).Success?
    ensures Getenv(env, key) == pre + Env(env, key).value + post
    ensures AllSpace(pre) && AllSpace(post)
  {
    pre, post := TrimSpaceParts(Getenv(env, key));
  }
}
