/** `VCAP`: look a credential up in the user-provided service binding carried
    by the `VCAP_SERVICES` environment variable. */
module Vcap {
  import opened Wrappers
  import opened Strings
  import opened Errors
  import opened EnvUtils

  /** The `user_provided` object: one map of credential name to value.
      A document without `credentials` decodes to the empty map. */
  datatype UserProvided = UserProvided(credentials: map<string, string>)

  /** The decoded `VCAP_SERVICES` document; fields other than
      `user_provided` are ignored by the decoder. */
  datatype VcapServices = VcapServices(userProvided: UserProvided)

  /** `json.Unmarshal` into `VcapServices`, seen from outside: `None` when it
      reports an error (malformed JSON, or a field of the wrong type). */
  type Decoder = string -> Option<VcapServices>

  /** The environment variable holding the service-binding document. */
  const ServicesVar: string := "VCAP_SERVICES"

  /** The first two steps of `VCAP`: read `VCAP_SERVICES` through `Env` and
      decode it. */
  function Services(env: Environ, decode: Decoder): (r: Result<VcapServices, Error>)
    ensures r.Failure? ==> r.error == NotFound(ServicesVar) || r.error == DecodeError
    ensures r.Failure? && r.error == NotFound(ServicesVar) <==> AllSpace(Getenv(env, ServicesVar))
    ensures r.Success? <==>
      !AllSpace(Getenv(env, ServicesVar)) && decode(TrimSpace(Getenv(env, ServicesVar))).Some?
    ensures r.Success? ==> r.value == decode(TrimSpace(Getenv(env, ServicesVar))).value
  {
    match Env(env, ServicesVar)
    case Failure(e) => Failure(e)
    case Success(v) =>
      match decode(v)
      case None => Failure(DecodeError)
      case Some(data) => Success(data)
  }

  /** The credentials of a decoded document. */
  function CredentialsOf(data: VcapServices): map<string, string> {
    data.userProvided.credentials
  }

  /** `VCAP(key)`: the trimmed credential stored under `key`, or else under
      the lower-cased `key`. */
  function Lookup(env: Environ, decode: Decoder, key: string): (r: Result<string, Error>)
    ensures r.Success? ==> NoSurroundingSpace(r.value)
    ensures r.Success? <==>
      && Services(env, decode).Success?
      && var c := CredentialsOf(Services(env, decode).value);
         key in c || ToLower(key) in c
    ensures r.Success? ==>
      var c := CredentialsOf(Services(env, decode).value);
      || (key in c && r.value == TrimSpace(c[key]))
      || (key !in c && r.value == TrimSpace(c[ToLower(key)]))
    ensures r.Failure? ==>
      r.error == NotFound(ServicesVar) || r.error == DecodeError || r.error == NotFound(key)
  {
    match Services(env, decode)
    case Failure(e) => Failure(e)
    case Success(data) =>
      var credentials := CredentialsOf(data);
      if key in credentials then Success(TrimSpace(credentials[key]))
      else if ToLower(key) in credentials then Success(TrimSpace(credentials[ToLower(key)]))
      else Failure(NotFound(key))
  }

  /** An unset or blank `VCAP_SERVICES` is an error for every key. */
  lemma VcapWithoutServices(env: Environ, decode: Decoder, key: string)
    requires AllSpace(Getenv(env, ServicesVar))
    ensures Lookup(env, decode, key) == Failure(NotFound(ServicesVar))
  {
  }

  /** A `VCAP_SERVICES` value that does not decode is an error for every key. */
  lemma VcapMalformedServices(env: Environ, decode: Decoder, key: string)
    requires !AllSpace(Getenv(env, ServicesVar))
    requires decode(TrimSpace(Getenv(env, ServicesVar))) == None
    ensures Lookup(env, decode, key) == Failure(DecodeError)
  {
  }

  /** The exact key wins, even when the lower-cased key is bound to another
      value. */
  lemma VcapExactKeyFirst(env: Environ, decode: Decoder, key: string)
    requires Services(env, decode).Success?
    requires key in CredentialsOf(Services(env, decode).value)
    ensures Lookup(env, decode, key) == Success(TrimSpace(CredentialsOf(Services(env, decode).value)[key]))
  {
  }

  /** Without the exact key, the lower-cased key is used. */
  lemma VcapLowerCaseFallback(env: Environ, decode: Decoder, key: string)
    requires Services(env, decode).Success?
    requires key !in CredentialsOf(Services(env, decode).value)
    requires ToLower(key) in CredentialsOf(Services(env, decode).value)
    ensures Lookup(env, decode, key) ==
      Success(TrimSpace(CredentialsOf(Services(env, decode).value)[ToLower(key)]))
  {
  }

  /** With neither the key nor its lower-cased form bound, the lookup fails
      with an error naming the key. Other spellings, such as an upper-cased
      binding for a lower-case key, are not tried. */
  lemma VcapMissingKey(env: Environ, decode: Decoder, key: string)
    requires Services(env, decode).Success?
    requires key !in CredentialsOf(Services(env, decode).value)
    requires ToLower(key) !in CredentialsOf(Services(env, decode).value)
    ensures Lookup(env, decode, key) == Failure(NotFound(key))
  {
  }

  /** Every successful lookup comes from the decoded credentials: it is the
      trimmed value bound to the key, or to the lower-cased key. */
  lemma VcapSuccessOrigin(env: Environ, decode: Decoder, key: string)
    requires Lookup(env, decode, key).Success?
    ensures Services(env, decode).Success?
    ensures
      var c := CredentialsOf(Services(env, decode).value);
      exists k :: (k == key || k == ToLower(key)) && k in c &&
        Lookup(env, decode, key).value == TrimSpace(c[k])
  {
    var c := CredentialsOf(Services(env, decode).value);
    if key in c {
      assert key in c;
    } else {
      assert ToLower(key) in c;
    }
  }

  /** `VCAP` succeeds exactly when `VCAP_SERVICES` is non-blank, decodes, and
      binds the key or its lower-cased form. */
  lemma VcapSucceedsIff(env: Environ, decode: Decoder, key: string)
    ensures Lookup(env, decode, key).Success? <==>
      && !AllSpace(Getenv(env, ServicesVar))
      && decode(TrimSpace(Getenv(env, ServicesVar))).Some?
      && var c := CredentialsOf(decode(TrimSpace(Getenv(env, ServicesVar))).value);
         key in c || ToLower(key) in c
  {
  }

  /** A credential that is blank after trimming is returned as a success with
      the empty string; only the environment helpers treat blank as missing. */
  lemma VcapBlankCredential(env: Environ, decode: Decoder, key: string)
    requires Services(env, decode).Success?
    requires key in CredentialsOf(Services(env, decode).value)
    requires AllSpace(CredentialsOf(Services(env, decode).value)[key])
    ensures Lookup(env, decode, key) == Success("")
  {
  }

  /** For a key without upper-case letters both lookups are the same, so the
      result depends on the binding of the key alone. */
  lemma VcapLowerCaseKey(env: Environ, decode: Decoder, key: string)
    requires Services(env, decode).Success?
    requires forall i :: 0 <= i < |key| ==> !IsUpper(key[i])
    ensures
      var c := CredentialsOf(Services(env, decode).value);
      Lookup(env, decode, key) == if key in c then Success(TrimSpace(c[key])) else Failure(NotFound(key))
  {
    ToLowerFixedPoint(key);
  }

  /** `VCAP` reads the environment only through `VCAP_SERVICES`: changing any
      other variable, including one named like the key, changes nothing. */
  lemma VcapIgnoresOtherVariables(env: Environ, decode: Decoder, key: string, name: string, value: string)
    requires name != ServicesVar
    ensures Lookup(env[name := value], decode, key) == Lookup(env, decode, key)
  {
    assert Getenv(env[name := value], ServicesVar) == Getenv(env, ServicesVar);
  }

  /** The decoder is consulted only on the trimmed `VCAP_SERVICES` value. */
  lemma VcapDecodesTrimmedValue(env: Environ, d1: Decoder, d2: Decoder, key: string)
    requires d1(TrimSpace(Getenv(env, ServicesVar))) == d2(TrimSpace(Getenv(env, ServicesVar)))
    ensures Lookup(env, d1, key) == Lookup(env, d2, key)
  {
  }
}
