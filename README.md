# Credential resolver of the SPIRE agent sidecar buildpack

This project models, in Dafny, how the buildpack's `utils` package decides what
string value a named configuration key gets:

- `Env` and `EnvWithDefault` read one environment variable and strip the white
  space around it. A blank result counts as missing: `Env` reports an error
  naming the variable and `EnvWithDefault` returns the caller's default.
- `VCAP` reads the `VCAP_SERVICES` variable through `Env` and decodes it as JSON
  into one `user_provided` object with a `credentials` string map. It looks the
  key up exactly, then in lower case, and returns the trimmed value. Otherwise it
  reports an error.

Modules, one per source file or library:

- `Wrappers` (`wrappers.dfy`): `Option` and `Result`.
- `Strings` (`strings.dfy`): Go's `strings.TrimSpace` (over the white-space set
  of `unicode.IsSpace`, finding the first and last non-space positions as Go
  does) and an ASCII `strings.ToLower`.
- `Errors` (`errors.dfy`): the two kinds of error the resolver returns.
- `EnvUtils` (`envutils.dfy`): `Env` and `EnvWithDefault` over an environment
  snapshot `map<string, string>`. An unset variable reads as "", as with
  `os.Getenv`. So does a name that is empty or holds `=` or NUL, whatever the
  snapshot holds: Go answers "" for an empty name without looking it up, and
  no NUL-terminated `name=value` entry of the process environment has such a
  name.
- `Vcap` (`vcap.dfy`): `VCAP`. The JSON decoder is a parameter:
  `Decoder = string -> Option<VcapServices>`, where `None` means that
  `json.Unmarshal` reported an error.

Points of the Go code worth stating plainly:

- `user_provided` is decoded as one object. That a JSON array there makes
  `json.Unmarshal` fail is a fact about `encoding/json`, which lies outside
  the model: the decoder is a parameter. What is proved is the step after it:
  a value the decoder rejects makes `VCAP` fail for every key
  (`Vcap.VcapMalformedServices`).
- `VCAP` reads only `VCAP_SERVICES`. It never falls back to the environment
  variable named by the key (`Vcap.VcapIgnoresOtherVariables`).
- The case fallback goes one way only: the key itself, then `ToLower(key)`. A
  lower-case lookup does not find an upper-case entry (`Vcap.VcapMissingKey`).
- A credential that is blank after trimming is a success with "", not a
  missing value (`Vcap.VcapBlankCredential`). Only `Env` and `EnvWithDefault`
  treat blank as missing.

## Model

| member | source | states |
|---|---|---|
| `Strings.FirstNonSpace` | src/utils/envutils.go:10 | the index found is the first non-space position at or after the start (or the end of the string): everything skipped is white space |
| `Strings.EndOfNonSpace` | src/utils/envutils.go:10 | the index found ends the last non-space character of the range (or is its start): everything after it in the range is white space |
| `Strings.TrimSpace` | src/utils/envutils.go:10 | the result is a slice of the input with only white space before and after it, has no surrounding white space itself, and is empty exactly when the input is all white space |
| `Strings.TrimSpaceParts` | src/utils/vcap.go:30 | the input is white space, then the trimmed result, then white space |
| `Strings.TrimSpaceUnique` | src/utils/envutils.go:10 | any split into white space, a middle without surrounding white space, and white space has TrimSpace equal to that middle, so TrimSpace is fully determined by its contract |
| `Strings.TrimSpaceIdempotent` | src/utils/envutils.go:18 | trimming an already trimmed string changes nothing |
| `Strings.ToLower` | src/utils/vcap.go:32 | same length as the input; each character is the ASCII lower-case form of the input's character at that position; no upper-case letter remains |
| `Strings.ToLowerFixedPoint` | src/utils/vcap.go:32 | a string equals its lower-cased form exactly when it holds no upper-case letter |
| `Strings.ToLowerIdempotent` | src/utils/vcap.go:32 | lower-casing twice is the same as lower-casing once |
| `Errors.Error.Message` | src/utils/envutils.go:20 | the not-found message is the fixed text "can't find \`", then the name, then the fixed text "\` environment variable"; its length is the name's plus 34 |
| `Errors.MessageIdentifiesName` | src/utils/vcap.go:36 | two not-found messages are equal only for the same name, so the message tells which variable or credential was missing |
| `EnvUtils.EnvWithDefault` | src/utils/envutils.go:9-15 | a blank or unset variable yields the default; otherwise the result is the non-empty trimmed value, with no surrounding white space |
| `EnvUtils.Env` | src/utils/envutils.go:17-23 | fails exactly when the variable is blank or unset, and then with an error naming the variable; on success the value is non-empty with no surrounding white space |
| `EnvUtils.EnvWithDefaultUnset` | src/utils/envutils.go:10-12 | an unset variable reads as "": `EnvWithDefault` returns the default and `Env` fails |
| `EnvUtils.Getenv` | src/utils/envutils.go:18 | a non-empty result is the snapshot's value for a name that can name a variable (non-empty, without `=` or NUL); such a name present in the snapshot yields its value |
| `EnvUtils.EnvInvalidName` | src/utils/envutils.go:10-12 | a name that is empty or holds `=` or NUL reads as unset whatever the environment holds: `Env` fails naming it and `EnvWithDefault` returns the default |
| `EnvUtils.EnvWithDefaultReturnsDefault` | src/utils/envutils.go:10-14 | the default comes back exactly when the variable is blank or its trimmed value equals the default |
| `EnvUtils.EnvWithDefaultIgnoresDefault` | src/utils/envutils.go:14 | with a non-blank variable the result does not depend on the default |
| `EnvUtils.EnvAgreesWithDefault` | src/utils/envutils.go:9-23 | where `Env` succeeds with v, `EnvWithDefault` returns v for every default; where `Env` fails, `EnvWithDefault` returns the default |
| `EnvUtils.EnvResultsAreTrimmed` | src/utils/envutils.go:10-22 | a value read by either helper from the environment is unchanged by a second TrimSpace |
| `EnvUtils.EnvValueInVariable` | src/utils/envutils.go:18-22 | the value `Env` returns is the variable's value with only white space removed around it |
| `Vcap.Services` | src/utils/vcap.go:18-27 | succeeds exactly when `VCAP_SERVICES` is non-blank and its trimmed value decodes, and then holds the decoded document; fails with the not-found error for `VCAP_SERVICES` exactly when that variable is blank or unset; any other failure is a decode error |
| `Vcap.Lookup` | src/utils/vcap.go:17-37 | succeeds exactly when the document is available and binds the key or its lower-cased form; a success is the trimmed binding of the key, or of the lower-cased key when the key itself is unbound, and has no surrounding white space; a failure is a missing `VCAP_SERVICES`, a decode error, or the not-found error naming the key |
| `Vcap.VcapWithoutServices` | src/utils/vcap.go:18-21 | a blank or unset `VCAP_SERVICES` makes every lookup fail with the error naming `VCAP_SERVICES` |
| `Vcap.VcapMalformedServices` | src/utils/vcap.go:23-27 | a `VCAP_SERVICES` value that does not decode makes every lookup fail with a decode error |
| `Vcap.VcapExactKeyFirst` | src/utils/vcap.go:29-31 | an exactly bound key yields its trimmed value, whatever the lower-cased key is bound to |
| `Vcap.VcapLowerCaseFallback` | src/utils/vcap.go:32-34 | without the exact key, a bound lower-cased key yields its trimmed value |
| `Vcap.VcapMissingKey` | src/utils/vcap.go:36 | with neither the key nor its lower-cased form bound, the lookup fails with the error naming the key |
| `Vcap.VcapSuccessOrigin` | src/utils/vcap.go:29-34 | every success is the trimmed value bound to the key or to the lower-cased key in the decoded credentials |
| `Vcap.VcapSucceedsIff` | src/utils/vcap.go:17-37 | success exactly when `VCAP_SERVICES` is non-blank, decodes, and binds the key or its lower-cased form |
| `Vcap.VcapBlankCredential` | src/utils/vcap.go:29-31 | a credential that is blank after trimming is returned as a success with "" |
| `Vcap.VcapLowerCaseKey` | src/utils/vcap.go:29-34 | for a key without upper-case letters the result depends only on that key's own binding |
| `Vcap.VcapIgnoresOtherVariables` | src/utils/vcap.go:18 | changing any environment variable other than `VCAP_SERVICES` leaves every lookup unchanged: there is no environment fallback |
| `Vcap.VcapDecodesTrimmedValue` | src/utils/vcap.go:18-24 | the decoder is applied to the trimmed `VCAP_SERVICES` value and nothing else |

## Left out

- `Strings.ToLower`: maps only the ASCII letters `A`..`Z`. Go's `strings.ToLower` also lower-cases non-ASCII letters by Unicode rules. For keys made only of ASCII characters the two agree.
- `Strings.TrimSpace`: works on code points. Go works on UTF-8 bytes, and an invalid byte sequence decodes to U+FFFD, which is not white space. Strings here are always valid sequences of code points.
- The internals of `encoding/json` are not modelled. `json.Unmarshal` is the `Decoder` parameter. What it accepts, duplicate-key handling, and the text of its errors are outside the model.
- Error messages: `Errors.Error.Message` gives the text of the not-found error. The decoder's error text is not modelled (`DecodeError` carries none).
- `os.Getenv` reads the live process environment. Here it is an explicit `map<string, string>` snapshot passed in.
- src/spire/supply/supply.go is not part of this model. Its `Run`, `InstallSpireAgent`, `CopySpireAgentConf` and `Setup` do file checks, copies, template rendering, YAML loading, directory creation and logging through external libraries. The `Stager`, `Manifest`, `Installer` and `Command` interfaces have no logic of their own.
