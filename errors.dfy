/** The errors the credential resolver reports. Go returns plain `error`
    values; the model keeps what tells them apart. */
module Errors {

  datatype Error =
    /** A variable or credential named `name` is missing or blank. */
    | NotFound(name: string)
    /** The service-binding document is not valid JSON of the expected shape. */
    | DecodeError
  {
    /** The text Go formats for a `NotFound` error; `Env` and `VCAP` use the
        same wording, so a missing credential reads like a missing variable. */
    function Message(): (m: string)
      requires NotFound?
      ensures |m| == |name| + 34
      ensures m[12..12 + |name|] == name
      ensures m[..12] == "can't find `" && m[12 + |name|..] == "` environment variable"
    {
      "can't find `" + name + "` environment variable"
    }
  }

  /** Distinct names give distinct not-found messages, so the message alone
      tells which variable or credential was missing. */
  lemma MessageIdentifiesName(a: string, b: string)
    requires NotFound(a).Message() == NotFound(b).Message()
    ensures a == b
  {
    assert |a| == |b|;
    assert a == NotFound(a).Message()[12..12 + |a|];
  }
}
