/** Option and Result, used where the Java code returns null or throws. */
module Wrappers {

  datatype Option<+T> = None | Some(value: T)

  /** Success carries a method's return value; Failure the exception it throws. */
  datatype Result<+R, +E> = Success(value: R) | Failure(error: E)

  /** For operations that return nothing on success (Java `void`). */
  datatype Outcome<+E> = Pass | Fail(error: E)
}

/** The exceptions the modelled code throws or lets through. */
module Errors {
  import opened Wrappers

  /** The detail of a `CodecConfigurationException`. */
  datatype ConfigMessage =
    | FailedToDecode(entity: string, cause: Error)      // "Failed to decode '%s'. Decoding errored with: %s"
    | NonEntityDiscriminator(discriminator: string)     // "Non-entity class used as discriminator: '%s'."
    | NoCodecFor(className: string)                     // registry lookup found no codec

  datatype Error =
    | AssertionFailed(parameter: string)      // dev.morphia.utils.Assert: null or empty argument
    | QueryError(message: string)             // QueryException
    | CodecConfiguration(detail: ConfigMessage)
    | InvalidOperation                        // BsonInvalidOperationException
    | UnsupportedOperation(message: string)
    | Aggregation(message: string)            // AggregationException
    | ClassCast(key: string)                  // Document.getString on a non-string value
    | Foreign(token: nat)                     // any failure raised by code outside this model

  const GEO_NOT_NEGATABLE := "Geospatial queries cannot be negated with 'not'."
  /** Sofia.encodingOnly(): stage codecs only encode. */
  const ENCODING_ONLY := "encoding only"

  /** Sofia.mixedModesNotAllowed(operation). */
  function MixedModesNotAllowed(operation: string): string {
    "mixed modes not allowed: " + operation
  }
}

/** ASCII case mapping, as String.toLowerCase applies it to ASCII text. */
module Text {

  function LowerChar(c: char): (r: char)
    ensures 'A' <= c <= 'Z' ==> r as int == c as int + 32
    ensures !('A' <= c <= 'Z') ==> r == c
  {
    if 'A' <= c <= 'Z' then (c as int + 32) as char else c
  }

  function Lower(s: string): (r: string)
    ensures |r| == |s|
    ensures forall i :: 0 <= i < |s| ==> r[i] == LowerChar(s[i])
    decreases |s|
  {
    if s == [] then [] else [LowerChar(s[0])] + Lower(s[1..])
  }

  predicate IsLower(s: string) {
    forall i :: 0 <= i < |s| ==> !('A' <= s[i] <= 'Z')
  }

  /** Lower-casing leaves no upper-case letter, and lower-cased text is unchanged by it. */
  lemma LowerSpec(s: string)
    ensures IsLower(Lower(s))
    ensures Lower(Lower(s)) == Lower(s)
    ensures IsLower(s) ==> Lower(s) == s
  {
  }
}
