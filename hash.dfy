/** The shape of a review-comment fingerprint. The digest itself (the first
    twelve hex digits of the SHA-1 of "path:line") is not modelled: callers
    receive the fingerprint function as a parameter, and only the shape
    below is assumed of it where a proof needs it. */
module Hash {

  const FingerprintLength: nat := 12

  /** A character of the class `[0-9a-f]`. */
  predicate IsHexDigit(c: char) {
    '0' <= c <= '9' || 'a' <= c <= 'f'
  }

  /** Twelve lower-case hex digits. */
  predicate IsFingerprint(s: string) {
    |s| == FingerprintLength && forall i :: 0 <= i < |s| ==> IsHexDigit(s[i])
  }

  /** The fingerprint of a (file, line) slot. Being a Dafny function, it is
      deterministic: equal slots give equal fingerprints. */
  type Fingerprinter = (string, int) -> string

  /** A fingerprint function whose every value has the shape above. */
  ghost predicate YieldsHex(fingerprint: Fingerprinter) {
    forall file: string, line: int :: IsFingerprint(fingerprint(file, line))
  }
}
