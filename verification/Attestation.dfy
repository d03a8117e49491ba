/** Signed verdicts, as far as the feed and the combination rule look at them. */
module Attestation {

  datatype Verdict = Clean | Held | Removed

  datatype Subject = Subject(sha256: string, pdq: string)

  /** Times are whole seconds; an `expiresAt` of 0 is Go's zero time. `rest` is
      everything else that is signed. */
  datatype Attestation = Attestation(
    worker: string, subject: Subject, verdict: Verdict, category: string,
    issuedAt: int, expiresAt: int, sig: string, rest: string)

  const CATEGORY_TEST := "test"
}
