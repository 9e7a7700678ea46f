/** The normalised finding every collector produces, and the check it must pass before
    it is stored. */
module Findings {
  import opened Base

  datatype Severity = Critical | High | Medium | Low | Info | UnknownSeverity(name: string)

  /** The evidence blob by its serialised bytes; a value may fail to serialise. The last two
      are the markers left where a blob was dropped. */
  datatype Evidence =
    | NoEvidence
    | Json(text: string)
    | Unserialisable
    | Discarded
    | Truncated(originalBytes: nat)

  datatype Finding = Finding(
    fingerprint: string, target: string, check: string, title: string,
    severity: Severity, remediation: string, evidence: Evidence)

  datatype IngestError = EmptyFingerprint | EmptyTarget | EmptyCheck | EmptyTitle | EmptyRemediation | BadSeverity

  function ValidateForIngest(f: Finding): Option<IngestError>
  {
    if f.fingerprint == "" then Some(EmptyFingerprint)
    else if f.target == "" then Some(EmptyTarget)
    else if f.check == "" then Some(EmptyCheck)
    else if f.title == "" then Some(EmptyTitle)
    else if f.remediation == "" then Some(EmptyRemediation)
    else if f.severity.UnknownSeverity? then Some(BadSeverity)
    else None
  }

  predicate Valid(f: Finding) { ValidateForIngest(f).None? }

  /** A finding is stored exactly when nothing it must say is missing and its severity is one
      of the five; the first thing missing is what the refusal names. */
  lemma ValidExactly(f: Finding)
    ensures Valid(f) <==>
              && f.fingerprint != "" && f.target != "" && f.check != "" && f.title != "" && f.remediation != ""
              && f.severity in {Critical, High, Medium, Low, Info}
    ensures ValidateForIngest(f) == Some(EmptyFingerprint) <==> f.fingerprint == ""
    ensures ValidateForIngest(f) == Some(EmptyTarget) ==> f.target == ""
    ensures ValidateForIngest(f) == Some(EmptyCheck) ==> f.check == ""
    ensures ValidateForIngest(f) == Some(EmptyTitle) ==> f.title == ""
    ensures ValidateForIngest(f) == Some(EmptyRemediation) ==> f.remediation == ""
    ensures ValidateForIngest(f) == Some(BadSeverity) ==> f.severity.UnknownSeverity?
  {
  }

  const MAX_EVIDENCE_BYTES := 65536

  /** Oversized or unserialisable evidence is replaced by a marker. */
  function CapEvidence(f: Finding): Finding
  {
    match f.evidence
    case Unserialisable => f.(evidence := Discarded)
    case Json(text) => if |text| > MAX_EVIDENCE_BYTES then f.(evidence := Truncated(|text|)) else f
    case _ => f
  }

  /** A digest of the joined parts; the hash itself is a parameter. */
  type Hash = string -> string

  ghost predicate Ideal(h: Hash)
  {
    && (forall x, y :: h(x) == h(y) ==> x == y)
    && (forall x :: h(x) != "")
  }

  function Fingerprint(h: Hash, mod: string, target: string, check: string, discriminator: string): string
  {
    h(mod + "|" + target + "|" + check + "|" + discriminator)
  }
}
