/** Values shared by the collection, storage and orchestration components. */
module Domain {

  datatype CoverageStatus =
    Covered | Partial | Missing | Unavailable | Denied | Failed | Truncated | Stale | Unsupported

  /** A content hash, written as the value it hashes: hashing is injective in this model. */
  datatype Fingerprint =
    | OfPayload(payload: string)
    | OfCoverage(category: string, status: CoverageStatus, reason: string)

  /** Smaller priorities are more urgent. */
  datatype Header = Header(caseId: string, category: string, sourceId: string, fingerprint: Fingerprint,
                           capturedAt: int, priority: nat)

  datatype EvidenceEnvelope = EvidenceEnvelope(header: Header, observedAt: int, payload: string)

  datatype CoverageEnvelope = CoverageEnvelope(header: Header, status: CoverageStatus, reason: string)

  datatype Envelope = Evidence(evidence: EvidenceEnvelope) | Coverage(coverage: CoverageEnvelope) {
    function Header(): Header {
      match this
      case Evidence(e) => e.header
      case Coverage(c) => c.header
    }
  }

  const CRITICAL := 0

  function CreateCoverage(caseId: string, category: string, sourceId: string,
                          status: CoverageStatus, capturedAt: int, reason: string): CoverageEnvelope {
    CoverageEnvelope(Header(caseId, category, sourceId, OfCoverage(category, status, reason), capturedAt, CRITICAL),
                     status, reason)
  }
}
