/** Queue message bodies, as JSON values. */
module Messages {

  /**
   * JSON `null`, which Python reads as `None`; a body that meets the triage or the ingest
   * contract (each closed to other keys, so none meets both); or any other value.
   */
  datatype Json =
    | Null
    | TriageMessage(orgId: nat, requestId: nat)
    | IngestMessage(orgId: nat, documentId: nat)
    | Value(text: string)
}
