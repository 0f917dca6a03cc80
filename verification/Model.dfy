/** The entities the broker stores. */
module Model {
  import opened Timestamp

  datatype Scope = Scope(project: string, environment: string)

  datatype SecretState = Active | Revoked

  datatype SecretMetadata = SecretMetadata(
    id: string, project: string, environment: string, name: string, profile: string,
    strengthBits: int, version: nat, state: SecretState, createdAt: Instant, updatedAt: Instant)

  datatype Action = Action(
    id: string, project: string, environment: string, name: string, executable: string,
    arguments: seq<string>, directory: string, secrets: map<string, string>, outputPolicy: string,
    createdAt: Instant, updatedAt: Instant)

  datatype AuditEvent = AuditEvent(
    id: string, timestamp: Instant, actor: string, operation: string, objectID: string,
    outcome: string, detail: string)

  /** JSON text, idealised: an injective encoding is the value it encodes. */
  datatype Document =
    | SecretDocument(secret: SecretMetadata)
    | ActionDocument(action: Action)
    | EventDocument(event: AuditEvent)

  datatype Option<+T> = None | Some(value: T)
}
