/** Challenge requests, their validation, and the immutable publication captured from them. */
module Publication {
  import opened Basics
  import opened ChallengePayload
  import opened Wire
  import Url
  import Identifiers

  datatype ContractVersion = ContractVersion(major: nat, minor: nat)

  const V1_0 := ContractVersion(1, 0)

  datatype RequestContext = RequestContext(
    contractVersion: ContractVersion, operationId: Text, deadline: I64, expectedRevision: Option<U64>)

  datatype ChallengeKind = Http01 | Dns01

  datatype ChallengeRequest = ChallengeRequest(
    context: RequestContext, kind: ChallengeKind, identifier: Text, challenge: VersionedPayload,
    expiresAt: I64, orderEpoch: U64)

  datatype ContractError =
    | InvalidInput | Unauthorized | Stale | Conflict | ResourceExhausted | Unavailable
    | UnsupportedVersion | InternalContract

  type Outcome = Result<(), ContractError>

  // ---------------------------------------------------------------- request validation

  predicate IdentifierLabel(part: Text) {
    && 1 <= |part| <= 63
    && IsAlphanumeric(part[0]) && IsAlphanumeric(part[|part| - 1])
    && forall i :: 0 <= i < |part| ==> IsLower(part[i]) || IsDigit(part[i]) || part[i] == Url.HYPHEN
  }

  predicate ValidIdentifier(value: Text, kind: ChallengeKind) {
    && !(kind == Http01 && Identifiers.IsWildcard(value))
    && var name := if Identifiers.IsWildcard(value) then value[2..] else value;
       && Url.DOT in name
       && |name| <= 253
       && forall part :: part in Url.Split(name, Url.DOT) ==> IdentifierLabel(part)
  }

  /** A context under which stored material may be used again: version, deadline and revision. */
  predicate UsableContext(context: RequestContext) {
    && context.contractVersion == V1_0
    && context.deadline > 0
    && context.expectedRevision.Some? && context.expectedRevision.value != 0
  }

  predicate ValidMaterial(r: ChallengeRequest, kind: ChallengeKind) {
    && r.kind == kind
    && 1 <= |r.identifier| <= 253 && IsAscii(r.identifier) && ValidIdentifier(r.identifier, kind)
    && r.orderEpoch != 0
    && r.expiresAt > 0
  }

  function ValidateCleanupRequest(r: ChallengeRequest, kind: ChallengeKind): Outcome {
    if r.context.contractVersion != V1_0 then Err(UnsupportedVersion)
    else if ValidMaterial(r, kind) && UsableContext(r.context) then Ok(())
    else Err(InvalidInput)
  }

  /** Publishing additionally needs an expiry after the operation deadline. */
  function ValidateRequest(r: ChallengeRequest, kind: ChallengeKind): Outcome {
    var _ :- ValidateCleanupRequest(r, kind);
    if r.expiresAt <= r.context.deadline then Err(InvalidInput) else Ok(())
  }

  function RecordNameFor(identifier: Text): Text {
    Ascii("_acme-challenge.") + (if Identifiers.IsWildcard(identifier) then identifier[2..] else identifier)
  }

  predicate PayloadFits(kind: ChallengeKind, identifier: Text, challenge: VersionedPayload) {
    match kind
    case Http01 => DecodeHttp(challenge).Ok?
    case Dns01 =>
      DecodeDns(challenge).Ok? && DecodeDns(challenge).value.recordName == RecordNameFor(identifier)
  }

  // ---------------------------------------------------------------- captured publications

  datatype ChallengePublication = ChallengePublication(
    kind: ChallengeKind, identifier: Text, payloadVersion: nat, payload: Text,
    configurationRevision: U64, orderEpoch: U64, expiresAt: I64)

  function Capture(r: ChallengeRequest): Result<ChallengePublication, ContractError> {
    var _ :- ValidateCleanupRequest(r, r.kind);
    if !PayloadFits(r.kind, r.identifier, r.challenge) then Err(InvalidInput)
    else
      Ok(ChallengePublication(
           r.kind, r.identifier, r.challenge.formatVersion, r.challenge.bytes,
           r.context.expectedRevision.value, r.orderEpoch, r.expiresAt))
  }

  function Rebuild(p: ChallengePublication, context: RequestContext): Result<ChallengeRequest, ContractError> {
    if context.expectedRevision != Some(p.configurationRevision) then Err(Stale)
    else if |p.identifier| > 253 || |p.payload| > MAXIMUM_PAYLOAD_BYTES then Err(InvalidInput)
    else
      var r := ChallengeRequest(
                 context, p.kind, p.identifier, VersionedPayload(p.payloadVersion, p.payload),
                 p.expiresAt, p.orderEpoch);
      var _ :- ValidateCleanupRequest(r, r.kind);
      if PayloadFits(r.kind, r.identifier, r.challenge) then Ok(r) else Err(InvalidInput)
  }

  function KindText(kind: ChallengeKind): Text {
    match kind
    case Http01 => Ascii("http-01")
    case Dns01 => Ascii("dns-01")
  }

  /** The part of the match with a challenge that does not look at the authorized name. */
  predicate MatchesIdentity(p: ChallengePublication, challenge: Challenge) {
    && challenge.kind == KindText(p.kind)
    && (p.kind == Http01 ==>
          && |p.payload| <= MAXIMUM_PAYLOAD_BYTES
          && var decoded := DecodeHttp(VersionedPayload(p.payloadVersion, p.payload));
             decoded.Ok? && decoded.value.token == challenge.token)
  }

  predicate MatchesChallenge(p: ChallengePublication, name: Text, challenge: Challenge) {
    p.identifier == name && MatchesIdentity(p, challenge)
  }

  /**
   * Restart safety: captured material can be rebuilt under a replacement worker's context exactly
   * when that context is usable and names the same provider revision. The rebuilt request differs
   * from the original only in its context, so expiry and epoch are never extended, and capturing
   * it again gives the same publication.
   */
  lemma RebuildIff(r: ChallengeRequest, context: RequestContext)
    requires Capture(r).Ok?
    ensures var p := Capture(r).value;
            Rebuild(p, context).Ok? <==>
            UsableContext(context) && context.expectedRevision == r.context.expectedRevision
    ensures var p := Capture(r).value;
            Rebuild(p, context).Ok? ==>
              Rebuild(p, context).value == r.(context := context) && Capture(Rebuild(p, context).value) == Ok(p)
  {
    assert |r.challenge.bytes| <= MAXIMUM_PAYLOAD_BYTES;
    assert ValidMaterial(r.(context := context), r.kind);
  }
}
