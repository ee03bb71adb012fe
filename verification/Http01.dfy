/** The bounded, epoch-fenced HTTP-01 catalogue shared by every listener worker of a process. */
module Http01 {
  import opened Basics
  import opened ChallengePayload
  import opened Publication

  const MAXIMUM_ACTIVE_CHALLENGES := 1024

  datatype Receipt = Receipt(configurationRevision: U64, orderEpoch: U64, publicationDigest: Digest)

  datatype PublishedChallenge = PublishedChallenge(
    keyAuthorization: Text, expiresAt: I64, orderEpoch: U64, receipt: Receipt)

  type Catalogue = map<Text, PublishedChallenge>

  // ---------------------------------------------------------------- pure parts

  function ReceiptFor(sha: Hash, r: ChallengeRequest, payload: Http01Payload): (receipt: Receipt)
    requires r.expiresAt >= 0
    ensures receipt.orderEpoch == r.orderEpoch
  {
    Receipt(
      if r.context.expectedRevision.Some? then r.context.expectedRevision.value else 0,
      r.orderEpoch,
      sha(Ascii("meshspan:http-01-publication:v1") + r.identifier + payload.token + payload.keyAuthorization
          + BigEndian(r.expiresAt, 8) + BigEndian(r.orderEpoch, 8)))
  }

  /** Requests that publishing accepts, before it looks at the catalogue. */
  predicate Publishable(r: ChallengeRequest) {
    ValidateRequest(r, ChallengeKind.Http01).Ok? && DecodeHttp(r.challenge).Ok?
  }

  /** Requests that cleanup accepts; an elapsed expiry is no obstacle. */
  predicate Cleanable(r: ChallengeRequest) {
    ValidateCleanupRequest(r, ChallengeKind.Http01).Ok? && DecodeHttp(r.challenge).Ok?
  }

  function TokenOf(r: ChallengeRequest): Text
    requires Cleanable(r)
  {
    DecodeHttp(r.challenge).value.token
  }

  function ExpectedReceipt(sha: Hash, r: ChallengeRequest): Result<Receipt, ContractError> {
    var _ :- ValidateCleanupRequest(r, ChallengeKind.Http01);
    match DecodeHttp(r.challenge)
    case Ok(payload) => Ok(ReceiptFor(sha, r, payload))
    case Err(_) => Err(InvalidInput)
  }

  function RecordFor(sha: Hash, r: ChallengeRequest): PublishedChallenge
    requires Cleanable(r)
  {
    var payload := DecodeHttp(r.challenge).value;
    PublishedChallenge(payload.keyAuthorization, r.expiresAt, r.orderEpoch, ReceiptFor(sha, r, payload))
  }

  function Response(records: Catalogue, token: Text, now: I64): Option<Text> {
    if ValidToken(token) && token in records && records[token].expiresAt > now
    then Some(records[token].keyAuthorization) else None
  }

  // ---------------------------------------------------------------- specification of the operations

  /** The fence: what publishing does once the request itself is acceptable. */
  function Admit(sha: Hash, records: Catalogue, r: ChallengeRequest): (Catalogue, Result<Receipt, ContractError>)
    requires Publishable(r)
  {
    var token, record := TokenOf(r), RecordFor(sha, r);
    if token in records && records[token].orderEpoch > r.orderEpoch then (records, Err(Stale))
    else if token in records && records[token].orderEpoch == r.orderEpoch then
      (records, if records[token] == record then Ok(record.receipt) else Err(Conflict))
    else if token !in records && |records| == MAXIMUM_ACTIVE_CHALLENGES then (records, Err(ResourceExhausted))
    else (records[token := record], Ok(record.receipt))
  }

  function Publish(sha: Hash, active: bool, records: Catalogue, r: ChallengeRequest)
    : (Catalogue, Result<Receipt, ContractError>)
  {
    if !active then (records, Err(Unavailable))
    else if ValidateRequest(r, ChallengeKind.Http01).Err? then
      (records, Err(ValidateRequest(r, ChallengeKind.Http01).error))
    else if DecodeHttp(r.challenge).Err? then (records, Err(InvalidInput))
    else Admit(sha, records, r)
  }

  function Visible(sha: Hash, records: Catalogue, r: ChallengeRequest, receipt: Receipt): Result<bool, ContractError> {
    var _ :- ValidateRequest(r, ChallengeKind.Http01);
    if DecodeHttp(r.challenge).Err? then Err(InvalidInput)
    else
      var token := TokenOf(r);
      Ok(token in records && records[token].receipt == receipt && receipt == RecordFor(sha, r).receipt)
  }

  function Cleanup(sha: Hash, records: Catalogue, r: ChallengeRequest, receipt: Receipt): (Catalogue, Outcome) {
    if ValidateCleanupRequest(r, ChallengeKind.Http01).Err? then
      (records, ValidateCleanupRequest(r, ChallengeKind.Http01))
    else if DecodeHttp(r.challenge).Err? then (records, Err(InvalidInput))
    else
      var token := TokenOf(r);
      if receipt != RecordFor(sha, r).receipt then (records, Err(Stale))
      else if token !in records then (records, Ok(()))
      else if records[token].receipt != receipt then (records, Err(Stale))
      else (records - {token}, Ok(()))
  }

  // ---------------------------------------------------------------- the catalogue object

  class Http01Challenge {
    const sha: Hash
    var active: bool
    var records: Catalogue

    constructor (sha: Hash)
      ensures this.sha == sha && active && records == map[]
    {
      this.sha := sha;
      active := true;
      records := map[];
    }

    method PublishNow(r: ChallengeRequest) returns (result: Result<Receipt, ContractError>)
      modifies this`records
      ensures (records, result) == Publish(sha, active, old(records), r)
    {
      if !active {
        return Err(Unavailable);
      }
      var valid := ValidateRequest(r, ChallengeKind.Http01);
      if valid.Err? {
        return Err(valid.error);
      }
      var decoded := DecodeHttp(r.challenge);
      if decoded.Err? {
        return Err(InvalidInput);
      }
      var payload := decoded.value;
      var receipt := ReceiptFor(sha, r, payload);
      var record := PublishedChallenge(payload.keyAuthorization, r.expiresAt, r.orderEpoch, receipt);
      if payload.token in records {
        var existing := records[payload.token];
        if existing.orderEpoch > r.orderEpoch {
          return Err(Stale);
        }
        if existing.orderEpoch == r.orderEpoch {
          if existing == record {
            return Ok(receipt);
          }
          return Err(Conflict);
        }
      } else if |records| == MAXIMUM_ACTIVE_CHALLENGES {
        return Err(ResourceExhausted);
      }
      records := records[payload.token := record];
      return Ok(receipt);
    }

    method VisibleNow(r: ChallengeRequest, receipt: Receipt) returns (result: Result<bool, ContractError>)
      ensures result == Visible(sha, records, r, receipt)
    {
      var valid := ValidateRequest(r, ChallengeKind.Http01);
      if valid.Err? {
        return Err(valid.error);
      }
      var decoded := DecodeHttp(r.challenge);
      if decoded.Err? {
        return Err(InvalidInput);
      }
      var token := decoded.value.token;
      return Ok(token in records && records[token].receipt == receipt
                && records[token].receipt == ReceiptFor(sha, r, decoded.value));
    }

    method CleanupNow(r: ChallengeRequest, receipt: Receipt) returns (result: Outcome)
      modifies this`records
      ensures (records, result) == Cleanup(sha, old(records), r, receipt)
    {
      var valid := ValidateCleanupRequest(r, ChallengeKind.Http01);
      if valid.Err? {
        return valid;
      }
      var decoded := DecodeHttp(r.challenge);
      if decoded.Err? {
        return Err(InvalidInput);
      }
      var token := decoded.value.token;
      if receipt != ReceiptFor(sha, r, decoded.value) {
        return Err(Stale);
      }
      if token !in records {
        return Ok(());
      }
      if records[token].receipt != receipt {
        return Err(Stale);
      }
      records := records - {token};
      return Ok(());
    }
  }

  // ---------------------------------------------------------------- interleavings

  /** One atomic step of some worker; each holds the catalogue lock for its whole duration. */
  datatype Step =
    | PublishStep(active: bool, request: ChallengeRequest)
    | VisibleStep(request: ChallengeRequest, receipt: Receipt)
    | CleanupStep(request: ChallengeRequest, receipt: Receipt)

  function Apply(sha: Hash, records: Catalogue, step: Step): Catalogue {
    match step
    case PublishStep(active, r) => Publish(sha, active, records, r).0
    case VisibleStep(_, _) => records
    case CleanupStep(r, receipt) => Cleanup(sha, records, r, receipt).0
  }

  function Run(sha: Hash, records: Catalogue, steps: seq<Step>): Catalogue
    decreases steps
  {
    if steps == [] then records else Run(sha, Apply(sha, records, steps[0]), steps[1..])
  }

  /** Every record carries its own epoch in its receipt, and the table is bounded. */
  predicate WellFormed(records: Catalogue) {
    && |records| <= MAXIMUM_ACTIVE_CHALLENGES
    && forall token :: token in records ==> records[token].receipt.orderEpoch == records[token].orderEpoch
  }

  predicate Targets(step: Step, token: Text) {
    Cleanable(step.request) && TokenOf(step.request) == token
  }

  lemma TableSizes(records: Catalogue, token: Text, record: PublishedChallenge)
    ensures |records[token := record]| == |records| + (if token in records then 0 else 1)
    ensures |records - {token}| <= |records|
  {
    assert records[token := record].Keys == records.Keys + {token};
    assert (records - {token}).Keys == records.Keys - {token};
  }

  lemma AdmitKeepsWellFormed(sha: Hash, records: Catalogue, r: ChallengeRequest)
    requires WellFormed(records) && Publishable(r)
    ensures WellFormed(Admit(sha, records, r).0)
  {
    hide ValidateCleanupRequest, TokenOf, ReceiptFor, DecodeHttp;
    TableSizes(records, TokenOf(r), RecordFor(sha, r));
  }

  lemma CleanupKeepsWellFormed(sha: Hash, records: Catalogue, r: ChallengeRequest, receipt: Receipt)
    requires WellFormed(records)
    ensures WellFormed(Cleanup(sha, records, r, receipt).0)
  {
    hide ValidateCleanupRequest, DecodeHttp, TokenOf, RecordFor;
    if Cleanable(r) {
      TableSizes(records, TokenOf(r), RecordFor(sha, r));
    }
  }

  lemma ApplyKeepsWellFormed(sha: Hash, records: Catalogue, step: Step)
    requires WellFormed(records)
    ensures WellFormed(Apply(sha, records, step))
  {
    hide WellFormed, Admit, Cleanup, ValidateCleanupRequest;
    match step
    case PublishStep(active, r) =>
      if active && Publishable(r) {
        AdmitKeepsWellFormed(sha, records, r);
      }
    case VisibleStep(_, _) =>
    case CleanupStep(r, receipt) => CleanupKeepsWellFormed(sha, records, r, receipt);
  }

  /** One step changes only the token its request names, and only from an epoch at least as new. */
  lemma StepRespectsFence(sha: Hash, records: Catalogue, step: Step, token: Text)
    requires WellFormed(records)
    requires Targets(step, token) && token in records ==> step.request.orderEpoch < records[token].orderEpoch
    requires Targets(step, token) ==> token in records
    ensures (token in Apply(sha, records, step)) == (token in records)
    ensures token in records ==> Apply(sha, records, step)[token] == records[token]
  {
    hide DecodeHttp, ValidateCleanupRequest, ReceiptFor;
  }

  /**
   * Fence safety over every interleaving: while all steps aimed at `token` carry older epochs, the
   * response for it never changes at any instant. Steps aimed at other tokens are unrestricted.
   */
  lemma {:induction false} FenceSafety(sha: Hash, records: Catalogue, steps: seq<Step>, token: Text, now: I64)
    requires WellFormed(records) && token in records
    requires forall i :: 0 <= i < |steps| && Targets(steps[i], token) ==>
                           steps[i].request.orderEpoch < records[token].orderEpoch
    ensures var final := Run(sha, records, steps);
            && WellFormed(final) && token in final && final[token] == records[token]
            && Response(final, token, now) == Response(records, token, now)
    decreases steps
  {
    hide Apply, Targets;
    if steps != [] {
      var next := Apply(sha, records, steps[0]);
      ApplyKeepsWellFormed(sha, records, steps[0]);
      StepRespectsFence(sha, records, steps[0], token);
      FenceSafety(sha, next, steps[1..], token, now);
    }
  }

  /** Isolation: no interleaving of steps aimed elsewhere alters a token, present or absent. */
  lemma {:induction false} OtherTokensUntouched(sha: Hash, records: Catalogue, steps: seq<Step>, token: Text)
    requires WellFormed(records)
    requires forall i :: 0 <= i < |steps| ==> !Targets(steps[i], token)
    ensures var final := Run(sha, records, steps);
            && WellFormed(final)
            && (token in final <==> token in records)
            && (token in records ==> final[token] == records[token])
    decreases steps
  {
    hide Apply, Targets;
    if steps != [] {
      ApplyKeepsWellFormed(sha, records, steps[0]);
      StepRespectsFence(sha, records, steps[0], token);
      OtherTokensUntouched(sha, Apply(sha, records, steps[0]), steps[1..], token);
    }
  }

  /** The catalogue never exceeds its bound, from an empty start and under any steps. */
  lemma {:induction false} CatalogueBounded(sha: Hash, records: Catalogue, steps: seq<Step>)
    requires WellFormed(records)
    ensures |Run(sha, records, steps)| <= MAXIMUM_ACTIVE_CHALLENGES
    decreases steps
  {
    hide Apply, Targets;
    if steps != [] {
      ApplyKeepsWellFormed(sha, records, steps[0]);
      CatalogueBounded(sha, Apply(sha, records, steps[0]), steps[1..]);
    }
  }

  // ---------------------------------------------------------------- exact acceptance and its limit

  /** A publication is served after publishing exactly when the fence and the bound let it in. */
  lemma PublishTakesEffectIff(sha: Hash, records: Catalogue, r: ChallengeRequest)
    requires Publishable(r) && WellFormed(records)
    ensures var (next, result) := Publish(sha, true, records, r);
            var token, record := TokenOf(r), RecordFor(sha, r);
            && (result.Ok? <==> token in next && next[token] == record)
            && (result.Ok? <==>
                || (token !in records && |records| < MAXIMUM_ACTIVE_CHALLENGES)
                || (token in records && records[token].orderEpoch < r.orderEpoch)
                || (token in records && records[token] == record))
            && (result == Err(Stale) <==> token in records && r.orderEpoch < records[token].orderEpoch)
            && (result.Ok? ==> result.value == record.receipt)
            && (result.Err? ==> next == records)
  {
    hide DecodeHttp, ReceiptFor;
  }

  /**
   * The fence lives in the record, so cleanup lifts it: once the newer publication is cleaned up,
   * a late publish from an older epoch is served again. It is refused exactly while the newer
   * record is still there.
   */
  lemma StaleAfterCleanup(sha: Hash, newer: ChallengeRequest, older: ChallengeRequest, now: I64)
    requires Publishable(newer) && Publishable(older)
    requires TokenOf(newer) == TokenOf(older)
    requires older.orderEpoch < newer.orderEpoch && now < older.expiresAt
    ensures var held := Run(sha, map[], [PublishStep(true, newer)]);
            Publish(sha, true, held, older).1 == Err(Stale)
    ensures var receipt := RecordFor(sha, newer).receipt;
            var cleaned := Run(sha, map[], [PublishStep(true, newer), CleanupStep(newer, receipt)]);
            var (next, result) := Publish(sha, true, cleaned, older);
            && result.Ok?
            && Response(next, TokenOf(older), now) == Some(DecodeHttp(older.challenge).value.keyAuthorization)
  {
    var first, second := PublishStep(true, newer), CleanupStep(newer, RecordFor(sha, newer).receipt);
    var held := Apply(sha, map[], first);
    assert Run(sha, map[], [first]) == Run(sha, held, []) == held;
    var cleaned := Apply(sha, held, second);
    assert [first, second][1..] == [second];
    assert Run(sha, map[], [first, second]) == Run(sha, held, [second]) == cleaned;
  }

  // ---------------------------------------------------------------- restarts

  /**
   * A replacement worker cleans up with rebuilt material: it derives the same receipt, removes
   * exactly the original record when it is still there, and succeeds without effect when the
   * process-local catalogue lost it.
   */
  lemma CleanupAfterRestart(sha: Hash, records: Catalogue, r: ChallengeRequest, context: RequestContext)
    requires Cleanable(r) && Capture(r).Ok?
    requires UsableContext(context) && context.expectedRevision == r.context.expectedRevision
    requires TokenOf(r) in records ==> records[TokenOf(r)] == RecordFor(sha, r)
    ensures Rebuild(Capture(r).value, context).Ok?
    ensures var rebuilt := Rebuild(Capture(r).value, context).value;
            && ExpectedReceipt(sha, rebuilt) == ExpectedReceipt(sha, r)
            && Cleanup(sha, records, rebuilt, RecordFor(sha, r).receipt) == (records - {TokenOf(r)}, Ok(()))
  {
    hide DecodeHttp;
    RebuildIff(r, context);
    if TokenOf(r) !in records {
      assert records - {TokenOf(r)} == records;
    }
  }
}
