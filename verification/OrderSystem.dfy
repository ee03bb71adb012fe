/**
 * One order, its durable checkpoint and the HTTP-01 catalogue of the process it runs in, driven by
 * a worker that may be interrupted and may lose commits at any point.
 */
module OrderSystem {
  import opened Basics
  import opened Wire
  import opened OrderMachine
  import opened Checkpoint
  import opened OrderRuns
  import CP = ChallengePayload
  import P = Publication
  import H = Http01
  import B = Base64Url

  /**
   * What stays fixed while an order runs in one process: the hash, the account key's thumbprint, the
   * provider revision, the tokens the CA issues to this order and to no other, and those of them
   * whose records an earlier stay had left in this process.
   */
  datatype Env = Env(sha: Hash, thumbprint: Text, revision: U64, own: set<Text>, left: set<Text>)

  datatype World = World(durable: Machine, local: Machine, visible: bool, records: H.Catalogue)

  /** How a checkpoint submission ends: known committed, or unknown and possibly applied. */
  datatype Commit = Committed | Lost(applied: bool)

  /** The outside of one worker step: clock readings, context, CA answer, faults. */
  datatype Turn = Turn(
    now: I64, context: P.RequestContext, challengeExpiresAt: I64, legacyExpiry: Option<I64>, active: bool,
    reply: Option<Event>, retry: Option<RetryAfter>, receivedAt: I64, interrupted: bool, commit: Commit)

  // ---------------------------------------------------------------- challenge requests

  function KeyAuthorization(env: Env, token: Text): Text { token + [B.PERIOD] + env.thumbprint }

  function PayloadFor(env: Env, a: Authorization, challenge: Challenge)
    : Option<(P.ChallengeKind, CP.VersionedPayload)>
  {
    var proof := KeyAuthorization(env, challenge.token);
    if challenge.kind == Ascii("http-01") && !a.wildcard then
      match CP.NewHttp(challenge.token, proof)
      case Ok(payload) =>
        (match CP.EncodeHttp(payload)
         case Ok(encoded) => Some((P.Http01, encoded))
         case Err(_) => None)
      case Err(_) => None
    else if challenge.kind == Ascii("dns-01") then
      match CP.NewDns(Ascii("_acme-challenge.") + a.dnsName, B.Encode(env.sha(proof)))
      case Ok(payload) =>
        (match CP.EncodeDns(payload)
         case Ok(encoded) => Some((P.Dns01, encoded))
         case Err(_) => None)
      case Err(_) => None
    else None
  }

  /** The executor's request for a challenge, before it is compared with retained material. */
  function BuildRequest(env: Env, a: Authorization, challenge: Challenge, epoch: U64, context: P.RequestContext,
                        expiresAt: I64)
    : Option<P.ChallengeRequest>
  {
    if epoch == 0 || context.expectedRevision.None? || expiresAt <= 0 || context.deadline <= 0
       || challenge.token == [] || |NameOf(a)| > 253 then None
    else
      match PayloadFor(env, a, challenge)
      case Some((kind, payload)) => Some(P.ChallengeRequest(context, kind, NameOf(a), payload, expiresAt, epoch))
      case None => None
  }

  /** With retained material the expiry is the original one and the request must agree with it. */
  function WorkerRequest(env: Env, m: Machine, context: P.RequestContext, challengeExpiresAt: I64)
    : Option<P.ChallengeRequest>
  {
    if m.authorization.None? || m.challenge.None? then None
    else
      var retained := m.publication.Retained?;
      var expiresAt := if retained then m.publication.publication.expiresAt else challengeExpiresAt;
      var built := BuildRequest(env, m.authorization.value, m.challenge.value, PublicationEpoch(m), context, expiresAt);
      if built.Some? && retained && P.Rebuild(m.publication.publication, context) != Ok(built.value) then None
      else built
  }

  /** The receipt a publication must have under this context. */
  function ExpectedDigest(env: Env, p: P.ChallengePublication, context: P.RequestContext): Option<Digest> {
    match P.Rebuild(p, context)
    case Err(_) => None
    case Ok(r) =>
      match H.ExpectedReceipt(env.sha, r)
      case Err(_) => None
      case Ok(receipt) =>
        if Some(receipt.configurationRevision) == context.expectedRevision && receipt.orderEpoch == p.orderEpoch
           && !IsZero(receipt.publicationDigest)
        then Some(receipt.publicationDigest) else None
  }

  // ---------------------------------------------------------------- one worker step

  /** Encoding validates the candidate; only a known commit makes it the local state. */
  function Submit(w: World, candidate: Machine, commit: Commit): World {
    if !Checkpointable(candidate) || candidate.phase.Complete? then w
    else
      match commit
      case Committed => w.(durable := candidate, local := candidate)
      case Lost(applied) => if applied then w.(durable := candidate) else w
  }

  /** First duty: retain exact publication material before any of it may be published. */
  function Prepare(env: Env, w: World, turn: Turn): Option<World> {
    var m := w.local;
    if m.publication.Retained? || !HasChallengePhase(m.phase) then None
    else if m.authorization.None? || m.challenge.None? then Some(w)
    else
      var expiresAt := if m.publication.Legacy? && turn.legacyExpiry.Some? then turn.legacyExpiry.value
                       else turn.challengeExpiresAt;
      var built := BuildRequest(env, m.authorization.value, m.challenge.value, PublicationEpoch(m), turn.context,
                                expiresAt);
      if built.None? || P.Capture(built.value).Err? then Some(w)
      else
        var p := P.Capture(built.value).value;
        var retained := RetainPublication(m, p);
        if m.publicationDigest.Some? && ExpectedDigest(env, p, turn.context) != m.publicationDigest then Some(w)
        else if retained.result.Err? then Some(w)
        else Some(Submit(w, retained.machine, turn.commit))
  }

  /** Second duty: begin exact cleanup of an elapsed publication. */
  function Elapse(env: Env, w: World, turn: Turn): Option<World> {
    var m := w.local;
    if !m.publication.Retained? || m.publication.publication.expiresAt > turn.now || Retiring(m.phase) then None
    else
      match ExpectedDigest(env, m.publication.publication, turn.context)
      case None => Some(w)
      case Some(digest) =>
        var (candidate, expired) := ExpirePublication(m, turn.now, digest);
        match expired
        case Err(_) => Some(w)
        case Ok(true) => Some(Submit(w, candidate, turn.commit))
        case Ok(false) => None
  }

  /** The publisher call of the executor: the new catalogue, and the receipt once visible. */
  function PublishCall(env: Env, w: World, turn: Turn): (H.Catalogue, Option<H.Receipt>) {
    match WorkerRequest(env, w.local, turn.context, turn.challengeExpiresAt)
    case None => (w.records, None)
    case Some(r) =>
      if r.expiresAt <= r.context.deadline || H.ExpectedReceipt(env.sha, r).Err? then (w.records, None)
      else
        var (records, published) := H.Publish(env.sha, turn.active, w.records, r);
        if published.Ok? && published == H.ExpectedReceipt(env.sha, r)
           && H.Visible(env.sha, records, r, published.value) == Ok(true)
        then (records, Some(published.value)) else (records, None)
  }

  predicate Timely(turn: Turn) { turn.now <= turn.receivedAt < turn.context.deadline && !turn.interrupted }

  /** Third duty: put a lost publication back before continuing with the CA. */
  function Restore(env: Env, w: World, turn: Turn): Option<World> {
    var m := w.local;
    if w.visible || !(m.phase.NotifyChallenge? || m.phase.PollAuthorization?) then None
    else if !m.publication.Retained? || m.publicationDigest.None?
            || ExpectedDigest(env, m.publication.publication, turn.context) != m.publicationDigest then Some(w)
    else
      var (records, receipt) := PublishCall(env, w, turn);
      Some(w.(records := records,
              visible := Timely(turn) && receipt.Some? && Some(receipt.value.publicationDigest) == m.publicationDigest))
  }

  /** Advances a copy of the machine with a timely result and submits it. */
  function Settle(w: World, event: Event, turn: Turn): World {
    var t := AdvanceWithRetry(w.local, event, turn.receivedAt, turn.retry);
    if !Timely(turn) || t.result.Err? || t.machine.phase.Complete? then w
    else
      var next := Submit(w, t.machine, turn.commit);
      if next.local == t.machine && event.ChallengePublished? then next.(visible := true) else next
  }

  /** The publisher's cleanup under the receipt the machine holds. */
  function CleanupCall(env: Env, w: World, turn: Turn): (H.Catalogue, bool) {
    var m := w.local;
    match WorkerRequest(env, m, turn.context, turn.challengeExpiresAt)
    case None => (w.records, false)
    case Some(r) =>
      if m.publicationDigest.None? then (w.records, false)
      else
        var receipt := H.Receipt(r.context.expectedRevision.value, PublicationEpoch(m), m.publicationDigest.value);
        var (records, cleaned) := H.Cleanup(env.sha, w.records, r, receipt);
        (records, cleaned.Ok?)
  }

  /** Last: perform the machine's one current action. */
  function Execute(env: Env, w: World, turn: Turn): World {
    var m := w.local;
    if m.phase.PublishChallenge? then
      var (records, receipt) := PublishCall(env, w, turn);
      var after := w.(records := records);
      if receipt.Some? then Settle(after, ChallengePublished(receipt.value.publicationDigest), turn) else after
    else if m.phase.CleanupChallenge? || m.phase.RetireChallenge? then
      var (records, cleaned) := CleanupCall(env, w, turn);
      var after := w.(records := records);
      if cleaned then Settle(after, ChallengeCleaned, turn) else after
    else if m.phase.Retired? then
      if Timely(turn) then Submit(w, m, turn.commit) else w
    else if turn.reply.Some? then Settle(w, turn.reply.value, turn)
    else w
  }

  function Work(env: Env, w: World, turn: Turn): World {
    if turn.now < 0 || turn.context.expectedRevision != Some(env.revision)
       || turn.context.deadline <= turn.now || turn.challengeExpiresAt <= turn.now then w
    else
      match Prepare(env, w, turn)
      case Some(next) => next
      case None =>
        match Elapse(env, w, turn)
        case Some(next) => next
        case None =>
          match Restore(env, w, turn)
          case Some(next) => next
          case None =>
            if !Retiring(w.local.phase) && w.local.pollNotBefore.Some? && turn.now < w.local.pollNotBefore.value then w
            else Execute(env, w, turn)
  }

  predicate OwnTokens(env: Env, a: Authorization) {
    forall i :: 0 <= i < |a.challenges| ==> a.challenges[i].token in env.own
  }

  /** CA answers are parsed resources with this order's tokens; effects are never claimed remotely. */
  predicate RemoteReply(env: Env, event: Event) {
    && WireEvent(event)
    && !event.ChallengePublished? && !event.ChallengeCleaned?
    && (event.AuthorizationFetched? || event.AuthorizationPolled? ==> OwnTokens(env, event.authorization))
  }

  predicate Allowed(env: Env, turn: Turn) { turn.reply.Some? ==> RemoteReply(env, turn.reply.value) }

  // ---------------------------------------------------------------- the system invariant

  function BaseContext(env: Env): P.RequestContext { P.RequestContext(P.V1_0, [], 1, Some(env.revision)) }

  /** The publication's own request, under a fixed usable context. */
  function Base(env: Env, p: P.ChallengePublication): P.ChallengeRequest {
    P.ChallengeRequest(BaseContext(env), p.kind, p.identifier, CP.VersionedPayload(p.payloadVersion, p.payload),
                       p.expiresAt, p.orderEpoch)
  }

  /** An HTTP publication that really is this challenge's: captured, for this token and key. */
  predicate Genuine(env: Env, p: P.ChallengePublication, challenge: Challenge) {
    p.kind.Http01? ==>
      && H.Cleanable(Base(env, p)) && P.Capture(Base(env, p)) == Ok(p)
      && CP.DecodeHttp(CP.VersionedPayload(p.payloadVersion, p.payload))
         == Ok(CP.Http01Payload(challenge.token, KeyAuthorization(env, challenge.token)))
  }

  predicate Sound(env: Env, m: Machine) {
    && Checkpointable(m)
    && !m.publication.Legacy?
    && (m.challenge.Some? ==> m.challenge.value.token in env.own)
    && (m.publication.Retained? ==> m.challenge.Some? && Genuine(env, m.publication.publication, m.challenge.value))
    && (m.publicationDigest.Some? ==>
          && m.publication.Retained? && m.publication.publication.kind.Http01?
          && m.publicationDigest.value
             == H.RecordFor(env.sha, Base(env, m.publication.publication)).receipt.publicationDigest)
  }

  /** Every record under this order's tokens, but those left behind, is exactly the retained publication. */
  predicate Covers(env: Env, publication: PublicationState, records: H.Catalogue) {
    forall token :: token in env.own && token !in env.left && token in records ==>
                      && publication.Retained?
                      && H.Cleanable(Base(env, publication.publication))
                      && token == H.TokenOf(Base(env, publication.publication))
                      && records[token] == H.RecordFor(env.sha, Base(env, publication.publication))
  }

  predicate MayPublish(m: Machine) {
    m.publication.Retained? && (m.phase.PublishChallenge? || m.phase.NotifyChallenge? || m.phase.PollAuthorization?)
  }

  predicate Safe(env: Env, w: World) {
    && env.revision != 0
    && Sound(env, w.local) && Sound(env, w.durable)
    && H.WellFormed(w.records)
    && Covers(env, w.local.publication, w.records)
    && Covers(env, w.durable.publication, w.records)
    && (MayPublish(w.local) ==> w.durable.publication == w.local.publication)
  }

  // ---------------------------------------------------------------- requests from retained material

  /** Under any context in which retained material is used, it is the publication's own request. */
  lemma RetainedRequest(env: Env, m: Machine, context: P.RequestContext, challengeExpiresAt: I64)
    requires m.publication.Retained?
    requires WorkerRequest(env, m, context, challengeExpiresAt).Some?
    ensures var p := m.publication.publication;
            && WorkerRequest(env, m, context, challengeExpiresAt).value == Base(env, p).(context := context)
            && P.UsableContext(context) && context.expectedRevision == Some(p.configurationRevision)
  {
    hide BuildRequest, P.PayloadFits;
  }

  /** The context does not enter the record: a replacement worker writes and removes the same one. */
  lemma RecordIgnoresContext(env: Env, p: P.ChallengePublication, context: P.RequestContext)
    requires H.Cleanable(Base(env, p))
    requires P.UsableContext(context) && context.expectedRevision == Some(env.revision)
    ensures var r := Base(env, p).(context := context);
            && H.Cleanable(r) && H.TokenOf(r) == H.TokenOf(Base(env, p))
            && H.RecordFor(env.sha, r) == H.RecordFor(env.sha, Base(env, p))
            && H.ExpectedReceipt(env.sha, r) == Ok(H.RecordFor(env.sha, Base(env, p)).receipt)
  {
    hide CP.DecodeHttp;
  }

  lemma GenuineRevision(env: Env, p: P.ChallengePublication, challenge: Challenge)
    requires p.kind.Http01? && Genuine(env, p, challenge)
    ensures p.configurationRevision == env.revision
    ensures H.Cleanable(Base(env, p)) && H.TokenOf(Base(env, p)) == challenge.token
  {
    hide CP.DecodeHttp, P.ValidateCleanupRequest;
  }

  /** A digest derived from retained material is the record's own. */
  lemma DigestIsGenuine(env: Env, p: P.ChallengePublication, challenge: Challenge, context: P.RequestContext)
    requires Genuine(env, p, challenge) && ExpectedDigest(env, p, context).Some?
    ensures p.kind.Http01?
    ensures ExpectedDigest(env, p, context).value == H.RecordFor(env.sha, Base(env, p)).receipt.publicationDigest
    ensures !IsZero(ExpectedDigest(env, p, context).value)
  {
    hide CP.DecodeHttp;
  }

  // ---------------------------------------------------------------- submitting candidates

  /** A sound candidate that keeps covering the catalogue is safe however its commit ends. */
  lemma SubmitSafe(env: Env, w: World, candidate: Machine, commit: Commit)
    requires Safe(env, w)
    requires Checkpointable(candidate) ==> Sound(env, candidate) && Covers(env, candidate.publication, w.records)
    requires MayPublish(w.local) ==> candidate.publication == w.local.publication
    ensures Safe(env, Submit(w, candidate, commit))
  {
    hide Sound, Covers, Checkpointable, H.WellFormed;
  }

  lemma SetVisible(env: Env, w: World, visible: bool)
    requires Safe(env, w)
    ensures Safe(env, w.(visible := visible))
  {}

  // ---------------------------------------------------------------- preparing and expiring

  lemma PreparedGenuine(env: Env, a: Authorization, challenge: Challenge, epoch: U64, context: P.RequestContext,
                        expiresAt: I64)
    requires BuildRequest(env, a, challenge, epoch, context, expiresAt).Some?
    requires context.expectedRevision == Some(env.revision)
    requires var r := BuildRequest(env, a, challenge, epoch, context, expiresAt).value; P.Capture(r).Ok?
    ensures var p := P.Capture(BuildRequest(env, a, challenge, epoch, context, expiresAt).value).value;
            Genuine(env, p, challenge)
  {
    hide CP.DecodeHttp, CP.EncodeHttp, CP.EncodeDns, CP.ConstructibleHttp, P.ValidMaterial;
    var r := BuildRequest(env, a, challenge, epoch, context, expiresAt).value;
    if r.kind.Http01? {
      var payload := CP.Http01Payload(challenge.token, KeyAuthorization(env, challenge.token));
      CP.HttpPayloadBijection(payload, r.challenge);
      P.RebuildIff(r, BaseContext(env));
    }
  }

  /** With nothing retained, no token of this order is in the catalogue. */
  lemma UnpreparedCoversNothing(env: Env, w: World, publication: PublicationState)
    requires !w.local.publication.Retained? && Covers(env, w.local.publication, w.records)
    ensures Covers(env, publication, w.records)
  {}

  lemma PrepareSafe(env: Env, w: World, turn: Turn)
    requires Safe(env, w) && turn.context.expectedRevision == Some(env.revision)
    requires Prepare(env, w, turn).Some?
    ensures Safe(env, Prepare(env, w, turn).value)
  {
    hide Covers, BuildRequest, P.Capture, Checkpointable, Submit, Safe, RetainPublication, HasChallengePhase;
    var m := w.local;
    SafeParts(env, w);
    if m.authorization.Some? && m.challenge.Some? {
      var expiresAt := turn.challengeExpiresAt;
      var built := BuildRequest(env, m.authorization.value, m.challenge.value, PublicationEpoch(m), turn.context,
                                expiresAt);
      if built.Some? && P.Capture(built.value).Ok? {
        var p := P.Capture(built.value).value;
        if RetainPublication(m, p).result.Ok? {
          PreparedGenuine(env, m.authorization.value, m.challenge.value, PublicationEpoch(m), turn.context, expiresAt);
          RetainedSound(env, m, p);
          UnpreparedCoversNothing(env, w, Retained(p));
          SubmitSafe(env, w, RetainPublication(m, p).machine, turn.commit);
        }
      }
    }
  }

  lemma SafeParts(env: Env, w: World)
    requires Safe(env, w)
    ensures Sound(env, w.local) && Sound(env, w.durable) && H.WellFormed(w.records) && env.revision != 0
    ensures Covers(env, w.local.publication, w.records) && Covers(env, w.durable.publication, w.records)
    ensures MayPublish(w.local) ==> w.durable.publication == w.local.publication
  {}

  lemma RetainedSound(env: Env, m: Machine, p: P.ChallengePublication)
    requires Sound(env, m) && !m.publication.Retained? && m.challenge.Some?
    requires RetainPublication(m, p).result.Ok? && Genuine(env, p, m.challenge.value)
    ensures RetainPublication(m, p).machine == m.(publication := Retained(p))
    ensures Checkpointable(RetainPublication(m, p).machine) ==> Sound(env, RetainPublication(m, p).machine)
  {
    hide Checkpointable, Genuine, ValidatePublicationMaterial;
  }

  lemma ElapseSafe(env: Env, w: World, turn: Turn)
    requires Safe(env, w) && Elapse(env, w, turn).Some?
    ensures Safe(env, Elapse(env, w, turn).value)
  {
    hide Covers, Checkpointable, Submit, Safe, ExpectedDigest, ExpirePublication;
    var m := w.local;
    SafeParts(env, w);
    var p := m.publication.publication;
    var digest := ExpectedDigest(env, p, turn.context);
    if digest.Some? && ExpirePublication(m, turn.now, digest.value).1 == Ok(true) {
      DigestIsGenuine(env, p, m.challenge.value, turn.context);
      ExpiredSound(env, m, turn.now, digest.value);
      SubmitSafe(env, w, ExpirePublication(m, turn.now, digest.value).0, turn.commit);
    }
  }

  lemma ExpiredSound(env: Env, m: Machine, now: I64, digest: Digest)
    requires Sound(env, m) && m.publication.Retained? && m.publication.publication.kind.Http01?
    requires H.Cleanable(Base(env, m.publication.publication))
    requires digest == H.RecordFor(env.sha, Base(env, m.publication.publication)).receipt.publicationDigest
    requires ExpirePublication(m, now, digest).1 == Ok(true)
    ensures var n := ExpirePublication(m, now, digest).0;
            n.publication == m.publication && (Checkpointable(n) ==> Sound(env, n))
  {
    hide Checkpointable, Genuine, H.RecordFor;
  }

  // ---------------------------------------------------------------- publishing

  /** Publishing retained material adds at most its own record, and reports its own receipt. */
  lemma PublishCallCovers(env: Env, w: World, turn: Turn)
    requires Safe(env, w) && MayPublish(w.local)
    ensures var (records, receipt) := PublishCall(env, w, turn);
            && H.WellFormed(records) && Covers(env, w.local.publication, records)
            && (receipt.Some? ==>
                  && w.local.publication.publication.kind.Http01?
                  && H.Cleanable(Base(env, w.local.publication.publication))
                  && receipt.value == H.RecordFor(env.sha, Base(env, w.local.publication.publication)).receipt)
  {
    hide WorkerRequest, Genuine, Checkpointable, CP.DecodeHttp, P.ValidateCleanupRequest, H.RecordFor, H.Admit,
         H.WellFormed, H.Visible, H.TokenOf;
    var p, context := w.local.publication.publication, turn.context;
    var built := WorkerRequest(env, w.local, context, turn.challengeExpiresAt);
    if built.Some? {
      RetainedRequest(env, w.local, context, turn.challengeExpiresAt);
      var r := built.value;
      if p.kind.Http01? {
        GenuineRevision(env, p, w.local.challenge.value);
        RecordIgnoresContext(env, p, context);
        if H.Publishable(r) {
          H.AdmitKeepsWellFormed(env.sha, w.records, r);
          AdmitCovers(env, p, w.records, r);
        }
      } else {
        OtherKindRefused(env, r);
      }
    }
  }

  lemma OtherKindRefused(env: Env, r: P.ChallengeRequest)
    requires !r.kind.Http01?
    ensures H.ExpectedReceipt(env.sha, r).Err?
  {}

  lemma AdmitCovers(env: Env, p: P.ChallengePublication, records: H.Catalogue, r: P.ChallengeRequest)
    requires H.Publishable(r) && H.Cleanable(Base(env, p))
    requires H.TokenOf(r) == H.TokenOf(Base(env, p))
    requires H.RecordFor(env.sha, r) == H.RecordFor(env.sha, Base(env, p))
    requires Covers(env, Retained(p), records)
    ensures Covers(env, Retained(p), H.Admit(env.sha, records, r).0)
  {
    hide H.RecordFor, H.TokenOf, CP.DecodeHttp, P.ValidateCleanupRequest;
  }

  lemma RestoreSafe(env: Env, w: World, turn: Turn)
    requires Safe(env, w) && Restore(env, w, turn).Some?
    ensures Safe(env, Restore(env, w, turn).value)
  {
    hide Sound, Covers, ExpectedDigest, PublishCall, H.WellFormed;
    if MayPublish(w.local) {
      PublishCallCovers(env, w, turn);
    }
  }

  // ---------------------------------------------------------------- advancing

  lemma ReactToken(env: Env, m: Machine, event: Event)
    requires Core(m) && React(m, event).result.Ok?
    requires m.challenge.Some? ==> m.challenge.value.token in env.own
    requires event.AuthorizationFetched? ==> OwnTokens(env, event.authorization)
    ensures var n := React(m, event).machine; n.challenge.Some? ==> n.challenge.value.token in env.own
  {
    hide Identified, RemoteSound, OrderSound, AuthorizationSound, ChallengeSound, ResultsSound, ProgressSound,
         SelectChallenge, P.MatchesIdentity, ValidateRemoteIdentity, ValidateOrder, PublicationShape;
    match event
    case AuthorizationFetched(_, _) =>
    case AuthorizationPolled(_, _) => hide AdvanceAuthorization;
    case ChallengeCleaned =>
    case _ =>
      hide AcceptAuthorization, CompleteChallenge;
  }

  /** An effect is only claimed with the receipt of the retained material. */
  predicate HonestEffect(env: Env, m: Machine, event: Event) {
    event.ChallengePublished? ==>
      && m.publication.Retained? && m.publication.publication.kind.Http01?
      && H.Cleanable(Base(env, m.publication.publication))
      && event.publicationDigest == H.RecordFor(env.sha, Base(env, m.publication.publication)).receipt.publicationDigest
  }

  lemma FeedSound(env: Env, m: Machine, event: Event, receivedAt: I64, retry: Option<RetryAfter>)
    requires Sound(env, m) && HonestEffect(env, m, event)
    requires event.AuthorizationFetched? ==> OwnTokens(env, event.authorization)
    requires AdvanceWithRetry(m, event, receivedAt, retry).result.Ok?
    ensures var n := AdvanceWithRetry(m, event, receivedAt, retry).machine;
            && (Checkpointable(n) ==> Sound(env, n))
            && (m.publication.Retained? && !event.ChallengeCleaned? ==> n.publication == m.publication)
  {
    hide Checkpointable, Coherent, Core, React, H.RecordFor, CP.DecodeHttp, P.Capture;
    CheckpointableIffCoherent(m);
    CoherentCore(m);
    ReactMaterial(m, event);
    ReactToken(env, m, event);
  }

  /** Advancing is safe for any event but a cleanup claimed while the record is still there. */
  lemma SettleSafe(env: Env, w: World, event: Event, turn: Turn)
    requires Safe(env, w) && HonestEffect(env, w.local, event)
    requires event.AuthorizationFetched? ==> OwnTokens(env, event.authorization)
    requires event.ChallengeCleaned? ==> Covers(env, Unprepared, w.records) && !MayPublish(w.local)
    ensures Safe(env, Settle(w, event, turn))
  {
    hide Covers, Sound, Safe, Submit, AdvanceWithRetry;
    SafeParts(env, w);
    var t := AdvanceWithRetry(w.local, event, turn.receivedAt, turn.retry);
    if t.result.Ok? {
      FeedSound(env, w.local, event, turn.receivedAt, turn.retry);
      if event.ChallengeCleaned? {
        NothingToCover(env, w.records, t.machine.publication);
      } else if !w.local.publication.Retained? {
        UnpreparedCoversNothing(env, w, t.machine.publication);
      }
      SubmitSafe(env, w, t.machine, turn.commit);
      SetVisible(env, Submit(w, t.machine, turn.commit), true);
    }
  }

  lemma NothingToCover(env: Env, records: H.Catalogue, publication: PublicationState)
    requires Covers(env, Unprepared, records)
    ensures Covers(env, publication, records)
  {}

  // ---------------------------------------------------------------- cleaning up

  /** A successful cleanup leaves no token of this order in the catalogue. */
  lemma CleanupEmpties(env: Env, w: World, context: P.RequestContext, challengeExpiresAt: I64, receipt: H.Receipt)
    requires Safe(env, w) && w.local.publication.Retained?
    requires WorkerRequest(env, w.local, context, challengeExpiresAt).Some?
    ensures var r := WorkerRequest(env, w.local, context, challengeExpiresAt).value;
            var (records, cleaned) := H.Cleanup(env.sha, w.records, r, receipt);
            && H.WellFormed(records)
            && Covers(env, w.local.publication, records) && Covers(env, w.durable.publication, records)
            && (cleaned.Ok? ==> Covers(env, Unprepared, records))
  {
    hide WorkerRequest, Sound, H.RecordFor, CP.DecodeHttp, P.ValidateCleanupRequest, H.WellFormed, H.TokenOf;
    var p := w.local.publication.publication;
    var r := WorkerRequest(env, w.local, context, challengeExpiresAt).value;
    RetainedRequest(env, w.local, context, challengeExpiresAt);
    H.CleanupKeepsWellFormed(env.sha, w.records, r, receipt);
    if H.Cleanable(r) && H.Cleanable(Base(env, p)) {
      SameToken(env, p, context);
    }
    if H.Cleanable(r) {
      CleanableBase(env, p, context);
    }
  }

  lemma SameToken(env: Env, p: P.ChallengePublication, context: P.RequestContext)
    requires H.Cleanable(Base(env, p)) && H.Cleanable(Base(env, p).(context := context))
    ensures H.TokenOf(Base(env, p)) == H.TokenOf(Base(env, p).(context := context))
  {}

  lemma CleanableBase(env: Env, p: P.ChallengePublication, context: P.RequestContext)
    requires H.Cleanable(Base(env, p).(context := context)) && env.revision != 0
    ensures H.Cleanable(Base(env, p))
  {}

  // ---------------------------------------------------------------- the whole step

  lemma ExecutePublishSafe(env: Env, w: World, turn: Turn)
    requires Safe(env, w) && w.local.phase.PublishChallenge? && w.local.publication.Retained?
    ensures Safe(env, Execute(env, w, turn))
  {
    hide Covers, Sound, PublishCall, Settle, H.WellFormed, H.RecordFor;
    PublishCallCovers(env, w, turn);
    var (records, receipt) := PublishCall(env, w, turn);
    var after := w.(records := records);
    assert Safe(env, after);
    if receipt.Some? {
      SettleSafe(env, after, ChallengePublished(receipt.value.publicationDigest), turn);
    }
  }

  lemma ExecuteCleanupSafe(env: Env, w: World, turn: Turn)
    requires Safe(env, w) && (w.local.phase.CleanupChallenge? || w.local.phase.RetireChallenge?)
    requires w.local.publication.Retained?
    ensures Safe(env, Execute(env, w, turn))
  {
    hide Covers, Sound, WorkerRequest, Settle, H.WellFormed, H.Cleanup;
    var m := w.local;
    var built := WorkerRequest(env, m, turn.context, turn.challengeExpiresAt);
    if built.Some? && m.publicationDigest.Some? {
      RetainedRequest(env, m, turn.context, turn.challengeExpiresAt);
      var revision := built.value.context.expectedRevision.value;
      var receipt := H.Receipt(revision, PublicationEpoch(m), m.publicationDigest.value);
      CleanupEmpties(env, w, turn.context, turn.challengeExpiresAt, receipt);
      var (records, cleaned) := H.Cleanup(env.sha, w.records, built.value, receipt);
      var after := w.(records := records);
      assert Safe(env, after);
      if cleaned.Ok? {
        SettleSafe(env, after, ChallengeCleaned, turn);
      }
    }
  }

  lemma ExecuteSafe(env: Env, w: World, turn: Turn)
    requires Safe(env, w) && Allowed(env, turn) && Prepare(env, w, turn).None?
    ensures Safe(env, Execute(env, w, turn))
  {
    hide Covers, Sound, Settle, PublishCall, WorkerRequest, H.Cleanup, WireEvent, OwnTokens;
    var m := w.local;
    SafeParts(env, w);
    if m.phase.PublishChallenge? {
      ExecutePublishSafe(env, w, turn);
    } else if m.phase.CleanupChallenge? || m.phase.RetireChallenge? {
      ExecuteCleanupSafe(env, w, turn);
    } else if m.phase.Retired? {
      SubmitSafe(env, w, m, turn.commit);
    } else if turn.reply.Some? {
      SettleSafe(env, w, turn.reply.value, turn);
    }
  }

  lemma WorkSafe(env: Env, w: World, turn: Turn)
    requires Safe(env, w) && Allowed(env, turn)
    ensures Safe(env, Work(env, w, turn))
  {
    hide Safe, Prepare, Elapse, Restore, Execute, Allowed;
    if turn.context.expectedRevision == Some(env.revision) {
      if Prepare(env, w, turn).Some? {
        PrepareSafe(env, w, turn);
      } else if Elapse(env, w, turn).Some? {
        ElapseSafe(env, w, turn);
      } else if Restore(env, w, turn).Some? {
        RestoreSafe(env, w, turn);
      } else {
        ExecuteSafe(env, w, turn);
      }
    }
  }

  // ---------------------------------------------------------------- what the catalogue serves

  lemma ServedIsDurable(env: Env, w: World, token: Text)
    requires Safe(env, w) && token in env.own && token !in env.left
    ensures token in w.records ==>
              && HasChallengePhase(w.durable.phase)
              && w.durable.challenge.Some? && w.durable.challenge.value.token == token
              && w.records[token].keyAuthorization == KeyAuthorization(env, token)
    ensures forall other :: other in env.own && other !in env.left && other in w.records && token in w.records ==>
              other == token
  {
    hide P.ValidateCleanupRequest, P.Capture, CP.DecodeHttp, Identified, RemoteSound, OrderSound, AuthorizationSound,
         ChallengeSound, ResultsSound, ProgressSound, ScheduleSound, PublicationSound, H.ReceiptFor, ActionFor;
    if token in w.records {
      CleanableIsHttp(Base(env, w.durable.publication.publication));
    }
  }

  lemma CleanableIsHttp(r: P.ChallengeRequest)
    requires H.Cleanable(r)
    ensures r.kind.Http01?
  {}

  // ---------------------------------------------------------------- when cleanup succeeds

  /** A usable step: current revision, future deadline and expiry, a timely and committed result. */
  predicate Healthy(env: Env, turn: Turn) {
    && P.UsableContext(turn.context) && turn.context.expectedRevision == Some(env.revision)
    && 0 <= turn.now < turn.context.deadline && turn.now < turn.challengeExpiresAt
    && Timely(turn) && turn.commit.Committed?
  }

  lemma RetainedRequestBuilds(env: Env, m: Machine, context: P.RequestContext, challengeExpiresAt: I64)
    requires Sound(env, m) && m.publication.Retained? && m.publication.publication.kind.Http01?
    requires P.UsableContext(context) && context.expectedRevision == Some(env.revision)
    ensures WorkerRequest(env, m, context, challengeExpiresAt)
            == Some(Base(env, m.publication.publication).(context := context))
  {
    var p := m.publication.publication;
    CheckpointableIffCoherent(m);
    SelectedKind(m);
    var r := Base(env, p).(context := context);
    P.RebuildIff(Base(env, p), context);
    BuildMatches(env, m.authorization.value, m.challenge.value, p, context);
  }

  lemma SelectedKind(m: Machine)
    requires Core(m) && m.publication.Retained? && m.publication.publication.kind.Http01?
    ensures m.authorization.Some? && m.challenge.Some?
    ensures m.challenge.value.kind == Ascii("http-01") && !m.authorization.value.wildcard
  {
    hide Identified, RemoteSound, OrderSound, AuthorizationSound, ResultsSound, ProgressSound, CP.DecodeHttp;
    assert P.KindText(P.Http01) == Ascii("http-01") && |P.KindText(P.Dns01)| == 6;
  }

  lemma BuildMatches(env: Env, a: Authorization, challenge: Challenge, p: P.ChallengePublication,
                     context: P.RequestContext)
    requires p.kind.Http01? && Genuine(env, p, challenge) && p.identifier == NameOf(a)
    requires challenge.kind == Ascii("http-01") && !a.wildcard
    requires P.UsableContext(context) && context.expectedRevision == Some(env.revision)
    ensures BuildRequest(env, a, challenge, p.orderEpoch, context, p.expiresAt)
            == Some(Base(env, p).(context := context))
  {
    hide CP.EncodeHttp;
    var payload := CP.Http01Payload(challenge.token, KeyAuthorization(env, challenge.token));
    CP.HttpPayloadBijection(payload, CP.VersionedPayload(p.payloadVersion, p.payload));
  }

  /** The token of the retained publication holds a record of some other publication here. */
  predicate Occupied(env: Env, w: World) {
    && w.local.publication.Retained?
    && H.Cleanable(Base(env, w.local.publication.publication))
    && var token := H.TokenOf(Base(env, w.local.publication.publication));
       && token in w.records
       && w.records[token].receipt != H.RecordFor(env.sha, Base(env, w.local.publication.publication)).receipt
  }

  /** Only a record left by an earlier stay can be in the way. */
  lemma OccupiedByLeftovers(env: Env, w: World)
    requires Safe(env, w) && Occupied(env, w)
    ensures H.TokenOf(Base(env, w.local.publication.publication)) in env.left
  {
    hide Checkpointable, CP.DecodeHttp, P.ValidateCleanupRequest, H.RecordFor;
    CleanableIsHttp(Base(env, w.local.publication.publication));
    TokenOwn(env, w.local);
  }

  /** The cleanup call on retained material succeeds exactly when no other record is in its place. */
  lemma CleanupSucceedsIff(env: Env, w: World, turn: Turn)
    requires Safe(env, w) && Healthy(env, turn)
    requires w.local.phase.CleanupChallenge? || w.local.phase.RetireChallenge?
    ensures var m := w.local;
            var built := WorkerRequest(env, m, turn.context, turn.challengeExpiresAt);
            && built.Some? && built.value.context == turn.context
            && m.publicationDigest.Some? && m.publication.Retained?
            && var (records, cleaned) :=
                 H.Cleanup(env.sha, w.records, built.value,
                           H.Receipt(env.revision, PublicationEpoch(m), m.publicationDigest.value));
               && (cleaned.Ok? <==> !Occupied(env, w))
               && (cleaned.Err? ==> records == w.records)
               && (cleaned.Ok? ==> m.challenge.Some? && m.challenge.value.token !in records)
  {
    hide WorkerRequest, Checkpointable, Coherent, Genuine, H.RecordFor, H.TokenOf, CP.DecodeHttp,
         P.ValidateCleanupRequest, Covers, H.WellFormed;
    var m := w.local;
    CheckpointableIffCoherent(m);
    HeldDigest(m);
    var p := m.publication.publication;
    GenuineRevision(env, p, m.challenge.value);
    RetainedRequestBuilds(env, m, turn.context, turn.challengeExpiresAt);
    RecordIgnoresContext(env, p, turn.context);
    ReceiptParts(env, p);
  }

  lemma HeldDigest(m: Machine)
    requires Coherent(m) && (m.phase.CleanupChallenge? || m.phase.RetireChallenge?)
    ensures m.publicationDigest.Some? && !IsZero(m.publicationDigest.value)
    ensures m.phase.CleanupChallenge? ==> m.pollNotBefore.None?
  {
    hide Identified, RemoteSound, OrderSound, AuthorizationSound, ChallengeSound, ProgressSound, PublicationShape;
  }

  lemma TokenOwn(env: Env, m: Machine)
    requires Sound(env, m) && m.publication.Retained? && m.publication.publication.kind.Http01?
    ensures H.Cleanable(Base(env, m.publication.publication))
    ensures H.TokenOf(Base(env, m.publication.publication)) in env.own
  {
    hide Checkpointable, CP.DecodeHttp, P.ValidateCleanupRequest, H.RecordFor;
  }

  lemma ReceiptParts(env: Env, p: P.ChallengePublication)
    requires H.Cleanable(Base(env, p))
    ensures var receipt := H.RecordFor(env.sha, Base(env, p)).receipt;
            receipt.configurationRevision == env.revision && receipt.orderEpoch == p.orderEpoch
  {
    hide CP.DecodeHttp;
  }

  /** Duties ahead of the cleanup action do not stand in its way. */
  lemma CleanupIsCurrent(env: Env, w: World, turn: Turn)
    requires Safe(env, w) && Healthy(env, turn)
    requires w.local.phase.CleanupChallenge? || w.local.phase.RetireChallenge?
    ensures Work(env, w, turn) == Execute(env, w, turn)
  {
    hide Checkpointable, Coherent, Genuine, Execute, H.RecordFor, H.Cleanup, PublishCall, BuildRequest, Submit, Covers,
         H.WellFormed;
    var m := w.local;
    CheckpointableIffCoherent(m);
    HeldDigest(m);
    var p := m.publication.publication;
    GenuineRevision(env, p, m.challenge.value);
    RecordIgnoresContext(env, p, turn.context);
    ReceiptParts(env, p);
    RebuildGenuine(env, p, m.challenge.value, turn.context);
  }

  lemma RebuildGenuine(env: Env, p: P.ChallengePublication, challenge: Challenge, context: P.RequestContext)
    requires p.kind.Http01? && Genuine(env, p, challenge)
    requires P.UsableContext(context) && context.expectedRevision == Some(env.revision)
    ensures P.Rebuild(p, context) == Ok(Base(env, p).(context := context))
  {
    hide CP.DecodeHttp, P.Rebuild;
    P.RebuildIff(Base(env, p), context);
  }

  /**
   * From any safe state that owes a cleanup, one healthy step removes the record and commits a
   * checkpoint past the challenge, unless an earlier stay left another publication's record under
   * the same token, in which case the step changes nothing.
   */
  lemma CleanupStuckIff(env: Env, w: World, turn: Turn)
    requires Safe(env, w) && Healthy(env, turn)
    requires w.local.phase.CleanupChallenge? || w.local.phase.RetireChallenge?
    ensures var next := Work(env, w, turn);
            && (Occupied(env, w) ==> next == w)
            && (!Occupied(env, w) ==>
                  && (forall token :: token in env.own && token !in env.left ==> token !in next.records)
                  && (w.local.challenge.Some? && w.local.challenge.value.token !in next.records)
                  && next.durable == next.local
                  && next.local == AdvanceWithRetry(w.local, ChallengeCleaned, turn.receivedAt, turn.retry).machine
                  && React(w.local, ChallengeCleaned).result.Ok?
                  && !HasChallengePhase(next.durable.phase))
  {
    hide WorkerRequest, Sound, Covers, H.Cleanup, H.WellFormed, Settle, Work, Occupied, AdvanceWithRetry, React;
    CleanupIsCurrent(env, w, turn);
    CleanupSucceedsIff(env, w, turn);
    var m := w.local;
    var r := WorkerRequest(env, m, turn.context, turn.challengeExpiresAt).value;
    var receipt := H.Receipt(env.revision, PublicationEpoch(m), m.publicationDigest.value);
    CleanupEmpties(env, w, turn.context, turn.challengeExpiresAt, receipt);
    var after := w.(records := H.Cleanup(env.sha, w.records, r, receipt).0);
    if !Occupied(env, w) {
      NoOwnTokens(env, after.records);
      CleanedCommits(env, after, turn);
    }
  }

  lemma NoOwnTokens(env: Env, records: H.Catalogue)
    requires Covers(env, Unprepared, records)
    ensures forall token :: token in env.own && token !in env.left ==> token !in records
  {}

  lemma CleanedCommits(env: Env, w: World, turn: Turn)
    requires Sound(env, w.local) && Healthy(env, turn)
    requires w.local.phase.CleanupChallenge? || w.local.phase.RetireChallenge?
    ensures var next := Settle(w, ChallengeCleaned, turn);
            && next.records == w.records && next.durable == next.local && !HasChallengePhase(next.durable.phase)
            && next.local == AdvanceWithRetry(w.local, ChallengeCleaned, turn.receivedAt, turn.retry).machine
            && React(w.local, ChallengeCleaned).result.Ok?
  {
    hide Checkpointable, Coherent, Core, React;
    var m := w.local;
    CheckpointableIffCoherent(m);
    CoherentCore(m);
    CleanedKeeps(m, ChallengeCleaned);
    RetryKeepsCoherent(m, ChallengeCleaned, turn.receivedAt, turn.retry);
    ReactMaterial(m, ChallengeCleaned);
    CheckpointableIffCoherent(AdvanceWithRetry(m, ChallengeCleaned, turn.receivedAt, turn.retry).machine);
    CleanedPhase(m);
  }

  lemma CleanedPhase(m: Machine)
    requires React(m, ChallengeCleaned).result.Ok?
    ensures !HasChallengePhase(React(m, ChallengeCleaned).machine.phase)
    ensures !React(m, ChallengeCleaned).machine.phase.Complete?
  {}
}
