/**
 * Progress of the whole system: a safe order can have its challenge served, and can be brought to
 * a durable end with nothing served.
 */
module SystemProgress {
  import opened Basics
  import opened Wire
  import opened OrderMachine
  import opened Checkpoint
  import opened OrderRuns
  import opened OrderProgress
  import opened OrderSystem
  import CP = ChallengePayload
  import C = OrderCluster
  import Identifiers
  import P = Publication
  import H = Http01
  import Url

  /** A step at time `t` that nothing disturbs. */
  function Undisturbed(env: Env, t: I64, expiresAt: I64, reply: Option<Event>): Turn
    requires t < I64_MAX
  {
    Turn(t, P.RequestContext(P.V1_0, [], t + 1, Some(env.revision)), expiresAt, None, true, reply, None, t, false,
         Committed)
  }

  /** No polling deadline holds the machine up at time `t`. */
  predicate Due(m: Machine, t: I64) { m.pollNotBefore.Some? ==> m.pollNotBefore.value <= t }

  /** The step committed the machine `n`. */
  predicate Commits(w: World, n: Machine) { w.local == n && w.durable == n }

  // ---------------------------------------------------------------- answers of the CA

  /** Outside the challenge phases an accepted answer is committed as it stands. */
  lemma AnswerSettles(env: Env, w: World, event: Event, t: I64)
    requires Safe(env, w) && !HasChallengePhase(w.local.phase) && !w.local.phase.Retired?
    requires 0 <= t < I64_MAX && Due(w.local, t)
    requires WireEvent(event) && React(w.local, event).result.Ok? && !event.CertificateDownloaded?
    requires !event.ChallengePublished?
    ensures var n := AdvanceWithRetry(w.local, event, t, None).machine;
            var next := Work(env, w, Undisturbed(env, t, t + 1, Some(event)));
            && Commits(next, n) && next.records == w.records
            && n == React(w.local, event).machine.(pollNotBefore := n.pollNotBefore) && Due(n, t)
            && n.publication.Unprepared?
  {
    hide React, Checkpointable, Coherent, Core, WireEvent, Covers, H.WellFormed, Genuine, H.RecordFor, Contradicts;
    var m := w.local;
    CheckpointableIffCoherent(m);
    CoherentCore(m);
    RetryKeepsCoherent(m, event, t, None);
    NothingRetained(m);
    ReactMaterial(m, event);
    CompletesOnlyByDownload(m, event);
    CheckpointableIffCoherent(AdvanceWithRetry(m, event, t, None).machine);
  }

  /** Publication material is only held in the challenge phases. */
  lemma NothingRetained(m: Machine)
    requires Coherent(m) && !HasChallengePhase(m.phase)
    ensures m.publication.Unprepared?
  {
    hide Identified, Present, RemoteSound, OrderSound, AuthorizationSound, ChallengeSound, ResultsSound, ProgressSound,
         ScheduleSound;
  }

  lemma CompletesOnlyByDownload(m: Machine, event: Event)
    requires Core(m) && React(m, event).result.Ok? && !event.CertificateDownloaded?
    ensures !React(m, event).machine.phase.Complete?
  {
    hide Core, React;
    ReactMoves(m, event);
  }

  // ---------------------------------------------------------------- preparing a publication

  /** The material can be built: a short enough token, a valid proof, and a name that identifies. */
  predicate Preparable(env: Env, m: Machine) {
    && m.authorization.Some? && m.challenge.Some?
    && CP.ValidToken(m.challenge.value.token) && CP.ValidValue(KeyAuthorization(env, m.challenge.value.token))
    && var name := NameOf(m.authorization.value);
       1 <= |name| <= 253 && IsAscii(name) && P.ValidIdentifier(name, P.Http01)
  }

  predicate AwaitsPreparation(m: Machine) {
    m.preference == P.Http01 && m.phase.PublishChallenge? && m.publication.Unprepared?
  }

  lemma HttpChallenge(m: Machine)
    requires Core(m) && m.preference == P.Http01 && HasChallengePhase(m.phase)
    ensures m.authorization.Some? && m.challenge.Some? && !m.authorization.value.wildcard
    ensures m.challenge.value.kind == Ascii("http-01")
    ensures m.publication.Retained? ==> m.publication.publication.kind == P.Http01
  {
    hide Identified, RemoteSound, OrderSound, AuthorizationSound, ResultsSound, ProgressSound, FirstOfKind,
         CP.DecodeHttp;
    assert P.KindText(P.Http01) == Ascii("http-01") && |P.KindText(P.Dns01)| == 6;
  }

  /** What the retained material will be. */
  function Prepared(env: Env, m: Machine, expiresAt: I64): P.ChallengePublication
    requires m.authorization.Some? && m.challenge.Some?
  {
    var token := m.challenge.value.token;
    P.ChallengePublication(
      P.Http01, NameOf(m.authorization.value), CP.FORMAT_VERSION,
      match CP.EncodeHttp(CP.Http01Payload(token, KeyAuthorization(env, token)))
      case Ok(payload) => payload.bytes
      case Err(_) => [],
      env.revision, m.orderEpoch, expiresAt)
  }

  lemma BuildsIff(env: Env, m: Machine, t: I64, expiresAt: I64)
    requires Coherent(m) && AwaitsPreparation(m) && env.revision != 0 && 0 <= t < I64_MAX && t < expiresAt
    ensures m.authorization.Some? && m.challenge.Some?
    ensures var turn := Undisturbed(env, t, expiresAt, None);
            var built := BuildRequest(env, m.authorization.value, m.challenge.value, m.orderEpoch, turn.context,
                                      expiresAt);
            && (built.Some? && P.Capture(built.value).Ok? <==> Preparable(env, m))
            && (Preparable(env, m) ==> P.Capture(built.value) == Ok(Prepared(env, m, expiresAt)))
  {
    hide Identified, RemoteSound, OrderSound, AuthorizationSound, ResultsSound, ProgressSound, PublicationShape,
         ChallengeSound, ScheduleSound, CP.DecodeHttp, CP.EncodeHttp, P.ValidIdentifier, CP.ValidValue;
    HttpChallenge(m);
    EpochSet(m);
    var token := m.challenge.value.token;
    var payload := CP.Http01Payload(token, KeyAuthorization(env, token));
    if CP.ConstructibleHttp(payload) {
      EncodedPayload(payload);
    }
  }

  lemma EpochSet(m: Machine)
    requires Coherent(m)
    ensures m.orderEpoch != 0
  {
    hide Present, RemoteSound, OrderSound, AuthorizationSound, ChallengeSound, ResultsSound, ProgressSound,
         ScheduleSound, PublicationShape;
  }

  lemma EncodedPayload(payload: CP.Http01Payload)
    requires CP.ConstructibleHttp(payload)
    ensures CP.EncodeHttp(payload).Ok?
    ensures var value := CP.EncodeHttp(payload).value;
            && value.formatVersion == CP.FORMAT_VERSION && |value.bytes| <= CP.MAXIMUM_PAYLOAD_BYTES
            && CP.DecodeHttp(value) == Ok(payload)
  {
    hide CP.ValidToken, CP.ValidValue, CP.DecodeHttp;
    CP.HttpPayloadBijection(payload, CP.VersionedPayload(0, []));
    CP.HttpPayloadBijection(payload, CP.EncodeHttp(payload).value);
    AcceptedLength(CP.EncodeHttp(payload).value);
  }

  lemma AcceptedLength(value: CP.VersionedPayload)
    requires CP.DecodeHttp(value).Ok?
    ensures |value.bytes| <= CP.MAXIMUM_PAYLOAD_BYTES && value.formatVersion == CP.FORMAT_VERSION
  {}

  /**
   * An undisturbed step retains the material of a selected HTTP-01 challenge if and only if that
   * material can be built. If not, the step changes nothing.
   */
  lemma PreparesIff(env: Env, w: World, t: I64, expiresAt: I64)
    requires Safe(env, w) && AwaitsPreparation(w.local) && 0 <= t < I64_MAX && t < expiresAt
    ensures var next := Work(env, w, Undisturbed(env, t, expiresAt, None));
            && (Preparable(env, w.local) ==>
                  Commits(next, w.local.(publication := Retained(Prepared(env, w.local, expiresAt))))
                  && next.records == w.records)
            && (!Preparable(env, w.local) ==> next == w)
  {
    hide BuildRequest, P.Capture, Preparable, Checkpointable, Coherent, Covers, H.WellFormed, Genuine, H.RecordFor,
         Prepared;
    var m := w.local;
    CheckpointableIffCoherent(m);
    BuildsIff(env, m, t, expiresAt);
    if Preparable(env, m) {
      Retainable(env, m, expiresAt);
    }
  }

  /** If the material cannot be built, no step whatsoever changes anything: the order is stuck. */
  lemma UnpublishableIsStuck(env: Env, w: World, turn: Turn)
    requires Safe(env, w) && AwaitsPreparation(w.local) && !Preparable(env, w.local)
    ensures Work(env, w, turn) == w
  {
    hide Covers, H.WellFormed, Genuine, H.RecordFor, Checkpointable, Coherent, Core, CP.ValidToken, CP.ValidValue,
         P.ValidIdentifier, CP.DecodeHttp, CP.EncodeHttp;
    CheckpointableIffCoherent(w.local);
    CoherentCore(w.local);
    HttpChallenge(w.local);
  }

  /**
   * The machine selects such challenges: the parser admits tokens of up to 512 bytes, the payload
   * only of up to 128, and nothing in between compares the two.
   */
  lemma LongTokenIsSelected(env: Env, m: Machine, a: Authorization, c: Challenge, nonce: Text)
    requires Core(m) && m.phase.FetchAuthorization? && m.preference == P.Http01 && ValidNonce(nonce)
    requires a.status == Pending && !a.wildcard && a.challenges == [c] && WireAuthorization(a)
    requires NameOf(a) in m.dnsNames && NameOf(a) !in m.authorizedNames
    requires c.kind == P.KindText(P.Http01) && 128 < |c.token| <= 512
    ensures var n := React(m, AuthorizationFetched(a, nonce));
            && n.result.Ok? && AwaitsPreparation(n.machine)
            && n.machine.challenge == Some(c) && !CP.ValidToken(c.token)
  {
    hide Identified, RemoteSound, OrderSound, AuthorizationSound, ChallengeSound, ResultsSound, ProgressSound, NameOf,
         WireAuthorization, SameFrame, SameOrder, KeepsOrClears, AdvanceAuthorization;
    assert FirstOfKind([c], P.KindText(P.Http01)) == Some(c);
  }

  lemma Retainable(env: Env, m: Machine, expiresAt: I64)
    requires Checkpointable(m) && AwaitsPreparation(m) && Preparable(env, m)
    ensures var t := RetainPublication(m, Prepared(env, m, expiresAt));
            t.result.Ok? && t.machine == m.(publication := Retained(Prepared(env, m, expiresAt)))
            && Checkpointable(t.machine) && m.publicationDigest.None?
  {
    hide Checkpointable, Coherent, CP.DecodeHttp, CP.EncodeHttp, Core;
    CheckpointableIffCoherent(m);
    CoherentCore(m);
    HttpChallenge(m);
    CorePresent(m);
    var token := m.challenge.value.token;
    var payload := CP.Http01Payload(token, KeyAuthorization(env, token));
    EncodedPayload(payload);
    RetainKeepsCoherent(m, Prepared(env, m, expiresAt));
    CheckpointableIffCoherent(RetainPublication(m, Prepared(env, m, expiresAt)).machine);
  }

  // ---------------------------------------------------------------- serving the challenge

  /** The receipt of the retained publication is one the machine accepts. */
  predicate GoodReceipt(env: Env, m: Machine) {
    && m.publication.Retained? && H.Cleanable(Base(env, m.publication.publication))
    && !IsZero(H.RecordFor(env.sha, Base(env, m.publication.publication)).receipt.publicationDigest)
  }

  lemma RetainedHttp(env: Env, m: Machine)
    requires Sound(env, m) && m.preference == P.Http01 && m.publication.Retained?
    ensures Checkpointable(m) && Coherent(m) && m.challenge.Some? && HasChallengePhase(m.phase)
    ensures m.challenge.value.token in env.own
    ensures m.publication.publication.kind.Http01? && Genuine(env, m.publication.publication, m.challenge.value)
    ensures H.Cleanable(Base(env, m.publication.publication))
    ensures H.TokenOf(Base(env, m.publication.publication)) == m.challenge.value.token
    ensures m.publication.publication.configurationRevision == env.revision
  {
    hide Checkpointable, Identified, Present, RemoteSound, OrderSound, AuthorizationSound, ChallengeSound,
         ResultsSound, ProgressSound, ScheduleSound, CP.DecodeHttp, P.MatchesIdentity, H.RecordFor;
    CheckpointableIffCoherent(m);
    HttpChallenge(m);
    GenuineRevision(env, m.publication.publication, m.challenge.value);
  }

  /** There is room for the challenge: a free slot, or its own record from before. */
  predicate Room(w: World, token: Text) { |w.records| < H.MAXIMUM_ACTIVE_CHALLENGES || token in w.records }

  lemma CallPublishes(env: Env, w: World, t: I64)
    requires Safe(env, w) && w.local.preference == P.Http01 && w.local.publication.Retained?
    requires w.local.challenge.Some? && w.local.challenge.value.token !in env.left
    requires Room(w, w.local.challenge.value.token)
    requires 0 <= t < I64_MAX && t + 1 < w.local.publication.publication.expiresAt
    ensures var token, p := w.local.challenge.value.token, w.local.publication.publication;
            var (records, receipt) := PublishCall(env, w, Undisturbed(env, t, t + 1, None));
            && H.Cleanable(Base(env, p)) && token in records && records[token] == H.RecordFor(env.sha, Base(env, p))
            && receipt == Some(H.RecordFor(env.sha, Base(env, p)).receipt)
  {
    hide Checkpointable, Genuine, WorkerRequest, CP.DecodeHttp, H.RecordFor, H.TokenOf, H.Publish, Covers, Sound,
         Coherent, H.Visible, P.ValidMaterial;
    var m, p, turn := w.local, w.local.publication.publication, Undisturbed(env, t, t + 1, None);
    RetainedHttp(env, m);
    RetainedRequestBuilds(env, m, turn.context, turn.challengeExpiresAt);
    RecordIgnoresContext(env, p, turn.context);
    var r := Base(env, p).(context := turn.context);
    assert P.ValidateRequest(r, P.Http01).Ok?;
    H.PublishTakesEffectIff(env.sha, w.records, r);
    CoveredRecord(env, w);
    SeenAfterwards(env.sha, H.Publish(env.sha, true, w.records, r).0, r);
  }

  lemma CoveredRecord(env: Env, w: World)
    requires Safe(env, w) && w.local.publication.Retained? && w.local.challenge.Some?
    requires w.local.challenge.value.token in env.own && w.local.challenge.value.token !in env.left
    ensures var token, p := w.local.challenge.value.token, w.local.publication.publication;
            token in w.records ==> H.Cleanable(Base(env, p)) && w.records[token] == H.RecordFor(env.sha, Base(env, p))
  {
    hide Sound, H.RecordFor, H.Cleanable, H.WellFormed;
  }

  lemma SeenAfterwards(sha: Hash, records: H.Catalogue, r: P.ChallengeRequest)
    requires H.Publishable(r) && H.TokenOf(r) in records && records[H.TokenOf(r)] == H.RecordFor(sha, r)
    ensures H.Visible(sha, records, r, H.RecordFor(sha, r).receipt) == Ok(true)
  {
    hide CP.DecodeHttp, P.ValidateCleanupRequest, H.ReceiptFor;
  }

  /** Publishing is accepted by the machine and leaves a checkpoint that awaits notification. */
  lemma PublishedAdvances(m: Machine, digest: Digest, t: I64)
    requires Checkpointable(m) && m.phase.PublishChallenge? && m.publication.Retained? && !IsZero(digest) && t >= 0
    ensures var a := AdvanceWithRetry(m, ChallengePublished(digest), t, None);
            && a.result.Ok? && Checkpointable(a.machine) && a.machine.phase.NotifyChallenge?
            && a.machine == m.(publicationDigest := Some(digest), phase := NotifyChallenge, pollNotBefore := None)
  {
    hide Checkpointable, Coherent, WireEvent, Contradicts;
    CheckpointableIffCoherent(m);
    assert WireEvent(ChallengePublished(digest)) by { EffectIsWire(digest); }
    RetryKeepsCoherent(m, ChallengePublished(digest), t, None);
    CheckpointableIffCoherent(AdvanceWithRetry(m, ChallengePublished(digest), t, None).machine);
  }

  lemma EffectIsWire(digest: Digest)
    ensures WireEvent(ChallengePublished(digest))
  {}

  /**
   * A prepared order with room in the catalogue is served by one undisturbed step: the key
   * authorization answers for the token until the publication expires, and the checkpoint says so.
   */
  lemma StepServes(env: Env, w: World, t: I64, now: I64)
    requires Safe(env, w) && w.local.preference == P.Http01 && w.local.phase.PublishChallenge?
    requires w.local.publication.Retained? && GoodReceipt(env, w.local)
    requires w.local.challenge.Some? && w.local.challenge.value.token !in env.left
    requires Room(w, w.local.challenge.value.token) && Due(w.local, t)
    requires 0 <= t < I64_MAX && t + 1 < w.local.publication.publication.expiresAt
    requires now < w.local.publication.publication.expiresAt
    ensures var next := Work(env, w, Undisturbed(env, t, t + 1, None));
            var token := w.local.challenge.value.token;
            && H.Response(next.records, token, now) == Some(KeyAuthorization(env, token))
            && next.durable == next.local && next.local.phase.NotifyChallenge? && next.visible
            && next.local.challenge == w.local.challenge && next.local.publication == w.local.publication
            && next.local.authorization == w.local.authorization && next.local.dnsNames == w.local.dnsNames
            && next.local.preference == w.local.preference
            && next.local.authorizationIndex == w.local.authorizationIndex && next.local.pollNotBefore.None?
  {
    hide Safe, PublishCall, Work, Settle, H.RecordFor, H.Cleanable, Genuine, Due, Room, Sound, Checkpointable, Covers,
         Coherent, H.WellFormed, H.Response;
    var m, turn := w.local, Undisturbed(env, t, t + 1, None);
    var token, p := m.challenge.value.token, m.publication.publication;
    SafeParts(env, w);
    PublishIsCurrent(env, w, t);
    CallPublishes(env, w, t);
    RetainedHttp(env, m);
    var (records, receipt) := PublishCall(env, w, turn);
    PublishedSettles(w.(records := records), receipt.value.publicationDigest, turn);
    RecordServes(env, p, m.challenge.value, records, token, now);
  }

  lemma PublishIsCurrent(env: Env, w: World, t: I64)
    requires w.local.phase.PublishChallenge? && w.local.publication.Retained? && Due(w.local, t)
    requires 0 <= t < I64_MAX && t < w.local.publication.publication.expiresAt
    ensures var turn := Undisturbed(env, t, t + 1, None); Work(env, w, turn) == Execute(env, w, turn)
  {
    hide Execute, ExpectedDigest, PublishCall;
  }

  lemma PublishedSettles(w: World, digest: Digest, turn: Turn)
    requires Checkpointable(w.local) && w.local.phase.PublishChallenge? && w.local.publication.Retained?
    requires !IsZero(digest) && Timely(turn) && turn.receivedAt >= 0 && turn.retry.None? && turn.commit.Committed?
    ensures var next := Settle(w, ChallengePublished(digest), turn);
            && next.durable == next.local && next.local.phase.NotifyChallenge? && next.visible
            && next.local.challenge == w.local.challenge && next.local.publication == w.local.publication
            && next.local.authorization == w.local.authorization && next.local.dnsNames == w.local.dnsNames
            && next.local.preference == w.local.preference && next.records == w.records
            && next.local.authorizationIndex == w.local.authorizationIndex && next.local.pollNotBefore.None?
  {
    hide Checkpointable, AdvanceWithRetry;
    PublishedAdvances(w.local, digest, turn.receivedAt);
  }

  lemma RecordServes(env: Env, p: P.ChallengePublication, challenge: Challenge, records: H.Catalogue, token: Text,
                     now: I64)
    requires p.kind.Http01? && Genuine(env, p, challenge) && challenge.token == token && now < p.expiresAt
    requires H.Cleanable(Base(env, p)) && token in records && records[token] == H.RecordFor(env.sha, Base(env, p))
    ensures H.Response(records, token, now) == Some(KeyAuthorization(env, token))
  {
    hide P.ValidateCleanupRequest, P.Capture, H.ReceiptFor;
  }

  // ---------------------------------------------------------------- expiry and retirement

  /** An elapsed publication is turned into a cleanup by one undisturbed step. */
  lemma ExpirySettles(env: Env, w: World, t: I64)
    requires Safe(env, w) && w.local.preference == P.Http01
    requires w.local.phase.PublishChallenge? || w.local.phase.NotifyChallenge? || w.local.phase.PollAuthorization?
    requires w.local.publication.Retained? && GoodReceipt(env, w.local)
    requires 0 <= t < I64_MAX && w.local.publication.publication.expiresAt <= t
    ensures var next := Work(env, w, Undisturbed(env, t, t + 1, None));
            && next.durable == next.local && next.local.phase.RetireChallenge? && next.records == w.records
            && next.local.challenge == w.local.challenge && next.local.publication == w.local.publication
            && next.local.preference == P.Http01 && next.local.dnsNames == w.local.dnsNames
            && next.local.pollNotBefore == w.local.pollNotBefore
  {
    hide Checkpointable, Coherent, Covers, H.WellFormed, H.RecordFor, H.Cleanable, Genuine, RetainedName;
    var m, p, turn := w.local, w.local.publication.publication, Undisturbed(env, t, t + 1, None);
    RetainedHttp(env, m);
    RebuildGenuine(env, p, m.challenge.value, turn.context);
    RecordIgnoresContext(env, p, turn.context);
    ReceiptParts(env, p);
    var digest := H.RecordFor(env.sha, Base(env, p)).receipt.publicationDigest;
    assert ExpectedDigest(env, p, turn.context) == Some(digest);
    CheckpointableIffCoherent(m);
    ExpireKeepsCoherent(m, t, digest);
    CheckpointableIffCoherent(ExpirePublication(m, t, digest).0);
  }

  // ---------------------------------------------------------------- a durable end

  /** A CA willing to answer, with tokens of its own for this order, and a hash that is never zero. */
  ghost predicate Willing(env: Env, s: Supplies, names: seq<Text>) {
    && Sufficient(s, names)
    && (forall i :: 0 <= i < |s.challenges| ==> s.challenges[i].token in env.own)
    && forall text: Text :: !IsZero(env.sha(text))
  }

  predicate AtEnd(phase: Phase) { phase.Retired? || phase.DownloadCertificate? }

  /** Nothing stands in the way of ending the order at time `t`. */
  predicate Endable(env: Env, m: Machine, t: I64) {
    && m.preference == P.Http01 && Due(m, t) && !m.phase.Complete?
    && (m.challenge.Some? ==> m.challenge.value.token !in env.left)
    && (m.publication.Retained? ==> m.publication.publication.expiresAt <= t)
    && (AwaitsPreparation(m) ==> Preparable(env, m))
  }

  /** Steps that are left on the way to the end. */
  function Steps(m: Machine): nat {
    match m.phase
    case DiscoverDirectory => 4
    case AcquireNonce => 3
    case CreateAccount => 2
    case PublishChallenge => if m.publication.Retained? then 2 else 3
    case NotifyChallenge => 2
    case PollAuthorization => 2
    case CleanupChallenge => 2
    case DownloadCertificate => 0
    case Complete => 0
    case Retired(_) => 0
    case _ => 1
  }

  /** An answer that leads towards the end without another challenge. */
  predicate Ends(env: Env, m: Machine, event: Event) {
    && WireEvent(event) && React(m, event).result.Ok?
    && RemoteReply(env, event) && !event.CertificateDownloaded?
    && !HasChallengePhase(React(m, event).machine.phase) && !React(m, event).machine.phase.Complete?
    && Steps(React(m, event).machine) < Steps(m)
  }

  lemma SetupEnds(env: Env, m: Machine, s: Supplies) returns (event: Event)
    requires Core(m) && Sufficient(s, m.dnsNames) && !Ordered(m.phase)
    ensures Ends(env, m, event)
  {
    hide Url.BoundedUrl, Identifiers.ValidRequest, DistinctUrls, WireChallenges, IsZero, AcceptAuthorization,
         CompleteChallenge, SameFrame, SameOrder, KeepsOrClears;
    var url := m.directoryUrl;
    match m.phase
    case DiscoverDirectory => event := DirectoryDiscovered(Directory(url, url, url));
    case AcquireNonce => event := NonceAcquired(s.nonce);
    case CreateAccount => event := AccountCreated(url, s.nonce);
    case CreateOrder => event := OrderCreated(url, Order(Invalid, m.dnsNames, s.urls, url, None), s.nonce);
  }

  lemma FetchEnds(env: Env, m: Machine, s: Supplies) returns (event: Event)
    requires Core(m) && Willing(env, s, m.dnsNames) && m.phase.FetchAuthorization?
    ensures Ends(env, m, event)
  {
    hide Url.BoundedUrl, Identifiers.ValidRequest, DistinctUrls, WireChallenges, IsZero, Identifiers.ValidDnsName,
         WireAuthorization, NameOf, AuthorizationFor, AdvanceAuthorization, SameFrame, SameOrder, KeepsOrClears;
    var name := OpenName(m);
    AuthorizationNames(name, s.challenges);
    var a := AuthorizationFor(name, s.challenges).(status := Invalid);
    RejectedIsWire(name, s.challenges);
    event := AuthorizationFetched(a, s.nonce);
  }

  lemma RejectedIsWire(name: Text, challenges: seq<Challenge>)
    requires WireAuthorization(AuthorizationFor(name, challenges))
    ensures var a := AuthorizationFor(name, challenges).(status := Invalid);
            && WireAuthorization(a) && a.challenges == challenges
            && NameOf(a) == NameOf(AuthorizationFor(name, challenges))
  {
    hide WireChallenges, Identifiers.ValidDnsName;
  }

  lemma OrderEnds(env: Env, m: Machine, s: Supplies) returns (event: Event)
    requires Core(m) && Sufficient(s, m.dnsNames) && (m.phase.FinalizeOrder? || m.phase.PollOrder?)
    ensures Ends(env, m, event)
  {
    hide Url.BoundedUrl, Identifiers.ValidRequest, DistinctUrls, WireChallenges, IsZero, NamesSound, RemoteSound,
         AcceptAuthorization, CompleteChallenge, SameFrame, SameOrder, KeepsOrClears;
    var rejected := m.order.value.(status := Invalid);
    if m.phase.FinalizeOrder? {
      event := OrderFinalized(rejected, s.nonce);
    } else {
      event := OrderPolled(rejected, s.nonce);
    }
  }

  lemma AnswerEnds(env: Env, m: Machine, s: Supplies) returns (event: Event)
    requires Core(m) && Willing(env, s, m.dnsNames)
    requires !HasChallengePhase(m.phase) && !AtEnd(m.phase) && !m.phase.Complete?
    ensures Ends(env, m, event)
  {
    hide Core, Ends, Sufficient;
    if !Ordered(m.phase) {
      event := SetupEnds(env, m, s);
    } else if m.phase.FetchAuthorization? {
      event := FetchEnds(env, m, s);
    } else {
      event := OrderEnds(env, m, s);
    }
  }

  /** One step on the way: the world moves closer to the end and stays as good as it was. */
  predicate Nears(env: Env, w: World, next: World, t: I64)
    requires t < I64_MAX
  {
    && next.durable == next.local && Steps(next.local) < Steps(w.local)
    && Endable(env, next.local, t + 1) && next.local.dnsNames == w.local.dnsNames
  }

  lemma AnsweredNears(env: Env, w: World, s: Supplies, t: I64) returns (turn: Turn)
    requires Safe(env, w) && Willing(env, s, w.local.dnsNames) && Endable(env, w.local, t)
    requires !HasChallengePhase(w.local.phase) && !AtEnd(w.local.phase) && 0 <= t < I64_MAX - 1
    ensures OrderSystem.Allowed(env, turn) && Nears(env, w, Work(env, w, turn), t)
  {
    hide Core, Coherent, Checkpointable, React, WireEvent, Work, Preparable, Covers, H.WellFormed, Genuine,
         H.RecordFor, OwnTokens, AdvanceWithRetry;
    var m := w.local;
    CheckpointableIffCoherent(m);
    CoherentCore(m);
    var event := AnswerEnds(env, m, s);
    turn := Undisturbed(env, t, t + 1, Some(event));
    AnswerSettles(env, w, event, t);
    EndsUnchallenged(m, event);
  }

  lemma EndsUnchallenged(m: Machine, event: Event)
    requires Core(m) && React(m, event).result.Ok? && WireEvent(event)
    requires !HasChallengePhase(React(m, event).machine.phase)
    ensures React(m, event).machine.challenge.None?
  {
    hide Core, React, WireEvent, CleanRefusal;
    ReactKeeps(m, event);
    CorePresent(React(m, event).machine);
  }

  lemma PreparedNears(env: Env, w: World, s: Supplies, t: I64) returns (turn: Turn)
    requires Safe(env, w) && Willing(env, s, w.local.dnsNames) && Endable(env, w.local, t)
    requires AwaitsPreparation(w.local) && 0 <= t < I64_MAX - 1
    ensures OrderSystem.Allowed(env, turn) && Nears(env, w, Work(env, w, turn), t)
  {
    hide Safe, Work, Willing, Prepared, CP.ValidToken, CP.ValidValue, P.ValidIdentifier;
    turn := Undisturbed(env, t, t + 1, None);
    PreparesIff(env, w, t, t + 1);
    assert Prepared(env, w.local, t + 1).expiresAt == t + 1 by { PreparedExpiry(env, w.local, t + 1); }
  }

  lemma PreparedExpiry(env: Env, m: Machine, expiresAt: I64)
    requires m.authorization.Some? && m.challenge.Some?
    ensures Prepared(env, m, expiresAt).expiresAt == expiresAt
  {
    hide CP.EncodeHttp;
  }

  lemma RetainedNears(env: Env, w: World, s: Supplies, t: I64) returns (turn: Turn)
    requires Safe(env, w) && Willing(env, s, w.local.dnsNames) && Endable(env, w.local, t)
    requires w.local.phase.PublishChallenge? || w.local.phase.NotifyChallenge? || w.local.phase.PollAuthorization?
    requires w.local.publication.Retained? && 0 <= t < I64_MAX - 1
    ensures OrderSystem.Allowed(env, turn) && Nears(env, w, Work(env, w, turn), t)
  {
    hide Safe, Work, Preparable, Sound, H.RecordFor, H.Cleanable, Sufficient, Genuine, Coherent, Checkpointable;
    turn := Undisturbed(env, t, t + 1, None);
    SafeParts(env, w);
    RetainedHttp(env, w.local);
    NonzeroReceipt(env, w.local);
    ExpirySettles(env, w, t);
  }

  lemma NonzeroReceipt(env: Env, m: Machine)
    requires m.publication.Retained? && H.Cleanable(Base(env, m.publication.publication))
    requires forall text: Text :: !IsZero(env.sha(text))
    ensures GoodReceipt(env, m)
  {
    hide CP.DecodeHttp, P.ValidateCleanupRequest, IsZero;
  }

  lemma CleanedNears(env: Env, w: World, s: Supplies, t: I64) returns (turn: Turn)
    requires Safe(env, w) && Willing(env, s, w.local.dnsNames) && Endable(env, w.local, t)
    requires w.local.phase.CleanupChallenge? || w.local.phase.RetireChallenge?
    requires 0 <= t < I64_MAX - 1
    ensures OrderSystem.Allowed(env, turn) && Nears(env, w, Work(env, w, turn), t)
  {
    hide Safe, Work, Sound, Willing, Genuine, Coherent, Checkpointable, Occupied, React, Core, Covers,
         AdvanceWithRetry, H.WellFormed, WorkerRequest, H.Cleanup, Preparable;
    var m := w.local;
    turn := Undisturbed(env, t, t + 1, None);
    SafeParts(env, w);
    SoundCoherent(env, m);
    CleanupSucceedsIff(env, w, turn);
    RetainedHttp(env, m);
    if Occupied(env, w) {
      OccupiedByLeftovers(env, w);
      assert false;
    }
    CleanupStuckIff(env, w, turn);
    CleanedShape(m, t);
  }

  lemma CleanedShape(m: Machine, t: I64)
    requires Core(m) && React(m, ChallengeCleaned).result.Ok? && Due(m, t) && t >= 0
    ensures var n := AdvanceWithRetry(m, ChallengeCleaned, t, None).machine;
            && Steps(n) < Steps(m) && Due(n, t) && !n.phase.Complete? && !HasChallengePhase(n.phase)
            && n.challenge.None? && n.publication.Unprepared?
            && n.preference == m.preference && n.dnsNames == m.dnsNames
  {
    hide Core, React;
    ReactMoves(m, ChallengeCleaned);
    ReactMaterial(m, ChallengeCleaned);
  }

  lemma SoundCoherent(env: Env, m: Machine)
    requires Sound(env, m)
    ensures Coherent(m) && Core(m)
  {
    hide Checkpointable, Coherent, Genuine, H.RecordFor;
    CheckpointableIffCoherent(m);
    CoherentCore(m);
  }

  lemma StepNears(env: Env, w: World, s: Supplies, t: I64) returns (turn: Turn)
    requires Safe(env, w) && Willing(env, s, w.local.dnsNames) && Endable(env, w.local, t)
    requires !AtEnd(w.local.phase) && 0 <= t < I64_MAX - 1
    ensures OrderSystem.Allowed(env, turn) && Nears(env, w, Work(env, w, turn), t)
  {
    hide Safe, Willing, Endable, Nears, Work, OrderSystem.Allowed, Sound;
    var m := w.local;
    if !HasChallengePhase(m.phase) {
      turn := AnsweredNears(env, w, s, t);
    } else if m.phase.CleanupChallenge? || m.phase.RetireChallenge? {
      turn := CleanedNears(env, w, s, t);
    } else if m.publication.Retained? {
      turn := RetainedNears(env, w, s, t);
    } else {
      SafeParts(env, w);
      EndableIsHttp(env, m, t);
      UnpreparedWaits(env, m);
      turn := PreparedNears(env, w, s, t);
    }
  }

  lemma EndableIsHttp(env: Env, m: Machine, t: I64)
    requires Endable(env, m, t)
    ensures m.preference == P.Http01
  {}

  /** Without retained material the only challenge phase of a sound machine is the first. */
  lemma UnpreparedWaits(env: Env, m: Machine)
    requires Sound(env, m) && HasChallengePhase(m.phase) && !m.publication.Retained?
    ensures m.phase.PublishChallenge? && m.publication.Unprepared?
  {
    hide Checkpointable, Identified, Present, RemoteSound, OrderSound, AuthorizationSound, ChallengeSound,
         ResultsSound, ProgressSound, ScheduleSound;
    CheckpointableIffCoherent(m);
  }

  // ---------------------------------------------------------------- runs to the end

  predicate OnlyWork(moves: seq<C.Move>) { forall i :: 0 <= i < |moves| ==> moves[i].WorkMove? }

  lemma {:induction false} EndReached(env: Env, c: C.Cluster, s: Supplies, t: I64) returns (moves: seq<C.Move>)
    requires C.SafeCluster(env, c) && Willing(C.Stay(env, c), s, c.local.dnsNames)
    requires Endable(C.Stay(env, c), c.local, t) && 0 <= t && t + Steps(c.local) < I64_MAX - 1
    requires AtEnd(c.local.phase) ==> AtEnd(c.durable.phase)
    ensures C.PossibleRun(env, c, moves) && OnlyWork(moves)
    ensures var end := C.Reach(env, c, moves);
            && C.SafeCluster(env, end) && AtEnd(end.durable.phase) && end.home == c.home && end.found == c.found
    decreases Steps(c.local)
  {
    hide Safe, Willing, Endable, Work, OrderSystem.Allowed, H.WellFormed, Steps;
    moves := [];
    if !AtEnd(c.local.phase) {
      var turn := StepNears(C.Stay(env, c), C.Here(c), s, t);
      var move := C.WorkMove(turn);
      C.NextSafe(env, c, move);
      var next := C.Next(env, c, move);
      var rest := EndReached(env, next, s, t + 1);
      moves := [move] + rest;
      C.RunAppends(env, c, [move], rest);
      C.SingleMove(env, c, move);
    }
  }

  /**
   * From every reachable state of an HTTP-01 order, a replacement worker can bring the order to a
   * durable end by undisturbed steps of a CA that rejects what is left, once a retained publication
   * has expired; its process then serves nothing of the order that it had not found there. What must
   * hold is that an unprepared challenge can be prepared at all, and that the token of the current
   * challenge was not found on arrival.
   */
  lemma OrderCanEnd(env: Env, c: C.Cluster, epoch: U64, s: Supplies, t: I64) returns (moves: seq<C.Move>)
    requires C.SafeCluster(env, c) && Willing(C.Stay(env, c), s, c.durable.dnsNames)
    requires epoch != 0 && Endable(C.Stay(env, c), c.durable, t) && 0 <= t < I64_MAX - 6
    ensures C.PossibleRun(env, c, moves)
    ensures var end := C.Reach(env, c, moves);
            && AtEnd(end.durable.phase) && end.home == c.home && end.found == c.found
            && forall token :: token in env.own && token !in end.found ==> token !in C.Shelf(end, end.home)
  {
    hide Safe, Willing, Preparable, Work, OrderSystem.Allowed, H.WellFormed, ResumeUnderFence, Sound;
    var move := C.Replace(epoch, c.home, false);
    SafeParts(C.Stay(env, c), C.Here(c));
    SoundCoherent(C.Stay(env, c), c.durable);
    ResumeKeepsCoherent(c.durable, epoch);
    C.ResumedSound(C.Stay(env, c), c.durable, epoch);
    C.NextSafe(env, c, move);
    var next := C.Next(env, c, move);
    ResumedEndable(C.Stay(env, c), c.durable, epoch, t);
    var rest := EndReached(env, next, s, t);
    moves := [move] + rest;
    C.RunAppends(env, c, [move], rest);
    C.SingleMove(env, c, move);
    var end := C.Reach(env, c, moves);
    forall token | token in env.own && token !in end.found
      ensures token !in C.Shelf(end, end.home)
    {
      ServedIsDurable(C.Stay(env, end), C.Here(end), token);
    }
  }

  lemma ResumedEndable(env: Env, m: Machine, epoch: U64, t: I64)
    requires Endable(env, m, t)
    ensures Endable(env, m.(orderEpoch := epoch), t)
    ensures Steps(m.(orderEpoch := epoch)) == Steps(m) <= 4
  {
    hide CP.ValidToken, CP.ValidValue, P.ValidIdentifier;
  }
}
