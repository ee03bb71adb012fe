/** The checkpoint validator, and the proof that running the machine keeps its state coherent. */
module Checkpoint {
  import opened Basics
  import opened Wire
  import opened OrderMachine
  import Url
  import Identifiers
  import P = Publication

  // ---------------------------------------------------------------- what a checkpoint must satisfy

  predicate HoldsDigest(phase: Phase) {
    phase.NotifyChallenge? || phase.PollAuthorization? || phase.CleanupChallenge? || phase.RetireChallenge?
  }

  predicate Ordered(phase: Phase) {
    !phase.DiscoverDirectory? && !phase.AcquireNonce? && !phase.CreateAccount? && !phase.CreateOrder?
  }

  predicate Identified(m: Machine) {
    && Url.BoundedUrl(m.directoryUrl)
    && Identifiers.ValidRequest(m.dnsNames)
    && m.orderEpoch != 0
    && |m.authorizedNames| == m.authorizationIndex
  }

  /** Exactly the optional fields that the phase's row of the presence table lists. */
  predicate Present(m: Machine) {
    && m.directory.Some? == !m.phase.DiscoverDirectory?
    && m.nonce.Some? == !(m.phase.DiscoverDirectory? || m.phase.AcquireNonce?)
    && m.accountUrl.Some? == !(m.phase.DiscoverDirectory? || m.phase.AcquireNonce? || m.phase.CreateAccount?)
    && m.orderUrl.Some? == m.order.Some? == Ordered(m.phase)
    && m.authorization.Some? == m.challenge.Some? == HasChallengePhase(m.phase)
    && m.publicationDigest.Some? == HoldsDigest(m.phase)
    && m.certificate.Some? == m.phase.Complete?
  }

  predicate OptionalUrlSound(url: Option<Text>) { url.Some? ==> Url.BoundedUrl(url.value) }

  predicate RemoteSound(m: Machine) {
    && (m.directory.Some? ==> WireDirectory(m.directory.value))
    && (m.nonce.Some? ==> ValidNonce(m.nonce.value))
    && OptionalUrlSound(m.accountUrl)
    && OptionalUrlSound(m.orderUrl)
  }

  predicate OrderUrlsSound(o: Order) {
    Url.BoundedUrl(o.finalize) && OptionalUrlSound(o.certificate) && DistinctUrls(o.authorizations)
  }

  predicate OrderSound(m: Machine) {
    m.order.Some? ==>
      && m.order.value.dnsNames == m.dnsNames
      && |m.order.value.authorizations| == |m.dnsNames|
      && OrderUrlsSound(m.order.value)
  }

  predicate AuthorizationSound(m: Machine) {
    m.authorization.Some? ==>
      && ValidateCurrentAuthorization(m, m.authorization.value).Ok?
      && WireChallenges(m.authorization.value.challenges)
      && HasChallengePhase(m.phase)
      && m.authorization.value.status == (if m.phase.CleanupChallenge? then Valid else Pending)
  }

  predicate ChallengeSound(m: Machine) {
    m.challenge.Some? ==>
      && m.authorization.Some?
      && SelectChallenge(m.authorization.value, m.preference) == Ok(m.challenge.value)
  }

  predicate ResultsSound(m: Machine) {
    && (m.publicationDigest.Some? ==> !IsZero(m.publicationDigest.value))
    && (m.certificate.Some? ==> 1 <= |m.certificate.value| <= MAXIMUM_BODY_BYTES)
  }

  /** The order status each phase may be in; retiring an order itself never owes a cleanup. */
  predicate StatusFits(phase: Phase, order: Order) {
    match phase
    case FinalizeOrder => order.status == Ready
    case PollOrder => order.status == Pending || order.status == Processing
    case DownloadCertificate => order.status == Valid && order.certificate.Some?
    case Complete => order.status == Valid && order.certificate.Some?
    case RetireChallenge(reason) => reason != OrderRejected && order.status == Pending
    case Retired(reason) => order.status == if reason == OrderRejected then Invalid else Pending
    case _ => order.status == Pending
  }

  /** The authorized names are distinct and were all requested. */
  predicate NamesSound(authorized: seq<Text>, requested: seq<Text>) {
    NoDuplicates(authorized) && forall name :: name in authorized ==> name in requested
  }

  predicate ProgressSound(m: Machine) {
    && NamesSound(m.authorizedNames, m.dnsNames)
    && (m.order.None? ==> m.authorizationIndex == 0)
    && (m.order.Some? ==>
          && Ordered(m.phase)
          && m.authorizationIndex <= |m.order.value.authorizations|
          && StatusFits(m.phase, m.order.value)
          && (m.phase.FetchAuthorization? || HasChallengePhase(m.phase) ==>
                m.authorizationIndex < |m.order.value.authorizations|))
  }

  predicate ScheduleSound(m: Machine) {
    m.pollNotBefore.Some? ==>
      && m.pollNotBefore.value > 0
      && (m.phase.PollAuthorization? || m.phase.PollOrder? || m.phase.PublishChallenge? || Retiring(m.phase))
  }

  /** `validate_publication`, with the match against the authorized name factored out. */
  predicate PublicationShape(m: Machine) {
    match m.publication
    case Unprepared => !HasChallengePhase(m.phase) || m.phase.PublishChallenge?
    case Legacy(epoch) => epoch > 0 && HasChallengePhase(m.phase)
    case Retained(p) =>
      HasChallengePhase(m.phase) && m.challenge.Some? && P.MatchesIdentity(p, m.challenge.value)
  }

  predicate RetainedName(m: Machine) {
    m.publication.Retained? ==>
      m.authorization.Some? && m.publication.publication.identifier == NameOf(m.authorization.value)
  }

  predicate PublicationSound(m: Machine) {
    match m.publication
    case Unprepared => !HasChallengePhase(m.phase) || m.phase.PublishChallenge?
    case Legacy(epoch) => epoch > 0 && HasChallengePhase(m.phase)
    case Retained(p) => ValidatePublicationMaterial(m, p).Ok?
  }

  /** `validate_checkpoint`: what a state must satisfy to be encoded, and to be decoded again. */
  predicate Checkpointable(m: Machine) {
    && Identified(m) && Present(m)
    && RemoteSound(m) && OrderSound(m) && AuthorizationSound(m) && ChallengeSound(m) && ResultsSound(m)
    && ProgressSound(m) && ScheduleSound(m) && PublicationSound(m)
    && ActionFor(m).Ok?
  }

  /** The part of the invariant that does not depend on the polling deadline. */
  predicate Core(m: Machine) {
    && Identified(m) && Present(m)
    && RemoteSound(m) && OrderSound(m) && AuthorizationSound(m) && ChallengeSound(m) && ResultsSound(m)
    && ProgressSound(m) && PublicationShape(m)
  }

  /** The inductive invariant: a checkpoint, except that a retained name may have been left behind. */
  predicate Coherent(m: Machine) { Core(m) && ScheduleSound(m) }

  /** In a coherent state the next action is always defined; nothing it needs is missing. */
  lemma CoherentActs(m: Machine)
    requires Coherent(m)
    ensures ActionFor(m).Ok?
  {
    hide Identified, RemoteSound, OrderSound, AuthorizationSound, ChallengeSound, ResultsSound, PublicationShape,
         ScheduleSound, PublicationEpoch;
  }

  lemma CheckpointableIffCoherent(m: Machine)
    ensures Checkpointable(m) <==> Coherent(m) && RetainedName(m)
  {
    hide P.MatchesIdentity, Identified, RemoteSound, OrderSound, AuthorizationSound, ChallengeSound, ResultsSound,
         ScheduleSound;
    if Coherent(m) {
      CoherentActs(m);
    }
  }

  lemma NewCheckpointable(directoryUrl: Text, dnsNames: seq<Text>, preference: P.ChallengeKind, epoch: U64)
    requires New(directoryUrl, dnsNames, preference, epoch).Ok?
    requires Identifiers.ValidRequest(dnsNames)
    ensures Checkpointable(New(directoryUrl, dnsNames, preference, epoch).value)
  {}

  // ---------------------------------------------------------------- events as the executor produces them

  /** Resources come from the wire parsers; certificates are bounded response bodies. */
  predicate WireEvent(event: Event) {
    match event
    case DirectoryDiscovered(directory) => WireDirectory(directory)
    case OrderCreated(_, order, _) => WireOrder(order)
    case AuthorizationFetched(authorization, _) => WireAuthorization(authorization)
    case AuthorizationPolled(authorization, _) => WireAuthorization(authorization)
    case OrderFinalized(order, _) => WireOrder(order)
    case OrderPolled(order, _) => WireOrder(order)
    case CertificateDownloaded(certificate) => |certificate| <= MAXIMUM_BODY_BYTES
    case _ => true
  }

  /** The CA's answer contradicts what the machine already accepted. */
  predicate Contradicts(m: Machine, event: Event) {
    match event
    case OrderFinalized(order, _) => OrderChanged(m, order)
    case OrderPolled(order, _) => OrderChanged(m, order)
    case AuthorizationPolled(a, _) =>
      var selected := SelectChallenge(a, m.preference);
      selected.Ok? && m.challenge.Some? && !SameIdentity(selected.value, m.challenge.value)
    case _ => false
  }

  predicate OrderChanged(m: Machine, order: Order) {
    && m.order.Some?
    && (m.order.value.authorizations != order.authorizations || m.order.value.finalize != order.finalize)
  }

  /** A refused event changes nothing but possibly the nonce, and never blames the local state. */
  predicate CleanRefusal(m: Machine, event: Event, t: Transition) {
    t.result.Err? ==>
      && t.machine == m.(nonce := t.machine.nonce)
      && t.result.error != CorruptState
      && (t.result.error == InvalidRemoteState ==> Contradicts(m, event))
      && (t.machine.nonce != m.nonce ==>
            event.AuthorizationFetched? && t.machine.nonce == Some(event.replayNonce)
            && t.result.error == MachineError.UnsupportedChallenge)
  }

  predicate Keeps(m: Machine, event: Event, t: Transition) {
    Core(t.machine) && CleanRefusal(m, event, t)
  }

  // ---------------------------------------------------------------- orders

  /** A freshly accepted order in a state without a challenge selects a coherent next phase. */
  lemma OrderPhaseKeeps(m: Machine)
    requires Identified(m) && RemoteSound(m) && OrderSound(m) && NamesSound(m.authorizedNames, m.dnsNames)
    requires m.directory.Some? && m.nonce.Some? && m.accountUrl.Some? && m.orderUrl.Some? && m.order.Some?
    requires m.authorization.None? && m.challenge.None? && m.publicationDigest.None? && m.certificate.None?
    requires m.publication.Unprepared?
    requires WireOrder(m.order.value)
    ensures SelectOrderPhase(m).result.Ok? && Core(SelectOrderPhase(m).machine)
  {
    hide Url.BoundedUrl, Identifiers.ValidRequest, DistinctUrls;
    IndexBounded(m);
  }

  /** Pigeonhole: no more names are authorized than were requested. */
  lemma IndexBounded(m: Machine)
    requires Identified(m) && NamesSound(m.authorizedNames, m.dnsNames)
    ensures m.authorizationIndex <= |m.dnsNames|
    ensures m.authorizationIndex == |m.dnsNames| ==> Elements(m.authorizedNames) == Elements(m.dnsNames)
  {
    Identifiers.AscendingDistinct(m.dnsNames);
    ElementsSize(m.dnsNames);
    Pigeonhole(m.authorizedNames, Elements(m.dnsNames));
  }

  lemma OrderCreatedKeeps(m: Machine, event: Event)
    requires Core(m) && m.phase.CreateOrder? && event.OrderCreated? && WireEvent(event)
    ensures Keeps(m, event, React(m, event))
  {
    hide Url.BoundedUrl, Identifiers.ValidRequest, DistinctUrls, SelectOrderPhase;
    var next := m.(orderUrl := Some(event.orderUrl), nonce := Some(event.replayNonce), order := Some(event.order));
    if ValidateRemoteIdentity(event.orderUrl, event.replayNonce).Ok? && ValidateOrder(m, event.order).Ok? {
      OrderPhaseKeeps(next);
    }
  }

  lemma OrderUpdateKeeps(m: Machine, event: Event)
    requires Core(m) && Expected(m.phase, event) && (event.OrderPolled? || event.OrderFinalized?) && WireEvent(event)
    ensures Keeps(m, event, React(m, event))
  {
    hide Url.BoundedUrl, Identifiers.ValidRequest, DistinctUrls, SelectOrderPhase;
    if ValidNonce(event.replayNonce) && ValidateOrder(m, event.order).Ok? {
      OrderPhaseKeeps(m.(nonce := Some(event.replayNonce), order := Some(event.order)));
    }
  }

  // ---------------------------------------------------------------- authorizations

  /**
   * Counting an authorization never fails: the name is new and requested, and by pigeonhole the
   * last position is reached exactly when every requested name has been authorized.
   */
  lemma AuthorizationCounts(m: Machine)
    requires Core(ClearChallenge(m).(phase := FetchAuthorization))
    requires m.authorization.Some? && ValidateCurrentAuthorization(m, m.authorization.value).Ok?
    ensures AdvanceAuthorization(m).result.Ok?
    ensures Core(ClearChallenge(AdvanceAuthorization(m).machine))
    ensures AdvanceAuthorization(m).machine.phase.PollOrder? ==>
              Elements(AdvanceAuthorization(m).machine.authorizedNames) == Elements(m.dnsNames)
  {
    hide Url.BoundedUrl, Identifiers.ValidRequest, OrderUrlsSound;
    var next := AdvanceAuthorization(m).machine;
    assert NamesSound(next.authorizedNames, next.dnsNames);
    IndexBounded(next);
  }

  /** A challenge phase is a fetch phase with the selected challenge added. */
  lemma BackToFetch(m: Machine)
    requires Core(m) && HasChallengePhase(m.phase)
    ensures Core(ClearChallenge(m).(phase := FetchAuthorization))
  {
    hide Url.BoundedUrl, Identifiers.ValidRequest, OrderUrlsSound, NamesSound;
  }

  lemma FetchedKeeps(m: Machine, event: Event)
    requires Core(m) && m.phase.FetchAuthorization? && event.AuthorizationFetched? && WireEvent(event)
    ensures Keeps(m, event, React(m, event))
  {
    hide Url.BoundedUrl, Identifiers.ValidRequest, OrderUrlsSound, NamesSound, WireChallenges, SelectChallenge,
         AdvanceAuthorization;
    var a := event.authorization;
    if ValidNonce(event.replayNonce) && ValidateCurrentAuthorization(m, a).Ok? && a.status == Valid {
      var held := m.(nonce := Some(event.replayNonce), authorization := Some(a));
      AuthorizationCounts(held);
      AdvanceTouches(held);
    }
  }

  /** Counting an authorization leaves challenge, digest and publication alone. */
  lemma AdvanceTouches(m: Machine)
    requires AdvanceAuthorization(m).result.Ok?
    ensures var next := AdvanceAuthorization(m).machine;
            next == m.(authorization := None, phase := next.phase,
                       authorizationIndex := m.authorizationIndex + 1, authorizedNames := next.authorizedNames)
  {
    hide NameOf, SameFrame, SameOrder, KeepsOrClears;
  }

  /** Answers to a poll that leave the challenge current: still pending, or now valid. */
  lemma PolledCurrent(m: Machine, a: Authorization, nonce: Text, updated: Challenge, next: Phase)
    requires Core(m) && m.phase.PollAuthorization?
    requires ValidNonce(nonce) && ValidateCurrentAuthorization(m, a).Ok? && WireChallenges(a.challenges)
    requires SelectChallenge(a, m.preference) == Ok(updated) && SameIdentity(updated, m.challenge.value)
    requires (a.status == Pending && next == PollAuthorization) || (a.status == Valid && next == CleanupChallenge)
    ensures Core(m.(authorization := Some(a), challenge := Some(updated), nonce := Some(nonce), phase := next))
  {
    hide Url.BoundedUrl, Identifiers.ValidRequest, OrderUrlsSound, NamesSound, WireChallenges, SelectChallenge,
         P.MatchesIdentity;
    if m.publication.Retained? {
      SameIdentityMatches(m.publication.publication, m.challenge.value, updated);
    }
  }

  lemma PolledRejected(m: Machine, nonce: Text)
    requires Core(m) && m.phase.PollAuthorization? && ValidNonce(nonce)
    ensures Core(BeginRetirement(m.(nonce := Some(nonce)), AuthorizationRejected))
  {
    hide Url.BoundedUrl, Identifiers.ValidRequest, OrderUrlsSound, NamesSound, WireChallenges, SelectChallenge,
         P.MatchesIdentity;
  }

  lemma PolledKeeps(m: Machine, event: Event)
    requires Core(m) && m.phase.PollAuthorization? && event.AuthorizationPolled? && WireEvent(event)
    ensures Keeps(m, event, React(m, event))
  {
    hide Url.BoundedUrl, Identifiers.ValidRequest, SelectChallenge, WireChallenges, PublicationShape, ProgressSound,
         OrderSound, RemoteSound, Identified;
    var a, nonce := event.authorization, event.replayNonce;
    var updated := PolledChallenge(m, a);
    if ValidNonce(nonce) && ValidateCurrentAuthorization(m, a).Ok? && updated.Ok? {
      if a.status == Pending || a.status == Valid {
        PolledCurrent(m, a, nonce, updated.value, if a.status == Pending then PollAuthorization else CleanupChallenge);
      } else {
        PolledRejected(m, nonce);
      }
    }
  }

  lemma SameIdentityMatches(p: P.ChallengePublication, a: Challenge, b: Challenge)
    requires SameIdentity(a, b) && P.MatchesIdentity(p, a)
    ensures P.MatchesIdentity(p, b)
  {}

  lemma RetiredKeeps(m: Machine)
    requires Core(m) && m.phase.RetireChallenge?
    ensures Core(CompleteChallenge(m).machine)
  {
    hide Url.BoundedUrl, Identifiers.ValidRequest, OrderUrlsSound, NamesSound, AdvanceAuthorization;
  }

  lemma CleanedKeeps(m: Machine, event: Event)
    requires Core(m) && Expected(m.phase, event) && event.ChallengeCleaned?
    ensures Keeps(m, event, React(m, event)) && React(m, event).result.Ok?
  {
    hide Core, AdvanceAuthorization;
    if m.phase.CleanupChallenge? {
      BackToFetch(m);
      CleanupAuthorized(m);
      AuthorizationCounts(m);
    } else {
      RetiredKeeps(m);
    }
  }

  lemma CleanupAuthorized(m: Machine)
    requires Core(m) && m.phase.CleanupChallenge?
    ensures m.authorization.Some? && ValidateCurrentAuthorization(m, m.authorization.value).Ok?
  {}

  lemma SetupKeeps(m: Machine, event: Event)
    requires Core(m) && Expected(m.phase, event) && WireEvent(event)
    requires event.DirectoryDiscovered? || event.NonceAcquired? || event.AccountCreated?
    ensures Keeps(m, event, React(m, event))
  {
    hide Url.BoundedUrl, Identifiers.ValidRequest, OrderUrlsSound, NamesSound, WireChallenges, SelectChallenge,
         P.MatchesIdentity;
  }

  lemma EffectsKeep(m: Machine, event: Event)
    requires Core(m) && Expected(m.phase, event) && WireEvent(event)
    requires event.ChallengePublished? || event.ChallengeNotified? || event.CertificateDownloaded?
    ensures Keeps(m, event, React(m, event))
  {
    hide Url.BoundedUrl, Identifiers.ValidRequest, OrderUrlsSound, NamesSound, WireChallenges, SelectChallenge,
         P.MatchesIdentity;
  }

  lemma ReactKeeps(m: Machine, event: Event)
    requires Core(m) && WireEvent(event)
    ensures Keeps(m, event, React(m, event))
  {
    hide Core, WireEvent, React, CleanRefusal;
    if !Expected(m.phase, event) {
      OutOfOrder(m, event);
    } else {
      match event
      case OrderCreated(_, _, _) => OrderCreatedKeeps(m, event);
      case AuthorizationFetched(_, _) => FetchedKeeps(m, event);
      case AuthorizationPolled(_, _) => PolledKeeps(m, event);
      case ChallengeCleaned => CleanedKeeps(m, event);
      case OrderFinalized(_, _) => OrderUpdateKeeps(m, event);
      case OrderPolled(_, _) => OrderUpdateKeeps(m, event);
      case ChallengePublished(_) => EffectsKeep(m, event);
      case ChallengeNotified(_) => EffectsKeep(m, event);
      case CertificateDownloaded(_) => EffectsKeep(m, event);
      case _ => SetupKeeps(m, event);
    }
  }

  lemma OutOfOrder(m: Machine, event: Event)
    requires !Expected(m.phase, event)
    ensures React(m, event) == Reject(m, InvalidTransition) && CleanRefusal(m, event, React(m, event))
  {}

  // ---------------------------------------------------------------- the invariant theorem

  /**
   * Every event from the wire keeps the machine coherent whether or not it is accepted; a refusal
   * changes at most the nonce, and never reports corrupt local state. Remote-state errors mean the
   * CA contradicted itself: the status fallthroughs are unreachable for parsed resources.
   */
  lemma AdvanceKeepsCoherent(m: Machine, event: Event)
    requires Coherent(m) && WireEvent(event)
    ensures Coherent(Advance(m, event).machine)
    ensures CleanRefusal(m, event, Advance(m, event))
  {
    hide WireEvent, Core, React, Contradicts;
    ReactKeeps(m, event);
    CoreIgnoresSchedule(React(m, event).machine, None);
  }

  lemma CoreIgnoresSchedule(m: Machine, at: Option<I64>)
    requires Core(m)
    ensures Core(m.(pollNotBefore := at))
  {
    hide Url.BoundedUrl, Identifiers.ValidRequest, OrderUrlsSound, WireChallenges, SelectChallenge;
  }

  // ---------------------------------------------------------------- the remaining operations

  lemma RetryKeepsCoherent(m: Machine, event: Event, receivedAt: I64, retry: Option<RetryAfter>)
    requires Coherent(m) && WireEvent(event)
    ensures Coherent(AdvanceWithRetry(m, event, receivedAt, retry).machine)
    ensures CleanRefusal(m, event, AdvanceWithRetry(m, event, receivedAt, retry))
  {
    hide Core, Advance, WireEvent, Contradicts;
    var t := AdvanceWithRetry(m, event, receivedAt, retry);
    AdvanceKeepsCoherent(m, event);
    CoreIgnoresSchedule(Advance(m, event).machine, t.machine.pollNotBefore);
  }

  lemma ResumeKeepsCoherent(m: Machine, epoch: U64)
    requires Coherent(m)
    ensures Coherent(ResumeUnderFence(m, epoch).machine)
    ensures ResumeUnderFence(m, epoch).result.Ok? <==> epoch != 0 && !m.phase.Complete?
  {
    hide Url.BoundedUrl, Identifiers.ValidRequest, OrderUrlsSound, NamesSound, WireChallenges, SelectChallenge,
         P.MatchesIdentity, ActionFor;
    if epoch != 0 {
      CoherentActs(m.(orderEpoch := epoch));
    }
  }

  lemma RetainKeepsCoherent(m: Machine, p: P.ChallengePublication)
    requires Coherent(m)
    ensures Coherent(RetainPublication(m, p).machine)
    ensures RetainPublication(m, p).result.Ok? ==> RetainedName(RetainPublication(m, p).machine)
  {
    hide Url.BoundedUrl, Identifiers.ValidRequest, OrderUrlsSound, NamesSound, WireChallenges, SelectChallenge,
         P.MatchesIdentity;
  }

  lemma ExpireKeepsCoherent(m: Machine, now: I64, digest: Digest)
    requires Coherent(m)
    ensures Coherent(ExpirePublication(m, now, digest).0)
    ensures RetainedName(m) ==> RetainedName(ExpirePublication(m, now, digest).0)
  {
    hide Url.BoundedUrl, Identifiers.ValidRequest, OrderUrlsSound, NamesSound, WireChallenges, SelectChallenge,
         P.MatchesIdentity;
  }

  // ---------------------------------------------------------------- when a checkpoint stays a checkpoint

  /**
   * A poll answer that keeps challenge kind, URL and token but names another requested domain,
   * while publication material for the first one is retained.
   */
  predicate RenamingPoll(m: Machine, event: Event) {
    && m.phase.PollAuthorization? && event.AuthorizationPolled?
    && (event.authorization.status == Pending || event.authorization.status == Valid)
    && m.publication.Retained? && m.authorization.Some?
    && NameOf(event.authorization) != NameOf(m.authorization.value)
  }

  /** Only a poll replaces the authorization of a retained publication. */
  lemma OthersKeepName(m: Machine, event: Event)
    requires Core(m) && RetainedName(m) && React(m, event).result.Ok? && !event.AuthorizationPolled?
    ensures RetainedName(React(m, event).machine)
  {
    hide Identified, RemoteSound, OrderSound, ChallengeSound, ResultsSound, ProgressSound, AuthorizationSound,
         P.MatchesIdentity, AcceptOrder, AcceptOrderUpdate, AcceptAuthorization, AdvanceAuthorization;
  }

  lemma PollKeepsNameIff(m: Machine, event: Event)
    requires Core(m) && RetainedName(m) && React(m, event).result.Ok? && event.AuthorizationPolled?
    ensures RetainedName(React(m, event).machine) <==> !RenamingPoll(m, event)
  {
    hide Identified, RemoteSound, OrderSound, ChallengeSound, ResultsSound, ProgressSound, AuthorizationSound,
         SelectChallenge, P.MatchesIdentity;
  }

  /**
   * An accepted event leads from one checkpoint to another exactly when it is not a renaming poll.
   * The poll check compares kind, URL and token only, so such an answer is accepted, and the state
   * it leaves can no longer be encoded.
   */
  lemma CheckpointKeptIff(m: Machine, event: Event)
    requires Checkpointable(m) && WireEvent(event)
    requires Advance(m, event).result.Ok?
    ensures Checkpointable(Advance(m, event).machine) <==> !RenamingPoll(m, event)
  {
    hide Coherent, WireEvent, React, RenamingPoll, Checkpointable;
    CheckpointableIffCoherent(m);
    AdvanceKeepsCoherent(m, event);
    CheckpointableIffCoherent(Advance(m, event).machine);
    CoherentCore(m);
    if event.AuthorizationPolled? {
      PollKeepsNameIff(m, event);
    } else {
      OthersKeepName(m, event);
      NotAPoll(m, event);
    }
  }

  lemma NotAPoll(m: Machine, event: Event)
    requires !event.AuthorizationPolled?
    ensures !RenamingPoll(m, event)
  {}

  lemma CoherentCore(m: Machine)
    requires Coherent(m)
    ensures Core(m)
  {}

  /**
   * Whenever a second requested name is still open, the CA can send a renaming poll: the machine
   * accepts it, and the state it leaves is refused by the checkpoint encoder.
   */
  lemma RenamingPollBreaksCheckpoint(m: Machine, other: Text, nonce: Text)
    requires Checkpointable(m) && m.phase.PollAuthorization? && m.publication.Retained? && ValidNonce(nonce)
    requires other in m.dnsNames && other !in m.authorizedNames && !Identifiers.IsWildcard(other)
    requires other != NameOf(m.authorization.value)
    ensures var event := AuthorizationPolled(m.authorization.value.(dnsName := other, wildcard := false), nonce);
            && WireEvent(event)
            && Advance(m, event).result.Ok?
            && !Checkpointable(Advance(m, event).machine)
  {
    hide Url.BoundedUrl, OrderUrlsSound, NamesSound, WireChallenges, FirstOfKind, P.MatchesIdentity, ScheduleSound,
         ProgressSound;
    var a := m.authorization.value.(dnsName := other, wildcard := false);
    assert SelectChallenge(a, m.preference) == SelectChallenge(m.authorization.value, m.preference);
    CheckpointKeptIff(m, AuthorizationPolled(a, nonce));
  }
}
