/**
 * A certificate can be had: from every reachable state of an HTTP-01 order that is not being retired,
 * undisturbed steps lead to an issued order, each open name being validated while it is served.
 */
module OrderSuccess {
  import opened Basics
  import opened Wire
  import opened OrderMachine
  import opened Checkpoint
  import opened OrderRuns
  import opened OrderProgress
  import opened OrderSystem
  import opened SystemProgress
  import opened OrderHandover
  import CP = ChallengePayload
  import C = OrderCluster
  import Identifiers
  import P = Publication
  import H = Http01
  import Url

  /** What the CA answers with for each name, challenges of its own included. */
  ghost predicate Generous(env: Env, supply: Text -> Supplies, names: seq<Text>) {
    forall name :: name in names ==> Willing(env, supply(name), names) && Offers(env, supply(name))
  }

  predicate AwaitsCa(m: Machine) { m.phase.NotifyChallenge? || m.phase.PollAuthorization? }

  /** Not retired, due, publications that last until `end`, and room for the current challenge. */
  predicate OnTrack(env: Env, w: World, t: I64, end: I64) {
    var m := w.local;
    && m.preference == P.Http01 && Due(m, t) && NoWildcards(m.dnsNames)
    && !Retiring(m.phase) && !m.phase.Complete?
    && (m.challenge.Some? ==> m.challenge.value.token !in env.left)
    && (m.publication.Retained? ==> end <= m.publication.publication.expiresAt)
    && (AwaitsPreparation(m) ==> Preparable(env, m))
    && Free(m, w.records)
    && (AwaitsCa(m) && w.visible ==> m.challenge.Some? && m.challenge.value.token in w.records)
  }

  /** A free slot in the catalogue, or the challenge's own record in it. */
  predicate Free(m: Machine, records: H.Catalogue) {
    || |records| < H.MAXIMUM_ACTIVE_CHALLENGES
    || (m.challenge.Some? && m.challenge.value.token in records)
  }

  /** Steps that are left, with one to restore a lost publication. */
  function Toward(w: World): nat {
    var m := w.local;
    var n := |m.dnsNames|;
    var left := if m.authorizationIndex <= n then n - m.authorizationIndex else 0;
    match m.phase
    case DiscoverDirectory => 8 * n + 14
    case AcquireNonce => 8 * n + 13
    case CreateAccount => 8 * n + 12
    case CreateOrder => 8 * n + 11
    case FetchAuthorization => 8 * left + 10
    case PublishChallenge => 8 * left + if m.publication.Retained? then 8 else 9
    case NotifyChallenge => 8 * left + if w.visible then 6 else 7
    case PollAuthorization => 8 * left + if w.visible then 4 else 5
    case CleanupChallenge => 8 * left + 3
    case PollOrder => 2
    case FinalizeOrder => 1
    case _ => 0
  }

  /** The step leads closer to the certificate. */
  predicate Forward(env: Env, w: World, next: World, t: I64, end: I64)
    requires t < I64_MAX
  {
    && Toward(next) < Toward(w) && OnTrack(env, next, t + 1, end) && next.local.dnsNames == w.local.dnsNames
    && (next.local.phase.DownloadCertificate? ==> next.durable.phase.DownloadCertificate?)
  }

  /** The CA calls a name valid only when it finds the key authorization served. */
  predicate Earned(env: Env, w: World, turn: Turn) {
    turn.reply.Some? ==>
      match turn.reply.value
      case AuthorizationFetched(a, _) => a.status == Pending
      case AuthorizationPolled(a, _) =>
        a.status == Valid ==>
          && w.local.challenge.Some?
          && var token := w.local.challenge.value.token;
             H.Response(w.records, token, turn.now) == Some(KeyAuthorization(env, token))
      case _ => true
  }

  // ---------------------------------------------------------------- before and after the challenges

  /** Without a wildcard the name of an HTTP-01 authorization is a requested one, so the parser admits it. */
  lemma HttpNamed(m: Machine)
    requires Core(m) && m.preference == P.Http01 && NoWildcards(m.dnsNames)
    ensures Named(m)
  {
    hide RemoteSound, OrderSound, ResultsSound, ProgressSound, PublicationShape, WireChallenges, FirstOfKind,
         Identifiers.ValidDnsName;
    if m.authorization.Some? {
      HttpChallenge(m);
      var name := NameOf(m.authorization.value);
      assert name in m.dnsNames && Identifiers.ValidDnsName(name);
    }
  }

  lemma SetupForward(env: Env, w: World, supply: Text -> Supplies, t: I64, end: I64) returns (turn: Turn)
    requires Safe(env, w) && Generous(env, supply, w.local.dnsNames) && OnTrack(env, w, t, end)
    requires 0 <= t < I64_MAX - 1 && !Ordered(w.local.phase)
    ensures OrderSystem.Allowed(env, turn) && Forward(env, w, Work(env, w, turn), t, end) && Earned(env, w, turn)
  {
    hide Safe, Work, Willing, Offers, React, Core, Sound, Coherent, WireEvent, AdvanceWithRetry, OwnTokens, Preparable,
         NoWildcards;
    var m := w.local;
    SafeParts(env, w);
    SoundCoherent(env, m);
    FirstName(m);
    SufficientOf(env, supply(m.dnsNames[0]), m.dnsNames);
    var event := SetupLeads(env, m, supply(m.dnsNames[0]));
    turn := Undisturbed(env, t, t + 1, Some(event));
    AnswerSettles(env, w, event, t);
    SetupMoves(m, event);
  }

  lemma FirstName(m: Machine)
    requires Core(m)
    ensures |m.dnsNames| >= 1 && m.dnsNames[0] in m.dnsNames
  {
    hide Present, RemoteSound, OrderSound, AuthorizationSound, ChallengeSound, ResultsSound, ProgressSound,
         PublicationShape;
  }

  /** Before the order exists no name counts and no challenge is held. */
  lemma SetupMoves(m: Machine, event: Event)
    requires Core(m) && !Ordered(m.phase) && React(m, event).result.Ok? && WireEvent(event)
    requires ServeSteps(React(m, event).machine) < ServeSteps(m)
    ensures var n := React(m, event).machine;
            && n.authorizationIndex == 0 && n.preference == m.preference && n.dnsNames == m.dnsNames
            && !HasChallengePhase(n.phase) && n.challenge.None? && m.challenge.None?
            && !event.AuthorizationFetched? && !event.AuthorizationPolled?
  {
    hide Core, React, WireEvent, Contradicts;
    ReactMoves(m, event);
    ReactKeeps(m, event);
    CorePresent(React(m, event).machine);
    CorePresent(m);
    NothingCounted(m);
  }

  lemma NothingCounted(m: Machine)
    requires Core(m) && !Ordered(m.phase)
    ensures m.authorizationIndex == 0
  {
    hide Identified, RemoteSound, OrderSound, AuthorizationSound, ChallengeSound, ResultsSound, PublicationShape;
  }

  lemma FetchForward(env: Env, w: World, supply: Text -> Supplies, t: I64, end: I64) returns (turn: Turn)
    requires Safe(env, w) && Generous(env, supply, w.local.dnsNames) && OnTrack(env, w, t, end)
    requires 0 <= t < I64_MAX - 1 && w.local.phase.FetchAuthorization?
    ensures OrderSystem.Allowed(env, turn) && Forward(env, w, Work(env, w, turn), t, end) && Earned(env, w, turn)
  {
    hide Safe, Work, Willing, Offers, React, Core, Sound, Coherent, WireEvent, AdvanceWithRetry, OwnTokens, Preparable,
         NoWildcards, Identifiers.ValidDnsName;
    var m := w.local;
    SafeParts(env, w);
    SoundCoherent(env, m);
    var name := NextName(m);
    var event := FetchLeads(env, m, supply(name), name);
    turn := Undisturbed(env, t, t + 1, Some(event));
    AnswerSettles(env, w, event, t);
    PreparableKept(env, React(m, event).machine, Work(env, w, turn).local);
    FetchMoves(m, event);
  }

  lemma FetchMoves(m: Machine, event: Event)
    requires Core(m) && m.phase.FetchAuthorization? && React(m, event).result.Ok? && event.AuthorizationFetched?
    requires React(m, event).machine.phase.PublishChallenge?
    ensures var n := React(m, event).machine;
            && n.authorizationIndex == m.authorizationIndex && n.preference == m.preference && n.dnsNames == m.dnsNames
            && m.challenge.None?
  {
    hide Core, React;
    ReactMoves(m, event);
    CorePresent(m);
  }

  /** The answers that turn a finished set of names into an issued certificate. */
  lemma OrderAnswer(env: Env, m: Machine, nonce: Text) returns (event: Event)
    requires Core(m) && ValidNonce(nonce) && (m.phase.PollOrder? || m.phase.FinalizeOrder?)
    ensures RemoteReply(env, event) && React(m, event).result.Ok? && (event.OrderPolled? || event.OrderFinalized?)
    ensures var n := React(m, event).machine;
            && (m.phase.PollOrder? ==> n.phase.FinalizeOrder? || n.phase.DownloadCertificate?)
            && (m.phase.FinalizeOrder? ==> n.phase.DownloadCertificate?)
            && n.preference == m.preference && n.dnsNames == m.dnsNames
  {
    hide Url.BoundedUrl, Identifiers.ValidRequest, DistinctUrls, NamesSound, RemoteSound, AcceptAuthorization,
         CompleteChallenge, SameFrame, SameOrder, KeepsOrClears;
    var order := m.order.value;
    var issued := order.(status := Valid, certificate := Some(order.finalize));
    if m.phase.FinalizeOrder? {
      event := OrderFinalized(issued, nonce);
    } else if order.status == Processing {
      event := OrderPolled(issued, nonce);
    } else {
      event := OrderPolled(order.(status := Ready), nonce);
    }
  }

  lemma SomeNonce(env: Env, supply: Text -> Supplies, m: Machine) returns (nonce: Text)
    requires Core(m) && Generous(env, supply, m.dnsNames)
    ensures ValidNonce(nonce)
  {
    hide Core, Willing, Offers, ValidNonce;
    FirstName(m);
    nonce := supply(m.dnsNames[0]).nonce;
    WillingNonce(env, supply(m.dnsNames[0]), m.dnsNames);
  }

  lemma OrderForward(env: Env, w: World, supply: Text -> Supplies, t: I64, end: I64) returns (turn: Turn)
    requires Safe(env, w) && Generous(env, supply, w.local.dnsNames) && OnTrack(env, w, t, end)
    requires 0 <= t < I64_MAX - 1 && (w.local.phase.PollOrder? || w.local.phase.FinalizeOrder?)
    ensures OrderSystem.Allowed(env, turn) && Forward(env, w, Work(env, w, turn), t, end) && Earned(env, w, turn)
  {
    hide Safe, Work, Willing, Offers, React, Core, Sound, Coherent, WireEvent, AdvanceWithRetry, OwnTokens, Preparable,
         NoWildcards, ValidNonce, Covers, H.WellFormed, Generous, Expected;
    var m := w.local;
    SafeParts(env, w);
    SoundCoherent(env, m);
    var nonce := SomeNonce(env, supply, m);
    var event := OrderAnswer(env, m, nonce);
    turn := Undisturbed(env, t, t + 1, Some(event));
    AnswerSettles(env, w, event, t);
    EndsUnchallenged(m, event);
    assert m.challenge.None? by { Unchallenged(m); }
  }

  lemma Unchallenged(m: Machine)
    requires Core(m) && !HasChallengePhase(m.phase)
    ensures m.challenge.None?
  {
    hide Core;
    CorePresent(m);
  }

  // ---------------------------------------------------------------- one challenge

  lemma PrepareForward(env: Env, w: World, t: I64, end: I64) returns (turn: Turn)
    requires Safe(env, w) && OnTrack(env, w, t, end) && 0 <= t < I64_MAX - 1 && t < end
    requires w.local.phase.PublishChallenge? && !w.local.publication.Retained?
    ensures OrderSystem.Allowed(env, turn) && Forward(env, w, Work(env, w, turn), t, end) && Earned(env, w, turn)
  {
    hide Safe, Work, Sound, Preparable, Prepared, NoWildcards;
    var m := w.local;
    SafeParts(env, w);
    UnpreparedWaits(env, m);
    turn := Undisturbed(env, t, end, None);
    PreparesIff(env, w, t, end);
    HasMaterial(env, m);
    PreparedExpiry(env, m, end);
  }

  lemma HasMaterial(env: Env, m: Machine)
    requires Preparable(env, m)
    ensures m.authorization.Some? && m.challenge.Some?
  {
    hide CP.ValidToken, CP.ValidValue, P.ValidIdentifier;
  }

  lemma ServeForward(env: Env, w: World, supply: Text -> Supplies, t: I64, end: I64) returns (turn: Turn)
    requires Safe(env, w) && Generous(env, supply, w.local.dnsNames) && OnTrack(env, w, t, end)
    requires 0 <= t < I64_MAX - 1 && t + 1 < end
    requires w.local.phase.PublishChallenge? && w.local.publication.Retained?
    ensures OrderSystem.Allowed(env, turn) && Forward(env, w, Work(env, w, turn), t, end) && Earned(env, w, turn)
  {
    hide Safe, Work, Sound, Checkpointable, Coherent, Genuine, H.RecordFor, H.Cleanable, H.Response, NoWildcards,
         Preparable, Willing, Offers, Core;
    var m := w.local;
    turn := Undisturbed(env, t, t + 1, None);
    SafeParts(env, w);
    RetainedHttp(env, m);
    HashNeverZero(env, supply, m);
    NonzeroReceipt(env, m);
    StepServes(env, w, t, t);
    ServedIsThere(Work(env, w, turn).records, m.challenge.value.token, t);
  }

  lemma HashNeverZero(env: Env, supply: Text -> Supplies, m: Machine)
    requires Generous(env, supply, m.dnsNames) && Coherent(m)
    ensures forall text: Text :: !IsZero(env.sha(text))
  {
    hide Willing, Offers, Core, IsZero;
    FirstName(m);
    WillingHash(env, supply(m.dnsNames[0]), m.dnsNames);
  }

  lemma ServedIsThere(records: H.Catalogue, token: Text, now: I64)
    requires H.Response(records, token, now).Some?
    ensures token in records
  {}

  /** A publication that this stay has not seen yet is put back and found visible. */
  lemma RestoreForward(env: Env, w: World, supply: Text -> Supplies, t: I64, end: I64) returns (turn: Turn)
    requires Safe(env, w) && Generous(env, supply, w.local.dnsNames) && OnTrack(env, w, t, end)
    requires 0 <= t < I64_MAX - 1 && t + 1 < end && AwaitsCa(w.local) && !w.visible
    ensures OrderSystem.Allowed(env, turn) && Forward(env, w, Work(env, w, turn), t, end) && Earned(env, w, turn)
  {
    hide Safe, Work, Sound, Checkpointable, Coherent, Genuine, H.RecordFor, H.Cleanable, NoWildcards, Preparable,
         Willing, Offers, Core, PublishCall;
    var m := w.local;
    turn := Undisturbed(env, t, t + 1, None);
    SafeParts(env, w);
    SoundCoherent(env, m);
    AwaitingHolds(env, m);
    RetainedHttp(env, m);
    CallPublishes(env, w, t);
    RestoreIsCurrent(env, w, t);
  }

  lemma AwaitingHolds(env: Env, m: Machine)
    requires Sound(env, m) && AwaitsCa(m)
    ensures m.publication.Retained? && m.publicationDigest.Some? && m.challenge.Some?
  {
    hide Checkpointable, Coherent, Core, Genuine, H.RecordFor;
    SoundCoherent(env, m);
    DigestHeld(m);
  }

  lemma DigestHeld(m: Machine)
    requires Core(m) && AwaitsCa(m)
    ensures m.publicationDigest.Some? && !IsZero(m.publicationDigest.value)
  {
    hide Identified, RemoteSound, OrderSound, AuthorizationSound, ChallengeSound, ProgressSound, PublicationShape,
         IsZero;
  }

  lemma RestoreIsCurrent(env: Env, w: World, t: I64)
    requires Safe(env, w) && AwaitsCa(w.local) && !w.visible && w.local.preference == P.Http01
    requires w.local.publication.Retained? && 0 <= t < I64_MAX && t < w.local.publication.publication.expiresAt
    requires H.Cleanable(Base(env, w.local.publication.publication))
    requires PublishCall(env, w, Undisturbed(env, t, t + 1, None)).1
          == Some(H.RecordFor(env.sha, Base(env, w.local.publication.publication)).receipt)
    ensures var turn := Undisturbed(env, t, t + 1, None);
            Work(env, w, turn) == w.(records := PublishCall(env, w, turn).0, visible := true)
  {
    hide Checkpointable, Coherent, Covers, H.WellFormed, H.RecordFor, H.Cleanable, Genuine, PublishCall, Core;
    var m, p, turn := w.local, w.local.publication.publication, Undisturbed(env, t, t + 1, None);
    RetainedHttp(env, m);
    SoundCoherent(env, m);
    DigestHeld(m);
    RebuildGenuine(env, p, m.challenge.value, turn.context);
    RecordIgnoresContext(env, p, turn.context);
    ReceiptParts(env, p);
    assert ExpectedDigest(env, p, turn.context) == m.publicationDigest;
  }

  lemma NotifyForward(env: Env, w: World, supply: Text -> Supplies, t: I64, end: I64) returns (turn: Turn)
    requires Safe(env, w) && Generous(env, supply, w.local.dnsNames) && OnTrack(env, w, t, end)
    requires 0 <= t < I64_MAX - 1 && t + 1 < end && w.local.phase.NotifyChallenge? && w.visible
    ensures OrderSystem.Allowed(env, turn) && Forward(env, w, Work(env, w, turn), t, end) && Earned(env, w, turn)
  {
    hide Safe, Work, Advance, Core, Coherent, Checkpointable, RenamingPoll, Sound, WireEvent, Willing, Offers,
         Preparable, NoWildcards, ValidNonce;
    var m := w.local;
    SafeParts(env, w);
    SoundCoherent(env, m);
    AwaitingHolds(env, m);
    var nonce := SomeNonce(env, supply, m);
    NotifiedAdvances(m, nonce);
    turn := Undisturbed(env, t, t + 1, Some(ChallengeNotified(nonce)));
    VisibleAnswerSettles(env, w, ChallengeNotified(nonce), t, turn);
  }

  lemma PollForward(env: Env, w: World, supply: Text -> Supplies, t: I64, end: I64) returns (turn: Turn)
    requires Safe(env, w) && Generous(env, supply, w.local.dnsNames) && OnTrack(env, w, t, end)
    requires 0 <= t < I64_MAX - 1 && t + 1 < end && w.local.phase.PollAuthorization? && w.visible
    ensures OrderSystem.Allowed(env, turn) && Forward(env, w, Work(env, w, turn), t, end) && Earned(env, w, turn)
  {
    hide Safe, Work, Advance, Core, Coherent, Checkpointable, RenamingPoll, Sound, WireEvent, Willing, Offers,
         Preparable, NoWildcards, ValidNonce, Named, H.Response, Genuine, H.RecordFor, H.Cleanable;
    var m := w.local;
    SafeParts(env, w);
    SoundCoherent(env, m);
    AwaitingHolds(env, m);
    HttpNamed(m);
    var nonce := SomeNonce(env, supply, m);
    ValidatedAdvances(m, nonce);
    var event := AuthorizationPolled(Validated(m), nonce);
    RetainedHttp(env, m);
    turn := Undisturbed(env, t, t + 1, Some(event));
    VisibleAnswerSettles(env, w, event, t, turn);
    CoveredRecord(env, w);
    RecordServes(env, m.publication.publication, m.challenge.value, w.records, m.challenge.value.token, t);
  }

  lemma CleanForward(env: Env, w: World, t: I64, end: I64) returns (turn: Turn)
    requires Safe(env, w) && OnTrack(env, w, t, end) && 0 <= t < I64_MAX - 1 && w.local.phase.CleanupChallenge?
    ensures OrderSystem.Allowed(env, turn) && Forward(env, w, Work(env, w, turn), t, end) && Earned(env, w, turn)
  {
    hide Safe, Work, Sound, Genuine, Coherent, Checkpointable, Occupied, React, Core, Covers, AdvanceWithRetry,
         H.WellFormed, WorkerRequest, H.Cleanup, Preparable, NoWildcards;
    var m := w.local;
    turn := Undisturbed(env, t, t + 1, None);
    SafeParts(env, w);
    SoundCoherent(env, m);
    CleanupSucceedsIff(env, w, turn);
    RetainedHttp(env, m);
    if Occupied(env, w) {
      OccupiedByLeftovers(env, w);
      assert false;
    }
    CleanupStuckIff(env, w, turn);
    CleanedShape(m, t);
    CleanedMoves(m, t);
    CleanupFrees(env, w, turn);
  }

  lemma CleanedMoves(m: Machine, t: I64)
    requires Core(m) && m.phase.CleanupChallenge? && React(m, ChallengeCleaned).result.Ok? && t >= 0
    ensures var n := AdvanceWithRetry(m, ChallengeCleaned, t, None).machine;
            && (n.phase.FetchAuthorization? || n.phase.PollOrder?)
            && n.authorizationIndex == m.authorizationIndex + 1 <= |m.dnsNames|
  {
    hide React, Identified, RemoteSound, AuthorizationSound, ChallengeSound, ResultsSound, PublicationShape,
         NamesSound, OrderUrlsSound;
    ReactMoves(m, ChallengeCleaned);
  }

  /** The record is gone, so a slot is free. */
  lemma CleanupFrees(env: Env, w: World, turn: Turn)
    requires Safe(env, w) && Healthy(env, turn) && w.local.phase.CleanupChallenge?
    requires Free(w.local, w.records) && w.local.challenge.Some?
    requires w.local.challenge.value.token !in Work(env, w, turn).records
    ensures |Work(env, w, turn).records| < H.MAXIMUM_ACTIVE_CHALLENGES
  {
    hide Work, Safe, Sound, Covers, WorkerRequest, AdvanceWithRetry, Checkpointable, H.TokenOf, H.RecordFor,
         CP.DecodeHttp, P.ValidateCleanupRequest;
    SafeParts(env, w);
    CleanupIsCurrent(env, w, turn);
    var next := Work(env, w, turn);
    assert next.records == CleanupCall(env, w, turn).0;
  }

  // ---------------------------------------------------------------- the run

  lemma StepForward(env: Env, w: World, supply: Text -> Supplies, t: I64, end: I64) returns (turn: Turn)
    requires Safe(env, w) && Generous(env, supply, w.local.dnsNames) && OnTrack(env, w, t, end)
    requires 0 <= t < I64_MAX - 1 && t + 1 < end && !w.local.phase.DownloadCertificate?
    ensures OrderSystem.Allowed(env, turn) && Forward(env, w, Work(env, w, turn), t, end) && Earned(env, w, turn)
  {
    hide Safe, Generous, Forward, Earned, Work, OrderSystem.Allowed, Preparable, NoWildcards, Free, Due;
    var m := w.local;
    if !Ordered(m.phase) {
      turn := SetupForward(env, w, supply, t, end);
    } else if m.phase.FetchAuthorization? {
      turn := FetchForward(env, w, supply, t, end);
    } else if m.phase.PublishChallenge? {
      if m.publication.Retained? {
        turn := ServeForward(env, w, supply, t, end);
      } else {
        turn := PrepareForward(env, w, t, end);
      }
    } else if AwaitsCa(m) && !w.visible {
      turn := RestoreForward(env, w, supply, t, end);
    } else if m.phase.NotifyChallenge? {
      turn := NotifyForward(env, w, supply, t, end);
    } else if m.phase.PollAuthorization? {
      turn := PollForward(env, w, supply, t, end);
    } else if m.phase.CleanupChallenge? {
      turn := CleanForward(env, w, t, end);
    } else {
      turn := OrderForward(env, w, supply, t, end);
    }
  }

  /** Every name that is called valid during the run was being served at that time. */
  predicate EarnedRun(env: Env, c: C.Cluster, moves: seq<C.Move>) {
    forall i :: 0 <= i < |moves| && moves[i].WorkMove? ==>
                  var at := C.Reach(env, c, moves[..i]);
                  Earned(C.Stay(env, at), C.Here(at), moves[i].turn)
  }

  lemma EarnedAppends(env: Env, c: C.Cluster, move: C.Move, rest: seq<C.Move>)
    requires move.WorkMove? ==> Earned(C.Stay(env, c), C.Here(c), move.turn)
    requires EarnedRun(env, C.Next(env, c, move), rest)
    ensures EarnedRun(env, c, [move] + rest)
  {
    hide C.Reach, C.Next, Earned;
    var run := [move] + rest;
    forall i | 0 <= i < |run| && run[i].WorkMove?
      ensures var at := C.Reach(env, c, run[..i]); Earned(C.Stay(env, at), C.Here(at), run[i].turn)
    {
      C.SingleMove(env, c, move);
      if i == 0 {
        NoMoves(env, c);
      } else {
        C.ReachAppends(env, c, [move], rest[..i - 1]);
        assert run[..i] == [move] + rest[..i - 1];
      }
    }
  }

  lemma NoMoves(env: Env, c: C.Cluster)
    ensures C.Reach(env, c, []) == c
  {}

  lemma {:induction false} CertificateReached(env: Env, c: C.Cluster, supply: Text -> Supplies, t: I64, end: I64)
    returns (moves: seq<C.Move>)
    requires C.SafeCluster(env, c) && Generous(C.Stay(env, c), supply, c.local.dnsNames)
    requires OnTrack(C.Stay(env, c), C.Here(c), t, end) && 0 <= t && t + Toward(C.Here(c)) + 2 < end
    requires c.local.phase.DownloadCertificate? ==> c.durable.phase.DownloadCertificate?
    ensures C.PossibleRun(env, c, moves) && OnlyWork(moves) && EarnedRun(env, c, moves)
    ensures var after := C.Reach(env, c, moves);
            && C.SafeCluster(env, after) && after.durable.phase.DownloadCertificate?
            && after.home == c.home && after.found == c.found
    decreases Toward(C.Here(c))
  {
    hide Safe, Generous, OnTrack, Work, OrderSystem.Allowed, H.WellFormed, Toward, Earned;
    moves := [];
    if !c.local.phase.DownloadCertificate? {
      var turn := StepForward(C.Stay(env, c), C.Here(c), supply, t, end);
      var move := C.WorkMove(turn);
      C.NextSafe(env, c, move);
      C.SingleMove(env, c, move);
      var next := C.Next(env, c, move);
      var rest := CertificateReached(env, next, supply, t + 1, end);
      moves := [move] + rest;
      C.RunAppends(env, c, [move], rest);
      EarnedAppends(env, c, move, rest);
    }
  }

  /** The order as a replacement worker in the same process finds it. */
  function Resumed(c: C.Cluster, epoch: U64): World {
    World(c.durable, c.durable.(orderEpoch := epoch), false, C.Shelf(c, c.home))
  }

  /**
   * From every reachable state of an HTTP-01 order that is not being retired, a replacement worker
   * can bring the order to a durable checkpoint that awaits the download of its certificate, by
   * undisturbed steps of a CA that calls a name valid only when it finds its key authorization
   * served. The process then serves nothing of the order that it had not found there.
   */
  lemma OrderCanSucceed(env: Env, c: C.Cluster, epoch: U64, supply: Text -> Supplies, t: I64, end: I64)
    returns (moves: seq<C.Move>)
    requires C.SafeCluster(env, c) && Generous(C.Stay(env, c), supply, c.durable.dnsNames)
    requires epoch != 0 && OnTrack(C.Stay(env, c), Resumed(c, epoch), t, end)
    requires 0 <= t && t + Toward(Resumed(c, epoch)) + 2 < end
    ensures C.PossibleRun(env, c, moves) && EarnedRun(env, c, moves)
    ensures moves != [] && moves[0] == C.Replace(epoch, c.home, false) && OnlyWork(moves[1..])
    ensures var after := C.Reach(env, c, moves);
            && after.durable.phase.DownloadCertificate? && after.home == c.home && after.found == c.found
            && forall token :: token in env.own && token !in after.found ==> token !in C.Shelf(after, after.home)
  {
    hide Safe, Generous, OnTrack, Work, OrderSystem.Allowed, H.WellFormed, ResumeUnderFence, Sound, Toward, Coherent,
         Core, Earned;
    var move := C.Replace(epoch, c.home, false);
    SafeParts(C.Stay(env, c), C.Here(c));
    SoundCoherent(C.Stay(env, c), c.durable);
    NotComplete(C.Stay(env, c), c.durable, Resumed(c, epoch), t, end);
    ResumeKeepsCoherent(c.durable, epoch);
    C.ResumedSound(C.Stay(env, c), c.durable, epoch);
    C.NextSafe(env, c, move);
    C.SingleMove(env, c, move);
    var next := C.Next(env, c, move);
    var rest := CertificateReached(env, next, supply, t, end);
    moves := [move] + rest;
    C.RunAppends(env, c, [move], rest);
    EarnedAppends(env, c, move, rest);
    var after := C.Reach(env, c, moves);
    forall token | token in env.own && token !in after.found
      ensures token !in C.Shelf(after, after.home)
    {
      NothingServed(env, after, token);
    }
  }

  lemma NotComplete(env: Env, m: Machine, w: World, t: I64, end: I64)
    requires OnTrack(env, w, t, end) && w.local.phase == m.phase
    ensures !m.phase.Complete?
  {
    hide Preparable, NoWildcards, Free, Due;
  }

  /** In particular every new order can, with one free slot in the catalogue of its process. */
  lemma NewOrderCanSucceed(env: Env, c: C.Cluster, supply: Text -> Supplies, t: I64, end: I64)
    returns (moves: seq<C.Move>)
    requires C.Start(env, c) && c.local.preference == P.Http01 && NoWildcards(c.local.dnsNames)
    requires Generous(C.Stay(env, c), supply, c.local.dnsNames)
    requires |C.Shelf(c, c.home)| < H.MAXIMUM_ACTIVE_CHALLENGES
    requires 0 <= t && t + 8 * |c.local.dnsNames| + 16 < end
    ensures C.PossibleRun(env, c, moves) && OnlyWork(moves) && EarnedRun(env, c, moves)
    ensures var after := C.Reach(env, c, moves);
            && after.durable.phase.DownloadCertificate?
            && forall token :: token in env.own ==> token !in C.Shelf(after, c.home)
  {
    hide Generous, C.SafeCluster, EarnedRun, C.PossibleRun, C.Reach, Safe;
    C.StartIsSafe(env, c);
    StartIsOnTrack(env, c, t, end);
    moves := CertificateReached(env, c, supply, t, end);
    var after := C.Reach(env, c, moves);
    forall token | token in env.own
      ensures token !in C.Shelf(after, c.home)
    {
      NothingServed(env, after, token);
    }
  }

  lemma StartIsOnTrack(env: Env, c: C.Cluster, t: I64, end: I64)
    requires C.Start(env, c) && c.local.preference == P.Http01 && NoWildcards(c.local.dnsNames)
    requires |C.Shelf(c, c.home)| < H.MAXIMUM_ACTIVE_CHALLENGES
    ensures OnTrack(C.Stay(env, c), C.Here(c), t, end) && Toward(C.Here(c)) == 8 * |c.local.dnsNames| + 14
    ensures c.found == {}
  {
    hide Identified, RemoteSound, OrderSound, ResultsSound, ProgressSound, NoWildcards, ActionFor, WireAuthorization,
         Preparable, H.WellFormed;
  }

  lemma NothingServed(env: Env, c: C.Cluster, token: Text)
    requires C.SafeCluster(env, c) && c.durable.phase.DownloadCertificate? && token in env.own && token !in c.found
    ensures token !in C.Shelf(c, c.home)
  {
    hide Safe, H.WellFormed;
    ServedIsDurable(C.Stay(env, c), C.Here(c), token);
  }
}
