/**
 * A whole HTTP-01 order in the making: it comes to be served, it is handed over to another process,
 * and the process it left goes on serving after the order has moved on.
 */
module OrderHandover {
  import opened Basics
  import opened Wire
  import opened OrderMachine
  import opened Checkpoint
  import opened OrderRuns
  import opened OrderProgress
  import opened OrderSystem
  import opened SystemProgress
  import CP = ChallengePayload
  import C = OrderCluster
  import Identifiers
  import P = Publication
  import H = Http01
  import Url

  // ---------------------------------------------------------------- names that identify

  /** Requested names without a wildcard are identifiers that a publication may carry. */
  lemma NameIdentifies(name: Text)
    requires Identifiers.ValidDnsName(name) && !Identifiers.IsWildcard(name)
    ensures 1 <= |name| <= 253 && IsAscii(name) && P.ValidIdentifier(name, P.Http01)
  {
    forall part | part in Url.Split(name, Url.DOT)
      ensures P.IdentifierLabel(part)
    {
      assert Url.ValidLabel(part);
      assert forall k :: 0 <= k < |part| ==> part[k] in name;
    }
  }

  // ---------------------------------------------------------------- until the challenge is served

  /** The challenge an HTTP-01 order will select from the CA's list, ready to be published. */
  predicate Offers(env: Env, s: Supplies) {
    var c := FirstOfKind(s.challenges, P.KindText(P.Http01));
    c.Some? && c.value.token !in env.left
    && CP.ValidToken(c.value.token) && CP.ValidValue(KeyAuthorization(env, c.value.token))
  }

  predicate NoWildcards(names: seq<Text>) { forall name :: name in names ==> !Identifiers.IsWildcard(name) }

  /** The order is on its way to its first challenge, or holds one that can be published until `end`. */
  predicate Upcoming(env: Env, m: Machine, t: I64, end: I64) {
    && m.preference == P.Http01 && Due(m, t) && NoWildcards(m.dnsNames) && Named(m)
    && (!Ordered(m.phase) || m.phase.FetchAuthorization? || m.phase.PublishChallenge?)
    && (m.challenge.Some? ==> m.challenge.value.token !in env.left)
    && (m.publication.Retained? ==> m.publication.publication.expiresAt == end)
    && (AwaitsPreparation(m) ==> Preparable(env, m))
  }

  function ServeSteps(m: Machine): nat {
    match m.phase
    case DiscoverDirectory => 7
    case AcquireNonce => 6
    case CreateAccount => 5
    case CreateOrder => 4
    case FetchAuthorization => 3
    case PublishChallenge => if m.publication.Retained? then 1 else 2
    case _ => 0
  }

  /** An answer that leads towards the first challenge. */
  predicate Leads(env: Env, m: Machine, event: Event) {
    && WireEvent(event) && React(m, event).result.Ok? && RemoteReply(env, event)
    && !event.CertificateDownloaded?
    && var n := React(m, event).machine;
       && ServeSteps(n) < ServeSteps(m)
       && (n.phase.AcquireNonce? || n.phase.CreateAccount? || n.phase.CreateOrder? || n.phase.FetchAuthorization?
           || (n.phase.PublishChallenge? && n.publication.Unprepared? && Preparable(env, n)))
       && (n.challenge.Some? ==> n.challenge.value.token !in env.left)
  }

  lemma SetupLeads(env: Env, m: Machine, s: Supplies) returns (event: Event)
    requires Core(m) && Sufficient(s, m.dnsNames) && !Ordered(m.phase)
    ensures Leads(env, m, event)
  {
    hide Url.BoundedUrl, Identifiers.ValidRequest, DistinctUrls, WireChallenges, IsZero, AcceptAuthorization,
         CompleteChallenge, SameFrame, SameOrder, KeepsOrClears, Preparable;
    var url := m.directoryUrl;
    match m.phase
    case DiscoverDirectory => event := DirectoryDiscovered(Directory(url, url, url));
    case AcquireNonce => event := NonceAcquired(s.nonce);
    case CreateAccount => event := AccountCreated(url, s.nonce);
    case CreateOrder =>
      RequestNonempty(m.dnsNames);
      event := OrderCreated(url, Order(Pending, m.dnsNames, s.urls, url, None), s.nonce);
  }

  lemma FetchLeads(env: Env, m: Machine, s: Supplies, name: Text) returns (event: Event)
    requires Core(m) && Willing(env, s, m.dnsNames) && Offers(env, s) && m.phase.FetchAuthorization?
    requires m.preference == P.Http01 && NoWildcards(m.dnsNames)
    requires name in m.dnsNames && name !in m.authorizedNames && Identifiers.ValidDnsName(name)
    ensures Leads(env, m, event) && event.AuthorizationFetched? && event.authorization.status == Pending
  {
    hide Url.BoundedUrl, Identifiers.ValidRequest, DistinctUrls, WireChallenges, IsZero, Identifiers.ValidDnsName,
         WireAuthorization, AdvanceAuthorization, SameFrame, SameOrder, KeepsOrClears, FirstOfKind, P.ValidIdentifier,
         CP.ValidToken, CP.ValidValue, IsAscii, PublicationShape;
    NameIdentifies(name);
    AuthorizationNames(name, s.challenges);
    var a := Authorization(name, false, Pending, s.challenges);
    assert AuthorizationFor(name, s.challenges) == a.(status := Valid);
    assert WireAuthorization(a) by { PendingIsWire(a); }
    event := AuthorizationFetched(a, s.nonce);
    NothingRetainedYet(m);
  }

  lemma NextName(m: Machine) returns (name: Text)
    requires Core(m) && m.phase.FetchAuthorization?
    ensures name in m.dnsNames && name !in m.authorizedNames && Identifiers.ValidDnsName(name)
  {
    hide RemoteSound, AuthorizationSound, ChallengeSound, ResultsSound, PublicationShape, Identifiers.ValidDnsName,
         Identified, NamesSound, OrderUrlsSound;
    name := OpenName(m);
  }

  lemma PendingIsWire(a: Authorization)
    requires WireAuthorization(a.(status := Valid)) && a.status == Pending
    ensures WireAuthorization(a)
  {
    hide WireChallenges, Identifiers.ValidDnsName;
  }

  lemma NothingRetainedYet(m: Machine)
    requires Core(m) && m.phase.FetchAuthorization?
    ensures m.publication.Unprepared?
  {
    hide Identified, Present, RemoteSound, OrderSound, AuthorizationSound, ChallengeSound, ResultsSound, ProgressSound;
  }

  /** The step brings the order closer to being served; the catalogue is not touched yet. */
  predicate Approaches(env: Env, w: World, next: World, t: I64, end: I64)
    requires t < I64_MAX
  {
    && next.records == w.records && 1 <= ServeSteps(next.local) < ServeSteps(w.local)
    && Upcoming(env, next.local, t + 1, end) && next.local.dnsNames == w.local.dnsNames
  }

  lemma PrepareLeads(env: Env, w: World, t: I64, end: I64) returns (turn: Turn)
    requires 0 <= t < I64_MAX - 1 && t < end
    requires Safe(env, w) && Upcoming(env, w.local, t, end) && w.local.phase.PublishChallenge?
    requires !w.local.publication.Retained?
    ensures OrderSystem.Allowed(env, turn) && Approaches(env, w, Work(env, w, turn), t, end)
  {
    hide Safe, Work, Sound, Preparable, Prepared, NoWildcards, Named;
    var m := w.local;
    SafeParts(env, w);
    UnpreparedWaits(env, m);
    turn := Undisturbed(env, t, end, None);
    PreparesIff(env, w, t, end);
    PreparedKeeps(env, m, end);
  }

  lemma StepLeads(env: Env, w: World, s: Supplies, t: I64, end: I64) returns (turn: Turn)
    requires 0 <= t < I64_MAX - 1 && t < end
    requires Safe(env, w) && Willing(env, s, w.local.dnsNames) && Offers(env, s) && Upcoming(env, w.local, t, end)
    requires ServeSteps(w.local) > 1
    ensures OrderSystem.Allowed(env, turn) && Approaches(env, w, Work(env, w, turn), t, end)
  {
    hide Safe, Work, Willing, Offers, React, Core, Sound, Coherent, WireEvent, AdvanceWithRetry, OwnTokens, Preparable,
         NoWildcards, Named;
    var m := w.local;
    if m.phase.PublishChallenge? {
      turn := PrepareLeads(env, w, t, end);
    } else {
      SafeParts(env, w);
      SoundCoherent(env, m);
      var event;
      if m.phase.FetchAuthorization? {
        var name := NextName(m);
        event := FetchLeads(env, m, s, name);
      } else {
        SufficientOf(env, s, m.dnsNames);
        event := SetupLeads(env, m, s);
      }
      turn := Undisturbed(env, t, t + 1, Some(event));
      AnswerSettles(env, w, event, t);
      ReactNamed(m, event);
      NamedKept(React(m, event).machine, Work(env, w, turn).local);
      PreparableKept(env, React(m, event).machine, Work(env, w, turn).local);
    }
  }

  lemma SufficientOf(env: Env, s: Supplies, names: seq<Text>)
    requires Willing(env, s, names)
    ensures Sufficient(s, names)
  {}

  lemma NamedKept(m: Machine, n: Machine)
    requires n == m.(pollNotBefore := n.pollNotBefore) && Named(m)
    ensures Named(n)
  {
    hide WireAuthorization;
  }

  lemma PreparableKept(env: Env, m: Machine, n: Machine)
    requires n == m.(pollNotBefore := n.pollNotBefore)
    ensures Preparable(env, m) == Preparable(env, n)
  {
    hide CP.ValidToken, CP.ValidValue, P.ValidIdentifier;
  }

  lemma PreparedKeeps(env: Env, m: Machine, end: I64)
    requires Preparable(env, m) && Named(m)
    ensures m.authorization.Some? && m.challenge.Some?
    ensures Prepared(env, m, end).expiresAt == end
    ensures Named(m.(publication := Retained(Prepared(env, m, end))))
  {
    hide WireAuthorization, CP.EncodeHttp, CP.ValidToken, CP.ValidValue, P.ValidIdentifier;
  }

  /** The challenge is published and the checkpoint says so; its record is here until `end`. */
  ghost predicate Served(env: Env, c: C.Cluster, end: I64) {
    && c.durable == c.local && c.visible && c.local.phase.NotifyChallenge? && c.local.preference == P.Http01
    && Named(c.local) && c.local.challenge.Some? && c.local.challenge.value.token !in c.found
    && c.local.publication.Retained? && c.local.publication.publication.expiresAt == end
    && var token := c.local.challenge.value.token;
       ServesUntil(env, C.Shelf(c, c.home), token, end)
  }

  /**
   * From every reachable state before its first challenge, an HTTP-01 order can come to be served in
   * its process, given a free slot in the catalogue and a CA that offers a publishable challenge.
   */
  lemma {:induction false} OrderCanBeServed(env: Env, c: C.Cluster, s: Supplies, t: I64, end: I64)
    returns (moves: seq<C.Move>)
    requires C.SafeCluster(env, c) && Willing(C.Stay(env, c), s, c.local.dnsNames) && Offers(C.Stay(env, c), s)
    requires Upcoming(C.Stay(env, c), c.local, t, end) && ServeSteps(c.local) >= 1
    requires |C.Shelf(c, c.home)| < H.MAXIMUM_ACTIVE_CHALLENGES
    requires 0 <= t && t + ServeSteps(c.local) + 1 < end
    ensures C.PossibleRun(env, c, moves) && OnlyWork(moves)
    ensures var served := C.Reach(env, c, moves);
            && C.SafeCluster(env, served) && Served(env, served, end)
            && served.home == c.home && served.found == c.found
            && served.local.dnsNames == c.local.dnsNames
            && (forall q :: q != c.home ==> C.Shelf(served, q) == C.Shelf(c, q))
    decreases ServeSteps(c.local)
  {
    hide Safe, Willing, Offers, Upcoming, Work, OrderSystem.Allowed, H.WellFormed, Served, ServeSteps;
    var turn: Turn;
    var stay := C.Stay(env, c);
    if ServeSteps(c.local) > 1 {
      turn := StepLeads(stay, C.Here(c), s, t, end);
    } else {
      turn := LastServes(env, c, s, t, end);
    }
    var move := C.WorkMove(turn);
    C.NextSafe(env, c, move);
    C.SingleMove(env, c, move);
    var next := C.Next(env, c, move);
    moves := [move];
    if ServeSteps(c.local) > 1 {
      var rest := OrderCanBeServed(env, next, s, t + 1, end);
      C.RunAppends(env, c, [move], rest);
      moves := [move] + rest;
    }
  }

  lemma LastServes(env: Env, c: C.Cluster, s: Supplies, t: I64, end: I64) returns (turn: Turn)
    requires C.SafeCluster(env, c) && Willing(C.Stay(env, c), s, c.local.dnsNames)
    requires Upcoming(C.Stay(env, c), c.local, t, end) && ServeSteps(c.local) == 1
    requires |C.Shelf(c, c.home)| < H.MAXIMUM_ACTIVE_CHALLENGES && 0 <= t && t + 2 < end
    ensures OrderSystem.Allowed(C.Stay(env, c), turn)
    ensures Served(env, C.Next(env, c, C.WorkMove(turn)), end)
    ensures C.Next(env, c, C.WorkMove(turn)).local.dnsNames == c.local.dnsNames
  {
    hide Safe, Work, Sound, Checkpointable, Coherent, Genuine, H.RecordFor, H.Cleanable, H.Response, NoWildcards,
         Preparable, WireAuthorization, Willing;
    var stay, w := C.Stay(env, c), C.Here(c);
    turn := Undisturbed(stay, t, t + 1, None);
    SafeParts(stay, w);
    RetainedHttp(stay, c.local);
    WillingHash(stay, s, c.local.dnsNames);
    NonzeroReceipt(stay, c.local);
    StepServes(stay, w, t, t);
    forall now: I64 | now < end
      ensures H.Response(Work(stay, w, turn).records, c.local.challenge.value.token, now)
           == Some(KeyAuthorization(env, c.local.challenge.value.token))
    {
      StepServes(stay, w, t, now);
    }
  }

  lemma WillingHash(env: Env, s: Supplies, names: seq<Text>)
    requires Willing(env, s, names)
    ensures forall text: Text :: !IsZero(env.sha(text))
  {}

  // ---------------------------------------------------------------- until the authorization is valid

  /** While the publication is visible and current, an accepted answer of the CA is committed. */
  lemma VisibleAnswerSettles(env: Env, w: World, event: Event, t: I64, turn: Turn)
    requires 0 <= t < I64_MAX && turn == Undisturbed(env, t, t + 1, Some(event))
    requires w.local.publication.Retained? && t < w.local.publication.publication.expiresAt && Due(w.local, t)
    requires w.visible && (w.local.phase.NotifyChallenge? || w.local.phase.PollAuthorization?)
    requires event.ChallengeNotified? || event.AuthorizationPolled?
    requires Safe(env, w) && WireEvent(event) && !RenamingPoll(w.local, event)
    requires Advance(w.local, event).result.Ok? && !Retiring(Advance(w.local, event).machine.phase)
    ensures Commits(Work(env, w, turn), Advance(w.local, event).machine)
    ensures Work(env, w, turn).records == w.records && Work(env, w, turn).visible
  {
    hide Safe, Checkpointable, Sound, WireEvent, RenamingPoll, Advance, Coherent, Core, Work, Settle, Due;
    var m := w.local;
    SafeParts(env, w);
    SoundCoherent(env, m);
    SoundCheckpoint(env, m);
    CheckpointKeptIff(m, event);
    NotYetComplete(m, event);
    UnhintedIsAdvance(m, event, t);
    AnswerIsCurrent(env, w, event, t);
    CandidateSettles(w, event, turn);
  }

  lemma SoundCheckpoint(env: Env, m: Machine)
    requires Sound(env, m)
    ensures Checkpointable(m)
  {
    hide Genuine, H.RecordFor, Checkpointable;
  }

  lemma AnswerIsCurrent(env: Env, w: World, event: Event, t: I64)
    requires w.visible && (w.local.phase.NotifyChallenge? || w.local.phase.PollAuthorization?)
    requires w.local.publication.Retained? && t < w.local.publication.publication.expiresAt
    requires 0 <= t < I64_MAX && Due(w.local, t)
    ensures var turn := Undisturbed(env, t, t + 1, Some(event)); Work(env, w, turn) == Settle(w, event, turn)
  {
    hide Settle, ExpectedDigest, PublishCall, CleanupCall, BuildRequest, P.Capture;
  }

  lemma CandidateSettles(w: World, event: Event, turn: Turn)
    requires var a := AdvanceWithRetry(w.local, event, turn.receivedAt, turn.retry);
             a.result.Ok? && Checkpointable(a.machine) && !a.machine.phase.Complete?
    requires Timely(turn) && turn.commit.Committed? && !event.ChallengePublished?
    ensures var next := Settle(w, event, turn);
            && Commits(next, AdvanceWithRetry(w.local, event, turn.receivedAt, turn.retry).machine)
            && next.records == w.records && next.visible == w.visible
  {
    hide Checkpointable, AdvanceWithRetry;
  }

  lemma NotYetComplete(m: Machine, event: Event)
    requires Core(m) && Advance(m, event).result.Ok? && !event.CertificateDownloaded?
    ensures !Advance(m, event).machine.phase.Complete?
  {
    hide Core, React;
    CompletesOnlyByDownload(m, event);
  }

  /** Without a hint there is no deadline to add. */
  lemma UnhintedIsAdvance(m: Machine, event: Event, t: I64)
    requires t >= 0 && Advance(m, event).result.Ok? && !Retiring(Advance(m, event).machine.phase)
    ensures AdvanceWithRetry(m, event, t, None) == Advance(m, event)
  {
    hide React;
  }

  /** The answers that bring a notified challenge to its cleanup. */
  lemma NotifiedAdvances(m: Machine, nonce: Text)
    requires m.phase.NotifyChallenge? && ValidNonce(nonce)
    ensures var event := ChallengeNotified(nonce);
            && Advance(m, event) == Accept(m.(nonce := Some(nonce), phase := PollAuthorization, pollNotBefore := None))
            && WireEvent(event) && !RenamingPoll(m, event)
  {}

  /** The authorization, now valid, with the challenge that proved it. */
  function Validated(m: Machine): Authorization
    requires m.authorization.Some? && m.challenge.Some?
  {
    m.authorization.value.(status := Valid, challenges := [m.challenge.value])
  }

  lemma ValidatedAdvances(m: Machine, nonce: Text)
    requires Core(m) && Named(m) && m.phase.PollAuthorization? && ValidNonce(nonce)
    ensures m.authorization.Some? && m.challenge.Some?
    ensures var event := AuthorizationPolled(Validated(m), nonce);
            && Advance(m, event)
               == Accept(m.(authorization := Some(Validated(m)), nonce := Some(nonce), phase := CleanupChallenge,
                            pollNotBefore := None))
            && WireEvent(event) && !RenamingPoll(m, event)
  {
    hide Identified, RemoteSound, OrderSound, ResultsSound, PublicationShape, Identifiers.ValidDnsName,
         AdvanceAuthorization, ProgressSound, SameFrame, SameOrder, KeepsOrClears, Url.BoundedUrl;
    var c := m.challenge.value;
    assert FirstOfKind([c], P.KindText(m.preference)) == Some(c);
    assert SelectChallenge(Validated(m), m.preference) == Ok(c);
  }

  // ---------------------------------------------------------------- the handover

  /** As served, while the CA is being polled. */
  ghost predicate Polled(env: Env, c: C.Cluster, end: I64) {
    && c.durable == c.local && c.visible && c.local.phase.PollAuthorization? && c.local.preference == P.Http01
    && Named(c.local) && c.local.challenge.Some? && c.local.pollNotBefore.None?
    && c.local.publication.Retained? && c.local.publication.publication.expiresAt == end
    && ServesUntil(env, C.Shelf(c, c.home), c.local.challenge.value.token, end)
  }

  ghost predicate ServesUntil(env: Env, records: H.Catalogue, token: Text, end: I64) {
    && token in env.own
    && forall now: I64 :: now < end ==> H.Response(records, token, now) == Some(KeyAuthorization(env, token))
  }

  /** The order owes the cleanup of a challenge that its process still serves until `end`. */
  ghost predicate Owing(env: Env, c: C.Cluster, end: I64) {
    && c.durable == c.local && c.local.phase.CleanupChallenge? && c.local.preference == P.Http01
    && c.local.challenge.Some?
    && ServesUntil(env, C.Shelf(c, c.home), c.local.challenge.value.token, end)
  }

  lemma NotifyMove(env: Env, c: C.Cluster, nonce: Text, t: I64, end: I64) returns (turn: Turn)
    requires C.SafeCluster(env, c) && Served(env, c, end) && ValidNonce(nonce) && 0 <= t && t + 1 < end
    ensures OrderSystem.Allowed(C.Stay(env, c), turn)
    ensures var d := C.Next(env, c, C.WorkMove(turn));
            Polled(env, d, end) && d.local.challenge == c.local.challenge && d.local.dnsNames == c.local.dnsNames
  {
    hide Safe, Work, Advance, Core, Coherent, Checkpointable, RenamingPoll, H.Response, H.WellFormed, Sound, WireEvent,
         WireAuthorization;
    var stay, m := C.Stay(env, c), c.local;
    SafeParts(stay, C.Here(c));
    NotifiedAdvances(m, nonce);
    NotifyingIsDue(stay, m, t);
    turn := Undisturbed(stay, t, t + 1, Some(ChallengeNotified(nonce)));
    VisibleAnswerSettles(stay, C.Here(c), ChallengeNotified(nonce), t, turn);
  }

  lemma NotifyingIsDue(env: Env, m: Machine, t: I64)
    requires Sound(env, m) && m.phase.NotifyChallenge?
    ensures Due(m, t)
  {
    hide Identified, Present, RemoteSound, OrderSound, AuthorizationSound, ChallengeSound, ResultsSound, ProgressSound,
         PublicationSound, Genuine, H.RecordFor, ActionFor;
  }

  lemma PollMove(env: Env, c: C.Cluster, nonce: Text, t: I64, end: I64) returns (turn: Turn)
    requires C.SafeCluster(env, c) && Polled(env, c, end) && ValidNonce(nonce) && 0 <= t && t + 1 < end
    ensures OrderSystem.Allowed(C.Stay(env, c), turn)
    ensures var d := C.Next(env, c, C.WorkMove(turn));
            Owing(env, d, end) && d.local.challenge == c.local.challenge
  {
    hide Safe, Work, Advance, Core, Coherent, Checkpointable, RenamingPoll, H.WellFormed, Sound, WireEvent,
         ServesUntil, Named;
    var stay, m := C.Stay(env, c), c.local;
    SafeParts(stay, C.Here(c));
    SoundCoherent(stay, m);
    ValidatedAdvances(m, nonce);
    var event := AuthorizationPolled(Validated(m), nonce);
    assert RemoteReply(stay, event) by { TokenServed(env, C.Shelf(c, c.home), m.challenge.value.token, end); }
    turn := Undisturbed(stay, t, t + 1, Some(event));
    VisibleAnswerSettles(stay, C.Here(c), event, t, turn);
  }

  lemma TokenServed(env: Env, records: H.Catalogue, token: Text, end: I64)
    requires ServesUntil(env, records, token, end)
    ensures token in env.own
  {}

  /** The move that hands an owing order to process `q`, and the cleanup made there. */
  lemma CleanedElsewhere(env: Env, c: C.Cluster, epoch: U64, q: C.Process, t: I64, end: I64)
    returns (moves: seq<C.Move>)
    requires C.SafeCluster(env, c) && Owing(env, c, end)
    requires q != c.home && (forall token :: token in env.own ==> token !in C.Shelf(c, q))
    requires epoch != 0 && 0 <= t < I64_MAX
    ensures C.PossibleRun(env, c, moves)
    ensures var after := C.Reach(env, c, moves);
            && after.home == q && after.durable == after.local && !HasChallengePhase(after.durable.phase)
            && C.Shelf(after, c.home) == C.Shelf(c, c.home)
  {
    hide Safe, Work, Core, Coherent, Checkpointable, H.WellFormed, Sound, ServesUntil, ResumeUnderFence, Occupied;
    var hand := C.Replace(epoch, q, false);
    SafeParts(C.Stay(env, c), C.Here(c));
    SoundCoherent(C.Stay(env, c), c.durable);
    ResumeKeepsCoherent(c.durable, epoch);
    C.ResumedSound(C.Stay(env, c), c.durable, epoch);
    C.NextSafe(env, c, hand);
    C.SingleMove(env, c, hand);
    var d := C.Next(env, c, hand);
    var turn := Undisturbed(C.Stay(env, d), t, t + 1, None);
    if Occupied(C.Stay(env, d), C.Here(d)) {
      OccupiedByLeftovers(C.Stay(env, d), C.Here(d));
      assert false;
    }
    CleanupStuckIff(C.Stay(env, d), C.Here(d), turn);
    var clean := C.WorkMove(turn);
    C.SingleMove(env, d, clean);
    C.RunAppends(env, c, [hand], [clean]);
    moves := [hand] + [clean];
  }

  /**
   * Every new HTTP-01 order without wildcards can run so that, after a handover, its cleanup succeeds
   * in the second process and its checkpoint leaves the challenge behind, while the first process
   * goes on serving the key authorization until the publication expires.
   */
  lemma HandoverLeavesARecord(env: Env, c: C.Cluster, s: Supplies, epoch: U64, q: C.Process, t: I64, end: I64)
    returns (moves: seq<C.Move>, token: Text)
    requires C.Start(env, c) && c.local.preference == P.Http01 && NoWildcards(c.local.dnsNames)
    requires Willing(C.Stay(env, c), s, c.local.dnsNames) && Offers(C.Stay(env, c), s)
    requires |C.Shelf(c, c.home)| < H.MAXIMUM_ACTIVE_CHALLENGES
    requires q != c.home && epoch != 0 && 0 <= t && t + 9 < end
    ensures C.PossibleRun(env, c, moves)
    ensures var after := C.Reach(env, c, moves);
            && after.home == q && !HasChallengePhase(after.durable.phase)
            && ServesUntil(env, C.Shelf(after, c.home), token, end)
  {
    hide C.Start, C.SafeCluster, C.PossibleRun, C.Reach, C.Next, Served, Polled, Owing, ServesUntil, Willing, Offers,
         Upcoming, NoWildcards, C.Shelf;
    C.StartIsSafe(env, c);
    StartIsUpcoming(env, c, t, end);
    WillingNonce(C.Stay(env, c), s, c.local.dnsNames);
    moves := OrderCanBeServed(env, c, s, t, end);
    var served := C.Reach(env, c, moves);
    var notify := NotifyMove(env, served, s.nonce, t, end);
    moves := WorkOn(env, c, moves, notify);
    var polled := C.Reach(env, c, moves);
    var poll := PollMove(env, polled, s.nonce, t, end);
    moves := WorkOn(env, c, moves, poll);
    var owing := C.Reach(env, c, moves);
    NoneStarted(env, c, q);
    var rest := CleanedElsewhere(env, owing, epoch, q, t, end);
    C.RunAppends(env, c, moves, rest);
    moves := moves + rest;
    token := OwedToken(env, owing, end);
  }

  lemma StartIsUpcoming(env: Env, c: C.Cluster, t: I64, end: I64)
    requires C.Start(env, c) && c.local.preference == P.Http01 && NoWildcards(c.local.dnsNames)
    ensures Upcoming(C.Stay(env, c), c.local, t, end) && ServeSteps(c.local) == 7
  {
    hide Identified, RemoteSound, OrderSound, ResultsSound, ProgressSound, NoWildcards, ActionFor, WireAuthorization,
         Preparable, H.WellFormed;
  }

  lemma WillingNonce(env: Env, s: Supplies, names: seq<Text>)
    requires Willing(env, s, names)
    ensures ValidNonce(s.nonce)
  {}

  lemma NoneStarted(env: Env, c: C.Cluster, q: C.Process)
    requires C.Start(env, c)
    ensures forall token :: token in env.own ==> token !in C.Shelf(c, q)
  {
    hide Checkpointable, H.WellFormed;
  }

  lemma OwedToken(env: Env, c: C.Cluster, end: I64) returns (token: Text)
    requires Owing(env, c, end)
    ensures ServesUntil(env, C.Shelf(c, c.home), token, end)
  {
    token := c.local.challenge.value.token;
  }

  /** One more step of the worker at the end of a run; other processes do not notice. */
  lemma WorkOn(env: Env, c: C.Cluster, moves: seq<C.Move>, turn: Turn) returns (longer: seq<C.Move>)
    requires C.PossibleRun(env, c, moves) && C.SafeCluster(env, C.Reach(env, c, moves))
    requires OrderSystem.Allowed(C.Stay(env, C.Reach(env, c, moves)), turn)
    ensures C.PossibleRun(env, c, longer)
    ensures var before, after := C.Reach(env, c, moves), C.Reach(env, c, longer);
            && after == C.Next(env, before, C.WorkMove(turn)) && C.SafeCluster(env, after)
            && after.home == before.home && after.found == before.found
            && forall q :: q != before.home ==> C.Shelf(after, q) == C.Shelf(before, q)
  {
    hide C.SafeCluster, C.PossibleRun, C.Reach, OrderSystem.Allowed, Work;
    var before, move := C.Reach(env, c, moves), C.WorkMove(turn);
    C.NextSafe(env, before, move);
    C.SingleMove(env, before, move);
    C.RunAppends(env, c, moves, [move]);
    longer := moves + [move];
  }
}
