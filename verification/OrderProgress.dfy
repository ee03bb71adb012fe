/** From every state an order can reach, a cooperative CA can still bring it to an end. */
module OrderProgress {
  import opened Basics
  import opened Wire
  import opened OrderMachine
  import opened Checkpoint
  import opened OrderRuns
  import Url
  import Identifiers
  import P = Publication

  /** What a CA needs to answer with: as many authorization URLs as names, and a challenge list. */
  datatype Supplies = Supplies(urls: seq<Text>, challenges: seq<Challenge>, nonce: Text, digest: Digest)

  predicate Sufficient(s: Supplies, names: seq<Text>) {
    && |s.urls| == |names| && DistinctUrls(s.urls)
    && WireChallenges(s.challenges)
    && ValidNonce(s.nonce)
    && !IsZero(s.digest)
  }

  // ---------------------------------------------------------------- names of held authorizations

  /** A held authorization is one the parser can produce. */
  predicate Named(m: Machine) { m.authorization.Some? ==> WireAuthorization(m.authorization.value.(status := Pending)) }

  /** An authorization is only ever dropped, kept, or taken from the answer itself. */
  lemma AcceptedNames(m: Machine, a: Authorization, nonce: Text, wasPoll: bool)
    ensures AcceptAuthorization(m, a, nonce, wasPoll).machine.authorization in {None, m.authorization, Some(a)}
  {
    hide SelectChallenge, ValidateCurrentAuthorization, NameOf, SameFrame, SameOrder, KeepsOrClears, ValidNonce;
  }

  lemma OtherNames(m: Machine, event: Event)
    requires !event.AuthorizationFetched? && !event.AuthorizationPolled?
    ensures React(m, event).machine.authorization in {None, m.authorization}
  {
    hide ValidateOrder, ValidateRemoteIdentity, NameOf, SameFrame, SameOrder, KeepsOrClears, AcceptAuthorization,
         ValidNonce, IsZero;
  }

  lemma ReactNamed(m: Machine, event: Event)
    requires Named(m) && WireEvent(event)
    ensures Named(React(m, event).machine)
  {
    hide WireChallenges, Identifiers.ValidDnsName, AcceptAuthorization, WireOrder;
    match event
    case AuthorizationFetched(a, nonce) => AcceptedNames(m, a, nonce, false);
    case AuthorizationPolled(a, nonce) => AcceptedNames(m, a, nonce, true);
    case _ =>
      hide React;
      OtherNames(m, event);
  }

  lemma StepNamed(m: Machine, op: Op)
    requires Named(m) && WireOp(op)
    ensures Named(Apply(m, op).machine)
  {
    hide React, WireEvent, WireAuthorization, ActionFor, ValidatePublicationMaterial;
    if op.Feed? {
      ReactNamed(m, op.event);
    }
  }

  lemma {:induction false} RunNamed(m: Machine, ops: seq<Op>)
    requires Named(m) && WireOps(ops)
    ensures Named(Final(m, ops))
    decreases ops
  {
    hide Named, Apply;
    if ops != [] {
      RunNamed(m, ops[..|ops| - 1]);
      StepNamed(Final(m, ops[..|ops| - 1]), ops[|ops| - 1]);
    }
  }

  // ---------------------------------------------------------------- one cooperative answer

  /** Answers still needed when the CA answers as directly as it can. */
  function Distance(m: Machine): int {
    var n, left := |m.dnsNames|, |m.dnsNames| - m.authorizationIndex;
    match m.phase
    case DiscoverDirectory => 5 * n + 6
    case AcquireNonce => 5 * n + 5
    case CreateAccount => 5 * n + 4
    case CreateOrder => 5 * n + 3
    case FetchAuthorization => 5 * left + 2
    case PublishChallenge => 5 * left + 1
    case NotifyChallenge => 5 * left
    case PollAuthorization => 5 * left - 1
    case CleanupChallenge => 5 * left - 2
    case FinalizeOrder => 2
    case PollOrder => 2
    case DownloadCertificate => 1
    case RetireChallenge(_) => 1
    case Complete => 0
    case Retired(_) => 0
  }

  predicate Ended(phase: Phase) { phase.Complete? || phase.Retired? }

  /** An answer that is accepted, leads closer to the end, and retires nothing. */
  predicate Helps(m: Machine, event: Event) {
    && WireEvent(event)
    && React(m, event).result.Ok?
    && Distance(React(m, event).machine) < Distance(m)
    && (Retiring(React(m, event).machine.phase) ==> Retiring(m.phase))
  }

  /** Some requested name is still open while a position is left to count. */
  lemma OpenName(m: Machine) returns (name: Text)
    requires Identified(m) && NamesSound(m.authorizedNames, m.dnsNames) && m.authorizationIndex < |m.dnsNames|
    ensures name in m.dnsNames && name !in m.authorizedNames && Identifiers.ValidDnsName(name)
  {
    hide Identifiers.ValidDnsName, Identifiers.Ascending;
    Identifiers.AscendingDistinct(m.dnsNames);
    ElementsSize(m.authorizedNames);
    if forall n :: n in m.dnsNames ==> n in m.authorizedNames {
      Pigeonhole(m.dnsNames, Elements(m.authorizedNames));
      assert false;
    }
    name :| name in m.dnsNames && name !in m.authorizedNames;
  }

  /** The parts of a name as the CA sends them. */
  function AuthorizationFor(name: Text, challenges: seq<Challenge>): Authorization {
    var wildcard := Identifiers.IsWildcard(name);
    Authorization(if wildcard then name[2..] else name, wildcard, Valid, challenges)
  }

  lemma AuthorizationNames(name: Text, challenges: seq<Challenge>)
    requires Identifiers.ValidDnsName(name) && WireChallenges(challenges)
    ensures WireAuthorization(AuthorizationFor(name, challenges))
    ensures NameOf(AuthorizationFor(name, challenges)) == name
  {
    hide WireChallenges;
    var base := AuthorizationFor(name, challenges).dnsName;
    var first := Url.FirstOf(base, {Url.DOT});
    assert base[..first] == Url.Split(base, Url.DOT)[0];
    assert Url.ValidLabel(base[..first]);
    assert !Identifiers.IsWildcard(base);
  }

  lemma SetupHelps(m: Machine, s: Supplies) returns (event: Event)
    requires Core(m) && Sufficient(s, m.dnsNames) && !Ordered(m.phase)
    ensures Helps(m, event)
  {
    hide Url.BoundedUrl, Identifiers.ValidRequest, DistinctUrls, WireChallenges, IsZero;
    var url := m.directoryUrl;
    match m.phase
    case DiscoverDirectory => event := DirectoryDiscovered(Directory(url, url, url));
    case AcquireNonce => event := NonceAcquired(s.nonce);
    case CreateAccount => event := AccountCreated(url, s.nonce);
    case CreateOrder =>
      RequestNonempty(m.dnsNames);
      event := OrderCreated(url, Order(Pending, m.dnsNames, s.urls, url, None), s.nonce);
  }

  lemma RequestNonempty(names: seq<Text>)
    requires Identifiers.ValidRequest(names)
    ensures |names| >= 1
  {}

  lemma FetchHelps(m: Machine, s: Supplies) returns (event: Event)
    requires Core(m) && Sufficient(s, m.dnsNames) && m.phase.FetchAuthorization?
    ensures Helps(m, event)
  {
    hide Url.BoundedUrl, Identifiers.ValidRequest, DistinctUrls, WireChallenges, IsZero, Identifiers.ValidDnsName,
         WireAuthorization, NameOf, AuthorizationFor, AdvanceAuthorization;
    var name := OpenName(m);
    var a := AuthorizationFor(name, s.challenges);
    AuthorizationNames(name, s.challenges);
    assert a.status == Valid by { StatusOf(name, s.challenges); }
    event := AuthorizationFetched(a, s.nonce);
    var held := m.(nonce := Some(s.nonce), authorization := Some(a));
    CountsCloser(held, name);
  }

  lemma StatusOf(name: Text, challenges: seq<Challenge>)
    ensures AuthorizationFor(name, challenges).status == Valid
  {}

  /** Counting a name leads to the next authorization or to polling the finished order. */
  lemma CountsCloser(m: Machine, name: Text)
    requires m.authorization.Some? && NameOf(m.authorization.value) == name
    requires name in m.dnsNames && name !in m.authorizedNames && |m.authorizedNames| == m.authorizationIndex
    requires m.order.Some? && |m.order.value.authorizations| == |m.dnsNames| && m.authorizationIndex < |m.dnsNames|
    ensures var t := AdvanceAuthorization(m);
            && t.result.Ok? && !Retiring(t.machine.phase)
            && Distance(t.machine) <= 5 * (|m.dnsNames| - m.authorizationIndex) - 3
  {
    hide NameOf, SameFrame, SameOrder, KeepsOrClears;
  }

  lemma PollHelps(m: Machine, s: Supplies) returns (event: Event)
    requires Core(m) && Named(m) && Sufficient(s, m.dnsNames) && m.phase.PollAuthorization?
    ensures Helps(m, event)
  {
    hide Identified, RemoteSound, OrderSound, ResultsSound, PublicationShape, DistinctUrls, WireChallenges, IsZero,
         Identifiers.ValidDnsName, NameOf, AdvanceAuthorization, FirstOfKind, NamesSound, SameFrame, SameOrder,
         KeepsOrClears;
    event := AuthorizationPolled(m.authorization.value.(status := Valid), s.nonce);
    assert NameOf(event.authorization) == NameOf(m.authorization.value) by { SameName(m.authorization.value); }
    assert SelectChallenge(event.authorization, m.preference) == SelectChallenge(m.authorization.value, m.preference);
  }

  lemma ChallengeHelps(m: Machine, s: Supplies) returns (event: Event)
    requires Core(m) && Named(m) && Sufficient(s, m.dnsNames) && HasChallengePhase(m.phase)
    ensures Helps(m, event)
  {
    hide Url.BoundedUrl, Identifiers.ValidRequest, DistinctUrls, WireChallenges, IsZero, Identifiers.ValidDnsName,
         NameOf, AdvanceAuthorization, FirstOfKind, P.MatchesIdentity, NamesSound, OrderUrlsSound, AcceptAuthorization,
         WireAuthorization, SameFrame, SameOrder, KeepsOrClears;
    match m.phase
    case PublishChallenge => event := ChallengePublished(s.digest);
    case NotifyChallenge => event := ChallengeNotified(s.nonce);
    case PollAuthorization => event := PollHelps(m, s);
    case CleanupChallenge =>
      event := ChallengeCleaned;
      CountsCloser(m, NameOf(m.authorization.value));
    case RetireChallenge(_) => event := ChallengeCleaned;
  }

  lemma SameName(a: Authorization)
    ensures NameOf(a.(status := Valid)) == NameOf(a)
  {}

  lemma OrderHelps(m: Machine, s: Supplies) returns (event: Event)
    requires Core(m) && Sufficient(s, m.dnsNames)
    requires m.phase.FinalizeOrder? || m.phase.PollOrder? || m.phase.DownloadCertificate?
    ensures Helps(m, event)
  {
    hide Url.BoundedUrl, Identifiers.ValidRequest, DistinctUrls, WireChallenges, IsZero, NamesSound, RemoteSound,
         AcceptAuthorization, CompleteChallenge, SameFrame, SameOrder, KeepsOrClears;
    var issued := m.order.value.(status := Valid, certificate := Some(m.order.value.finalize));
    match m.phase
    case FinalizeOrder => event := OrderFinalized(issued, s.nonce);
    case PollOrder => event := OrderPolled(issued, s.nonce);
    case DownloadCertificate => event := CertificateDownloaded([0]);
  }

  /** No coherent state is a dead end: some answer is accepted and leads closer to the end. */
  lemma SomeAnswerHelps(m: Machine, s: Supplies) returns (event: Event)
    requires Core(m) && Named(m) && Sufficient(s, m.dnsNames) && !Ended(m.phase)
    ensures Helps(m, event)
  {
    hide Core, Named, Sufficient, Helps;
    if !Ordered(m.phase) {
      event := SetupHelps(m, s);
    } else if m.phase.FetchAuthorization? {
      event := FetchHelps(m, s);
    } else if HasChallengePhase(m.phase) {
      event := ChallengeHelps(m, s);
    } else {
      event := OrderHelps(m, s);
    }
  }

  // ---------------------------------------------------------------- runs to the end

  lemma DistanceNonNegative(m: Machine)
    requires Coherent(m)
    ensures Distance(m) >= 0
  {
    hide Core;
    BudgetsNonNegative(m);
  }

  lemma {:induction false} ReachesEnd(m: Machine, s: Supplies) returns (rest: seq<Op>)
    requires Coherent(m) && Named(m) && Sufficient(s, m.dnsNames)
    ensures WireOps(rest)
    ensures Ended(Final(m, rest).phase) && (Retiring(Final(m, rest).phase) ==> Retiring(m.phase))
    decreases Distance(m)
  {
    hide Core, Named, Sufficient, React, WireEvent, Distance;
    if Ended(m.phase) {
      rest := [];
    } else {
      var event := SomeAnswerHelps(m, s);
      var op := Feed(event, 0, None);
      var next := Apply(m, op).machine;
      ApplyKeepsCoherent(m, op);
      StepNamed(m, op);
      DistanceIgnoresSchedule(React(m, event).machine, next);
      DistanceNonNegative(m);
      var tail := ReachesEnd(next, s);
      rest := [op] + tail;
      FinalAppends(m, [op], tail);
      assert Final(m, [op]) == next by { assert [op][..0] == []; }
    }
  }

  lemma DistanceIgnoresSchedule(m: Machine, n: Machine)
    requires n == m.(pollNotBefore := n.pollNotBefore)
    ensures Distance(n) == Distance(m)
  {}

  /**
   * Whatever happened before (polls, refusals, handovers, expiry, answers out of order), an order
   * can still be brought to an end: to a certificate, or, once it is being retired, to retirement.
   */
  lemma NoOrderGetsStuck(m: Machine, ops: seq<Op>, s: Supplies) returns (rest: seq<Op>)
    requires Fresh(m) && WireOps(ops) && Sufficient(s, m.dnsNames)
    ensures WireOps(rest)
    ensures var end := Final(m, ops + rest).phase;
            end.Complete? || (end.Retired? && Retiring(Final(m, ops).phase))
  {
    hide Core, Sufficient, Final;
    CorePresent(m);
    RunsAreCoherent(m, ops);
    RunNamed(m, ops);
    RunsFreezeTheOrder(m, ops);
    rest := ReachesEnd(Final(m, ops), s);
    FinalAppends(m, ops, rest);
  }
}
