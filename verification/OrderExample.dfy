/** A concrete two-name order: its run, an accepted answer that breaks its checkpoint, a refused one. */
module OrderExample {
  import opened Basics
  import opened Wire
  import opened OrderMachine
  import opened Checkpoint
  import opened OrderRuns
  import opened OrderNonces
  import CP = ChallengePayload
  import Url
  import Identifiers
  import P = Publication

  const HOST_A: Text := Ascii("https://a")
  const HOST_B: Text := Ascii("https://b")
  const FIRST: Text := Ascii("a.b")
  const SECOND: Text := Ascii("c.d")
  const THIRD: Text := Ascii("e.f")
  const RECEIPT: Digest := [1, 1, 1, 1, 1, 1, 1, 1, 1, 1, 1, 1, 1, 1, 1, 1,
                            1, 1, 1, 1, 1, 1, 1, 1, 1, 1, 1, 1, 1, 1, 1, 1]

  function OfferedChallenge(): Challenge { Challenge(Ascii("dns-01"), HOST_A, Ascii("t"), Pending) }

  function PendingOrder(): Order { Order(Pending, [FIRST, SECOND], [HOST_A, HOST_B], HOST_A, None) }

  function PendingAuthorization(): Authorization { Authorization(FIRST, false, Pending, [OfferedChallenge()]) }

  /** Polling the first of two names, with its DNS publication retained. */
  function PollingOrder(p: P.ChallengePublication): Machine {
    Machine(
      HOST_A, [FIRST, SECOND], P.Dns01, 1, PollAuthorization,
      Some(Directory(HOST_A, HOST_A, HOST_A)), Some(Ascii("n")), Some(HOST_A), Some(HOST_A),
      Some(PendingOrder()), 0, [], Some(PendingAuthorization()), Some(OfferedChallenge()),
      Some(RECEIPT), None, None, Retained(p))
  }

  // ---------------------------------------------------------------- the publication

  const RECORD_NAME: Text := Ascii("_acme-challenge.a.b")
  const RECORD: CP.Dns01Payload := CP.Dns01Payload(RECORD_NAME, Ascii("v"))

  /** The challenge request the worker of epoch 1 makes for `a.b`. */
  function Request(): P.ChallengeRequest {
    P.ChallengeRequest(
      P.RequestContext(P.V1_0, [], 1, Some(1)), P.Dns01, FIRST,
      match CP.EncodeDns(RECORD)
      case Ok(payload) => payload
      case Err(_) => CP.VersionedPayload(0, []),
      100, 1)
  }

  lemma LabelBytes()
    ensures Ascii("_acme-challenge.") == [95, 97, 99, 109, 101, 45, 99, 104, 97, 108, 108, 101, 110, 103, 101, 46]
    ensures FIRST == [97, 46, 98]
  {}

  lemma RecordNameBytes()
    ensures RECORD_NAME == Ascii("_acme-challenge.") + FIRST
  {}

  lemma NameSplits(prefix: Text, rest: Text)
    requires forall i :: 0 <= i < |prefix| ==> prefix[i] != Url.DOT
    ensures Url.Split(prefix + [Url.DOT] + rest, Url.DOT) == [prefix] + Url.Split(rest, Url.DOT)
  {
    var name := prefix + [Url.DOT] + rest;
    assert name[|prefix|] == Url.DOT && forall i :: 0 <= i < |prefix| ==> name[i] == prefix[i];
    assert Url.FirstOf(name, {Url.DOT}) == |prefix|;
    assert name[..|prefix|] == prefix && name[|prefix| + 1..] == rest;
  }

  lemma RecordIsConstructible()
    ensures CP.ConstructibleDns(RECORD)
  {
    hide Url.Split, Ascii;
    LabelBytes();
    RecordNameBytes();
    var prefix: Text := [95, 97, 99, 109, 101, 45, 99, 104, 97, 108, 108, 101, 110, 103, 101];
    NameSplits(prefix, FIRST);
    SplitName(FIRST);
    assert RECORD_NAME == prefix + [Url.DOT] + FIRST;
    assert Ascii("_acme-challenge.") <= RECORD_NAME;
    ShortValue();
  }

  lemma ShortValue()
    ensures CP.ValidValue(Ascii("v"))
  {}

  lemma SplitName(name: Text)
    requires |name| == 3 && name[0] != Url.DOT && name[1] == Url.DOT && name[2] != Url.DOT
    ensures Url.Split(name, Url.DOT) == [name[..1], name[2..]]
  {
    assert Url.FirstOf(name, {Url.DOT}) == 1;
    var rest := name[2..];
    assert Url.FirstOf(rest, {Url.DOT}) == 1;
    assert Url.Split(rest, Url.DOT) == [rest];
  }

  lemma RequestIsValid()
    ensures P.ValidateRequest(Request(), P.Dns01).Ok? && CP.DecodeDns(Request().challenge) == Ok(RECORD)
    ensures P.Capture(Request()).Ok?
    ensures var p := P.Capture(Request()).value; p.kind == P.Dns01 && p.identifier == FIRST && p.orderEpoch == 1
  {
    hide CP.DecodeDns, CP.ConstructibleDns, CP.EncodeDns, Url.Split, Ascii;
    RecordIsConstructible();
    CP.DnsPayloadBijection(RECORD, Request().challenge);
    LabelBytes();
    RecordNameBytes();
    SplitName(FIRST);
    assert P.ValidIdentifier(FIRST, P.Dns01);
    assert P.ValidMaterial(Request(), P.Dns01) && P.UsableContext(Request().context);
  }

  // ---------------------------------------------------------------- what the resources satisfy

  lemma ShortUrl(url: Text, letter: byte)
    requires url == Ascii("https://") + [letter] && IsLower(letter)
    ensures Url.BoundedUrl(url)
  {
    var host: Text := [letter];
    assert url[8..] == host;
    assert Url.FirstOf(host, {Url.SLASH, Url.QUESTION}) == 1;
    assert host[..1] == host;
    assert Url.FirstOf(host, {Url.DOT}) == 1;
    assert Url.Split(host, Url.DOT) == [host];
    assert Url.LastOf(host, Url.COLON) == 1;
  }

  lemma ShortName(name: Text)
    requires |name| == 3 && IsLower(name[0]) && name[1] == Url.DOT && IsLower(name[2])
    ensures Identifiers.ValidDnsName(name) && !Identifiers.IsWildcard(name)
  {
    SplitName(name);
  }

  lemma TwoNames()
    ensures Identifiers.ValidRequest([FIRST, SECOND])
  {
    ShortName(FIRST);
    ShortName(SECOND);
    assert FIRST[0] == 97 && SECOND[0] == 99;
  }

  lemma TwoUrls()
    ensures Url.BoundedUrl(HOST_A) && DistinctUrls([HOST_A, HOST_B])
  {
    hide Url.BoundedUrl;
    ShortUrl(HOST_A, 97);
    ShortUrl(HOST_B, 98);
    assert HOST_A[8] != HOST_B[8];
  }

  lemma OneChallenge()
    ensures WireChallenges([OfferedChallenge()])
    ensures FirstOfKind([OfferedChallenge()], P.KindText(P.Dns01)) == Some(OfferedChallenge())
  {
    hide Url.BoundedUrl;
    TwoUrls();
  }

  lemma PollingOrderIsACheckpoint(p: P.ChallengePublication)
    requires p.kind == P.Dns01 && p.identifier == FIRST && p.orderEpoch == 1
    ensures Checkpointable(PollingOrder(p))
  {
    hide Url.BoundedUrl, Identifiers.ValidRequest, DistinctUrls, WireChallenges, FirstOfKind;
    var m := PollingOrder(p);
    TwoUrls();
    TwoNames();
    OneChallenge();
    assert RECEIPT[0] == 1;
    assert Identified(m) && Present(m) && RemoteSound(m);
    assert OrderSound(m) && AuthorizationSound(m) && ChallengeSound(m) && ResultsSound(m);
    assert ProgressSound(m) && PublicationShape(m) && ScheduleSound(m);
    CheckpointableIffCoherent(m);
  }

  /** The answer names `c.d`; it is accepted, and the machine can no longer be checkpointed. */
  lemma RenamingPollInstance(p: P.ChallengePublication)
    requires p.kind == P.Dns01 && p.identifier == FIRST && p.orderEpoch == 1
    ensures var m := PollingOrder(p);
            var event := AuthorizationPolled(Authorization(SECOND, false, Pending, [OfferedChallenge()]), Ascii("n"));
            && Checkpointable(m) && WireEvent(event)
            && Advance(m, event).result.Ok? && !Checkpointable(Advance(m, event).machine)
  {
    hide Checkpointable, WireEvent, Advance;
    var m := PollingOrder(p);
    PollingOrderIsACheckpoint(p);
    ShortName(SECOND);
    assert FIRST[0] == 97 && SECOND[0] == 99;
    RenamingPollBreaksCheckpoint(m, SECOND, Ascii("n"));
  }

  // ---------------------------------------------------------------- the run that leads there

  function FirstMachine(kind: P.ChallengeKind): Machine {
    Machine(HOST_A, [FIRST, SECOND], kind, 1, DiscoverDirectory,
            None, None, None, None, None, 0, [], None, None, None, None, None, Unprepared)
  }

  function Directories(): Directory { Directory(HOST_A, HOST_A, HOST_A) }

  function SetupOps(): seq<Op> {
    [ Feed(DirectoryDiscovered(Directories()), 0, None),
      Feed(NonceAcquired(Ascii("k")), 0, None),
      Feed(AccountCreated(HOST_A, Ascii("l")), 0, None),
      Feed(OrderCreated(HOST_A, PendingOrder(), Ascii("m")), 0, None) ]
  }

  function ChallengeOps(p: P.ChallengePublication): seq<Op> {
    [ Feed(AuthorizationFetched(PendingAuthorization(), Ascii("o")), 0, None),
      Retain(p),
      Feed(ChallengePublished(RECEIPT), 0, None),
      Feed(ChallengeNotified(Ascii("n")), 0, None) ]
  }

  /** The state between the two halves. */
  function FetchingOrder(kind: P.ChallengeKind): Machine {
    FirstMachine(kind).(phase := FetchAuthorization, directory := Some(Directories()), nonce := Some(Ascii("m")),
                        accountUrl := Some(HOST_A), orderUrl := Some(HOST_A), order := Some(PendingOrder()))
  }

  lemma OneNonce(letter: Text)
    requires |letter| == 1 && IsLower(letter[0])
    ensures ValidNonce(letter)
  {}

  lemma FourSteps(m: Machine, a: Op, b: Op, c: Op, d: Op)
    ensures Final(m, [a, b, c, d])
         == Apply(Apply(Apply(Apply(m, a).machine, b).machine, c).machine, d).machine
  {
    hide Apply;
    assert [a, b, c, d][..3] == [a, b, c] && [a, b, c][..2] == [a, b] && [a, b][..1] == [a] && [a][..0] == [];
    assert Final(m, [a]) == Apply(m, a).machine;
    assert Final(m, [a, b]) == Apply(Final(m, [a]), b).machine;
    assert Final(m, [a, b, c]) == Apply(Final(m, [a, b]), c).machine;
  }

  function After(m: Machine, event: Event): Machine { Apply(m, Feed(event, 0, None)).machine }

  lemma SetupSteps(m: Machine, d: Directory, url: Text, nonce: Text)
    requires Url.BoundedUrl(url) && ValidNonce(nonce)
    ensures m.phase.DiscoverDirectory? ==>
              After(m, DirectoryDiscovered(d)) == m.(directory := Some(d), phase := AcquireNonce, pollNotBefore := None)
    ensures m.phase.AcquireNonce? ==>
              After(m, NonceAcquired(nonce)) == m.(nonce := Some(nonce), phase := CreateAccount, pollNotBefore := None)
    ensures m.phase.CreateAccount? ==>
              After(m, AccountCreated(url, nonce)) ==
              m.(accountUrl := Some(url), nonce := Some(nonce), phase := CreateOrder, pollNotBefore := None)
  {
    hide Url.BoundedUrl, ValidNonce, AcceptAuthorization, CompleteChallenge, AcceptOrder, AcceptOrderUpdate;
  }

  lemma OrderStep(m: Machine, order: Order, url: Text, nonce: Text)
    requires Url.BoundedUrl(url) && ValidNonce(nonce) && m.phase.CreateOrder? && m.authorizationIndex == 0
    requires m.order.None? && order.status == Pending && order.dnsNames == m.dnsNames && m.dnsNames != []
    requires |order.authorizations| == |order.dnsNames|
    ensures After(m, OrderCreated(url, order, nonce))
         == m.(orderUrl := Some(url), nonce := Some(nonce), order := Some(order), phase := FetchAuthorization,
               pollNotBefore := None)
  {
    hide Url.BoundedUrl, ValidNonce, AcceptAuthorization, CompleteChallenge, SameFrame, SameOrder, KeepsOrClears;
  }

  lemma SetupRuns(kind: P.ChallengeKind)
    ensures New(HOST_A, [FIRST, SECOND], kind, 1) == Ok(FirstMachine(kind))
    ensures Final(FirstMachine(kind), SetupOps()) == FetchingOrder(kind)
  {
    hide Url.BoundedUrl, Ascii, ValidNonce, Apply, Final;
    TwoUrls();
    LetterNonces();
    var ops, m0 := SetupOps(), FirstMachine(kind);
    FourSteps(m0, ops[0], ops[1], ops[2], ops[3]);
    SetupSteps(m0, Directories(), HOST_A, Ascii("k"));
    var m1 := m0.(directory := Some(Directories()), phase := AcquireNonce);
    SetupSteps(m1, Directories(), HOST_A, Ascii("k"));
    var m2 := m1.(nonce := Some(Ascii("k")), phase := CreateAccount);
    SetupSteps(m2, Directories(), HOST_A, Ascii("l"));
    OrderStep(m2.(accountUrl := Some(HOST_A), nonce := Some(Ascii("l")), phase := CreateOrder),
              PendingOrder(), HOST_A, Ascii("m"));
  }

  lemma LetterNonces()
    ensures ValidNonce(Ascii("k")) && ValidNonce(Ascii("l")) && ValidNonce(Ascii("m")) && ValidNonce(Ascii("n"))
    ensures ValidNonce(Ascii("o"))
  {
    OneNonce(Ascii("k"));
    OneNonce(Ascii("l"));
    OneNonce(Ascii("m"));
    OneNonce(Ascii("n"));
    OneNonce(Ascii("o"));
  }

  lemma FetchStep(m: Machine, a: Authorization, c: Challenge, nonce: Text)
    requires m.phase.FetchAuthorization? && ValidNonce(nonce) && a.status == Pending
    requires NameOf(a) in m.dnsNames && NameOf(a) !in m.authorizedNames && SelectChallenge(a, m.preference) == Ok(c)
    ensures After(m, AuthorizationFetched(a, nonce))
         == m.(nonce := Some(nonce), authorization := Some(a), challenge := Some(c), phase := PublishChallenge,
               pollNotBefore := None)
  {
    hide ValidNonce, AcceptOrder, AcceptOrderUpdate, CompleteChallenge, AdvanceAuthorization, NameOf, SelectChallenge,
         SameFrame, SameOrder, KeepsOrClears;
  }

  lemma PublishSteps(m: Machine, p: P.ChallengePublication, digest: Digest, nonce: Text)
    requires ValidNonce(nonce) && !IsZero(digest)
    ensures ValidatePublicationMaterial(m, p).Ok? && m.publication.Unprepared? && p.orderEpoch == m.orderEpoch ==>
              Apply(m, Retain(p)).machine == m.(publication := Retained(p))
    ensures m.phase.PublishChallenge? && m.publication.Retained? ==>
              After(m, ChallengePublished(digest)) ==
              m.(publicationDigest := Some(digest), phase := NotifyChallenge, pollNotBefore := None)
    ensures m.phase.NotifyChallenge? ==>
              After(m, ChallengeNotified(nonce)) ==
              m.(nonce := Some(nonce), phase := PollAuthorization, pollNotBefore := None)
  {
    hide ValidNonce, AcceptOrder, AcceptOrderUpdate, CompleteChallenge, AcceptAuthorization, IsZero,
         ValidatePublicationMaterial;
  }

  lemma ChallengeRuns(p: P.ChallengePublication)
    requires p.kind == P.Dns01 && p.identifier == FIRST && p.orderEpoch == 1
    ensures Final(FetchingOrder(P.Dns01), ChallengeOps(p)) == PollingOrder(p)
  {
    hide Ascii, ValidNonce, Apply, Final, FirstOfKind, IsZero, WireChallenges;
    LetterNonces();
    OneChallenge();
    DnsKind();
    ReceiptIsNonzero();
    var ops, m0, a, c := ChallengeOps(p), FetchingOrder(P.Dns01), PendingAuthorization(), OfferedChallenge();
    FourSteps(m0, ops[0], ops[1], ops[2], ops[3]);
    assert NameOf(a) == FIRST;
    FetchStep(m0, a, c, Ascii("o"));
    var m1 := m0.(nonce := Some(Ascii("o")), authorization := Some(a), challenge := Some(c), phase := PublishChallenge);
    assert ValidatePublicationMaterial(m1, p).Ok?;
    PublishSteps(m1, p, RECEIPT, Ascii("n"));
    var m2 := m1.(publication := Retained(p));
    PublishSteps(m2, p, RECEIPT, Ascii("n"));
    PublishSteps(m2.(publicationDigest := Some(RECEIPT), phase := NotifyChallenge), p, RECEIPT, Ascii("n"));
  }

  lemma DnsKind()
    ensures P.KindText(P.Dns01) == Ascii("dns-01")
  {}

  lemma ReceiptIsNonzero()
    ensures !IsZero(RECEIPT)
  {
    assert RECEIPT[0] == 1;
  }

  /** The polling state is reached from a new machine, with the publication captured from a request. */
  lemma PollingOrderIsReachable()
    ensures P.Capture(Request()).Ok?
    ensures var p := P.Capture(Request()).value;
            && New(HOST_A, [FIRST, SECOND], P.Dns01, 1) == Ok(FirstMachine(P.Dns01))
            && Final(FirstMachine(P.Dns01), SetupOps() + ChallengeOps(p)) == PollingOrder(p)
  {
    hide Final, P.Capture, SetupOps, ChallengeOps;
    RequestIsValid();
    SetupRuns(P.Dns01);
    ChallengeRuns(P.Capture(Request()).value);
    FinalAppends(FirstMachine(P.Dns01), SetupOps(), ChallengeOps(P.Capture(Request()).value));
  }

  // ---------------------------------------------------------------- a refused answer

  /** An answer for a name that was never requested. */
  function StrangeAnswer(): Op {
    Feed(AuthorizationPolled(Authorization(THIRD, false, Pending, [OfferedChallenge()]), Ascii("p")), 0, None)
  }

  /**
   * In that state the answer is refused: its request has used up the nonce `n`, the fresh nonce `p` is
   * dropped, and the next request carries `n` again.
   */
  lemma RefusedAnswerRepeatsNonce(p: P.ChallengePublication)
    requires p.kind == P.Dns01 && p.identifier == FIRST && p.orderEpoch == 1
    ensures var m, op := PollingOrder(p), StrangeAnswer();
            && Coherent(m) && WireOp(op) && Refuses(m, op)
            && Uses(m, op) == [Ascii("n")] && Unspent(Apply(m, op).machine) == [Ascii("n")]
  {
    hide Coherent, Checkpointable, WireAuthorization, Identifiers.ValidDnsName, SelectChallenge, FirstOfKind;
    var m := PollingOrder(p);
    PollingOrderIsACheckpoint(p);
    CheckpointableIffCoherent(m);
    StrangeIsWire();
    assert THIRD[0] == 101 && FIRST[0] == 97 && SECOND[0] == 99;
  }

  lemma StrangeIsWire()
    ensures WireAuthorization(Authorization(THIRD, false, Pending, [OfferedChallenge()]))
  {
    hide Identifiers.ValidDnsName, WireChallenges;
    ShortName(THIRD);
    OneChallenge();
  }

  // ---------------------------------------------------------------- a token too long to publish

  function Letters(n: nat): (letters: Text)
    ensures |letters| == n && forall i :: 0 <= i < n ==> letters[i] == 97
  {
    if n == 0 then [] else Letters(n - 1) + [97]
  }

  function LongChallenge(): Challenge { Challenge(Ascii("http-01"), HOST_A, Letters(129), Pending) }

  function LongAuthorization(): Authorization { Authorization(FIRST, false, Pending, [LongChallenge()]) }

  /** A parsed authorization with a token of 129 bytes is selected by an HTTP-01 order. */
  lemma LongTokenRun()
    ensures WireAuthorization(LongAuthorization()) && !CP.ValidToken(LongChallenge().token)
    ensures var fetch := Feed(AuthorizationFetched(LongAuthorization(), Ascii("o")), 0, None);
            Final(FirstMachine(P.Http01), SetupOps() + [fetch]) ==
            FetchingOrder(P.Http01).(nonce := Some(Ascii("o")), authorization := Some(LongAuthorization()),
                                     challenge := Some(LongChallenge()), phase := PublishChallenge)
  {
    hide Final, Apply, SetupOps, Url.BoundedUrl, ValidNonce, Letters, Identifiers.ValidDnsName;
    LetterNonces();
    TwoUrls();
    ShortName(FIRST);
    var a, c, m := LongAuthorization(), LongChallenge(), FetchingOrder(P.Http01);
    var fetch := Feed(AuthorizationFetched(a, Ascii("o")), 0, None);
    assert FirstOfKind([c], P.KindText(P.Http01)) == Some(c);
    assert NameOf(a) == FIRST;
    FetchStep(m, a, c, Ascii("o"));
    SetupRuns(P.Http01);
    FinalAppends(FirstMachine(P.Http01), SetupOps(), [fetch]);
    OneStep(m, fetch);
  }

  lemma OneStep(m: Machine, op: Op)
    ensures Final(m, [op]) == Apply(m, op).machine
  {
    hide Apply;
    assert [op][..0] == [];
  }
}
