/** A concrete order of the whole system whose answer is unsupported, late or lost: its nonce goes out twice. */
module OrderRequestsExample {
  import opened Basics
  import opened Wire
  import opened OrderMachine
  import opened Checkpoint
  import opened OrderRuns
  import opened OrderSystem
  import opened OrderCluster
  import opened OrderServing
  import opened OrderRequests
  import E = OrderExample
  import Identifiers
  import Url
  import P = Publication
  import H = Http01

  function Sha(text: Text): Digest { E.RECEIPT }

  function Daemon(): Env { Env(Sha, [], 1, {Ascii("t")}, {}) }

  /** The order in process 0, which serves nothing. */
  function At(durable: Machine, local: Machine): Cluster { Cluster(durable, local, false, 0, map[0 := map[]], {}) }

  const DEADLINE: I64 := 10

  function Answering(event: Event, receivedAt: I64, commit: Commit): Turn {
    Turn(0, P.RequestContext(P.V1_0, [], DEADLINE, Some(1)), DEADLINE, None, true, Some(event), None, receivedAt, false,
         commit)
  }

  function Calm(event: Event): Move { WorkMove(Answering(event, 0, Committed)) }

  function SetupMoves(): seq<Move> {
    [ Calm(DirectoryDiscovered(E.Directories())),
      Calm(NonceAcquired(Ascii("k"))),
      Calm(AccountCreated(E.HOST_A, Ascii("l"))),
      Calm(OrderCreated(E.HOST_A, E.PendingOrder(), Ascii("m"))) ]
  }

  /** The authorization offers DNS-01 only. */
  function Fetch(receivedAt: I64, commit: Commit): Move {
    WorkMove(Answering(AuthorizationFetched(E.PendingAuthorization(), Ascii("o")), receivedAt, commit))
  }

  /** The two requests that are compared are moves 4 and 5. */
  function Moves(receivedAt: I64, commit: Commit): seq<Move> {
    SetupMoves() + [Fetch(receivedAt, commit), Fetch(receivedAt, commit)]
  }

  // ---------------------------------------------------------------- one step

  predicate Asking(m: Machine) {
    && (m.phase.DiscoverDirectory? || m.phase.AcquireNonce? || m.phase.CreateAccount? || m.phase.CreateOrder?
        || m.phase.FetchAuthorization?)
    && m.publication.Unprepared? && m.pollNotBefore.None?
  }

  lemma AskingContacts(durable: Machine, m: Machine, turn: Turn)
    requires Asking(m) && turn.now == 0 && turn.context == P.RequestContext(P.V1_0, [], DEADLINE, Some(1))
    requires turn.challengeExpiresAt == DEADLINE
    ensures Contacts(Stay(Daemon(), At(durable, m)), Here(At(durable, m)), turn)
    ensures SignedPhase(m.phase) <==> !m.phase.DiscoverDirectory? && !m.phase.AcquireNonce?
  {}

  lemma StepSettles(m: Machine, turn: Turn)
    requires Asking(m) && turn.now == 0 && turn.context == P.RequestContext(P.V1_0, [], DEADLINE, Some(1))
    requires turn.challengeExpiresAt == DEADLINE && turn.reply.Some? && !turn.reply.value.ChallengePublished?
    ensures var w, next := Settle(Here(At(m, m)), turn.reply.value, turn), Next(Daemon(), At(m, m), WorkMove(turn));
            next == At(w.durable, w.local)
  {
    hide AdvanceWithRetry, Checkpointable;
    AskingContacts(m, m, turn);
    var shelves: map<Process, H.Catalogue> := map[0 := map[]];
    assert shelves[0 := map[]] == shelves;
  }

  lemma CalmLeads(m: Machine, event: Event, n: Machine)
    requires Asking(m) && Checkpointable(m) && WireEvent(event) && !event.ChallengePublished?
    requires E.After(m, event) == n && n.phase != m.phase && !n.phase.Complete?
    requires n.publication.Unprepared?
    ensures Next(Daemon(), At(m, m), Calm(event)) == At(n, n) && Checkpointable(n)
  {
    hide AdvanceWithRetry, Checkpointable, Coherent, WireEvent, Asking, Contradicts, Next;
    CheckpointableIffCoherent(m);
    RetryKeepsCoherent(m, event, 0, None);
    CheckpointableIffCoherent(n);
    StepSettles(m, Answering(event, 0, Committed));
  }

  // ---------------------------------------------------------------- the run

  lemma SetupIsWire()
    ensures WireDirectory(E.Directories()) && WireOrder(E.PendingOrder())
    ensures WireAuthorization(E.PendingAuthorization())
  {
    hide Url.BoundedUrl, Identifiers.ValidRequest, Identifiers.ValidDnsName, DistinctUrls, WireChallenges;
    E.TwoUrls();
    E.TwoNames();
    E.OneChallenge();
    E.ShortName(E.FIRST);
  }

  lemma SetupLeads(kind: P.ChallengeKind)
    ensures var m := E.FirstMachine(kind);
            var m1 := m.(directory := Some(E.Directories()), phase := AcquireNonce);
            var m2 := m1.(nonce := Some(Ascii("k")), phase := CreateAccount);
            var m3 := m2.(accountUrl := Some(E.HOST_A), nonce := Some(Ascii("l")), phase := CreateOrder);
            var moves := SetupMoves();
            && Checkpointable(m) && Checkpointable(E.FetchingOrder(kind))
            && Next(Daemon(), At(m, m), moves[0]) == At(m1, m1)
            && Next(Daemon(), At(m1, m1), moves[1]) == At(m2, m2)
            && Next(Daemon(), At(m2, m2), moves[2]) == At(m3, m3)
            && Next(Daemon(), At(m3, m3), moves[3]) == At(E.FetchingOrder(kind), E.FetchingOrder(kind))
  {
    hide Url.BoundedUrl, Ascii, ValidNonce, E.After, Next, Checkpointable, Identifiers.ValidRequest, WireDirectory,
         WireOrder;
    E.TwoUrls();
    E.TwoNames();
    E.LetterNonces();
    SetupIsWire();
    var m := E.FirstMachine(kind);
    E.SetupRuns(kind);
    NewCheckpointable(E.HOST_A, [E.FIRST, E.SECOND], kind, 1);
    E.SetupSteps(m, E.Directories(), E.HOST_A, Ascii("k"));
    var m1 := m.(directory := Some(E.Directories()), phase := AcquireNonce);
    CalmLeads(m, DirectoryDiscovered(E.Directories()), m1);
    E.SetupSteps(m1, E.Directories(), E.HOST_A, Ascii("k"));
    var m2 := m1.(nonce := Some(Ascii("k")), phase := CreateAccount);
    CalmLeads(m1, NonceAcquired(Ascii("k")), m2);
    E.SetupSteps(m2, E.Directories(), E.HOST_A, Ascii("l"));
    var m3 := m2.(accountUrl := Some(E.HOST_A), nonce := Some(Ascii("l")), phase := CreateOrder);
    CalmLeads(m2, AccountCreated(E.HOST_A, Ascii("l")), m3);
    E.OrderStep(m3, E.PendingOrder(), E.HOST_A, Ascii("m"));
    CalmLeads(m3, OrderCreated(E.HOST_A, E.PendingOrder(), Ascii("m")), E.FetchingOrder(kind));
  }

  lemma FourMoves(env: Env, c: Cluster, moves: seq<Move>)
    requires |moves| >= 5
    ensures Reach(env, c, moves[..4])
         == Next(env, Next(env, Next(env, Next(env, c, moves[0]), moves[1]), moves[2]), moves[3])
    ensures Reach(env, c, moves[..5]) == Next(env, Reach(env, c, moves[..4]), moves[4])
  {
    hide Next;
    assert moves[..5][..4] == moves[..4] && moves[..4][..3] == moves[..3] && moves[..3][..2] == moves[..2];
    assert moves[..2][..1] == moves[..1] && moves[..1][..0] == [];
    assert Reach(env, c, moves[..1]) == Next(env, c, moves[0]);
    assert Reach(env, c, moves[..2]) == Next(env, Reach(env, c, moves[..1]), moves[1]);
    assert Reach(env, c, moves[..3]) == Next(env, Reach(env, c, moves[..2]), moves[2]);
  }

  /** An HTTP-01 order finds no challenge of its kind in the answer; otherwise the answer is late or lost. */
  lemma FetchKeepsLocal(kind: P.ChallengeKind, receivedAt: I64, commit: Commit)
    requires kind.Http01? || receivedAt >= DEADLINE || commit.Lost?
    ensures var m := E.FetchingOrder(kind); Next(Daemon(), At(m, m), Fetch(receivedAt, commit)).local == m
  {
    hide Checkpointable, Ascii, ValidNonce, Next;
    var m, turn := E.FetchingOrder(kind), Fetch(receivedAt, commit).turn;
    StepSettles(m, turn);
    if kind.Http01? {
      NoHttpChallenge();
    }
  }

  lemma NoHttpChallenge()
    ensures FirstOfKind(E.PendingAuthorization().challenges, P.KindText(P.Http01)).None?
  {}

  lemma RunIsPossible(kind: P.ChallengeKind, receivedAt: I64, commit: Commit)
    ensures var m := E.FirstMachine(kind); PossibleRun(Daemon(), At(m, m), Moves(receivedAt, commit))
  {
    hide Next, WireDirectory, WireOrder, WireAuthorization, Reach;
    SetupIsWire();
    var m, moves := E.FirstMachine(kind), Moves(receivedAt, commit);
    forall i | 0 <= i < |moves|
      ensures Possible(Daemon(), Reach(Daemon(), At(m, m), moves[..i]), moves[i])
    {
      assert moves[i].WorkMove?;
    }
  }

  /**
   * From a new order: the first authorization is fetched, and the answer offers no challenge of the
   * order's kind, or arrives late, or its commit is lost. The next request carries the nonce again.
   */
  lemma DroppedAnswerRepeatsNonce(kind: P.ChallengeKind, receivedAt: I64, commit: Commit)
    requires kind.Http01? || receivedAt >= DEADLINE || commit.Lost?
    ensures var m, moves := E.FirstMachine(kind), Moves(receivedAt, commit);
            var c := At(m, m);
            && Start(Daemon(), c) && PossibleRun(Daemon(), c, moves)
            && SendsAt(Daemon(), c, moves, 4) && SendsAt(Daemon(), c, moves, 5)
            && NonceAt(Daemon(), c, moves, 4) == NonceAt(Daemon(), c, moves, 5) == Some(Ascii("m"))
  {
    hide Next, Reach, Checkpointable, PossibleRun, Contacts, Ascii;
    var m, moves := E.FirstMachine(kind), Moves(receivedAt, commit);
    var c, n := At(m, m), E.FetchingOrder(kind);
    RunIsPossible(kind, receivedAt, commit);
    SetupLeads(kind);
    FourMoves(Daemon(), c, moves);
    FetchKeepsLocal(kind, receivedAt, commit);
    AskingContacts(n, n, moves[4].turn);
    var next := Next(Daemon(), At(n, n), moves[4]);
    StepSettles(n, moves[4].turn);
    AskingContacts(next.durable, n, moves[5].turn);
  }
}
