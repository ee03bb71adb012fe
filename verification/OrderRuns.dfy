/** Properties of whole runs of the order machine: balance, termination, identity. */
module OrderRuns {
  import opened Basics
  import opened Wire
  import opened OrderMachine
  import opened Checkpoint
  import P = Publication

  /** One call on the machine by whoever currently owns it. */
  datatype Op =
    | Feed(event: Event, receivedAt: I64, retry: Option<RetryAfter>)
    | Resume(epoch: U64)
    | Retain(publication: P.ChallengePublication)
    | Expire(now: I64, digest: Digest)

  datatype Effect = Effect(machine: Machine, accepted: bool)

  function Apply(m: Machine, op: Op): Effect {
    match op
    case Feed(event, receivedAt, retry) =>
      var t := AdvanceWithRetry(m, event, receivedAt, retry);
      Effect(t.machine, t.result.Ok?)
    case Resume(epoch) =>
      var t := ResumeUnderFence(m, epoch);
      Effect(t.machine, t.result.Ok?)
    case Retain(p) =>
      var t := RetainPublication(m, p);
      Effect(t.machine, t.result.Ok?)
    case Expire(now, digest) =>
      var (next, expired) := ExpirePublication(m, now, digest);
      Effect(next, expired == Ok(true))
  }

  predicate WireOp(op: Op) { op.Feed? ==> WireEvent(op.event) }

  predicate WireOps(ops: seq<Op>) { forall i :: 0 <= i < |ops| ==> WireOp(ops[i]) }

  /** The state after a run. */
  function Final(m: Machine, ops: seq<Op>): Machine
    decreases ops
  {
    if ops == [] then m else Apply(Final(m, ops[..|ops| - 1]), ops[|ops| - 1]).machine
  }

  /** How often `weight` is met along a run. */
  function Total(m: Machine, ops: seq<Op>, weight: (Machine, Op) -> nat): nat
    decreases ops
  {
    if ops == [] then 0
    else
      var front := ops[..|ops| - 1];
      Total(m, front, weight) + weight(Final(m, front), ops[|ops| - 1])
  }

  lemma {:induction false} FinalAppends(m: Machine, ops: seq<Op>, rest: seq<Op>)
    ensures Final(m, ops + rest) == Final(Final(m, ops), rest)
    decreases rest
  {
    hide Apply;
    if rest == [] {
      assert ops + rest == ops;
    } else {
      var front := rest[..|rest| - 1];
      assert (ops + rest)[..|ops + rest| - 1] == ops + front;
      FinalAppends(m, ops, front);
    }
  }

  lemma ApplyKeepsCoherent(m: Machine, op: Op)
    requires Coherent(m) && WireOp(op)
    ensures Coherent(Apply(m, op).machine)
  {
    hide Coherent, AdvanceWithRetry, ResumeUnderFence, RetainPublication, ExpirePublication;
    match op
    case Feed(event, receivedAt, retry) => RetryKeepsCoherent(m, event, receivedAt, retry);
    case Resume(epoch) => ResumeKeepsCoherent(m, epoch);
    case Retain(p) => RetainKeepsCoherent(m, p);
    case Expire(now, digest) => ExpireKeepsCoherent(m, now, digest);
  }

  /** Every reachable state is coherent. */
  lemma {:induction false} RunsAreCoherent(m: Machine, ops: seq<Op>)
    requires Coherent(m) && WireOps(ops)
    ensures Coherent(Final(m, ops))
    decreases ops
  {
    hide Coherent, Apply;
    if ops != [] {
      RunsAreCoherent(m, ops[..|ops| - 1]);
      ApplyKeepsCoherent(Final(m, ops[..|ops| - 1]), ops[|ops| - 1]);
    }
  }

  // ---------------------------------------------------------------- the transition diagram

  lemma CorePresent(m: Machine)
    requires Core(m)
    ensures Present(m)
  {}

  predicate AtOrder(phase: Phase) {
    phase.FetchAuthorization? || phase.PollOrder? || phase.FinalizeOrder? || phase.DownloadCertificate?
  }

  /** Where an accepted event leads, and whether it counts an authorization. */
  predicate Moves(m: Machine, event: Event, n: Machine) {
    Expected(m.phase, event)
    && match event
       case DirectoryDiscovered(_) => n.phase.AcquireNonce? && SameIndex(m, n)
       case NonceAcquired(_) => n.phase.CreateAccount? && SameIndex(m, n)
       case AccountCreated(_, _) => n.phase.CreateOrder? && SameIndex(m, n)
       case OrderCreated(_, _, _) => (AtOrder(n.phase) || n.phase.Retired?) && SameIndex(m, n)
       case AuthorizationFetched(_, _) =>
         || (n.phase.PublishChallenge? && SameIndex(m, n))
         || ((n.phase.FetchAuthorization? || n.phase.PollOrder?) && NextIndex(m, n))
         || (n.phase.Retired? && SameIndex(m, n))
       case ChallengePublished(_) => n.phase.NotifyChallenge? && SameIndex(m, n)
       case ChallengeNotified(_) => n.phase.PollAuthorization? && SameIndex(m, n)
       case AuthorizationPolled(_, _) =>
         (n.phase.PollAuthorization? || n.phase.CleanupChallenge? || n.phase.RetireChallenge?) && SameIndex(m, n)
       case ChallengeCleaned =>
         if m.phase.CleanupChallenge? then (n.phase.FetchAuthorization? || n.phase.PollOrder?) && NextIndex(m, n)
         else n.phase.Retired? && SameIndex(m, n)
       case OrderFinalized(_, _) => (AtOrder(n.phase) || n.phase.Retired?) && SameIndex(m, n)
       case OrderPolled(_, _) => (AtOrder(n.phase) || n.phase.Retired?) && SameIndex(m, n)
       case CertificateDownloaded(_) => n.phase.Complete? && SameIndex(m, n)
  }

  predicate SameIndex(m: Machine, n: Machine) {
    n.authorizationIndex == m.authorizationIndex && n.authorizedNames == m.authorizedNames
  }

  predicate NextIndex(m: Machine, n: Machine) {
    && n.authorizationIndex == m.authorizationIndex + 1
    && |n.authorizedNames| == |m.authorizedNames| + 1 && n.authorizedNames[..|m.authorizedNames|] == m.authorizedNames
  }

  lemma ReactMoves(m: Machine, event: Event)
    requires Core(m) && React(m, event).result.Ok?
    ensures Moves(m, event, React(m, event).machine)
  {
    hide Core, AcceptOrder, AcceptOrderUpdate, AcceptAuthorization, CompleteChallenge, ValidateRemoteIdentity;
    CorePresent(m);
    match event
    case OrderCreated(url, order, nonce) => OrderMoves(m.(orderUrl := Some(url), nonce := Some(nonce)), m, event);
    case OrderFinalized(order, nonce) => OrderMoves(m.(nonce := Some(nonce)), m, event);
    case OrderPolled(order, nonce) => OrderMoves(m.(nonce := Some(nonce)), m, event);
    case AuthorizationFetched(a, nonce) => FetchedMoves(m, a, nonce);
    case AuthorizationPolled(a, nonce) => PolledMoves(m, a, nonce);
    case ChallengeCleaned => CleanedMoves(m);
    case _ =>
  }

  lemma OrderMoves(named: Machine, m: Machine, event: Event)
    requires m.publicationDigest.None? && Expected(m.phase, event) && React(m, event).result.Ok?
    requires event.OrderCreated? || event.OrderFinalized? || event.OrderPolled?
    requires named == if event.OrderCreated? then m.(orderUrl := Some(event.orderUrl), nonce := Some(event.replayNonce))
                      else m.(nonce := Some(event.replayNonce))
    ensures Moves(m, event, React(m, event).machine)
  {
    hide ValidateRemoteIdentity, ValidateOrder, AcceptAuthorization, CompleteChallenge;
    assert React(m, event) == SelectOrderPhase(named.(order := Some(event.order)));
  }

  lemma PolledMoves(m: Machine, a: Authorization, nonce: Text)
    requires Present(m) && m.phase.PollAuthorization? && AcceptAuthorization(m, a, nonce, true).result.Ok?
    ensures Moves(m, AuthorizationPolled(a, nonce), AcceptAuthorization(m, a, nonce, true).machine)
  {
    hide SelectChallenge, AdvanceAuthorization;
  }

  lemma CleanedMoves(m: Machine)
    requires Expected(m.phase, ChallengeCleaned) && CompleteChallenge(m).result.Ok?
    ensures Moves(m, ChallengeCleaned, CompleteChallenge(m).machine)
  {
    hide NameOf, SameFrame, SameOrder, KeepsOrClears;
  }

  lemma FetchedMoves(m: Machine, a: Authorization, nonce: Text)
    requires Present(m) && m.phase.FetchAuthorization? && AcceptAuthorization(m, a, nonce, false).result.Ok?
    ensures Moves(m, AuthorizationFetched(a, nonce), AcceptAuthorization(m, a, nonce, false).machine)
  {
    hide SelectChallenge;
  }

  lemma FeedMoves(m: Machine, event: Event, receivedAt: I64, retry: Option<RetryAfter>)
    requires Coherent(m)
    requires AdvanceWithRetry(m, event, receivedAt, retry).result.Ok?
    ensures Moves(m, event, AdvanceWithRetry(m, event, receivedAt, retry).machine)
    ensures React(m, event).result.Ok?
  {
    hide Core, React;
    ReactMoves(m, event);
  }

  // ---------------------------------------------------------------- balance of publications

  function Flag(m: Machine): nat { if m.publicationDigest.Some? then 1 else 0 }

  /** An obligation to clean up opens when a publication is proved, or expires before its proof. */
  function Opens(m: Machine, op: Op): nat {
    if Apply(m, op).accepted
       && ((op.Feed? && op.event.ChallengePublished?) || (op.Expire? && m.phase.PublishChallenge?)) then 1 else 0
  }

  function Cleans(m: Machine, op: Op): nat {
    if Apply(m, op).accepted && op.Feed? && op.event.ChallengeCleaned? then 1 else 0
  }

  function Publishes(m: Machine, op: Op): nat {
    if Apply(m, op).accepted && op.Feed? && op.event.ChallengePublished? then 1 else 0
  }

  /** Progress events: everything except the three answers a CA may repeat without limit. */
  function Works(m: Machine, op: Op): nat {
    if Apply(m, op).accepted && op.Feed?
       && !op.event.AuthorizationPolled? && !op.event.OrderPolled? && !op.event.OrderFinalized? then 1 else 0
  }

  /** Progress events still possible from a state. */
  function Fuel(m: Machine): int {
    var n, left := |m.dnsNames|, |m.dnsNames| - m.authorizationIndex;
    match m.phase
    case DiscoverDirectory => 5 + 4 * n
    case AcquireNonce => 4 + 4 * n
    case CreateAccount => 3 + 4 * n
    case CreateOrder => 2 + 4 * n
    case PublishChallenge => 4 * left
    case NotifyChallenge => 4 * left - 1
    case PollAuthorization => 4 * left - 2
    case CleanupChallenge => 4 * left - 2
    case RetireChallenge(_) => 1
    case Retired(_) => 0
    case Complete => 0
    case _ => 1 + 4 * left
  }

  /** Publications still possible from a state. */
  function Room(m: Machine): int {
    var left := |m.dnsNames| - m.authorizationIndex;
    if !Ordered(m.phase) then |m.dnsNames|
    else if Retiring(m.phase) || m.phase.Complete? then 0
    else if HoldsDigest(m.phase) then left - 1
    else left
  }

  lemma BudgetsNonNegative(m: Machine)
    requires Coherent(m)
    ensures Fuel(m) >= 0 && Room(m) >= 0
    ensures Ordered(m.phase) ==> m.authorizationIndex <= |m.dnsNames|
    ensures HasChallengePhase(m.phase) || m.phase.FetchAuthorization? ==> m.authorizationIndex < |m.dnsNames|
    ensures !Ordered(m.phase) ==> m.authorizationIndex == 0
  {
    hide Identified, RemoteSound, AuthorizationSound, ChallengeSound, ResultsSound, PublicationShape, OrderUrlsSound,
         NamesSound, ScheduleSound;
  }

  /** The books of one step: obligations, progress and publications. */
  predicate Balanced(m: Machine, op: Op, n: Machine) {
    && Flag(n) + Cleans(m, op) == Flag(m) + Opens(m, op)
    && Fuel(n) + Works(m, op) <= Fuel(m)
    && Room(n) + Publishes(m, op) <= Room(m)
  }

  lemma RefusedBalanced(m: Machine, op: Op)
    requires Coherent(m) && WireOp(op) && !Apply(m, op).accepted
    ensures Balanced(m, op, Apply(m, op).machine)
  {
    hide Coherent, WireEvent, Contradicts, ActionFor, ValidatePublicationMaterial, BeginRetirement;
    match op
    case Feed(event, receivedAt, retry) =>
      hide AdvanceWithRetry;
      RetryKeepsCoherent(m, event, receivedAt, retry);
    case _ =>
  }

  /** Every arrow of the diagram pays for itself. */
  lemma MovesPay(m: Machine, event: Event, n: Machine)
    requires Moves(m, event, n) && n.dnsNames == m.dnsNames
    requires Ordered(n.phase) ==> n.authorizationIndex <= |n.dnsNames|
    requires HasChallengePhase(m.phase) ==> m.authorizationIndex < |m.dnsNames|
    requires HasChallengePhase(n.phase) ==> n.authorizationIndex < |n.dnsNames|
    requires !Ordered(m.phase) ==> m.authorizationIndex == 0
    ensures var polling := event.AuthorizationPolled? || event.OrderPolled? || event.OrderFinalized?;
            Fuel(n) + (if polling then 0 else 1) <= Fuel(m)
    ensures Room(n) + (if event.ChallengePublished? then 1 else 0) <= Room(m)
    ensures HoldsDigest(n.phase) == ((HoldsDigest(m.phase) && !event.ChallengeCleaned?) || event.ChallengePublished?)
    ensures event.ChallengePublished? ==> !HoldsDigest(m.phase)
    ensures event.ChallengeCleaned? ==> HoldsDigest(m.phase)
  {}

  lemma FeedBalanced(m: Machine, op: Op)
    requires Coherent(m) && WireOp(op) && op.Feed? && Apply(m, op).accepted
    ensures Balanced(m, op, Apply(m, op).machine)
  {
    hide Core, ScheduleSound, AdvanceWithRetry, WireEvent, Moves, Fuel, Room;
    var n := Apply(m, op).machine;
    ApplyKeepsCoherent(m, op);
    FeedMoves(m, op.event, op.receivedAt, op.retry);
    FeedFrame(m, op);
    BudgetsNonNegative(m);
    BudgetsNonNegative(n);
    MovesPay(m, op.event, n);
    CorePresent(m);
    CorePresent(n);
  }

  lemma FeedFrame(m: Machine, op: Op)
    requires op.Feed?
    ensures var n := Apply(m, op).machine;
            n.dnsNames == m.dnsNames && n.preference == m.preference && n.directoryUrl == m.directoryUrl
            && n.orderEpoch == m.orderEpoch
  {
    hide React;
  }

  lemma OwnerBalanced(m: Machine, op: Op)
    requires Coherent(m) && !op.Feed? && Apply(m, op).accepted
    ensures Balanced(m, op, Apply(m, op).machine)
  {
    hide Identified, RemoteSound, OrderSound, AuthorizationSound, ChallengeSound, ResultsSound, PublicationShape,
         ScheduleSound, ActionFor, ValidatePublicationMaterial;
    BudgetsNonNegative(m);
  }

  lemma StepBalanced(m: Machine, op: Op)
    requires Coherent(m) && WireOp(op)
    ensures Balanced(m, op, Apply(m, op).machine)
  {
    hide Coherent, Apply, Balanced, WireOp;
    if !Apply(m, op).accepted {
      RefusedBalanced(m, op);
    } else if op.Feed? {
      FeedBalanced(m, op);
    } else {
      OwnerBalanced(m, op);
    }
  }

  lemma {:induction false} RunBalanced(m: Machine, ops: seq<Op>)
    requires Coherent(m) && WireOps(ops)
    ensures Flag(Final(m, ops)) + Total(m, ops, Cleans) == Flag(m) + Total(m, ops, Opens)
    ensures Fuel(Final(m, ops)) + Total(m, ops, Works) <= Fuel(m)
    ensures Room(Final(m, ops)) + Total(m, ops, Publishes) <= Room(m)
    decreases ops
  {
    hide Coherent, Apply, Fuel, Room, Flag, Cleans, Opens, Works, Publishes;
    if ops != [] {
      var front := ops[..|ops| - 1];
      RunBalanced(m, front);
      RunsAreCoherent(m, front);
      StepBalanced(Final(m, front), ops[|ops| - 1]);
    }
  }

  // ---------------------------------------------------------------- theorems about whole orders

  /** A state that starts one order. */
  predicate Fresh(m: Machine) {
    Coherent(m) && m.phase.DiscoverDirectory?
  }

  /**
   * Outstanding effects: along every run from the start of an order, obligations opened minus
   * cleanups is 0 or 1, it is 1 exactly in the phases that hold a digest, and so no order is
   * complete or retired with a publication outstanding.
   */
  lemma NoPublicationOutlivesItsOrder(m: Machine, ops: seq<Op>)
    requires Fresh(m) && WireOps(ops)
    ensures var n := Final(m, ops);
            Total(m, ops, Opens) == Total(m, ops, Cleans) + (if HoldsDigest(n.phase) then 1 else 0)
    ensures Final(m, ops).phase.Complete? || Final(m, ops).phase.Retired? ==>
              Total(m, ops, Opens) == Total(m, ops, Cleans)
  {
    hide Core, Final, Total;
    RunBalanced(m, ops);
    RunsAreCoherent(m, ops);
    CorePresent(m);
    CorePresent(Final(m, ops));
  }

  /**
   * Termination: an order for n names accepts at most 5 + 4n progress events and at most n
   * publications over any run, however often the CA repeats polls or reorders authorizations.
   */
  lemma WorkIsBounded(m: Machine, ops: seq<Op>)
    requires Fresh(m) && WireOps(ops)
    ensures Total(m, ops, Works) <= 5 + 4 * |m.dnsNames|
    ensures Total(m, ops, Publishes) <= |m.dnsNames|
  {
    hide Core, Final, Total;
    RunBalanced(m, ops);
    RunsAreCoherent(m, ops);
    BudgetsNonNegative(Final(m, ops));
  }

  /**
   * Authorized names: at every point of every run they are distinct requested names, one per
   * counted position, and once all positions are counted they are exactly the requested set.
   */
  lemma AuthorizedNamesAreRequested(m: Machine, ops: seq<Op>)
    requires Fresh(m) && WireOps(ops)
    ensures var n := Final(m, ops);
            && |n.authorizedNames| == n.authorizationIndex <= |n.dnsNames|
            && NamesSound(n.authorizedNames, n.dnsNames)
            && (n.authorizationIndex == |n.dnsNames| ==> Elements(n.authorizedNames) == Elements(n.dnsNames))
  {
    hide Final, Present, RemoteSound, OrderSound, AuthorizationSound, ChallengeSound, ResultsSound, PublicationShape,
         ScheduleSound;
    RunsAreCoherent(m, ops);
    IndexBounded(Final(m, ops));
  }

  // ---------------------------------------------------------------- what an order never changes

  /** Values fixed once known: the order's identity, endpoints and resources. */
  predicate Frozen(m: Machine, n: Machine) {
    && n.directoryUrl == m.directoryUrl && n.dnsNames == m.dnsNames && n.preference == m.preference
    && (m.directory.Some? ==> n.directory == m.directory)
    && (m.accountUrl.Some? ==> n.accountUrl == m.accountUrl)
    && (m.order.Some? ==>
          && n.orderUrl == m.orderUrl && n.order.Some?
          && n.order.value.dnsNames == m.order.value.dnsNames
          && n.order.value.authorizations == m.order.value.authorizations
          && n.order.value.finalize == m.order.value.finalize)
  }

  lemma ReactFreezes(m: Machine, event: Event)
    requires Core(m)
    ensures Frozen(m, React(m, event).machine)
  {
    hide Identified, RemoteSound, OrderUrlsSound, AuthorizationSound, ChallengeSound, ResultsSound, ProgressSound,
         PublicationShape, AcceptAuthorization, CompleteChallenge, AcceptOrder, AcceptOrderUpdate, SameFrame, Frozen;
    match event
    case OrderCreated(url, order, nonce) => CreatedFreezes(m, url, order, nonce);
    case OrderFinalized(order, nonce) => UpdateFreezes(m, order, nonce);
    case OrderPolled(order, nonce) => UpdateFreezes(m, order, nonce);
    case _ => OthersFreeze(m, event);
  }

  lemma CreatedFreezes(m: Machine, url: Text, order: Order, nonce: Text)
    ensures m.order.None? ==> Frozen(m, AcceptOrder(m, url, order, nonce).machine)
    ensures Frozen(m, m)
  {
    hide SelectOrderPhase, ValidateRemoteIdentity, ValidateOrder, KeepsOrClears;
  }

  lemma UpdateFreezes(m: Machine, order: Order, nonce: Text)
    requires OrderSound(m)
    ensures Frozen(m, AcceptOrderUpdate(m, order, nonce).machine)
    ensures Frozen(m, m)
  {
    hide SelectOrderPhase, KeepsOrClears, OrderUrlsSound;
  }

  lemma OthersFreeze(m: Machine, event: Event)
    requires Present(m) && !event.OrderCreated? && !event.OrderFinalized? && !event.OrderPolled?
    ensures Frozen(m, React(m, event).machine)
  {
    hide AcceptAuthorization, CompleteChallenge, ValidateRemoteIdentity;
  }

  lemma StepFreezes(m: Machine, op: Op)
    requires Coherent(m)
    ensures Frozen(m, Apply(m, op).machine)
  {
    hide Core, React, ActionFor, ValidatePublicationMaterial;
    if op.Feed? {
      ReactFreezes(m, op.event);
    }
  }

  /** Over every run an accepted order keeps its names, authorizations, URLs and finalization target. */
  lemma {:induction false} RunsFreezeTheOrder(m: Machine, ops: seq<Op>)
    requires Coherent(m) && WireOps(ops)
    ensures Frozen(m, Final(m, ops))
    decreases ops
  {
    hide Coherent, Apply;
    if ops != [] {
      var front := ops[..|ops| - 1];
      RunsFreezeTheOrder(m, front);
      RunsAreCoherent(m, front);
      StepFreezes(Final(m, front), ops[|ops| - 1]);
    }
  }

  /** What an accepted event does to the challenge, its receipt and its retained material. */
  predicate MaterialMoves(m: Machine, event: Event, n: Machine) {
    && Expected(m.phase, event)
    && (!m.publication.Unprepared? && !event.ChallengeCleaned? ==>
          && n.publication == m.publication
          && m.challenge.Some? && n.challenge.Some? && SameIdentity(n.challenge.value, m.challenge.value))
    && (event.ChallengeCleaned? ==> n.publication.Unprepared? && n.challenge.None?)
    && (m.publication.Unprepared? && !event.ChallengePublished? ==> n.publication.Unprepared?)
    && n.publicationDigest == (if event.ChallengePublished? then Some(event.publicationDigest)
                               else if event.ChallengeCleaned? then None else m.publicationDigest)
  }

  lemma FetchedMaterial(m: Machine, event: Event)
    requires Present(m) && PublicationShape(m) && event.AuthorizationFetched? && React(m, event).result.Ok?
    ensures MaterialMoves(m, event, React(m, event).machine)
  {
    hide SelectChallenge, AdvanceAuthorization;
    if event.authorization.status == Valid {
      var held := m.(nonce := Some(event.replayNonce), authorization := Some(event.authorization));
      AdvanceTouches(held);
    }
  }

  lemma PolledMaterial(m: Machine, event: Event)
    requires Present(m) && PublicationShape(m) && event.AuthorizationPolled? && React(m, event).result.Ok?
    ensures MaterialMoves(m, event, React(m, event).machine)
  {
    hide SelectChallenge, AdvanceAuthorization, P.MatchesIdentity;
  }

  lemma OtherMaterial(m: Machine, event: Event)
    requires Present(m) && PublicationShape(m) && React(m, event).result.Ok?
    requires !event.AuthorizationFetched? && !event.AuthorizationPolled?
    ensures MaterialMoves(m, event, React(m, event).machine)
  {
    hide AcceptAuthorization, AdvanceAuthorization, P.MatchesIdentity, ValidateRemoteIdentity, ValidateOrder;
  }

  lemma ReactMaterial(m: Machine, event: Event)
    requires Core(m) && React(m, event).result.Ok?
    ensures MaterialMoves(m, event, React(m, event).machine)
  {
    hide React, MaterialMoves, Present, PublicationShape, RemoteSound, OrderSound, AuthorizationSound, ChallengeSound,
         ProgressSound;
    if event.AuthorizationFetched? {
      FetchedMaterial(m, event);
    } else if event.AuthorizationPolled? {
      PolledMaterial(m, event);
    } else {
      OtherMaterial(m, event);
    }
  }

  /** The published challenge is still the same one, under the same receipt and epoch. */
  predicate SamePublication(m: Machine, n: Machine) {
    && n.publicationDigest == m.publicationDigest
    && m.challenge.Some? && n.challenge.Some? && SameIdentity(n.challenge.value, m.challenge.value)
    && PublicationEpoch(n) == PublicationEpoch(m)
    && (m.publication.Retained? ==> n.publication == m.publication)
  }

  lemma StepKeepsPublication(m: Machine, op: Op)
    requires Coherent(m) && WireOp(op) && m.publicationDigest.Some? && Cleans(m, op) == 0
    ensures SamePublication(m, Apply(m, op).machine)
  {
    hide Identified, RemoteSound, OrderSound, AuthorizationSound, ChallengeSound, ResultsSound, ProgressSound, React,
         ActionFor, P.MatchesChallenge, P.MatchesIdentity, WireEvent, Contradicts;
    if op.Feed? && op.receivedAt >= 0 {
      AdvanceKeepsCoherent(m, op.event);
      if React(m, op.event).result.Ok? {
        ReactMaterial(m, op.event);
      }
    }
  }

  /**
   * From publication until cleanup, over any run with handovers, polls and expiry in between, the
   * challenge kind, URL and token, the receipt digest and the publication epoch are the original ones.
   */
  lemma {:induction false} PublicationKeepsIdentity(m: Machine, ops: seq<Op>)
    requires Coherent(m) && WireOps(ops) && m.publicationDigest.Some?
    requires Total(m, ops, Cleans) == 0
    ensures SamePublication(m, Final(m, ops))
    decreases ops
  {
    hide Apply, Cleans, Identified, RemoteSound, OrderSound, AuthorizationSound, ChallengeSound, ResultsSound,
         ProgressSound, PublicationShape, ScheduleSound;
    if ops != [] {
      var front := ops[..|ops| - 1];
      PublicationKeepsIdentity(m, front);
      RunsAreCoherent(m, front);
      StepKeepsPublication(Final(m, front), ops[|ops| - 1]);
    }
  }
}
