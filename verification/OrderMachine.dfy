/** The resumable ACME order machine: its state, its transitions, and the object that runs them. */
module OrderMachine {
  import opened Basics
  import opened Wire
  import Url
  import P = Publication

  datatype RetirementReason = PublicationExpired | AuthorizationRejected | OrderRejected

  datatype Phase =
    | DiscoverDirectory
    | AcquireNonce
    | CreateAccount
    | CreateOrder
    | FetchAuthorization
    | PublishChallenge
    | NotifyChallenge
    | PollAuthorization
    | CleanupChallenge
    | RetireChallenge(reason: RetirementReason)
    | Retired(reason: RetirementReason)
    | FinalizeOrder
    | PollOrder
    | DownloadCertificate
    | Complete

  datatype PublicationState =
    | Unprepared
    | Legacy(orderEpoch: U64)
    | Retained(publication: P.ChallengePublication)

  /** Everything a checkpoint records: the complete resumable state. */
  datatype Machine = Machine(
    directoryUrl: Text,
    dnsNames: seq<Text>,
    preference: P.ChallengeKind,
    orderEpoch: U64,
    phase: Phase,
    directory: Option<Directory>,
    nonce: Option<Text>,
    accountUrl: Option<Text>,
    orderUrl: Option<Text>,
    order: Option<Order>,
    authorizationIndex: nat,
    authorizedNames: seq<Text>,
    authorization: Option<Authorization>,
    challenge: Option<Challenge>,
    publicationDigest: Option<Digest>,
    certificate: Option<Text>,
    pollNotBefore: Option<I64>,
    publication: PublicationState)

  datatype Event =
    | DirectoryDiscovered(directory: Directory)
    | NonceAcquired(nonce: Text)
    | AccountCreated(accountUrl: Text, replayNonce: Text)
    | OrderCreated(orderUrl: Text, order: Order, replayNonce: Text)
    | AuthorizationFetched(authorization: Authorization, replayNonce: Text)
    | ChallengePublished(publicationDigest: Digest)
    | ChallengeNotified(replayNonce: Text)
    | AuthorizationPolled(authorization: Authorization, replayNonce: Text)
    | ChallengeCleaned
    | OrderFinalized(order: Order, replayNonce: Text)
    | OrderPolled(order: Order, replayNonce: Text)
    | CertificateDownloaded(certificate: Text)

  /** The single side effect a state allows. */
  datatype Action =
    | DiscoverAction(url: Text)
    | NonceAction(url: Text)
    | AccountAction(url: Text, nonce: Text)
    | OrderAction(url: Text, nonce: Text, accountUrl: Text, dnsNames: seq<Text>)
    | SignedAction(url: Text, nonce: Text, accountUrl: Text)
    | PublishAction(dnsName: Text, wildcard: bool, challenge: Challenge, orderEpoch: U64)
    | CleanupAction(dnsName: Text, wildcard: bool, challenge: Challenge, digest: Digest, orderEpoch: U64)
    | CompleteAction(certificate: Text)
    | RetiredAction(reason: RetirementReason)

  datatype MachineError =
    | InvalidInput | InvalidTransition | InvalidRemoteState | NameMismatch | UnsupportedChallenge
    | CorruptState | Protocol

  type Outcome = Result<(), MachineError>

  /** The state left behind by a call together with what the call returned. */
  datatype Transition = Transition(machine: Machine, result: Outcome)

  function Accept(m: Machine): Transition { Transition(m, Ok(())) }

  function Reject(m: Machine, error: MachineError): Transition { Transition(m, Err(error)) }

  // ---------------------------------------------------------------- pure checks

  predicate ValidNonce(value: Text) { 1 <= |value| <= 512 && AllUrlSafe(value) }

  function ValidateRemoteIdentity(url: Text, nonce: Text): Outcome {
    if !Url.BoundedUrl(url) then Err(Protocol)
    else if ValidNonce(nonce) then Ok(()) else Err(MachineError.InvalidInput)
  }

  function FirstOfKind(challenges: seq<Challenge>, kind: Text): (found: Option<Challenge>)
    ensures found.Some? ==> found.value in challenges && found.value.kind == kind
    ensures found.None? ==> forall c :: c in challenges ==> c.kind != kind
  {
    if challenges == [] then None
    else if challenges[0].kind == kind then Some(challenges[0])
    else FirstOfKind(challenges[1..], kind)
  }

  function SelectChallenge(a: Authorization, preference: P.ChallengeKind): (r: Result<Challenge, MachineError>)
    ensures r.Err? ==> r.error == MachineError.UnsupportedChallenge
    ensures r.Ok? ==> r.value in a.challenges && r.value.kind == P.KindText(preference)
  {
    if preference == P.Http01 && a.wildcard then Err(MachineError.UnsupportedChallenge)
    else
      match FirstOfKind(a.challenges, P.KindText(preference))
      case Some(challenge) => Ok(challenge)
      case None => Err(MachineError.UnsupportedChallenge)
  }

  function ValidateOrder(m: Machine, order: Order): Outcome {
    if order.dnsNames == m.dnsNames && |order.authorizations| == |order.dnsNames| then
      if m.order.Some?
         && (m.order.value.authorizations != order.authorizations || m.order.value.finalize != order.finalize)
      then Err(InvalidRemoteState) else Ok(())
    else Err(NameMismatch)
  }

  function ValidateCurrentAuthorization(m: Machine, a: Authorization): Outcome {
    if NameOf(a) in m.dnsNames && NameOf(a) !in m.authorizedNames then Ok(()) else Err(NameMismatch)
  }

  predicate HasChallengePhase(phase: Phase) {
    || phase.PublishChallenge? || phase.NotifyChallenge? || phase.PollAuthorization?
    || phase.CleanupChallenge? || phase.RetireChallenge?
  }

  predicate Retiring(phase: Phase) { phase.RetireChallenge? || phase.Retired? }

  function PublicationEpoch(m: Machine): U64 {
    match m.publication
    case Unprepared => m.orderEpoch
    case Legacy(epoch) => epoch
    case Retained(publication) => publication.orderEpoch
  }

  // ---------------------------------------------------------------- transitions

  function New(directoryUrl: Text, dnsNames: seq<Text>, preference: P.ChallengeKind, orderEpoch: U64)
    : Result<Machine, MachineError>
  {
    if !Url.BoundedUrl(directoryUrl) then Err(Protocol)
    else if orderEpoch == 0 then Err(MachineError.InvalidInput)
    else
      Ok(Machine(directoryUrl, dnsNames, preference, orderEpoch, DiscoverDirectory,
                 None, None, None, None, None, 0, [], None, None, None, None, None, Unprepared))
  }

  /** What no event changes: the order's identity, its fence and the polling deadline. */
  predicate SameFrame(m: Machine, n: Machine) {
    && n.directoryUrl == m.directoryUrl && n.dnsNames == m.dnsNames && n.preference == m.preference
    && n.orderEpoch == m.orderEpoch && n.pollNotBefore == m.pollNotBefore
  }

  predicate SameOrder(m: Machine, n: Machine) {
    && n.directory == m.directory && n.accountUrl == m.accountUrl && n.orderUrl == m.orderUrl
    && n.order == m.order && n.certificate == m.certificate
  }

  /** Publication material is replaced only by clearing it. */
  predicate KeepsOrClears(m: Machine, n: Machine) {
    n.publication == m.publication || n.publication.Unprepared?
  }

  function ClearChallenge(m: Machine): Machine {
    m.(authorization := None, challenge := None, publicationDigest := None, publication := Unprepared)
  }

  function BeginRetirement(m: Machine, reason: RetirementReason): Machine {
    if m.publicationDigest.Some? then m.(phase := RetireChallenge(reason))
    else ClearChallenge(m).(phase := Retired(reason))
  }

  function SelectOrderPhase(m: Machine): (t: Transition)
    ensures SameFrame(m, t.machine)
    ensures SameOrder(m, t.machine) && t.machine.nonce == m.nonce
    ensures KeepsOrClears(m, t.machine)
  {
    if m.order.None? then Reject(m, CorruptState)
    else
      var order := m.order.value;
      if order.status == Pending && m.authorizationIndex < |order.authorizations| then
        Accept(m.(phase := FetchAuthorization))
      else if order.status == Pending || order.status == Processing then Accept(m.(phase := PollOrder))
      else if order.status == Ready then Accept(m.(phase := FinalizeOrder))
      else if order.status == Valid && order.certificate.Some? then Accept(m.(phase := DownloadCertificate))
      else if order.status == Invalid then Accept(BeginRetirement(m, OrderRejected))
      else Reject(m, InvalidRemoteState)
  }

  function AcceptOrder(m: Machine, orderUrl: Text, order: Order, nonce: Text): (t: Transition)
    ensures SameFrame(m, t.machine)
    ensures t.machine.directory == m.directory && t.machine.accountUrl == m.accountUrl
    ensures t.result.Ok? ==>
              t.machine.nonce == Some(nonce) && ValidateOrder(m, order).Ok? && t.machine.order == Some(order)
    ensures KeepsOrClears(m, t.machine)
  {
    match ValidateRemoteIdentity(orderUrl, nonce)
    case Err(e) => Reject(m, e)
    case Ok(_) =>
      match ValidateOrder(m, order)
      case Err(e) => Reject(m, e)
      case Ok(_) => SelectOrderPhase(m.(orderUrl := Some(orderUrl), nonce := Some(nonce), order := Some(order)))
  }

  function AcceptOrderUpdate(m: Machine, order: Order, nonce: Text): (t: Transition)
    ensures SameFrame(m, t.machine)
    ensures t.machine.directory == m.directory && t.machine.accountUrl == m.accountUrl
    ensures t.result.Ok? ==>
              t.machine.nonce == Some(nonce) && ValidateOrder(m, order).Ok? && t.machine.order == Some(order)
    ensures KeepsOrClears(m, t.machine)
  {
    if !ValidNonce(nonce) then Reject(m, MachineError.InvalidInput)
    else
      match ValidateOrder(m, order)
      case Err(e) => Reject(m, e)
      case Ok(_) => SelectOrderPhase(m.(nonce := Some(nonce), order := Some(order)))
  }

  function AdvanceAuthorization(m: Machine): (t: Transition)
    ensures SameFrame(m, t.machine)
    ensures SameOrder(m, t.machine) && t.machine.nonce == m.nonce
    ensures KeepsOrClears(m, t.machine)
  {
    if m.authorization.None? then Reject(m, CorruptState)
    else
      var name := NameOf(m.authorization.value);
      if name !in m.dnsNames || name in m.authorizedNames then Reject(m, CorruptState)
      else
        var next := m.(authorizedNames := m.authorizedNames + [name],
                       authorizationIndex := m.authorizationIndex + 1,
                       authorization := None);
        if m.order.Some? && next.authorizationIndex < |m.order.value.authorizations| then
          Accept(next.(phase := FetchAuthorization))
        else if |next.authorizedNames| == |m.dnsNames| then Accept(next.(phase := PollOrder))
        else Reject(next, InvalidRemoteState)
  }

  predicate SameIdentity(a: Challenge, b: Challenge) {
    a.kind == b.kind && a.url == b.url && a.token == b.token
  }

  /** The checks made on a polled authorization, yielding the challenge to retain. */
  function PolledChallenge(m: Machine, a: Authorization): Result<Challenge, MachineError> {
    var updated :- SelectChallenge(a, m.preference);
    if m.challenge.None? then Err(CorruptState)
    else if !SameIdentity(updated, m.challenge.value) then Err(InvalidRemoteState)
    else Ok(updated)
  }

  /** Dispatch on the status of an authorization whose name and challenge have been checked. */
  function SettleAuthorization(m: Machine, a: Authorization, wasPoll: bool): (t: Transition)
    ensures SameFrame(m, t.machine)
    ensures SameOrder(m, t.machine) && t.machine.nonce == m.nonce
    ensures KeepsOrClears(m, t.machine)
  {
    match a.status
    case Valid =>
      var held := m.(authorization := Some(a));
      if m.publicationDigest.Some? then Accept(held.(phase := CleanupChallenge)) else AdvanceAuthorization(held)
    case Pending =>
      if wasPoll then Accept(m.(authorization := Some(a), phase := PollAuthorization))
      else
        (match SelectChallenge(a, m.preference)
         case Err(e) => Reject(m, e)
         case Ok(c) => Accept(m.(authorization := Some(a), challenge := Some(c), phase := PublishChallenge)))
    case Invalid => Accept(BeginRetirement(m, AuthorizationRejected))
    case Deactivated => Accept(BeginRetirement(m, AuthorizationRejected))
    case Expired => Accept(BeginRetirement(m, AuthorizationRejected))
    case Revoked => Accept(BeginRetirement(m, AuthorizationRejected))
    case Processing => Reject(m, InvalidRemoteState)
    case Ready => Reject(m, InvalidRemoteState)
  }

  function AcceptAuthorization(m: Machine, a: Authorization, nonce: Text, wasPoll: bool): (t: Transition)
    ensures SameFrame(m, t.machine)
    ensures SameOrder(m, t.machine) && (t.result.Ok? ==> t.machine.nonce == Some(nonce))
    ensures KeepsOrClears(m, t.machine)
  {
    if !ValidNonce(nonce) then Reject(m, MachineError.InvalidInput)
    else if ValidateCurrentAuthorization(m, a).Err? then Reject(m, NameMismatch)
    else if !wasPoll then SettleAuthorization(m.(nonce := Some(nonce)), a, false)
    else
      match PolledChallenge(m, a)
      case Err(e) => Reject(m, e)
      case Ok(updated) =>
        var kept := if a.status == Pending || a.status == Valid then Some(updated) else m.challenge;
        SettleAuthorization(m.(challenge := kept, nonce := Some(nonce)), a, true)
  }

  function CompleteChallenge(m: Machine): (t: Transition)
    ensures SameFrame(m, t.machine)
    ensures SameOrder(m, t.machine) && t.machine.nonce == m.nonce
  {
    if m.phase.RetireChallenge? then Accept(ClearChallenge(m.(phase := Retired(m.phase.reason))))
    else if m.phase.CleanupChallenge? then
      var t := AdvanceAuthorization(m);
      if t.result.Ok? then Accept(ClearChallenge(t.machine)) else t
    else Reject(m, InvalidTransition)
  }

  function AcceptPublished(m: Machine, digest: Digest): (t: Transition)
    ensures SameFrame(m, t.machine)
  {
    if IsZero(digest) then Reject(m, MachineError.InvalidInput)
    else
      Accept(m.(publicationDigest := Some(digest),
                publication := if m.publication.Unprepared? then Legacy(m.orderEpoch) else m.publication,
                phase := NotifyChallenge))
  }

  /** The phase in which an event is expected; in any other one it is out of order. */
  predicate Expected(phase: Phase, event: Event) {
    match event
    case DirectoryDiscovered(_) => phase.DiscoverDirectory?
    case NonceAcquired(_) => phase.AcquireNonce?
    case AccountCreated(_, _) => phase.CreateAccount?
    case OrderCreated(_, _, _) => phase.CreateOrder?
    case AuthorizationFetched(_, _) => phase.FetchAuthorization?
    case ChallengePublished(_) => phase.PublishChallenge?
    case ChallengeNotified(_) => phase.NotifyChallenge?
    case AuthorizationPolled(_, _) => phase.PollAuthorization?
    case ChallengeCleaned => phase.CleanupChallenge? || phase.RetireChallenge?
    case OrderFinalized(_, _) => phase.FinalizeOrder?
    case OrderPolled(_, _) => phase.PollOrder?
    case CertificateDownloaded(_) => phase.DownloadCertificate?
  }

  function AcceptAccount(m: Machine, accountUrl: Text, replayNonce: Text): (t: Transition)
    ensures SameFrame(m, t.machine)
  {
    match ValidateRemoteIdentity(accountUrl, replayNonce)
    case Err(e) => Reject(m, e)
    case Ok(_) => Accept(m.(accountUrl := Some(accountUrl), nonce := Some(replayNonce), phase := CreateOrder))
  }

  function AcceptNonce(m: Machine, nonce: Text, next: Phase): (t: Transition)
    ensures SameFrame(m, t.machine)
  {
    if ValidNonce(nonce) then Accept(m.(nonce := Some(nonce), phase := next)) else Reject(m, MachineError.InvalidInput)
  }

  function AcceptCertificate(m: Machine, certificate: Text): (t: Transition)
    ensures SameFrame(m, t.machine)
  {
    if certificate == [] then Reject(m, MachineError.InvalidInput)
    else Accept(m.(certificate := Some(certificate), phase := Complete))
  }

  /** The body of `advance` before it resets the polling deadline. */
  function React(m: Machine, event: Event): (t: Transition)
    ensures SameFrame(m, t.machine)
  {
    if !Expected(m.phase, event) then Reject(m, InvalidTransition)
    else
      match event
      case DirectoryDiscovered(directory) => Accept(m.(directory := Some(directory), phase := AcquireNonce))
      case NonceAcquired(nonce) => AcceptNonce(m, nonce, CreateAccount)
      case AccountCreated(accountUrl, replayNonce) => AcceptAccount(m, accountUrl, replayNonce)
      case OrderCreated(orderUrl, order, replayNonce) => AcceptOrder(m, orderUrl, order, replayNonce)
      case AuthorizationFetched(a, replayNonce) => AcceptAuthorization(m, a, replayNonce, false)
      case ChallengePublished(digest) => AcceptPublished(m, digest)
      case ChallengeNotified(replayNonce) => AcceptNonce(m, replayNonce, PollAuthorization)
      case AuthorizationPolled(a, replayNonce) => AcceptAuthorization(m, a, replayNonce, true)
      case ChallengeCleaned => CompleteChallenge(m)
      case OrderFinalized(order, replayNonce) => AcceptOrderUpdate(m, order, replayNonce)
      case OrderPolled(order, replayNonce) => AcceptOrderUpdate(m, order, replayNonce)
      case CertificateDownloaded(certificate) => AcceptCertificate(m, certificate)
  }

  function Advance(m: Machine, event: Event): Transition {
    var t := React(m, event);
    if t.result.Ok? && !Retiring(t.machine.phase) then Accept(t.machine.(pollNotBefore := None)) else t
  }

  // ---------------------------------------------------------------- the other operations

  datatype RetryAfter = DelayMicros(delay: U64) | At(instant: I64)

  /** Relative hints saturate at the last representable instant; past hints impose nothing. */
  function NotBefore(hint: RetryAfter, receivedAt: I64): Option<I64> {
    var candidate :=
      match hint
      case DelayMicros(delay) => if receivedAt + delay > I64_MAX then I64_MAX else receivedAt + delay
      case At(instant) => instant;
    if candidate > receivedAt then Some(candidate) else None
  }

  function Hinted(retry: Option<RetryAfter>, receivedAt: I64): Option<I64> {
    if retry.Some? then NotBefore(retry.value, receivedAt) else None
  }

  /** `Option::max`, where the absent value is the least. */
  function Later(a: Option<I64>, b: Option<I64>): Option<I64> {
    if a.None? then b else if b.None? || a.value >= b.value then a else b
  }

  function AdvanceWithRetry(m: Machine, event: Event, receivedAt: I64, retry: Option<RetryAfter>): Transition {
    if receivedAt < 0 then Reject(m, MachineError.InvalidInput)
    else
      var t := Advance(m, event);
      if t.result.Err? then t
      else if t.machine.phase.PollAuthorization? || t.machine.phase.PollOrder? then
        Accept(t.machine.(pollNotBefore := Hinted(retry, receivedAt)))
      else if Retiring(t.machine.phase) then
        Accept(t.machine.(pollNotBefore := Later(t.machine.pollNotBefore, Hinted(retry, receivedAt))))
      else t
  }

  function AuthorizationUrl(m: Machine): Option<Text> {
    if m.order.Some? && m.authorizationIndex < |m.order.value.authorizations|
    then Some(m.order.value.authorizations[m.authorizationIndex]) else None
  }

  function Signed(url: Option<Text>, m: Machine): Result<Action, MachineError> {
    if url.Some? && m.nonce.Some? && m.accountUrl.Some?
    then Ok(SignedAction(url.value, m.nonce.value, m.accountUrl.value)) else Err(CorruptState)
  }

  function ActionFor(m: Machine): Result<Action, MachineError> {
    match m.phase
    case DiscoverDirectory => Ok(DiscoverAction(m.directoryUrl))
    case AcquireNonce =>
      if m.directory.Some? then Ok(NonceAction(m.directory.value.newNonce)) else Err(CorruptState)
    case CreateAccount =>
      if m.directory.Some? && m.nonce.Some?
      then Ok(AccountAction(m.directory.value.newAccount, m.nonce.value)) else Err(CorruptState)
    case CreateOrder =>
      if m.directory.Some? && m.nonce.Some? && m.accountUrl.Some?
      then Ok(OrderAction(m.directory.value.newOrder, m.nonce.value, m.accountUrl.value, m.dnsNames))
      else Err(CorruptState)
    case FetchAuthorization => Signed(AuthorizationUrl(m), m)
    case PublishChallenge =>
      if m.authorization.Some? && m.challenge.Some?
      then Ok(PublishAction(m.authorization.value.dnsName, m.authorization.value.wildcard, m.challenge.value,
                            PublicationEpoch(m)))
      else Err(CorruptState)
    case NotifyChallenge => Signed(if m.challenge.Some? then Some(m.challenge.value.url) else None, m)
    case PollAuthorization => Signed(AuthorizationUrl(m), m)
    case CleanupChallenge => CleanupFor(m)
    case RetireChallenge(_) => CleanupFor(m)
    case FinalizeOrder => Signed(if m.order.Some? then Some(m.order.value.finalize) else None, m)
    case PollOrder => Signed(m.orderUrl, m)
    case DownloadCertificate => Signed(if m.order.Some? then m.order.value.certificate else None, m)
    case Complete => if m.certificate.Some? then Ok(CompleteAction(m.certificate.value)) else Err(CorruptState)
    case Retired(reason) => Ok(RetiredAction(reason))
  }

  function CleanupFor(m: Machine): Result<Action, MachineError> {
    if m.authorization.Some? && m.challenge.Some? && m.publicationDigest.Some?
    then Ok(CleanupAction(m.authorization.value.dnsName, m.authorization.value.wildcard, m.challenge.value,
                          m.publicationDigest.value, PublicationEpoch(m)))
    else Err(CorruptState)
  }

  function ResumeUnderFence(m: Machine, orderEpoch: U64): Transition {
    if orderEpoch == 0 || m.phase.Complete? then Reject(m, MachineError.InvalidInput)
    else
      var next := m.(orderEpoch := orderEpoch);
      match ActionFor(next)
      case Ok(_) => Accept(next)
      case Err(e) => Reject(next, e)
  }

  function ValidatePublicationMaterial(m: Machine, p: P.ChallengePublication): Outcome {
    if m.authorization.None? || m.challenge.None? then Err(CorruptState)
    else if HasChallengePhase(m.phase) && P.MatchesChallenge(p, NameOf(m.authorization.value), m.challenge.value)
    then Ok(()) else Err(MachineError.InvalidInput)
  }

  function RetainPublication(m: Machine, p: P.ChallengePublication): Transition {
    match ValidatePublicationMaterial(m, p)
    case Err(e) => Reject(m, e)
    case Ok(_) =>
      if p.orderEpoch != PublicationEpoch(m) || (m.publication.Retained? && m.publication.publication != p)
      then Reject(m, MachineError.InvalidInput)
      else Accept(m.(publication := Retained(p)))
  }

  /** Whether the publication expired is the returned flag; errors leave the machine alone. */
  function ExpirePublication(m: Machine, now: I64, digest: Digest): (Machine, Result<bool, MachineError>) {
    if now < 0 || IsZero(digest) then (m, Err(MachineError.InvalidInput))
    else if !(m.phase.PublishChallenge? || m.phase.NotifyChallenge? || m.phase.PollAuthorization?) then (m, Ok(false))
    else if !m.publication.Retained? then (m, Err(MachineError.InvalidInput))
    else if m.publication.publication.expiresAt > now then (m, Ok(false))
    else if m.publicationDigest.Some? && m.publicationDigest.value != digest then (m, Err(MachineError.InvalidInput))
    else (BeginRetirement(m.(publicationDigest := Some(digest)), PublicationExpired), Ok(true))
  }
}
