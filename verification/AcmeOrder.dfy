/** The order machine as the object the client holds; its methods keep the checkpoint invariant. */
module AcmeOrder {
  import opened Basics
  import opened Wire
  import opened OrderMachine
  import opened Checkpoint
  import Identifiers
  import P = Publication

  /** The checkpointed object; every method leaves it in the state its transition describes. */
  class AcmeOrderMachine {
    const directoryUrl: Text
    const dnsNames: seq<Text>
    const preference: P.ChallengeKind
    var orderEpoch: U64
    var phase: Phase
    var directory: Option<Directory>
    var nonce: Option<Text>
    var accountUrl: Option<Text>
    var orderUrl: Option<Text>
    var order: Option<Order>
    var authorizationIndex: nat
    var authorizedNames: seq<Text>
    var authorization: Option<Authorization>
    var challenge: Option<Challenge>
    var publicationDigest: Option<Digest>
    var certificate: Option<Text>
    var pollNotBefore: Option<I64>
    var publication: PublicationState

    function View(): Machine
      reads this
    {
      Machine(directoryUrl, dnsNames, preference, orderEpoch, phase, directory, nonce, accountUrl, orderUrl, order,
              authorizationIndex, authorizedNames, authorization, challenge, publicationDigest, certificate,
              pollNotBefore, publication)
    }

    constructor (directoryUrl: Text, dnsNames: seq<Text>, preference: P.ChallengeKind, orderEpoch: U64)
      requires New(directoryUrl, dnsNames, preference, orderEpoch).Ok?
      ensures New(directoryUrl, dnsNames, preference, orderEpoch) == Ok(View())
      ensures Identifiers.ValidRequest(dnsNames) ==> Checkpointable(View())
    {
      hide Checkpointable;
      if Identifiers.ValidRequest(dnsNames) {
        NewCheckpointable(directoryUrl, dnsNames, preference, orderEpoch);
      }
      this.directoryUrl, this.dnsNames, this.preference := directoryUrl, dnsNames, preference;
      this.orderEpoch, phase := orderEpoch, DiscoverDirectory;
      directory, nonce, accountUrl, orderUrl, order := None, None, None, None, None;
      authorizationIndex, authorizedNames := 0, [];
      authorization, challenge, publicationDigest, certificate, pollNotBefore := None, None, None, None, None;
      publication := Unprepared;
    }

    /** A copy to work on; the original stays as it is until the copy is committed. */
    constructor Clone(m: Machine)
      ensures View() == m && fresh(this)
    {
      directoryUrl, dnsNames, preference := m.directoryUrl, m.dnsNames, m.preference;
      orderEpoch, phase := m.orderEpoch, m.phase;
      directory, nonce, accountUrl, orderUrl, order := m.directory, m.nonce, m.accountUrl, m.orderUrl, m.order;
      authorizationIndex, authorizedNames := m.authorizationIndex, m.authorizedNames;
      authorization, challenge, publicationDigest := m.authorization, m.challenge, m.publicationDigest;
      certificate, pollNotBefore, publication := m.certificate, m.pollNotBefore, m.publication;
    }

    /**
     * Any parsed event keeps a coherent machine coherent, accepted or not; a refusal changes at most
     * the nonce and never blames the local state.
     */
    method AdvanceEvent(event: Event) returns (result: Outcome)
      modifies this
      ensures Transition(View(), result) == Advance(old(View()), event)
      ensures old(Coherent(View())) && WireEvent(event) ==>
                Coherent(View()) && CleanRefusal(old(View()), event, Transition(View(), result))
    {
      hide React, Coherent, WireEvent, CleanRefusal;
      if Coherent(View()) && WireEvent(event) {
        AdvanceKeepsCoherent(View(), event);
      }
      result := ReactTo(event);
      if result.Ok? && !Retiring(phase) {
        assert result.value == ();
        pollNotBefore := None;
      }
    }

    method ReactTo(event: Event) returns (result: Outcome)
      modifies this
      ensures Transition(View(), result) == React(old(View()), event)
    {
      hide AcceptOrder, AcceptOrderUpdate, AcceptAuthorization, CompleteChallenge, AcceptAccount;
      if !Expected(phase, event) {
        return Err(InvalidTransition);
      }
      result := Ok(());
      match event {
        case DirectoryDiscovered(found) =>
          directory := Some(found);
          phase := AcquireNonce;
        case NonceAcquired(acquired) =>
          if !ValidNonce(acquired) {
            return Err(MachineError.InvalidInput);
          }
          nonce := Some(acquired);
          phase := CreateAccount;
        case AccountCreated(url, replayNonce) =>
          result := AcceptAccountCreated(url, replayNonce);
        case OrderCreated(url, created, replayNonce) =>
          result := AcceptOrderCreated(url, created, replayNonce);
        case AuthorizationFetched(fetched, replayNonce) =>
          result := AcceptFetched(fetched, replayNonce);
        case ChallengePublished(digest) =>
          if IsZero(digest) {
            return Err(MachineError.InvalidInput);
          }
          publicationDigest := Some(digest);
          if publication.Unprepared? {
            publication := Legacy(orderEpoch);
          }
          phase := NotifyChallenge;
        case ChallengeNotified(replayNonce) =>
          if !ValidNonce(replayNonce) {
            return Err(MachineError.InvalidInput);
          }
          nonce := Some(replayNonce);
          phase := PollAuthorization;
        case AuthorizationPolled(polled, replayNonce) =>
          result := AcceptPolled(polled, replayNonce);
        case ChallengeCleaned =>
          result := FinishChallenge();
        case OrderFinalized(updated, replayNonce) =>
          result := AcceptUpdated(updated, replayNonce);
        case OrderPolled(updated, replayNonce) =>
          result := AcceptUpdated(updated, replayNonce);
        case CertificateDownloaded(chain) =>
          if chain == [] {
            return Err(MachineError.InvalidInput);
          }
          certificate := Some(chain);
          phase := Complete;
      }
    }

    method AcceptAccountCreated(url: Text, replayNonce: Text) returns (result: Outcome)
      modifies this
      ensures Transition(View(), result) == AcceptAccount(old(View()), url, replayNonce)
    {
      result := ValidateRemoteIdentity(url, replayNonce);
      if result.Err? {
        return;
      }
      accountUrl := Some(url);
      nonce := Some(replayNonce);
      phase := CreateOrder;
      return Ok(());
    }

    method AcceptOrderCreated(url: Text, created: Order, replayNonce: Text) returns (result: Outcome)
      modifies this
      ensures Transition(View(), result) == AcceptOrder(old(View()), url, created, replayNonce)
    {
      result := ValidateRemoteIdentity(url, replayNonce);
      if result.Err? {
        return;
      }
      result := ValidateOrder(View(), created);
      if result.Err? {
        return;
      }
      orderUrl := Some(url);
      nonce := Some(replayNonce);
      order := Some(created);
      result := ChooseOrderPhase();
    }

    method AcceptUpdated(updated: Order, replayNonce: Text) returns (result: Outcome)
      modifies this
      ensures Transition(View(), result) == AcceptOrderUpdate(old(View()), updated, replayNonce)
    {
      if !ValidNonce(replayNonce) {
        return Err(MachineError.InvalidInput);
      }
      result := ValidateOrder(View(), updated);
      if result.Err? {
        return;
      }
      nonce := Some(replayNonce);
      order := Some(updated);
      result := ChooseOrderPhase();
    }

    method ChooseOrderPhase() returns (result: Outcome)
      modifies this
      ensures Transition(View(), result) == SelectOrderPhase(old(View()))
    {
      if order.None? {
        return Err(CorruptState);
      }
      match order.value.status {
        case Pending =>
          phase := if authorizationIndex < |order.value.authorizations| then FetchAuthorization else PollOrder;
        case Processing => phase := PollOrder;
        case Ready => phase := FinalizeOrder;
        case Valid =>
          if order.value.certificate.None? {
            return Err(InvalidRemoteState);
          }
          phase := DownloadCertificate;
        case Invalid => Retire(OrderRejected);
        case _ => return Err(InvalidRemoteState);
      }
      return Ok(());
    }

    method AcceptFetched(fetched: Authorization, replayNonce: Text) returns (result: Outcome)
      modifies this
      ensures Transition(View(), result) == AcceptAuthorization(old(View()), fetched, replayNonce, false)
    {
      if !ValidNonce(replayNonce) {
        return Err(MachineError.InvalidInput);
      }
      result := ValidateCurrentAuthorization(View(), fetched);
      if result.Err? {
        return;
      }
      nonce := Some(replayNonce);
      result := Settle(fetched, false);
    }

    method AcceptPolled(polled: Authorization, replayNonce: Text) returns (result: Outcome)
      modifies this
      ensures Transition(View(), result) == AcceptAuthorization(old(View()), polled, replayNonce, true)
    {
      if !ValidNonce(replayNonce) {
        return Err(MachineError.InvalidInput);
      }
      result := ValidateCurrentAuthorization(View(), polled);
      if result.Err? {
        return;
      }
      var updated := SelectChallenge(polled, preference);
      if updated.Err? {
        return Err(updated.error);
      }
      if challenge.None? {
        return Err(CorruptState);
      }
      if !SameIdentity(updated.value, challenge.value) {
        return Err(InvalidRemoteState);
      }
      if polled.status == Pending || polled.status == Valid {
        challenge := Some(updated.value);
      }
      nonce := Some(replayNonce);
      result := Settle(polled, true);
    }

    method Settle(a: Authorization, wasPoll: bool) returns (result: Outcome)
      modifies this
      ensures Transition(View(), result) == SettleAuthorization(old(View()), a, wasPoll)
    {
      match a.status {
        case Valid =>
          authorization := Some(a);
          if publicationDigest.Some? {
            phase := CleanupChallenge;
          } else {
            result := NextAuthorization();
            return;
          }
        case Pending =>
          if wasPoll {
            authorization := Some(a);
            phase := PollAuthorization;
          } else {
            var selected := SelectChallenge(a, preference);
            if selected.Err? {
              return Err(selected.error);
            }
            authorization := Some(a);
            challenge := Some(selected.value);
            phase := PublishChallenge;
          }
        case Processing => return Err(InvalidRemoteState);
        case Ready => return Err(InvalidRemoteState);
        case _ => Retire(AuthorizationRejected);
      }
      return Ok(());
    }

    method NextAuthorization() returns (result: Outcome)
      modifies this
      ensures Transition(View(), result) == AdvanceAuthorization(old(View()))
    {
      if authorization.None? {
        return Err(CorruptState);
      }
      var name := NameOf(authorization.value);
      if name !in dnsNames || name in authorizedNames {
        return Err(CorruptState);
      }
      authorizedNames := authorizedNames + [name];
      authorizationIndex := authorizationIndex + 1;
      authorization := None;
      if order.Some? && authorizationIndex < |order.value.authorizations| {
        phase := FetchAuthorization;
      } else if |authorizedNames| == |dnsNames| {
        phase := PollOrder;
      } else {
        return Err(InvalidRemoteState);
      }
      return Ok(());
    }

    method FinishChallenge() returns (result: Outcome)
      modifies this
      ensures Transition(View(), result) == CompleteChallenge(old(View()))
    {
      if phase.RetireChallenge? {
        phase := Retired(phase.reason);
      } else if phase.CleanupChallenge? {
        result := NextAuthorization();
        if result.Err? {
          return;
        }
      } else {
        return Err(InvalidTransition);
      }
      Clear();
      return Ok(());
    }

    method Retire(reason: RetirementReason)
      modifies this
      ensures View() == BeginRetirement(old(View()), reason)
    {
      if publicationDigest.Some? {
        phase := RetireChallenge(reason);
      } else {
        Clear();
        phase := Retired(reason);
      }
    }

    method Clear()
      modifies this
      ensures View() == ClearChallenge(old(View()))
    {
      authorization := None;
      challenge := None;
      publicationDigest := None;
      publication := Unprepared;
    }

    method Resume(epoch: U64) returns (result: Outcome)
      modifies this`orderEpoch
      ensures Transition(View(), result) == ResumeUnderFence(old(View()), epoch)
      ensures old(Coherent(View())) ==> Coherent(View()) && (result.Ok? <==> epoch != 0 && !old(phase).Complete?)
    {
      hide Coherent, ActionFor;
      if Coherent(View()) {
        ResumeKeepsCoherent(View(), epoch);
      }
      if epoch == 0 || phase.Complete? {
        return Err(MachineError.InvalidInput);
      }
      orderEpoch := epoch;
      var action := ActionFor(View());
      return if action.Ok? then Ok(()) else Err(action.error);
    }

    method Retain(p: P.ChallengePublication) returns (result: Outcome)
      modifies this`publication
      ensures Transition(View(), result) == RetainPublication(old(View()), p)
      ensures old(Coherent(View())) ==> Coherent(View()) && (result.Ok? ==> Checkpointable(View()))
    {
      hide Coherent, Checkpointable, RetainedName, ValidatePublicationMaterial;
      if Coherent(View()) {
        RetainKeepsCoherent(View(), p);
        CheckpointableIffCoherent(RetainPublication(View(), p).machine);
      }
      result := ValidatePublicationMaterial(View(), p);
      if result.Err? {
        return;
      }
      if p.orderEpoch != PublicationEpoch(View()) || (publication.Retained? && publication.publication != p) {
        return Err(MachineError.InvalidInput);
      }
      publication := Retained(p);
      assert result.value == ();
    }

    method Expire(now: I64, digest: Digest) returns (result: Result<bool, MachineError>)
      modifies this
      ensures (View(), result) == ExpirePublication(old(View()), now, digest)
      ensures old(Coherent(View())) ==> Coherent(View())
      ensures old(Checkpointable(View())) ==> Checkpointable(View())
    {
      hide Coherent, Checkpointable, RetainedName;
      CheckpointableIffCoherent(View());
      if Coherent(View()) {
        ExpireKeepsCoherent(View(), now, digest);
        CheckpointableIffCoherent(ExpirePublication(View(), now, digest).0);
      }
      if now < 0 || IsZero(digest) {
        return Err(MachineError.InvalidInput);
      }
      if !phase.PublishChallenge? && !phase.NotifyChallenge? && !phase.PollAuthorization? {
        return Ok(false);
      }
      if !publication.Retained? {
        return Err(MachineError.InvalidInput);
      }
      if publication.publication.expiresAt > now {
        return Ok(false);
      }
      if publicationDigest.Some? && publicationDigest.value != digest {
        return Err(MachineError.InvalidInput);
      }
      publicationDigest := Some(digest);
      Retire(PublicationExpired);
      return Ok(true);
    }

    method AdvanceEventWithRetry(event: Event, receivedAt: I64, retry: Option<RetryAfter>) returns (result: Outcome)
      modifies this
      ensures Transition(View(), result) == AdvanceWithRetry(old(View()), event, receivedAt, retry)
      ensures old(Coherent(View())) && WireEvent(event) ==>
                Coherent(View()) && CleanRefusal(old(View()), event, Transition(View(), result))
    {
      hide Advance, Coherent, WireEvent, CleanRefusal;
      if Coherent(View()) && WireEvent(event) {
        RetryKeepsCoherent(View(), event, receivedAt, retry);
      }
      if receivedAt < 0 {
        return Err(MachineError.InvalidInput);
      }
      result := AdvanceEvent(event);
      if result.Err? {
        return;
      }
      if phase.PollAuthorization? || phase.PollOrder? {
        pollNotBefore := Hinted(retry, receivedAt);
      } else if Retiring(phase) {
        pollNotBefore := Later(pollNotBefore, Hinted(retry, receivedAt));
      }
      assert result.value == ();
    }
  }
}
