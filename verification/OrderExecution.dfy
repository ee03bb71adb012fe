/** The worker object that executes one step of an order over its checkpoint and its catalogue. */
module OrderExecution {
  import opened Basics
  import opened Wire
  import opened OrderMachine
  import opened Checkpoint
  import opened AcmeOrder
  import opened OrderSystem
  import P = Publication
  import H = Http01

  datatype StepError = StepRefused

  class CertificateOrderExecution {
    const env: Env
    const catalogue: H.Http01Challenge
    var durable: Machine
    var machine: AcmeOrderMachine
    var visible: bool

    ghost function State(): World
      reads this, machine, catalogue
    {
      World(durable, machine.View(), visible, catalogue.records)
    }

    /** `prepared` is the checkpointed machine, resumed under the claim of this worker. */
    constructor (env: Env, catalogue: H.Http01Challenge, checkpoint: Machine, prepared: AcmeOrderMachine)
      ensures this.env == env && this.catalogue == catalogue && machine == prepared
      ensures State() == World(checkpoint, prepared.View(), false, catalogue.records)
    {
      this.env, this.catalogue := env, catalogue;
      durable, machine, visible := checkpoint, prepared, false;
    }

    /** The encoder validates the candidate; only a known commit becomes executable local state. */
    method CheckpointCandidate(candidate: AcmeOrderMachine, commit: Commit) returns (committed: bool)
      modifies this`durable, this`machine
      ensures State() == Submit(old(State()), old(candidate.View()), commit)
      ensures machine == if committed then candidate else old(machine)
      ensures committed <==>
              var m := old(candidate.View()); Checkpointable(m) && !m.phase.Complete? && commit.Committed?
    {
      hide Checkpointable;
      if !Checkpointable(candidate.View()) || candidate.phase.Complete? {
        return false;
      }
      if commit.Committed? || commit.applied {
        durable := candidate.View();
      }
      if commit.Committed? {
        machine := candidate;
      }
      return commit.Committed?;
    }

    /** A candidate that retains publication material, if that is the next duty. */
    method PreparePublication(turn: Turn) returns (r: Result<Option<AcmeOrderMachine>, StepError>)
      ensures r.Ok? && r.value.Some? ==> fresh(r.value.value)
      ensures Prepare(env, State(), turn) ==
              (match r
               case Ok(None) => None
               case Ok(Some(candidate)) => Some(Submit(State(), candidate.View(), turn.commit))
               case Err(_) => Some(State()))
    {
      hide BuildRequest, P.Capture, RetainPublication, ExpectedDigest, Submit, Coherent, Checkpointable;
      if machine.publication.Retained? || !HasChallengePhase(machine.phase) {
        return Ok(None);
      }
      if machine.authorization.None? || machine.challenge.None? {
        return Err(StepRefused);
      }
      var expiresAt := turn.challengeExpiresAt;
      if machine.publication.Legacy? && turn.legacyExpiry.Some? {
        expiresAt := turn.legacyExpiry.value;
      }
      var built := BuildRequest(env, machine.authorization.value, machine.challenge.value,
                                PublicationEpoch(machine.View()), turn.context, expiresAt);
      if built.None? {
        return Err(StepRefused);
      }
      var captured := P.Capture(built.value);
      if captured.Err? {
        return Err(StepRefused);
      }
      if machine.publicationDigest.Some?
         && ExpectedDigest(env, captured.value, turn.context) != machine.publicationDigest {
        return Err(StepRefused);
      }
      var candidate := new AcmeOrderMachine.Clone(machine.View());
      var retained := candidate.Retain(captured.value);
      if retained.Err? {
        return Err(StepRefused);
      }
      return Ok(Some(candidate));
    }

    /** A candidate that turns an elapsed publication into a cleanup, if that is the next duty. */
    method ExpiredPublication(turn: Turn) returns (r: Result<Option<AcmeOrderMachine>, StepError>)
      ensures r.Ok? && r.value.Some? ==> fresh(r.value.value)
      ensures Elapse(env, State(), turn) ==
              (match r
               case Ok(None) => None
               case Ok(Some(candidate)) => Some(Submit(State(), candidate.View(), turn.commit))
               case Err(_) => Some(State()))
    {
      hide ExpectedDigest, Submit, ExpirePublication, Coherent, Checkpointable;
      if !machine.publication.Retained? {
        return Ok(None);
      }
      if machine.publication.publication.expiresAt > turn.now || Retiring(machine.phase) {
        return Ok(None);
      }
      var digest := ExpectedDigest(env, machine.publication.publication, turn.context);
      if digest.None? {
        return Err(StepRefused);
      }
      var candidate := new AcmeOrderMachine.Clone(machine.View());
      var expired := candidate.Expire(turn.now, digest.value);
      if expired.Err? {
        return Err(StepRefused);
      }
      return Ok(if expired.value then Some(candidate) else None);
    }

    /** Publishes the current challenge and reports its receipt once the catalogue serves it. */
    method PublishChallenge(turn: Turn) returns (receipt: Option<H.Receipt>)
      requires catalogue.sha == env.sha && catalogue.active == turn.active
      modifies catalogue`records
      ensures (catalogue.records, receipt) == PublishCall(env, old(State()), turn)
    {
      hide WorkerRequest, H.ExpectedReceipt, H.Publish, H.Visible;
      var r := WorkerRequest(env, machine.View(), turn.context, turn.challengeExpiresAt);
      if r.None? || r.value.expiresAt <= r.value.context.deadline {
        return None;
      }
      var expected := H.ExpectedReceipt(env.sha, r.value);
      if expected.Err? {
        return None;
      }
      var published := catalogue.PublishNow(r.value);
      if published != expected {
        return None;
      }
      var seen := catalogue.VisibleNow(r.value, published.value);
      return if seen == Ok(true) then Some(published.value) else None;
    }

    method CleanupChallenge(turn: Turn) returns (cleaned: bool)
      requires catalogue.sha == env.sha
      modifies catalogue`records
      ensures (catalogue.records, cleaned) == CleanupCall(env, old(State()), turn)
    {
      hide WorkerRequest, H.Cleanup;
      var r := WorkerRequest(env, machine.View(), turn.context, turn.challengeExpiresAt);
      if r.None? || machine.publicationDigest.None? {
        return false;
      }
      RequestHasRevision(env, machine.View(), turn.context, turn.challengeExpiresAt);
      var receipt := H.Receipt(r.value.context.expectedRevision.value, PublicationEpoch(machine.View()),
                               machine.publicationDigest.value);
      var outcome := catalogue.CleanupNow(r.value, receipt);
      return outcome.Ok?;
    }

    /** Puts a lost publication back; the phase and the polling deadline stay as they are. */
    method RestorePublication(turn: Turn)
      requires catalogue.sha == env.sha && catalogue.active == turn.active
      requires Restore(env, State(), turn).Some?
      modifies this`visible, catalogue`records
      ensures State() == Restore(env, old(State()), turn).value
    {
      hide ExpectedDigest, PublishCall;
      if !machine.publication.Retained? || machine.publicationDigest.None? {
        return;
      }
      if ExpectedDigest(env, machine.publication.publication, turn.context) != machine.publicationDigest {
        return;
      }
      var receipt := PublishChallenge(turn);
      if Timely(turn) && receipt.Some? && receipt.value.publicationDigest == machine.publicationDigest.value {
        visible := true;
      }
    }

    /** Advances a copy with a result that arrived in time, and makes it local once committed. */
    method SettleEvent(event: Event, turn: Turn)
      modifies this
      ensures State() == Settle(old(State()), event, turn)
    {
      hide AdvanceWithRetry, Checkpointable, Coherent, WireEvent, CleanRefusal;
      if !Timely(turn) {
        return;
      }
      var candidate := new AcmeOrderMachine.Clone(machine.View());
      var advanced := candidate.AdvanceEventWithRetry(event, turn.receivedAt, turn.retry);
      if advanced.Err? || candidate.phase.Complete? {
        return;
      }
      var committed := CheckpointCandidate(candidate, turn.commit);
      if machine.View() == candidate.View() && event.ChallengePublished? {
        visible := true;
      }
    }

    method ExecuteCurrentAction(turn: Turn)
      requires catalogue.sha == env.sha && catalogue.active == turn.active
      modifies this, catalogue`records
      ensures State() == Execute(env, old(State()), turn)
    {
      hide PublishCall, CleanupCall, Settle, Submit;
      if machine.phase.PublishChallenge? {
        var receipt := PublishChallenge(turn);
        if receipt.Some? {
          SettleEvent(ChallengePublished(receipt.value.publicationDigest), turn);
        }
      } else if machine.phase.CleanupChallenge? || machine.phase.RetireChallenge? {
        var cleaned := CleanupChallenge(turn);
        if cleaned {
          SettleEvent(ChallengeCleaned, turn);
        }
      } else if machine.phase.Retired? {
        if Timely(turn) {
          var _ := CheckpointCandidate(machine, turn.commit);
        }
      } else if turn.reply.Some? {
        SettleEvent(turn.reply.value, turn);
      }
    }

    /** One step: retain before publishing, expire, restore, and only then act. */
    method ExecuteStep(turn: Turn)
      requires catalogue.sha == env.sha && catalogue.active == turn.active
      modifies this, catalogue`records
      ensures State() == Work(env, old(State()), turn)
      ensures old(Safe(env, State())) && OrderSystem.Allowed(env, turn) ==> Safe(env, State())
    {
      hide Prepare, Elapse, Execute, Submit, ExpectedDigest, PublishCall, Safe, OrderSystem.Allowed;
      if Safe(env, State()) && OrderSystem.Allowed(env, turn) {
        WorkSafe(env, State(), turn);
      }
      if turn.now < 0 || turn.context.expectedRevision != Some(env.revision) {
        return;
      }
      if turn.context.deadline <= turn.now || turn.challengeExpiresAt <= turn.now {
        return;
      }
      var prepared := PreparePublication(turn);
      if prepared.Err? {
        return;
      }
      if prepared.value.Some? {
        var _ := CheckpointCandidate(prepared.value.value, turn.commit);
        return;
      }
      var expired := ExpiredPublication(turn);
      if expired.Err? {
        return;
      }
      if expired.value.Some? {
        var _ := CheckpointCandidate(expired.value.value, turn.commit);
        return;
      }
      if !visible && (machine.phase.NotifyChallenge? || machine.phase.PollAuthorization?) {
        RestorePublication(turn);
        return;
      }
      if !Retiring(machine.phase) && machine.pollNotBefore.Some? && turn.now < machine.pollNotBefore.value {
        return;
      }
      ExecuteCurrentAction(turn);
    }
  }

  lemma RequestHasRevision(env: Env, m: Machine, context: P.RequestContext, challengeExpiresAt: I64)
    requires WorkerRequest(env, m, context, challengeExpiresAt).Some?
    ensures WorkerRequest(env, m, context, challengeExpiresAt).value.context.expectedRevision.Some?
  {
    hide PayloadFor, P.Rebuild;
  }
}
