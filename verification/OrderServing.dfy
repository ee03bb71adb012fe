/**
 * Which processes serve an order's challenges. A handover does not reach back into the process the
 * order leaves, so a record there lives on until that process restarts or the order cleans it up
 * there; this module says exactly when one is served.
 */
module OrderServing {
  import opened Basics
  import opened Wire
  import opened OrderMachine
  import opened Checkpoint
  import opened OrderSystem
  import opened OrderCluster
  import CP = ChallengePayload
  import P = Publication
  import H = Http01

  // ---------------------------------------------------------------- what one worker step does to a token

  /** The step gets past its guards and its preparatory duties. */
  predicate Acts(env: Env, w: World, turn: Turn) {
    && turn.now >= 0 && turn.context.expectedRevision == Some(env.revision)
    && turn.context.deadline > turn.now && turn.challengeExpiresAt > turn.now
    && Prepare(env, w, turn).None? && Elapse(env, w, turn).None?
  }

  predicate Waits(w: World, turn: Turn) {
    !Retiring(w.local.phase) && w.local.pollNotBefore.Some? && turn.now < w.local.pollNotBefore.value
  }

  /** The step calls the publisher, to publish or to restore. */
  predicate CallsPublisher(env: Env, w: World, turn: Turn) {
    && Acts(env, w, turn)
    && if Restore(env, w, turn).Some? then
         && w.local.publication.Retained? && w.local.publicationDigest.Some?
         && ExpectedDigest(env, w.local.publication.publication, turn.context) == w.local.publicationDigest
       else !Waits(w, turn) && w.local.phase.PublishChallenge?
  }

  predicate CallsCleaner(env: Env, w: World, turn: Turn) {
    && Acts(env, w, turn) && Restore(env, w, turn).None? && !Waits(w, turn)
    && (w.local.phase.CleanupChallenge? || w.local.phase.RetireChallenge?)
  }

  function Asked(env: Env, w: World, turn: Turn): Option<P.ChallengeRequest> {
    WorkerRequest(env, w.local, turn.context, turn.challengeExpiresAt)
  }

  /** The step publishes under `token`, and the catalogue accepts. */
  predicate Publishes(env: Env, w: World, turn: Turn, token: Text) {
    && CallsPublisher(env, w, turn)
    && Asked(env, w, turn).Some?
    && var r := Asked(env, w, turn).value;
       && r.expiresAt > r.context.deadline
       && H.Cleanable(r) && H.TokenOf(r) == token
       && H.Publish(env.sha, turn.active, w.records, r).1.Ok?
  }

  /** The step cleans up `token`, and the catalogue agrees. */
  predicate Cleans(env: Env, w: World, turn: Turn, token: Text) {
    && CallsCleaner(env, w, turn)
    && Asked(env, w, turn).Some? && w.local.publicationDigest.Some?
    && var r := Asked(env, w, turn).value;
       && H.Cleanable(r) && H.TokenOf(r) == token
       && CleanupCall(env, w, turn).1
  }

  lemma WorkCalls(env: Env, w: World, turn: Turn)
    ensures Work(env, w, turn).records ==
            if CallsPublisher(env, w, turn) then PublishCall(env, w, turn).0
            else if CallsCleaner(env, w, turn) then CleanupCall(env, w, turn).0
            else w.records
  {
    hide PublishCall, CleanupCall, BuildRequest, P.Capture, RetainPublication, ExpectedDigest, ExpirePublication,
         Checkpointable, AdvanceWithRetry;
  }

  lemma PublishCallHolds(env: Env, w: World, turn: Turn, token: Text)
    requires CallsPublisher(env, w, turn)
    ensures var records := PublishCall(env, w, turn).0;
            && (token in records <==> Publishes(env, w, turn, token) || token in w.records)
            && (Publishes(env, w, turn, token) ==>
                  token in records && records[token] == H.RecordFor(env.sha, Asked(env, w, turn).value))
            && (!Publishes(env, w, turn, token) && token in records ==> records[token] == w.records[token])
  {
    hide CallsPublisher, WorkerRequest, H.RecordFor, CP.DecodeHttp, P.ValidateCleanupRequest;
  }

  lemma CleanupCallHolds(env: Env, w: World, turn: Turn, token: Text)
    requires CallsCleaner(env, w, turn)
    ensures var records := CleanupCall(env, w, turn).0;
            && (token in records <==> token in w.records && !Cleans(env, w, turn, token))
            && (token in records ==> records[token] == w.records[token])
  {
    hide CallsCleaner, WorkerRequest, H.RecordFor, CP.DecodeHttp, P.ValidateCleanupRequest;
  }

  /** After a step a token is held exactly if the step published it, or it was held and not cleaned. */
  lemma WorkHolds(env: Env, w: World, turn: Turn, token: Text)
    ensures var records := Work(env, w, turn).records;
            && (token in records <==>
                Publishes(env, w, turn, token) || (token in w.records && !Cleans(env, w, turn, token)))
            && (Publishes(env, w, turn, token) ==>
                  token in records && records[token] == H.RecordFor(env.sha, Asked(env, w, turn).value))
            && (!Publishes(env, w, turn, token) && token in records ==> records[token] == w.records[token])
  {
    hide Work, PublishCall, CleanupCall, H.RecordFor, CallsPublisher, CallsCleaner;
    WorkCalls(env, w, turn);
    if CallsPublisher(env, w, turn) {
      PublisherIsNoCleaner(env, w, turn);
      PublishCallHolds(env, w, turn, token);
    } else if CallsCleaner(env, w, turn) {
      CleanupCallHolds(env, w, turn, token);
    }
  }

  lemma PublisherIsNoCleaner(env: Env, w: World, turn: Turn)
    requires CallsPublisher(env, w, turn)
    ensures !CallsCleaner(env, w, turn)
  {
    hide Acts, ExpectedDigest;
  }

  /** Every request the worker makes proves possession of the account key for its token. */
  lemma RequestProves(env: Env, m: Machine, context: P.RequestContext, challengeExpiresAt: I64)
    requires WorkerRequest(env, m, context, challengeExpiresAt).Some?
    requires H.Cleanable(WorkerRequest(env, m, context, challengeExpiresAt).value)
    ensures var r := WorkerRequest(env, m, context, challengeExpiresAt).value;
            var token := H.TokenOf(r);
            CP.DecodeHttp(r.challenge) == Ok(CP.Http01Payload(token, KeyAuthorization(env, token)))
  {
    hide CP.DecodeHttp, CP.EncodeHttp, CP.EncodeDns, CP.ConstructibleHttp, P.Rebuild, P.ValidateCleanupRequest;
    var r := WorkerRequest(env, m, context, challengeExpiresAt).value;
    CleanableIsHttp(r);
    var token := m.challenge.value.token;
    CP.HttpPayloadBijection(CP.Http01Payload(token, KeyAuthorization(env, token)), r.challenge);
  }

  // ---------------------------------------------------------------- what a move does to a token of a process

  predicate PublishedBy(env: Env, c: Cluster, move: Move, q: Process, token: Text) {
    move.WorkMove? && c.home == q && Publishes(Stay(env, c), Here(c), move.turn, token)
  }

  predicate CleanedBy(env: Env, c: Cluster, move: Move, q: Process, token: Text) {
    move.WorkMove? && c.home == q && Cleans(Stay(env, c), Here(c), move.turn, token)
  }

  predicate RestartedBy(c: Cluster, move: Move, q: Process) {
    || (move.Restarted? && move.process == q && q != c.home)
    || (move.Replace? && move.process == q && move.restarted && ResumeUnderFence(c.durable, move.epoch).result.Ok?)
  }

  /** The request of a publishing move. */
  function RequestBy(env: Env, c: Cluster, move: Move, q: Process, token: Text): P.ChallengeRequest
    requires PublishedBy(env, c, move, q, token)
  {
    Asked(Stay(env, c), Here(c), move.turn).value
  }

  /** The record a publishing move leaves serves the key authorization until the request expires. */
  lemma PublishedRecord(env: Env, c: Cluster, move: Move, q: Process, token: Text, now: I64)
    requires PublishedBy(env, c, move, q, token)
    ensures var r := RequestBy(env, c, move, q, token);
            && H.Cleanable(r)
            && H.Response(map[token := H.RecordFor(env.sha, r)], token, now) ==
               if now < r.expiresAt then Some(KeyAuthorization(env, token)) else None
  {
    hide CallsPublisher, WorkerRequest, P.ValidateCleanupRequest, H.Publish, H.ReceiptFor;
    RequestProves(Stay(env, c), c.local, move.turn.context, move.turn.challengeExpiresAt);
    ServableToken(RequestBy(env, c, move, q, token));
  }

  lemma ServableToken(r: P.ChallengeRequest)
    requires H.Cleanable(r)
    ensures CP.ValidToken(H.TokenOf(r))
  {}

  /** The process holds exactly the record that the request stands for. */
  predicate Holds(env: Env, c: Cluster, q: Process, token: Text, r: P.ChallengeRequest) {
    token in Shelf(c, q) && H.Cleanable(r) && Shelf(c, q)[token] == H.RecordFor(env.sha, r)
  }

  /** A token is held after a move if the move published it, or it was held and the move did not end it. */
  predicate HeldAfter(env: Env, c: Cluster, move: Move, d: Cluster, q: Process, token: Text) {
    && (token in Shelf(d, q) <==>
        || PublishedBy(env, c, move, q, token)
        || (token in Shelf(c, q) && !CleanedBy(env, c, move, q, token) && !RestartedBy(c, move, q)))
    && (PublishedBy(env, c, move, q, token) ==> Holds(env, d, q, token, RequestBy(env, c, move, q, token)))
    && (!PublishedBy(env, c, move, q, token) && token in Shelf(d, q) ==>
          token in Shelf(c, q) && Shelf(d, q)[token] == Shelf(c, q)[token])
  }

  lemma StepHolds(env: Env, c: Cluster, move: Move, q: Process, token: Text)
    requires SafeCluster(env, c) && Possible(env, c, move) && token in env.own
    ensures HeldAfter(env, c, move, Next(env, c, move), q, token)
  {
    hide Safe, Work, Publishes, Cleans, H.Apply, H.RecordFor, H.WellFormed, H.Targets, OrderSystem.Allowed,
         ResumeUnderFence, WorkerRequest;
    match move
    case WorkMove(turn) =>
      WorkHolds(Stay(env, c), Here(c), turn, token);
      if PublishedBy(env, c, move, q, token) {
        PublishedRecord(env, c, move, q, token, 0);
      }
    case Elsewhere(process, step) =>
      EmptyCatalogue();
      ElsewhereKeeps(env, Shelf(c, process), step, token);
    case _ =>
  }

  // ---------------------------------------------------------------- over whole runs

  predicate PublishedAt(env: Env, c: Cluster, moves: seq<Move>, i: nat, q: Process, token: Text)
    requires i < |moves|
  {
    PublishedBy(env, Reach(env, c, moves[..i]), moves[i], q, token)
  }

  /** The move ends whatever publication of the token the process held. */
  predicate EndedAt(env: Env, c: Cluster, moves: seq<Move>, i: nat, q: Process, token: Text)
    requires i < |moves|
  {
    var before := Reach(env, c, moves[..i]);
    CleanedBy(env, before, moves[i], q, token) || RestartedBy(before, moves[i], q)
  }

  /** `i` is the latest publication of the token in the process, not cleaned there and not restarted since. */
  predicate Standing(env: Env, c: Cluster, moves: seq<Move>, i: nat, q: Process, token: Text) {
    && i < |moves| && PublishedAt(env, c, moves, i, q, token)
    && forall j :: i < j < |moves| ==>
                     !PublishedAt(env, c, moves, j, q, token) && !EndedAt(env, c, moves, j, q, token)
  }

  function RequestAt(env: Env, c: Cluster, moves: seq<Move>, i: nat, q: Process, token: Text): P.ChallengeRequest
    requires i < |moves| && PublishedAt(env, c, moves, i, q, token)
  {
    RequestBy(env, Reach(env, c, moves[..i]), moves[i], q, token)
  }

  lemma SamePrefix(env: Env, c: Cluster, moves: seq<Move>, i: nat, q: Process, token: Text)
    requires i + 1 < |moves|
    ensures var front := moves[..|moves| - 1];
            && PublishedAt(env, c, moves, i, q, token) == PublishedAt(env, c, front, i, q, token)
            && EndedAt(env, c, moves, i, q, token) == EndedAt(env, c, front, i, q, token)
            && (PublishedAt(env, c, moves, i, q, token) ==>
                  RequestAt(env, c, moves, i, q, token) == RequestAt(env, c, front, i, q, token))
  {
    hide PublishedBy, CleanedBy, RestartedBy, Reach, RequestBy;
    assert moves[..|moves| - 1][..i] == moves[..i];
  }

  /** What stands after a run stood before its last move, which did not end it. */
  lemma StandingBefore(env: Env, c: Cluster, moves: seq<Move>, i: nat, q: Process, token: Text)
    requires i + 1 < |moves| && Standing(env, c, moves, i, q, token)
    ensures var front, k := moves[..|moves| - 1], |moves| - 1;
            && Standing(env, c, front, i, q, token)
            && !PublishedAt(env, c, moves, k, q, token) && !EndedAt(env, c, moves, k, q, token)
  {
    hide PublishedAt, EndedAt;
    var front := moves[..|moves| - 1];
    forall j | i <= j < |front|
      ensures PublishedAt(env, c, moves, j, q, token) == PublishedAt(env, c, front, j, q, token)
      ensures EndedAt(env, c, moves, j, q, token) == EndedAt(env, c, front, j, q, token)
    {
      SamePrefix(env, c, moves, j, q, token);
    }
  }

  lemma StandingAfter(env: Env, c: Cluster, moves: seq<Move>, i: nat, q: Process, token: Text)
    requires moves != []
    requires var front, k := moves[..|moves| - 1], |moves| - 1;
             && Standing(env, c, front, i, q, token)
             && !PublishedAt(env, c, moves, k, q, token) && !EndedAt(env, c, moves, k, q, token)
    ensures Standing(env, c, moves, i, q, token)
  {
    hide PublishedAt, EndedAt;
    var front := moves[..|moves| - 1];
    forall j | i <= j < |front|
      ensures PublishedAt(env, c, moves, j, q, token) == PublishedAt(env, c, front, j, q, token)
      ensures EndedAt(env, c, moves, j, q, token) == EndedAt(env, c, front, j, q, token)
    {
      SamePrefix(env, c, moves, j, q, token);
    }
  }

  /** The last move of a run, as `StepHolds` describes it. */
  lemma LastHolds(env: Env, c: Cluster, moves: seq<Move>, q: Process, token: Text)
    requires moves != []
    requires Start(env, c) && PossibleRun(env, c, moves) && token in env.own
    ensures PossibleRun(env, c, moves[..|moves| - 1])
    ensures HeldAfter(env, Reach(env, c, moves[..|moves| - 1]), moves[|moves| - 1], Reach(env, c, moves), q, token)
  {
    hide Start, Next, Possible, SafeCluster, HeldAfter;
    PrefixPossible(env, c, moves);
    StartIsSafe(env, c);
    SystemIsSafe(env, c, moves[..|moves| - 1]);
    StepHolds(env, Reach(env, c, moves[..|moves| - 1]), moves[|moves| - 1], q, token);
  }

  lemma {:induction false} StandingHeld(env: Env, c: Cluster, moves: seq<Move>, i: nat, q: Process, token: Text)
    requires Start(env, c) && PossibleRun(env, c, moves) && token in env.own && Standing(env, c, moves, i, q, token)
    ensures Holds(env, Reach(env, c, moves), q, token, RequestAt(env, c, moves, i, q, token))
    decreases moves
  {
    hide Start, PossibleRun, PublishedBy, CleanedBy, RestartedBy, RequestBy, Reach, H.RecordFor, H.Cleanable;
    LastHolds(env, c, moves, q, token);
    if i + 1 < |moves| {
      StandingBefore(env, c, moves, i, q, token);
      SamePrefix(env, c, moves, i, q, token);
      StandingHeld(env, c, moves[..|moves| - 1], i, q, token);
    }
  }

  lemma {:induction false} HeldStands(env: Env, c: Cluster, moves: seq<Move>, q: Process, token: Text) returns (i: nat)
    requires Start(env, c) && PossibleRun(env, c, moves) && token in env.own
    requires token in Shelf(Reach(env, c, moves), q)
    ensures Standing(env, c, moves, i, q, token)
    decreases moves
  {
    hide Start, PossibleRun, PublishedBy, CleanedBy, RestartedBy, RequestBy, Holds, Next;
    if moves == [] {
      NothingThere(env, c, q, token);
      assert false;
    }
    LastHolds(env, c, moves, q, token);
    var k := |moves| - 1;
    if PublishedAt(env, c, moves, k, q, token) {
      i := k;
    } else {
      i := HeldStands(env, c, moves[..k], q, token);
      StandingAfter(env, c, moves, i, q, token);
    }
  }

  lemma NothingThere(env: Env, c: Cluster, q: Process, token: Text)
    requires Start(env, c) && token in env.own
    ensures token !in Shelf(c, q)
  {
    hide Checkpointable;
  }

  lemma StandingInside(env: Env, c: Cluster, moves: seq<Move>, i: nat, q: Process, token: Text)
    requires Standing(env, c, moves, i, q, token)
    ensures i < |moves| && PublishedAt(env, c, moves, i, q, token)
  {}

  /**
   * Over every run: a process serves a token of the order, with its key authorization, if and only
   * if the order published it there, neither cleaned it up there nor saw that process restart
   * since, and the publication has not expired. Where the order has gone meanwhile, and how far
   * its checkpoint has come, plays no part.
   */
  lemma ServedIff(env: Env, c: Cluster, moves: seq<Move>, q: Process, token: Text, now: I64)
    requires Start(env, c) && PossibleRun(env, c, moves) && token in env.own
    ensures var served := H.Response(Shelf(Reach(env, c, moves), q), token, now);
            && (served.Some? <==>
                exists i: nat :: Standing(env, c, moves, i, q, token)
                                 && now < RequestAt(env, c, moves, i, q, token).expiresAt)
            && (served.Some? ==> served == Some(KeyAuthorization(env, token)))
  {
    hide Start, PossibleRun, PublishedAt, EndedAt, RequestAt, Reach, Standing, H.Response;
    var end := Reach(env, c, moves);
    forall i: nat | Standing(env, c, moves, i, q, token)
      ensures i < |moves| && PublishedAt(env, c, moves, i, q, token)
      ensures H.Response(Shelf(end, q), token, now) ==
              if now < RequestAt(env, c, moves, i, q, token).expiresAt then Some(KeyAuthorization(env, token)) else None
    {
      StandingInside(env, c, moves, i, q, token);
      StandingServes(env, c, moves, i, q, token, now);
    }
    if H.Response(Shelf(end, q), token, now).Some? {
      ServedIsHeld(Shelf(end, q), token, now);
      var i := HeldStands(env, c, moves, q, token);
    }
  }

  lemma ServedIsHeld(records: H.Catalogue, token: Text, now: I64)
    requires H.Response(records, token, now).Some?
    ensures token in records
  {}

  lemma StandingServes(env: Env, c: Cluster, moves: seq<Move>, i: nat, q: Process, token: Text, now: I64)
    requires Start(env, c) && PossibleRun(env, c, moves) && token in env.own && Standing(env, c, moves, i, q, token)
    ensures H.Response(Shelf(Reach(env, c, moves), q), token, now) ==
            if now < RequestAt(env, c, moves, i, q, token).expiresAt then Some(KeyAuthorization(env, token)) else None
  {
    hide Start, PossibleRun, PublishedBy, EndedAt, RequestBy, Reach, H.RecordFor, H.Cleanable, CP.ValidToken;
    StandingHeld(env, c, moves, i, q, token);
    PublishedRecord(env, Reach(env, c, moves[..i]), moves[i], q, token, now);
  }
}
