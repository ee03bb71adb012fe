/**
 * A manual DNS-01 order: the order machine, its durable checkpoint and the table of operator tasks,
 * under workers that may perform the duties of a step in any order, lose commits and be replaced.
 */
module ManualOrder {
  import opened Basics
  import opened Wire
  import opened OrderMachine
  import opened Checkpoint
  import opened OrderRuns
  import opened ManualDns
  import opened ManualDnsTasks
  import opened OrderSystem
  import CP = ChallengePayload
  import P = Publication
  import H = Http01

  datatype ManualWorld = ManualWorld(durable: Machine, local: Machine, rows: Rows)

  /** A change of the machine that is not an effect on the zone. */
  datatype Change =
    | Fed(event: OrderMachine.Event, receivedAt: I64, retry: Option<RetryAfter>)
    | Kept(publication: P.ChallengePublication)
    | Elapsed(now: I64, digest: Digest)

  /** What surrounds one adapter call: context, task environment, lifecycle, observation, fate. */
  datatype Circumstance = Circumstance(
    context: P.RequestContext, env: Environment, active: bool, seen: Result<bool, P.ContractError>, fate: Fate)

  datatype Act =
    | Propose(change: Change, commit: Commit)
    | PublishAct(at: Circumstance)
    | ProbeAct(at: Circumstance, receipt: H.Receipt)
    | CleanAct(at: Circumstance, receipt: H.Receipt, receivedAt: I64, commit: Commit)
    | Handover(epoch: U64)
    | OtherOrder(move: Move)

  /** The machine a change would lead to, if it is accepted. */
  function Candidate(m: Machine, change: Change): Option<Machine> {
    match change
    case Fed(event, receivedAt, retry) =>
      var t := AdvanceWithRetry(m, event, receivedAt, retry);
      if t.result.Ok? then Some(t.machine) else None
    case Kept(p) =>
      var t := RetainPublication(m, p);
      if t.result.Ok? then Some(t.machine) else None
    case Elapsed(now, digest) =>
      var (n, expired) := ExpirePublication(m, now, digest);
      if expired == Ok(true) then Some(n) else None
  }

  function Proposed(w: ManualWorld, candidate: Machine, commit: Commit): ManualWorld {
    if !Checkpointable(candidate) || candidate.phase.Complete? then w
    else
      match commit
      case Committed => w.(durable := candidate, local := candidate)
      case Lost(applied) => if applied then w.(durable := candidate) else w
  }

  /** The adapter call on the retained publication; nothing happens if it cannot be rebuilt. */
  function Called(sha: Hash, w: ManualWorld, at: Circumstance, call: P.ChallengeRequest -> Call)
    : (Rows, Option<Reply>)
    requires w.local.publication.Retained?
  {
    match P.Rebuild(w.local.publication.publication, at.context)
    case Err(_) => (w.rows, None)
    case Ok(r) =>
      var (rows, reply) := Perform(sha, at.active, w.rows, at.env, call(r), at.fate);
      (rows, if reply.Ok? then Some(reply.value) else None)
  }

  predicate Publishing(m: Machine) {
    m.publication.Retained? && (m.phase.PublishChallenge? || m.phase.NotifyChallenge? || m.phase.PollAuthorization?)
  }

  predicate Cleaning(m: Machine) {
    m.publication.Retained? && (m.phase.CleanupChallenge? || m.phase.RetireChallenge?)
  }

  function Next(sha: Hash, w: ManualWorld, act: Act): ManualWorld {
    match act
    case Propose(change, commit) =>
      (match Candidate(w.local, change)
       case Some(n) => Proposed(w, n, commit)
       case None => w)
    case PublishAct(at) =>
      if Publishing(w.local) then w.(rows := Called(sha, w, at, r => Publish(r)).0) else w
    case ProbeAct(at, receipt) =>
      if Publishing(w.local) then w.(rows := Called(sha, w, at, r => IsVisible(r, receipt, at.seen)).0) else w
    case CleanAct(at, receipt, receivedAt, commit) =>
      if Cleaning(w.local) then
        var (rows, reply) := Called(sha, w, at, r => Cleanup(r, receipt, at.seen));
        var after := w.(rows := rows);
        if reply == Some(CleanupComplete) then
          (match Candidate(w.local, Fed(ChallengeCleaned, receivedAt, None))
           case Some(n) => Proposed(after, n, commit)
           case None => after)
        else after
      else w
    case Handover(epoch) =>
      var t := ResumeUnderFence(w.durable, epoch);
      if t.result.Ok? then w.(local := t.machine) else w
    case OtherOrder(move) => w.(rows := Applied(sha, w.rows, move))
  }

  /** Tasks of the order carry its id; effects are reported by the adapter, and material comes first. */
  predicate Permitted(orderId: Text, w: ManualWorld, act: Act) {
    match act
    case Propose(change, _) =>
      change.Fed? ==>
        && WireEvent(change.event) && !change.event.ChallengeCleaned?
        && (change.event.ChallengePublished? ==> w.local.publication.Retained?)
    case PublishAct(at) => at.env.orderId == orderId
    case ProbeAct(at, _) => at.env.orderId == orderId
    case CleanAct(at, _, _, _) => at.env.orderId == orderId
    case Handover(_) => true
    case OtherOrder(move) => move.env.orderId != orderId
  }

  function Reach(sha: Hash, w: ManualWorld, acts: seq<Act>): ManualWorld
    decreases acts
  {
    if acts == [] then w else Next(sha, Reach(sha, w, acts[..|acts| - 1]), acts[|acts| - 1])
  }

  predicate PermittedRun(sha: Hash, orderId: Text, w: ManualWorld, acts: seq<Act>) {
    forall i :: 0 <= i < |acts| ==> Permitted(orderId, Reach(sha, w, acts[..i]), acts[i])
  }

  // ---------------------------------------------------------------- the task of a publication

  function Material(p: P.ChallengePublication): CP.VersionedPayload { CP.VersionedPayload(p.payloadVersion, p.payload) }

  /** The digest of the task that a publication stands for; the context of a request plays no part. */
  function TaskOf(sha: Hash, p: P.ChallengePublication): Option<Digest> {
    if p.expiresAt < 0 then None
    else
      match CP.DecodeDns(Material(p))
      case Err(_) => None
      case Ok(payload) =>
        Some(sha(Ascii("meshspan:manual-dns-task:v1") + p.identifier + payload.recordName + payload.recordValue
                 + BigEndian(p.expiresAt, 8) + BigEndian(p.orderEpoch, 8)))
  }

  /** Every open task of the order is the one of the publication. */
  predicate Covers(sha: Hash, orderId: Text, publication: PublicationState, rows: Rows) {
    forall d :: d in rows && rows[d].orderId == orderId && Unfinished(rows[d]) ==>
      publication.Retained? && TaskOf(sha, publication.publication) == Some(d)
  }

  /** The task of the publication is done with. */
  predicate Settled(sha: Hash, p: P.ChallengePublication, rows: Rows) {
    var task := TaskOf(sha, p);
    task.Some? ==> task.value in rows && rows[task.value].phase >= Code(ManualDns.Complete)
  }

  predicate Safe(sha: Hash, orderId: Text, w: ManualWorld) {
    && Checkpointable(w.local) && Checkpointable(w.durable) && ValidRows(w.rows)
    && !w.local.publication.Legacy? && !w.durable.publication.Legacy?
    && Covers(sha, orderId, w.local.publication, w.rows) && Covers(sha, orderId, w.durable.publication, w.rows)
    && (Publishing(w.local) ==> w.durable.publication == w.local.publication)
    && (w.local.publication.Retained? && w.durable.publication != w.local.publication ==>
          Settled(sha, w.local.publication.publication, w.rows))
  }

  // ---------------------------------------------------------------- what calls do to the tasks

  lemma RebuiltSends(sha: Hash, p: P.ChallengePublication, context: P.RequestContext, active: bool, call: Call)
    requires P.Rebuild(p, context) == Ok(call.request)
    ensures var sent := Sent(sha, active, call);
            sent.Ok? && sent.value.Some? ==> TaskOf(sha, p) == Some(sent.value.value.digest)
  {
    hide CP.DecodeDns, P.ValidIdentifier;
  }

  /** Between the two tables no task of the order was opened but possibly `own`. */
  predicate OpensOnly(rows: Rows, next: Rows, orderId: Text, own: Digest) {
    forall d :: d in next && next[d].orderId == orderId && Unfinished(next[d]) && d != own ==>
      d in rows && rows[d].orderId == orderId && Unfinished(rows[d])
  }

  /** An advance opens no task but its own, leaves a settled one alone, and settles it by completing it. */
  lemma AdvanceOpens(sha: Hash, rows: Rows, env: Environment, task: Task, fate: Fate, orderId: Text)
    requires ValidRows(rows)
    ensures var (next, outcome) := AdvanceTask(sha, rows, env, task, fate);
            && ValidRows(next) && OpensOnly(rows, next, orderId, task.digest)
            && (task.digest in rows && rows[task.digest].phase >= 4 ==> next == rows)
            && (outcome.Ok? && task.phase == ManualDns.Complete ==>
                  task.digest in next && next[task.digest].phase >= 4)
  {
    hide ValidRows, ManualDnsTasks.Commit, OpensOnly, Extends, TransitionSatisfied;
    TableMeetsContract(sha, rows, env, task, fate);
    SameOpens(rows, orderId, task.digest);
    if ManualDnsTasks.Commit(sha, rows, env, task).Ok? {
      CommitMoves(sha, rows, env, task);
      MovedOpens(rows, ManualDnsTasks.Commit(sha, rows, env, task).value, task, orderId);
    }
    if task.digest in rows && rows[task.digest].phase >= 4 {
      DoneIsLeft(sha, rows, env, task);
    }
  }

  lemma SameOpens(rows: Rows, orderId: Text, own: Digest)
    ensures OpensOnly(rows, rows, orderId, own)
  {}

  lemma MovedOpens(rows: Rows, next: Rows, task: Task, orderId: Text)
    requires ValidRows(rows) && MovedTo(rows, next, task)
    ensures OpensOnly(rows, next, orderId, task.digest)
  {
    forall d | d in next && next[d].orderId == orderId && Unfinished(next[d]) && d != task.digest
      ensures d in rows && rows[d].orderId == orderId && Unfinished(rows[d])
    {
      assert Follows(rows[d], next[d]);
    }
  }

  lemma DoneIsLeft(sha: Hash, rows: Rows, env: Environment, task: Task)
    requires task.digest in rows && rows[task.digest].phase >= 4
    ensures TransitionSatisfied(sha, rows, env, task) != Ok(false)
  {
    hide RetainedEpoch, ValidateLiveClaim;
  }

  lemma CoversKept(sha: Hash, orderId: Text, p: P.ChallengePublication, rows: Rows, next: Rows, own: Digest)
    requires Covers(sha, orderId, Retained(p), rows) && OpensOnly(rows, next, orderId, own)
    requires TaskOf(sha, p) == Some(own)
    ensures Covers(sha, orderId, Retained(p), next)
  {
    hide TaskOf;
  }

  lemma NoneOpen(sha: Hash, orderId: Text, p: P.ChallengePublication, rows: Rows, publication: PublicationState)
    requires Covers(sha, orderId, Retained(p), rows) && Settled(sha, p, rows)
    ensures Covers(sha, orderId, publication, rows)
  {
    hide TaskOf;
  }

  lemma CallOpens(sha: Hash, orderId: Text, p: P.ChallengePublication, rows: Rows, at: Circumstance, call: Call)
    requires ValidRows(rows) && P.Rebuild(p, at.context) == Ok(call.request)
    requires Covers(sha, orderId, Retained(p), rows)
    ensures var (next, reply) := Perform(sha, at.active, rows, at.env, call, at.fate);
            && ValidRows(next) && Covers(sha, orderId, Retained(p), next)
            && (Settled(sha, p, rows) ==> next == rows)
            && (reply == Ok(CleanupComplete) ==> Settled(sha, p, next))
  {
    hide AdvanceTask, ValidRows, TaskOf, Sent, Covers, OpensOnly, ReplyTo, P.Rebuild;
    RebuiltSends(sha, p, at.context, at.active, call);
    var sent := Sent(sha, at.active, call);
    if sent.Ok? && sent.value.Some? {
      var task := sent.value.value;
      AdvanceOpens(sha, rows, at.env, task, at.fate, orderId);
      CoversKept(sha, orderId, p, rows, AdvanceTask(sha, rows, at.env, task, at.fate).0, task.digest);
      CompletesAsAsked(sha, at.active, call);
    } else if sent.Ok? {
      NothingSentIsNoCleanup(sha, at.active, call);
    }
  }

  lemma NothingSentIsNoCleanup(sha: Hash, active: bool, call: Call)
    requires Sent(sha, active, call) == Ok(None)
    ensures ReplyTo(sha, active, call) != CleanupComplete
  {
    hide Checked;
  }

  lemma CompletesAsAsked(sha: Hash, active: bool, call: Call)
    requires Sent(sha, active, call).Ok? && Sent(sha, active, call).value.Some?
    ensures ReplyTo(sha, active, call) == CleanupComplete ==>
              Sent(sha, active, call).value.value.phase == ManualDns.Complete
  {
    hide Checked;
  }

  // ---------------------------------------------------------------- what acts keep

  /** An accepted change keeps retained material, and brings none in but by retaining it. */
  lemma CandidateMaterial(m: Machine, change: Change)
    requires Checkpointable(m) && !m.publication.Legacy? && Candidate(m, change).Some?
    requires change.Fed? ==>
               && WireEvent(change.event) && !change.event.ChallengeCleaned?
               && (change.event.ChallengePublished? ==> m.publication.Retained?)
    ensures var n := Candidate(m, change).value;
            && !n.publication.Legacy?
            && (m.publication.Retained? ==> n.publication == m.publication)
  {
    hide Checkpointable, Coherent, Core, React, WireEvent, ValidatePublicationMaterial;
    CheckpointableIffCoherent(m);
    CoherentCore(m);
    if change.Fed? && change.receivedAt >= 0 {
      ReactMaterial(m, change.event);
    }
  }

  lemma ProposeSafe(sha: Hash, orderId: Text, w: ManualWorld, change: Change, commit: Commit)
    requires Safe(sha, orderId, w) && Permitted(orderId, w, Propose(change, commit))
    ensures Safe(sha, orderId, Next(sha, w, Propose(change, commit)))
  {
    hide Checkpointable, Covers, Settled, ValidRows, WireEvent, Candidate;
    if Candidate(w.local, change).Some? {
      CandidateMaterial(w.local, change);
      if !w.local.publication.Retained? {
        Uncovered(sha, orderId, w.local.publication, w.rows, Candidate(w.local, change).value.publication);
      }
    }
  }

  /** With nothing retained no task of the order is open, so any publication covers the table. */
  lemma Uncovered(sha: Hash, orderId: Text, publication: PublicationState, rows: Rows, other: PublicationState)
    requires Covers(sha, orderId, publication, rows) && !publication.Retained?
    ensures Covers(sha, orderId, other, rows)
  {}

  lemma CalledSafe(sha: Hash, orderId: Text, w: ManualWorld, at: Circumstance, call: P.ChallengeRequest -> Call)
    requires Safe(sha, orderId, w) && w.local.publication.Retained?
    requires forall r :: call(r).request == r
    ensures var (rows, reply) := Called(sha, w, at, call);
            && Safe(sha, orderId, w.(rows := rows))
            && (reply == Some(CleanupComplete) ==> Settled(sha, w.local.publication.publication, rows))
  {
    hide Checkpointable, Covers, Settled, ValidRows, Perform;
    var p := w.local.publication.publication;
    var rebuilt := P.Rebuild(p, at.context);
    if rebuilt.Ok? {
      CallOpens(sha, orderId, p, w.rows, at, call(rebuilt.value));
    }
  }

  lemma CleanSafe(sha: Hash, orderId: Text, w: ManualWorld, act: Act)
    requires Safe(sha, orderId, w) && act.CleanAct?
    ensures Safe(sha, orderId, Next(sha, w, act))
  {
    hide Checkpointable, Covers, Settled, ValidRows, Called, Candidate, Safe;
    if Cleaning(w.local) {
      var call := r => Cleanup(r, act.receipt, act.at.seen);
      CalledSafe(sha, orderId, w, act.at, call);
      var (rows, reply) := Called(sha, w, act.at, call);
      var after := w.(rows := rows);
      var n := Candidate(w.local, Fed(ChallengeCleaned, act.receivedAt, None));
      if reply == Some(CleanupComplete) && n.Some? {
        CleanedMaterial(sha, orderId, w, act.receivedAt);
        SettledSafe(sha, orderId, after, n.value, act.commit);
      }
    }
  }

  lemma CleanedMaterial(sha: Hash, orderId: Text, w: ManualWorld, receivedAt: I64)
    requires Safe(sha, orderId, w) && Candidate(w.local, Fed(ChallengeCleaned, receivedAt, None)).Some?
    ensures Candidate(w.local, Fed(ChallengeCleaned, receivedAt, None)).value.publication.Unprepared?
  {
    hide Checkpointable, Coherent, Core, React, Covers, Settled, ValidRows;
    CheckpointableIffCoherent(w.local);
    CoherentCore(w.local);
    ReactMaterial(w.local, ChallengeCleaned);
  }

  lemma SettledSafe(sha: Hash, orderId: Text, w: ManualWorld, n: Machine, commit: Commit)
    requires Safe(sha, orderId, w) && Cleaning(w.local) && n.publication.Unprepared?
    requires Settled(sha, w.local.publication.publication, w.rows)
    ensures Safe(sha, orderId, Proposed(w, n, commit))
  {
    hide Checkpointable, Covers, Settled, ValidRows;
    NoneOpen(sha, orderId, w.local.publication.publication, w.rows, n.publication);
  }

  /** Commits of other orders touch no task of this one, and no task ever goes back. */
  lemma OtherOrderKeeps(sha: Hash, orderId: Text, rows: Rows, move: Move)
    requires ValidRows(rows) && move.env.orderId != orderId
    ensures var next := Applied(sha, rows, move);
            && ValidRows(next)
            && (forall d :: d in next && next[d].orderId == orderId ==> d in rows && next[d] == rows[d])
            && (forall d :: d in rows ==> d in next && rows[d].phase <= next[d].phase)
  {
    hide RetainedEpoch, ValidateLiveClaim, ValidRows;
    if ManualDnsTasks.Commit(sha, rows, move.env, move.task).Ok? {
      CommitMoves(sha, rows, move.env, move.task);
      MovedViews(rows, Applied(sha, rows, move), move.task);
    }
  }

  lemma OtherOrderSafe(sha: Hash, orderId: Text, w: ManualWorld, move: Move)
    requires Safe(sha, orderId, w) && move.env.orderId != orderId
    ensures Safe(sha, orderId, w.(rows := Applied(sha, w.rows, move)))
  {
    hide Checkpointable, Applied, TaskOf, ValidRows;
    OtherOrderKeeps(sha, orderId, w.rows, move);
  }

  lemma HandoverSafe(sha: Hash, orderId: Text, w: ManualWorld, epoch: U64)
    requires Safe(sha, orderId, w)
    ensures Safe(sha, orderId, Next(sha, w, Handover(epoch)))
  {
    hide Checkpointable, Coherent, Covers, Settled, ValidRows, ActionFor;
    if ResumeUnderFence(w.durable, epoch).result.Ok? {
      CheckpointableIffCoherent(w.durable);
      ResumeKeepsCoherent(w.durable, epoch);
      CheckpointableIffCoherent(ResumeUnderFence(w.durable, epoch).machine);
    }
  }

  lemma NextSafe(sha: Hash, orderId: Text, w: ManualWorld, act: Act)
    requires Safe(sha, orderId, w) && Permitted(orderId, w, act)
    ensures Safe(sha, orderId, Next(sha, w, act))
  {
    hide Safe, Called, Candidate, Proposed, WireEvent, Applied;
    match act
    case Propose(change, commit) => ProposeSafe(sha, orderId, w, change, commit);
    case PublishAct(at) =>
      if Publishing(w.local) {
        CalledSafe(sha, orderId, w, at, r => Publish(r));
      }
    case ProbeAct(at, receipt) =>
      if Publishing(w.local) {
        CalledSafe(sha, orderId, w, at, r => IsVisible(r, receipt, at.seen));
      }
    case CleanAct(_, _, _, _) => CleanSafe(sha, orderId, w, act);
    case Handover(epoch) => HandoverSafe(sha, orderId, w, epoch);
    case OtherOrder(move) => OtherOrderSafe(sha, orderId, w, move);
  }

  lemma {:induction false} ManualOrderIsSafe(sha: Hash, orderId: Text, w: ManualWorld, acts: seq<Act>)
    requires Safe(sha, orderId, w) && PermittedRun(sha, orderId, w, acts)
    ensures Safe(sha, orderId, Reach(sha, w, acts))
    decreases acts
  {
    hide Safe, Next, Permitted;
    if acts != [] {
      var front := acts[..|acts| - 1];
      assert forall i :: 0 <= i < |front| ==> front[..i] == acts[..i] && front[i] == acts[i];
      ManualOrderIsSafe(sha, orderId, w, front);
      NextSafe(sha, orderId, Reach(sha, w, front), acts[|acts| - 1]);
    }
  }

  /** A new order without unfinished tasks, over any table. */
  predicate Start(orderId: Text, w: ManualWorld) {
    && w.local == w.durable && Checkpointable(w.local) && w.local.phase.DiscoverDirectory?
    && ValidRows(w.rows) && forall d :: d in w.rows && Unfinished(w.rows[d]) ==> w.rows[d].orderId != orderId
  }

  /**
   * Whatever commits are lost and however often the order is handed over, in any process: every task
   * of the order that is still open for the operator is the one of the publication in the durable
   * checkpoint, so none is open once that checkpoint is past its challenges.
   */
  lemma NoTaskLeftOpen(sha: Hash, orderId: Text, w: ManualWorld, acts: seq<Act>, d: Digest)
    requires Start(orderId, w) && PermittedRun(sha, orderId, w, acts)
    requires d in Reach(sha, w, acts).rows && Reach(sha, w, acts).rows[d].orderId == orderId
    requires Unfinished(Reach(sha, w, acts).rows[d])
    ensures var end := Reach(sha, w, acts);
            && HasChallengePhase(end.durable.phase)
            && end.durable.publication.Retained? && TaskOf(sha, end.durable.publication.publication) == Some(d)
  {
    hide Checkpointable, Reach, PermittedRun, TaskOf, ValidRows, Coherent, Settled;
    StartIsSafe(sha, orderId, w);
    ManualOrderIsSafe(sha, orderId, w, acts);
    CheckpointableIffCoherent(Reach(sha, w, acts).durable);
    RetainedWithChallenge(Reach(sha, w, acts).durable);
  }

  lemma StartIsSafe(sha: Hash, orderId: Text, w: ManualWorld)
    requires Start(orderId, w)
    ensures Safe(sha, orderId, w)
  {
    hide Checkpointable, Coherent, TaskOf;
    CheckpointableIffCoherent(w.local);
    if HasChallengePhase(w.local.phase) || !w.local.publication.Unprepared? {
      RetainedWithChallenge(w.local);
      assert false;
    }
  }

  lemma RetainedWithChallenge(m: Machine)
    requires Coherent(m)
    ensures !m.publication.Unprepared? ==> HasChallengePhase(m.phase)
  {
    hide Identified, Present, RemoteSound, OrderSound, AuthorizationSound, ChallengeSound, ResultsSound, ProgressSound,
         ScheduleSound, P.MatchesIdentity;
  }
}
