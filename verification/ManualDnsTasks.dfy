/** The durable table of manual DNS tasks behind the order claims, and the adapter on top of it. */
module ManualDnsTasks {
  import opened Basics
  import opened ChallengePayload
  import opened Publication
  import opened ManualDns
  import Http01

  const MAXIMUM_MANUAL_DNS_VALUE_BYTES := 512

  datatype Claim = Claim(generation: U64, workerNode: Text, workerIncarnation: U64, fence: U64)

  datatype Row = Row(
    orderId: Text, claim: Claim, recordName: Text, recordValue: Text, expiresAt: I64, phase: nat)

  type Rows = map<Digest, Row>

  datatype RepositoryError = InvalidCommand | CorruptState | CapacityExceeded

  /**
   * What one advance finds around it: the caller's order and claim, whether the database agrees that
   * the claim is the live one of a manual DNS-01 order, the time, and the order's checkpoint.
   */
  datatype Environment = Environment(
    orderId: Text, claim: Claim, live: bool, now: I64,
    publication: Option<ChallengePublication>, configurationRevision: U64, retiring: bool)

  predicate ValidRows(rows: Rows) {
    forall d :: d in rows ==> 1 <= rows[d].phase <= SUPERSEDED
  }

  function ViewOf(rows: Rows): View {
    map d | d in rows :: Progress(rows[d].recordName, rows[d].recordValue, rows[d].expiresAt, rows[d].phase)
  }

  // ---------------------------------------------------------------- specification of one transition

  predicate ValidShape(env: Environment, task: Task) {
    && env.now >= 0
    && !IsZero(task.digest)
    && env.claim.fence != 0 && env.claim.generation != 0 && env.claim.workerIncarnation != 0
    && task.expiresAt > 0
    && |task.recordValue| <= MAXIMUM_MANUAL_DNS_VALUE_BYTES
    && NewDns(task.recordName, task.recordValue).Ok?
  }

  /** The live claim, and time left for anything that still asks for publication. */
  function ValidateLiveClaim(env: Environment, task: Task): Result<(), RepositoryError> {
    if !ValidShape(env, task) then Err(InvalidCommand)
    else if env.claim.generation > I64_MAX || env.claim.workerIncarnation > I64_MAX
            || env.claim.fence > I64_MAX then Err(CapacityExceeded)
    else if !env.live then Err(InvalidCommand)
    else if Code(task.phase) <= Code(PublicationObserved) && task.expiresAt <= env.now then Err(InvalidCommand)
    else Ok(())
  }

  function HandoffContext(env: Environment): RequestContext {
    RequestContext(V1_0, env.orderId, 1, Some(env.configurationRevision))
  }

  /** The epoch of the publication in the checkpoint, which must be exactly the task being advanced. */
  function RetainedEpoch(sha: Hash, env: Environment, task: Task): Result<Option<U64>, RepositoryError> {
    if env.publication.None? then Ok(None)
    else if env.configurationRevision == 0 then Err(CorruptState)
    else
      match Rebuild(env.publication.value, HandoffContext(env))
      case Err(_) => Err(InvalidCommand)
      case Ok(r) =>
        match FromChallengeRequest(sha, r, AwaitingPublication)
        case Err(_) => Err(InvalidCommand)
        case Ok(retained) =>
          if retained.(orderEpoch := 0, phase := task.phase) == task.(orderEpoch := 0)
          then Ok(Some(retained.orderEpoch)) else Err(InvalidCommand)
  }

  predicate Loads(rows: Rows, env: Environment, task: Task, retained: bool) {
    && task.digest in rows
    && var row := rows[task.digest];
       && row.orderId == env.orderId
       && (row.claim == env.claim || retained)
       && row.recordName == task.recordName && row.recordValue == task.recordValue && row.expiresAt == task.expiresAt
  }

  /** A read-only check that the task already reached the requested phase. */
  function TransitionSatisfied(sha: Hash, rows: Rows, env: Environment, task: Task): Result<bool, RepositoryError> {
    var _ :- ValidateLiveClaim(env, task);
    var retained :- RetainedEpoch(sha, env, task);
    if task.orderEpoch != (if retained.Some? then retained.value else env.claim.fence) then Err(InvalidCommand)
    else if Loads(rows, env, task, retained.Some?) then
      if rows[task.digest].phase == SUPERSEDED then Err(InvalidCommand)
      else Ok(rows[task.digest].phase >= Code(task.phase))
    else if task.digest in rows then Err(InvalidCommand)
    else Ok(false)
  }

  predicate Unfinished(row: Row) { 1 <= row.phase <= Code(AwaitingRemoval) }

  function SupersedeOthers(rows: Rows, orderId: Text, fence: U64): Rows {
    map d | d in rows ::
      if rows[d].orderId == orderId && Unfinished(rows[d]) && rows[d].claim.fence != fence
      then rows[d].(phase := SUPERSEDED) else rows[d]
  }

  function CreateTask(rows: Rows, env: Environment, task: Task, retiring: bool): Result<Rows, RepositoryError> {
    if task.phase != AwaitingPublication && !(retiring && Code(task.phase) >= Code(AwaitingRemoval))
    then Err(InvalidCommand)
    else
      Ok(SupersedeOthers(rows, env.orderId, env.claim.fence)[task.digest :=
           Row(env.orderId, env.claim, task.recordName, task.recordValue, task.expiresAt, Code(task.phase))])
  }

  /**
   * Phases go forward one at a time, except that removal may skip the awaiting-removal phase and
   * that an order being retired may abandon a value nobody was seen to publish.
   */
  predicate Allowed(current: nat, requested: nat, retiring: bool) {
    || (current, requested) in {(1, 2), (2, 3), (2, 4), (3, 4)}
    || (retiring && (current, requested) in {(1, 3), (1, 4)})
  }

  function AdvanceExisting(rows: Rows, task: Task, retiring: bool): Result<Rows, RepositoryError>
    requires task.digest in rows
  {
    var current, requested := rows[task.digest].phase, Code(task.phase);
    if current == SUPERSEDED || !(1 <= current <= 4) then Err(InvalidCommand)
    else if requested <= current then Ok(rows)
    else if !Allowed(current, requested, retiring) then Err(InvalidCommand)
    else Ok(rows[task.digest := rows[task.digest].(phase := requested)])
  }

  function Commit(sha: Hash, rows: Rows, env: Environment, task: Task): Result<Rows, RepositoryError> {
    var _ :- ValidateLiveClaim(env, task);
    var retained :- RetainedEpoch(sha, env, task);
    var retiring := retained.Some? && env.retiring;
    if Loads(rows, env, task, retained.Some?) then AdvanceExisting(rows, task, retiring)
    else if task.digest in rows then Err(CorruptState)
    else CreateTask(rows, env, task, retiring)
  }

  function ReadError(e: RepositoryError): ContractError {
    if e == InvalidCommand then Stale else InternalContract
  }

  /** One call of the authority: the satisfied check first, then a commit whose reply may be lost. */
  function AdvanceTask(sha: Hash, rows: Rows, env: Environment, task: Task, fate: Fate): (Rows, Outcome) {
    if task.orderEpoch == 0 || IsZero(task.digest) then (rows, Err(Stale))
    else
      match TransitionSatisfied(sha, rows, env, task)
      case Err(e) => (rows, Err(ReadError(e)))
      case Ok(satisfied) =>
        if satisfied then (rows, Ok(()))
        else if fate.RequestLost? then (rows, Err(Unavailable))
        else
          match Commit(sha, rows, env, task)
          case Err(_) => (rows, Err(if fate.ReplyLost? then Unavailable else Conflict))
          case Ok(next) => (next, if fate.ReplyLost? then Err(Unavailable) else Ok(()))
  }

  /** A whole adapter call over this table. */
  function Perform(sha: Hash, active: bool, rows: Rows, env: Environment, call: Call, fate: Fate)
    : (Rows, Result<Reply, ContractError>)
  {
    match Sent(sha, active, call)
    case Err(e) => (rows, Err(e))
    case Ok(None) => (rows, Ok(ReplyTo(sha, active, call)))
    case Ok(Some(task)) =>
      var (next, outcome) := AdvanceTask(sha, rows, env, task, fate);
      (next, Answer(sha, active, call, outcome))
  }

  // ---------------------------------------------------------------- the table and the adapter as objects

  class TaskTable {
    var rows: Rows

    constructor ()
      ensures rows == map[]
    {
      rows := map[];
    }

    method Advance(sha: Hash, env: Environment, task: Task, fate: Fate) returns (outcome: Outcome)
      modifies this
      ensures (rows, outcome) == AdvanceTask(sha, old(rows), env, task, fate)
    {
      hide TransitionSatisfied, Commit;
      if task.orderEpoch == 0 || IsZero(task.digest) {
        return Err(Stale);
      }
      var satisfied := TransitionSatisfied(sha, rows, env, task);
      if satisfied.Err? {
        return Err(ReadError(satisfied.error));
      }
      if satisfied.value {
        return Ok(());
      }
      if fate.RequestLost? {
        return Err(Unavailable);
      }
      var committed := Commit(sha, rows, env, task);
      if committed.Ok? {
        rows := committed.value;
      }
      if fate.ReplyLost? {
        return Err(Unavailable);
      }
      return if committed.Ok? then Ok(()) else Err(Conflict);
    }
  }

  class ManualDns01Challenge {
    var active: bool
    const authority: TaskTable

    constructor (authority: TaskTable)
      ensures this.authority == authority && active
    {
      this.authority := authority;
      active := true;
    }

    method PublishTask(sha: Hash, env: Environment, r: ChallengeRequest, fate: Fate)
      returns (result: Result<Reply, ContractError>)
      modifies authority
      ensures (authority.rows, result) == Perform(sha, active, old(authority.rows), env, Publish(r), fate)
    {
      hide AdvanceTask, TaskDigest, ValidateRequest, DecodeDns;
      if !active {
        return Err(Unavailable);
      }
      var valid := ValidateRequest(r, Dns01);
      if valid.Err? {
        return Err(valid.error);
      }
      var payload := DecodeDns(r.challenge);
      if payload.Err? {
        return Err(InvalidInput);
      }
      ghost var checked := Checked(sha, active, Publish(r));
      assert checked == Ok(payload.value);
      ValidExpiry(r);
      var outcome := authority.Advance(sha, env, FromPayload(sha, r, payload.value, AwaitingPublication), fate);
      if outcome.Err? {
        return Err(outcome.error);
      }
      return Ok(Published(ReceiptFor(sha, r, payload.value)));
    }

    method Probe(sha: Hash, env: Environment, r: ChallengeRequest, receipt: Http01.Receipt,
                 seen: Result<bool, ContractError>, fate: Fate)
      returns (result: Result<Reply, ContractError>)
      modifies authority
      ensures (authority.rows, result) ==
              Perform(sha, active, old(authority.rows), env, IsVisible(r, receipt, seen), fate)
    {
      hide AdvanceTask, TaskDigest, ValidateRequest, DecodeDns;
      var valid := ValidateRequest(r, Dns01);
      if valid.Err? {
        return Err(valid.error);
      }
      var payload := DecodeDns(r.challenge);
      if payload.Err? {
        return Err(InvalidInput);
      }
      ValidExpiry(r);
      if receipt != ReceiptFor(sha, r, payload.value) {
        return Err(Stale);
      }
      ghost var checked := Checked(sha, active, IsVisible(r, receipt, seen));
      assert checked == Ok(payload.value);
      if seen.Err? {
        return Err(seen.error);
      }
      if seen.value {
        var outcome := authority.Advance(sha, env, FromPayload(sha, r, payload.value, PublicationObserved), fate);
        if outcome.Err? {
          return Err(outcome.error);
        }
      }
      return Ok(Visibility(seen.value));
    }

    method Retract(sha: Hash, env: Environment, r: ChallengeRequest, receipt: Http01.Receipt,
                   seen: Result<bool, ContractError>, fate: Fate)
      returns (result: Result<Reply, ContractError>)
      modifies authority
      ensures (authority.rows, result) ==
              Perform(sha, active, old(authority.rows), env, Cleanup(r, receipt, seen), fate)
    {
      hide AdvanceTask, TaskDigest, ValidateCleanupRequest, DecodeDns;
      var valid := ValidateCleanupRequest(r, Dns01);
      if valid.Err? {
        return Err(valid.error);
      }
      var payload := DecodeDns(r.challenge);
      if payload.Err? {
        return Err(InvalidInput);
      }
      CleanupExpiry(r);
      if receipt != ReceiptFor(sha, r, payload.value) {
        return Err(Stale);
      }
      ghost var checked := Checked(sha, active, Cleanup(r, receipt, seen));
      assert checked == Ok(payload.value);
      if seen.Err? {
        return Err(seen.error);
      }
      var phase := if seen.value then AwaitingRemoval else Complete;
      var outcome := authority.Advance(sha, env, FromPayload(sha, r, payload.value, phase), fate);
      if outcome.Err? {
        return Err(outcome.error);
      }
      return Ok(if seen.value then CleanupPending else CleanupComplete);
    }
  }

  lemma CleanupExpiry(r: ChallengeRequest)
    requires ValidateCleanupRequest(r, Dns01).Ok?
    ensures r.expiresAt > 0
  {}

  lemma ValidExpiry(r: ChallengeRequest)
    requires ValidateRequest(r, Dns01).Ok?
    ensures r.expiresAt > 0
  {}

  // ---------------------------------------------------------------- the table keeps the promise

  /** One row's history: same identity, same or later phase, completion final. */
  predicate Follows(row: Row, next: Row) {
    && next.(phase := 0) == row.(phase := 0)
    && row.phase <= next.phase <= SUPERSEDED
    && (row.phase == Code(Complete) ==> next.phase == Code(Complete))
  }

  predicate MovedTo(rows: Rows, next: Rows, task: Task) {
    && (forall d :: d in rows ==> d in next && Follows(rows[d], next[d]))
    && (forall d :: d in next && d !in rows ==> d == task.digest)
    && task.digest in next
    && var row := next[task.digest];
       && row.recordName == task.recordName && row.recordValue == task.recordValue && row.expiresAt == task.expiresAt
       && (task.digest in rows ==> rows[task.digest].phase <= 4)
       && row.phase == if task.digest in rows then Max(rows[task.digest].phase, Code(task.phase)) else Code(task.phase)
  }

  lemma MovedViews(rows: Rows, next: Rows, task: Task)
    requires ValidRows(rows) && MovedTo(rows, next, task)
    ensures ValidRows(next) && MeetsContract(ViewOf(rows), ViewOf(next), task, Ok(()))
  {
    hide Code;
    forall d | d in next
      ensures 1 <= next[d].phase <= SUPERSEDED
    {
      if d in rows {
        assert Follows(rows[d], next[d]);
      } else {
        CodeRange(task.phase);
      }
    }
    assert Code(Complete) == 4 by { CodeRange(Complete); }
    forall d | d in ViewOf(rows)
      ensures && d in ViewOf(next)
              && ViewOf(next)[d].(rank := 0) == ViewOf(rows)[d].(rank := 0)
              && ViewOf(rows)[d].rank <= ViewOf(next)[d].rank
              && (ViewOf(rows)[d].rank == Code(Complete) ==> ViewOf(next)[d].rank == Code(Complete))
    {
      assert Follows(rows[d], next[d]);
    }
  }

  lemma CodeRange(phase: Phase)
    ensures 1 <= Code(phase) <= Code(Complete) == 4
  {}

  lemma CreateMoves(rows: Rows, env: Environment, task: Task, retiring: bool)
    requires ValidRows(rows) && task.digest !in rows && CreateTask(rows, env, task, retiring).Ok?
    ensures MovedTo(rows, CreateTask(rows, env, task, retiring).value, task)
  {
    var next := CreateTask(rows, env, task, retiring).value;
    forall d | d in rows
      ensures d in next && Follows(rows[d], next[d])
    {
      assert next[d] == SupersedeOthers(rows, env.orderId, env.claim.fence)[d];
    }
  }

  lemma AdvanceMoves(rows: Rows, task: Task, retiring: bool)
    requires ValidRows(rows) && task.digest in rows && AdvanceExisting(rows, task, retiring).Ok?
    requires var row := rows[task.digest];
             row.recordName == task.recordName && row.recordValue == task.recordValue && row.expiresAt == task.expiresAt
    ensures MovedTo(rows, AdvanceExisting(rows, task, retiring).value, task)
  {
    var next := AdvanceExisting(rows, task, retiring).value;
    forall d | d in rows
      ensures d in next && Follows(rows[d], next[d])
    {
      if d != task.digest {
        assert next[d] == rows[d];
      }
    }
  }

  lemma CommitMoves(sha: Hash, rows: Rows, env: Environment, task: Task)
    requires ValidRows(rows) && Commit(sha, rows, env, task).Ok?
    ensures MovedTo(rows, Commit(sha, rows, env, task).value, task)
  {
    hide ValidateLiveClaim, RetainedEpoch, MovedTo, CreateTask, AdvanceExisting, ValidRows;
    var retiring := RetainedEpoch(sha, env, task).value.Some? && env.retiring;
    if task.digest in rows {
      AdvanceMoves(rows, task, retiring);
    } else {
      CreateMoves(rows, env, task, retiring);
    }
  }

  /** The table behind the order claims is an authority in the sense the adapter relies on. */
  lemma TableMeetsContract(sha: Hash, rows: Rows, env: Environment, task: Task, fate: Fate)
    requires ValidRows(rows)
    ensures var (next, outcome) := AdvanceTask(sha, rows, env, task, fate);
            ValidRows(next) && MeetsContract(ViewOf(rows), ViewOf(next), task, outcome)
  {
    hide ValidateLiveClaim, RetainedEpoch, Commit, Extends, ValidRows;
    SameExtends(ViewOf(rows));
    if Commit(sha, rows, env, task).Ok? {
      CommitMoves(sha, rows, env, task);
      MovedViews(rows, Commit(sha, rows, env, task).value, task);
    }
    InRange(rows, task.digest);
  }

  lemma InRange(rows: Rows, d: Digest)
    requires ValidRows(rows)
    ensures d in rows ==> 1 <= rows[d].phase <= SUPERSEDED
  {}

  /** So every adapter call over the table is one of the events whose runs keep all task phases. */
  lemma PerformIsAnEvent(sha: Hash, w: World, rows: Rows, env: Environment, call: Call, fate: Fate)
    requires ValidRows(rows) && w.tasks == ViewOf(rows) && Honest(sha, w, call)
    ensures var (next, result) := Perform(sha, w.active, rows, env, call, fate);
            && ValidRows(next)
            && exists outcome: Outcome ::
                 Possible(sha, w, Called(call, ViewOf(next), outcome)) && result == Answer(sha, w.active, call, outcome)
  {
    hide AdvanceTask, MeetsContract, Honest, ValidRows, ReplyTo, Checked, Requested;
    var sent := Sent(sha, w.active, call);
    var outcome: Outcome := Ok(());
    if sent.Ok? && sent.value.Some? {
      TableMeetsContract(sha, rows, env, sent.value.value, fate);
      outcome := AdvanceTask(sha, rows, env, sent.value.value, fate).1;
    }
    var (next, result) := Perform(sha, w.active, rows, env, call, fate);
    assert Possible(sha, w, Called(call, ViewOf(next), outcome)) && result == Answer(sha, w.active, call, outcome);
  }

  // ---------------------------------------------------------------- requests for a phase already passed

  /** The epoch a task must carry: that of the retained publication, or the caller's own fence. */
  predicate EpochFits(sha: Hash, env: Environment, task: Task) {
    var retained := RetainedEpoch(sha, env, task);
    retained.Ok? && task.orderEpoch == if retained.value.Some? then retained.value.value else env.claim.fence
  }

  predicate Handed(sha: Hash, env: Environment, task: Task) {
    var retained := RetainedEpoch(sha, env, task);
    retained.Ok? && retained.value.Some?
  }

  /** The caller holds the live claim and the epoch, and the row is its own or was handed to it. */
  predicate Entitled(sha: Hash, rows: Rows, env: Environment, task: Task) {
    && ValidateLiveClaim(env, task).Ok?
    && EpochFits(sha, env, task)
    && Loads(rows, env, task, Handed(sha, env, task))
  }

  /**
   * A request for a phase the task has already passed is never refused for that: it succeeds without
   * effect if and only if the caller is entitled to the task and the task is not superseded.
   */
  lemma PassedPhaseIff(sha: Hash, rows: Rows, env: Environment, task: Task, fate: Fate)
    requires task.digest in rows && Code(task.phase) < rows[task.digest].phase
    ensures var (next, outcome) := AdvanceTask(sha, rows, env, task, fate);
            && next == rows
            && (outcome.Ok? <==> Entitled(sha, rows, env, task) && rows[task.digest].phase != SUPERSEDED)
  {
    hide Commit, RetainedEpoch, ValidateLiveClaim;
    if ValidateLiveClaim(env, task).Ok? && EpochFits(sha, env, task) {
      ClaimedEpoch(sha, env, task);
    }
  }

  /** A task that passes the checks carries a nonzero epoch and digest. */
  lemma ClaimedEpoch(sha: Hash, env: Environment, task: Task)
    requires ValidateLiveClaim(env, task).Ok? && EpochFits(sha, env, task)
    ensures task.orderEpoch != 0 && !IsZero(task.digest)
  {
    hide DecodeDns, TaskDigest, RecordNameFor, NewDns, ValidIdentifier;
  }

  /**
   * Asking for removal, or reporting it, succeeds if and only if the value was observed before or
   * the order is being retired: an entitled caller cannot complete a task nobody was seen to publish.
   */
  lemma RemovalSucceedsIff(sha: Hash, rows: Rows, env: Environment, task: Task)
    requires ValidRows(rows) && Entitled(sha, rows, env, task)
    requires Code(task.phase) >= Code(AwaitingRemoval) && rows[task.digest].phase != SUPERSEDED
    ensures AdvanceTask(sha, rows, env, task, Delivered).1.Ok? <==>
            rows[task.digest].phase >= Code(PublicationObserved) || (Handed(sha, env, task) && env.retiring)
  {
    hide RetainedEpoch, ValidateLiveClaim;
    ClaimedEpoch(sha, env, task);
    InRange(rows, task.digest);
  }

  // ---------------------------------------------------------------- commits of many workers

  /**
   * One commit that takes effect, whenever that is: workers of the same and of other orders
   * interleave freely, and what a satisfied check saw before may be out of date by now.
   */
  datatype Move = Move(env: Environment, task: Task)

  function Applied(sha: Hash, rows: Rows, move: Move): Rows {
    match Commit(sha, rows, move.env, move.task)
    case Ok(next) => next
    case Err(_) => rows
  }

  function After(sha: Hash, rows: Rows, moves: seq<Move>): Rows
    decreases moves
  {
    if moves == [] then rows else After(sha, Applied(sha, rows, moves[0]), moves[1..])
  }

  /**
   * A call whose commit comes later than its check, with other commits in between, still acts as
   * one atomic call: at the moment of the check if that settled it, else at the moment of the commit.
   */
  lemma SplitCallIsAtomic(sha: Hash, rows: Rows, moves: seq<Move>, env: Environment, task: Task)
    requires ValidRows(rows) && task.orderEpoch != 0 && TransitionSatisfied(sha, rows, env, task) == Ok(false)
    ensures var later := After(sha, rows, moves);
            var (next, outcome) := AdvanceTask(sha, later, env, task, Delivered);
            match Commit(sha, later, env, task)
            case Ok(committed) => next == committed && outcome.Ok?
            case Err(_) => next == later && outcome.Err?
  {
    hide RetainedEpoch, ValidateLiveClaim, After, ValidRows, Extends;
    ShapedDigest(env, task);
    CommitsOnlyAdvance(sha, rows, moves);
    InRange(After(sha, rows, moves), task.digest);
  }

  lemma ShapedDigest(env: Environment, task: Task)
    requires ValidateLiveClaim(env, task).Ok?
    ensures !IsZero(task.digest)
  {
    hide NewDns;
  }

  /** The unfinished tasks of an order all belong to one worker fence. */
  predicate OneLiveFence(rows: Rows) {
    forall d, e :: d in rows && e in rows && rows[d].orderId == rows[e].orderId
                   && Unfinished(rows[d]) && Unfinished(rows[e]) ==>
                     rows[d].claim.fence == rows[e].claim.fence
  }

  lemma CommitKeepsOneFence(sha: Hash, rows: Rows, env: Environment, task: Task)
    requires OneLiveFence(rows) && Commit(sha, rows, env, task).Ok?
    ensures OneLiveFence(Commit(sha, rows, env, task).value)
  {
    hide ValidateLiveClaim, RetainedEpoch;
  }

  /** Over every interleaving of commits no task is dropped, changes identity or regresses. */
  lemma {:induction false} CommitsOnlyAdvance(sha: Hash, rows: Rows, moves: seq<Move>)
    requires ValidRows(rows)
    ensures ValidRows(After(sha, rows, moves))
    ensures Extends(ViewOf(rows), ViewOf(After(sha, rows, moves)))
    decreases moves
  {
    hide Commit, Extends, ViewOf, ValidRows;
    SameExtends(ViewOf(rows));
    if moves != [] {
      var Move(env, task) := moves[0];
      var next := Applied(sha, rows, moves[0]);
      if Commit(sha, rows, env, task).Ok? {
        CommitMoves(sha, rows, env, task);
        MovedViews(rows, next, task);
      }
      CommitsOnlyAdvance(sha, next, moves[1..]);
      ExtendsTransitive(ViewOf(rows), ViewOf(next), ViewOf(After(sha, rows, moves)));
    }
  }

  /** Over every interleaving an operator is never asked to act for two workers of the same order. */
  lemma {:induction false} RunsKeepOneFence(sha: Hash, rows: Rows, moves: seq<Move>)
    requires OneLiveFence(rows)
    ensures OneLiveFence(After(sha, rows, moves))
    decreases moves
  {
    hide Commit, OneLiveFence;
    if moves != [] {
      if Commit(sha, rows, moves[0].env, moves[0].task).Ok? {
        CommitKeepsOneFence(sha, rows, moves[0].env, moves[0].task);
      }
      RunsKeepOneFence(sha, Applied(sha, rows, moves[0]), moves[1..]);
    }
  }

  /** A superseded task stays superseded, and no call on it succeeds any more. */
  lemma SupersededIsFinal(sha: Hash, rows: Rows, moves: seq<Move>, d: Digest)
    requires ValidRows(rows) && d in rows && rows[d].phase == SUPERSEDED
    ensures var later := After(sha, rows, moves);
            && d in later && later[d].phase == SUPERSEDED
            && forall env: Environment, task: Task, fate: Fate ::
                 task.digest == d ==> AdvanceTask(sha, later, env, task, fate).1.Err?
  {
    hide After, ValidRows;
    CommitsOnlyAdvance(sha, rows, moves);
    var later := After(sha, rows, moves);
    assert d in ViewOf(rows);
    assert later[d].phase == SUPERSEDED by { InRange(later, d); }
    forall env: Environment, task: Task, fate: Fate | task.digest == d
      ensures AdvanceTask(sha, later, env, task, fate).1.Err?
    {
      PassedPhaseIff(sha, later, env, task, fate);
    }
  }

  // ---------------------------------------------------------------- handoffs

  /**
   * A replacement worker, under another claim than the one that created the task, succeeds exactly
   * with the task of the publication the order's checkpoint carries, only while the configuration
   * revision it was captured under is current, and only for phases passed or next in line.
   */
  lemma HandoffIff(sha: Hash, rows: Rows, env: Environment, task: Task, r: ChallengeRequest)
    requires Capture(r).Ok? && env.publication == Some(Capture(r).value)
    requires ValidRows(rows) && ValidateLiveClaim(env, task).Ok?
    requires task.digest in rows && rows[task.digest].phase != SUPERSEDED
    requires rows[task.digest].orderId == env.orderId && rows[task.digest].claim != env.claim
    requires SameIdentity(ViewOf(rows)[task.digest], task)
    ensures AdvanceTask(sha, rows, env, task, Delivered).1.Ok? <==>
            && r.context.expectedRevision == Some(env.configurationRevision)
            && FromChallengeRequest(sha, r, task.phase) == Ok(task)
            && (Code(task.phase) <= rows[task.digest].phase
                || Allowed(rows[task.digest].phase, Code(task.phase), env.retiring))
  {
    hide ValidateLiveClaim, Capture, RetainedEpoch, FromChallengeRequest;
    RetainedIff(sha, env, task, r);
    InRange(rows, task.digest);
    if EpochFits(sha, env, task) {
      ClaimedEpoch(sha, env, task);
    }
  }

  lemma RetainedIff(sha: Hash, env: Environment, task: Task, r: ChallengeRequest)
    requires Capture(r).Ok? && env.publication == Some(Capture(r).value)
    ensures RetainedEpoch(sha, env, task) != Ok(None)
    ensures RetainedEpoch(sha, env, task) == Ok(Some(task.orderEpoch)) <==>
            && r.context.expectedRevision == Some(env.configurationRevision)
            && FromChallengeRequest(sha, r, task.phase) == Ok(task)
  {
    hide Capture, Rebuild, FromChallengeRequest;
    RebuildIff(r, HandoffContext(env));
    CaptureRevision(r);
    if r.context.expectedRevision == Some(env.configurationRevision) {
      ContextIsIrrelevant(sha, r, HandoffContext(env), task.phase);
    }
  }

  /** Rebuilding the request under another usable context names the same task, up to its phase. */
  lemma ContextIsIrrelevant(sha: Hash, r: ChallengeRequest, context: RequestContext, phase: Phase)
    requires UsableContext(r.context) && UsableContext(context)
    ensures var original := FromChallengeRequest(sha, r, phase);
            var rebuilt := FromChallengeRequest(sha, r.(context := context), AwaitingPublication);
            && (original.Ok? <==> rebuilt.Ok?)
            && (original.Ok? ==> rebuilt.value.(phase := phase) == original.value)
  {
    hide DecodeDns, RecordNameFor, ValidIdentifier;
    assert ValidMaterial(r, Dns01) == ValidMaterial(r.(context := context), Dns01);
  }

  lemma CaptureRevision(r: ChallengeRequest)
    requires Capture(r).Ok?
    ensures ValidateCleanupRequest(r, r.kind).Ok? && UsableContext(r.context)
  {}
}
