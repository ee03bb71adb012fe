/**
 * Manual DNS-01: the operator edits the zone, the adapter probes it and moves a durable task
 * forward. The adapter keeps no state of its own, so everything rests on what the task authority
 * promises; the results here hold for every authority that keeps that promise.
 */
module ManualDns {
  import opened Basics
  import opened ChallengePayload
  import opened Publication
  import Http01

  datatype Phase = AwaitingPublication | PublicationObserved | AwaitingRemoval | Complete

  /** The order of the phases; a superseded task sits above all of them. */
  function Code(phase: Phase): nat {
    match phase
    case AwaitingPublication => 1
    case PublicationObserved => 2
    case AwaitingRemoval => 3
    case Complete => 4
  }

  const SUPERSEDED := 5

  datatype Task = Task(
    digest: Digest, recordName: Text, recordValue: Text, expiresAt: I64, orderEpoch: U64, phase: Phase)

  /** What the authority stores about one task, seen from outside. */
  datatype Progress = Progress(recordName: Text, recordValue: Text, expiresAt: I64, rank: nat)

  type View = map<Digest, Progress>

  function Rank(view: View, digest: Digest): nat {
    if digest in view then view[digest].rank else 0
  }

  predicate SameIdentity(p: Progress, task: Task) {
    p.recordName == task.recordName && p.recordValue == task.recordValue && p.expiresAt == task.expiresAt
  }

  // ---------------------------------------------------------------- the authority's promise

  /** Tasks are never dropped, never change identity, never regress, and stay complete. */
  predicate Extends(before: View, after: View) {
    forall d :: d in before ==>
      && d in after
      && after[d].(rank := 0) == before[d].(rank := 0)
      && before[d].rank <= after[d].rank
      && (before[d].rank == Code(Complete) ==> after[d].rank == Code(Complete))
  }

  /**
   * One advance. Success leaves exactly this task at the later of its old phase and the requested
   * one, and is refused to a superseded task or to one of another identity; a refused advance may
   * still have taken effect, because the reply can be lost.
   */
  predicate MeetsContract(before: View, after: View, task: Task, outcome: Outcome) {
    && Extends(before, after)
    && (outcome.Ok? ==>
          && task.digest in after
          && SameIdentity(after[task.digest], task)
          && Rank(before, task.digest) <= Code(Complete)
          && after[task.digest].rank == Max(Rank(before, task.digest), Code(task.phase)))
  }

  function Max(a: nat, b: nat): nat { if a < b then b else a }

  // ---------------------------------------------------------------- the adapter

  function TaskDigest(sha: Hash, r: ChallengeRequest, payload: Dns01Payload): Digest
    requires r.expiresAt >= 0
  {
    sha(Ascii("meshspan:manual-dns-task:v1") + r.identifier + payload.recordName + payload.recordValue
        + BigEndian(r.expiresAt, 8) + BigEndian(r.orderEpoch, 8))
  }

  function FromPayload(sha: Hash, r: ChallengeRequest, payload: Dns01Payload, phase: Phase): Task
    requires r.expiresAt >= 0
  {
    Task(TaskDigest(sha, r, payload), payload.recordName, payload.recordValue, r.expiresAt, r.orderEpoch, phase)
  }

  /** The task named by original publication material; the TXT owner must belong to the identifier. */
  function FromChallengeRequest(sha: Hash, r: ChallengeRequest, phase: Phase): Result<Task, ContractError> {
    var _ :- ValidateCleanupRequest(r, Dns01);
    match DecodeDns(r.challenge)
    case Err(_) => Err(InvalidInput)
    case Ok(payload) =>
      if payload.recordName != RecordNameFor(r.identifier) then Err(InvalidInput)
      else Ok(FromPayload(sha, r, payload, phase))
  }

  function ReceiptFor(sha: Hash, r: ChallengeRequest, payload: Dns01Payload): Http01.Receipt
    requires r.expiresAt >= 0
  {
    Http01.Receipt(
      if r.context.expectedRevision.Some? then r.context.expectedRevision.value else 0,
      r.orderEpoch,
      sha(Ascii("meshspan:manual-dns-01-publication:v1") + TaskDigest(sha, r, payload)))
  }

  /** An adapter call; `seen` is what the authoritative observer answers if it is asked. */
  datatype Call =
    | Publish(request: ChallengeRequest)
    | IsVisible(request: ChallengeRequest, receipt: Http01.Receipt, seen: Result<bool, ContractError>)
    | Cleanup(request: ChallengeRequest, receipt: Http01.Receipt, seen: Result<bool, ContractError>)

  datatype Reply =
    | Published(receipt: Http01.Receipt)
    | Visibility(visible: bool)
    | CleanupPending
    | CleanupComplete

  /** The checks before the observer and the authority are involved. */
  function Checked(sha: Hash, active: bool, call: Call): Result<Dns01Payload, ContractError> {
    if call.Publish? && !active then Err(Unavailable)
    else
      var _ :-
        if call.Cleanup? then ValidateCleanupRequest(call.request, Dns01) else ValidateRequest(call.request, Dns01);
      match DecodeDns(call.request.challenge)
      case Err(_) => Err(InvalidInput)
      case Ok(payload) =>
        if !call.Publish? && call.receipt != ReceiptFor(sha, call.request, payload) then Err(Stale) else Ok(payload)
  }

  /** The phase a call asks the authority for, if it asks at all. */
  function Requested(call: Call): Result<Option<Phase>, ContractError> {
    match call
    case Publish(_) => Ok(Some(AwaitingPublication))
    case IsVisible(_, _, seen) =>
      var visible :- seen; Ok(if visible then Some(PublicationObserved) else None)
    case Cleanup(_, _, seen) =>
      var visible :- seen; Ok(Some(if visible then AwaitingRemoval else Complete))
  }

  /** The advance a call sends, if any. */
  function Sent(sha: Hash, active: bool, call: Call): Result<Option<Task>, ContractError> {
    var payload :- Checked(sha, active, call);
    var phase :- Requested(call);
    Ok(if phase.Some? then Some(FromPayload(sha, call.request, payload, phase.value)) else None)
  }

  function ReplyTo(sha: Hash, active: bool, call: Call): Reply
    requires Checked(sha, active, call).Ok? && Requested(call).Ok?
  {
    match call
    case Publish(r) => Published(ReceiptFor(sha, r, Checked(sha, active, call).value))
    case IsVisible(_, _, seen) => Visibility(seen.value)
    case Cleanup(_, _, seen) => if seen.value then CleanupPending else CleanupComplete
  }

  /** The whole call, given how the authority answers the advance it sends. */
  function Answer(sha: Hash, active: bool, call: Call, outcome: Outcome): Result<Reply, ContractError> {
    var sent :- Sent(sha, active, call);
    if sent.Some? && outcome.Err? then Err(outcome.error) else Ok(ReplyTo(sha, active, call))
  }

  // ---------------------------------------------------------------- runs

  datatype World = World(tasks: View, records: set<(Text, Text)>, active: bool)

  datatype Event =
    | Called(call: Call, after: View, outcome: Outcome)
    | OtherAdvance(task: Task, after: View, outcome: Outcome)
    | RecordsEdited(records: set<(Text, Text)>)
    | Restarted
    | Drained

  predicate Possible(sha: Hash, w: World, e: Event) {
    match e
    case Called(call, after, outcome) =>
      var sent := Sent(sha, w.active, call);
      && (if sent.Ok? && sent.value.Some? then MeetsContract(w.tasks, after, sent.value.value, outcome)
          else after == w.tasks)
      && Honest(sha, w, call)
    case OtherAdvance(task, after, outcome) => MeetsContract(w.tasks, after, task, outcome)
    case _ => true
  }

  /** An observer that answers at all answers from the records that are there. */
  predicate Honest(sha: Hash, w: World, call: Call) {
    !call.Publish? && call.seen.Ok? && Checked(sha, w.active, call).Ok? ==>
      var payload := Checked(sha, w.active, call).value;
      call.seen.value == ((payload.recordName, payload.recordValue) in w.records)
  }

  function Next(w: World, e: Event): World {
    match e
    case Called(_, after, _) => w.(tasks := after)
    case OtherAdvance(_, after, _) => w.(tasks := after)
    case RecordsEdited(records) => w.(records := records)
    case Restarted => w.(active := true)
    case Drained => w.(active := false)
  }

  predicate PossibleRun(sha: Hash, w: World, events: seq<Event>)
    decreases events
  {
    events == [] || (Possible(sha, w, events[0]) && PossibleRun(sha, Next(w, events[0]), events[1..]))
  }

  function Final(w: World, events: seq<Event>): World
    decreases events
  {
    if events == [] then w else Final(Next(w, events[0]), events[1..])
  }

  // ---------------------------------------------------------------- what runs keep

  lemma ExtendsTransitive(a: View, b: View, c: View)
    requires Extends(a, b) && Extends(b, c)
    ensures Extends(a, c)
  {
    forall d | d in a
      ensures d in c && c[d].(rank := 0) == a[d].(rank := 0) && a[d].rank <= c[d].rank
      ensures a[d].rank == Code(Complete) ==> c[d].rank == Code(Complete)
    {
      assert d in b;
    }
  }

  /** Over every run, whatever the operator edits and whoever restarts, no task regresses. */
  lemma {:induction false} PhaseNeverRegresses(sha: Hash, w: World, events: seq<Event>)
    requires PossibleRun(sha, w, events)
    ensures Extends(w.tasks, Final(w, events).tasks)
    decreases events
  {
    hide Extends, Sent, Honest;
    if events == [] {
      SameExtends(w.tasks);
    } else {
      SameExtends(w.tasks);
      PhaseNeverRegresses(sha, Next(w, events[0]), events[1..]);
      ExtendsTransitive(w.tasks, Next(w, events[0]).tasks, Final(w, events).tasks);
    }
  }

  lemma SameExtends(view: View)
    ensures Extends(view, view)
  {}

  /** The task a call speaks of. */
  function Subject(sha: Hash, active: bool, call: Call): Digest
    requires Checked(sha, active, call).Ok?
  {
    TaskDigest(sha, call.request, Checked(sha, active, call).value)
  }

  /** What each answer of the adapter tells about the zone and about the durable task. */
  lemma AnswersMean(sha: Hash, w: World, e: Event)
    requires e.Called? && Possible(sha, w, e)
    requires Answer(sha, w.active, e.call, e.outcome).Ok?
    ensures var reply := Answer(sha, w.active, e.call, e.outcome).value;
            var payload := Checked(sha, w.active, e.call).value;
            var present := (payload.recordName, payload.recordValue) in w.records;
            var rank := Rank(Next(w, e).tasks, Subject(sha, w.active, e.call));
            && (reply.Published? ==> 1 <= rank <= 4)
            && (reply.Visibility? ==> reply.visible == present)
            && (reply == Visibility(true) ==> 2 <= rank <= 4)
            && (reply.CleanupPending? ==> present && 3 <= rank <= 4)
            && (reply.CleanupComplete? ==> !present && rank == 4)
  {
    hide Extends, Checked, TaskDigest;
    if Sent(sha, w.active, e.call).value.Some? {
      assert MeetsContract(w.tasks, e.after, Sent(sha, w.active, e.call).value.value, e.outcome);
    }
  }

  /** Whatever the rest of the run does, an answer once given keeps its meaning for the task. */
  lemma AnswersLast(sha: Hash, w: World, e: Event, rest: seq<Event>)
    requires e.Called? && PossibleRun(sha, w, [e] + rest)
    requires Answer(sha, w.active, e.call, e.outcome).Ok?
    ensures var reply := Answer(sha, w.active, e.call, e.outcome).value;
            var rank := Rank(Final(w, [e] + rest).tasks, Subject(sha, w.active, e.call));
            && (reply == Visibility(true) ==> rank >= Code(PublicationObserved))
            && (reply.CleanupPending? ==> rank >= Code(AwaitingRemoval))
            && (reply.CleanupComplete? ==> rank == Code(Complete))
  {
    hide Possible, Answer, Checked, TaskDigest, MeetsContract;
    var run := [e] + rest;
    assert run[0] == e && run[1..] == rest;
    AnswersMean(sha, w, e);
    PhaseNeverRegresses(sha, Next(w, e), rest);
  }

  // ---------------------------------------------------------------- the operator's queue

  /** Tasks listed for the operator: publish this, or remove that. */
  predicate Listed(rank: nat) { rank == Code(AwaitingPublication) || rank == Code(AwaitingRemoval) }

  /**
   * A pending cleanup leaves the removal on the operator's list exactly when the task was not
   * already complete; a value that reappears after completion stays pending without being listed.
   */
  lemma PendingIsListedIff(sha: Hash, w: World, e: Event)
    requires e.Called? && Possible(sha, w, e)
    requires Answer(sha, w.active, e.call, e.outcome) == Ok(CleanupPending)
    ensures var d := Subject(sha, w.active, e.call);
            Listed(Rank(Next(w, e).tasks, d)) <==> Rank(w.tasks, d) != Code(Complete)
  {
    hide Extends, Checked, TaskDigest;
    assert MeetsContract(w.tasks, e.after, Sent(sha, w.active, e.call).value.value, e.outcome);
  }

  /** Publishing asks the operator for the value exactly when the task has not yet moved on. */
  lemma PublishIsListedIff(sha: Hash, w: World, e: Event)
    requires e.Called? && Possible(sha, w, e)
    requires Answer(sha, w.active, e.call, e.outcome).Ok? && e.call.Publish?
    ensures var d := Subject(sha, w.active, e.call);
            Rank(Next(w, e).tasks, d) == Code(AwaitingPublication) <==> Rank(w.tasks, d) <= Code(AwaitingPublication)
  {
    hide Extends, Checked, TaskDigest;
    assert MeetsContract(w.tasks, e.after, Sent(sha, w.active, e.call).value.value, e.outcome);
  }
}
