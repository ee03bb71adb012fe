/**
 * The signed requests of the whole system (section 6.5 of RFC 8555). A worker advances a copy of its
 * machine and keeps it only once it is committed, so an answer can be lost in many ways; this
 * module says exactly when a nonce goes out a second time.
 */
module OrderRequests {
  import opened Basics
  import opened Wire
  import opened OrderMachine
  import opened Checkpoint
  import opened OrderRuns
  import opened OrderNonces
  import opened OrderSystem
  import opened OrderCluster
  import opened OrderServing
  import CP = ChallengePayload
  import P = Publication
  import H = Http01

  // ---------------------------------------------------------------- one signed exchange

  /** How the CA responds to one request; silence covers every failure to get a usable response. */
  datatype Response = Answer | BadNonce(nonce: Option<Text>) | Problem | Silence

  /** The responses to a signed request and to its retry, if there is one. */
  datatype Exchange = Exchange(first: Response, second: Response)

  /** A bad-nonce problem that brings a fresh nonce permits one retry. */
  predicate Retried(x: Exchange) { x.first.BadNonce? && x.first.nonce.Some? }

  /** The nonces of the requests that go out: one, or two with the retry. */
  function Requests(nonce: Text, x: Exchange): seq<Text> {
    if Retried(x) then [nonce, x.first.nonce.value] else [nonce]
  }

  predicate Answered(x: Exchange) { x.first.Answer? || (Retried(x) && x.second.Answer?) }

  datatype RetryError = RetryExhausted | MissingNonce

  class BadNonceRetry {
    var consumed: bool

    constructor ()
      ensures !consumed
    {
      consumed := false;
    }

    method Consume(response: Response) returns (r: Result<Option<Text>, RetryError>)
      modifies this
      ensures !response.BadNonce? ==> r == Ok(None)
      ensures response.BadNonce? && old(consumed) ==> r == Err(RetryExhausted)
      ensures response.BadNonce? && !old(consumed) ==>
                r == if response.nonce.Some? then Ok(response.nonce) else Err(MissingNonce)
      ensures consumed == (old(consumed) || (r.Ok? && r.value.Some?))
    {
      if !response.BadNonce? {
        return Ok(None);
      }
      if consumed {
        return Err(RetryExhausted);
      }
      if response.nonce.None? {
        return Err(MissingNonce);
      }
      consumed := true;
      return Ok(response.nonce);
    }
  }

  /** Sends the request, and once more under a fresh nonce after a bad-nonce problem. */
  method PostSigned(nonce: Text, x: Exchange) returns (sent: seq<Text>, answered: bool)
    ensures sent == Requests(nonce, x)
    ensures answered == Answered(x)
  {
    sent := [nonce];
    if x.first.Answer? {
      return sent, true;
    }
    var retry := new BadNonceRetry();
    var again := retry.Consume(x.first);
    if again.Err? || again.value.None? {
      return sent, false;
    }
    sent := sent + [again.value.value];
    if x.second.Answer? {
      return sent, true;
    }
    var exhausted := retry.Consume(x.second);
    return sent, false;
  }

  // ---------------------------------------------------------------- what a worker step submits

  predicate SignedPhase(phase: Phase) {
    || phase.CreateAccount? || phase.CreateOrder? || phase.FetchAuthorization? || phase.NotifyChallenge?
    || phase.PollAuthorization? || phase.FinalizeOrder? || phase.PollOrder? || phase.DownloadCertificate?
  }

  predicate RemotePhase(phase: Phase) { SignedPhase(phase) || phase.DiscoverDirectory? || phase.AcquireNonce? }

  /** The step turns to the CA. */
  predicate Contacts(env: Env, w: World, turn: Turn) {
    Acts(env, w, turn) && Restore(env, w, turn).None? && !Waits(w, turn) && RemotePhase(w.local.phase)
  }

  /** The step sends a signed request, under the nonce of the local machine. */
  predicate Sends(env: Env, w: World, turn: Turn) { Contacts(env, w, turn) && SignedPhase(w.local.phase) }

  /** The copy of the machine, advanced by the answer, if it arrives in time and is accepted. */
  function Advanced(w: World, turn: Turn): Option<Machine> {
    if turn.reply.None? || !Timely(turn) then None
    else
      var t := AdvanceWithRetry(w.local, turn.reply.value, turn.receivedAt, turn.retry);
      if t.result.Ok? then Some(t.machine) else None
  }

  /** The answer brings a nonce, and the advanced copy can be submitted with it. */
  predicate Brings(env: Env, w: World, turn: Turn) {
    && Contacts(env, w, turn)
    && Advanced(w, turn).Some? && Checkpointable(Advanced(w, turn).value) && !Advanced(w, turn).value.phase.Complete?
    && CarriedNonce(turn.reply.value) != []
  }

  /**
   * The nonces before and after a step: one that an answer brings goes where the commit goes, and any
   * other checkpoint that is written carries the nonce of the local machine.
   */
  predicate NoncesMove(env: Env, w: World, turn: Turn, next: World) {
    if Brings(env, w, turn) then
      var brought := Some(CarriedNonce(turn.reply.value)[0]);
      && next.local.nonce == (if turn.commit.Committed? then brought else w.local.nonce)
      && next.durable.nonce == (if turn.commit.Committed? || turn.commit.applied then brought else w.durable.nonce)
    else
      && next.local.nonce == w.local.nonce
      && next.durable.nonce == if next.durable != w.durable then w.local.nonce else w.durable.nonce
  }

  /** A step that keeps the nonce, whatever it submits. */
  predicate KeepsNonce(w: World, next: World) {
    && next.local.nonce == w.local.nonce
    && (next.durable == w.durable || next.durable.nonce == w.local.nonce)
  }

  lemma SubmitKeeps(w: World, candidate: Machine, commit: Commit)
    requires candidate.nonce == w.local.nonce
    ensures KeepsNonce(w, Submit(w, candidate, commit))
  {
    hide Checkpointable;
  }

  lemma PrepareKeeps(env: Env, w: World, turn: Turn)
    ensures Prepare(env, w, turn).Some? ==> KeepsNonce(w, Prepare(env, w, turn).value)
    ensures Elapse(env, w, turn).Some? ==> KeepsNonce(w, Elapse(env, w, turn).value)
    ensures Restore(env, w, turn).Some? ==> KeepsNonce(w, Restore(env, w, turn).value)
  {
    hide BuildRequest, P.Capture, ExpectedDigest, PublishCall, ValidatePublicationMaterial, Checkpointable;
  }

  /** An accepted event leaves the nonce it carries, or the one there was. */
  lemma EventNonce(env: Env, m: Machine, event: Event, receivedAt: I64, retry: Option<RetryAfter>)
    requires Sound(env, m) && AdvanceWithRetry(m, event, receivedAt, retry).result.Ok?
    ensures var n := AdvanceWithRetry(m, event, receivedAt, retry).machine;
            n.nonce == if CarriedNonce(event) != [] then Some(CarriedNonce(event)[0]) else m.nonce
  {
    hide Checkpointable, Coherent, Core, React, Genuine, H.RecordFor, CarriedNonce;
    CheckpointableIffCoherent(m);
    CoherentCore(m);
    ReactNonce(m, event);
  }

  lemma SettleKeeps(env: Env, w: World, after: World, event: Event, turn: Turn)
    requires Sound(env, w.local) && CarriedNonce(event) == []
    requires after.local == w.local && after.durable == w.durable
    ensures KeepsNonce(w, Settle(after, event, turn))
  {
    hide Checkpointable, AdvanceWithRetry, Sound, CarriedNonce;
    var t := AdvanceWithRetry(w.local, event, turn.receivedAt, turn.retry);
    if t.result.Ok? {
      EventNonce(env, w.local, event, turn.receivedAt, turn.retry);
    }
  }

  lemma SettleBrings(env: Env, w: World, turn: Turn)
    requires Sound(env, w.local) && Contacts(env, w, turn) && turn.reply.Some?
    ensures NoncesMove(env, w, turn, Settle(w, turn.reply.value, turn))
  {
    hide Checkpointable, AdvanceWithRetry, Sound, CarriedNonce, Contacts;
    var t := AdvanceWithRetry(w.local, turn.reply.value, turn.receivedAt, turn.retry);
    if t.result.Ok? {
      EventNonce(env, w.local, turn.reply.value, turn.receivedAt, turn.retry);
    }
  }

  lemma ExecuteNonces(env: Env, w: World, turn: Turn)
    requires Sound(env, w.local) && Acts(env, w, turn) && Restore(env, w, turn).None? && !Waits(w, turn)
    ensures NoncesMove(env, w, turn, Execute(env, w, turn))
  {
    hide Checkpointable, AdvanceWithRetry, Sound, Settle, PublishCall, CleanupCall, Acts, Waits, Restore;
    var m := w.local;
    if m.phase.PublishChallenge? {
      var (records, receipt) := PublishCall(env, w, turn);
      if receipt.Some? {
        SettleKeeps(env, w, w.(records := records), ChallengePublished(receipt.value.publicationDigest), turn);
      }
    } else if m.phase.CleanupChallenge? || m.phase.RetireChallenge? {
      var (records, _) := CleanupCall(env, w, turn);
      SettleKeeps(env, w, w.(records := records), ChallengeCleaned, turn);
    } else if m.phase.Retired? {
      SubmitKeeps(w, m, turn.commit);
    } else if turn.reply.Some? {
      if m.phase.Complete? {
        CompleteRefuses(w, turn.reply.value, turn);
      } else {
        SettleBrings(env, w, turn);
      }
    }
  }

  lemma CompleteRefuses(w: World, event: Event, turn: Turn)
    requires w.local.phase.Complete?
    ensures Settle(w, event, turn) == w
  {
    hide Checkpointable;
  }

  lemma WorkNonces(env: Env, w: World, turn: Turn)
    requires Sound(env, w.local)
    ensures NoncesMove(env, w, turn, Work(env, w, turn))
  {
    hide Execute, Prepare, Elapse, Restore, Sound, Checkpointable, AdvanceWithRetry, CarriedNonce;
    PrepareKeeps(env, w, turn);
    if Acts(env, w, turn) && Restore(env, w, turn).None? && !Waits(w, turn) {
      ExecuteNonces(env, w, turn);
    }
  }

  // ---------------------------------------------------------------- the answers a machine holds

  /** The moves whose answers the local machine and the durable checkpoint hold, oldest first. */
  datatype Lineage = Lineage(local: seq<nat>, durable: seq<nat>)

  predicate BringsBy(env: Env, c: Cluster, move: Move) {
    move.WorkMove? && Brings(Stay(env, c), Here(c), move.turn)
  }

  /** Move number `k` adds its answer where it is committed; a handover passes the checkpoint on. */
  function Inherit(env: Env, c: Cluster, move: Move, k: nat, h: Lineage): Lineage {
    match move
    case WorkMove(turn) =>
      if BringsBy(env, c, move) then
        (match turn.commit
         case Committed => Lineage(h.local + [k], h.local + [k])
         case Lost(applied) => if applied then Lineage(h.local, h.local + [k]) else h)
      else if Next(env, c, move).durable != c.durable then Lineage(h.local, h.local)
      else h
    case Replace(epoch, _, _) =>
      if ResumeUnderFence(c.durable, epoch).result.Ok? then Lineage(h.durable, h.durable) else h
    case _ => h
  }

  function Held(env: Env, c: Cluster, moves: seq<Move>): Lineage
    decreases moves
  {
    if moves == [] then Lineage([], [])
    else
      var front, k := moves[..|moves| - 1], |moves| - 1;
      Inherit(env, Reach(env, c, front), moves[k], k, Held(env, c, front))
  }

  /** The nonce of the latest answer among those held. */
  function NonceOf(moves: seq<Move>, held: seq<nat>): Option<Text> {
    if held == [] then None
    else
      var k := held[|held| - 1];
      if k < |moves| && moves[k].WorkMove? && moves[k].turn.reply.Some?
         && CarriedNonce(moves[k].turn.reply.value) != []
      then Some(CarriedNonce(moves[k].turn.reply.value)[0]) else None
  }

  predicate Tracks(moves: seq<Move>, c: Cluster, h: Lineage) {
    c.local.nonce == NonceOf(moves, h.local) && c.durable.nonce == NonceOf(moves, h.durable)
  }

  lemma NonceOfPrefix(moves: seq<Move>, held: seq<nat>)
    requires moves != [] && (held != [] ==> held[|held| - 1] < |moves| - 1)
    ensures NonceOf(moves, held) == NonceOf(moves[..|moves| - 1], held)
  {
    hide CarriedNonce;
  }

  /** Latest answers lie in the past, and two holders of the same latest answer hold the same ones. */
  predicate Rooted(env: Env, c: Cluster, moves: seq<Move>, held: seq<nat>) {
    held != [] ==>
      var k := held[|held| - 1];
      && k < |moves| && BringsBy(env, Reach(env, c, moves[..k]), moves[k])
      && held == Held(env, c, moves[..k]).local + [k]
  }

  lemma RootedLater(env: Env, c: Cluster, moves: seq<Move>, held: seq<nat>)
    requires moves != [] && Rooted(env, c, moves[..|moves| - 1], held)
    ensures Rooted(env, c, moves, held)
  {
    hide BringsBy, Held, Reach;
    if held != [] {
      var k := held[|held| - 1];
      assert moves[..|moves| - 1][..k] == moves[..k];
    }
  }

  lemma {:induction false} LineagesRooted(env: Env, c: Cluster, moves: seq<Move>)
    ensures Rooted(env, c, moves, Held(env, c, moves).local) && Rooted(env, c, moves, Held(env, c, moves).durable)
    decreases moves
  {
    hide BringsBy, Next, Reach, Rooted, ResumeUnderFence;
    if moves == [] {
      NothingHeld(env, c);
    } else {
      var front, k := moves[..|moves| - 1], |moves| - 1;
      var h := Held(env, c, front);
      LineagesRooted(env, c, front);
      RootedLater(env, c, moves, h.local);
      RootedLater(env, c, moves, h.durable);
      if BringsBy(env, Reach(env, c, front), moves[k]) {
        RootedNow(env, c, moves);
      }
    }
  }

  lemma NothingHeld(env: Env, c: Cluster)
    ensures Rooted(env, c, [], [])
  {}

  lemma RootedNow(env: Env, c: Cluster, moves: seq<Move>)
    requires moves != [] && BringsBy(env, Reach(env, c, moves[..|moves| - 1]), moves[|moves| - 1])
    ensures Rooted(env, c, moves, Held(env, c, moves[..|moves| - 1]).local + [|moves| - 1])
  {
    hide BringsBy, Held, Reach;
  }

  lemma WorkMoveNonces(env: Env, c: Cluster, turn: Turn)
    requires SafeCluster(env, c)
    ensures NoncesMove(Stay(env, c), Here(c), turn, Here(Next(env, c, WorkMove(turn))))
  {
    hide Work, Covers, Sound, Brings, CarriedNonce, H.WellFormed;
    WorkNonces(Stay(env, c), Here(c), turn);
  }

  lemma ReplaceNonces(env: Env, c: Cluster, epoch: U64, process: Process, restarted: bool)
    ensures var next := Next(env, c, Replace(epoch, process, restarted));
            && next.durable == c.durable
            && next.local.nonce ==
               if ResumeUnderFence(c.durable, epoch).result.Ok? then c.durable.nonce else c.local.nonce
  {
    hide ActionFor, Checkpointable;
  }

  lemma OtherNonces(env: Env, c: Cluster, move: Move)
    requires move.Restarted? || move.Elsewhere?
    ensures Next(env, c, move).local == c.local && Next(env, c, move).durable == c.durable
  {
    hide H.Apply;
  }

  lemma BroughtNonce(env: Env, c: Cluster, moves: seq<Move>, k: nat, held: seq<nat>)
    requires k < |moves| && BringsBy(env, c, moves[k])
    ensures NonceOf(moves, held + [k]) == Some(CarriedNonce(moves[k].turn.reply.value)[0])
  {
    hide CarriedNonce, Contacts, Checkpointable;
  }

  lemma StepTracks(env: Env, c: Cluster, front: seq<Move>, move: Move, h: Lineage)
    requires SafeCluster(env, c) && Tracks(front + [move], c, h)
    ensures Tracks(front + [move], Next(env, c, move), Inherit(env, c, move, |front|, h))
  {
    hide Next, NonceOf, Brings, SafeCluster, CarriedNonce, ResumeUnderFence;
    match move
    case WorkMove(turn) =>
      WorkMoveNonces(env, c, turn);
      if BringsBy(env, c, move) {
        BroughtNonce(env, c, front + [move], |front|, h.local);
      }
    case Replace(epoch, process, restarted) => ReplaceNonces(env, c, epoch, process, restarted);
    case _ => OtherNonces(env, c, move);
  }

  /** Along every run each machine carries the nonce of the latest answer it holds. */
  lemma {:induction false} RunTracks(env: Env, c: Cluster, moves: seq<Move>)
    requires Start(env, c) && PossibleRun(env, c, moves)
    ensures Tracks(moves, Reach(env, c, moves), Held(env, c, moves))
    decreases moves
  {
    hide Start, PossibleRun, Next, SafeCluster, NonceOf, Inherit, Rooted;
    if moves == [] {
      StartNonce(env, c);
    } else {
      var front, move := moves[..|moves| - 1], moves[|moves| - 1];
      PrefixPossible(env, c, moves);
      RunTracks(env, c, front);
      StartIsSafe(env, c);
      SystemIsSafe(env, c, front);
      LineagesRooted(env, c, front);
      EarlierTracks(env, c, moves);
      assert moves == front + [move];
      StepTracks(env, Reach(env, c, front), front, move, Held(env, c, front));
    }
  }

  lemma StartNonce(env: Env, c: Cluster)
    requires Start(env, c)
    ensures Tracks([], c, Lineage([], []))
  {
    hide Coherent, H.WellFormed;
    CheckpointableIffCoherent(c.local);
    CoherentCore(c.local);
  }

  lemma EarlierTracks(env: Env, c: Cluster, moves: seq<Move>)
    requires moves != []
    requires var front := moves[..|moves| - 1];
             var h := Held(env, c, front);
             && Rooted(env, c, front, h.local) && Rooted(env, c, front, h.durable)
             && Tracks(front, Reach(env, c, front), h)
    ensures Tracks(moves, Reach(env, c, moves[..|moves| - 1]), Held(env, c, moves[..|moves| - 1]))
  {
    hide Reach, Held, NonceOf, BringsBy;
    var h := Held(env, c, moves[..|moves| - 1]);
    NonceOfPrefix(moves, h.local);
    NonceOfPrefix(moves, h.durable);
  }

  // ---------------------------------------------------------------- answers are never given up

  lemma {:induction false} LineagesNest(env: Env, c: Cluster, moves: seq<Move>)
    ensures Held(env, c, moves).local <= Held(env, c, moves).durable
    decreases moves
  {
    hide Next, Reach, BringsBy, ResumeUnderFence;
    if moves != [] {
      LineagesNest(env, c, moves[..|moves| - 1]);
    }
  }

  /** The durable checkpoint holds every answer the local machine holds, so no handover gives one up. */
  lemma {:induction false} AnswersAreKept(env: Env, c: Cluster, moves: seq<Move>, i: nat)
    requires i <= |moves|
    ensures Held(env, c, moves[..i]).local <= Held(env, c, moves).local <= Held(env, c, moves).durable
    decreases moves
  {
    hide Next, Reach, BringsBy, ResumeUnderFence;
    LineagesNest(env, c, moves);
    if i == |moves| {
      assert moves[..i] == moves;
    } else {
      var front := moves[..|moves| - 1];
      AnswersAreKept(env, c, front, i);
      assert front[..i] == moves[..i];
    }
  }

  /** An answer is held together with exactly those that were held when its request was sent. */
  lemma {:induction false} AnswerRooted(env: Env, c: Cluster, moves: seq<Move>, p: nat)
    requires p < |Held(env, c, moves).local|
    ensures var k := Held(env, c, moves).local[p];
            && k < |moves| && BringsBy(env, Reach(env, c, moves[..k]), moves[k])
            && Held(env, c, moves).local[..p] == Held(env, c, moves[..k]).local
    decreases moves
  {
    hide BringsBy, Held, Reach;
    LineagesRooted(env, c, moves);
    var h := Held(env, c, moves).local;
    var k := h[|h| - 1];
    var earlier := Held(env, c, moves[..k]).local;
    if p == |h| - 1 {
      assert h[..p] == earlier;
    } else {
      assert earlier[p] == h[p] && earlier[..p] == h[..p];
      AnswerRooted(env, c, moves[..k], p);
      assert moves[..k][..h[p]] == moves[..h[p]];
    }
  }

  // ---------------------------------------------------------------- the requests of a run

  predicate ContactsAt(env: Env, c: Cluster, moves: seq<Move>, i: nat)
    requires i < |moves|
  {
    var at := Reach(env, c, moves[..i]);
    moves[i].WorkMove? && Contacts(Stay(env, at), Here(at), moves[i].turn)
  }

  /** Move `i` sends a signed request. */
  predicate SendsAt(env: Env, c: Cluster, moves: seq<Move>, i: nat)
    requires i < |moves|
  {
    ContactsAt(env, c, moves, i) && SignedPhase(Reach(env, c, moves[..i]).local.phase)
  }

  function NonceAt(env: Env, c: Cluster, moves: seq<Move>, i: nat): Option<Text>
    requires i <= |moves|
  {
    Reach(env, c, moves[..i]).local.nonce
  }

  /** The nonces of the requests of move `i`, the retry included. */
  function SentAt(env: Env, c: Cluster, moves: seq<Move>, xs: seq<Exchange>, i: nat): seq<Text>
    requires i < |moves| == |xs|
  {
    if SendsAt(env, c, moves, i) && NonceAt(env, c, moves, i).Some?
    then Requests(NonceAt(env, c, moves, i).value, xs[i]) else []
  }

  /** The nonces the CA hands out in move `i`: with a bad-nonce problem, and with the answer. */
  function IssuedAt(env: Env, c: Cluster, moves: seq<Move>, xs: seq<Exchange>, i: nat): seq<Text>
    requires i < |moves| == |xs|
  {
    (if SendsAt(env, c, moves, i) && Retried(xs[i]) then [xs[i].first.nonce.value] else [])
    + if ContactsAt(env, c, moves, i) && moves[i].turn.reply.Some? then CarriedNonce(moves[i].turn.reply.value) else []
  }

  /** The CA hands out no nonce twice. */
  predicate Unrepeated(env: Env, c: Cluster, moves: seq<Move>, xs: seq<Exchange>)
    requires |moves| == |xs|
  {
    forall i, p, j, q ::
      0 <= i < |moves| && 0 <= j < |moves|
      && 0 <= p < |IssuedAt(env, c, moves, xs, i)| && 0 <= q < |IssuedAt(env, c, moves, xs, j)|
      && IssuedAt(env, c, moves, xs, i)[p] == IssuedAt(env, c, moves, xs, j)[q] ==>
        i == j && p == q
  }

  /** The machine that acts in move `j` holds an answer to some request that carried this nonce. */
  predicate HoldsAnswerTo(env: Env, c: Cluster, moves: seq<Move>, nonce: Text, j: nat)
    requires j <= |moves|
  {
    exists k :: 0 <= k < j && k in Held(env, c, moves[..j]).local && SendsAt(env, c, moves, k)
                && NonceAt(env, c, moves, k) == Some(nonce)
  }

  lemma {:induction false} PrefixRun(env: Env, c: Cluster, moves: seq<Move>, i: nat)
    requires i <= |moves| && PossibleRun(env, c, moves)
    ensures PossibleRun(env, c, moves[..i])
  {
    hide Possible, Reach;
    var front := moves[..i];
    assert forall k :: 0 <= k < i ==> front[..k] == moves[..k] && front[k] == moves[k];
  }

  lemma SendsWithNonce(env: Env, c: Cluster, moves: seq<Move>, i: nat)
    requires Start(env, c) && PossibleRun(env, c, moves) && i < |moves| && ContactsAt(env, c, moves, i)
    ensures SendsAt(env, c, moves, i) <==> NonceAt(env, c, moves, i).Some?
  {
    hide Start, PossibleRun, Reach, Acts, Restore, Waits, Coherent, Checkpointable, Genuine, Covers, H.WellFormed;
    StartIsSafe(env, c);
    PrefixRun(env, c, moves, i);
    SystemIsSafe(env, c, moves[..i]);
    CheckpointableIffCoherent(Reach(env, c, moves[..i]).local);
    CoherentCore(Reach(env, c, moves[..i]).local);
    PhaseNonce(Reach(env, c, moves[..i]).local);
  }

  lemma PhaseNonce(m: Machine)
    requires Core(m)
    ensures m.nonce.Some? == !(m.phase.DiscoverDirectory? || m.phase.AcquireNonce?)
  {}

  /** The nonce of a request was issued with the latest answer its machine holds. */
  lemma NonceSource(env: Env, c: Cluster, moves: seq<Move>, xs: seq<Exchange>, i: nat) returns (k: nat)
    requires |moves| == |xs| && Start(env, c) && PossibleRun(env, c, moves)
    requires i <= |moves| && NonceAt(env, c, moves, i).Some?
    ensures k < i && Held(env, c, moves[..i]).local == Held(env, c, moves[..k]).local + [k]
    ensures var issued := IssuedAt(env, c, moves, xs, k);
            issued != [] && NonceAt(env, c, moves, i) == Some(issued[|issued| - 1])
    ensures ContactsAt(env, c, moves, k) && moves[k].turn.reply.Some?
    ensures CarriedNonce(moves[k].turn.reply.value) == [NonceAt(env, c, moves, i).value]
  {
    hide Start, PossibleRun, Reach, Held, Contacts, Checkpointable, Advanced;
    PrefixRun(env, c, moves, i);
    RunTracks(env, c, moves[..i]);
    LineagesRooted(env, c, moves[..i]);
    var h := Held(env, c, moves[..i]).local;
    k := h[|h| - 1];
    assert moves[..i][..k] == moves[..k];
    CarriesOne(moves[k].turn.reply.value);
  }

  lemma CarriesOne(event: Event)
    ensures |CarriedNonce(event)| <= 1
  {}

  /** Two machines carry the same nonce exactly when they hold the same answers. */
  lemma SameNonceIff(env: Env, c: Cluster, moves: seq<Move>, xs: seq<Exchange>, i: nat, j: nat)
    requires |moves| == |xs| && Start(env, c) && PossibleRun(env, c, moves) && Unrepeated(env, c, moves, xs)
    requires i <= |moves| && j <= |moves| && NonceAt(env, c, moves, i).Some? && NonceAt(env, c, moves, j).Some?
    ensures NonceAt(env, c, moves, i) == NonceAt(env, c, moves, j) <==>
            Held(env, c, moves[..i]).local == Held(env, c, moves[..j]).local
  {
    hide Start, PossibleRun, NonceAt, IssuedAt, Held, ContactsAt, CarriedNonce;
    var k := NonceSource(env, c, moves, xs, i);
    var l := NonceSource(env, c, moves, xs, j);
    var held, later := Held(env, c, moves[..i]).local, Held(env, c, moves[..j]).local;
    assert held[|held| - 1] == k && later[|later| - 1] == l;
  }

  /** What is held beyond an earlier machine starts with an answer to a request with its nonce. */
  lemma NextAnswer(env: Env, c: Cluster, moves: seq<Move>, xs: seq<Exchange>, i: nat, j: nat)
    requires |moves| == |xs| && Start(env, c) && PossibleRun(env, c, moves) && Unrepeated(env, c, moves, xs)
    requires i <= j <= |moves| && NonceAt(env, c, moves, i).Some?
    requires Held(env, c, moves[..i]).local != Held(env, c, moves[..j]).local
    ensures HoldsAnswerTo(env, c, moves, NonceAt(env, c, moves, i).value, j)
  {
    hide Start, PossibleRun, Unrepeated, Held, Reach, Contacts, NonceOf, Checkpointable, Advanced;
    AnswersAreKept(env, c, moves[..j], i);
    assert moves[..j][..i] == moves[..i];
    var held, later := Held(env, c, moves[..i]).local, Held(env, c, moves[..j]).local;
    AnswerRooted(env, c, moves[..j], |held|);
    var k := later[|held|];
    assert moves[..j][..k] == moves[..k] && later[..|held|] == held;
    PrefixRun(env, c, moves, i);
    PrefixRun(env, c, moves, k);
    RunTracks(env, c, moves[..i]);
    RunTracks(env, c, moves[..k]);
    SameSource(env, c, moves, i, k);
    SendsWithNonce(env, c, moves, k);
    assert later[|held|] in later;
  }

  lemma SameSource(env: Env, c: Cluster, moves: seq<Move>, i: nat, k: nat)
    requires i <= |moves| && k <= |moves| && Held(env, c, moves[..i]).local == Held(env, c, moves[..k]).local
    ensures NonceOf(moves[..i], Held(env, c, moves[..i]).local) == NonceOf(moves[..k], Held(env, c, moves[..k]).local)
  {
    hide Held, BringsBy, CarriedNonce, Reach;
    LineagesRooted(env, c, moves[..i]);
    LineagesRooted(env, c, moves[..k]);
  }

  lemma SameAnswers(env: Env, c: Cluster, moves: seq<Move>, xs: seq<Exchange>, i: nat, j: nat)
    requires |moves| == |xs| && Start(env, c) && PossibleRun(env, c, moves) && Unrepeated(env, c, moves, xs)
    requires i <= |moves| && j <= |moves| && NonceAt(env, c, moves, i).Some?
    requires Held(env, c, moves[..i]).local == Held(env, c, moves[..j]).local
    ensures !HoldsAnswerTo(env, c, moves, NonceAt(env, c, moves, i).value, j)
  {
    hide Start, PossibleRun, Unrepeated, Held, NonceAt, SendsAt, Reach, BringsBy;
    var h := Held(env, c, moves[..j]).local;
    if HoldsAnswerTo(env, c, moves, NonceAt(env, c, moves, i).value, j) {
      var k :| 0 <= k < j && k in h && SendsAt(env, c, moves, k)
               && NonceAt(env, c, moves, k) == NonceAt(env, c, moves, i);
      SameNonceIff(env, c, moves, xs, i, k);
      var p :| 0 <= p < |h| && h[p] == k;
      assert moves[..j][..k] == moves[..k];
      AnswerRooted(env, c, moves[..j], p);
      assert false;
    }
  }

  /**
   * If the CA hands out no nonce twice, then along every run of the system, whatever answers were
   * refused, late or lost and whatever workers took over: a signed request carries the nonce of an
   * earlier one exactly when neither is a retry and the machine that sends it holds no answer to any
   * request with that nonce. That is so exactly when the two machines hold the same answers.
   */
  lemma RequestRepeatsIff(env: Env, c: Cluster, moves: seq<Move>, xs: seq<Exchange>, i: nat, p: nat, j: nat, q: nat)
    requires |moves| == |xs| && Start(env, c) && PossibleRun(env, c, moves) && Unrepeated(env, c, moves, xs)
    requires i <= j < |moves| && p < |SentAt(env, c, moves, xs, i)| && q < |SentAt(env, c, moves, xs, j)|
    requires i == j ==> p < q
    ensures SentAt(env, c, moves, xs, i)[p] == SentAt(env, c, moves, xs, j)[q] <==>
            p == 0 && q == 0 && !HoldsAnswerTo(env, c, moves, SentAt(env, c, moves, xs, i)[p], j)
    ensures SentAt(env, c, moves, xs, i)[p] == SentAt(env, c, moves, xs, j)[q] <==>
            p == 0 && q == 0 && Held(env, c, moves[..i]).local == Held(env, c, moves[..j]).local
  {
    hide Start, PossibleRun, Unrepeated, Held, NonceAt, SendsAt, HoldsAnswerTo;
    if p == 0 && q == 0 {
      SameNonceIff(env, c, moves, xs, i, j);
      if Held(env, c, moves[..i]).local == Held(env, c, moves[..j]).local {
        SameAnswers(env, c, moves, xs, i, j);
      } else {
        NextAnswer(env, c, moves, xs, i, j);
      }
    } else if p == 1 {
      RetryIsNew(env, c, moves, xs, i, j, q);
    } else {
      RetryIsNew(env, c, moves, xs, j, i, p);
    }
  }

  /** The nonce of a retry is the one of the problem just received, and no other request carries it. */
  lemma RetryIsNew(env: Env, c: Cluster, moves: seq<Move>, xs: seq<Exchange>, i: nat, j: nat, q: nat)
    requires |moves| == |xs| && Start(env, c) && PossibleRun(env, c, moves) && Unrepeated(env, c, moves, xs)
    requires i < |moves| && j < |moves| && |SentAt(env, c, moves, xs, i)| == 2 && q < |SentAt(env, c, moves, xs, j)|
    requires i == j ==> q == 0
    ensures SentAt(env, c, moves, xs, i)[1] == xs[i].first.nonce.value != SentAt(env, c, moves, xs, j)[q]
  {
    hide Start, PossibleRun, NonceAt, SendsAt, ContactsAt, Held, CarriedNonce;
    assert IssuedAt(env, c, moves, xs, i)[0] == xs[i].first.nonce.value;
    if q == 0 {
      var k := NonceSource(env, c, moves, xs, j);
      var issued := IssuedAt(env, c, moves, xs, k);
      if xs[i].first.nonce.value == issued[|issued| - 1] {
        assert false;
      }
    } else {
      assert IssuedAt(env, c, moves, xs, j)[0] == xs[j].first.nonce.value;
    }
  }

  // ---------------------------------------------------------------- the request after

  /** Neither an exchange with the CA nor a handover. */
  predicate Quiet(env: Env, c: Cluster, moves: seq<Move>, i: nat, j: nat)
    requires i <= j <= |moves|
  {
    forall k :: i <= k < j ==> !moves[k].Replace? && !ContactsAt(env, c, moves, k)
  }

  lemma HeldStep(env: Env, c: Cluster, moves: seq<Move>, i: nat)
    requires i < |moves|
    ensures Held(env, c, moves[..i + 1])
         == Inherit(env, Reach(env, c, moves[..i]), moves[i], i, Held(env, c, moves[..i]))
  {
    hide Inherit, Reach;
    assert moves[..i + 1][..i] == moves[..i];
  }

  lemma {:induction false} QuietKeeps(env: Env, c: Cluster, moves: seq<Move>, i: nat, j: nat)
    requires i <= j <= |moves| && Quiet(env, c, moves, i, j)
    ensures Held(env, c, moves[..j]).local == Held(env, c, moves[..i]).local
    decreases j
  {
    hide Next, Reach, Contacts, Advanced, Held, Checkpointable;
    if i < j {
      QuietKeeps(env, c, moves, i, j - 1);
      HeldStep(env, c, moves, j - 1);
      assert !BringsBy(env, Reach(env, c, moves[..j - 1]), moves[j - 1]);
    }
  }

  /**
   * The next request of the same worker repeats the nonce, except when the answer came in time, was
   * accepted with a nonce into a state that can be checkpointed, and its commit is known.
   */
  lemma NextRepeatsIff(env: Env, c: Cluster, moves: seq<Move>, xs: seq<Exchange>, i: nat, j: nat)
    requires |moves| == |xs| && Start(env, c) && PossibleRun(env, c, moves) && Unrepeated(env, c, moves, xs)
    requires i < j < |moves| && SendsAt(env, c, moves, i) && SendsAt(env, c, moves, j)
    requires Quiet(env, c, moves, i + 1, j)
    ensures NonceAt(env, c, moves, i) == NonceAt(env, c, moves, j) <==>
            !(BringsBy(env, Reach(env, c, moves[..i]), moves[i]) && moves[i].turn.commit.Committed?)
  {
    hide Start, PossibleRun, Unrepeated, Held, NonceAt, Reach, Quiet, Contacts, Brings, Next;
    SendsWithNonce(env, c, moves, i);
    SendsWithNonce(env, c, moves, j);
    SameNonceIff(env, c, moves, xs, i, j);
    QuietKeeps(env, c, moves, i + 1, j);
    HeldStep(env, c, moves, i);
    var h := Held(env, c, moves[..i]);
    assert |h.local + [i]| != |h.local|;
  }

  /**
   * If a replacement takes over right after a request, its first request repeats the nonce, except
   * when the answer reached the checkpoint or an earlier answer, lost to the old worker, is still there.
   */
  lemma HandoverRepeatsIff(env: Env, c: Cluster, moves: seq<Move>, xs: seq<Exchange>, i: nat, j: nat)
    requires |moves| == |xs| && Start(env, c) && PossibleRun(env, c, moves) && Unrepeated(env, c, moves, xs)
    requires i + 1 < j < |moves| && SendsAt(env, c, moves, i) && SendsAt(env, c, moves, j)
    requires moves[i + 1].Replace?
    requires ResumeUnderFence(Reach(env, c, moves[..i + 1]).durable, moves[i + 1].epoch).result.Ok?
    requires Quiet(env, c, moves, i + 2, j)
    ensures NonceAt(env, c, moves, i) == NonceAt(env, c, moves, j) <==>
            var at, h, turn := Reach(env, c, moves[..i]), Held(env, c, moves[..i]), moves[i].turn;
            && !(BringsBy(env, at, moves[i]) && (turn.commit.Committed? || turn.commit.applied))
            && (h.durable == h.local || Next(env, at, moves[i]).durable != at.durable)
  {
    hide Start, PossibleRun, Unrepeated, Held, NonceAt, Reach, Quiet, Contacts, Brings, Next, ResumeUnderFence;
    SendsWithNonce(env, c, moves, i);
    SendsWithNonce(env, c, moves, j);
    SameNonceIff(env, c, moves, xs, i, j);
    QuietKeeps(env, c, moves, i + 2, j);
    HeldStep(env, c, moves, i);
    HeldStep(env, c, moves, i + 1);
    LostChangesNothing(env, Reach(env, c, moves[..i]), moves[i]);
    var h := Held(env, c, moves[..i]);
    assert |h.local + [i]| != |h.local|;
  }

  lemma LostChangesNothing(env: Env, c: Cluster, move: Move)
    ensures BringsBy(env, c, move) && move.turn.commit == Lost(false) ==> Next(env, c, move).durable == c.durable
  {
    hide PublishCall, CleanupCall, Checkpointable, AdvanceWithRetry, Waits;
  }
}
