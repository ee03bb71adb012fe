/**
 * An order across processes. Every process has its own HTTP-01 catalogue; the durable checkpoint is
 * shared; the order runs in one process at a time and may move at any point, also while the process
 * it leaves goes on running and serving.
 */
module OrderCluster {
  import opened Basics
  import opened Wire
  import opened OrderMachine
  import opened Checkpoint
  import opened OrderSystem
  import CP = ChallengePayload
  import P = Publication
  import H = Http01

  type Process = nat

  /**
   * `found` records which tokens of the order were already in the catalogue of the current process
   * when the order came there; no operation reads it.
   */
  datatype Cluster = Cluster(
    durable: Machine, local: Machine, visible: bool, home: Process, catalogues: map<Process, H.Catalogue>,
    found: set<Text>)

  function Shelf(c: Cluster, q: Process): H.Catalogue { if q in c.catalogues then c.catalogues[q] else map[] }

  /** The order as its current process sees it. */
  function Here(c: Cluster): World { World(c.durable, c.local, c.visible, Shelf(c, c.home)) }

  function Stay(env: Env, c: Cluster): Env { env.(left := c.found) }

  /**
   * A worker step; a replacement worker under a new fence, in this or another process, which may
   * have restarted; another process restarting; or a catalogue step of another order anywhere.
   */
  datatype Move =
    | WorkMove(turn: Turn)
    | Replace(epoch: U64, process: Process, restarted: bool)
    | Restarted(process: Process)
    | Elsewhere(process: Process, step: H.Step)

  function Next(env: Env, c: Cluster, move: Move): Cluster {
    match move
    case WorkMove(turn) =>
      var w := Work(Stay(env, c), Here(c), turn);
      c.(durable := w.durable, local := w.local, visible := w.visible, catalogues := c.catalogues[c.home := w.records])
    case Replace(epoch, process, restarted) =>
      var t := ResumeUnderFence(c.durable, epoch);
      if t.result.Err? then c
      else
        Cluster(c.durable, t.machine, false, process,
                if restarted then c.catalogues[process := map[]] else c.catalogues,
                if restarted then {}
                else if process == c.home then c.found
                else set token | token in env.own && token in Shelf(c, process))
    case Restarted(process) => if process == c.home then c else c.(catalogues := c.catalogues[process := map[]])
    case Elsewhere(process, step) =>
      c.(catalogues := c.catalogues[process := H.Apply(env.sha, Shelf(c, process), step)])
  }

  predicate Possible(env: Env, c: Cluster, move: Move) {
    match move
    case WorkMove(turn) => OrderSystem.Allowed(Stay(env, c), turn)
    case Elsewhere(_, step) => forall token :: token in env.own ==> !H.Targets(step, token)
    case _ => true
  }

  function Reach(env: Env, c: Cluster, moves: seq<Move>): Cluster
    decreases moves
  {
    if moves == [] then c else Next(env, Reach(env, c, moves[..|moves| - 1]), moves[|moves| - 1])
  }

  predicate PossibleRun(env: Env, c: Cluster, moves: seq<Move>) {
    forall i :: 0 <= i < |moves| ==> Possible(env, Reach(env, c, moves[..i]), moves[i])
  }

  // ---------------------------------------------------------------- the current process

  predicate SafeCluster(env: Env, c: Cluster) {
    && Safe(Stay(env, c), Here(c))
    && forall q :: q in c.catalogues ==> H.WellFormed(c.catalogues[q])
  }

  lemma ResumedSound(env: Env, m: Machine, epoch: U64)
    requires Sound(env, m) && ResumeUnderFence(m, epoch).result.Ok?
    ensures Sound(env, ResumeUnderFence(m, epoch).machine)
    ensures ResumeUnderFence(m, epoch).machine == m.(orderEpoch := epoch)
  {
    hide Checkpointable, Coherent, Genuine, H.RecordFor, ActionFor;
    var n := m.(orderEpoch := epoch);
    CheckpointableIffCoherent(m);
    ResumeKeepsCoherent(m, epoch);
    CheckpointableIffCoherent(n);
  }

  /** Steps of other orders leave the order's own tokens alone, in every process. */
  lemma ElsewhereKeeps(env: Env, records: H.Catalogue, step: H.Step, token: Text)
    requires H.WellFormed(records) && !H.Targets(step, token)
    ensures (token in H.Apply(env.sha, records, step)) == (token in records)
    ensures token in records ==> H.Apply(env.sha, records, step)[token] == records[token]
  {
    hide H.Apply, H.WellFormed, H.Targets;
    H.StepRespectsFence(env.sha, records, step, token);
  }

  lemma ElsewhereCovers(env: Env, records: H.Catalogue, step: H.Step, publication: PublicationState)
    requires H.WellFormed(records) && Covers(env, publication, records)
    requires forall token :: token in env.own ==> !H.Targets(step, token)
    ensures Covers(env, publication, H.Apply(env.sha, records, step))
  {
    hide H.Apply, H.Targets, H.RecordFor, H.TokenOf, H.Cleanable, H.WellFormed;
    forall token | token in env.own
      ensures (token in H.Apply(env.sha, records, step)) == (token in records)
      ensures token in records ==> H.Apply(env.sha, records, step)[token] == records[token]
    {
      ElsewhereKeeps(env, records, step, token);
    }
  }

  /** Soundness of a machine does not depend on what earlier stays left behind. */
  lemma SoundAnywhere(env: Env, left: set<Text>, m: Machine)
    ensures Sound(env.(left := left), m) <==> Sound(env, m)
  {
    hide Checkpointable, H.RecordFor, CP.DecodeHttp, P.Capture, H.Cleanable;
    if m.publication.Retained? {
      assert Base(env.(left := left), m.publication.publication) == Base(env, m.publication.publication);
    }
  }

  lemma EverythingFound(env: Env, publication: PublicationState, records: H.Catalogue)
    requires forall token :: token in env.own && token in records ==> token in env.left
    ensures Covers(env, publication, records)
  {}

  lemma ReplaceSafe(env: Env, c: Cluster, epoch: U64, process: Process, restarted: bool)
    requires SafeCluster(env, c)
    ensures SafeCluster(env, Next(env, c, Replace(epoch, process, restarted)))
  {
    hide Sound, Covers, H.WellFormed, ResumeUnderFence;
    if ResumeUnderFence(c.durable, epoch).result.Ok? {
      var d := Next(env, c, Replace(epoch, process, restarted));
      ResumedSound(Stay(env, c), c.durable, epoch);
      SoundAnywhere(Stay(env, c), d.found, d.local);
      SoundAnywhere(Stay(env, c), d.found, d.durable);
      assert Stay(env, c).(left := d.found) == Stay(env, d);
      EmptyCatalogue();
      if restarted || process != c.home {
        EverythingFound(Stay(env, d), d.local.publication, Shelf(d, process));
      }
    }
  }

  lemma EmptyCatalogue()
    ensures H.WellFormed(map[])
  {}

  lemma NextSafe(env: Env, c: Cluster, move: Move)
    requires SafeCluster(env, c) && Possible(env, c, move)
    ensures SafeCluster(env, Next(env, c, move))
  {
    hide Sound, Covers, Work, H.WellFormed, H.Apply, ResumeUnderFence, OrderSystem.Allowed, H.Targets;
    match move
    case WorkMove(turn) => WorkSafe(Stay(env, c), Here(c), turn);
    case Replace(epoch, process, restarted) => ReplaceSafe(env, c, epoch, process, restarted);
    case Restarted(_) => EmptyCatalogue();
    case Elsewhere(process, step) =>
      EmptyCatalogue();
      H.ApplyKeepsWellFormed(env.sha, Shelf(c, process), step);
      if process == c.home {
        ElsewhereCovers(Stay(env, c), Shelf(c, process), step, c.local.publication);
        ElsewhereCovers(Stay(env, c), Shelf(c, process), step, c.durable.publication);
      }
  }

  /** Every state the cluster can reach is safe in the process where the order runs. */
  lemma {:induction false} SystemIsSafe(env: Env, c: Cluster, moves: seq<Move>)
    requires SafeCluster(env, c) && PossibleRun(env, c, moves)
    ensures SafeCluster(env, Reach(env, c, moves))
    decreases moves
  {
    hide SafeCluster, Next, Possible;
    if moves != [] {
      PrefixPossible(env, c, moves);
      SystemIsSafe(env, c, moves[..|moves| - 1]);
      NextSafe(env, Reach(env, c, moves[..|moves| - 1]), moves[|moves| - 1]);
    }
  }

  lemma PrefixPossible(env: Env, c: Cluster, moves: seq<Move>)
    requires moves != [] && PossibleRun(env, c, moves)
    ensures PossibleRun(env, c, moves[..|moves| - 1])
    ensures Possible(env, Reach(env, c, moves[..|moves| - 1]), moves[|moves| - 1])
  {
    hide Possible, Reach;
    var front := moves[..|moves| - 1];
    assert forall i :: 0 <= i < |front| ==> front[..i] == moves[..i] && front[i] == moves[i];
  }

  /** A new order, none of whose tokens is in any catalogue yet. */
  predicate Start(env: Env, c: Cluster) {
    && env.revision != 0 && c.found == {}
    && c.local == c.durable && Checkpointable(c.local) && c.local.phase.DiscoverDirectory?
    && forall q :: q in c.catalogues ==>
                     H.WellFormed(c.catalogues[q]) && forall token :: token in env.own ==> token !in c.catalogues[q]
  }

  lemma StartIsSafe(env: Env, c: Cluster)
    requires Start(env, c)
    ensures SafeCluster(env, c)
  {
    hide H.RecordFor, CP.DecodeHttp, P.Capture, H.Cleanable;
    EmptyCatalogue();
  }

  /**
   * In the process where the order runs: whatever interruptions, lost commits and handovers
   * occurred, any challenge of the order that is served is the one of the durable checkpoint, and
   * nothing is served once that checkpoint is past its challenges, except for records that were
   * already there when the order came to this process.
   */
  lemma OrderLeavesNothingBehind(env: Env, c: Cluster, moves: seq<Move>, token: Text, now: I64)
    requires Start(env, c) && PossibleRun(env, c, moves) && token in env.own
    requires token !in Reach(env, c, moves).found
    ensures var end := Reach(env, c, moves);
            var served := H.Response(Shelf(end, end.home), token, now);
            && (served.Some? ==>
                  && HasChallengePhase(end.durable.phase)
                  && end.durable.challenge.Some? && end.durable.challenge.value.token == token
                  && served == Some(KeyAuthorization(env, token)))
            && (token in Shelf(end, end.home) ==>
                  forall other :: other in env.own && other !in end.found && other in Shelf(end, end.home) ==>
                                    other == token)
  {
    hide Safe, Reach, PossibleRun, Start, CP.ValidToken;
    StartIsSafe(env, c);
    SystemIsSafe(env, c, moves);
    var end := Reach(env, c, moves);
    ServedIsDurable(Stay(env, end), Here(end), token);
  }

  // ---------------------------------------------------------------- composing runs

  lemma SingleMove(env: Env, c: Cluster, move: Move)
    ensures Reach(env, c, [move]) == Next(env, c, move)
    ensures PossibleRun(env, c, [move]) <==> Possible(env, c, move)
  {
    hide Next, Possible;
    assert [move][..0] == [];
    assert Reach(env, c, [move][..0]) == c;
  }

  lemma {:induction false} ReachAppends(env: Env, c: Cluster, moves: seq<Move>, rest: seq<Move>)
    ensures Reach(env, c, moves + rest) == Reach(env, Reach(env, c, moves), rest)
    decreases rest
  {
    hide Next;
    if rest == [] {
      assert moves + rest == moves;
    } else {
      var front := rest[..|rest| - 1];
      assert (moves + rest)[..|moves + rest| - 1] == moves + front;
      ReachAppends(env, c, moves, front);
    }
  }

  lemma RunAppends(env: Env, c: Cluster, moves: seq<Move>, rest: seq<Move>)
    requires PossibleRun(env, c, moves) && PossibleRun(env, Reach(env, c, moves), rest)
    ensures PossibleRun(env, c, moves + rest)
    ensures Reach(env, c, moves + rest) == Reach(env, Reach(env, c, moves), rest)
  {
    hide Next, Possible, Reach;
    ReachAppends(env, c, moves, rest);
    var run := moves + rest;
    forall i | 0 <= i < |run|
      ensures Possible(env, Reach(env, c, run[..i]), run[i])
    {
      if i < |moves| {
        assert run[..i] == moves[..i];
      } else {
        var j := i - |moves|;
        assert run[..i] == moves + rest[..j] && run[i] == rest[j];
        ReachAppends(env, c, moves, rest[..j]);
      }
    }
  }
}
