/**
 * Replay nonces of one machine that every answer advances in place (section 6.5 of RFC 8555): which
 * are taken over, and which go out twice. OrderRequests has the requests of the whole system, whose
 * workers advance a copy.
 */
module OrderNonces {
  import opened Basics
  import opened Wire
  import opened OrderMachine
  import opened Checkpoint
  import opened OrderRuns

  // ---------------------------------------------------------------- the ledger of answers taken over

  function CarriedNonce(event: Event): seq<Text> {
    match event
    case NonceAcquired(nonce) => [nonce]
    case AccountCreated(_, nonce) => [nonce]
    case OrderCreated(_, _, nonce) => [nonce]
    case AuthorizationFetched(_, nonce) => [nonce]
    case ChallengeNotified(nonce) => [nonce]
    case AuthorizationPolled(_, nonce) => [nonce]
    case OrderFinalized(_, nonce) => [nonce]
    case OrderPolled(_, nonce) => [nonce]
    case _ => []
  }

  /** Answers to signed requests, which used up the nonce those requests carried. */
  predicate AnswersSigned(event: Event) {
    (CarriedNonce(event) != [] && !event.NonceAcquired?) || event.CertificateDownloaded?
  }

  /** An answer whose nonce the machine takes over: accepted, or refused for lack of a challenge. */
  predicate Taken(m: Machine, op: Op) {
    op.Feed?
    && var t := AdvanceWithRetry(m, op.event, op.receivedAt, op.retry);
       t.result.Ok? || (op.event.AuthorizationFetched? && t.result == Err(MachineError.UnsupportedChallenge))
  }

  function Receives(m: Machine, op: Op): seq<Text> {
    if Taken(m, op) then CarriedNonce(op.event) else []
  }

  function Spends(m: Machine, op: Op): seq<Text> {
    if Taken(m, op) && AnswersSigned(op.event) && m.nonce.Some? then [m.nonce.value] else []
  }

  function Collected(m: Machine, ops: seq<Op>, part: (Machine, Op) -> seq<Text>): seq<Text>
    decreases ops
  {
    if ops == [] then []
    else
      var front := ops[..|ops| - 1];
      Collected(m, front, part) + part(Final(m, front), ops[|ops| - 1])
  }

  /** The nonce the next signed request will carry, if any is still unspent. */
  function Unspent(m: Machine): seq<Text> {
    if m.nonce.Some? && !m.phase.Complete? then [m.nonce.value] else []
  }

  lemma ReactNonce(m: Machine, event: Event)
    requires Core(m) && React(m, event).result.Ok?
    ensures CarriedNonce(event) != [] ==> React(m, event).machine.nonce == Some(CarriedNonce(event)[0])
    ensures CarriedNonce(event) == [] ==> React(m, event).machine.nonce == m.nonce
  {
    hide Core, AcceptOrder, AcceptOrderUpdate, AcceptAuthorization, CompleteChallenge, ValidateRemoteIdentity;
  }

  lemma UnsupportedNonce(m: Machine, event: Event)
    requires Coherent(m) && event.AuthorizationFetched?
    requires React(m, event).result == Err(MachineError.UnsupportedChallenge)
    ensures React(m, event).machine.nonce == Some(event.replayNonce) && m.phase.FetchAuthorization?
  {
    hide Identified, RemoteSound, OrderSound, AuthorizationSound, ChallengeSound, ResultsSound, ProgressSound,
         PublicationShape, SelectChallenge;
  }

  lemma StepLedger(m: Machine, op: Op)
    requires Coherent(m) && WireOp(op)
    ensures Unspent(m) + Receives(m, op) == Spends(m, op) + Unspent(Apply(m, op).machine)
  {
    if op.Feed? && Taken(m, op) {
      TakenLedger(m, op);
    } else {
      UntakenLedger(m, op);
    }
  }

  /** The deadline bookkeeping around a transition touches neither nonce nor phase. */
  lemma RetryExposes(m: Machine, event: Event, receivedAt: I64, retry: Option<RetryAfter>)
    requires receivedAt >= 0
    ensures var t := AdvanceWithRetry(m, event, receivedAt, retry);
            && t.result.Ok? == React(m, event).result.Ok?
            && (t.result.Err? ==> t == React(m, event))
            && t.machine.phase == React(m, event).machine.phase && t.machine.nonce == React(m, event).machine.nonce
  {
    hide React;
  }

  lemma AcceptedLedger(m: Machine, op: Op)
    requires Coherent(m) && op.Feed? && Apply(m, op).accepted
    ensures Unspent(m) + Receives(m, op) == Spends(m, op) + Unspent(Apply(m, op).machine)
  {
    hide Core, React, AdvanceWithRetry, ScheduleSound, Moves;
    assert op.receivedAt >= 0 by { NegativeRefused(m, op); }
    RetryExposes(m, op.event, op.receivedAt, op.retry);
    CorePresent(m);
    ReactNonce(m, op.event);
    CompletesIff(m, op.event);
  }

  lemma NegativeRefused(m: Machine, op: Op)
    requires op.Feed? && Apply(m, op).accepted
    ensures op.receivedAt >= 0
  {
    hide Advance;
  }

  lemma CompletesIff(m: Machine, event: Event)
    requires Core(m) && React(m, event).result.Ok?
    ensures Expected(m.phase, event)
    ensures React(m, event).machine.phase.Complete? <==> event.CertificateDownloaded?
  {
    hide Core, React;
    ReactMoves(m, event);
  }

  lemma TakenLedger(m: Machine, op: Op)
    requires Coherent(m) && WireOp(op) && Taken(m, op)
    ensures Unspent(m) + Receives(m, op) == Spends(m, op) + Unspent(Apply(m, op).machine)
  {
    hide Core, React, WireEvent, ScheduleSound, AdvanceWithRetry;
    if Apply(m, op).accepted {
      AcceptedLedger(m, op);
    } else {
      NegativeIsInput(m, op);
      RetryExposes(m, op.event, op.receivedAt, op.retry);
      CorePresent(m);
      UnsupportedNonce(m, op.event);
      RefusedPhase(m, op.event);
    }
  }

  lemma NegativeIsInput(m: Machine, op: Op)
    requires op.Feed?
    requires AdvanceWithRetry(m, op.event, op.receivedAt, op.retry).result == Err(MachineError.UnsupportedChallenge)
    ensures op.receivedAt >= 0
  {
    hide Advance;
  }

  lemma RefusedPhase(m: Machine, event: Event)
    requires Core(m) && WireEvent(event) && React(m, event).result.Err?
    ensures React(m, event).machine.phase == m.phase
  {
    hide Core, React, WireEvent, Contradicts;
    ReactKeeps(m, event);
  }

  lemma UntakenLedger(m: Machine, op: Op)
    requires Coherent(m) && WireOp(op) && !Taken(m, op)
    ensures Unspent(m) == Unspent(Apply(m, op).machine)
  {
    hide Identified, RemoteSound, OrderSound, AuthorizationSound, ChallengeSound, ResultsSound, ProgressSound,
         PublicationShape, ScheduleSound, AdvanceWithRetry, ActionFor, ValidatePublicationMaterial, Contradicts,
         WireEvent;
    if op.Feed? {
      RetryKeepsCoherent(m, op.event, op.receivedAt, op.retry);
    }
  }

  /**
   * The ledger of answers taken over: along every run their nonces are, in order, the nonces of the
   * requests those answers belong to, followed by the one held. Refused answers are not in it.
   */
  lemma {:induction false} NonceLedger(m: Machine, ops: seq<Op>)
    requires Coherent(m) && WireOps(ops)
    ensures Unspent(m) + Collected(m, ops, Receives) == Collected(m, ops, Spends) + Unspent(Final(m, ops))
    decreases ops
  {
    hide Coherent, Apply, Unspent, Receives, Spends;
    if ops != [] {
      var front, op := ops[..|ops| - 1], ops[|ops| - 1];
      var before := Final(m, front);
      NonceLedger(m, front);
      RunsAreCoherent(m, front);
      StepLedger(before, op);
      calc {
        Unspent(m) + Collected(m, ops, Receives);
        (Unspent(m) + Collected(m, front, Receives)) + Receives(before, op);
        (Collected(m, front, Spends) + Unspent(before)) + Receives(before, op);
        Collected(m, front, Spends) + (Unspent(before) + Receives(before, op));
        Collected(m, front, Spends) + (Spends(before, op) + Unspent(Final(m, ops)));
        Collected(m, ops, Spends) + Unspent(Final(m, ops));
      }
    }
  }

  // ---------------------------------------------------------------- requests sent, refusals included

  /** The answer to the signed request of the current phase, whether or not the machine accepts it. */
  predicate Answered(m: Machine, op: Op) {
    op.Feed? && AnswersSigned(op.event) && Expected(m.phase, op.event)
  }

  /** The CA has used up the request's nonce and sent a fresh one, and the machine keeps the old one. */
  predicate Refuses(m: Machine, op: Op) { Answered(m, op) && !Taken(m, op) }

  function Uses(m: Machine, op: Op): seq<Text> {
    if Answered(m, op) && m.nonce.Some? then [m.nonce.value] else []
  }

  function Refusals(m: Machine, op: Op): nat { if Refuses(m, op) then 1 else 0 }

  predicate RefusesAt(m: Machine, ops: seq<Op>, i: nat)
    requires i < |ops|
  {
    Refuses(Final(m, ops[..i]), ops[i])
  }

  predicate AnsweredAt(m: Machine, ops: seq<Op>, i: nat)
    requires i < |ops|
  {
    Answered(Final(m, ops[..i]), ops[i])
  }

  /** A request whose answer is taken over is the request of the current phase. */
  lemma TakenIsExpected(m: Machine, op: Op)
    requires Coherent(m) && Taken(m, op)
    ensures op.Feed? && Expected(m.phase, op.event)
  {
    hide Core, React, AdvanceWithRetry, ScheduleSound;
    if Apply(m, op).accepted {
      NegativeRefused(m, op);
      RetryExposes(m, op.event, op.receivedAt, op.retry);
      CompletesIff(m, op.event);
    } else {
      NegativeIsInput(m, op);
      RetryExposes(m, op.event, op.receivedAt, op.retry);
      UnsupportedNonce(m, op.event);
    }
  }

  lemma UsesAreSpent(m: Machine, op: Op)
    requires Coherent(m) && WireOp(op)
    ensures Taken(m, op) ==> Uses(m, op) == Spends(m, op)
    ensures Refuses(m, op) ==> Uses(m, op) == Unspent(m) && |Unspent(m)| == 1
    ensures Answered(m, op) ==> Uses(m, op) == Unspent(m)
  {
    hide Core, Taken, ScheduleSound;
    CorePresent(m);
    if Taken(m, op) {
      TakenIsExpected(m, op);
    }
  }

  lemma StepUses(m: Machine, op: Op)
    requires Coherent(m) && WireOp(op)
    ensures var n := Apply(m, op).machine;
            && |Uses(m, op)| + |Unspent(n)| == |Unspent(m)| + |Receives(m, op)| + Refusals(m, op)
            && Elements(Uses(m, op) + Unspent(n)) == Elements(Unspent(m) + Receives(m, op))
  {
    hide Coherent, Apply, Taken, Expected, Unspent;
    StepLedger(m, op);
    UsesAreSpent(m, op);
    var n := Apply(m, op).machine;
    if Taken(m, op) {
      assert Uses(m, op) + Unspent(n) == Unspent(m) + Receives(m, op);
      assert |Uses(m, op) + Unspent(n)| == |Unspent(m) + Receives(m, op)|;
    } else {
      assert Unspent(m) + [] == Unspent(m) && [] + Unspent(n) == Unspent(n);
    }
  }

  /**
   * Conservation: along every run the requests answered and the one that would go out next carry
   * exactly the nonces taken over, each once, plus one repetition for every refused answer.
   */
  lemma {:induction false} UsesLedger(m: Machine, ops: seq<Op>)
    requires Coherent(m) && WireOps(ops)
    ensures |Collected(m, ops, Uses)| + |Unspent(Final(m, ops))|
            == |Unspent(m)| + |Collected(m, ops, Receives)| + Total(m, ops, Refusals)
    ensures Elements(Collected(m, ops, Uses) + Unspent(Final(m, ops)))
            == Elements(Unspent(m) + Collected(m, ops, Receives))
    decreases ops
  {
    hide Coherent, Apply, Unspent, Receives, Uses, Refusals;
    if ops != [] {
      var front, op := ops[..|ops| - 1], ops[|ops| - 1];
      var before := Final(m, front);
      UsesLedger(m, front);
      RunsAreCoherent(m, front);
      StepUses(before, op);
      ElementsChain(Collected(m, front, Uses), Uses(before, op), Unspent(Final(m, ops)), Unspent(before),
                    Receives(before, op), Unspent(m) + Collected(m, front, Receives));
      assert Unspent(m) + Collected(m, ops, Receives)
          == (Unspent(m) + Collected(m, front, Receives)) + Receives(before, op);
    }
  }

  lemma ElementsChain(sent: seq<Text>, uses: seq<Text>, next: seq<Text>, held: seq<Text>, got: seq<Text>,
                      all: seq<Text>)
    requires Elements(sent + held) == Elements(all)
    requires Elements(uses + next) == Elements(held + got)
    ensures Elements((sent + uses) + next) == Elements(all + got)
  {
    ElementsUnion(sent, held);
    ElementsUnion(uses, next);
    ElementsUnion(held, got);
    ElementsUnion(all, got);
    ElementsUnion(sent, uses);
    ElementsUnion(sent + uses, next);
  }

  lemma ElementsUnion(a: seq<Text>, b: seq<Text>)
    ensures Elements(a + b) == Elements(a) + Elements(b)
  {}

  lemma {:induction false} SomeRefusal(m: Machine, ops: seq<Op>)
    ensures Total(m, ops, Refusals) > 0 <==> exists i :: 0 <= i < |ops| && RefusesAt(m, ops, i)
    decreases ops
  {
    hide Apply, Refuses;
    if ops != [] {
      var front := ops[..|ops| - 1];
      SomeRefusal(m, front);
      assert forall i :: 0 <= i < |front| ==> front[..i] == ops[..i];
      assert RefusesAt(m, ops, |front|) == Refuses(Final(m, front), ops[|front|]);
      assert forall i :: 0 <= i < |front| ==> RefusesAt(m, ops, i) == RefusesAt(m, front, i);
    }
  }

  /** The start of an order holds no nonce. */
  lemma FreshHoldsNone(m: Machine)
    requires Fresh(m)
    ensures Unspent(m) == []
  {
    hide Core;
    CorePresent(m);
  }

  /**
   * A machine advanced in place: if the CA never repeats a nonce, then along every run some request
   * was or will be sent with a nonce that an answered request already carried, if and only if some
   * answer was refused other than for lack of a supported challenge, a refusal that takes the fresh
   * nonce over before it fails.
   */
  lemma NonceRepeatsIff(m: Machine, ops: seq<Op>)
    requires Fresh(m) && WireOps(ops)
    requires NoDuplicates(Collected(m, ops, Receives))
    ensures var sent := Collected(m, ops, Uses) + Unspent(Final(m, ops));
            && |sent| == |Elements(sent)| + Total(m, ops, Refusals)
            && (!NoDuplicates(sent) <==> exists i :: 0 <= i < |ops| && RefusesAt(m, ops, i))
  {
    hide Fresh, Final, Collected, Unspent, RefusesAt, Coherent;
    FreshCoherent(m);
    FreshHoldsNone(m);
    UsesLedger(m, ops);
    SomeRefusal(m, ops);
    var received, sent := Collected(m, ops, Receives), Collected(m, ops, Uses) + Unspent(Final(m, ops));
    assert Unspent(m) + received == received;
    ElementsSize(received);
    DistinctIff(sent);
  }

  lemma FreshCoherent(m: Machine)
    requires Fresh(m)
    ensures Coherent(m)
  {}

  lemma {:induction false} DistinctIff(s: seq<Text>)
    ensures NoDuplicates(s) <==> |Elements(s)| == |s|
    ensures |Elements(s)| <= |s|
  {
    if s != [] {
      var front, last := s[..|s| - 1], s[|s| - 1];
      DistinctIff(front);
      assert Elements(s) == Elements(front) + {last};
      if last in front {
        var i :| 0 <= i < |front| && front[i] == last;
        assert s[i] == s[|s| - 1] && Elements(s) == Elements(front);
      } else {
        assert forall i :: 0 <= i < |front| ==> s[i] == front[i];
        assert NoDuplicates(s) ==> NoDuplicates(front);
      }
    }
  }

  /**
   * The same among answered requests alone, which also covers orders that end in retirement: two of
   * them carried the same nonce if and only if a refused answer was followed by another answer.
   */
  lemma {:induction false} AnsweredRepeatsIff(m: Machine, ops: seq<Op>)
    requires Fresh(m) && WireOps(ops)
    requires NoDuplicates(Collected(m, ops, Receives))
    ensures !NoDuplicates(Collected(m, ops, Uses)) <==>
            exists i, j :: 0 <= i < j < |ops| && RefusesAt(m, ops, i) && AnsweredAt(m, ops, j)
    decreases ops
  {
    hide Fresh, Apply, Unspent, Refuses, Answered, Receives, Coherent;
    if ops != [] {
      var front, op, k := ops[..|ops| - 1], ops[|ops| - 1], |ops| - 1;
      var before := Final(m, front);
      PrefixDistinct(Collected(m, front, Receives), Receives(before, op));
      FreshCoherent(m);
      RunsAreCoherent(m, front);
      AnsweredRepeatsIff(m, front);
      NonceRepeatsIff(m, front);
      assert forall i :: 0 <= i < k ==> front[..i] == ops[..i];
      assert forall i :: 0 <= i < k ==> RefusesAt(m, ops, i) == RefusesAt(m, front, i);
      assert forall i :: 0 <= i < k ==> AnsweredAt(m, ops, i) == AnsweredAt(m, front, i);
      assert AnsweredAt(m, ops, k) == Answered(before, op);
      if Answered(before, op) {
        UsesAreSpent(before, op);
      } else {
        assert Collected(m, ops, Uses) == Collected(m, front, Uses);
      }
    }
  }

  lemma PrefixDistinct(a: seq<Text>, b: seq<Text>)
    requires NoDuplicates(a + b)
    ensures NoDuplicates(a)
  {
    assert forall i :: 0 <= i < |a| ==> (a + b)[i] == a[i];
  }
}
