/** A manual DNS task whose value reappears after completion, and a request for a phase already passed. */
module ManualDnsExample {
  import opened Basics
  import opened ManualDns
  import opened ManualDnsTasks
  import E = OrderExample
  import CP = ChallengePayload
  import P = Publication
  import H = Http01

  function Sha(text: Text): Digest { E.RECEIPT }

  /** The material captured from the request. */
  function Material(): P.ChallengePublication {
    var r := E.Request();
    P.ChallengePublication(
      r.kind, r.identifier, r.challenge.formatVersion, r.challenge.bytes, 1, r.orderEpoch, r.expiresAt)
  }

  /** The live claim of the order's first worker, whose checkpoint retains the material. */
  function Worker(): Environment {
    Environment(Ascii("o"), Claim(1, Ascii("w"), 1, 1), true, 0, Some(Material()), 1, false)
  }

  function Receipt(): H.Receipt { H.Receipt(1, 1, E.RECEIPT) }

  function TaskFor(phase: Phase): Task { Task(E.RECEIPT, E.RECORD.recordName, E.RECORD.recordValue, 100, 1, phase) }

  function TableAt(phase: Phase): Rows {
    map[E.RECEIPT := Row(Ascii("o"), Worker().claim, E.RECORD.recordName, E.RECORD.recordValue, 100, Code(phase))]
  }

  /** What the adapter sends for each of its calls. */
  lemma CallsSend(call: Call, phase: Phase)
    requires call.request == E.Request() && (call.Publish? || call.receipt == Receipt())
    requires Requested(call) == Ok(Some(phase))
    ensures Sent(Sha, true, call) == Ok(Some(TaskFor(phase))) && Checked(Sha, true, call) == Ok(E.RECORD)
    ensures ReceiptFor(Sha, E.Request(), E.RECORD) == Receipt()
  {
    hide CP.DecodeDns, CP.EncodeDns, P.ValidMaterial, Ascii;
    E.RequestIsValid();
  }

  /** The retained material is the task of every call. */
  lemma MaterialIsTheTask(phase: Phase)
    ensures P.Capture(E.Request()) == Ok(Material())
    ensures RetainedEpoch(Sha, Worker(), TaskFor(phase)) == Ok(Some(1))
  {
    hide CP.DecodeDns, CP.EncodeDns, Ascii, P.ValidIdentifier;
    E.RequestIsValid();
    var r := E.Request().(context := HandoffContext(Worker()));
    P.RebuildIff(E.Request(), r.context);
    assert FromChallengeRequest(Sha, r, AwaitingPublication) == Ok(TaskFor(AwaitingPublication));
  }

  /** The claim and the epoch are in order for every phase. */
  lemma WorkerIsEntitled(phase: Phase)
    ensures ValidateLiveClaim(Worker(), TaskFor(phase)).Ok? && EpochFits(Sha, Worker(), TaskFor(phase))
    ensures Handed(Sha, Worker(), TaskFor(phase)) && !IsZero(E.RECEIPT)
  {
    hide Ascii, CP.ValidRecordName, RetainedEpoch;
    MaterialIsTheTask(phase);
    E.RecordIsConstructible();
    E.ReceiptIsNonzero();
    assert CP.NewDns(E.RECORD.recordName, E.RECORD.recordValue) == Ok(E.RECORD);
  }

  /** What the table answers: the first request creates the task, later ones move it or leave it. */
  lemma TableAnswers(current: Phase, requested: Phase)
    ensures AdvanceTask(Sha, map[], Worker(), TaskFor(AwaitingPublication), Delivered)
            == (TableAt(AwaitingPublication), Ok(()))
    ensures Code(requested) <= Code(current) ==>
              AdvanceTask(Sha, TableAt(current), Worker(), TaskFor(requested), Delivered) == (TableAt(current), Ok(()))
    ensures Code(requested) > Code(current) && Allowed(Code(current), Code(requested), false) ==>
              AdvanceTask(Sha, TableAt(current), Worker(), TaskFor(requested), Delivered) ==
              (TableAt(requested), Ok(()))
  {
    hide ValidateLiveClaim, RetainedEpoch, Ascii, IsZero;
    WorkerIsEntitled(AwaitingPublication);
    WorkerIsEntitled(requested);
    assert SupersedeOthers(map[], Worker().orderId, Worker().claim.fence) == map[];
    var rows := TableAt(current);
    assert rows[E.RECEIPT := rows[E.RECEIPT].(phase := Code(requested))] == TableAt(requested);
  }

  /**
   * The task is published, observed and completed; then the value reappears in the zone. Cleanup
   * reports it as pending, and the task is not on the operator's list.
   */
  lemma ReappearedValueIsUnlisted()
    ensures var r, receipt := E.Request(), Receipt();
            var (published, a) := Perform(Sha, true, map[], Worker(), Publish(r), Delivered);
            var (observed, b) := Perform(Sha, true, published, Worker(), IsVisible(r, receipt, Ok(true)), Delivered);
            var (completed, c) := Perform(Sha, true, observed, Worker(), Cleanup(r, receipt, Ok(false)), Delivered);
            var (after, d) := Perform(Sha, true, completed, Worker(), Cleanup(r, receipt, Ok(true)), Delivered);
            && a == Ok(Published(receipt)) && b == Ok(Visibility(true)) && c == Ok(CleanupComplete)
            && d == Ok(CleanupPending) && E.RECEIPT in after && !Listed(after[E.RECEIPT].phase)
  {
    hide AdvanceTask, Sent, Checked, ReceiptFor, Ascii;
    var r, receipt := E.Request(), Receipt();
    CallsSend(Publish(r), AwaitingPublication);
    CallsSend(IsVisible(r, receipt, Ok(true)), PublicationObserved);
    CallsSend(Cleanup(r, receipt, Ok(false)), Complete);
    CallsSend(Cleanup(r, receipt, Ok(true)), AwaitingRemoval);
    TableAnswers(AwaitingPublication, PublicationObserved);
    TableAnswers(PublicationObserved, Complete);
    TableAnswers(Complete, AwaitingRemoval);
  }

  /** Asking again for publication of an observed value succeeds and changes nothing. */
  lemma PassedPhaseIsAccepted()
    ensures Code(AwaitingPublication) < TableAt(PublicationObserved)[E.RECEIPT].phase
    ensures AdvanceTask(Sha, TableAt(PublicationObserved), Worker(), TaskFor(AwaitingPublication), Delivered)
            == (TableAt(PublicationObserved), Ok(()))
  {
    hide AdvanceTask, Ascii;
    TableAnswers(PublicationObserved, AwaitingPublication);
  }
}
