/** The Cloudflare TXT adapter against a zone that answers honestly over a lossy transport. */
module Cloudflare {
  import opened Basics
  import opened Publication
  import opened DnsSettings

  const MAXIMUM_MATCHES := 2

  /** The record an ACME publication owns; name, content and marker together identify it. */
  datatype TxtRecord = TxtRecord(name: Text, value: Text, marker: Text)

  datatype ZoneRecord = ZoneRecord(kind: Text, name: Text, content: Text, comment: Text)

  type Zone = map<Text, ZoneRecord>

  predicate Matches(r: ZoneRecord, wanted: TxtRecord) {
    r.kind == Ascii("TXT") && r.name == wanted.name && r.content == wanted.value && r.comment == wanted.marker
  }

  function Matching(zone: Zone, wanted: TxtRecord): set<Text> {
    set id | id in zone && Matches(zone[id], wanted)
  }

  // ---------------------------------------------------------------- replies and their validation

  /** A record object of a reply; JSON members may be missing. */
  datatype Item = Item(
    id: Option<Text>, kind: Option<Text>, name: Option<Text>, content: Option<Text>, comment: Option<Text>)

  datatype Reply = Reply(status: nat, success: bool, totalPages: Option<nat>, items: Option<seq<Item>>)

  function SuccessRoot(reply: Reply): Outcome {
    if reply.status != 200 then Err(Unavailable) else if reply.success then Ok(()) else Err(Unauthorized)
  }

  function ValidateRecord(item: Item, wanted: TxtRecord): Result<Text, ContractError> {
    if item.id.None? || !ValidObjectId(item.id.value) then Err(InternalContract)
    else if item.kind != Some(Ascii("TXT")) || item.name != Some(wanted.name) || item.content != Some(wanted.value)
            || item.comment != Some(wanted.marker) then Err(InternalContract)
    else Ok(item.id.value)
  }

  function ValidateRecords(items: seq<Item>, wanted: TxtRecord): Result<seq<Text>, ContractError> {
    if items == [] then Ok([])
    else
      var front :- ValidateRecords(items[..|items| - 1], wanted);
      var id :- ValidateRecord(items[|items| - 1], wanted);
      Ok(front + [id])
  }

  /** The listing step: at most one page, at most two records, each an exact match. */
  function OwnedIds(reply: Reply, wanted: TxtRecord): Result<seq<Text>, ContractError> {
    var _ :- SuccessRoot(reply);
    if reply.totalPages.None? then Err(InternalContract)
    else if reply.totalPages.value > 1 then Err(Conflict)
    else if reply.items.None? then Err(InternalContract)
    else if |reply.items.value| > MAXIMUM_MATCHES then Err(Conflict)
    else ValidateRecords(reply.items.value, wanted)
  }

  // ---------------------------------------------------------------- an honest zone

  function ItemFor(id: Text, r: ZoneRecord): Item {
    Item(Some(id), Some(r.kind), Some(r.name), Some(r.content), Some(r.comment))
  }

  /** All matches in the zone's own order, two to a page. */
  function ListReply(zone: Zone, listing: seq<Text>): Reply
    requires forall id :: id in listing ==> id in zone
  {
    var shown := if |listing| <= 2 then listing else listing[..2];
    Reply(200, true, Some((|listing| + 1) / 2),
          Some(seq(|shown|, i requires 0 <= i < |shown| => ItemFor(shown[i], zone[shown[i]]))))
  }

  predicate HonestListing(zone: Zone, wanted: TxtRecord, listing: seq<Text>) {
    NoDuplicates(listing) && Elements(listing) == Matching(zone, wanted)
  }

  function RecordOf(wanted: TxtRecord): ZoneRecord {
    ZoneRecord(Ascii("TXT"), wanted.name, wanted.value, wanted.marker)
  }

  /** One call: the order in which the zone lists matches, the id it would assign, and both fates. */
  datatype Call = Call(listing: seq<Text>, freshId: Text, first: Fate, second: Fate)

  predicate HonestCall(zone: Zone, wanted: TxtRecord, call: Call) {
    && HonestListing(zone, wanted, call.listing)
    && ValidObjectId(call.freshId) && call.freshId !in zone
  }

  predicate ValidZone(zone: Zone) { forall id :: id in zone ==> ValidObjectId(id) }

  // ---------------------------------------------------------------- specification of the operations

  function List(zone: Zone, zoneId: Text, wanted: TxtRecord, call: Call): Result<seq<Text>, ContractError>
    requires HonestListing(zone, wanted, call.listing)
  {
    if !ValidObjectId(zoneId) then Err(InternalContract)
    else if !Utf8(wanted.value) then Err(ContractError.InvalidInput)
    else if !call.first.Delivered? then Err(Unavailable)
    else
      assert forall id :: id in call.listing ==> id in Elements(call.listing);
      OwnedIds(ListReply(zone, call.listing), wanted)
  }

  function Create(zone: Zone, wanted: TxtRecord, call: Call): (Zone, Outcome) {
    var next := zone[call.freshId := RecordOf(wanted)];
    match call.second
    case RequestLost => (zone, Err(Unavailable))
    case ReplyLost => (next, Err(Unavailable))
    case Delivered =>
      (next, match ValidateRecord(ItemFor(call.freshId, RecordOf(wanted)), wanted)
             case Ok(_) => Ok(())
             case Err(e) => Err(e))
  }

  function Delete(zone: Zone, id: Text, call: Call): (Zone, Outcome) {
    match call.second
    case RequestLost => (zone, Err(Unavailable))
    case ReplyLost => (zone - {id}, Err(Unavailable))
    case Delivered => if id in zone then (zone - {id}, Ok(())) else (zone, Err(Unavailable))
  }

  function Ensure(zone: Zone, zoneId: Text, wanted: TxtRecord, call: Call): (Zone, Outcome)
    requires HonestListing(zone, wanted, call.listing)
  {
    match List(zone, zoneId, wanted, call)
    case Err(e) => (zone, Err(e))
    case Ok(ids) =>
      if |ids| == 1 then (zone, Ok(()))
      else if ids == [] then Create(zone, wanted, call)
      else (zone, Err(Conflict))
  }

  function Remove(zone: Zone, zoneId: Text, wanted: TxtRecord, call: Call): (Zone, Outcome)
    requires HonestListing(zone, wanted, call.listing)
  {
    match List(zone, zoneId, wanted, call)
    case Err(e) => (zone, Err(e))
    case Ok(ids) =>
      if ids == [] then (zone, Ok(()))
      else if |ids| == 1 then Delete(zone, ids[0], call)
      else (zone, Err(Conflict))
  }

  // ---------------------------------------------------------------- the adapter over a mutable zone

  class CloudflareZone {
    var records: Zone

    constructor (records: Zone)
      ensures this.records == records
    {
      this.records := records;
    }

    /** Sends the filtered query; the zone is not changed. */
    method ListOwned(zoneId: Text, wanted: TxtRecord, call: Call) returns (r: Result<seq<Text>, ContractError>)
      requires HonestListing(records, wanted, call.listing)
      ensures r == List(records, zoneId, wanted, call)
    {
      if !ValidObjectId(zoneId) {
        return Err(InternalContract);
      }
      if !Utf8(wanted.value) {
        return Err(ContractError.InvalidInput);
      }
      if !call.first.Delivered? {
        return Err(Unavailable);
      }
      assert forall id :: id in call.listing ==> id in Elements(call.listing);
      r := OwnedIds(ListReply(records, call.listing), wanted);
    }

    method EnsureTxt(zoneId: Text, wanted: TxtRecord, call: Call) returns (r: Outcome)
      requires HonestListing(records, wanted, call.listing)
      modifies this
      ensures (records, r) == Ensure(old(records), zoneId, wanted, call)
    {
      hide List;
      var listed := ListOwned(zoneId, wanted, call);
      if listed.Err? {
        return Err(listed.error);
      }
      if |listed.value| == 1 {
        return Ok(());
      }
      if listed.value != [] {
        return Err(Conflict);
      }
      if !call.second.RequestLost? {
        records := records[call.freshId := RecordOf(wanted)];
      }
      if !call.second.Delivered? {
        return Err(Unavailable);
      }
      var confirmed := ValidateRecord(ItemFor(call.freshId, RecordOf(wanted)), wanted);
      return if confirmed.Ok? then Ok(()) else Err(confirmed.error);
    }

    method RemoveTxt(zoneId: Text, wanted: TxtRecord, call: Call) returns (r: Outcome)
      requires HonestListing(records, wanted, call.listing)
      modifies this
      ensures (records, r) == Remove(old(records), zoneId, wanted, call)
    {
      hide List;
      var listed := ListOwned(zoneId, wanted, call);
      if listed.Err? {
        return Err(listed.error);
      }
      if listed.value == [] {
        return Ok(());
      }
      if |listed.value| != 1 {
        return Err(Conflict);
      }
      var id := listed.value[0];
      if call.second.Delivered? && id !in records {
        return Err(Unavailable);
      }
      if !call.second.RequestLost? {
        records := records - {id};
      }
      return if call.second.Delivered? then Ok(()) else Err(Unavailable);
    }
  }

  // ---------------------------------------------------------------- what a listing says

  lemma {:induction false} ExactItems(items: seq<Item>, wanted: TxtRecord, ids: seq<Text>)
    requires |items| == |ids|
    requires forall i :: 0 <= i < |ids| ==> ValidObjectId(ids[i]) && items[i] == ItemFor(ids[i], RecordOf(wanted))
    ensures ValidateRecords(items, wanted) == Ok(ids)
  {
    if items != [] {
      ExactItems(items[..|items| - 1], wanted, ids[..|ids| - 1]);
      assert ids == ids[..|ids| - 1] + [ids[|ids| - 1]];
    }
  }

  lemma {:induction false} ExactItemsOnly(items: seq<Item>, wanted: TxtRecord)
    requires ValidateRecords(items, wanted).Ok?
    ensures var ids := ValidateRecords(items, wanted).value;
            && |ids| == |items|
            && forall i :: 0 <= i < |ids| ==> ValidObjectId(ids[i]) && items[i] == ItemFor(ids[i], RecordOf(wanted))
  {
    if items != [] {
      ExactItemsOnly(items[..|items| - 1], wanted);
    }
  }

  /**
   * Whatever a reply contains, the ids that can lead to a deletion or to reported success are exactly
   * those of complete records that carry the wanted type, name, content and marker.
   */
  lemma AcceptedListing(reply: Reply, wanted: TxtRecord, ids: seq<Text>)
    ensures OwnedIds(reply, wanted) == Ok(ids) <==>
            && reply.status == 200 && reply.success
            && reply.totalPages.Some? && reply.totalPages.value <= 1
            && reply.items.Some? && |reply.items.value| == |ids| <= 2
            && forall i :: 0 <= i < |ids| ==>
                 ValidObjectId(ids[i]) && reply.items.value[i] == ItemFor(ids[i], RecordOf(wanted))
  {
    hide ValidateRecords, ValidateRecord, ValidObjectId;
    if OwnedIds(reply, wanted) == Ok(ids) {
      ExactItemsOnly(reply.items.value, wanted);
    } else if reply.items.Some? && |reply.items.value| == |ids| && forall i :: 0 <= i < |ids| ==>
                ValidObjectId(ids[i]) && reply.items.value[i] == ItemFor(ids[i], RecordOf(wanted)) {
      ExactItems(reply.items.value, wanted, ids);
    }
  }

  /** On an honest zone a delivered listing names every match, or conflicts when there are three or more. */
  lemma ListingIsExact(zone: Zone, wanted: TxtRecord, listing: seq<Text>)
    requires ValidZone(zone) && HonestListing(zone, wanted, listing)
    requires forall id :: id in listing ==> id in zone
    ensures |listing| <= 2 ==> OwnedIds(ListReply(zone, listing), wanted) == Ok(listing)
    ensures |listing| > 2 ==> OwnedIds(ListReply(zone, listing), wanted) == Err(Conflict)
  {
    if |listing| <= 2 {
      var items := ListReply(zone, listing).items.value;
      forall i | 0 <= i < |listing|
        ensures ValidObjectId(listing[i]) && items[i] == ItemFor(listing[i], RecordOf(wanted))
      {
        assert listing[i] in Elements(listing);
        assert Matches(zone[listing[i]], wanted);
      }
      ExactItems(items, wanted, listing);
    }
  }

  /** The listing can be asked for at all, and its answer arrives. */
  predicate ListingArrives(zoneId: Text, wanted: TxtRecord, call: Call) {
    ValidObjectId(zoneId) && Utf8(wanted.value) && call.first.Delivered?
  }

  lemma ListDelivers(zone: Zone, zoneId: Text, wanted: TxtRecord, call: Call)
    requires ValidZone(zone) && HonestListing(zone, wanted, call.listing)
    ensures var count := |Matching(zone, wanted)|;
            var r := List(zone, zoneId, wanted, call);
            && |call.listing| == count
            && (r.Ok? <==> ListingArrives(zoneId, wanted, call) && count <= 2)
            && (r.Ok? ==> r.value == call.listing)
            && (ListingArrives(zoneId, wanted, call) && count > 2 ==> r == Err(Conflict))
  {
    hide OwnedIds, ValidZone, ListReply, Utf8;
    ElementsSize(call.listing);
    assert forall id :: id in call.listing ==> id in Elements(call.listing);
    ListingIsExact(zone, wanted, call.listing);
  }

  // ---------------------------------------------------------------- single operations

  /** Records that differ in type, name, content or marker are the same before and after. */
  predicate OthersKept(before: Zone, after: Zone, wanted: TxtRecord) {
    && (forall id :: id in before && !Matches(before[id], wanted) ==> id in after && after[id] == before[id])
    && (forall id :: id in after && !Matches(after[id], wanted) ==> id in before && before[id] == after[id])
  }

  lemma CreateAdds(zone: Zone, wanted: TxtRecord, call: Call)
    requires ValidZone(zone) && HonestCall(zone, wanted, call)
    ensures var next := zone[call.freshId := RecordOf(wanted)];
            && Matching(next, wanted) == Matching(zone, wanted) + {call.freshId}
            && ValidZone(next) && OthersKept(zone, next, wanted)
  {}

  lemma DeleteDrops(zone: Zone, wanted: TxtRecord, id: Text)
    requires ValidZone(zone) && id in Matching(zone, wanted)
    ensures var next := zone - {id};
            && Matching(next, wanted) == Matching(zone, wanted) - {id}
            && ValidZone(next) && OthersKept(zone, next, wanted)
  {}

  lemma SameKept(zone: Zone, wanted: TxtRecord)
    ensures OthersKept(zone, zone, wanted)
  {}

  /**
   * Success exactly when the record is already the only match, or there is none and the creation is
   * confirmed; success always means exactly one match, and a failed call adds at most that one.
   */
  lemma EnsureOutcome(zone: Zone, zoneId: Text, wanted: TxtRecord, call: Call)
    requires ValidZone(zone) && HonestCall(zone, wanted, call)
    ensures var before := |Matching(zone, wanted)|;
            var (next, r) := Ensure(zone, zoneId, wanted, call);
            var after := |Matching(next, wanted)|;
            && ValidZone(next) && OthersKept(zone, next, wanted)
            && Matching(zone, wanted) <= Matching(next, wanted)
            && (before >= 1 ==> next == zone) && (before == 0 ==> after <= 1)
            && (r.Ok? ==> after == 1)
            && (r.Ok? <==>
                ListingArrives(zoneId, wanted, call) && (before == 1 || (before == 0 && call.second.Delivered?)))
  {
    hide List, Utf8, ValidZone, OthersKept, Matching, HonestListing;
    ListDelivers(zone, zoneId, wanted, call);
    CreateAdds(zone, wanted, call);
    SameKept(zone, wanted);
  }

  /** The mirror image: success exactly when nothing matches, or the one match is confirmed deleted. */
  lemma RemoveOutcome(zone: Zone, zoneId: Text, wanted: TxtRecord, call: Call)
    requires ValidZone(zone) && HonestCall(zone, wanted, call)
    ensures var before := |Matching(zone, wanted)|;
            var (next, r) := Remove(zone, zoneId, wanted, call);
            && ValidZone(next) && OthersKept(zone, next, wanted)
            && Matching(next, wanted) <= Matching(zone, wanted)
            && (before != 1 ==> next == zone)
            && |Matching(next, wanted)| <= before
            && (r.Ok? ==> Matching(next, wanted) == {})
            && (r.Ok? <==>
                ListingArrives(zoneId, wanted, call) && (before == 0 || (before == 1 && call.second.Delivered?)))
  {
    hide List, Utf8, ValidZone, OthersKept, ValidObjectId;
    ListDelivers(zone, zoneId, wanted, call);
    SameKept(zone, wanted);
    if |call.listing| == 1 {
      var id := call.listing[0];
      assert id in Elements(call.listing);
      DeleteDrops(zone, wanted, id);
    }
  }

  // ---------------------------------------------------------------- runs of one worker

  datatype Op =
    | EnsureOp(call: Call)
    | RemoveOp(call: Call)
    | OutsideOp(zone: Zone)

  /** The zone answers honestly; outside edits leave this publication's records alone. */
  predicate Permitted(zone: Zone, wanted: TxtRecord, op: Op) {
    match op
    case EnsureOp(call) => HonestCall(zone, wanted, call)
    case RemoveOp(call) => HonestCall(zone, wanted, call)
    case OutsideOp(edited) => ValidZone(edited) && Matching(edited, wanted) == Matching(zone, wanted)
  }

  function Step(zone: Zone, zoneId: Text, wanted: TxtRecord, op: Op): (Zone, Outcome)
    requires Permitted(zone, wanted, op)
  {
    match op
    case EnsureOp(call) => Ensure(zone, zoneId, wanted, call)
    case RemoveOp(call) => Remove(zone, zoneId, wanted, call)
    case OutsideOp(edited) => (edited, Ok(()))
  }

  predicate PermittedRun(zone: Zone, zoneId: Text, wanted: TxtRecord, ops: seq<Op>)
    decreases ops
  {
    ops == [] ||
    (Permitted(zone, wanted, ops[0]) && PermittedRun(Step(zone, zoneId, wanted, ops[0]).0, zoneId, wanted, ops[1..]))
  }

  function Final(zone: Zone, zoneId: Text, wanted: TxtRecord, ops: seq<Op>): Zone
    requires PermittedRun(zone, zoneId, wanted, ops)
    decreases ops
  {
    if ops == [] then zone else Final(Step(zone, zoneId, wanted, ops[0]).0, zoneId, wanted, ops[1..])
  }

  /** What any one step of a run does to the number of matches and to the other records. */
  lemma StepOutcome(zone: Zone, zoneId: Text, wanted: TxtRecord, op: Op)
    requires ValidZone(zone) && Permitted(zone, wanted, op)
    ensures var before := |Matching(zone, wanted)|;
            var (next, r) := Step(zone, zoneId, wanted, op);
            && ValidZone(next)
            && (before <= 1 ==> |Matching(next, wanted)| <= 1)
            && (before >= 2 ==> Matching(next, wanted) == Matching(zone, wanted) && (r.Ok? ==> op.OutsideOp?))
            && (!op.OutsideOp? ==> OthersKept(zone, next, wanted))
  {
    hide Ensure, Remove, ValidZone, Matching, OthersKept;
    match op
    case EnsureOp(call) => EnsureOutcome(zone, zoneId, wanted, call);
    case RemoveOp(call) => RemoveOutcome(zone, zoneId, wanted, call);
    case OutsideOp(_) =>
  }

  /** With one worker, any run with any lost exchanges keeps at most one matching record. */
  lemma {:induction false} AtMostOneRecord(zone: Zone, zoneId: Text, wanted: TxtRecord, ops: seq<Op>)
    requires ValidZone(zone) && |Matching(zone, wanted)| <= 1
    requires PermittedRun(zone, zoneId, wanted, ops)
    ensures ValidZone(Final(zone, zoneId, wanted, ops))
    ensures |Matching(Final(zone, zoneId, wanted, ops), wanted)| <= 1
    decreases ops
  {
    hide Ensure, Remove, ValidZone, Matching;
    if ops != [] {
      StepOutcome(zone, zoneId, wanted, ops[0]);
      AtMostOneRecord(Step(zone, zoneId, wanted, ops[0]).0, zoneId, wanted, ops[1..]);
    }
  }

  /** A run of adapter calls, whatever is lost, never alters a record that is not this one. */
  lemma {:induction false} RunKeepsOthers(zone: Zone, zoneId: Text, wanted: TxtRecord, ops: seq<Op>)
    requires ValidZone(zone)
    requires PermittedRun(zone, zoneId, wanted, ops)
    requires forall i :: 0 <= i < |ops| ==> !ops[i].OutsideOp?
    ensures OthersKept(zone, Final(zone, zoneId, wanted, ops), wanted)
    decreases ops
  {
    hide Ensure, Remove, ValidZone, Matching;
    if ops != [] {
      StepOutcome(zone, zoneId, wanted, ops[0]);
      RunKeepsOthers(Step(zone, zoneId, wanted, ops[0]).0, zoneId, wanted, ops[1..]);
    }
  }

  /** After any such run, one call whose exchanges all arrive reaches the state it asks for. */
  lemma RetryConverges(zone: Zone, zoneId: Text, wanted: TxtRecord, ops: seq<Op>, call: Call)
    requires ValidZone(zone) && |Matching(zone, wanted)| <= 1
    requires PermittedRun(zone, zoneId, wanted, ops)
    requires HonestCall(Final(zone, zoneId, wanted, ops), wanted, call)
    requires ListingArrives(zoneId, wanted, call) && call.second.Delivered?
    ensures var (next, r) := Ensure(Final(zone, zoneId, wanted, ops), zoneId, wanted, call);
            r.Ok? && |Matching(next, wanted)| == 1
    ensures var (next, r) := Remove(Final(zone, zoneId, wanted, ops), zoneId, wanted, call);
            r.Ok? && Matching(next, wanted) == {}
  {
    hide Ensure, Remove, ValidZone, Matching, PermittedRun, Final;
    AtMostOneRecord(zone, zoneId, wanted, ops);
    EnsureOutcome(Final(zone, zoneId, wanted, ops), zoneId, wanted, call);
    RemoveOutcome(Final(zone, zoneId, wanted, ops), zoneId, wanted, call);
  }

  // ---------------------------------------------------------------- two workers

  /**
   * The bound needs the single worker: the listing and the creation are separate exchanges, so two
   * workers that both list before either creates leave two records.
   */
  lemma TwoWorkersDuplicate(zone: Zone, zoneId: Text, wanted: TxtRecord, a: Call, b: Call)
    requires ValidZone(zone) && Matching(zone, wanted) == {}
    requires HonestCall(zone, wanted, a) && HonestCall(zone, wanted, b) && a.freshId != b.freshId
    requires ValidObjectId(zoneId) && Utf8(wanted.value)
    requires a.first.Delivered? && b.first.Delivered? && !a.second.RequestLost? && !b.second.RequestLost?
    ensures List(zone, zoneId, wanted, a) == Ok([]) && List(zone, zoneId, wanted, b) == Ok([])
    ensures |Matching(Create(Create(zone, wanted, a).0, wanted, b).0, wanted)| == 2
  {
    hide List, Utf8, ValidObjectId;
    ListDelivers(zone, zoneId, wanted, a);
    ListDelivers(zone, zoneId, wanted, b);
    var next := Create(Create(zone, wanted, a).0, wanted, b).0;
    assert Matching(next, wanted) == {a.freshId, b.freshId};
  }

  /** No adapter call of the run reports success. */
  predicate AllRefused(zone: Zone, zoneId: Text, wanted: TxtRecord, ops: seq<Op>)
    requires PermittedRun(zone, zoneId, wanted, ops)
    decreases ops
  {
    ops == [] ||
    (var (next, r) := Step(zone, zoneId, wanted, ops[0]);
     (r.Ok? ==> ops[0].OutsideOp?) && AllRefused(next, zoneId, wanted, ops[1..]))
  }

  /** From two matches on, no run of ensures and removes succeeds or changes the matching records. */
  lemma {:induction false} DuplicatesAreStuck(zone: Zone, zoneId: Text, wanted: TxtRecord, ops: seq<Op>)
    requires ValidZone(zone) && |Matching(zone, wanted)| >= 2
    requires PermittedRun(zone, zoneId, wanted, ops)
    ensures AllRefused(zone, zoneId, wanted, ops)
    ensures Matching(Final(zone, zoneId, wanted, ops), wanted) == Matching(zone, wanted)
    decreases ops
  {
    hide Ensure, Remove, ValidZone, Matching;
    if ops != [] {
      StepOutcome(zone, zoneId, wanted, ops[0]);
      DuplicatesAreStuck(Step(zone, zoneId, wanted, ops[0]).0, zoneId, wanted, ops[1..]);
    }
  }
}
