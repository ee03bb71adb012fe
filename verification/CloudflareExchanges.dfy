/**
 * Cloudflare calls taken apart into exchanges. Any number of calls, of one worker or of several,
 * overlap freely, and a creation or deletion may take effect long after its caller gave up on it.
 */
module CloudflareExchanges {
  import opened Basics
  import opened Publication
  import opened Cloudflare
  import opened DnsSettings

  datatype Kind = Ensuring | Removing

  /** The answered listing of a call; what the call does next depends on nothing else. */
  datatype Seen = Seen(kind: Kind, ids: seq<Text>)

  datatype Net = Net(zone: Zone, seen: map<nat, Seen>, created: set<nat>)

  datatype Exchange =
    | Listed(call: nat, kind: Kind, listing: seq<Text>)
    | Created(call: nat, id: Text)
    | Deleted(call: nat, id: Text)
    | Edited(zone: Zone)

  /** An answered listing comes first; only a call that saw nothing creates, and it does so once. */
  predicate Possible(net: Net, wanted: TxtRecord, e: Exchange) {
    match e
    case Listed(call, _, listing) => call !in net.seen && HonestListing(net.zone, wanted, listing)
    case Created(call, id) =>
      && call in net.seen && net.seen[call] == Seen(Ensuring, []) && call !in net.created
      && ValidObjectId(id) && id !in net.zone
    case Deleted(call, id) => call in net.seen && net.seen[call] == Seen(Removing, [id])
    case Edited(zone) => ValidZone(zone) && Matching(zone, wanted) == Matching(net.zone, wanted)
  }

  function Answer(zone: Zone, wanted: TxtRecord, listing: seq<Text>): Result<seq<Text>, ContractError> {
    if forall id :: id in listing ==> id in zone then OwnedIds(ListReply(zone, listing), wanted) else Err(Unavailable)
  }

  function Next(net: Net, wanted: TxtRecord, e: Exchange): Net {
    match e
    case Listed(call, kind, listing) =>
      (match Answer(net.zone, wanted, listing)
       case Ok(ids) => net.(seen := net.seen[call := Seen(kind, ids)])
       case Err(_) => net)
    case Created(call, id) =>
      net.(zone := net.zone[id := RecordOf(wanted)], created := net.created + {call})
    case Deleted(_, id) => net.(zone := net.zone - {id})
    case Edited(zone) => net.(zone := zone)
  }

  function Start(zone: Zone): Net { Net(zone, map[], {}) }

  /** The state after the first `t` exchanges. */
  function After(zone: Zone, wanted: TxtRecord, run: seq<Exchange>, t: nat): Net
    requires t <= |run|
  {
    if t == 0 then Start(zone) else Next(After(zone, wanted, run, t - 1), wanted, run[t - 1])
  }

  predicate PossibleRun(zone: Zone, wanted: TxtRecord, run: seq<Exchange>) {
    && ValidZone(zone)
    && forall t :: 0 <= t < |run| ==> Possible(After(zone, wanted, run, t), wanted, run[t])
  }

  function Matches(zone: Zone, wanted: TxtRecord, run: seq<Exchange>, t: nat): set<Text>
    requires t <= |run|
  {
    Matching(After(zone, wanted, run, t).zone, wanted)
  }

  predicate Deletes(e: Exchange, id: Text) { e.Deleted? && e.id == id }

  /** No deletion of `id` takes effect among the exchanges from `lo` up to `hi`. */
  predicate Undeleted(run: seq<Exchange>, id: Text, lo: nat, hi: nat)
    requires hi <= |run|
  {
    forall d :: lo <= d < hi ==> !Deletes(run[d], id)
  }

  // ---------------------------------------------------------------- what one exchange does

  lemma ExchangeMatches(net: Net, wanted: TxtRecord, e: Exchange)
    requires ValidZone(net.zone) && Possible(net, wanted, e)
    ensures var next := Next(net, wanted, e);
            && ValidZone(next.zone)
            && Matching(next.zone, wanted) ==
               (match e
                case Created(_, id) => Matching(net.zone, wanted) + {id}
                case Deleted(_, id) => Matching(net.zone, wanted) - {id}
                case _ => Matching(net.zone, wanted))
  {
    hide OwnedIds, ListReply, ValidObjectId;
  }

  lemma ListingSeen(net: Net, wanted: TxtRecord, e: Exchange)
    requires ValidZone(net.zone) && e.Listed? && Possible(net, wanted, e)
    ensures var next := Next(net, wanted, e);
            && (e.call in next.seen ==> next.seen == net.seen[e.call := Seen(e.kind, e.listing)])
            && (e.call !in next.seen ==> next.seen == net.seen)
  {
    hide OwnedIds, ListReply;
    assert forall id :: id in e.listing ==> id in Elements(e.listing);
    ListingIsExact(net.zone, wanted, e.listing);
  }

  lemma {:induction false} ZonesValid(zone: Zone, wanted: TxtRecord, run: seq<Exchange>, t: nat)
    requires PossibleRun(zone, wanted, run) && t <= |run|
    ensures ValidZone(After(zone, wanted, run, t).zone)
  {
    hide ValidZone, Possible, Next;
    if t > 0 {
      ZonesValid(zone, wanted, run, t - 1);
      ExchangeMatches(After(zone, wanted, run, t - 1), wanted, run[t - 1]);
    }
  }

  lemma StepMatches(zone: Zone, wanted: TxtRecord, run: seq<Exchange>, t: nat)
    requires PossibleRun(zone, wanted, run) && t < |run|
    ensures Matches(zone, wanted, run, t + 1) ==
            (match run[t]
             case Created(_, id) => Matches(zone, wanted, run, t) + {id}
             case Deleted(_, id) => Matches(zone, wanted, run, t) - {id}
             case _ => Matches(zone, wanted, run, t))
  {
    hide ValidZone, Possible, Next, Matching;
    ZonesValid(zone, wanted, run, t);
    ExchangeMatches(After(zone, wanted, run, t), wanted, run[t]);
  }

  // ---------------------------------------------------------------- lives of records

  /** A match stays one until it is deleted. */
  lemma {:induction false} Persists(zone: Zone, wanted: TxtRecord, run: seq<Exchange>, id: Text, lo: nat, hi: nat)
    requires PossibleRun(zone, wanted, run) && lo <= hi <= |run|
    requires id in Matches(zone, wanted, run, lo) && Undeleted(run, id, lo, hi)
    ensures id in Matches(zone, wanted, run, hi)
    decreases hi
  {
    hide PossibleRun, Matches;
    if lo < hi {
      Persists(zone, wanted, run, id, lo, hi - 1);
      StepMatches(zone, wanted, run, hi - 1);
    }
  }

  /** `run[a]` created `id`, and nothing deleted it before `t`. */
  predicate BornAt(run: seq<Exchange>, id: Text, a: nat, t: nat)
    requires t <= |run|
  {
    a < t && run[a].Created? && run[a].id == id && Undeleted(run, id, a + 1, t)
  }

  /** A match was there from the start, or was created by an exchange, and not deleted since. */
  lemma {:induction false} Birth(zone: Zone, wanted: TxtRecord, run: seq<Exchange>, id: Text, t: nat)
    requires PossibleRun(zone, wanted, run) && t <= |run| && id in Matches(zone, wanted, run, t)
    ensures || (id in Matching(zone, wanted) && Undeleted(run, id, 0, t))
            || exists a: nat :: BornAt(run, id, a, t)
  {
    hide PossibleRun, Matching;
    if t > 0 {
      StepMatches(zone, wanted, run, t - 1);
      if run[t - 1].Created? && run[t - 1].id == id {
        assert BornAt(run, id, t - 1, t);
      } else {
        var earlier := t - 1;
        Birth(zone, wanted, run, id, earlier);
        if a: nat :| BornAt(run, id, a, earlier) {
          assert BornAt(run, id, a, t);
        }
      }
    }
  }

  /** The listing a call acts on was made earlier, and showed what it says. */
  lemma {:induction false} SeenEarlier(zone: Zone, wanted: TxtRecord, run: seq<Exchange>, call: nat, t: nat)
    returns (l: nat)
    requires PossibleRun(zone, wanted, run) && t <= |run|
    requires call in After(zone, wanted, run, t).seen
    ensures l < t && run[l].Listed? && run[l].call == call
    ensures After(zone, wanted, run, t).seen[call].ids == run[l].listing
    ensures Elements(run[l].listing) == Matches(zone, wanted, run, l)
  {
    hide ValidZone, Possible, Next, Matches;
    var e, before := run[t - 1], After(zone, wanted, run, t - 1);
    ZonesValid(zone, wanted, run, t - 1);
    SeenStep(before, wanted, e, call);
    if e.Listed? && e.call == call {
      l := t - 1;
      HonestIsExact(zone, wanted, run, l);
    } else {
      l := SeenEarlier(zone, wanted, run, call, t - 1);
    }
  }

  lemma SeenStep(net: Net, wanted: TxtRecord, e: Exchange, call: nat)
    requires ValidZone(net.zone) && Possible(net, wanted, e) && call in Next(net, wanted, e).seen
    ensures if e.Listed? && e.call == call then Next(net, wanted, e).seen[call].ids == e.listing
            else call in net.seen && Next(net, wanted, e).seen[call] == net.seen[call]
  {
    hide ValidZone, Answer, Matching;
    if e.Listed? {
      ListingSeen(net, wanted, e);
    }
  }

  lemma HonestIsExact(zone: Zone, wanted: TxtRecord, run: seq<Exchange>, l: nat)
    requires PossibleRun(zone, wanted, run) && l < |run| && run[l].Listed?
    ensures Elements(run[l].listing) == Matches(zone, wanted, run, l)
  {
    hide ValidZone, Matching, After;
    assert Possible(After(zone, wanted, run, l), wanted, run[l]);
  }

  /** A creation rests on an earlier listing that showed no match. */
  lemma CreationListed(zone: Zone, wanted: TxtRecord, run: seq<Exchange>, a: nat) returns (l: nat)
    requires PossibleRun(zone, wanted, run) && a < |run| && run[a].Created?
    ensures l < a && run[l].Listed? && run[l].call == run[a].call
    ensures Matches(zone, wanted, run, l) == {}
  {
    hide ValidZone, Matching, After;
    assert Possible(After(zone, wanted, run, a), wanted, run[a]);
    l := SeenEarlier(zone, wanted, run, run[a].call, a);
    assert Elements(run[l].listing) == {};
  }

  // ---------------------------------------------------------------- when two records arise

  /**
   * Two creations overtake each other: the later one acts on a listing older than the earlier one's
   * effect, and the earlier record is not deleted in between.
   */
  predicate Overtaken(run: seq<Exchange>, first: nat, second: nat) {
    && first < second < |run|
    && run[first].Created? && run[second].Created?
    && (exists l :: 0 <= l < first && run[l].Listed? && run[l].call == run[second].call)
    && Undeleted(run, run[first].id, first + 1, second)
  }

  lemma BothCreated(zone: Zone, wanted: TxtRecord, run: seq<Exchange>, t: nat, r: Text, a: nat, s: Text, b: nat)
    requires PossibleRun(zone, wanted, run) && t <= |run|
    requires BornAt(run, r, a, t) && BornAt(run, s, b, t) && a < b
    ensures Overtaken(run, a, b)
  {
    hide PossibleRun, Matches;
    var l := CreationListed(zone, wanted, run, b);
    if a < l {
      StepMatches(zone, wanted, run, a);
      Persists(zone, wanted, run, r, a + 1, l);
      assert false;
    }
  }

  lemma NotBesideTheFirst(zone: Zone, wanted: TxtRecord, run: seq<Exchange>, t: nat, r: Text, s: Text, b: nat)
    requires PossibleRun(zone, wanted, run) && t <= |run|
    requires BornAt(run, s, b, t) && Undeleted(run, r, 0, t)
    ensures r !in Matching(zone, wanted)
  {
    hide PossibleRun, Matching;
    var l := CreationListed(zone, wanted, run, b);
    if r in Matching(zone, wanted) {
      assert r in Matches(zone, wanted, run, 0);
      Persists(zone, wanted, run, r, 0, l);
      assert false;
    }
  }

  lemma DuplicatesNeedOvertaking(zone: Zone, wanted: TxtRecord, run: seq<Exchange>, t: nat)
    requires PossibleRun(zone, wanted, run) && |Matching(zone, wanted)| <= 1
    requires t <= |run| && |Matches(zone, wanted, run, t)| >= 2
    ensures exists first: nat, second: nat :: Overtaken(run, first, second)
  {
    hide PossibleRun, Matching, Matches, BornAt, Overtaken, Undeleted;
    var r, s := TwoOf(Matches(zone, wanted, run, t));
    Birth(zone, wanted, run, r, t);
    Birth(zone, wanted, run, s, t);
    if a: nat :| BornAt(run, r, a, t) {
      if b: nat :| BornAt(run, s, b, t) {
        BornApart(run, r, a, s, b, t);
        if a < b {
          BothCreated(zone, wanted, run, t, r, a, s, b);
        } else {
          BothCreated(zone, wanted, run, t, s, b, r, a);
        }
      } else {
        NotBesideTheFirst(zone, wanted, run, t, s, r, a);
        assert false;
      }
    } else if b: nat :| BornAt(run, s, b, t) {
      NotBesideTheFirst(zone, wanted, run, t, r, s, b);
      assert false;
    } else {
      SubsetSize({r, s}, Matching(zone, wanted));
      assert false;
    }
  }

  lemma BornApart(run: seq<Exchange>, r: Text, a: nat, s: Text, b: nat, t: nat)
    requires t <= |run| && r != s && BornAt(run, r, a, t) && BornAt(run, s, b, t)
    ensures a != b
  {}

  lemma TwoOf(ids: set<Text>) returns (r: Text, s: Text)
    requires |ids| >= 2
    ensures r in ids && s in ids && r != s
  {
    r :| r in ids;
    assert |ids - {r}| >= 1;
    s :| s in ids - {r};
  }

  lemma OvertakingDuplicates(zone: Zone, wanted: TxtRecord, run: seq<Exchange>, first: nat, second: nat)
    requires PossibleRun(zone, wanted, run) && Overtaken(run, first, second)
    ensures |Matches(zone, wanted, run, second + 1)| >= 2
  {
    hide PossibleRun, Matches, Undeleted;
    StepMatches(zone, wanted, run, first);
    Persists(zone, wanted, run, run[first].id, first + 1, second);
    StepMatches(zone, wanted, run, second);
    FreshIds(zone, wanted, run, second);
    SubsetSize({run[first].id, run[second].id}, Matches(zone, wanted, run, second + 1));
  }

  lemma FreshIds(zone: Zone, wanted: TxtRecord, run: seq<Exchange>, t: nat)
    requires PossibleRun(zone, wanted, run) && t < |run| && run[t].Created?
    ensures run[t].id !in Matches(zone, wanted, run, t)
  {
    assert Possible(After(zone, wanted, run, t), wanted, run[t]);
  }

  /**
   * Over every interleaving of exchanges that starts with at most one match: two matches exist at
   * some point if and only if some creation takes effect after another one that its own listing
   * could not show, with no deletion in between. Calls that never overlap cannot do this.
   */
  lemma DuplicatesIff(zone: Zone, wanted: TxtRecord, run: seq<Exchange>)
    requires PossibleRun(zone, wanted, run) && |Matching(zone, wanted)| <= 1
    ensures (exists t: nat :: t <= |run| && |Matches(zone, wanted, run, t)| >= 2) <==>
            (exists first: nat, second: nat :: Overtaken(run, first, second))
  {
    hide PossibleRun, Matching, Matches, Overtaken;
    if t: nat :| t <= |run| && |Matches(zone, wanted, run, t)| >= 2 {
      DuplicatesNeedOvertaking(zone, wanted, run, t);
    }
    if first: nat, second: nat :| Overtaken(run, first, second) {
      assert second + 1 <= |run| by { SecondInside(run, first, second); }
      OvertakingDuplicates(zone, wanted, run, first, second);
    }
  }

  lemma SecondInside(run: seq<Exchange>, first: nat, second: nat)
    requires Overtaken(run, first, second)
    ensures second < |run|
  {}

  // ---------------------------------------------------------------- calls as exchanges

  /** The exchanges of an undisturbed call that take effect; `ensuring` tells the two calls apart. */
  function ExchangesOf(zoneId: Text, wanted: TxtRecord, ensuring: bool, call: Call): seq<Exchange> {
    if !ListingArrives(zoneId, wanted, call) then []
    else
      var listed := [Listed(0, if ensuring then Ensuring else Removing, call.listing)];
      if call.second.RequestLost? then listed
      else if ensuring && call.listing == [] then listed + [Created(0, call.freshId)]
      else if !ensuring && |call.listing| == 1 then listed + [Deleted(0, call.listing[0])]
      else listed
  }

  /** The calls of the sequential model are runs of exchanges in which nothing comes in between. */
  lemma CallIsExchanges(zone: Zone, zoneId: Text, wanted: TxtRecord, ensuring: bool, call: Call)
    requires ValidZone(zone) && HonestCall(zone, wanted, call)
    ensures var run := ExchangesOf(zoneId, wanted, ensuring, call);
            && PossibleRun(zone, wanted, run)
            && After(zone, wanted, run, |run|).zone ==
               (if ensuring then Ensure(zone, zoneId, wanted, call) else Remove(zone, zoneId, wanted, call)).0
  {
    hide List, Answer, ValidObjectId, Matching, Utf8, ValidZone;
    var run := ExchangesOf(zoneId, wanted, ensuring, call);
    ListDelivers(zone, zoneId, wanted, call);
    if run != [] {
      FirstListing(zone, wanted, run[0]);
      assert Possible(After(zone, wanted, run, 0), wanted, run[0]);
    }
    if |call.listing| == 1 {
      assert call.listing == [call.listing[0]];
      assert call.listing[0] in Elements(call.listing);
      InZone(zone, wanted, call.listing[0]);
    }
  }

  lemma InZone(zone: Zone, wanted: TxtRecord, id: Text)
    requires id in Matching(zone, wanted)
    ensures id in zone
  {}

  lemma FirstListing(zone: Zone, wanted: TxtRecord, e: Exchange)
    requires ValidZone(zone) && e.Listed? && HonestListing(zone, wanted, e.listing)
    ensures Next(Start(zone), wanted, e) ==
            if |e.listing| <= 2 then Net(zone, map[e.call := Seen(e.kind, e.listing)], {}) else Start(zone)
  {
    hide OwnedIds, ListReply;
    assert forall id :: id in e.listing ==> id in Elements(e.listing);
    ListingIsExact(zone, wanted, e.listing);
  }

  /**
   * One worker is enough: its first creation times out, its second call lists an empty zone and
   * creates the record, and then the first creation takes effect after all.
   */
  lemma LateCreationDuplicates(zone: Zone, wanted: TxtRecord, x: Text, y: Text)
    requires ValidZone(zone) && Matching(zone, wanted) == {}
    requires ValidObjectId(x) && ValidObjectId(y) && x != y && x !in zone && y !in zone
    ensures var run := [Listed(1, Ensuring, []), Listed(2, Ensuring, []), Created(2, y), Created(1, x)];
            && PossibleRun(zone, wanted, run)
            && Overtaken(run, 2, 3)
            && Matches(zone, wanted, run, 4) == {x, y}
  {
    hide ValidObjectId, OwnedIds, ListReply, ValidZone;
    var run := [Listed(1, Ensuring, []), Listed(2, Ensuring, []), Created(2, y), Created(1, x)];
    ListingIsExact(zone, wanted, []);
    assert After(zone, wanted, run, 1) == Net(zone, map[1 := Seen(Ensuring, [])], {});
    assert After(zone, wanted, run, 2).seen == map[1 := Seen(Ensuring, []), 2 := Seen(Ensuring, [])];
    assert After(zone, wanted, run, 3).zone == zone[y := RecordOf(wanted)];
    assert After(zone, wanted, run, 4).zone == zone[y := RecordOf(wanted)][x := RecordOf(wanted)];
    assert run[1].call == run[3].call || run[0].call == run[3].call;
  }
}
