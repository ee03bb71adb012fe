/** DNS identifier lists: byte-wise order, canonical requests, and sorting of CA responses. */
module Identifiers {
  import opened Basics
  import opened Url

  const MAXIMUM_IDENTIFIERS := 256
  const WILDCARD: Text := [42, 46]

  predicate IsWildcard(value: Text) { |value| >= 2 && value[0] == 42 && value[1] == 46 }

  predicate DnsNameByte(b: byte) { IsLower(b) || IsDigit(b) || b == 45 || b == 46 || b == 42 }

  predicate ValidDnsName(value: Text) {
    var name := if IsWildcard(value) then value[2..] else value;
    && |value| <= MAXIMUM_DNS_NAME_BYTES
    && DOT in name
    && ValidLabels(name)
    && forall i :: 0 <= i < |value| ==> DnsNameByte(value[i])
  }

  // ---------------------------------------------------------------- byte-wise order of `str`

  predicate Less(a: Text, b: Text) {
    b != [] && (a == [] || a[0] < b[0] || (a[0] == b[0] && Less(a[1..], b[1..])))
  }

  lemma {:induction false} LessTransitive(a: Text, b: Text, c: Text)
    requires Less(a, b) && Less(b, c)
    ensures Less(a, c)
  {
    if a != [] && a[0] == b[0] && b[0] == c[0] {
      LessTransitive(a[1..], b[1..], c[1..]);
    }
  }

  lemma {:induction false} LessTotal(a: Text, b: Text)
    ensures !(Less(a, b) && Less(b, a))
    ensures a == b || Less(a, b) || Less(b, a)
    ensures Less(a, b) ==> a != b
  {
    if a != [] && b != [] {
      LessTotal(a[1..], b[1..]);
      assert a == [a[0]] + a[1..] && b == [b[0]] + b[1..];
    }
  }

  predicate Ascending(names: seq<Text>) {
    forall i, j :: 0 <= i < j < |names| ==> Less(names[i], names[j])
  }

  lemma AscendingDistinct(names: seq<Text>)
    requires Ascending(names)
    ensures NoDuplicates(names)
  {
    forall i, j | 0 <= i < j < |names|
      ensures names[i] != names[j]
    {
      LessTotal(names[i], names[j]);
    }
  }

  /** Two strictly ascending lists of the same names are the same list. */
  lemma {:induction false} AscendingUnique(a: seq<Text>, b: seq<Text>)
    requires Ascending(a) && Ascending(b)
    requires Elements(a) == Elements(b)
    ensures a == b
  {
    if a == [] {
      AscendingDistinct(b);
      ElementsSize(b);
    } else {
      assert a[0] in Elements(a);
      SameHead(a, b);
      TailElements(a);
      TailElements(b);
      AscendingUnique(a[1..], b[1..]);
      assert a == [a[0]] + a[1..] && b == [b[0]] + b[1..];
    }
  }

  lemma SameHead(a: seq<Text>, b: seq<Text>)
    requires a != [] && Ascending(a) && Ascending(b) && Elements(a) == Elements(b)
    ensures b != [] && a[0] == b[0]
  {
    assert a[0] in Elements(b);
    var i :| 0 <= i < |b| && b[i] == a[0];
    assert b[0] in Elements(a);
    var j :| 0 <= j < |a| && a[j] == b[0];
    LessTotal(a[0], b[0]);
  }

  lemma TailElements(a: seq<Text>)
    requires a != [] && Ascending(a)
    ensures Elements(a[1..]) == Elements(a) - {a[0]}
  {
    AscendingDistinct(a);
    assert a == [a[0]] + a[1..];
  }

  // ---------------------------------------------------------------- sorting

  function Insert(name: Text, names: seq<Text>): seq<Text> {
    if names == [] || Less(name, names[0]) then [name] + names
    else [names[0]] + Insert(name, names[1..])
  }

  /** Stands for `sort_unstable`; `SortCanonical` and `SortIsAPermutation` say what it returns. */
  function Sort(names: seq<Text>): seq<Text> {
    if names == [] then [] else Insert(names[0], Sort(names[1..]))
  }

  lemma {:induction false} InsertKeeps(name: Text, names: seq<Text>)
    ensures multiset(Insert(name, names)) == multiset(names) + multiset{name}
  {
    if names == [] || Less(name, names[0]) {
    } else {
      InsertKeeps(name, names[1..]);
      assert names == [names[0]] + names[1..];
    }
  }

  lemma {:induction false} SortIsAPermutation(names: seq<Text>)
    ensures multiset(Sort(names)) == multiset(names)
  {
    if names != [] {
      SortIsAPermutation(names[1..]);
      InsertKeeps(names[0], Sort(names[1..]));
      assert names == [names[0]] + names[1..];
    }
  }

  lemma {:induction false} InsertAscends(name: Text, names: seq<Text>)
    requires Ascending(names) && name !in names
    ensures Ascending(Insert(name, names))
  {
    if names == [] {
    } else if Less(name, names[0]) {
      forall j | 0 < j < |names|
        ensures Less(name, names[j])
      {
        LessTransitive(name, names[0], names[j]);
      }
    } else {
      var rest := Insert(name, names[1..]);
      InsertAscends(name, names[1..]);
      InsertKeeps(name, names[1..]);
      forall j | 0 <= j < |rest|
        ensures Less(names[0], rest[j])
      {
        assert rest[j] in multiset(rest);
        LessTotal(name, names[0]);
      }
    }
  }

  lemma SameMultisetSameElements(a: seq<Text>, b: seq<Text>)
    requires multiset(a) == multiset(b)
    ensures Elements(a) == Elements(b)
  {
    forall x
      ensures x in a <==> x in b
    {
      assert x in a <==> x in multiset(a);
      assert x in b <==> x in multiset(b);
    }
  }

  /** Sorting a duplicate-free list gives the one strictly ascending list of its names. */
  lemma {:induction false} SortCanonical(names: seq<Text>)
    requires NoDuplicates(names)
    ensures Ascending(Sort(names))
    ensures Elements(Sort(names)) == Elements(names)
  {
    if names != [] {
      SortCanonical(names[1..]);
      assert names[0] !in Elements(names[1..]);
      InsertAscends(names[0], Sort(names[1..]));
    }
    SortIsAPermutation(names);
    SameMultisetSameElements(Sort(names), names);
  }

  // ---------------------------------------------------------------- order requests

  datatype RequestError = InvalidRequest

  /** A canonical request: 1 to 256 valid names in strictly ascending byte order. */
  predicate ValidRequest(names: seq<Text>) {
    && 1 <= |names| <= MAXIMUM_IDENTIFIERS
    && (forall i :: 0 <= i < |names| ==> ValidDnsName(names[i]))
    && Ascending(names)
  }

  /** Comparing each name only with its predecessor is enough to decide `ValidRequest`. */
  method NewOrderRequest(names: seq<Text>) returns (r: Result<seq<Text>, RequestError>)
    ensures r.Ok? <==> ValidRequest(names)
    ensures r.Ok? ==> r.value == names
  {
    if names == [] || |names| > MAXIMUM_IDENTIFIERS {
      return Err(RequestError.InvalidRequest);
    }
    var previous: Option<Text> := None;
    for k := 0 to |names|
      invariant previous == if k == 0 then None else Some(names[k - 1])
      invariant Ascending(names[..k])
      invariant forall i :: 0 <= i < k ==> ValidDnsName(names[i])
    {
      var name := names[k];
      if !ValidDnsName(name) || (previous.Some? && !Less(previous.value, name)) {
        if previous.Some? && !Less(previous.value, name) {
          assert !Less(names[k - 1], names[k]);
        }
        return Err(RequestError.InvalidRequest);
      }
      AscendingExtends(names, k);
      previous := Some(name);
    }
    assert names[..|names|] == names;
    return Ok(names);
  }

  lemma AscendingExtends(names: seq<Text>, k: nat)
    requires k < |names| && Ascending(names[..k])
    requires k > 0 ==> Less(names[k - 1], names[k])
    ensures Ascending(names[..k + 1])
  {
    var longer := names[..k + 1];
    forall i, j | 0 <= i < j < |longer|
      ensures Less(longer[i], longer[j])
    {
      if j < k {
        assert longer[i] == names[..k][i] && longer[j] == names[..k][j];
      } else if i < k - 1 {
        assert Less(names[..k][i], names[..k][k - 1]);
        LessTransitive(names[i], names[k - 1], names[k]);
      }
    }
  }
}
