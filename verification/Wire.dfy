/** RFC 8555 resources and the parsers that turn untrusted JSON values into them. */
module Wire {
  import opened Basics
  import opened Url
  import opened Identifiers

  const MAXIMUM_BODY_BYTES := 1048576
  const MAXIMUM_AUTHORIZATIONS := 256
  const MAXIMUM_CHALLENGES := 16
  const MAXIMUM_TOKEN_BYTES := 512

  datatype ResourceStatus =
    Pending | Processing | Valid | Invalid | Ready | Deactivated | Expired | Revoked

  datatype Directory = Directory(newNonce: Text, newAccount: Text, newOrder: Text)

  datatype Order = Order(
    status: ResourceStatus, dnsNames: seq<Text>, authorizations: seq<Text>, finalize: Text,
    certificate: Option<Text>)

  datatype Challenge = Challenge(kind: Text, url: Text, token: Text, status: ResourceStatus)

  datatype Authorization = Authorization(
    dnsName: Text, wildcard: bool, status: ResourceStatus, challenges: seq<Challenge>)

  /** The requested form of an authorized name, with its wildcard prefix restored. */
  function NameOf(a: Authorization): Text {
    if a.wildcard then WILDCARD + a.dnsName else a.dnsName
  }

  datatype ProtocolError = InvalidResponse | UnsupportedChallenge

  // ---------------------------------------------------------------- what parsed resources satisfy

  predicate WireDirectory(d: Directory) {
    BoundedUrl(d.newNonce) && BoundedUrl(d.newAccount) && BoundedUrl(d.newOrder)
  }

  predicate WireOrder(o: Order) {
    && o.status in {Pending, Processing, Valid, Invalid, Ready}
    && (o.status == Valid ==> o.certificate.Some?)
    && BoundedUrl(o.finalize)
    && (o.certificate.Some? ==> BoundedUrl(o.certificate.value))
    && DistinctUrls(o.authorizations)
    && ValidRequest(o.dnsNames)
  }

  predicate DistinctUrls(urls: seq<Text>) {
    (forall i :: 0 <= i < |urls| ==> BoundedUrl(urls[i])) && NoDuplicates(urls)
  }

  predicate WireChallenge(c: Challenge) {
    && (c.kind == Ascii("http-01") || c.kind == Ascii("dns-01"))
    && BoundedUrl(c.url)
    && 1 <= |c.token| <= MAXIMUM_TOKEN_BYTES && AllUrlSafe(c.token)
    && c.status in {Pending, Processing, Valid, Invalid}
  }

  predicate DistinctIdentities(challenges: seq<Challenge>) {
    forall i, j :: 0 <= i < j < |challenges| ==>
                     challenges[i].kind != challenges[j].kind || challenges[i].url != challenges[j].url
  }

  predicate WireChallenges(challenges: seq<Challenge>) {
    && 1 <= |challenges| <= MAXIMUM_CHALLENGES
    && (forall i :: 0 <= i < |challenges| ==> WireChallenge(challenges[i]))
    && DistinctIdentities(challenges)
  }

  predicate WireAuthorization(a: Authorization) {
    && a.status in {Pending, Valid, Invalid, Deactivated, Expired, Revoked}
    && ValidDnsName(a.dnsName) && !IsWildcard(a.dnsName)
    && WireChallenges(a.challenges)
  }

  // ---------------------------------------------------------------- JSON values

  datatype Json =
    | JNull
    | JBool(flag: bool)
    | JNumber
    | JString(text: Text)
    | JArray(items: seq<Json>)
    | JObject(fields: map<Text, Json>)

  type Object = map<Text, Json>

  function AsObject(value: Json): Result<Object, ProtocolError> {
    match value
    case JObject(fields) => Ok(fields)
    case _ => Err(InvalidResponse)
  }

  function RequiredArray(obj: Object, name: Text): Result<seq<Json>, ProtocolError> {
    if name in obj && obj[name].JArray? then Ok(obj[name].items) else Err(InvalidResponse)
  }

  function RequiredText(obj: Object, name: Text, maximum: nat): Result<Text, ProtocolError> {
    if name in obj && obj[name].JString? && 1 <= |obj[name].text| <= maximum
    then Ok(obj[name].text) else Err(InvalidResponse)
  }

  function RequiredUrl(obj: Object, name: Text): (r: Result<Text, ProtocolError>)
    ensures r.Ok? ==> BoundedUrl(r.value)
  {
    var value :- RequiredText(obj, name, MAXIMUM_URL_BYTES);
    if BoundedUrl(value) then Ok(value) else Err(InvalidResponse)
  }

  function OptionalUrl(obj: Object, name: Text): (r: Result<Option<Text>, ProtocolError>)
    ensures r.Ok? && r.value.Some? ==> BoundedUrl(r.value.value)
  {
    if name !in obj then Ok(None)
    else if obj[name].JString? && |obj[name].text| <= MAXIMUM_URL_BYTES && BoundedUrl(obj[name].text)
    then Ok(Some(obj[name].text)) else Err(InvalidResponse)
  }

  // ---------------------------------------------------------------- identifiers

  function ParseIdentifier(value: Json): Result<Text, ProtocolError> {
    var identifier :- AsObject(value);
    var kind :- RequiredText(identifier, Ascii("type"), 16);
    if kind != Ascii("dns") then Err(InvalidResponse)
    else
      var name :- RequiredText(identifier, Ascii("value"), MAXIMUM_DNS_NAME_BYTES);
      if ValidDnsName(name) then Ok(name) else Err(InvalidResponse)
  }

  /** The names in the order received; fails on the first malformed or repeated one. */
  function ParseIdentifiers(values: seq<Json>): (r: Result<seq<Text>, ProtocolError>)
    ensures r.Err? ==> r.error == InvalidResponse
    ensures r.Ok? ==> |r.value| == |values| && NoDuplicates(r.value)
    ensures r.Ok? ==> forall i :: 0 <= i < |r.value| ==> ValidDnsName(r.value[i])
  {
    if values == [] then Ok([])
    else
      var names :- ParseIdentifiers(values[..|values| - 1]);
      var name :- ParseIdentifier(values[|values| - 1]);
      if name in names then Err(InvalidResponse) else Ok(names + [name])
  }

  function RequiredIdentifiers(obj: Object): Result<seq<Text>, ProtocolError> {
    var values :- RequiredArray(obj, Ascii("identifiers"));
    if values == [] || |values| > MAXIMUM_IDENTIFIERS then Err(InvalidResponse)
    else
      var names :- ParseIdentifiers(values);
      Ok(Sort(names))
  }

  lemma {:induction false} FailureSticks(values: seq<Json>, k: nat)
    requires k <= |values| && ParseIdentifiers(values[..k]).Err?
    ensures ParseIdentifiers(values) == Err(InvalidResponse)
  {
    if k == |values| {
      assert values[..k] == values;
    } else {
      var shorter := values[..|values| - 1];
      assert shorter[..k] == values[..k];
      FailureSticks(shorter, k);
    }
  }

  /** The source's single pass with a growing list and a set of names already seen. */
  method CollectIdentifiers(obj: Object) returns (r: Result<seq<Text>, ProtocolError>)
    ensures r == RequiredIdentifiers(obj)
  {
    hide ParseIdentifier, Sort;
    var listed := RequiredArray(obj, Ascii("identifiers"));
    if listed.Err? || listed.value == [] || |listed.value| > MAXIMUM_IDENTIFIERS {
      return Err(InvalidResponse);
    }
    var values := listed.value;
    var names: seq<Text> := [];
    var unique: set<Text> := {};
    for k := 0 to |values|
      invariant ParseIdentifiers(values[..k]) == Ok(names)
      invariant unique == Elements(names)
    {
      var parsed := ParseIdentifier(values[k]);
      assert values[..k + 1][..k] == values[..k];
      if parsed.Err? || parsed.value in unique {
        FailureSticks(values, k + 1);
        return Err(InvalidResponse);
      }
      unique := unique + {parsed.value};
      names := names + [parsed.value];
    }
    assert values[..|values|] == values;
    return Ok(Sort(names));
  }

  /** Any accepted identifier list is itself a canonical request. */
  lemma IdentifiersCanonical(obj: Object)
    requires RequiredIdentifiers(obj).Ok?
    ensures ValidRequest(RequiredIdentifiers(obj).value)
    ensures var received := ParseIdentifiers(obj[Ascii("identifiers")].items).value;
            Elements(RequiredIdentifiers(obj).value) == Elements(received)
  {
    var received := ParseIdentifiers(obj[Ascii("identifiers")].items).value;
    SortCanonical(received);
    SortIsAPermutation(received);
    assert |Sort(received)| == |multiset(Sort(received))| == |multiset(received)|;
    forall i | 0 <= i < |Sort(received)|
      ensures ValidDnsName(Sort(received)[i])
    {
      assert Sort(received)[i] in Elements(received);
    }
  }

  /**
   * The list comparison made against the request decides set equality with the received names,
   * whatever order the CA sent them in.
   */
  lemma IdentifiersMatchIff(obj: Object, request: seq<Text>)
    requires RequiredIdentifiers(obj).Ok?
    requires ValidRequest(request)
    ensures var received := ParseIdentifiers(obj[Ascii("identifiers")].items).value;
            RequiredIdentifiers(obj).value == request <==> Elements(received) == Elements(request)
  {
    IdentifiersCanonical(obj);
    var received := ParseIdentifiers(obj[Ascii("identifiers")].items).value;
    if Elements(received) == Elements(request) {
      AscendingUnique(RequiredIdentifiers(obj).value, request);
    }
  }

  // ---------------------------------------------------------------- orders

  function ParseOrderStatus(value: Text): (r: Result<ResourceStatus, ProtocolError>)
    ensures r.Ok? ==> r.value in {Pending, Processing, Valid, Invalid, Ready}
  {
    if value == Ascii("pending") then Ok(Pending)
    else if value == Ascii("processing") then Ok(Processing)
    else if value == Ascii("valid") then Ok(Valid)
    else if value == Ascii("invalid") then Ok(Invalid)
    else if value == Ascii("ready") then Ok(Ready)
    else Err(InvalidResponse)
  }

  function ParseUrls(values: seq<Json>): (r: Result<seq<Text>, ProtocolError>)
    ensures r.Ok? ==> DistinctUrls(r.value)
  {
    if values == [] then Ok([])
    else
      var urls :- ParseUrls(values[..|values| - 1]);
      var last := values[|values| - 1];
      if last.JString? && BoundedUrl(last.text) && last.text !in urls
      then Ok(urls + [last.text]) else Err(InvalidResponse)
  }

  function RequiredUrls(obj: Object, name: Text): (r: Result<seq<Text>, ProtocolError>)
    ensures r.Ok? ==> DistinctUrls(r.value)
  {
    var values :- RequiredArray(obj, name);
    if values == [] || |values| > MAXIMUM_AUTHORIZATIONS then Err(InvalidResponse) else ParseUrls(values)
  }

  function ParseOrder(value: Json): Result<Order, ProtocolError> {
    var obj :- AsObject(value);
    var statusText :- RequiredText(obj, Ascii("status"), 32);
    var status :- ParseOrderStatus(statusText);
    var dnsNames :- RequiredIdentifiers(obj);
    var authorizations :- RequiredUrls(obj, Ascii("authorizations"));
    var finalize :- RequiredUrl(obj, Ascii("finalize"));
    var certificate :- OptionalUrl(obj, Ascii("certificate"));
    if status == Valid && certificate.None? then Err(InvalidResponse)
    else Ok(Order(status, dnsNames, authorizations, finalize, certificate))
  }

  lemma ParsedOrders(value: Json)
    requires ParseOrder(value).Ok?
    ensures WireOrder(ParseOrder(value).value)
  {
    hide BoundedUrl, ValidRequest, RequiredIdentifiers, RequiredUrl, RequiredUrls, OptionalUrl;
    IdentifiersCanonical(value.fields);
  }

  // ---------------------------------------------------------------- authorizations

  function ParseAuthorizationStatus(value: Text): Result<ResourceStatus, ProtocolError> {
    if value == Ascii("pending") then Ok(Pending)
    else if value == Ascii("valid") then Ok(Valid)
    else if value == Ascii("invalid") then Ok(Invalid)
    else if value == Ascii("deactivated") then Ok(Deactivated)
    else if value == Ascii("expired") then Ok(Expired)
    else if value == Ascii("revoked") then Ok(Revoked)
    else Err(InvalidResponse)
  }

  function ParseChallengeStatus(value: Text): (r: Result<ResourceStatus, ProtocolError>)
    ensures r.Ok? ==> r.value in {Pending, Processing, Valid, Invalid}
  {
    if value == Ascii("pending") then Ok(Pending)
    else if value == Ascii("processing") then Ok(Processing)
    else if value == Ascii("valid") then Ok(Valid)
    else if value == Ascii("invalid") then Ok(Invalid)
    else Err(InvalidResponse)
  }

  function ParseChallenge(challenge: Object, kind: Text): (r: Result<Challenge, ProtocolError>)
    requires kind == Ascii("http-01") || kind == Ascii("dns-01")
    ensures r.Ok? ==> WireChallenge(r.value) && r.value.kind == kind
  {
    var url :- RequiredUrl(challenge, Ascii("url"));
    var token :- RequiredText(challenge, Ascii("token"), MAXIMUM_TOKEN_BYTES);
    if !AllUrlSafe(token) then Err(InvalidResponse)
    else
      var statusText :- RequiredText(challenge, Ascii("status"), 32);
      var status :- ParseChallengeStatus(statusText);
      Ok(Challenge(kind, url, token, status))
  }

  predicate HasIdentity(challenges: seq<Challenge>, c: Challenge) {
    exists i :: 0 <= i < |challenges| && challenges[i].kind == c.kind && challenges[i].url == c.url
  }

  /** Challenges of unknown kinds are skipped; a repeated (kind, url) pair is refused. */
  function ParseChallenges(values: seq<Json>): (r: Result<seq<Challenge>, ProtocolError>)
    ensures r.Ok? ==> |r.value| <= |values| && DistinctIdentities(r.value)
    ensures r.Ok? ==> forall i :: 0 <= i < |r.value| ==> WireChallenge(r.value[i])
  {
    if values == [] then Ok([])
    else
      var challenges :- ParseChallenges(values[..|values| - 1]);
      var obj :- AsObject(values[|values| - 1]);
      var kind :- RequiredText(obj, Ascii("type"), 32);
      if kind != Ascii("http-01") && kind != Ascii("dns-01") then Ok(challenges)
      else
        var challenge :- ParseChallenge(obj, kind);
        if HasIdentity(challenges, challenge) then Err(InvalidResponse) else Ok(challenges + [challenge])
  }

  function ParseAuthorization(value: Json): Result<Authorization, ProtocolError> {
    var obj :- AsObject(value);
    var identifier :- if Ascii("identifier") in obj then AsObject(obj[Ascii("identifier")]) else Err(InvalidResponse);
    var kind :- RequiredText(identifier, Ascii("type"), 16);
    if kind != Ascii("dns") then Err(InvalidResponse)
    else
      var dnsName :- RequiredText(identifier, Ascii("value"), MAXIMUM_DNS_NAME_BYTES);
      if IsWildcard(dnsName) || !ValidDnsName(dnsName) then Err(InvalidResponse)
      else
        var wildcard :-
          if Ascii("wildcard") !in obj then Ok(false)
          else if obj[Ascii("wildcard")].JBool? then Ok(obj[Ascii("wildcard")].flag)
          else Err(InvalidResponse);
        var values :- RequiredArray(obj, Ascii("challenges"));
        if values == [] || |values| > MAXIMUM_CHALLENGES then Err(InvalidResponse)
        else
          var challenges :- ParseChallenges(values);
          if challenges == [] then Err(UnsupportedChallenge)
          else
            var statusText :- RequiredText(obj, Ascii("status"), 32);
            var status :- ParseAuthorizationStatus(statusText);
            Ok(Authorization(dnsName, wildcard, status, challenges))
  }

  lemma ParsedAuthorizations(value: Json)
    requires ParseAuthorization(value).Ok?
    ensures WireAuthorization(ParseAuthorization(value).value)
  {
    hide BoundedUrl, ValidDnsName, ParseChallenges, RequiredText;
  }
}
