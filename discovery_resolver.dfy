/** The discovery resolver: it turns the instance lists a registry watcher
    hands out into the address list a gRPC client connection dials.
    Endpoints are URIs `scheme://host[?isSecure=true]`. */
module Discovery {
  import opened Common
  import opened NetUrl
  import opened Registry
  import opened Grpc

  // ---------------------------------------------------------------------------
  // Endpoint URIs

  /** The query key that marks an endpoint as secure. */
  const IS_SECURE := "isSecure"
  const SECURE_VALUE := "true"

  /** The endpoint URI of a listener; a secure one carries isSecure=true. */
  function NewEndpoint(scheme: string, host: string, isSecure: bool): (u: Url)
    ensures u.scheme == scheme && u.host == host && u.path == ""
    ensures IsSecure(u) == isSecure
  {
    if isSecure then
      QueryGetSingle(IS_SECURE, SECURE_VALUE);
      Url(scheme, host, "", IS_SECURE + "=" + SECURE_VALUE)
    else Url(scheme, host, "", "")
  }

  /** A raw query holding one `key=value` pair with nothing to decode yields
      that value. */
  lemma QueryGetSingle(key: string, value: string)
    requires key != "" && '=' !in key
    requires '&' !in key + value && ';' !in key + value
    requires '%' !in key + value && '+' !in key + value
    ensures QueryGet(key + "=" + value, key) == value
  {
    var q := key + "=" + value;
    assert '&' !in q && ';' !in q;
    QueryGetOnePair(q, key);
    assert key + ['='] + value == q;
    CutAtFirst(key, value, '=');
    assert '%' !in key && '+' !in key && '%' !in value && '+' !in value;
    UnescapeNoEscapes(key, QueryComponentMode);
    UnescapeNoEscapes(value, QueryComponentMode);
  }

  /** The isSecure key and value are read decoded: a one-pair query whose
      key decodes to "isSecure" and whose value decodes to "true" marks the
      endpoint as secure, however the two are escaped. */
  lemma DecodedSecureFlag(u: Url, key: string, value: string)
    requires u.rawQuery == key + "=" + value
    requires '=' !in key && '&' !in key + value && ';' !in key + value
    requires Unescape(key, QueryComponentMode) == Some(IS_SECURE)
    requires Unescape(value, QueryComponentMode) == Some(SECURE_VALUE)
    ensures IsSecure(u)
  {
    var q := key + "=" + value;
    assert '&' !in q && ';' !in q;
    QueryGetOnePair(q, IS_SECURE);
    assert key + ['='] + value == q;
    CutAtFirst(key, value, '=');
  }

  /** `isSecure=tr%75e` and `is%53ecure=true` both carry the secure flag. */
  lemma EscapedSecureFlag()
    ensures Unescape("tr%75e", QueryComponentMode) == Some(SECURE_VALUE)
    ensures Unescape("is%53ecure", QueryComponentMode) == Some(IS_SECURE)
  {
    UnescapeSplit("tr", "%75", "e", QueryComponentMode);
    assert "tr" + "%75" + "e" == "tr%75e";
    assert "tr" + "u" + "e" == SECURE_VALUE;
    UnescapeSplit("is", "%53", "ecure", QueryComponentMode);
    assert "is" + "%53" + "ecure" == "is%53ecure";
    assert "is" + "S" + "ecure" == IS_SECURE;
  }

  /** Whether the isSecure query value parses as boolean true; a missing or
      malformed value counts as false. */
  function IsSecure(u: Url): (b: bool)
    ensures b <==> QueryGet(u.rawQuery, IS_SECURE) in TRUE_STRINGS
  {
    match ParseBool(QueryGet(u.rawQuery, IS_SECURE))
    case Ok(v) => v
    case Err(_) => false
  }

  /** What ParseEndpoint makes of one endpoint string. */
  datatype Check = Unparsable | Mismatch | Match(host: string)

  function CheckEndpoint(e: string, scheme: string, isSecure: bool): Check
  {
    match Parse(e)
    case Unparseable => Unparsable
    case Parsed(u) => if u.scheme == scheme && IsSecure(u) == isSecure then Match(u.host) else Mismatch
  }

  /** The error url.Parse reports for an endpoint; its wording is not modelled. */
  function ParseError(e: string): Error { Text("parse \"" + e + "\"") }

  /** The first answer of a search over endpoints, given what each endpoint
      is found to be: a match yields its host, an unparsable endpoint yields
      its parse error, and exhausting the list yields the empty host. */
  function FindFirst(endpoints: seq<string>, check: string -> Check): Result<string>
  {
    if endpoints == [] then Ok("")
    else match check(endpoints[0])
      case Mismatch => FindFirst(endpoints[1..], check)
      case Match(h) => Ok(h)
      case Unparsable => Err(ParseError(endpoints[0]))
  }

  /** The first endpoint that does not merely mismatch decides the answer,
      and the empty host with no error means that every endpoint mismatched. */
  lemma FindFirstDecides(endpoints: seq<string>, check: string -> Check)
    ensures (forall k :: 0 <= k < |endpoints| ==> check(endpoints[k]).Mismatch?) ==>
              FindFirst(endpoints, check) == Ok("")
    ensures forall i :: 0 <= i < |endpoints| && !check(endpoints[i]).Mismatch? &&
                        (forall k :: 0 <= k < i ==> check(endpoints[k]).Mismatch?) ==>
              FindFirst(endpoints, check) ==
                (if check(endpoints[i]).Match? then Ok(check(endpoints[i]).host) else Err(ParseError(endpoints[i])))
  {
    if forall k :: 0 <= k < |endpoints| ==> check(endpoints[k]).Mismatch? {
      FindFirstNone(endpoints, check);
    }
    forall i | 0 <= i < |endpoints| && !check(endpoints[i]).Mismatch? &&
               (forall k :: 0 <= k < i ==> check(endpoints[k]).Mismatch?)
      ensures FindFirst(endpoints, check) ==
                (if check(endpoints[i]).Match? then Ok(check(endpoints[i]).host) else Err(ParseError(endpoints[i])))
    {
      FindFirstAt(endpoints, check, i);
    }
  }

  lemma {:induction false} FindFirstNone(endpoints: seq<string>, check: string -> Check)
    requires forall k :: 0 <= k < |endpoints| ==> check(endpoints[k]).Mismatch?
    ensures FindFirst(endpoints, check) == Ok("")
  {
    if endpoints != [] {
      assert check(endpoints[0]).Mismatch?;
      FindFirstNone(endpoints[1..], check);
    }
  }

  lemma {:induction false} FindFirstAt(endpoints: seq<string>, check: string -> Check, i: nat)
    requires i < |endpoints| && !check(endpoints[i]).Mismatch?
    requires forall k :: 0 <= k < i ==> check(endpoints[k]).Mismatch?
    ensures FindFirst(endpoints, check) ==
              (if check(endpoints[i]).Match? then Ok(check(endpoints[i]).host) else Err(ParseError(endpoints[i])))
  {
    if i > 0 {
      assert check(endpoints[0]).Mismatch?;
      assert endpoints[1..][i - 1] == endpoints[i];
      FindFirstAt(endpoints[1..], check, i - 1);
    }
  }

  /** ParseEndpoint's answer. */
  function FindEndpoint(endpoints: seq<string>, scheme: string, isSecure: bool): Result<string>
  {
    FindFirst(endpoints, e => CheckEndpoint(e, scheme, isSecure))
  }

  /** ParseEndpoint: the host of the first endpoint with the given scheme and
      security flag; a parse failure reached first is returned as the error. */
  method ParseEndpoint(endpoints: seq<string>, scheme: string, isSecure: bool) returns (r: Result<string>)
    ensures r == FindEndpoint(endpoints, scheme, isSecure)
  {
    ghost var check := e => CheckEndpoint(e, scheme, isSecure);
    for i := 0 to |endpoints|
      invariant FindEndpoint(endpoints, scheme, isSecure) == FindFirst(endpoints[i..], check)
    {
      var e := endpoints[i];
      assert endpoints[i..][1..] == endpoints[i + 1..];
      match Parse(e) {
        case Unparseable =>
          return Err(ParseError(e));
        case Parsed(u) =>
          if u.scheme == scheme {
            if IsSecure(u) == isSecure {
              return Ok(u.host);
            }
          }
      }
    }
    return Ok("");
  }

  lemma FindParsed(s: string, u: Url, isSecure: bool)
    requires Parse(s) == Parsed(u) && IsSecure(u) == isSecure
    ensures FindEndpoint([s], u.scheme, isSecure) == Ok(u.host)
  {
    assert CheckEndpoint(s, u.scheme, isSecure) == Match(u.host);
  }

  lemma FoundAgain(u: Url, isSecure: bool)
    requires ValidScheme(u.scheme) && Lower(u.scheme) == u.scheme && PlainHost(u.host)
    requires u.path == "" && PlainQuery(u.rawQuery) && IsSecure(u) == isSecure
    ensures FindEndpoint([ToString(u)], u.scheme, isSecure) == Ok(u.host)
  {
    ParseToString(u.scheme, u.host, u.rawQuery);
    FindParsed(ToString(u), u, isSecure);
  }

  /** A URL whose security flag differs from the one asked for is not found,
      and the search ends with the empty host. */
  lemma NotFoundAgain(u: Url, isSecure: bool)
    requires ValidScheme(u.scheme) && Lower(u.scheme) == u.scheme && PlainHost(u.host)
    requires u.path == "" && PlainQuery(u.rawQuery) && IsSecure(u) != isSecure
    ensures FindEndpoint([ToString(u)], u.scheme, isSecure) == Ok("")
  {
    ParseToString(u.scheme, u.host, u.rawQuery);
    FindParsedMismatch(ToString(u), u, isSecure);
  }

  lemma FindParsedMismatch(s: string, u: Url, isSecure: bool)
    requires Parse(s) == Parsed(u) && IsSecure(u) != isSecure
    ensures FindEndpoint([s], u.scheme, isSecure) == Ok("")
  {
    var check := e => CheckEndpoint(e, u.scheme, isSecure);
    assert check(s) == Mismatch;
    assert [s][1..] == [];
    assert FindFirst([s], check) == FindFirst([], check);
  }

  lemma SecureQueryPlain()
    ensures PlainQuery(IS_SECURE + "=" + SECURE_VALUE)
  {
    var q := IS_SECURE + "=" + SECURE_VALUE;
    forall c | c in q ensures !IsControl(c) {
      assert c in IS_SECURE || c == '=' || c in SECURE_VALUE;
    }
  }

  lemma NewEndpointPlain(scheme: string, host: string, isSecure: bool)
    ensures PlainQuery(NewEndpoint(scheme, host, isSecure).rawQuery)
  {
    if isSecure {
      SecureQueryPlain();
    }
  }

  /** An endpoint built by NewEndpoint and formatted is found again by
      ParseEndpoint, with its host. */
  lemma ParseEndpointOfNewEndpoint(scheme: string, host: string, isSecure: bool)
    requires ValidScheme(scheme) && Lower(scheme) == scheme && PlainHost(host)
    ensures FindEndpoint([ToString(NewEndpoint(scheme, host, isSecure))], scheme, isSecure) == Ok(host)
  {
    NewEndpointPlain(scheme, host, isSecure);
    FoundAgain(NewEndpoint(scheme, host, isSecure), isSecure);
  }

  // ---------------------------------------------------------------------------
  // From instances to addresses

  /** attributes.New/WithValue over a metadata map. */
  function Attributes(md: map<string, string>): map<string, AttrValue>
  {
    map k | k in md :: Str(md[k])
  }

  /** parseAttributes: every metadata entry becomes a string attribute, in
      whatever order the map is iterated. */
  method ParseAttributes(md: map<string, string>) returns (a: map<string, AttrValue>)
    ensures a.Keys == md.Keys
    ensures forall k :: k in md ==> a[k] == Str(md[k])
  {
    a := map[];
    var todo := md.Keys;
    while todo != {}
      invariant todo <= md.Keys
      invariant a.Keys == md.Keys - todo
      invariant forall k :: k in a ==> a[k] == Str(md[k])
      decreases todo
    {
      var k :| k in todo;
      a := a[k := Str(md[k])];
      todo := todo - {k};
    }
  }

  /** The endpoint update takes from one instance, found with ParseEndpoint;
      a parse error or an empty host means the instance is skipped. */
  method InstanceEndpoint(instance: ServiceInstance, insecure: bool) returns (endpoint: Option<string>)
    ensures endpoint == EndpointOf(instance, insecure)
  {
    var found := ParseEndpoint(instance.endpoints, "grpc", !insecure);
    if found.Err? {
      return None;
    }
    if found.value == "" {
      return None;
    }
    return Some(found.value);
  }

  /** The endpoint the i-th instance offers. */
  method OfferAt(ins: seq<ServiceInstance>, insecure: bool, i: nat) returns (offered: Option<string>)
    requires i < |ins|
    ensures offered == Offers(ins, insecure)[i]
  {
    offered := InstanceEndpoint(ins[i], insecure);
    OffersAt(ins, insecure, i);
  }

  /** The loop of update: one address per instance whose endpoint is found
      and not yet taken, in instance order. */
  method CollectAddresses(ins: seq<ServiceInstance>, insecure: bool) returns (addrs: seq<Address>)
    ensures addrs == Addresses(ins, insecure)
  {
    addrs := [];
    var endpoints: set<string> := {};
    for i := 0 to |ins|
      invariant addrs == AddressesUpTo(ins, Offers(ins, insecure), i)
      invariant endpoints == AddrSet(addrs)
    {
      var instance := ins[i];
      var offered := OfferAt(ins, insecure, i);
      UpdateStep(ins, insecure, i, offered);
      if offered.None? {
        continue;
      }
      var endpoint := offered.value;
      if endpoint in endpoints {
        continue;
      }
      endpoints := endpoints + {endpoint};
      var addr := NewAddress(instance, endpoint);
      addrs := addrs + [addr];
    }
  }

  /** The address update builds for an instance and its endpoint. */
  method NewAddress(instance: ServiceInstance, endpoint: string) returns (addr: Address)
    ensures addr == AddressFor(instance, endpoint)
  {
    var attributes := ParseAttributes(instance.metadata);
    assert attributes == Attributes(instance.metadata);
    addr := Address(endpoint, instance.name, attributes);
    addr := addr.(attributes := addr.attributes[RAW_SERVICE_INSTANCE := Instance(instance)]);
  }

  /** The endpoint update takes from one instance: the host of its first grpc
      endpoint whose security matches the channel, when one is reached before
      any parse failure and the host is not empty. */
  function EndpointOf(instance: ServiceInstance, insecure: bool): Option<string>
  {
    match FindEndpoint(instance.endpoints, "grpc", !insecure)
    case Ok(h) => if h != "" then Some(h) else None
    case Err(_) => None
  }

  /** The address published for an instance: its endpoint, the instance name
      as server name, its metadata, and the instance itself. */
  function AddressFor(instance: ServiceInstance, endpoint: string): Address
  {
    Address(endpoint, instance.name, Attributes(instance.metadata)[RAW_SERVICE_INSTANCE := Instance(instance)])
  }

  /** The endpoint each instance offers, in instance order. */
  function Offers(ins: seq<ServiceInstance>, insecure: bool): (offers: seq<Option<string>>)
    ensures |offers| == |ins|
  {
    if ins == [] then [] else Offers(ins[..|ins| - 1], insecure) + [EndpointOf(ins[|ins| - 1], insecure)]
  }

  lemma {:induction false} OffersAt(ins: seq<ServiceInstance>, insecure: bool, i: nat)
    requires i < |ins|
    ensures Offers(ins, insecure)[i] == EndpointOf(ins[i], insecure)
  {
    if i < |ins| - 1 {
      OffersAt(ins[..|ins| - 1], insecure, i);
    }
  }

  /** Instance n is the first of the list to offer its endpoint. */
  predicate FirstOffer(offers: seq<Option<string>>, n: nat)
    requires n < |offers|
  {
    offers[n].Some? && forall k :: 0 <= k < n ==> offers[k] != offers[n]
  }

  /** The addresses of the first n instances, one per first offer, in
      instance order. */
  function AddressesUpTo(ins: seq<ServiceInstance>, offers: seq<Option<string>>, n: nat): seq<Address>
    requires |offers| == |ins| && n <= |ins|
  {
    if n == 0 then []
    else AddressesUpTo(ins, offers, n - 1) +
         (if FirstOffer(offers, n - 1) then [AddressFor(ins[n - 1], offers[n - 1].value)] else [])
  }

  /** The addresses update publishes for an instance list. */
  function Addresses(ins: seq<ServiceInstance>, insecure: bool): seq<Address>
  {
    AddressesUpTo(ins, Offers(ins, insecure), |ins|)
  }

  function AddrSet(addresses: seq<Address>): set<string>
  {
    set a | a in addresses :: a.addr
  }

  /** The endpoints already published are exactly those some earlier instance
      offers. */
  lemma {:induction false} AddrSetUpTo(ins: seq<ServiceInstance>, offers: seq<Option<string>>, n: nat, e: string)
    requires |offers| == |ins| && n <= |ins|
    ensures e in AddrSet(AddressesUpTo(ins, offers, n)) <==> exists k :: 0 <= k < n && offers[k] == Some(e)
  {
    if n > 0 {
      AddrSetUpTo(ins, offers, n - 1, e);
      var prev := AddressesUpTo(ins, offers, n - 1);
      var all := AddressesUpTo(ins, offers, n);
      if FirstOffer(offers, n - 1) {
        var a := AddressFor(ins[n - 1], offers[n - 1].value);
        assert all == prev + [a];
        assert AddrSet(all) == AddrSet(prev) + {a.addr};
      } else {
        assert all == prev;
        if offers[n - 1] == Some(e) {
          var k :| 0 <= k < n - 1 && offers[k] == offers[n - 1];
        }
      }
    }
  }

  /** One more instance adds its address exactly when it offers an endpoint
      not published yet. */
  lemma AddressesNext(ins: seq<ServiceInstance>, offers: seq<Option<string>>, i: nat)
    requires |offers| == |ins| && i < |ins|
    ensures var prev := AddressesUpTo(ins, offers, i);
      AddressesUpTo(ins, offers, i + 1) ==
        prev + (if offers[i].Some? && offers[i].value !in AddrSet(prev) then [AddressFor(ins[i], offers[i].value)] else [])
  {
    if offers[i].Some? {
      AddrSetUpTo(ins, offers, i, offers[i].value);
    }
  }

  /** The step update takes for instance i, in terms of what it offers. */
  lemma UpdateStep(ins: seq<ServiceInstance>, insecure: bool, i: nat, offered: Option<string>)
    requires i < |ins| && offered == Offers(ins, insecure)[i]
    ensures var prev := AddressesUpTo(ins, Offers(ins, insecure), i);
      AddressesUpTo(ins, Offers(ins, insecure), i + 1) ==
        prev + (if offered.Some? && offered.value !in AddrSet(prev) then [AddressFor(ins[i], offered.value)] else [])
    ensures var prev := AddressesUpTo(ins, Offers(ins, insecure), i);
      offered.Some? ==> AddrSet(prev + [AddressFor(ins[i], offered.value)]) == AddrSet(prev) + {offered.value}
  {
    AddressesNext(ins, Offers(ins, insecure), i);
  }

  /** No two addresses share an address string. */
  predicate UniqueAddrs(a: seq<Address>)
  {
    forall p, q :: 0 <= p < q < |a| ==> a[p].addr != a[q].addr
  }

  lemma UniqueAppend(prev: seq<Address>, added: Address)
    requires UniqueAddrs(prev) && added.addr !in AddrSet(prev)
    ensures UniqueAddrs(prev + [added])
  {
    var all := prev + [added];
    forall p, q | 0 <= p < q < |all|
      ensures all[p].addr != all[q].addr
    {
      assert all[p] == prev[p];
      if q == |prev| {
        assert prev[p].addr in AddrSet(prev);
      } else {
        assert all[q] == prev[q];
      }
    }
  }

  /** Published addresses are unique by address string. */
  lemma {:induction false} AddressesUnique(ins: seq<ServiceInstance>, offers: seq<Option<string>>, n: nat)
    requires |offers| == |ins| && n <= |ins|
    ensures UniqueAddrs(AddressesUpTo(ins, offers, n))
  {
    if n > 0 {
      AddressesUnique(ins, offers, n - 1);
      var prev := AddressesUpTo(ins, offers, n - 1);
      var all := AddressesUpTo(ins, offers, n);
      if FirstOffer(offers, n - 1) {
        var e := offers[n - 1].value;
        AddrSetUpTo(ins, offers, n - 1, e);
        UniqueAppend(prev, AddressFor(ins[n - 1], e));
      } else {
        assert all == prev + [];
        assert all == prev;
      }
    }
  }

  /** The address is the one built for an instance among the first n that is
      the first to offer its endpoint. */
  predicate FromFirstOffer(ins: seq<ServiceInstance>, offers: seq<Option<string>>, n: nat, addr: Address)
    requires |offers| == |ins| && n <= |ins|
  {
    exists j :: 0 <= j < n && FirstOffer(offers, j) && addr == AddressFor(ins[j], offers[j].value)
  }

  /** Every published address comes from the first instance offering its
      endpoint, with that instance's name and the instance attached. */
  lemma {:induction false} AddressesSound(ins: seq<ServiceInstance>, offers: seq<Option<string>>, n: nat)
    requires |offers| == |ins| && n <= |ins|
    ensures forall p :: 0 <= p < |AddressesUpTo(ins, offers, n)| ==>
      FromFirstOffer(ins, offers, n, AddressesUpTo(ins, offers, n)[p])
  {
    if n > 0 {
      AddressesSound(ins, offers, n - 1);
      var prev := AddressesUpTo(ins, offers, n - 1);
      var all := AddressesUpTo(ins, offers, n);
      forall p | 0 <= p < |all|
        ensures FromFirstOffer(ins, offers, n, all[p])
      {
        if p < |prev| {
          assert FromFirstOffer(ins, offers, n - 1, prev[p]);
          var j :| 0 <= j < n - 1 && FirstOffer(offers, j) && prev[p] == AddressFor(ins[j], offers[j].value);
          assert all[p] == prev[p];
        } else {
          assert FirstOffer(offers, n - 1);
          assert all == prev + [AddressFor(ins[n - 1], offers[n - 1].value)];
          assert all[p] == AddressFor(ins[n - 1], offers[n - 1].value);
        }
      }
    }
  }

  /** Every offered endpoint is published, so the published addresses are
      non-empty exactly when some instance offers an endpoint. */
  lemma AddressesComplete(ins: seq<ServiceInstance>, offers: seq<Option<string>>)
    requires |offers| == |ins|
    ensures forall j :: 0 <= j < |ins| && offers[j].Some? ==> offers[j].value in AddrSet(AddressesUpTo(ins, offers, |ins|))
    ensures AddressesUpTo(ins, offers, |ins|) != [] <==> exists j :: 0 <= j < |ins| && offers[j].Some?
  {
    var a := AddressesUpTo(ins, offers, |ins|);
    forall j | 0 <= j < |ins| && offers[j].Some?
      ensures offers[j].value in AddrSet(a)
    {
      AddrSetUpTo(ins, offers, |ins|, offers[j].value);
    }
    if a != [] {
      assert a[0].addr in AddrSet(a);
      AddrSetUpTo(ins, offers, |ins|, a[0].addr);
    }
  }

  // ---------------------------------------------------------------------------
  // The resolver

  /** What one turn of the watch loop did. */
  datatype Step =
    | Panicked   // r.ctx is nil: calling Done on it is a nil dereference
    | Exited     // the context was done, or Next reported context.Canceled
    | Retried    // Next failed otherwise; the loop sleeps one second and goes on
    | Updated    // Next returned instances, which were handed to update

  /** discoveryResolver. `ctx` is the context the watch loop polls; `cancel`
      is the context its cancel function ends. */
  class Resolver {
    var watcher: WatcherState
    const cc: ClientConn
    const ctx: CancelContext?
    const cancel: CancelContext
    const insecure: bool

    constructor (watcher: WatcherState, cc: ClientConn, ctx: CancelContext?, cancel: CancelContext, insecure: bool)
      ensures this.watcher == watcher && this.cc == cc && this.ctx == ctx
      ensures this.cancel == cancel && this.insecure == insecure
    {
      this.watcher := watcher;
      this.cc := cc;
      this.ctx := ctx;
      this.cancel := cancel;
      this.insecure := insecure;
    }

    /** update: publish the deduplicated addresses of the instances, unless
      there are none, in which case the published state stays as it was. */
    method Update(ins: seq<ServiceInstance>)
      modifies cc
      ensures Addresses(ins, insecure) == [] ==> cc.states == old(cc.states)
      ensures Addresses(ins, insecure) != [] ==> cc.states == old(cc.states) + [Addresses(ins, insecure)]
    {
      var addrs := CollectAddresses(ins, insecure);
      if |addrs| == 0 {
        return;
      }
      var _ := cc.UpdateState(addrs);
    }

    /** One turn of watch: poll the context, call Next (whose result is the
      `next` input), and act on it. */
    method WatchStep(next: Result<seq<ServiceInstance>>) returns (step: Step)
      modifies cc
      ensures ctx == null ==> step == Panicked && cc.states == old(cc.states)
      ensures ctx != null && ctx.cancelled ==> step == Exited && cc.states == old(cc.states)
      ensures ctx != null && !ctx.cancelled ==>
        match next
        case Err(e) => step == (if e == ContextCanceled then Exited else Retried) && cc.states == old(cc.states)
        case Ok(ins) => step == Updated && cc.states == old(cc.states) + Publication(ins, insecure)
    {
      if ctx == null {
        return Panicked;
      }
      if ctx.cancelled {
        return Exited;
      }
      match next {
        case Err(e) =>
          if e == ContextCanceled {
            return Exited;
          }
          return Retried;
        case Ok(ins) =>
          Update(ins);
          return Updated;
      }
    }

    /** The watch loop run over a series of Next results, until it exits or
      the series ends. */
    method Watch(nexts: seq<Result<seq<ServiceInstance>>>) returns (last: Option<Step>)
      modifies cc
      ensures ctx == null && nexts != [] ==> last == Some(Panicked) && cc.states == old(cc.states)
      ensures ctx != null && ctx.cancelled && nexts != [] ==> last == Some(Exited) && cc.states == old(cc.states)
      ensures ctx != null && !ctx.cancelled ==> cc.states == old(cc.states) + Publications(nexts, insecure)
    {
      last := None;
      if ctx == null || ctx.cancelled {
        if nexts != [] {
          var step := WatchStep(nexts[0]);
          last := Some(step);
        }
        return;
      }
      var i := 0;
      while i < |nexts|
        invariant 0 <= i <= |nexts|
        invariant old(cc.states) + Publications(nexts, insecure) == cc.states + Publications(nexts[i..], insecure)
        decreases |nexts| - i
      {
        PublicationsAt(nexts, i, insecure);
        ghost var before := cc.states;
        var step := WatchStep(nexts[i]);
        last := Some(step);
        if step == Exited {
          return;
        }
        if nexts[i].Ok? {
          assert cc.states == before + Publication(nexts[i].value, insecure);
        } else {
          assert cc.states == before;
        }
        i := i + 1;
      }
    }

    method Close()
      modifies this, cancel
      ensures cancel.cancelled && watcher == Stop(old(watcher))
    {
      cancel.Cancel();
      watcher := Stop(watcher);
    }

    method ResolveNow()
    {
    }
  }

  /** The publications from the i-th Next on: what it publishes, then the
      rest, unless it is context.Canceled. */
  lemma PublicationsAt(nexts: seq<Result<seq<ServiceInstance>>>, i: nat, insecure: bool)
    requires i < |nexts|
    ensures nexts[i].Err? && nexts[i].error == ContextCanceled ==> Publications(nexts[i..], insecure) == []
    ensures nexts[i].Err? && nexts[i].error != ContextCanceled ==>
              Publications(nexts[i..], insecure) == Publications(nexts[i + 1..], insecure)
    ensures nexts[i].Ok? ==>
              Publications(nexts[i..], insecure) ==
              Publication(nexts[i].value, insecure) + Publications(nexts[i + 1..], insecure)
  {
    assert nexts[i..][0] == nexts[i];
    assert nexts[i..][1..] == nexts[i + 1..];
  }

  /** What one successful Next publishes. */
  function Publication(ins: seq<ServiceInstance>, insecure: bool): seq<seq<Address>>
  {
    if Addresses(ins, insecure) == [] then [] else [Addresses(ins, insecure)]
  }

  /** The address lists a series of Next results publishes, up to a
      context.Canceled error. */
  function Publications(nexts: seq<Result<seq<ServiceInstance>>>, insecure: bool): seq<seq<Address>>
  {
    if nexts == [] then []
    else match nexts[0]
      case Err(e) => if e == ContextCanceled then [] else Publications(nexts[1..], insecure)
      case Ok(ins) => Publication(ins, insecure) + Publications(nexts[1..], insecure)
  }

  predicate AllNonEmpty(lists: seq<seq<Address>>)
  {
    forall k :: 0 <= k < |lists| ==> lists[k] != []
  }

  lemma AllNonEmptyAppend(a: seq<seq<Address>>, b: seq<seq<Address>>)
    requires AllNonEmpty(a) && AllNonEmpty(b)
    ensures AllNonEmpty(a + b)
  {
    forall k | 0 <= k < |a + b| ensures (a + b)[k] != [] {
      if k >= |a| {
        assert (a + b)[k] == b[k - |a|];
      }
    }
  }

  /** The watch loop never publishes an empty address list: update refuses
      to write one. */
  lemma {:induction false} PublicationsNonEmpty(nexts: seq<Result<seq<ServiceInstance>>>, insecure: bool)
    ensures AllNonEmpty(Publications(nexts, insecure))
  {
    if nexts != [] {
      PublicationsNonEmpty(nexts[1..], insecure);
      if nexts[0].Ok? {
        AllNonEmptyAppend(Publication(nexts[0].value, insecure), Publications(nexts[1..], insecure));
      }
    }
  }
}
