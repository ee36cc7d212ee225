/** The builder of the "direct" resolver scheme: the target path, less its
    leading '/', is a comma-separated list of addresses, published once. */
module Direct {
  import opened Common
  import opened NetUrl
  import opened Grpc

  const NAME := "direct"

  /** The addresses a direct target names, in order, empty pieces included. */
  function DirectAddresses(path: string): seq<Address>
  {
    var pieces := Split(TrimPrefix(path, "/"), ',');
    seq(|pieces|, i requires 0 <= i < |pieces| => Address(pieces[i], "", map[]))
  }

  function AddrsOf(addresses: seq<Address>): seq<string>
  {
    seq(|addresses|, i requires 0 <= i < |addresses| => addresses[i].addr)
  }

  /** There is one address per comma, plus one; joined back with commas they
      give the path without its leading '/'; none holds a comma. */
  lemma DirectAddressesSpec(path: string)
    ensures |DirectAddresses(path)| == Count(TrimPrefix(path, "/"), ',') + 1
    ensures Join(AddrsOf(DirectAddresses(path)), ',') == TrimPrefix(path, "/")
    ensures forall i :: 0 <= i < |DirectAddresses(path)| ==> ',' !in DirectAddresses(path)[i].addr
  {
    var s := TrimPrefix(path, "/");
    SplitLength(s, ',');
    JoinSplit(s, ',');
    SplitPiecesFree(s, ',');
    assert AddrsOf(DirectAddresses(path)) == Split(s, ',');
  }

  /** directResolver: it has nothing to close and nothing to re-resolve. */
  class DirectResolver {
    constructor () {}

    method Close() {}

    method ResolveNow() {}
  }

  class DirectBuilder {
    constructor () {}

    function Scheme(): string { NAME }

    /** Build: publish the addresses named by the target, failing with the
        connection's error if it refuses them. */
    method Build(target: Url, cc: ClientConn) returns (r: DirectResolver?, err: Option<Error>)
      modifies cc
      ensures cc.states == old(cc.states) + [DirectAddresses(target.path)]
      ensures err == cc.rejection
      ensures (r == null) <==> err.Some?
    {
      var addrs: seq<Address> := [];
      var pieces := Split(TrimPrefix(target.path, "/"), ',');
      for i := 0 to |pieces|
        invariant addrs == DirectAddresses(target.path)[..i]
      {
        addrs := addrs + [Address(pieces[i], "", map[])];
      }
      assert addrs == DirectAddresses(target.path);
      err := cc.UpdateState(addrs);
      if err.Some? {
        return null, err;
      }
      r := new DirectResolver();
    }
  }

  /** A target with no addresses at all still publishes one, empty, address. */
  lemma EmptyTarget()
    ensures DirectAddresses("/") == [Address("", "", map[])]
    ensures DirectAddresses("") == [Address("", "", map[])]
  {
    assert TrimPrefix("/", "/") == "";
  }

  lemma NameIsScheme()
    ensures ValidScheme(NAME) && Lower(NAME) == NAME
  {}

  /** A direct target `direct:///raw` whose path decodes to "/a1,...,an"
      parses to that path, whose addresses are a1, ..., an. */
  lemma DirectTarget(raw: string, pieces: seq<string>)
    requires |pieces| >= 1
    requires forall k :: 0 <= k < |pieces| ==> ',' !in pieces[k]
    requires '?' !in raw && '#' !in raw && !HasControl(raw)
    requires Unescape("/" + raw, PathMode) == Some("/" + Join(pieces, ','))
    ensures Parse(NAME + ":///" + raw) == Parsed(Url(NAME, "", "/" + Join(pieces, ','), ""))
    ensures AddrsOf(DirectAddresses("/" + Join(pieces, ','))) == pieces
  {
    NameIsScheme();
    ParseEmptyAuthority(NAME, raw);
    AddressesOfList(pieces);
  }

  /** A target written without escapes is its own decoded path. */
  lemma PlainDirectTarget(pieces: seq<string>)
    requires |pieces| >= 1
    requires forall k :: 0 <= k < |pieces| ==> ',' !in pieces[k]
    requires var list := Join(pieces, ','); '?' !in list && '#' !in list && '%' !in list && !HasControl(list)
    ensures Parse(NAME + ":///" + Join(pieces, ',')) == Parsed(Url(NAME, "", "/" + Join(pieces, ','), ""))
  {
    UnescapeNoEscapes("/" + Join(pieces, ','), PathMode);
    DirectTarget(Join(pieces, ','), pieces);
  }

  lemma AddressesOfList(pieces: seq<string>)
    requires |pieces| >= 1
    requires forall k :: 0 <= k < |pieces| ==> ',' !in pieces[k]
    ensures AddrsOf(DirectAddresses("/" + Join(pieces, ','))) == pieces
  {
    var list := Join(pieces, ',');
    assert TrimPrefix("/" + list, "/") == list;
    SplitJoin(pieces, ',');
    assert AddrsOf(DirectAddresses("/" + list)) == Split(list, ',');
  }

  /** The path is decoded before it is split: `direct:///a%2Cb` names the
      addresses a and b. */
  lemma EscapedComma()
    ensures Unescape("/a%2Cb", PathMode) == Some("/" + Join(["a", "b"], ','))
  {
    var e := "%2C";
    assert e[1] == '2' && e[2] == 'C';
    assert Unhex('2') == 2 && Unhex('C') == 12;
    UnescapeSplit("/a", e, "b", PathMode);
    assert "/a" + e + "b" == "/a%2Cb";
    var pieces := ["a", "b"];
    assert pieces[1..] == ["b"];
    assert Join(pieces, ',') == "a" + [','] + "b";
    assert "/a" + [','] + "b" == "/" + ("a" + [','] + "b");
  }

  /** "/a,b" names the addresses a and b. */
  lemma TwoAddresses()
    ensures DirectAddresses("/a,b") == [Address("a", "", map[]), Address("b", "", map[])]
  {
    var pieces := ["a", "b"];
    assert TrimPrefix("/a,b", "/") == "a,b" == Join(pieces, ',');
    SplitJoin(pieces, ',');
  }
}
