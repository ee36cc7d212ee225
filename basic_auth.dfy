/** The Basic authentication strategy of the REST server (section 2 of
    RFC 7617): the Authorization header carries the scheme "Basic", one space,
    and the base64 encoding (section 4 of RFC 4648) of "user:password". The
    base64 decoder and the credential check are parameters: the decoder's
    output is used even when decoding fails, as the handler ignores that
    error. */
module Auth {
  import opened Common

  const SCHEME := "Basic"
  /** The request-context key the user name is stored under. */
  const USERNAME_KEY := "username"
  /** The error code the handler gives errors.WithCode on rejection. */
  const UNAUTHORIZED := 401
  const FORMAT_WRONG := "Authorization header format is wrong."

  datatype Decision = Reject | Accept(username: string)

  /** The decision for the value of the Authorization header ("" when the
      request has none): split at the first space into "Basic" and the
      encoded credentials, decode them, split the result at the first colon
      into user and password, and ask `compare`. */
  function Authenticate(header: string, decode: string -> string, compare: (string, string) -> bool): (d: Decision)
    ensures d.Accept? ==> ':' !in d.username
  {
    var auth := SplitN2(header, ' ');
    if |auth| != 2 || auth[0] != SCHEME then Reject
    else
      var pair := SplitN2(decode(auth[1]), ':');
      if |pair| != 2 || !compare(pair[0], pair[1]) then Reject
      else Accept(pair[0])
  }

  /** A header made of the scheme, a space and credentials that decode to
      `user:password`, where the user has no colon and `compare` agrees. */
  predicate Credentials(header: string, decode: string -> string, compare: (string, string) -> bool,
                        user: string, encoded: string, password: string)
  {
    && header == SCHEME + " " + encoded
    && decode(encoded) == user + ":" + password
    && ':' !in user
    && compare(user, password)
  }

  /** Such a header is accepted, with its user; the password may hold
      colons. */
  lemma AcceptsCredentials(header: string, decode: string -> string, compare: (string, string) -> bool,
                           user: string, encoded: string, password: string)
    requires Credentials(header, decode, compare, user, encoded, password)
    ensures Authenticate(header, decode, compare) == Accept(user)
  {
    assert ' ' !in SCHEME;
    CutAtFirst(SCHEME, encoded, ' ');
    CutAtFirst(user, password, ':');
  }

  /** Every acceptance comes from such a header. */
  lemma AcceptedHasCredentials(header: string, decode: string -> string, compare: (string, string) -> bool)
    requires Authenticate(header, decode, compare).Accept?
    ensures var user := Authenticate(header, decode, compare).username;
      exists encoded, password :: Credentials(header, decode, compare, user, encoded, password)
  {
    var auth := SplitN2(header, ' ');
    var pair := SplitN2(decode(auth[1]), ':');
    assert Credentials(header, decode, compare, pair[0], auth[1], pair[1]);
  }

  /** A request without the header is rejected, and so is any header that
      does not begin with "Basic ", such as one with the scheme in another
      case. */
  lemma RejectsOtherSchemes(header: string, decode: string -> string, compare: (string, string) -> bool)
    requires !(SCHEME + " " <= header)
    ensures Authenticate(header, decode, compare) == Reject
  {
  }

  /** Credentials that decode to a string without a colon are rejected,
      whatever `compare` would say. */
  lemma RejectsWithoutColon(encoded: string, decode: string -> string, compare: (string, string) -> bool)
    requires ':' !in decode(encoded)
    ensures Authenticate(SCHEME + " " + encoded, decode, compare) == Reject
  {
    assert ' ' !in SCHEME;
    CutAtFirst(SCHEME, encoded, ' ');
  }

  /** What the handler does to the request context, in order. WriteError is
      core.WriteResponse called with errors.WithCode(code, message); the HTTP
      status and body it writes come from errors.ParseCoder, which is not
      part of this model. */
  datatype ContextEvent =
    | WriteError(code: int, message: string)
    | Abort
    | SetKey(key: string, value: string)
    | CallNext

  /** A gin request context: its key-value store and what was done to it. */
  class GinContext {
    var keys: map<string, string>
    var events: seq<ContextEvent>

    constructor ()
      ensures keys == map[] && events == []
    {
      keys := map[];
      events := [];
    }

    method Set(key: string, value: string)
      modifies this
      ensures keys == old(keys)[key := value] && events == old(events) + [SetKey(key, value)]
    {
      keys := keys[key := value];
      events := events + [SetKey(key, value)];
    }

    method Record(e: ContextEvent)
      modifies this
      ensures keys == old(keys) && events == old(events) + [e]
    {
      events := events + [e];
    }
  }

  /** BasicStrategy, holding its credential check. */
  datatype BasicStrategy = BasicStrategy(compare: (string, string) -> bool)

  /** The handler AuthFunc returns: on rejection it writes the error with
      code 401 and aborts,
      leaving the user name unset; on acceptance it stores the user name and
      only then calls the next handler. */
  method AuthFunc(b: BasicStrategy, c: GinContext, header: string, decode: string -> string)
    modifies c
    ensures Authenticate(header, decode, b.compare) == Reject ==>
              c.keys == old(c.keys) && c.events == old(c.events) + [WriteError(UNAUTHORIZED, FORMAT_WRONG), Abort]
    ensures Authenticate(header, decode, b.compare).Accept? ==>
              var user := Authenticate(header, decode, b.compare).username;
              c.keys == old(c.keys)[USERNAME_KEY := user] &&
              c.events == old(c.events) + [SetKey(USERNAME_KEY, user), CallNext]
  {
    var auth := SplitN2(header, ' ');
    if |auth| != 2 || auth[0] != SCHEME {
      c.Record(WriteError(UNAUTHORIZED, FORMAT_WRONG));
      c.Record(Abort);
      return;
    }
    var payload := decode(auth[1]);
    var pair := SplitN2(payload, ':');
    if |pair| != 2 || !b.compare(pair[0], pair[1]) {
      c.Record(WriteError(UNAUTHORIZED, FORMAT_WRONG));
      c.Record(Abort);
      return;
    }
    c.Set(USERNAME_KEY, pair[0]);
    c.Record(CallNext);
  }
}
