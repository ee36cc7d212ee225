/** The part of Go's net/url and strconv that endpoint handling relies on: a
    simplified url.Parse for `scheme ":" ["//" authority] path ["?" query]`
    (section 3 of RFC 3986), URL.String, Values.Get on a parsed raw query, and
    strconv.ParseBool. url.Parse decodes percent-escapes in the host and the
    path, and refuses the host characters URL.String would escape; the query
    is decoded when a value is looked up; URL.String escapes the host. */
module NetUrl {
  import opened Common

  /** The fields of url.URL the code reads or writes. */
  datatype Url = Url(scheme: string, host: string, path: string, rawQuery: string)

  /** A url.Parse result; the error text is not modelled. */
  datatype ParseResult = Parsed(url: Url) | Unparseable

  /** A byte url.Parse refuses anywhere in a URL. */
  predicate IsControl(c: char) { c < ' ' || c == '\U{7F}' }

  predicate HasControl(s: string) { exists c :: c in s && IsControl(c) }

  predicate IsSchemeChar(c: char) { IsLetter(c) || IsDigit(c) || c == '+' || c == '-' || c == '.' }

  /** A scheme as section 3.1 of RFC 3986 defines it: a letter followed by
      letters, digits, '+', '-' or '.'. */
  predicate ValidScheme(s: string)
  {
    |s| > 0 && IsLetter(s[0]) && forall i :: 0 <= i < |s| ==> IsSchemeChar(s[i])
  }

  // ---------------------------------------------------------------------------
  // getScheme

  datatype SchemeSplit = NoScheme | MissingScheme | Scheme(name: string, rest: string)

  /** Go's getScheme, scanning from index i: letters are always scheme runes;
      digits, '+', '-' and '.' are unless they come first; a ':' ends the
      scheme (and is an error when it comes first); anything else means the
      string has no scheme. */
  function GetSchemeFrom(s: string, i: nat): SchemeSplit
    requires i <= |s|
    decreases |s| - i
  {
    if i == |s| then NoScheme
    else if IsLetter(s[i]) then GetSchemeFrom(s, i + 1)
    else if IsDigit(s[i]) || s[i] == '+' || s[i] == '-' || s[i] == '.' then
      if i == 0 then NoScheme else GetSchemeFrom(s, i + 1)
    else if s[i] == ':' then
      if i == 0 then MissingScheme else Scheme(s[..i], s[i + 1..])
    else NoScheme
  }

  function GetScheme(s: string): SchemeSplit { GetSchemeFrom(s, 0) }

  lemma {:induction false} GetSchemeFromValid(name: string, rest: string, i: nat)
    requires ValidScheme(name) && i <= |name|
    ensures GetSchemeFrom(name + ":" + rest, i) == Scheme(name, rest)
    decreases |name| - i
  {
    var s := name + ":" + rest;
    if i < |name| {
      assert s[i] == name[i];
      GetSchemeFromValid(name, rest, i + 1);
    } else {
      assert s[i] == ':' && s[..i] == name && s[i + 1..] == rest;
    }
  }

  /** A valid scheme followed by ':' is recognised as the scheme. */
  lemma GetSchemeValid(name: string, rest: string)
    requires ValidScheme(name)
    ensures GetScheme(name + ":" + rest) == Scheme(name, rest)
  {
    GetSchemeFromValid(name, rest, 0);
  }

  // ---------------------------------------------------------------------------
  // parseAuthority / parseHost

  /** validOptionalPort: empty, or ':' followed by digits only. */
  predicate ValidOptionalPort(p: string)
  {
    p == "" || (p[0] == ':' && forall i :: 1 <= i < |p| ==> IsDigit(p[i]))
  }

  /** The port check parseHost makes: after the closing ']' of a bracketed
      host, or after the last ':' of any other host, only an optional port
      may follow. */
  predicate HostPortOk(host: string)
  {
    if "[" <= host then
      var j := LastIndexOf(host, ']');
      j >= 0 && ValidOptionalPort(host[j + 1..])
    else
      var i := LastIndexOf(host, ':');
      i < 0 || ValidOptionalPort(host[i..])
  }

  /** parseAuthority: the host is what follows the last '@'; parseHost
      checks its port and then decodes it as a host. */
  function ParseAuthority(authority: string): Option<string>
  {
    var at := LastIndexOf(authority, '@');
    var host := if at < 0 then authority else authority[at + 1..];
    if HostPortOk(host) then Unescape(host, HostMode) else None
  }

  // ---------------------------------------------------------------------------
  // unescape

  /** The modes of Go's unescape the modelled code reaches: a host, a path
      (setPath), and a query key or value (QueryUnescape). */
  datatype EscapeMode = HostMode | PathMode | QueryComponentMode

  predicate IsHex(c: char) { IsDigit(c) || 'a' <= c <= 'f' || 'A' <= c <= 'F' }

  function Unhex(c: char): (r: nat)
    requires IsHex(c)
    ensures r < 16
  {
    if IsDigit(c) then c as int - '0' as int
    else if 'a' <= c then c as int - 'a' as int + 10
    else c as int - 'A' as int + 10
  }

  /** The first token of a string, decoded: the character it stands for and
      its length, or Refused (Go's EscapeError or InvalidHostError). */
  datatype Head = Refused | Decoded(c: char, len: nat)

  /** The first token of a non-empty string, as Go's unescape reads it.
      Every '%' must start `%XX` with two hex digits, which stands for the
      character with code XX. In a host such an escape must be `%25` or
      stand for 0x80 or more, and an ASCII character that shouldEscape
      escapes in a host is refused; in a query component '+' stands for a
      space. */
  function DecodeHead(s: string, mode: EscapeMode): (r: Head)
    requires s != ""
    ensures r.Decoded? ==> 1 <= r.len <= |s|
  {
    if s[0] == '%' then
      if |s| < 3 || !IsHex(s[1]) || !IsHex(s[2]) then Refused
      else if mode == HostMode && Unhex(s[1]) < 8 && s[..3] != "%25" then Refused
      else Decoded((16 * Unhex(s[1]) + Unhex(s[2])) as char, 3)
    else if mode == HostMode && s[0] < '\U{80}' && !HostVerbatim(s[0]) then Refused
    else Decoded(if mode == QueryComponentMode && s[0] == '+' then ' ' else s[0], 1)
  }

  /** Go's unescape: every token decoded, or None when one is refused. */
  function Unescape(s: string, mode: EscapeMode): (r: Option<string>)
    decreases |s|
  {
    if s == "" then Some("")
    else
      var h := DecodeHead(s, mode);
      if h.Refused? then None
      else
        var rest := Unescape(s[h.len..], mode);
        if rest.None? then None else Some([h.c] + rest.value)
  }

  /** A token decodes the same whatever follows it. */
  lemma DecodeHeadPrefix(a: string, b: string, mode: EscapeMode)
    requires a != "" && DecodeHead(a, mode).Decoded?
    ensures DecodeHead(a + b, mode) == DecodeHead(a, mode)
  {
    var ab := a + b;
    assert ab[0] == a[0];
    if a[0] == '%' {
      assert ab[1] == a[1] && ab[2] == a[2] && ab[..3] == a[..3];
    }
  }

  /** Decoding works piece by piece: two strings that decode on their own
      decode, joined, to the joined results. */
  lemma {:induction false} UnescapeConcat(a: string, b: string, mode: EscapeMode)
    requires Unescape(a, mode).Some? && Unescape(b, mode).Some?
    ensures Unescape(a + b, mode) == Some(Unescape(a, mode).value + Unescape(b, mode).value)
    decreases |a|
  {
    var ab := a + b;
    if a == "" {
      assert ab == b && "" + Unescape(b, mode).value == Unescape(b, mode).value;
    } else {
      DecodeHeadPrefix(a, b, mode);
      var n := DecodeHead(a, mode).len;
      UnescapeConcat(a[n..], b, mode);
      assert ab[n..] == a[n..] + b;
      ConsAssoc(DecodeHead(a, mode).c, Unescape(a[n..], mode).value, Unescape(b, mode).value);
    }
  }

  lemma ConsAssoc(c: char, x: string, y: string)
    ensures [c] + (x + y) == [c] + x + y
  {}

  /** A string that decodes, followed by one that does not, does not
      decode. */
  lemma {:induction false} UnescapeConcatRefused(a: string, b: string, mode: EscapeMode)
    requires Unescape(a, mode).Some? && Unescape(b, mode).None?
    ensures Unescape(a + b, mode).None?
    decreases |a|
  {
    var ab := a + b;
    if a == "" {
      assert ab == b;
    } else {
      DecodeHeadPrefix(a, b, mode);
      var n := DecodeHead(a, mode).len;
      UnescapeConcatRefused(a[n..], b, mode);
      assert ab[n..] == a[n..] + b;
    }
  }

  /** A path or query component `a + e + b` where only `e` is an escape. */
  lemma UnescapeSplit(a: string, e: string, b: string, mode: EscapeMode)
    requires mode != HostMode && '%' !in a + b && '+' !in a + b
    requires |e| == 3 && e[0] == '%' && IsHex(e[1]) && IsHex(e[2])
    ensures Unescape(a + e + b, mode) == Some(a + [(16 * Unhex(e[1]) + Unhex(e[2])) as char] + b)
  {
    assert '%' !in a && '+' !in a && '%' !in b && '+' !in b;
    UnescapeNoEscapes(a, mode);
    UnescapeNoEscapes(b, mode);
    var x := (16 * Unhex(e[1]) + Unhex(e[2])) as char;
    assert e[3..] == "" && Unescape("", mode) == Some("");
    assert Unescape(e, mode) == Some([x] + "");
    assert [x] + "" == [x];
    UnescapeConcat(a, e, mode);
    UnescapeConcat(a + e, b, mode);
  }

  /** A host of characters escaping leaves alone decodes to itself. */
  lemma {:induction false} UnescapeVerbatimHost(host: string)
    requires forall c :: c in host ==> WrittenVerbatim(c)
    ensures Unescape(host, HostMode) == Some(host)
  {
    if host != "" {
      assert WrittenVerbatim(host[0]) && host[0] != '%';
      UnescapeVerbatimHost(host[1..]);
      assert host == [host[0]] + host[1..];
    }
  }

  /** A path or query component without '%' decodes to itself, once '+' is
      read as a space in a query component. */
  lemma {:induction false} UnescapeNoEscapes(s: string, mode: EscapeMode)
    requires mode != HostMode && '%' !in s
    requires mode == QueryComponentMode ==> '+' !in s
    ensures Unescape(s, mode) == Some(s)
  {
    if s != "" {
      UnescapeNoEscapes(s[1..], mode);
      assert s == [s[0]] + s[1..];
    }
  }

  /** A host holding an ASCII character other than '%' that escaping would
      change is refused, wherever that character stands. */
  lemma {:induction false} UnescapeRefusesHost(host: string, i: nat)
    requires i < |host| && host[i] < '\U{80}' && !HostVerbatim(host[i]) && host[i] != '%'
    ensures Unescape(host, HostMode) == None
    decreases |host|
  {
    if host[0] == '%' {
      if |host| >= 3 && IsHex(host[1]) && IsHex(host[2]) {
        assert HostVerbatim(host[1]) && HostVerbatim(host[2]);
        UnescapeRefusesHost(host[3..], i - 3);
      }
    } else if host[0] >= '\U{80}' || HostVerbatim(host[0]) {
      UnescapeRefusesHost(host[1..], i - 1);
    }
  }

  // ---------------------------------------------------------------------------
  // url.Parse

  function Parse(raw: string): ParseResult
  {
    var u := CutAt(raw, '#').before;
    if HasControl(u) then Unparseable
    else match GetScheme(u)
      case MissingScheme => Unparseable
      case NoScheme => ParseRest("", u)
      case Scheme(name, rest) => ParseRest(Lower(name), rest)
  }

  /** The part of url.Parse that follows getScheme. */
  function ParseRest(scheme: string, afterScheme: string): ParseResult
  {
    var q := CutAt(afterScheme, '?');
    var rest := q.before;
    if !("/" <= rest) && scheme != "" then
      Parsed(Url(scheme, "", "", q.after))                        // opaque
    else if !("/" <= rest) && ':' in CutAt(rest, '/').before then
      Unparseable                                                 // colon in first segment
    else if "//" <= rest && (scheme != "" || !("///" <= rest)) then
      var authority := rest[2..];
      var slash := IndexOf(authority, '/');
      match ParseAuthority(authority[..slash])
      case None => Unparseable
      case Some(host) => WithPath(scheme, host, authority[slash..], q.after)
    else
      WithPath(scheme, "", rest, q.after)
  }

  /** setPath: the path is decoded, and a bad escape fails the parse. */
  function WithPath(scheme: string, host: string, rawPath: string, rawQuery: string): ParseResult
  {
    match Unescape(rawPath, PathMode)
    case None => Unparseable
    case Some(path) => Parsed(Url(scheme, host, path, rawQuery))
  }

  // ---------------------------------------------------------------------------
  // URL.String

  /** The marks shouldEscape leaves alone in a host: the unreserved marks
      and the sub-delimiters section 3.2.2 of RFC 3986 allows there, with
      ':', '[', ']', '<', '>' and '"'. */
  predicate HostMark(c: char)
  {
    c == '-' || c == '_' || c == '.' || c == '~' || c == '!' || c == '$' || c == '&' || c == '\'' ||
    c == '(' || c == ')' || c == '*' || c == '+' || c == ',' || c == ';' || c == '=' || c == ':' ||
    c == '[' || c == ']' || c == '<' || c == '>' || c == '"'
  }

  predicate HostVerbatim(c: char)
  {
    IsLetter(c) || IsDigit(c) || HostMark(c)
  }

  /** A character escape(host, encodeHost) writes as it is. Characters
      above ASCII are kept as they are here (see the README). */
  predicate WrittenVerbatim(c: char)
  {
    HostVerbatim(c) || c >= '\U{80}'
  }

  const HEX := "0123456789ABCDEF"

  /** `%XX` with upper-case hex digits, or the character itself. */
  function EscapeHostChar(c: char): (r: string)
    ensures WrittenVerbatim(c) ==> r == [c]
    ensures !WrittenVerbatim(c) ==> |r| == 3 && r[0] == '%' && r[1..] == [HEX[c as int / 16], HEX[c as int % 16]]
  {
    if WrittenVerbatim(c) then [c] else ['%', HEX[c as int / 16], HEX[c as int % 16]]
  }

  /** escape(host, encodeHost), as URL.String writes a host. */
  function EscapeHost(host: string): (r: string)
    ensures |r| >= |host|
    ensures host == "" <==> r == ""
  {
    if host == "" then "" else EscapeHostChar(host[0]) + EscapeHost(host[1..])
  }

  /** A host comes out of escaping unchanged exactly when each of its
      characters is one escaping leaves alone. */
  lemma {:induction false} EscapeHostUnchanged(host: string)
    ensures EscapeHost(host) == host <==> forall c :: c in host ==> WrittenVerbatim(c)
  {
    if host != "" {
      EscapeHostUnchanged(host[1..]);
      assert host == [host[0]] + host[1..];
      if !WrittenVerbatim(host[0]) {
        assert |EscapeHost(host)| > |host|;
      }
    }
  }

  /** Escaping leaves nothing URL.Parse would refuse in a host: only
      characters written as they are and '%' introducing a hex pair. */
  lemma {:induction false} EscapeHostOutput(host: string)
    ensures forall c :: c in EscapeHost(host) ==> WrittenVerbatim(c) || c == '%'
  {
    if host != "" {
      EscapeHostOutput(host[1..]);
      EscapeHostCharOutput(host[0]);
      assert EscapeHost(host) == EscapeHostChar(host[0]) + EscapeHost(host[1..]);
    }
  }

  lemma EscapeHostCharOutput(c: char)
    ensures forall x :: x in EscapeHostChar(c) ==> WrittenVerbatim(x) || x == '%'
  {
    if !WrittenVerbatim(c) {
      var e := EscapeHostChar(c);
      assert IsDigit(e[1]);
      assert IsDigit(e[2]) || IsUpper(e[2]);
      assert e == [e[0], e[1], e[2]];
    }
  }

  /** One host character, escaped and decoded again: '%' is written `%25`,
      and a character escaping leaves alone is written as it is. */
  lemma UnescapeEscapedChar(c: char)
    requires WrittenVerbatim(c) || c == '%'
    ensures Unescape(EscapeHostChar(c), HostMode) == Some([c])
  {
    var e := EscapeHostChar(c);
    assert Unescape("", HostMode) == Some("");
    if c == '%' {
      assert e == "%25" && e[3..] == "";
      assert Unhex('2') == 2 && Unhex('5') == 5 && (16 * 2 + 5) as char == '%';
      assert DecodeHead(e, HostMode) == Decoded('%', 3);
    } else {
      assert e == [c] && e[1..] == "";
      assert DecodeHead(e, HostMode) == Decoded(c, 1);
    }
    assert [c] + "" == [c];
  }

  /** The escape of an ASCII character other than '%' that escaping
      changes stands for a byte below 0x80, so a host decoder refuses it. */
  lemma EscapedCharRefused(c: char, rest: string)
    requires c < '\U{80}' && !HostVerbatim(c) && c != '%'
    ensures DecodeHead(EscapeHostChar(c) + rest, HostMode) == Refused
  {
    var e := EscapeHostChar(c) + rest;
    assert e[0] == '%' && e[1] == HEX[c as int / 16] && e[2] == HEX[c as int % 16];
    assert e[..3] != "%25";
  }

  /** Decoding undoes escaping for every host whose escaped characters are
      all '%': '%' is written `%25`, the one escape below 0x80 a host may
      hold. */
  lemma {:induction false} EscapeHostRoundTrip(host: string)
    requires forall c :: c in host ==> WrittenVerbatim(c) || c == '%'
    ensures Unescape(EscapeHost(host), HostMode) == Some(host)
  {
    if host != "" {
      EscapeHostRoundTrip(host[1..]);
      UnescapeEscapedChar(host[0]);
      UnescapeConcat(EscapeHostChar(host[0]), EscapeHost(host[1..]), HostMode);
      assert host == [host[0]] + host[1..];
    }
  }

  /** URL.String followed by url.Parse fails for a host holding an ASCII
      character other than '%' that escaping changes: its escape stands for
      a byte below 0x80. */
  lemma {:induction false} EscapedHostRefused(host: string, i: nat)
    requires i < |host| && host[i] < '\U{80}' && !HostVerbatim(host[i]) && host[i] != '%'
    ensures Unescape(EscapeHost(host), HostMode) == None
    decreases |host|
  {
    var head := EscapeHostChar(host[0]);
    var tail := EscapeHost(host[1..]);
    assert EscapeHost(host) == head + tail;
    if host[0] < '\U{80}' && !HostVerbatim(host[0]) && host[0] != '%' {
      EscapedCharRefused(host[0], tail);
    } else {
      EscapedHostRefused(host[1..], i - 1);
      UnescapeEscapedChar(host[0]);
      UnescapeConcatRefused(head, tail, HostMode);
    }
  }

  function ToString(u: Url): string
  {
    var schemePart := if u.scheme != "" then u.scheme + ":" else "";
    var authorityPart :=
      if u.scheme != "" || u.host != "" then
        (if u.host != "" || u.path != "" then "//" else "") + EscapeHost(u.host)
      else "";
    var slash := if u.path != "" && u.path[0] != '/' && u.host != "" then "/" else "";
    var prefix := schemePart + authorityPart + slash;
    var dotSlash := if prefix == "" && ':' in CutAt(u.path, '/').before then "./" else "";
    prefix + dotSlash + u.path + (if u.rawQuery != "" then "?" + u.rawQuery else "")
  }

  // ---------------------------------------------------------------------------
  // url.ParseQuery followed by Values.Get, and strconv.ParseBool

  /** The decoded value of the first `key=value` pair of a raw query whose
      decoded key is `key`, or "" when there is none. Pairs are separated by
      '&'; as url.ParseQuery does, a pair holding ';' is dropped, and so is a
      pair whose key or value does not decode. */
  function QueryGet(rawQuery: string, key: string): string
    decreases |rawQuery|
  {
    if rawQuery == "" then ""
    else
      var c := CutAt(rawQuery, '&');
      match PairValue(c.before, key)
      case Some(v) => v
      case None => QueryGet(c.after, key)
  }

  /** The decoded value of one `key=value` pair when it is kept and its
      decoded key is `key`. */
  function PairValue(pair: string, key: string): Option<string>
  {
    var kv := CutAt(pair, '=');
    if pair == "" || ';' in pair then None
    else match (Unescape(kv.before, QueryComponentMode), Unescape(kv.after, QueryComponentMode))
      case (Some(k), Some(v)) => if k == key then Some(v) else None
      case _ => None
  }

  /** A raw query of one pair yields that pair's value, or "". */
  lemma QueryGetOnePair(pair: string, key: string)
    requires pair != "" && '&' !in pair
    ensures QueryGet(pair, key) == match PairValue(pair, key) case Some(v) => v case None => ""
  {
    assert CutAt(pair, '&') == Cut(pair, "", false);
  }

  const TRUE_STRINGS: set<string> := {"1", "t", "T", "TRUE", "true", "True"}
  const FALSE_STRINGS: set<string> := {"0", "f", "F", "FALSE", "false", "False"}

  /** strconv.ParseBool. */
  function ParseBool(s: string): (r: Result<bool>)
    ensures r == Ok(true) <==> s in TRUE_STRINGS
    ensures r == Ok(false) <==> s in FALSE_STRINGS
    ensures r.Err? <==> s !in TRUE_STRINGS + FALSE_STRINGS
  {
    if s in TRUE_STRINGS then Ok(true)
    else if s in FALSE_STRINGS then Ok(false)
    else Err(Text("strconv.ParseBool: parsing \"" + s + "\": invalid syntax"))
  }

  // ---------------------------------------------------------------------------
  // Round trip for the URLs the code builds itself

  /** A host that URL.String writes unchanged and url.Parse reads back: an
      ASCII host of characters escaping leaves alone, with a valid port. */
  predicate PlainHost(host: string)
  {
    (forall c :: c in host ==> HostVerbatim(c)) && HostPortOk(host)
  }

  /** A raw query that url.Parse reads back unchanged. */
  predicate PlainQuery(q: string) { '#' !in q && !HasControl(q) }

  /** What URL.String writes after "scheme:" for a URL without a path. */
  function AfterScheme(host: string, rawQuery: string): string
  {
    (if host != "" then "//" + host else "") + (if rawQuery != "" then "?" + rawQuery else "")
  }

  lemma ToStringNoPath(scheme: string, host: string, rawQuery: string)
    requires scheme != ""
    ensures ToString(Url(scheme, host, "", rawQuery)) == scheme + ":" + AfterScheme(EscapeHost(host), rawQuery)
  {}

  /** A plain host holds none of the characters that end or divide an
      authority, and no control character. */
  lemma PlainHostChars(host: string)
    requires PlainHost(host)
    ensures '/' !in host && '?' !in host && '#' !in host && '@' !in host
    ensures !HasControl(host)
  {
    assert !HostVerbatim('/') && !HostVerbatim('?') && !HostVerbatim('#') && !HostVerbatim('@');
    forall c | c in host ensures !IsControl(c) {
      assert HostVerbatim(c);
    }
  }

  /** A plain host is written as it is. */
  lemma PlainHostUnescaped(host: string)
    requires PlainHost(host)
    ensures EscapeHost(host) == host
  {
    EscapeHostUnchanged(host);
  }

  function HostPart(host: string): string { if host != "" then "//" + host else "" }

  lemma CutQuery(host: string, rawQuery: string)
    requires PlainHost(host)
    ensures CutAt(AfterScheme(host, rawQuery), '?').before == HostPart(host)
    ensures CutAt(AfterScheme(host, rawQuery), '?').after == rawQuery
  {
    PlainHostChars(host);
    assert '?' !in HostPart(host);
    if rawQuery != "" {
      assert AfterScheme(host, rawQuery) == HostPart(host) + ['?'] + rawQuery;
      CutAtFirst(HostPart(host), rawQuery, '?');
    } else {
      ContainsIff(HostPart(host), '?');
      assert AfterScheme(host, rawQuery) == HostPart(host);
    }
  }

  lemma HostFromAuthority(host: string)
    requires PlainHost(host) && host != ""
    ensures var authority := HostPart(host)[2..];
      IndexOf(authority, '/') == |host| && ParseAuthority(authority[..|host|]) == Some(host)
      && authority[|host|..] == ""
  {
    PlainHostChars(host);
    var authority := HostPart(host)[2..];
    assert authority == host;
    ContainsIff(host, '/');
    assert authority[..|host|] == host;
    assert LastIndexOf(host, '@') == -1;
    UnescapeVerbatimHost(host);
    assert ParseAuthority(host) == Some(host);
  }

  lemma ParseRestNoPath(scheme: string, host: string, rawQuery: string)
    requires scheme != "" && PlainHost(host) && PlainQuery(rawQuery)
    ensures ParseRest(scheme, AfterScheme(host, rawQuery)) == Parsed(Url(scheme, host, "", rawQuery))
  {
    CutQuery(host, rawQuery);
    if host != "" {
      HostFromAuthority(host);
      assert "//" <= HostPart(host);
      assert Unescape("", PathMode) == Some("");
      assert WithPath(scheme, host, "", rawQuery) == Parsed(Url(scheme, host, "", rawQuery));
    } else {
      assert CutAt(AfterScheme(host, rawQuery), '?').before == "";
    }
  }

  /** A `scheme:///path` URL, as gRPC targets are written, parses with an
      empty host and the decoded path, slash included, or fails on a bad
      escape in the path. */
  lemma ParseEmptyAuthority(scheme: string, path: string)
    requires ValidScheme(scheme) && Lower(scheme) == scheme
    requires '?' !in path && '#' !in path && !HasControl(path)
    ensures Parse(scheme + ":///" + path) ==
              match Unescape("/" + path, PathMode)
              case None => Unparseable
              case Some(p) => Parsed(Url(scheme, "", p, ""))
  {
    var rest := "///" + path;
    assert scheme + ":" + rest == scheme + ":///" + path;
    assert '#' !in rest && !HasControl(rest);
    ParseWithScheme(scheme, rest);
    assert '?' !in rest;
    assert CutAt(rest, '?').before == rest;
    var authority := rest[2..];
    assert authority == "/" + path;
    assert IndexOf(authority, '/') == 0;
    assert ParseAuthority("") == Some("");
  }

  /** A plain `scheme://host[?query]` URL is written without escapes, and
      holds no fragment mark and no control character after the scheme. */
  lemma PlainToString(scheme: string, host: string, rawQuery: string)
    requires scheme != "" && PlainHost(host) && PlainQuery(rawQuery)
    ensures ToString(Url(scheme, host, "", rawQuery)) == scheme + ":" + AfterScheme(host, rawQuery)
    ensures '#' !in AfterScheme(host, rawQuery) && !HasControl(AfterScheme(host, rawQuery))
  {
    ToStringNoPath(scheme, host, rawQuery);
    PlainHostUnescaped(host);
    PlainHostChars(host);
    AfterSchemeChars(host, rawQuery);
  }

  lemma AfterSchemeChars(host: string, rawQuery: string)
    requires '#' !in host && !HasControl(host) && PlainQuery(rawQuery)
    ensures '#' !in AfterScheme(host, rawQuery) && !HasControl(AfterScheme(host, rawQuery))
  {
    var a := AfterScheme(host, rawQuery);
    var h := if host != "" then "//" + host else "";
    var q := if rawQuery != "" then "?" + rawQuery else "";
    assert a == h + q;
    forall c | c in a ensures c != '#' && !IsControl(c) {
      if c in h {
        assert c == '/' || c in host;
      } else {
        assert c in q;
        assert c == '?' || c in rawQuery;
      }
    }
  }

  /** url.Parse refuses `scheme://host` when the host holds an ASCII
      character other than '%' that escaping would change. */
  lemma ParseRefusesHost(scheme: string, host: string, i: nat)
    requires ValidScheme(scheme) && Lower(scheme) == scheme
    requires '/' !in host && '?' !in host && '#' !in host && '@' !in host && !HasControl(host)
    requires i < |host| && host[i] < '\U{80}' && !HostVerbatim(host[i]) && host[i] != '%'
    ensures Parse(scheme + "://" + host) == Unparseable
  {
    var rest := "//" + host;
    assert scheme + ":" + rest == scheme + "://" + host;
    assert '#' !in rest && !HasControl(rest) by {
      forall c | c in rest ensures c != '#' && !IsControl(c) {
        assert c == '/' || c in host;
      }
    }
    ParseWithScheme(scheme, rest);
    ParseRestAuthority(scheme, host);
    assert LastIndexOf(host, '@') == -1;
    UnescapeRefusesHost(host, i);
  }

  /** `//host` with no path and no query is parsed by parseAuthority. */
  lemma ParseRestAuthority(scheme: string, host: string)
    requires scheme != "" && '/' !in host && '?' !in host
    ensures ParseRest(scheme, "//" + host) ==
              match ParseAuthority(host)
              case None => Unparseable
              case Some(h) => WithPath(scheme, h, "", "")
  {
    var rest := "//" + host;
    assert '?' !in rest;
    assert CutAt(rest, '?') == Cut(rest, "", false);
    assert rest[2..] == host;
    ContainsIff(host, '/');
    assert host[..IndexOf(host, '/')] == host && host[IndexOf(host, '/')..] == "";
  }

  /** Formatting a `scheme://host[?query]` URL and parsing it again gives the
      same URL back. */
  lemma ParseToString(scheme: string, host: string, rawQuery: string)
    requires ValidScheme(scheme) && Lower(scheme) == scheme
    requires PlainHost(host) && PlainQuery(rawQuery)
    ensures Parse(ToString(Url(scheme, host, "", rawQuery))) == Parsed(Url(scheme, host, "", rawQuery))
  {
    PlainToString(scheme, host, rawQuery);
    ParseWithScheme(scheme, AfterScheme(host, rawQuery));
    ParseRestNoPath(scheme, host, rawQuery);
  }

  /** A URL with a valid lower-case scheme and no fragment mark or control
      character is parsed by what follows the scheme. */
  lemma ParseWithScheme(scheme: string, rest: string)
    requires ValidScheme(scheme) && Lower(scheme) == scheme
    requires '#' !in rest && !HasControl(rest)
    ensures Parse(scheme + ":" + rest) == ParseRest(scheme, rest)
  {
    var s := scheme + ":" + rest;
    assert '#' !in scheme && !HasControl(scheme);
    assert '#' !in s && !HasControl(s) by {
      forall c | c in s ensures c != '#' && !IsControl(c) {
        assert c in scheme || c == ':' || c in rest;
      }
    }
    assert CutAt(s, '#').before == s;
    GetSchemeValid(scheme, rest);
  }
}
