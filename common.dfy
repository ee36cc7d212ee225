/** Values shared by every part of the model: optional values, the Go error
    values the code tells apart, and the handful of functions of Go's `strings`
    package and ASCII character classes the code relies on. Strings are
    sequences of runes (`char`). */
module Common {

  datatype Option<+T> = None | Some(value: T)

  /** The Go error values the modelled code distinguishes. */
  datatype Error =
    | ContextCanceled        // context.Canceled
    | DeadlineExceeded       // context.DeadlineExceeded
    | NoSubConnAvailable     // balancer.ErrNoSubConnAvailable
    | Text(message: string)  // errors.New(message), or any other error

  datatype Result<+T> = Ok(value: T) | Err(error: Error)

  /** The first error of a sequence of task results, as errgroup reports it. */
  function FirstError(results: seq<Option<Error>>): (r: Option<Error>)
    ensures r.None? <==> forall i :: 0 <= i < |results| ==> results[i].None?
    ensures r.Some? ==> exists i :: 0 <= i < |results| && results[i] == r &&
                          forall k :: 0 <= k < i ==> results[k].None?
  {
    if results == [] then None
    else if results[0].Some? then results[0]
    else
      var r := FirstError(results[1..]);
      assert forall i :: 1 <= i < |results| ==> results[i] == results[1..][i - 1];
      r
  }

  // ---------------------------------------------------------------------------
  // ASCII character classes (Go's regexp and net/url work on ASCII here)

  predicate IsDigit(c: char) { '0' <= c <= '9' }
  predicate IsUpper(c: char) { 'A' <= c <= 'Z' }
  predicate IsLower(c: char) { 'a' <= c <= 'z' }
  predicate IsLetter(c: char) { IsUpper(c) || IsLower(c) }
  /** `\w` in Go's regexp syntax. */
  predicate IsWordChar(c: char) { IsLetter(c) || IsDigit(c) || c == '_' }
  /** `\s` in Go's regexp syntax. */
  predicate IsSpace(c: char) { c == '\t' || c == '\n' || c == '\U{C}' || c == '\r' || c == ' ' }

  function ToLower(c: char): (r: char)
    ensures IsUpper(c) ==> IsLower(r) && r as int == c as int + 32
    ensures !IsUpper(c) ==> r == c
  {
    if IsUpper(c) then (c as int + 32) as char else c
  }

  /** ASCII lower-casing of a whole string. */
  function Lower(s: string): (r: string)
    ensures |r| == |s|
    ensures forall i :: 0 <= i < |s| ==> r[i] == ToLower(s[i])
  {
    if s == [] then [] else [ToLower(s[0])] + Lower(s[1..])
  }

  lemma {:induction false} LowerIdempotent(s: string)
    ensures Lower(Lower(s)) == Lower(s)
  {
    if s != [] {
      LowerIdempotent(s[1..]);
      assert Lower(s)[1..] == Lower(s[1..]);
    }
  }

  // ---------------------------------------------------------------------------
  // strings.Index, strings.LastIndex, strings.Cut, strings.SplitN(_, _, 2)

  /** The index of the first `c` in `s`, or |s| when there is none. */
  function IndexOf(s: string, c: char): (i: nat)
    ensures i <= |s|
    ensures i < |s| ==> s[i] == c
    ensures forall k :: 0 <= k < i ==> s[k] != c
  {
    if s == [] then 0 else if s[0] == c then 0 else 1 + IndexOf(s[1..], c)
  }

  /** The index of the last `c` in `s`, or -1 when there is none. */
  function LastIndexOf(s: string, c: char): (i: int)
    ensures -1 <= i < |s|
    ensures i >= 0 ==> s[i] == c
    ensures forall k :: i < k < |s| ==> s[k] != c
  {
    if s == [] then -1
    else if s[|s| - 1] == c then |s| - 1
    else LastIndexOf(s[..|s| - 1], c)
  }

  predicate Contains(s: string, c: char) { IndexOf(s, c) < |s| }

  lemma ContainsIff(s: string, c: char)
    ensures Contains(s, c) <==> c in s
  {
    if c in s {
      var k :| 0 <= k < |s| && s[k] == c;
      assert IndexOf(s, c) <= k;
    }
  }

  /** strings.Cut with a one-rune separator. */
  datatype Cut = Cut(before: string, after: string, found: bool)

  function CutAt(s: string, c: char): (r: Cut)
    ensures r.found <==> c in s
    ensures r.found ==> r.before + [c] + r.after == s && c !in r.before
    ensures !r.found ==> r.before == s && r.after == ""
  {
    ContainsIff(s, c);
    var i := IndexOf(s, c);
    if i < |s| then
      assert s == s[..i] + [c] + s[i + 1..];
      Cut(s[..i], s[i + 1..], true)
    else Cut(s, "", false)
  }

  /** Cutting at the first separator finds the separator that follows a
      separator-free prefix. */
  lemma CutAtFirst(a: string, b: string, c: char)
    requires c !in a
    ensures CutAt(a + [c] + b, c) == Cut(a, b, true)
  {
    var s := a + [c] + b;
    assert s[|a|] == c;
    var i := IndexOf(s, c);
    assert forall k :: 0 <= k < |a| ==> s[k] == a[k];
    assert i == |a|;
    assert s[..|a|] == a && s[|a| + 1..] == b;
  }

  /** strings.SplitN(s, sep, 2) with a one-rune separator: the string before
      the first separator and everything after it, or the whole string. */
  function SplitN2(s: string, c: char): (r: seq<string>)
    ensures 1 <= |r| <= 2
    ensures |r| == 2 <==> c in s
    ensures |r| == 1 ==> r[0] == s
    ensures |r| == 2 ==> r[0] + [c] + r[1] == s && c !in r[0]
  {
    var cut := CutAt(s, c);
    if cut.found then [cut.before, cut.after] else [s]
  }

  /** strings.TrimPrefix. */
  function TrimPrefix(s: string, prefix: string): (r: string)
    ensures prefix <= s ==> prefix + r == s
    ensures !(prefix <= s) ==> r == s
  {
    if prefix <= s then s[|prefix|..] else s
  }

  // ---------------------------------------------------------------------------
  // strings.Split and strings.Join with a one-rune separator

  function Count(s: string, c: char): nat
  {
    if s == [] then 0 else (if s[0] == c then 1 else 0) + Count(s[1..], c)
  }

  lemma {:induction false} CountAppend(a: string, b: string, c: char)
    ensures Count(a + b, c) == Count(a, c) + Count(b, c)
  {
    if a == [] {
      assert a + b == b;
    } else {
      assert (a + b)[0] == a[0] && (a + b)[1..] == a[1..] + b;
      CountAppend(a[1..], b, c);
    }
  }

  lemma {:induction false} CountAbsent(s: string, c: char)
    requires c !in s
    ensures Count(s, c) == 0
  {
    if s != [] { CountAbsent(s[1..], c); }
  }

  /** strings.Split(s, sep) for a one-rune separator: the pieces between the
      separators, in order, empty pieces included. */
  function Split(s: string, c: char): (pieces: seq<string>)
    ensures |pieces| >= 1
    decreases |s|
  {
    var i := IndexOf(s, c);
    if i == |s| then [s] else [s[..i]] + Split(s[i + 1..], c)
  }

  /** strings.Join(pieces, sep) for a one-rune separator. */
  function Join(pieces: seq<string>, c: char): string
  {
    if |pieces| == 0 then ""
    else if |pieces| == 1 then pieces[0]
    else pieces[0] + [c] + Join(pieces[1..], c)
  }

  /** Split is undone by Join: no character is lost or added. */
  lemma {:induction false} JoinSplit(s: string, c: char)
    ensures Join(Split(s, c), c) == s
    decreases |s|
  {
    var i := IndexOf(s, c);
    if i < |s| {
      var rest := Split(s[i + 1..], c);
      JoinSplit(s[i + 1..], c);
      assert Split(s, c) == [s[..i]] + rest;
      JoinCons(s[..i], rest, c);
      assert s == s[..i] + [c] + s[i + 1..];
    }
  }

  lemma JoinCons(first: string, rest: seq<string>, c: char)
    requires |rest| >= 1
    ensures Join([first] + rest, c) == first + [c] + Join(rest, c)
  {
    assert ([first] + rest)[1..] == rest;
  }

  /** No piece of a split contains the separator. */
  lemma {:induction false} SplitPiecesFree(s: string, c: char)
    ensures forall k :: 0 <= k < |Split(s, c)| ==> c !in Split(s, c)[k]
    decreases |s|
  {
    var i := IndexOf(s, c);
    if i < |s| {
      SplitPiecesFree(s[i + 1..], c);
      assert Split(s, c) == [s[..i]] + Split(s[i + 1..], c);
    }
  }

  /** Split yields one more piece than there are separators. */
  lemma {:induction false} SplitLength(s: string, c: char)
    ensures |Split(s, c)| == Count(s, c) + 1
    decreases |s|
  {
    var i := IndexOf(s, c);
    if i == |s| {
      CountAbsent(s, c);
    } else {
      SplitLength(s[i + 1..], c);
      assert s == s[..i] + ([c] + s[i + 1..]);
      CountAppend(s[..i], [c] + s[i + 1..], c);
      CountAbsent(s[..i], c);
      assert ([c] + s[i + 1..])[1..] == s[i + 1..];
    }
  }

  /** Splitting a Join of separator-free pieces gives the pieces back. */
  lemma {:induction false} SplitJoin(pieces: seq<string>, c: char)
    requires |pieces| >= 1
    requires forall k :: 0 <= k < |pieces| ==> c !in pieces[k]
    ensures Split(Join(pieces, c), c) == pieces
  {
    if |pieces| == 1 {
      ContainsIff(pieces[0], c);
    } else {
      var s := Join(pieces, c);
      var rest := Join(pieces[1..], c);
      assert s == pieces[0] + [c] + rest;
      ContainsIff(pieces[0], c);
      var i := IndexOf(s, c);
      assert s[|pieces[0]|] == c;
      assert i == |pieces[0]|;
      assert s[..i] == pieces[0];
      assert s[i + 1..] == rest;
      SplitJoin(pieces[1..], c);
    }
  }
}
