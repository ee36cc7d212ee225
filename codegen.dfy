/** ParseComment of the error-code generator: it reads the HTTP status and
    the description out of a comment such as "ErrUserNotFound - 404: User not
    found." with the pattern `\w\s*-\s*(\d{3})\s*:\s*([A-Z].*)\s*\.\n*`.
    The pattern is written out as a hand-coded matcher: the leftmost start
    that matches is used, and the greedy `.*` makes the description run to the
    last point on its line from which spaces and a '.' follow. */
module Codegen {
  import opened Common

  const DEFAULT_CODE := "500"
  const DEFAULT_DESC := "Internal server error"

  predicate AllSpaces(s: string, a: int, b: int)
  {
    0 <= a <= b <= |s| && forall k :: a <= k < b ==> IsSpace(s[k])
  }

  predicate NoNewline(s: string, a: int, b: int)
  {
    0 <= a <= b <= |s| && forall k :: a <= k < b ==> s[k] != '\n'
  }

  /** The end of the run of `\s` starting at k. */
  function SkipSpaces(s: string, k: nat): (j: nat)
    requires k <= |s|
    ensures k <= j <= |s| && AllSpaces(s, k, j)
    ensures j == |s| || !IsSpace(s[j])
    decreases |s| - k
  {
    if k < |s| && IsSpace(s[k]) then SkipSpaces(s, k + 1) else k
  }

  /** The end of the line starting at k: the next '\n', or the end. */
  function LineEnd(s: string, k: nat): (j: nat)
    requires k <= |s|
    ensures k <= j <= |s| && NoNewline(s, k, j)
    ensures j == |s| || s[j] == '\n'
    decreases |s| - k
  {
    if k < |s| && s[k] != '\n' then LineEnd(s, k + 1) else k
  }

  /** `\s*\.` matches at q. */
  predicate DotAfterSpaces(s: string, q: nat)
    requires q <= |s|
  {
    var j := SkipSpaces(s, q);
    j < |s| && s[j] == '.'
  }

  /** The last q in [lo, hi] at which `\s*\.` matches. */
  function LastDescEnd(s: string, lo: nat, hi: nat): (r: Option<nat>)
    requires lo <= hi <= |s|
    ensures r.Some? ==> lo <= r.value <= hi && DotAfterSpaces(s, r.value) &&
                        forall k :: r.value < k <= hi ==> !DotAfterSpaces(s, k)
    ensures r.None? ==> forall k :: lo <= k <= hi ==> !DotAfterSpaces(s, k)
    decreases hi - lo
  {
    if DotAfterSpaces(s, hi) then Some(hi)
    else if hi == lo then None
    else LastDescEnd(s, lo, hi - 1)
  }

  /** Where the fixed parts of a match lie: the '-', the three digits, the
      ':' and the capital letter that starts the description. */
  datatype Head = Head(dash: nat, code: nat, colon: nat, upper: nat)

  /** `\w\s*-\s*(\d{3})\s*:\s*[A-Z]` matches at i with these positions. */
  predicate HeadLayout(s: string, i: nat, h: Head)
  {
    && i < |s| && IsWordChar(s[i])
    && AllSpaces(s, i + 1, h.dash) && h.dash < |s| && s[h.dash] == '-'
    && AllSpaces(s, h.dash + 1, h.code) && h.code + 3 <= |s|
    && IsDigit(s[h.code]) && IsDigit(s[h.code + 1]) && IsDigit(s[h.code + 2])
    && AllSpaces(s, h.code + 3, h.colon) && h.colon < |s| && s[h.colon] == ':'
    && AllSpaces(s, h.colon + 1, h.upper) && h.upper < |s| && IsUpper(s[h.upper])
  }

  /** `.*\s*\.` matches after the capital letter at `upper`, with `.*`
      ending at `end` and the final '.' at `dot`. */
  predicate TailLayout(s: string, upper: nat, end: nat, dot: nat)
  {
    NoNewline(s, upper + 1, end) && AllSpaces(s, end, dot) && dot < |s| && s[dot] == '.'
  }

  /** A match of the whole pattern at i: its fixed part, and where the
      description ends. */
  datatype Positions = Positions(head: Head, end: nat)

  /** The pattern matches at i with these positions and with the final '.'
      at `dot`: every way the pattern can match, greedy or not. */
  predicate Layout(s: string, i: nat, p: Positions, dot: nat)
  {
    HeadLayout(s, i, p.head) && TailLayout(s, p.head.upper, p.end, dot)
  }

  /** The fixed part of the pattern at i; each `\s*` stops at the first
      non-space, as nothing it is followed by is a space. */
  function MatchHead(s: string, i: nat): Option<Head>
  {
    if i >= |s| || !IsWordChar(s[i]) then None
    else
      var dash := SkipSpaces(s, i + 1);
      if dash == |s| || s[dash] != '-' then None
      else
        var code := SkipSpaces(s, dash + 1);
        if code + 3 > |s| || !IsDigit(s[code]) || !IsDigit(s[code + 1]) || !IsDigit(s[code + 2]) then None
        else
          var colon := SkipSpaces(s, code + 3);
          if colon == |s| || s[colon] != ':' then None
          else
            var upper := SkipSpaces(s, colon + 1);
            if upper == |s| || !IsUpper(s[upper]) then None
            else Some(Head(dash, code, colon, upper))
  }

  /** The match at start i that the pattern's matcher takes, if any: the
      greedy `.*` ends at the last point of the line from which `\s*\.`
      matches. */
  function MatchAt(s: string, i: nat): Option<Positions>
  {
    match MatchHead(s, i)
    case None => None
    case Some(h) =>
      match LastDescEnd(s, h.upper + 1, LineEnd(s, h.upper + 1))
      case None => None
      case Some(end) => Some(Positions(h, end))
  }

  /** A run of spaces that a non-space or the end ends is where SkipSpaces
      stops. */
  lemma SkipSpacesTo(s: string, a: nat, b: nat)
    requires AllSpaces(s, a, b) && (b == |s| || !IsSpace(s[b]))
    ensures SkipSpaces(s, a) == b
    decreases b - a
  {
    if a < b {
      SkipSpacesTo(s, a + 1, b);
    }
  }

  /** A line that runs at least to b ends at or after b. */
  lemma LineEndAfter(s: string, a: nat, b: nat)
    requires NoNewline(s, a, b)
    ensures b <= LineEnd(s, a)
    decreases b - a
  {
    if a < b {
      LineEndAfter(s, a + 1, b);
    }
  }

  /** What the matcher finds for the fixed part is a match of it. */
  lemma MatchHeadSound(s: string, i: nat)
    requires MatchHead(s, i).Some?
    ensures HeadLayout(s, i, MatchHead(s, i).value)
  {
  }

  /** What the matcher finds is a match of the whole pattern, its final '.'
      after the spaces that follow the description. */
  lemma MatchAtSound(s: string, i: nat)
    requires MatchAt(s, i).Some?
    ensures MatchAt(s, i).value.end <= |s|
    ensures Layout(s, i, MatchAt(s, i).value, SkipSpaces(s, MatchAt(s, i).value.end))
  {
    MatchHeadSound(s, i);
  }

  /** Wherever the fixed part can match, the matcher finds it, with the same
      positions. */
  lemma MatchHeadComplete(s: string, i: nat, h: Head)
    requires HeadLayout(s, i, h)
    ensures MatchHead(s, i) == Some(h)
  {
    HeadSkips(s, i, h);
  }

  /** Each `\s*` of the fixed part stops where the layout says. */
  lemma HeadSkips(s: string, i: nat, h: Head)
    requires HeadLayout(s, i, h)
    ensures SkipSpaces(s, i + 1) == h.dash && SkipSpaces(s, h.dash + 1) == h.code
    ensures SkipSpaces(s, h.code + 3) == h.colon && SkipSpaces(s, h.colon + 1) == h.upper
  {
    SkipSpacesTo(s, i + 1, h.dash);
    SkipSpacesTo(s, h.dash + 1, h.code);
    SkipSpacesTo(s, h.code + 3, h.colon);
    SkipSpacesTo(s, h.colon + 1, h.upper);
  }

  /** Whenever the pattern can match at i, the matcher matches there, with
      the same fixed part and a description at least as long: the greedy
      one. */
  lemma MatchAtComplete(s: string, i: nat, p: Positions, dot: nat)
    requires Layout(s, i, p, dot)
    ensures MatchAt(s, i).Some?
    ensures MatchAt(s, i).value.head == p.head && p.end <= MatchAt(s, i).value.end
  {
    MatchHeadComplete(s, i, p.head);
    SkipSpacesTo(s, p.end, dot);
    assert DotAfterSpaces(s, p.end);
    LineEndAfter(s, p.head.upper + 1, p.end);
  }

  datatype Found = Found(start: nat, positions: Positions)

  /** The leftmost start in [i, n) at which `matchAt` matches. */
  function Leftmost(n: nat, i: nat, matchAt: nat -> Option<Positions>): Option<Found>
    decreases n - i
  {
    if i >= n then None
    else match matchAt(i)
      case Some(p) => Some(Found(i, p))
      case None => Leftmost(n, i + 1, matchAt)
  }

  /** What Leftmost finds is a match, and no start before it matches; when
      it finds nothing, no start matches. */
  lemma {:induction false} LeftmostSound(n: nat, i: nat, matchAt: nat -> Option<Positions>)
    ensures Leftmost(n, i, matchAt).Some? ==>
              var f := Leftmost(n, i, matchAt).value;
              i <= f.start < n && matchAt(f.start) == Some(f.positions) &&
              forall k :: i <= k < f.start ==> matchAt(k).None?
    ensures Leftmost(n, i, matchAt).None? ==> forall k :: i <= k < n ==> matchAt(k).None?
    decreases n - i
  {
    if i < n && matchAt(i).None? {
      LeftmostSound(n, i + 1, matchAt);
    }
  }

  /** A match at j with none before it from i on is what Leftmost finds. */
  lemma {:induction false} LeftmostAt(n: nat, i: nat, j: nat, p: Positions, matchAt: nat -> Option<Positions>)
    requires i <= j < n && matchAt(j) == Some(p)
    requires forall k :: i <= k < j ==> matchAt(k).None?
    ensures Leftmost(n, i, matchAt) == Some(Found(j, p))
    decreases j - i
  {
    if i < j {
      LeftmostAt(n, i + 1, j, p, matchAt);
    }
  }

  /** The leftmost start from i on at which the matcher matches. */
  function FindMatch(s: string, i: nat): Option<Found>
  {
    Leftmost(|s|, i, (k: nat) => MatchAt(s, k))
  }

  lemma FindMatchLeftmost(s: string, i: nat)
    ensures FindMatch(s, i).Some? ==>
              var f := FindMatch(s, i).value;
              i <= f.start < |s| && MatchAt(s, f.start) == Some(f.positions) &&
              forall k :: i <= k < f.start ==> MatchAt(s, k).None?
    ensures FindMatch(s, i).None? ==> forall k :: i <= k < |s| ==> MatchAt(s, k).None?
  {
    var matchAt := (k: nat) => MatchAt(s, k);
    LeftmostSound(|s|, i, matchAt);
    forall k: nat ensures matchAt(k) == MatchAt(s, k) {}
  }

  lemma FindMatchAt(s: string, i: nat, j: nat, p: Positions)
    requires i <= j < |s| && MatchAt(s, j) == Some(p)
    requires forall k :: i <= k < j ==> MatchAt(s, k).None?
    ensures FindMatch(s, i) == Some(Found(j, p))
  {
    LeftmostAt(|s|, i, j, p, (k: nat) => MatchAt(s, k));
  }

  /** The two groups of a match: three digits, and a description that
      starts with a capital letter and holds no line break. */
  predicate GroupsShape(code: string, desc: string)
  {
    |code| == 3 && (forall k :: 0 <= k < 3 ==> IsDigit(code[k])) &&
    |desc| > 0 && IsUpper(desc[0]) && '\n' !in desc
  }

  function Groups(s: string, p: Positions): (string, string)
    requires p.head.code + 3 <= |s| && p.head.upper <= p.end <= |s|
  {
    (s[p.head.code..p.head.code + 3], s[p.head.upper..p.end])
  }

  lemma LayoutGroups(s: string, i: nat, p: Positions, dot: nat)
    requires Layout(s, i, p, dot)
    ensures p.head.code + 3 <= |s| && p.head.upper <= p.end <= |s|
    ensures GroupsShape(Groups(s, p).0, Groups(s, p).1)
  {
    var desc := s[p.head.upper..p.end];
    assert forall k :: 0 < k < |desc| ==> desc[k] == s[p.head.upper + k];
  }

  /** ParseComment: the status and the description of the leftmost match,
      or the defaults when the comment does not match. */
  function ParseComment(comment: string): (r: (string, string))
    ensures FindMatch(comment, 0).None? ==> r == (DEFAULT_CODE, DEFAULT_DESC)
    ensures FindMatch(comment, 0).Some? ==> GroupsShape(r.0, r.1)
  {
    match FindMatch(comment, 0)
    case None => (DEFAULT_CODE, DEFAULT_DESC)
    case Some(f) =>
      FindMatchLeftmost(comment, 0);
      MatchAtSound(comment, f.start);
      LayoutGroups(comment, f.start, f.positions, SkipSpaces(comment, f.positions.end));
      Groups(comment, f.positions)
  }

  /** A comment the pattern matches nowhere yields the defaults. */
  lemma NoMatchDefaults(comment: string)
    ensures (forall i: nat, p: Positions, dot: nat :: !Layout(comment, i, p, dot)) ==>
              ParseComment(comment) == (DEFAULT_CODE, DEFAULT_DESC)
  {
    if FindMatch(comment, 0).Some? {
      var f := FindMatch(comment, 0).value;
      FindMatchLeftmost(comment, 0);
      MatchAtSound(comment, f.start);
      assert Layout(comment, f.start, f.positions, SkipSpaces(comment, f.positions.end));
    }
  }

  /** A comment the pattern matches at i yields a match that starts no later
      than i; when it starts at i, it has the same status and a description
      at least as long as that match's. */
  lemma ParseCommentLeftmostGreedy(comment: string, i: nat, p: Positions, dot: nat)
    requires Layout(comment, i, p, dot)
    ensures FindMatch(comment, 0).Some? && FindMatch(comment, 0).value.start <= i
    ensures FindMatch(comment, 0).value.start == i ==>
              ParseComment(comment).0 == comment[p.head.code..p.head.code + 3] &&
              comment[p.head.upper..p.end] <= ParseComment(comment).1
  {
    FoundNoLater(comment, i, p, dot);
    var f := FindMatch(comment, 0).value;
    if f.start == i {
      ParseCommentOfFound(comment, f);
      FoundExtends(comment, i, p, dot);
      SlicePrefix(comment, p.head.upper, p.end, f.positions.end);
    }
  }

  /** A leftmost match at i has the fixed part of any match at i and a
      description at least as long. */
  lemma FoundExtends(comment: string, i: nat, p: Positions, dot: nat)
    requires Layout(comment, i, p, dot)
    requires FindMatch(comment, 0).Some? && FindMatch(comment, 0).value.start == i
    ensures var m := FindMatch(comment, 0).value.positions;
      m.head == p.head && p.end <= m.end <= |comment|
  {
    MatchAtComplete(comment, i, p, dot);
    FindMatchLeftmost(comment, 0);
    MatchAtSound(comment, i);
  }

  lemma FoundNoLater(comment: string, i: nat, p: Positions, dot: nat)
    requires Layout(comment, i, p, dot)
    ensures FindMatch(comment, 0).Some? && FindMatch(comment, 0).value.start <= i
  {
    MatchAtComplete(comment, i, p, dot);
    FindMatchLeftmost(comment, 0);
  }

  lemma SlicePrefix(s: string, a: nat, b: nat, c: nat)
    requires a <= b <= c <= |s|
    ensures s[a..b] <= s[a..c]
  {
    assert s[a..b] == s[a..c][..b - a];
  }

  /** The comments the generator is written for: an identifier, " - ", a
      three-digit status, ": ", a capitalised description without '.' or line
      break, a final '.' and any line breaks. */
  function Comment(name: string, code: string, desc: string, breaks: nat): string
  {
    name + " - " + code + ": " + desc + "." + seq(breaks, _ => '\n')
  }

  predicate WellFormedComment(name: string, code: string, desc: string)
  {
    && |name| > 0 && (forall k :: 0 <= k < |name| ==> IsWordChar(name[k]))
    && |code| == 3 && (forall k :: 0 <= k < 3 ==> IsDigit(code[k]))
    && |desc| > 0 && IsUpper(desc[0])
    && (forall k :: 0 <= k < |desc| ==> desc[k] != '.' && desc[k] != '\n')
  }

  /** Where the parts of such a comment lie. */
  function CommentPositions(name: string, desc: string): Positions
  {
    Positions(Head(|name| + 1, |name| + 3, |name| + 6, |name| + 8), |name| + 8 + |desc|)
  }

  lemma CommentChars(name: string, code: string, desc: string, breaks: nat)
    requires WellFormedComment(name, code, desc)
    ensures var s, n, dot := Comment(name, code, desc, breaks), |name|, |name| + 8 + |desc|;
      && |s| == dot + 1 + breaks
      && (forall k :: 0 <= k < n ==> s[k] == name[k])
      && s[n] == ' ' && s[n + 1] == '-' && s[n + 2] == ' '
      && s[n + 3..n + 6] == code
      && s[n + 6] == ':' && s[n + 7] == ' '
      && s[n + 8..dot] == desc
      && (forall k :: n + 8 <= k < dot ==> s[k] == desc[k - n - 8])
      && s[dot] == '.'
      && (forall k :: dot < k < |s| ==> s[k] == '\n')
  {
  }

  lemma CommentLayout(name: string, code: string, desc: string, breaks: nat)
    requires WellFormedComment(name, code, desc)
    ensures Layout(Comment(name, code, desc, breaks), |name| - 1, CommentPositions(name, desc), |name| + 8 + |desc|)
  {
    CommentChars(name, code, desc, breaks);
  }

  /** No match starts inside the identifier before its last character. */
  lemma CommentNoEarlierMatch(name: string, code: string, desc: string, breaks: nat)
    requires WellFormedComment(name, code, desc)
    ensures forall k :: 0 <= k < |name| - 1 ==> MatchAt(Comment(name, code, desc, breaks), k).None?
  {
    var s := Comment(name, code, desc, breaks);
    CommentChars(name, code, desc, breaks);
    forall k | 0 <= k < |name| - 1 ensures MatchHead(s, k).None? {
      assert s[k + 1] == name[k + 1];
      assert SkipSpaces(s, k + 1) == k + 1;
    }
  }

  /** A line without breaks up to a '.' that only breaks follow ends just
      after that '.', and `\s*\.` does not match after it. */
  lemma DotThenBreaks(s: string, a: nat, dot: nat)
    requires NoNewline(s, a, dot + 1) && dot < |s| && s[dot] == '.'
    requires forall k :: dot < k < |s| ==> s[k] == '\n'
    ensures LineEnd(s, a) == dot + 1 && DotAfterSpaces(s, dot) && !DotAfterSpaces(s, dot + 1)
  {
    LineEndAfter(s, a, dot + 1);
    assert SkipSpaces(s, dot) == dot;
    if dot + 1 < |s| {
      assert s[dot + 1] == '\n';
    }
    SkipSpacesTo(s, dot + 1, |s|);
  }

  /** The description's line ends just after the final '.', and `\s*\.`
      does not match there. */
  lemma CommentLineEnd(name: string, code: string, desc: string, breaks: nat)
    requires WellFormedComment(name, code, desc)
    ensures var s, dot := Comment(name, code, desc, breaks), |name| + 8 + |desc|;
      LineEnd(s, |name| + 9) == dot + 1 && DotAfterSpaces(s, dot) && !DotAfterSpaces(s, dot + 1)
  {
    var s, dot := Comment(name, code, desc, breaks), |name| + 8 + |desc|;
    CommentChars(name, code, desc, breaks);
    assert NoNewline(s, |name| + 9, dot + 1) by {
      forall k | |name| + 9 <= k < dot + 1 ensures s[k] != '\n' {
        if k < dot {
          assert s[k] == desc[k - |name| - 8];
        }
      }
    }
    DotThenBreaks(s, |name| + 9, dot);
  }

  /** Where the fixed part matches and the line ends just after the last
      place `\s*\.` matches, the matcher takes the description up to there. */
  lemma MatchAtDot(s: string, i: nat, h: Head, dot: nat)
    requires MatchHead(s, i) == Some(h) && h.upper + 1 <= dot < |s|
    requires LineEnd(s, h.upper + 1) == dot + 1
    requires DotAfterSpaces(s, dot) && !DotAfterSpaces(s, dot + 1)
    ensures MatchAt(s, i) == Some(Positions(h, dot))
  {
    assert LastDescEnd(s, h.upper + 1, dot + 1) == LastDescEnd(s, h.upper + 1, dot);
  }

  /** The matcher matches such a comment at the identifier's last
      character, with the description running to the final '.'. */
  lemma CommentMatch(name: string, code: string, desc: string, breaks: nat)
    requires WellFormedComment(name, code, desc)
    ensures MatchAt(Comment(name, code, desc, breaks), |name| - 1) == Some(CommentPositions(name, desc))
  {
    var s := Comment(name, code, desc, breaks);
    var p := CommentPositions(name, desc);
    assert MatchHead(s, |name| - 1) == Some(p.head) && p.head.upper + 1 <= p.end < |s| by {
      CommentLayout(name, code, desc, breaks);
      MatchHeadComplete(s, |name| - 1, p.head);
    }
    assert LineEnd(s, p.head.upper + 1) == p.end + 1 && DotAfterSpaces(s, p.end) && !DotAfterSpaces(s, p.end + 1) by {
      CommentLineEnd(name, code, desc, breaks);
    }
    MatchAtDot(s, |name| - 1, p.head, p.end);
  }

  /** The leftmost match of such a comment is that one. */
  lemma CommentFound(name: string, code: string, desc: string, breaks: nat)
    requires WellFormedComment(name, code, desc)
    ensures FindMatch(Comment(name, code, desc, breaks), 0) ==
            Some(Found(|name| - 1, CommentPositions(name, desc)))
  {
    CommentMatch(name, code, desc, breaks);
    CommentNoEarlierMatch(name, code, desc, breaks);
    FindMatchAt(Comment(name, code, desc, breaks), 0, |name| - 1, CommentPositions(name, desc));
  }

  /** ParseComment gives back the groups of the leftmost match. */
  lemma ParseCommentOfFound(s: string, f: Found)
    requires FindMatch(s, 0) == Some(f)
    ensures f.positions.head.code + 3 <= |s| && f.positions.head.upper <= f.positions.end <= |s|
    ensures ParseComment(s) == Groups(s, f.positions)
  {
    FindMatchLeftmost(s, 0);
    MatchAtSound(s, f.start);
    LayoutGroups(s, f.start, f.positions, SkipSpaces(s, f.positions.end));
  }

  lemma CommentGroups(name: string, code: string, desc: string, breaks: nat)
    requires WellFormedComment(name, code, desc)
    ensures Groups(Comment(name, code, desc, breaks), CommentPositions(name, desc)) == (code, desc)
  {
    CommentChars(name, code, desc, breaks);
  }

  /** Such a comment gives back its status and its description. */
  lemma ParseCommentOfComment(name: string, code: string, desc: string, breaks: nat)
    requires WellFormedComment(name, code, desc)
    ensures ParseComment(Comment(name, code, desc, breaks)) == (code, desc)
  {
    CommentFound(name, code, desc, breaks);
    ParseCommentOfFound(Comment(name, code, desc, breaks), Found(|name| - 1, CommentPositions(name, desc)));
    CommentGroups(name, code, desc, breaks);
  }
}
