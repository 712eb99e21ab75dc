/** Cutting a text into tokens: entities (addresses and the like) first, and in what is left between
    them the runs of characters of one type. */
module Tokenizer {

  datatype TokenType = WORD | NUMBER | WHITESPACE | SYMBOL | UNKNOWN | EMAIL_ADDR | URL_ADDR | IP_V4_ADDR

  // Positions are in bytes.
  datatype Token = Token(kind: TokenType, value: string, startPos: nat, endPos: nat)

  // Character classes, lower case, and bytes in UTF-8, as the Unicode tables have them.
  datatype Tables = Tables(
    isDigit: char -> bool, isSpace: char -> bool, isPunct: char -> bool, isSymbol: char -> bool,
    lower: char -> char, width: char -> nat)

  // Byte position of character `i`.
  function Offset(t: Tables, text: string, i: nat): nat
    requires i <= |text|
  {
    if i == 0 then 0 else Offset(t, text, i - 1) + t.width(text[i - 1])
  }

  // Lower case is a projection and changes no lengths.
  ghost predicate Regular(t: Tables) {
    && (forall c {:trigger t.width(t.lower(c))} :: t.width(t.lower(c)) == t.width(c))
    && (forall c {:trigger t.lower(t.lower(c))} :: t.lower(t.lower(c)) == t.lower(c))
  }

  function Lower(t: Tables, text: string): (r: string)
    ensures |r| == |text| && forall i :: 0 <= i < |text| ==> r[i] == t.lower(text[i])
  {
    seq(|text|, i requires 0 <= i < |text| => t.lower(text[i]))
  }

  function GetRuneType(t: Tables, r: char): TokenType {
    if 'a' <= r <= 'z' then WORD
    else if t.isDigit(r) then NUMBER
    else if t.isSpace(r) then WHITESPACE
    else if t.isPunct(r) || t.isSymbol(r) then SYMBOL
    else UNKNOWN
  }

  lemma {:induction false} OffsetOfPart(t: Tables, text: string, lo: nat, hi: nat, part: string, i: nat)
    requires lo <= hi <= |text| && |part| == hi - lo && i <= |part|
    requires forall k :: 0 <= k < |part| ==> t.width(part[k]) == t.width(text[lo + k])
    ensures Offset(t, text, lo + i) == Offset(t, text, lo) + Offset(t, part, i)
  {
    if i > 0 {
      OffsetOfPart(t, text, lo, hi, part, i - 1);
    }
  }

  lemma {:induction false} PrefixLength(t: Tables, x: string, y: string, i: nat)
    requires i <= |x|
    ensures Offset(t, x + y, i) == Offset(t, x, i)
  {
    if i > 0 {
      PrefixLength(t, x, y, i - 1);
    }
  }

  // Lengths in bytes add up ...
  lemma {:induction false} LengthsAddUp(t: Tables, x: string, y: string)
    ensures Offset(t, x + y, |x + y|) == Offset(t, x, |x|) + Offset(t, y, |y|)
    decreases |y|
  {
    if y == "" {
      assert x + y == x;
    } else {
      var front, last := y[..|y| - 1], y[|y| - 1];
      LengthsAddUp(t, x, front);
      PrefixLength(t, x + front, [last], |x + front|);
      PrefixLength(t, front, [last], |front|);
      assert x + y == (x + front) + [last] && y == front + [last];
    }
  }

  // ... character by character.
  lemma {:induction false} LengthOfOne(t: Tables, c: char)
    ensures Offset(t, [c], 1) == t.width(c)
  {
  }

  // ---------- Runs ----------

  // [a, b) is a maximal run of characters of one type, other than white space, in a fragment.
  ghost predicate IsRun(t: Tables, f: string, a: nat, b: nat) {
    && a < b <= |f|
    && GetRuneType(t, f[a]) != WHITESPACE
    && (forall p :: a <= p < b ==> GetRuneType(t, f[p]) == GetRuneType(t, f[a]))
    && (a > 0 ==> GetRuneType(t, f[a - 1]) != GetRuneType(t, f[a]))
    && (b < |f| ==> GetRuneType(t, f[b]) != GetRuneType(t, f[a]))
  }

  type Ranges = seq<(nat, nat)>

  // Non-empty, in order, and disjoint, between `lo` and `hi`.
  ghost predicate InOrder(ranges: Ranges, lo: nat, hi: nat) {
    && (forall k :: 0 <= k < |ranges| ==> lo <= ranges[k].0 < ranges[k].1 <= hi)
    && (forall j, k :: 0 <= j < k < |ranges| ==> ranges[j].1 <= ranges[k].0)
  }

  ghost predicate Covered(ranges: Ranges, p: int) {
    exists k :: 0 <= k < |ranges| && ranges[k].0 <= p < ranges[k].1
  }

  // Token `k` is the run at ranges[k] ...
  ghost predicate RunTokens(t: Tables, f: string, start: nat, tokens: seq<Token>, ranges: Ranges) {
    && |ranges| == |tokens|
    && forall k {:trigger IsRunToken(t, f, start, tokens[k], ranges[k].0, ranges[k].1)} :: 0 <= k < |tokens| ==>
         IsRunToken(t, f, start, tokens[k], ranges[k].0, ranges[k].1)
  }

  ghost predicate IsRunToken(t: Tables, f: string, start: nat, token: Token, a: nat, b: nat) {
    && IsRun(t, f, a, b)
    && token == Token(GetRuneType(t, f[a]), f[a..b], start + Offset(t, f, a), start + Offset(t, f, b))
  }

  // ... and what no range covers is white space.
  ghost predicate Gaps(t: Tables, f: string, ranges: Ranges, lo: nat, hi: nat)
    requires hi <= |f|
  {
    forall p {:trigger Covered(ranges, p)} :: lo <= p < hi && !Covered(ranges, p) ==> GetRuneType(t, f[p]) == WHITESPACE
  }

  ghost predicate RunsOf(t: Tables, f: string, start: nat, tokens: seq<Token>, ranges: Ranges, hi: nat)
    requires hi <= |f|
  {
    RunTokens(t, f, start, tokens, ranges) && InOrder(ranges, 0, hi) && Gaps(t, f, ranges, 0, hi)
  }

  lemma CoveredStep(ranges: Ranges, r: (nat, nat), p: int)
    ensures Covered(ranges + [r], p) <==> Covered(ranges, p) || r.0 <= p < r.1
  {
    var wider := ranges + [r];
    assert wider[|ranges|] == r;
    assert forall k :: 0 <= k < |ranges| ==> wider[k] == ranges[k];
  }

  // What closing a run does: white space is dropped.
  function Flush(t: Tables, tokens: seq<Token>, kind: TokenType, buffer: string, at: nat): seq<Token> {
    if |buffer| > 0 && kind != WHITESPACE
    then tokens + [Token(kind, buffer, at, at + Offset(t, buffer, |buffer|))]
    else tokens
  }

  ghost function FlushRange(ranges: Ranges, kind: TokenType, a: nat, b: nat): Ranges {
    if a < b && kind != WHITESPACE then ranges + [(a, b)] else ranges
  }

  // [a, b) has one type and begins where that type begins ...
  ghost predicate IsOpen(t: Tables, f: string, a: nat, b: nat, kind: TokenType) {
    && a <= b <= |f| && (a == b ==> b == 0)
    && (forall p :: a <= p < b ==> GetRuneType(t, f[p]) == kind)
    && (0 < a < b ==> GetRuneType(t, f[a - 1]) != kind)
  }

  // ... and ends where it ends.
  ghost predicate IsStretch(t: Tables, f: string, a: nat, b: nat, kind: TokenType) {
    a < b && IsOpen(t, f, a, b, kind) && (b < |f| ==> GetRuneType(t, f[b]) != kind)
  }

  lemma StretchGaps(t: Tables, f: string, ranges: Ranges, a: nat, b: nat, kind: TokenType)
    requires a <= |f| && Gaps(t, f, ranges, 0, a) && IsStretch(t, f, a, b, kind)
    ensures Gaps(t, f, FlushRange(ranges, kind, a, b), 0, b)
  {
    forall p | 0 <= p < b && !Covered(FlushRange(ranges, kind, a, b), p)
      ensures GetRuneType(t, f[p]) == WHITESPACE
    {
      CoveredStep(ranges, (a, b), p);
    }
  }

  lemma {:induction false} StretchWidth(t: Tables, f: string, a: nat, b: nat)
    requires a < b <= |f|
    ensures Offset(t, f, b) == Offset(t, f, a) + Offset(t, f[a..b], |f[a..b]|)
  {
    OffsetOfPart(t, f, a, b, f[a..b], b - a);
  }

  lemma FlushKeepsOrder(ranges: Ranges, kind: TokenType, a: nat, b: nat)
    requires a <= b && InOrder(ranges, 0, a)
    ensures InOrder(FlushRange(ranges, kind, a, b), 0, b)
  {
  }

  lemma AddRunToken(t: Tables, f: string, start: nat, tokens: seq<Token>, ranges: Ranges, token: Token, a: nat, b: nat)
    requires RunTokens(t, f, start, tokens, ranges) && IsRunToken(t, f, start, token, a, b)
    ensures RunTokens(t, f, start, tokens + [token], ranges + [(a, b)])
  {
    var ts, rs := tokens + [token], ranges + [(a, b)];
    forall k | 0 <= k < |ts|
      ensures IsRunToken(t, f, start, ts[k], rs[k].0, rs[k].1)
    {
      if k < |tokens| {
        assert IsRunToken(t, f, start, tokens[k], ranges[k].0, ranges[k].1);
      }
    }
  }

  lemma {:induction false} StretchToken(t: Tables, f: string, start: nat, a: nat, b: nat, kind: TokenType, buffer: string, at: nat)
    requires IsStretch(t, f, a, b, kind) && kind != WHITESPACE
    requires buffer == f[a..b] && at == start + Offset(t, f, a)
    ensures IsRunToken(t, f, start, Token(kind, buffer, at, at + Offset(t, buffer, |buffer|)), a, b)
  {
    StretchWidth(t, f, a, b);
  }

  lemma {:induction false} FlushKeepsTokens(t: Tables, f: string, start: nat, tokens: seq<Token>, ranges: Ranges, a: nat, b: nat, kind: TokenType,
                         buffer: string, at: nat)
    requires IsStretch(t, f, a, b, kind) && RunTokens(t, f, start, tokens, ranges)
    requires buffer == f[a..b] && at == start + Offset(t, f, a)
    ensures RunTokens(t, f, start, Flush(t, tokens, kind, buffer, at), FlushRange(ranges, kind, a, b))
  {
    if kind != WHITESPACE {
      StretchToken(t, f, start, a, b, kind, buffer, at);
      AddRunToken(t, f, start, tokens, ranges, Token(kind, buffer, at, at + Offset(t, buffer, |buffer|)), a, b);
    }
  }

  // What has been closed so far, without looking at how.
  lemma {:induction false} CloseRun(t: Tables, f: string, start: nat, tokens: seq<Token>, ranges: Ranges, a: nat, b: nat, kind: TokenType,
                 buffer: string, at: nat)
    requires a <= |f| && RunsOf(t, f, start, tokens, ranges, a) && IsStretch(t, f, a, b, kind)
    requires buffer == f[a..b] && at == start + Offset(t, f, a)
    ensures RunsOf(t, f, start, Flush(t, tokens, kind, buffer, at), FlushRange(ranges, kind, a, b), b)
  {
    FlushKeepsTokens(t, f, start, tokens, ranges, a, b, kind, buffer, at);
    StretchGaps(t, f, ranges, a, b, kind);
    FlushKeepsOrder(ranges, kind, a, b);
  }

  // Ends the run in the buffer, which began at byte `startPos` of the fragment.
  method EndRun(t: Tables, buffer: string, kind: TokenType, globalStartPos: nat, startPos: nat, tokens: seq<Token>,
                ghost f: string, ghost ranges: Ranges, ghost a: nat, ghost b: nat)
    returns (tokens': seq<Token>, ghost ranges': Ranges, startPos': nat)
    requires a <= |f| && RunsOf(t, f, globalStartPos, tokens, ranges, a) && IsStretch(t, f, a, b, kind)
    requires buffer == f[a..b] && startPos == Offset(t, f, a)
    ensures RunsOf(t, f, globalStartPos, tokens', ranges', b)
    ensures startPos' == Offset(t, f, b)
  {
    CloseRun(t, f, globalStartPos, tokens, ranges, a, b, kind, buffer, globalStartPos + startPos);
    StretchWidth(t, f, a, b);
    tokens' := Flush(t, tokens, kind, buffer, globalStartPos + startPos);
    ranges' := FlushRange(ranges, kind, a, b);
    startPos' := startPos + Offset(t, buffer, |buffer|);
  }

  lemma OpenStep(t: Tables, f: string, a: nat, i: nat, kind: TokenType)
    requires IsOpen(t, f, a, i, kind) && i < |f|
    ensures f[a..i + 1] == f[a..i] + [f[i]] && f[i..i + 1] == [f[i]]
    ensures a == i ==> IsOpen(t, f, a, i + 1, GetRuneType(t, f[i]))
    ensures a < i && GetRuneType(t, f[i]) == kind ==> IsOpen(t, f, a, i + 1, kind)
    ensures a < i && GetRuneType(t, f[i]) != kind ==>
      IsStretch(t, f, a, i, kind) && IsOpen(t, f, i, i + 1, GetRuneType(t, f[i]))
  {
  }

  // A token is all letters if it is a word, and has none if it is not; the same for the other types.
  lemma TokensAreTyped(t: Tables, f: string, start: nat, tokens: seq<Token>, ranges: Ranges, k: nat, p: nat)
    requires RunTokens(t, f, start, tokens, ranges) && k < |tokens| && ranges[k].0 <= p < ranges[k].1 <= |f|
    ensures tokens[k].kind == WORD <==> 'a' <= f[p] <= 'z'
    ensures tokens[k].kind == NUMBER <==> !('a' <= f[p] <= 'z') && t.isDigit(f[p])
    ensures tokens[k].kind == SYMBOL <==>
      !('a' <= f[p] <= 'z') && !t.isDigit(f[p]) && !t.isSpace(f[p]) && (t.isPunct(f[p]) || t.isSymbol(f[p]))
    ensures tokens[k].kind == UNKNOWN <==>
      !('a' <= f[p] <= 'z') && !t.isDigit(f[p]) && !t.isSpace(f[p]) && !t.isPunct(f[p]) && !t.isSymbol(f[p])
    ensures tokens[k].value == f[ranges[k].0..ranges[k].1]
  {
    TokenAt(t, f, start, tokens, ranges, k);
  }

  // Every letter and digit, and everything else that is no white space, is in some token.
  lemma {:induction false} OnlySpaceIsLeft(t: Tables, f: string, start: nat, tokens: seq<Token>, ranges: Ranges, p: nat)
    requires RunsOf(t, f, start, tokens, ranges, |f|) && p < |f|
    ensures !Covered(ranges, p) <==> t.isSpace(f[p]) && !t.isDigit(f[p]) && !('a' <= f[p] <= 'z')
  {
    if k :| 0 <= k < |ranges| && ranges[k].0 <= p < ranges[k].1 {
      TokenAt(t, f, start, tokens, ranges, k);
    }
  }

  method FragmentTokenize(t: Tables, fragment: string, globalStartPos: nat)
    returns (tokens: seq<Token>, ghost ranges: Ranges)
    ensures RunsOf(t, Lower(t, fragment), globalStartPos, tokens, ranges, |fragment|)
    ensures AreRuns(t, Lower(t, fragment), globalStartPos, tokens)
    ensures forall k, c :: 0 <= k < |tokens| && c in tokens[k].value ==> (tokens[k].kind == WORD <==> 'a' <= c <= 'z')
    ensures forall p :: 0 <= p < |fragment| && 'a' <= t.lower(fragment[p]) <= 'z' ==> Covered(ranges, p)
  {
    tokens, ranges := [], [];
    var buffer := "";
    var currentTokenType := UNKNOWN;
    var startPos := 0;
    var runes := Lower(t, fragment);
    ghost var a := 0;
    for i := 0 to |runes|
      invariant IsOpen(t, runes, a, i, currentTokenType) && buffer == runes[a..i]
      invariant startPos == Offset(t, runes, a)
      invariant RunsOf(t, runes, globalStartPos, tokens, ranges, a)
    {
      OpenStep(t, runes, a, i, currentTokenType);
      var r := runes[i];
      var rType := GetRuneType(t, r);
      if |buffer| == 0 {
        buffer := buffer + [r];
        currentTokenType := rType;
      } else if rType == currentTokenType {
        buffer := buffer + [r];
      } else {
        tokens, ranges, startPos :=
          EndRun(t, buffer, currentTokenType, globalStartPos, startPos, tokens, runes, ranges, a, i);
        buffer := [r];
        currentTokenType := rType;
        a := i;
      }
    }
    if |buffer| > 0 {
      tokens, ranges, startPos :=
        EndRun(t, buffer, currentTokenType, globalStartPos, startPos, tokens, runes, ranges, a, |runes|);
    }
    WordsAreLetters(t, runes, globalStartPos, tokens, ranges);
  }

  lemma {:induction false} WordsAreLetters(t: Tables, f: string, start: nat, tokens: seq<Token>, ranges: Ranges)
    requires RunsOf(t, f, start, tokens, ranges, |f|)
    ensures forall k, c :: 0 <= k < |tokens| && c in tokens[k].value ==> (tokens[k].kind == WORD <==> 'a' <= c <= 'z')
    ensures forall p :: 0 <= p < |f| && 'a' <= f[p] <= 'z' ==> Covered(ranges, p)
  {
    forall k, c | 0 <= k < |tokens| && c in tokens[k].value
      ensures tokens[k].kind == WORD <==> 'a' <= c <= 'z'
    {
      TokenAt(t, f, start, tokens, ranges, k);
      var i :| 0 <= i < |tokens[k].value| && tokens[k].value[i] == c;
      TokensAreTyped(t, f, start, tokens, ranges, k, ranges[k].0 + i);
    }
    forall p | 0 <= p < |f| && 'a' <= f[p] <= 'z'
      ensures Covered(ranges, p)
    {
      OnlySpaceIsLeft(t, f, start, tokens, ranges, p);
    }
  }

  // ---------- The runs of a fragment are determined ----------

  // The tokens are the runs of the fragment, wherever these lie.
  ghost predicate AreRuns(t: Tables, f: string, start: nat, tokens: seq<Token>) {
    exists ranges: Ranges :: RunsOf(t, f, start, tokens, ranges, |f|)
  }

  // Two maximal runs that meet are the same.
  lemma RunsThatMeet(t: Tables, f: string, a: nat, b: nat, c: nat, d: nat, p: nat)
    requires IsRun(t, f, a, b) && IsRun(t, f, c, d) && a <= p < b && c <= p < d
    ensures a == c && b == d
  {
  }

  lemma RangeIsFound(t: Tables, f: string, start: nat, tokens: seq<Token>, ranges: Ranges,
                     others: seq<Token>, otherRanges: Ranges, r: (nat, nat))
    requires RunsOf(t, f, start, tokens, ranges, |f|) && RunsOf(t, f, start, others, otherRanges, |f|)
    requires r in ranges
    ensures r in otherRanges
  {
    var k :| 0 <= k < |ranges| && ranges[k] == r;
    TokenAt(t, f, start, tokens, ranges, k);
    assert Covered(otherRanges, r.0);
    var h :| 0 <= h < |otherRanges| && otherRanges[h].0 <= r.0 < otherRanges[h].1;
    TokenAt(t, f, start, others, otherRanges, h);
    RunsThatMeet(t, f, r.0, r.1, otherRanges[h].0, otherRanges[h].1, r.0);
    assert otherRanges[h] == r;
  }

  lemma LastIsLast(r: Ranges, s: Ranges, hi: nat)
    requires InOrder(r, 0, hi) && InOrder(s, 0, hi) && r != [] && s != []
    requires r[|r| - 1] in s && s[|s| - 1] in r
    ensures r[|r| - 1] == s[|s| - 1]
  {
  }

  lemma ButTheLast(r: Ranges, hi: nat, x: (nat, nat))
    requires InOrder(r, 0, hi) && r != []
    ensures x in r[..|r| - 1] <==> x in r && x != r[|r| - 1]
  {
    if x in r[..|r| - 1] {
      var k :| 0 <= k < |r| - 1 && r[k] == x;
      assert r[k].1 <= r[|r| - 1].0;
    }
  }

  lemma {:induction false} SameRangesSameOrder(r: Ranges, s: Ranges, hi: nat)
    requires InOrder(r, 0, hi) && InOrder(s, 0, hi)
    requires forall x :: x in r <==> x in s
    ensures r == s
    decreases |r|
  {
    assert s != [] ==> s[|s| - 1] in r;
    assert r != [] ==> r[|r| - 1] in s;
    if r != [] {
      LastIsLast(r, s, hi);
      var rest, others := r[..|r| - 1], s[..|s| - 1];
      forall x
        ensures x in rest <==> x in others
      {
        ButTheLast(r, hi, x);
        ButTheLast(s, hi, x);
      }
      SameRangesSameOrder(rest, others, hi);
      assert r == rest + [r[|r| - 1]] && s == others + [s[|s| - 1]];
    }
  }

  // A fragment has only one sequence of runs.
  lemma RunsAreDetermined(t: Tables, f: string, start: nat, tokens: seq<Token>, others: seq<Token>)
    requires AreRuns(t, f, start, tokens) && AreRuns(t, f, start, others)
    ensures tokens == others
  {
    var ranges :| RunsOf(t, f, start, tokens, ranges, |f|);
    var otherRanges :| RunsOf(t, f, start, others, otherRanges, |f|);
    forall x
      ensures x in ranges <==> x in otherRanges
    {
      if x in ranges { RangeIsFound(t, f, start, tokens, ranges, others, otherRanges, x); }
      if x in otherRanges { RangeIsFound(t, f, start, others, otherRanges, tokens, ranges, x); }
    }
    SameRangesSameOrder(ranges, otherRanges, |f|);
    forall k | 0 <= k < |tokens|
      ensures tokens[k] == others[k]
    {
      TokenAt(t, f, start, tokens, ranges, k);
      TokenAt(t, f, start, others, otherRanges, k);
    }
  }

  // ---------- Choosing entities ----------

  // A candidate span, in characters.  Which spans there are is up to the regular expressions.
  datatype Entity = Entity(kind: TokenType, start: nat, end: nat)

  // The order of the candidates: earlier ones first, then shorter ones.
  predicate Before(x: Entity, y: Entity) {
    if x.start != y.start then x.start < y.start else x.start - x.end > y.start - y.end
  }

  function InsertSorted(s: seq<Entity>, e: Entity): seq<Entity> {
    if s == [] || !Before(e, s[|s| - 1]) then s + [e]
    else InsertSorted(s[..|s| - 1], e) + [s[|s| - 1]]
  }

  // A stable sort.
  function Sort(s: seq<Entity>): seq<Entity> {
    if s == [] then [] else InsertSorted(Sort(s[..|s| - 1]), s[|s| - 1])
  }

  ghost predicate Ascending(s: seq<Entity>) {
    forall i, j :: 0 <= i < j < |s| ==> !Before(s[j], s[i])
  }

  lemma {:induction false} InsertPermutes(s: seq<Entity>, e: Entity)
    ensures multiset(InsertSorted(s, e)) == multiset(s) + multiset{e}
  {
    if s != [] && Before(e, s[|s| - 1]) {
      InsertPermutes(s[..|s| - 1], e);
      assert s == s[..|s| - 1] + [s[|s| - 1]];
    }
  }

  lemma {:induction false} InsertKeepsAscending(s: seq<Entity>, e: Entity)
    requires Ascending(s)
    ensures Ascending(InsertSorted(s, e))
  {
    if s != [] && Before(e, s[|s| - 1]) {
      var rest, last := s[..|s| - 1], s[|s| - 1];
      var longer := InsertSorted(rest, e);
      InsertKeepsAscending(rest, e);
      InsertPermutes(rest, e);
      forall i | 0 <= i < |longer|
        ensures !Before(last, longer[i])
      {
        assert longer[i] in multiset(longer);
        assert longer[i] == e || longer[i] in rest;
      }
    }
  }

  lemma {:induction false} SortIsAscending(s: seq<Entity>)
    ensures Ascending(Sort(s)) && multiset(Sort(s)) == multiset(s)
  {
    if s != [] {
      var rest, last := s[..|s| - 1], s[|s| - 1];
      SortIsAscending(rest);
      InsertKeepsAscending(Sort(rest), last);
      InsertPermutes(Sort(rest), last);
      assert s == rest + [last];
      assert multiset(s) == multiset(rest) + multiset{last};
    }
  }

  ghost predicate InText(s: seq<Entity>, n: nat) {
    forall i :: 0 <= i < |s| ==> s[i].start < s[i].end <= n
  }

  ghost predicate Disjoint(chosen: seq<Entity>) {
    forall i, j :: 0 <= i < j < |chosen| ==> chosen[i].end <= chosen[j].start
  }

  // Some chosen entity contains the place where `c` begins.
  ghost predicate Hit(chosen: seq<Entity>, c: Entity) {
    exists d :: d in chosen && d.start <= c.start < d.end
  }

  // Every one of the candidates overlaps a chosen one.
  ghost predicate AllHit(chosen: seq<Entity>, candidates: seq<Entity>) {
    forall c {:trigger Hit(chosen, c)} :: c in candidates ==> Hit(chosen, c)
  }

  lemma ChooseOne(chosen: seq<Entity>, all: seq<Entity>, i: nat)
    requires i < |all| && AllHit(chosen, all[..i]) && all[i].start < all[i].end
    ensures AllHit(chosen + [all[i]], all[..i + 1])
  {
    var longer := chosen + [all[i]];
    forall c | c in all[..i + 1]
      ensures Hit(longer, c)
    {
      assert longer[|chosen|] == all[i];
      if c in all[..i] {
        assert Hit(chosen, c);
        var d :| d in chosen && d.start <= c.start < d.end;
        assert d in longer;
      }
    }
  }

  lemma PassOne(chosen: seq<Entity>, all: seq<Entity>, i: nat, last: Entity)
    requires i < |all| && AllHit(chosen, all[..i]) && last in chosen && last.start <= all[i].start < last.end
    ensures AllHit(chosen, all[..i + 1])
  {
    forall c | c in all[..i + 1]
      ensures Hit(chosen, c)
    {
      assert c == all[i] || (c in all[..i] && Hit(chosen, c));
    }
  }

  // Among the candidates that begin where a chosen one does, it is the shortest.
  ghost predicate Shortest(chosen: seq<Entity>, candidates: seq<Entity>) {
    forall k, c :: 0 <= k < |chosen| && c in candidates && c.start == chosen[k].start ==> chosen[k].end <= c.end
  }

  lemma PassedBeginEarlier(chosen: seq<Entity>, all: seq<Entity>, i: nat, j: nat)
    requires j < i < |all| && AllHit(chosen, all[..i])
    requires forall d :: d in chosen ==> d.end <= all[i].start
    ensures all[j].start < all[i].start
  {
    assert all[..i][j] == all[j];
    assert Hit(chosen, all[j]);
  }

  lemma ChooseKeepsShortest(chosen: seq<Entity>, all: seq<Entity>, i: nat)
    requires i < |all| && Ascending(all) && Shortest(chosen, all) && AllHit(chosen, all[..i])
    requires forall d :: d in chosen ==> d.end <= all[i].start
    ensures Shortest(chosen + [all[i]], all)
  {
    forall j | 0 <= j < i
      ensures all[j].start < all[i].start
    {
      PassedBeginEarlier(chosen, all, i, j);
    }
  }

  lemma DisjointEnds(chosen: seq<Entity>, n: nat)
    requires Disjoint(chosen) && InText(chosen, n) && chosen != []
    ensures forall d :: d in chosen ==> d.end <= chosen[|chosen| - 1].end
  {
  }

  // What holds after the first `i` candidates have been looked at.
  ghost predicate Selecting(chosen: seq<Entity>, all: seq<Entity>, i: nat, n: nat)
    requires i <= |all|
  {
    && Disjoint(chosen) && InText(chosen, n)
    && AllHit(chosen, all[..i]) && Shortest(chosen, all)
    && forall c :: c in chosen ==> c in all
  }

  lemma Choose(chosen: seq<Entity>, all: seq<Entity>, i: nat, n: nat)
    requires i < |all| && Ascending(all) && InText(all, n) && Selecting(chosen, all, i, n)
    requires chosen != [] ==> chosen[|chosen| - 1].end <= all[i].start
    ensures Selecting(chosen + [all[i]], all, i + 1, n)
  {
    if chosen != [] {
      DisjointEnds(chosen, n);
    }
    ChooseOne(chosen, all, i);
    ChooseKeepsShortest(chosen, all, i);
  }

  lemma PassBehind(chosen: seq<Entity>, all: seq<Entity>, i: nat, n: nat, last: nat)
    requires last < i < |all| && Ascending(all) && Selecting(chosen, all, i, n)
    requires chosen != [] && chosen[|chosen| - 1] == all[last] && all[i].start < all[last].end
    ensures Selecting(chosen, all, i + 1, n)
  {
    assert !Before(all[i], all[last]);
    PassOne(chosen, all, i, all[last]);
  }

  lemma {:induction false} SortKeepsMembers(s: seq<Entity>, n: nat)
    requires InText(s, n)
    ensures InText(Sort(s), n) && forall c :: c in Sort(s) <==> c in s
  {
    SortIsAscending(s);
    forall c
      ensures c in Sort(s) <==> c in s
    {
      assert c in Sort(s) <==> c in multiset(Sort(s));
    }
    forall i | 0 <= i < |Sort(s)|
      ensures Sort(s)[i].start < Sort(s)[i].end <= n
    {
      assert Sort(s)[i] in s;
    }
  }

  // The chosen entities are candidates, disjoint and in order, and every candidate overlaps one of
  // them (so each one not chosen had to go).
  method SelectEntities(candidates: seq<Entity>, ghost n: nat) returns (selected: seq<Entity>)
    requires InText(candidates, n)
    ensures Disjoint(selected) && InText(selected, n)
    ensures forall c :: c in selected ==> c in candidates
    ensures AllHit(selected, candidates) && Shortest(selected, candidates)
    ensures forall c :: c in candidates ==> exists d :: d in selected && d.start <= c.start < d.end
    ensures forall c, d :: c in candidates && d in selected && d.start == c.start ==> d.end <= c.end
  {
    SortIsAscending(candidates);
    SortKeepsMembers(candidates, n);
    selected := SelectSorted(Sort(candidates), n);
    forall c | c in candidates
      ensures exists d :: d in selected && d.start <= c.start < d.end
    {
      assert Hit(selected, c);
    }
  }

  method SelectSorted(all: seq<Entity>, ghost n: nat) returns (selected: seq<Entity>)
    requires Ascending(all) && InText(all, n)
    ensures Disjoint(selected) && InText(selected, n)
    ensures forall c :: c in selected ==> c in all
    ensures AllHit(selected, all) && Shortest(selected, all)
  {
    selected := [];
    var lastSelectedPos: int := -1;
    ghost var last := 0;
    for i := 0 to |all|
      invariant Selecting(selected, all, i, n)
      invariant if selected == [] then lastSelectedPos == -1 && i == 0
                else last < i && all[last] == selected[|selected| - 1] && lastSelectedPos == all[last].end
    {
      if all[i].start >= lastSelectedPos {
        Choose(selected, all, i, n);
        selected := selected + [all[i]];
        lastSelectedPos := all[i].end;
        last := i;
      } else {
        PassBehind(selected, all, i, n, last);
      }
    }
    assert all[..|all|] == all;
  }

  // ---------- The whole text ----------

  // [lo, hi) is what lies between two neighbouring chosen entities, or before or after all of them.
  ghost predicate IsFragment(chosen: seq<Entity>, n: nat, lo: nat, hi: nat) {
    && lo <= hi <= n
    && (lo == 0 || exists c :: c in chosen && c.end == lo)
    && (hi == n || exists c :: c in chosen && c.start == hi)
    && forall k :: 0 <= k < |chosen| ==> chosen[k].end <= lo || hi <= chosen[k].start
  }

  ghost predicate IsEntityToken(t: Tables, text: string, chosen: seq<Entity>, token: Token, a: nat, b: nat)
    requires b <= |text|
  {
    exists c :: c in chosen && c.start == a < b == c.end && token.kind == c.kind && token.value == text[a..b]
  }

  // A maximal run of one type in the lower-cased text between the entities.
  ghost predicate IsTextToken(t: Tables, text: string, chosen: seq<Entity>, token: Token, a: nat, b: nat)
    requires b <= |text|
  {
    && a < b && token.kind == GetRuneType(t, t.lower(text[a])) && token.value == Lower(t, text[a..b])
    && exists lo: nat, hi: nat, i: nat, j: nat ::
         IsFragment(chosen, |text|, lo, hi) && IsRun(t, Lower(t, text[lo..hi]), i, j) && a == lo + i && b == lo + j
  }

  ghost predicate IsToken(t: Tables, text: string, chosen: seq<Entity>, token: Token, a: nat, b: nat) {
    && b <= |text| && a <= |text|
    && token.startPos == Offset(t, text, a) && token.endPos == Offset(t, text, b)
    && IsPiece(t, text, chosen, token, a, b)
  }

  ghost predicate IsPiece(t: Tables, text: string, chosen: seq<Entity>, token: Token, a: nat, b: nat)
    requires b <= |text|
  {
    IsEntityToken(t, text, chosen, token, a, b) || IsTextToken(t, text, chosen, token, a, b)
  }

  ghost predicate AllTokens(t: Tables, text: string, chosen: seq<Entity>, tokens: seq<Token>, ranges: Ranges) {
    && |ranges| == |tokens|
    && forall k {:trigger IsToken(t, text, chosen, tokens[k], ranges[k].0, ranges[k].1)} :: 0 <= k < |tokens| ==>
         IsToken(t, text, chosen, tokens[k], ranges[k].0, ranges[k].1)
  }

  ghost predicate TextGaps(t: Tables, text: string, ranges: Ranges, hi: nat)
    requires hi <= |text|
  {
    forall p {:trigger Covered(ranges, p)} :: 0 <= p < hi && !Covered(ranges, p) ==>
      GetRuneType(t, t.lower(text[p])) == WHITESPACE
  }

  // The tokens cover the text up to `hi`, but for white space.
  ghost predicate Laid(t: Tables, text: string, chosen: seq<Entity>, tokens: seq<Token>, ranges: Ranges, hi: nat)
    requires hi <= |text|
  {
    AllTokens(t, text, chosen, tokens, ranges) && InOrder(ranges, 0, hi) && TextGaps(t, text, ranges, hi)
  }

  ghost function Shift(ranges: Ranges, base: nat): (r: Ranges)
    ensures |r| == |ranges|
    ensures forall k :: 0 <= k < |ranges| ==> r[k] == (base + ranges[k].0, base + ranges[k].1)
  {
    seq(|ranges|, k requires 0 <= k < |ranges| => (base + ranges[k].0, base + ranges[k].1))
  }

  lemma CoveredJoin(r: Ranges, s: Ranges, p: int)
    ensures Covered(r + s, p) <==> Covered(r, p) || Covered(s, p)
  {
    assert forall k :: 0 <= k < |r| ==> (r + s)[k] == r[k];
    assert forall k :: 0 <= k < |s| ==> (r + s)[|r| + k] == s[k];
    if k :| 0 <= k < |r + s| && (r + s)[k].0 <= p < (r + s)[k].1 {
      assert k < |r| || (r + s)[k] == s[k - |r|];
    }
  }

  lemma CoveredShift(r: Ranges, base: nat, p: int)
    ensures Covered(Shift(r, base), p) <==> Covered(r, p - base)
  {
    assert forall k :: 0 <= k < |r| ==> Shift(r, base)[k] == (base + r[k].0, base + r[k].1);
  }

  lemma {:induction false} FragmentPosition(t: Tables, text: string, lo: nat, hi: nat, i: nat, x: nat)
    requires Regular(t) && lo <= hi <= |text| && i <= hi - lo && x == lo + i
    ensures Offset(t, text, lo) + Offset(t, Lower(t, text[lo..hi]), i) == Offset(t, text, x)
  {
    OffsetOfPart(t, text, lo, hi, Lower(t, text[lo..hi]), i);
  }

  lemma FragmentValue(t: Tables, text: string, lo: nat, hi: nat, a: nat, b: nat, x: nat, y: nat)
    requires lo <= hi <= |text| && a < b <= hi - lo && x == lo + a && y == lo + b
    ensures Lower(t, text[lo..hi])[a..b] == Lower(t, text[x..y])
    ensures Lower(t, text[lo..hi])[a] == t.lower(text[x])
  {
    var l, r := Lower(t, text[lo..hi])[a..b], Lower(t, text[x..y]);
    forall i | 0 <= i < b - a
      ensures l[i] == r[i]
    {
      assert l[i] == t.lower(text[lo..hi][a + i]);
      assert r[i] == t.lower(text[x..y][i]);
    }
  }

  lemma {:induction false} FragmentFields(t: Tables, text: string, lo: nat, hi: nat, token: Token, a: nat, b: nat, x: nat, y: nat)
    requires Regular(t) && lo <= hi <= |text|
    requires IsRunToken(t, Lower(t, text[lo..hi]), Offset(t, text, lo), token, a, b)
    requires x == lo + a && y == lo + b
    ensures x < y <= |text| && token.startPos == Offset(t, text, x) && token.endPos == Offset(t, text, y)
    ensures token.kind == GetRuneType(t, t.lower(text[x])) && token.value == Lower(t, text[x..y])
  {
    FragmentPosition(t, text, lo, hi, a, x);
    FragmentPosition(t, text, lo, hi, b, y);
    FragmentValue(t, text, lo, hi, a, b, x, y);
  }

  lemma {:induction false} RunIsTextToken(t: Tables, text: string, chosen: seq<Entity>, lo: nat, hi: nat, token: Token,
                                          a: nat, b: nat, x: nat, y: nat)
    requires IsFragment(chosen, |text|, lo, hi) && IsRun(t, Lower(t, text[lo..hi]), a, b)
    requires x == lo + a && y == lo + b && x < y <= |text|
    requires token.kind == GetRuneType(t, t.lower(text[x])) && token.value == Lower(t, text[x..y])
    ensures IsTextToken(t, text, chosen, token, x, y)
  {
  }

  lemma {:induction false} FragmentToken(t: Tables, text: string, chosen: seq<Entity>, lo: nat, hi: nat, token: Token,
                                         a: nat, b: nat, x: nat, y: nat)
    requires Regular(t) && IsFragment(chosen, |text|, lo, hi)
    requires IsRunToken(t, Lower(t, text[lo..hi]), Offset(t, text, lo), token, a, b)
    requires x == lo + a && y == lo + b
    ensures IsToken(t, text, chosen, token, x, y)
  {
    FragmentFields(t, text, lo, hi, token, a, b, x, y);
    RunIsTextToken(t, text, chosen, lo, hi, token, a, b, x, y);
  }

  lemma JoinTokens(t: Tables, text: string, chosen: seq<Entity>, tokens: seq<Token>, ranges: Ranges,
                   more: seq<Token>, moreRanges: Ranges)
    requires AllTokens(t, text, chosen, tokens, ranges) && AllTokens(t, text, chosen, more, moreRanges)
    ensures AllTokens(t, text, chosen, tokens + more, ranges + moreRanges)
  {
    var ts, rs := tokens + more, ranges + moreRanges;
    forall k | 0 <= k < |ts|
      ensures IsToken(t, text, chosen, ts[k], rs[k].0, rs[k].1)
    {
      if k < |tokens| {
        assert IsToken(t, text, chosen, tokens[k], ranges[k].0, ranges[k].1);
      } else {
        var h := k - |tokens|;
        assert IsToken(t, text, chosen, more[h], moreRanges[h].0, moreRanges[h].1);
      }
    }
  }

  lemma TokenAt(t: Tables, f: string, start: nat, tokens: seq<Token>, ranges: Ranges, k: nat)
    requires RunTokens(t, f, start, tokens, ranges) && k < |tokens|
    ensures k < |ranges| && IsRunToken(t, f, start, tokens[k], ranges[k].0, ranges[k].1)
  {
  }

  lemma {:induction false} FragmentTokens(t: Tables, text: string, chosen: seq<Entity>, lo: nat, hi: nat, tokens: seq<Token>, ranges: Ranges)
    requires Regular(t) && IsFragment(chosen, |text|, lo, hi)
    requires RunTokens(t, Lower(t, text[lo..hi]), Offset(t, text, lo), tokens, ranges)
    ensures AllTokens(t, text, chosen, tokens, Shift(ranges, lo))
  {
    var s := Shift(ranges, lo);
    forall k | 0 <= k < |tokens|
      ensures IsToken(t, text, chosen, tokens[k], s[k].0, s[k].1)
    {
      TokenAt(t, Lower(t, text[lo..hi]), Offset(t, text, lo), tokens, ranges, k);
      FragmentToken(t, text, chosen, lo, hi, tokens[k], ranges[k].0, ranges[k].1, s[k].0, s[k].1);
    }
  }

  lemma JoinOrder(r: Ranges, s: Ranges, mid: nat, hi: nat)
    requires mid <= hi && InOrder(r, 0, mid) && InOrder(s, mid, hi)
    ensures InOrder(r + s, 0, hi)
  {
  }

  lemma ShiftOrder(r: Ranges, base: nat, hi: nat)
    requires InOrder(r, 0, hi)
    ensures InOrder(Shift(r, base), base, base + hi)
  {
  }

  lemma FragmentGaps(t: Tables, text: string, lo: nat, hi: nat, ranges: Ranges, fragment: Ranges)
    requires lo <= hi <= |text| && TextGaps(t, text, ranges, lo)
    requires Gaps(t, Lower(t, text[lo..hi]), fragment, 0, hi - lo)
    ensures TextGaps(t, text, ranges + Shift(fragment, lo), hi)
  {
    var all := ranges + Shift(fragment, lo);
    forall p | 0 <= p < hi && !Covered(all, p)
      ensures GetRuneType(t, t.lower(text[p])) == WHITESPACE
    {
      CoveredJoin(ranges, Shift(fragment, lo), p);
      CoveredShift(fragment, lo, p);
      if p >= lo {
        assert !Covered(fragment, p - lo);
        assert Lower(t, text[lo..hi])[p - lo] == t.lower(text[p]);
      } else {
        assert !Covered(ranges, p);
      }
    }
  }

  lemma {:induction false} AppendFragment(t: Tables, text: string, chosen: seq<Entity>, tokens: seq<Token>, ranges: Ranges,
                       lo: nat, hi: nat, more: seq<Token>, moreRanges: Ranges)
    requires Regular(t) && IsFragment(chosen, |text|, lo, hi)
    requires Laid(t, text, chosen, tokens, ranges, lo)
    requires RunsOf(t, Lower(t, text[lo..hi]), Offset(t, text, lo), more, moreRanges, hi - lo)
    ensures Laid(t, text, chosen, tokens + more, ranges + Shift(moreRanges, lo), hi)
  {
    FragmentTokens(t, text, chosen, lo, hi, more, moreRanges);
    JoinTokens(t, text, chosen, tokens, ranges, more, Shift(moreRanges, lo));
    ShiftOrder(moreRanges, lo, hi - lo);
    JoinOrder(ranges, Shift(moreRanges, lo), lo, hi);
    FragmentGaps(t, text, lo, hi, ranges, moreRanges);
  }

  function EntityToken(t: Tables, text: string, c: Entity): Token
    requires c.start <= c.end <= |text|
  {
    Token(c.kind, text[c.start..c.end], Offset(t, text, c.start), Offset(t, text, c.end))
  }

  lemma EntityGaps(t: Tables, text: string, ranges: Ranges, lo: nat, hi: nat)
    requires lo <= hi <= |text| && TextGaps(t, text, ranges, lo)
    ensures TextGaps(t, text, ranges + [(lo, hi)], hi)
  {
    forall p | 0 <= p < hi && !Covered(ranges + [(lo, hi)], p)
      ensures GetRuneType(t, t.lower(text[p])) == WHITESPACE
    {
      CoveredStep(ranges, (lo, hi), p);
    }
  }

  lemma AppendEntity(t: Tables, text: string, chosen: seq<Entity>, tokens: seq<Token>, ranges: Ranges, c: Entity)
    requires c in chosen && c.start < c.end <= |text|
    requires Laid(t, text, chosen, tokens, ranges, c.start)
    ensures Laid(t, text, chosen, tokens + [EntityToken(t, text, c)], ranges + [(c.start, c.end)], c.end)
  {
    assert IsEntityToken(t, text, chosen, EntityToken(t, text, c), c.start, c.end);
    JoinTokens(t, text, chosen, tokens, ranges, [EntityToken(t, text, c)], [(c.start, c.end)]);
    JoinOrder(ranges, [(c.start, c.end)], c.start, c.end);
    EntityGaps(t, text, ranges, c.start, c.end);
  }

  // Tokenizes the text up to the next entity, or to its end.
  method UpTo(t: Tables, text: string, ghost chosen: seq<Entity>, tokens: seq<Token>, ghost ranges: Ranges, lo: nat, hi: nat)
    returns (out: seq<Token>, ghost outRanges: Ranges)
    requires Regular(t) && IsFragment(chosen, |text|, lo, hi) && Laid(t, text, chosen, tokens, ranges, lo)
    ensures Laid(t, text, chosen, out, outRanges, hi) && ranges <= outRanges
  {
    out, outRanges := tokens, ranges;
    if hi > lo {
      var stdTokens, stdRanges := FragmentTokenize(t, text[lo..hi], Offset(t, text, lo));
      AppendFragment(t, text, chosen, tokens, ranges, lo, hi, stdTokens, stdRanges);
      out, outRanges := out + stdTokens, outRanges + Shift(stdRanges, lo);
    }
  }

  // One turn of the loop over the entities.
  method UpToEntity(t: Tables, text: string, chosen: seq<Entity>, i: nat, tokens: seq<Token>, ghost ranges: Ranges, lo: nat)
    returns (out: seq<Token>, ghost outRanges: Ranges)
    requires Regular(t) && Disjoint(chosen) && InText(chosen, |text|) && i < |chosen|
    requires lo == EndBefore(chosen, i) <= |text|
    requires Laid(t, text, chosen, tokens, ranges, lo) && Placed(chosen[..i], ranges)
    ensures chosen[i].end <= |text| && Laid(t, text, chosen, out, outRanges, chosen[i].end)
    ensures Placed(chosen[..i + 1], outRanges)
  {
    NextFragment(chosen, |text|, i);
    out, outRanges := AddEntity(t, text, chosen, tokens, ranges, lo, chosen[i]);
    StaysPlaced(chosen, i, ranges, outRanges);
  }

  method AddEntity(t: Tables, text: string, ghost chosen: seq<Entity>, tokens: seq<Token>, ghost ranges: Ranges, lo: nat, c: Entity)
    returns (out: seq<Token>, ghost outRanges: Ranges)
    requires Regular(t) && c in chosen && c.start < c.end <= |text|
    requires IsFragment(chosen, |text|, lo, c.start) && Laid(t, text, chosen, tokens, ranges, lo)
    ensures Laid(t, text, chosen, out, outRanges, c.end)
    ensures ranges <= outRanges && (c.start, c.end) in outRanges
  {
    out, outRanges := UpTo(t, text, chosen, tokens, ranges, lo, c.start);
    AppendEntity(t, text, chosen, out, outRanges, c);
    out, outRanges := out + [EntityToken(t, text, c)], outRanges + [(c.start, c.end)];
    assert outRanges[|outRanges| - 1] == (c.start, c.end);
  }

  // Each of these entities has its token.
  ghost predicate Placed(chosen: seq<Entity>, ranges: Ranges) {
    forall k :: 0 <= k < |chosen| ==> (chosen[k].start, chosen[k].end) in ranges
  }

  lemma StaysPlaced(chosen: seq<Entity>, i: nat, ranges: Ranges, more: Ranges)
    requires i < |chosen| && Placed(chosen[..i], ranges) && ranges <= more
    requires (chosen[i].start, chosen[i].end) in more
    ensures Placed(chosen[..i + 1], more)
  {
    forall k | 0 <= k < i
      ensures (chosen[k].start, chosen[k].end) in more
    {
      assert chosen[..i][k] == chosen[k];
    }
  }

  // The tokens partition the text: in order, disjoint, each an entity or a maximal run between
  // entities, with only white space left over.
  method EntityTokenize(t: Tables, text: string, candidates: seq<Entity>)
    returns (tokens: seq<Token>, ghost ranges: Ranges, chosen: seq<Entity>)
    requires Regular(t) && InText(candidates, |text|)
    ensures Disjoint(chosen) && AllHit(chosen, candidates) && Shortest(chosen, candidates)
    ensures forall c :: c in chosen ==> c in candidates
    ensures Laid(t, text, chosen, tokens, ranges, |text|)
    ensures Placed(chosen, ranges)
  {
    chosen := SelectEntities(candidates, |text|);
    tokens, ranges := FromEntities(t, text, chosen);
  }

  method FromEntities(t: Tables, text: string, chosen: seq<Entity>) returns (tokens: seq<Token>, ghost ranges: Ranges)
    requires Regular(t) && Disjoint(chosen) && InText(chosen, |text|)
    ensures Laid(t, text, chosen, tokens, ranges, |text|)
    ensures Placed(chosen, ranges)
  {
    tokens, ranges := [], [];
    var currentTextPos := 0;
    for i := 0 to |chosen|
      invariant currentTextPos == EndBefore(chosen, i) <= |text|
      invariant Laid(t, text, chosen, tokens, ranges, currentTextPos)
      invariant Placed(chosen[..i], ranges)
    {
      tokens, ranges := UpToEntity(t, text, chosen, i, tokens, ranges, currentTextPos);
      currentTextPos := chosen[i].end;
    }
    assert chosen[..|chosen|] == chosen;
    tokens, ranges := UpToTheEnd(t, text, chosen, tokens, ranges, currentTextPos);
  }

  method UpToTheEnd(t: Tables, text: string, chosen: seq<Entity>, tokens: seq<Token>, ghost ranges: Ranges, lo: nat)
    returns (out: seq<Token>, ghost outRanges: Ranges)
    requires Regular(t) && Disjoint(chosen) && InText(chosen, |text|) && lo == EndBefore(chosen, |chosen|) <= |text|
    requires Laid(t, text, chosen, tokens, ranges, lo) && Placed(chosen, ranges)
    ensures Laid(t, text, chosen, out, outRanges, |text|) && Placed(chosen, outRanges)
  {
    NextFragment(chosen, |text|, |chosen|);
    out, outRanges := UpTo(t, text, chosen, tokens, ranges, lo, |text|);
  }

  // Where the text after the first `i` entities begins.
  function EndBefore(chosen: seq<Entity>, i: nat): nat
    requires i <= |chosen|
  {
    if i == 0 then 0 else chosen[i - 1].end
  }

  lemma NextFragment(chosen: seq<Entity>, n: nat, i: nat)
    requires Disjoint(chosen) && InText(chosen, n) && i <= |chosen|
    ensures IsFragment(chosen, n, EndBefore(chosen, i), if i == |chosen| then n else chosen[i].start)
  {
    assert i > 0 ==> chosen[i - 1] in chosen;
    assert i < |chosen| ==> chosen[i] in chosen;
  }

  // ---------- Nothing is lost ----------

  // Tokens and the gaps between them put together again, in lower case.
  ghost function Woven(t: Tables, text: string, tokens: seq<Token>, ranges: Ranges, from: nat): string
    requires |tokens| == |ranges| && from <= |text| && InOrder(ranges, from, |text|)
    decreases |tokens|
  {
    if tokens == [] then Lower(t, text[from..])
    else
      Lower(t, text[from..ranges[0].0]) + Lower(t, tokens[0].value) + Woven(t, text, tokens[1..], ranges[1..], ranges[0].1)
  }

  ghost predicate SameText(t: Tables, text: string, token: Token, a: nat, b: nat)
    requires a <= b <= |text|
  {
    Lower(t, token.value) == Lower(t, text[a..b])
  }

  lemma LowerJoin(t: Tables, x: string, y: string)
    ensures Lower(t, x + y) == Lower(t, x) + Lower(t, y)
  {
  }

  lemma {:induction false} WovenIsText(t: Tables, text: string, tokens: seq<Token>, ranges: Ranges, from: nat)
    requires |tokens| == |ranges| && from <= |text| && InOrder(ranges, from, |text|)
    requires forall k :: 0 <= k < |tokens| ==> SameText(t, text, tokens[k], ranges[k].0, ranges[k].1)
    ensures Woven(t, text, tokens, ranges, from) == Lower(t, text[from..])
    decreases |tokens|
  {
    if tokens != [] {
      var (a, b) := ranges[0];
      assert SameText(t, text, tokens[0], a, b);
      forall k | 0 <= k < |tokens| - 1
        ensures SameText(t, text, tokens[1..][k], ranges[1..][k].0, ranges[1..][k].1)
      {
        assert SameText(t, text, tokens[k + 1], ranges[k + 1].0, ranges[k + 1].1);
      }
      WovenIsText(t, text, tokens[1..], ranges[1..], b);
      LowerJoin(t, text[from..a], text[a..b]);
      LowerJoin(t, text[from..b], text[b..]);
      assert text[from..a] + text[a..b] == text[from..b];
      assert text[from..b] + text[b..] == text[from..];
    }
  }

  lemma {:induction false} TokenHasText(t: Tables, text: string, chosen: seq<Entity>, token: Token, a: nat, b: nat)
    requires Regular(t) && a <= b <= |text| && IsToken(t, text, chosen, token, a, b)
    ensures SameText(t, text, token, a, b)
    ensures token.endPos - token.startPos == Offset(t, token.value, |token.value|)
  {
    OffsetOfPart(t, text, a, b, token.value, b - a);
  }

  // The tokens and the gaps, which are white space, make up the whole text, up to case; and each
  // token is as long as its positions say.
  lemma {:induction false} TokensRebuildText(t: Tables, text: string, chosen: seq<Entity>, tokens: seq<Token>, ranges: Ranges)
    requires Regular(t) && Laid(t, text, chosen, tokens, ranges, |text|)
    ensures Woven(t, text, tokens, ranges, 0) == Lower(t, text)
    ensures forall k :: 0 <= k < |tokens| ==>
      tokens[k].endPos - tokens[k].startPos == Offset(t, tokens[k].value, |tokens[k].value|)
  {
    forall k | 0 <= k < |tokens|
      ensures SameText(t, text, tokens[k], ranges[k].0, ranges[k].1)
      ensures tokens[k].endPos - tokens[k].startPos == Offset(t, tokens[k].value, |tokens[k].value|)
    {
      assert IsToken(t, text, chosen, tokens[k], ranges[k].0, ranges[k].1);
      TokenHasText(t, text, chosen, tokens[k], ranges[k].0, ranges[k].1);
    }
    WovenIsText(t, text, tokens, ranges, 0);
    assert text[0..] == text;
  }
}
