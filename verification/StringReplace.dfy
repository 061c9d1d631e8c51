/** `replaceInString` of the profiling plugin: an in-place search-and-replace loop, and the escaping built on it. */
module StringReplace {

  predicate OccursAt(s: string, p: string, k: nat) {
    k + |p| <= |s| && forall i :: 0 <= i < |p| ==> p[i] == s[k + i]
  }

  /** `s.find(p, n)`: the first occurrence of `p` at or after `n`, or -1 for npos. */
  function Find(s: string, p: string, n: nat): (k: int)
    ensures k == -1 || (n <= k && OccursAt(s, p, k))
    decreases |s| - n
  {
    if OccursAt(s, p, n) then n
    else if n >= |s| then -1
    else Find(s, p, n + 1)
  }

  lemma {:induction false} FindIsFirst(s: string, p: string, n: nat, j: nat)
    requires n <= j && OccursAt(s, p, j)
    ensures n <= Find(s, p, n) <= j
    decreases j - n
  {
    if n < j { FindIsFirst(s, p, n + 1, j); }
  }

  /** The part of `s` from `n` on, with every leftmost, non-overlapping occurrence of `p` replaced at once. */
  function ReplacedFrom(s: string, p: string, r: string, n: nat): (text: string)
    requires p != "" && n <= |s|
    decreases |s| - n
  {
    var k := Find(s, p, n);
    if k == -1 then s[n..] else s[n..k] + r + ReplacedFrom(s, p, r, k + |p|)
  }

  function Replaced(s: string, p: string, r: string): (text: string)
    requires p != ""
  {
    ReplacedFrom(s, p, r, 0)
  }

  lemma {:induction false} OccursShift(a: string, s: string, p: string, j: nat)
    ensures OccursAt(a + s, p, |a| + j) <==> OccursAt(s, p, j)
  {
    forall i | 0 <= i < |p| && j + |p| <= |s|
      ensures p[i] == s[j + i] <==> p[i] == (a + s)[|a| + j + i]
    {
    }
  }

  /** Searching a suffix is searching the whole string from where the suffix starts. */
  lemma {:induction false} FindShift(a: string, s: string, p: string, n: nat)
    ensures var k := Find(s, p, n);
      Find(a + s, p, |a| + n) == if k == -1 then -1 else |a| + k
    decreases |s| - n
  {
    OccursShift(a, s, p, n);
    if !OccursAt(s, p, n) && n < |s| { FindShift(a, s, p, n + 1); }
  }

  /** The loop searches behind what it has already replaced; that is searching the input where it stopped. */
  lemma {:induction false} FindMoved(done: string, s: string, m: nat, p: string)
    requires m <= |s|
    ensures Find(done + s[m..], p, |done|) == if Find(s, p, m) == -1 then -1 else Find(s, p, m) - m + |done|
  {
    assert s[..m] + s[m..] == s;
    FindBehind(done, s[m..], p);
    FindBehind(s[..m], s[m..], p);
  }

  lemma {:induction false} FindBehind(a: string, s: string, p: string)
    ensures Find(a + s, p, |a|) == if Find(s, p, 0) == -1 then -1 else |a| + Find(s, p, 0)
  {
    FindShift(a, s, p, 0);
  }

  lemma {:induction false} ReplaceMiddle(done: string, s: string, m: nat, k: nat, l: nat, r: string)
    requires m <= k && k + l <= |s|
    ensures var t := done + s[m..];
      var j := |done| + (k - m);
      j + l <= |t| && t[..j] + r + t[j + l..] == (done + (s[m..k] + r)) + s[k + l..]
  {
    var t, j := done + s[m..], |done| + (k - m);
    assert t[..j] == done + s[m..k];
    assert t[j + l..] == s[k + l..];
    assert done + s[m..k] + r == done + (s[m..k] + r);
  }

  lemma {:induction false} Associate3(a: string, b: string, c: string)
    ensures a + (b + c) == (a + b) + c
  {
  }

  /** The state of the loop: the string is what is done and the untouched rest of the input, and
      finishing the rest would give the whole replacement. */
  ghost predicate Progress(input: string, p: string, r: string, all: string, s: string, done: string, m: nat)
    requires p != ""
  {
    && m <= |input| && s == done + input[m..]
    && done + ReplacedFrom(input, p, r, m) == all
  }

  lemma {:induction false} Start(input: string, p: string, r: string)
    requires p != ""
    ensures Progress(input, p, r, Replaced(input, p, r), input, "", 0)
  {
  }

  lemma {:induction false} Stop(input: string, p: string, r: string, all: string, s: string, done: string, m: nat)
    requires p != "" && Progress(input, p, r, all, s, done, m) && Find(s, p, |done|) == -1
    ensures s == all
  {
    FindMoved(done, input, m, p);
  }

  /** One replacement: `done` grows by what was skipped and the replacement, and the total stays the same. */
  lemma {:induction false} Advance(input: string, p: string, r: string, all: string, s: string, done: string, m: nat,
      k: nat)
    returns (done': string, m': nat)
    requires p != "" && Progress(input, p, r, all, s, done, m) && k == Find(s, p, |done|)
    ensures m < m' <= |input| && k + |p| <= |s| && |done'| == k + |r|
    ensures Progress(input, p, r, all, s[..k] + r + s[k + |p|..], done', m')
  {
    var at := FoundInInput(input, p, done, m, k);
    done', m' := done + (input[m..at] + r), at + |p|;
    assert s[..k] + r + s[k + |p|..] == done' + input[m'..] by {
      ReplaceMiddle(done, input, m, at, |p|, r);
    }
    assert done' + ReplacedFrom(input, p, r, m') == all by {
      UnfoldReplaced(input, p, r, m, at, done);
    }
  }

  /** Where in the input the occurrence is that the loop has found at `k`. */
  lemma {:induction false} FoundInInput(input: string, p: string, done: string, m: nat, k: nat) returns (at: nat)
    requires p != "" && m <= |input| && k == Find(done + input[m..], p, |done|)
    ensures at == Find(input, p, m) && m <= at && at + |p| <= |input| && k == |done| + (at - m)
  {
    FindMoved(done, input, m, p);
    at := Find(input, p, m);
  }

  lemma {:induction false} UnfoldReplaced(s: string, p: string, r: string, n: nat, k: nat, done: string)
    requires p != "" && n <= |s| && k == Find(s, p, n)
    ensures done + ReplacedFrom(s, p, r, n) == (done + (s[n..k] + r)) + ReplacedFrom(s, p, r, k + |p|)
  {
    ReplacedFromFound(s, p, r, n, k);
    Associate3(done, s[n..k] + r, ReplacedFrom(s, p, r, k + |p|));
  }

  lemma {:induction false} ReplacedFromFound(s: string, p: string, r: string, n: nat, k: nat)
    requires p != "" && n <= |s| && k == Find(s, p, n)
    ensures ReplacedFrom(s, p, r, n) == s[n..k] + r + ReplacedFrom(s, p, r, k + |p|)
  {
  }

  // ----- what the replacement is, without searching

  function Joined(pieces: seq<string>, between: string): (text: string)
    requires pieces != []
  {
    if |pieces| == 1 then pieces[0] else pieces[0] + (between + Joined(pieces[1..], between))
  }

  /** `p` occurs in none of its places but the last one of `piece + p`. */
  predicate FirstBehind(piece: string, p: string) {
    forall j :: 0 <= j < |piece| ==> !OccursAt(piece + p, p, j)
  }

  predicate Absent(piece: string, p: string) {
    forall j :: 0 <= j <= |piece| ==> !OccursAt(piece, p, j)
  }

  /** `s` cut at the leftmost occurrence of `p`, then at the leftmost in what is left of it, and so on. */
  predicate IsCut(pieces: seq<string>, p: string, s: string) {
    && pieces != [] && Joined(pieces, p) == s
    && (forall i :: 0 <= i < |pieces| - 1 ==> FirstBehind(pieces[i], p))
    && Absent(pieces[|pieces| - 1], p)
  }

  lemma {:induction false} NotBefore(s: string, p: string, n: nat, k: nat)
    requires n <= k && k + |p| <= |s| && Find(s, p, n) == k
    ensures FirstBehind(s[n..k], p)
  {
    OccursPart(s, p, n, k);
    var front, part, back := s[..n], s[n..k + |p|], s[k + |p|..];
    assert front + (part + back) == s;
    forall j: nat | j < k - n
      ensures !OccursAt(part, p, j)
    {
      OccursPrefix(part, back, p, j);
      OccursShift(front, part + back, p, j);
      if OccursAt(s, p, n + j) { FindIsFirst(s, p, n, n + j); }
    }
  }

  lemma {:induction false} OccursPrefix(a: string, b: string, p: string, j: nat)
    ensures OccursAt(a, p, j) ==> OccursAt(a + b, p, j)
  {
  }

  lemma {:induction false} OccursPart(s: string, p: string, n: nat, k: nat)
    requires n <= k && OccursAt(s, p, k)
    ensures s[n..k] + p == s[n..k + |p|]
  {
  }

  lemma {:induction false} NotAtAll(s: string, p: string, n: nat)
    requires n <= |s| && Find(s, p, n) == -1
    ensures Absent(s[n..], p)
  {
    assert s[..n] + s[n..] == s;
    forall j: nat | j <= |s[n..]|
      ensures !OccursAt(s[n..], p, j)
    {
      OccursShift(s[..n], s[n..], p, j);
      if OccursAt(s, p, n + j) { FindIsFirst(s, p, n, n + j); }
    }
  }

  lemma {:induction false} CutFrom(s: string, p: string, r: string, n: nat) returns (pieces: seq<string>)
    requires p != "" && n <= |s|
    ensures IsCut(pieces, p, s[n..]) && Joined(pieces, r) == ReplacedFrom(s, p, r, n)
    decreases |s| - n
  {
    var k := Find(s, p, n);
    if k == -1 {
      pieces := [s[n..]];
      NotAtAll(s, p, n);
    } else {
      var rest := CutFrom(s, p, r, k + |p|);
      NotBefore(s, p, n, k);
      OccursPart(s, p, n, k);
      assert s[n..] == s[n..k] + (p + s[k + |p|..]);
      pieces := [s[n..k]] + rest;
      OneMorePiece(s[n..k], rest, p, r, s[k + |p|..]);
      ReplacedFromFound(s, p, r, n, k);
      Associate3(s[n..k], r, ReplacedFrom(s, p, r, k + |p|));
    }
  }

  lemma {:induction false} OneMorePiece(piece: string, rest: seq<string>, p: string, r: string, tail: string)
    requires IsCut(rest, p, tail) && FirstBehind(piece, p)
    ensures IsCut([piece] + rest, p, piece + (p + tail))
    ensures Joined([piece] + rest, r) == piece + (r + Joined(rest, r))
  {
    assert ([piece] + rest)[1..] == rest;
  }

  /** Whatever the pattern: the input is cut at its leftmost occurrences that do not overlap, and joined again. */
  lemma {:induction false} ReplacedJoins(s: string, p: string, r: string) returns (pieces: seq<string>)
    requires p != ""
    ensures IsCut(pieces, p, s) && Joined(pieces, r) == Replaced(s, p, r)
  {
    pieces := CutFrom(s, p, r, 0);
    assert s[0..] == s;
  }

  /** The loop of the source; it requires a non-empty pattern, without which it never ends. */
  method ReplaceInString(characterToReplace: string, replaceWith: string, input: string) returns (inputStr: string)
    requires characterToReplace != ""
    ensures inputStr == Replaced(input, characterToReplace, replaceWith)
    ensures exists pieces :: IsCut(pieces, characterToReplace, input) && inputStr == Joined(pieces, replaceWith)
  {
    ghost var cut := ReplacedJoins(input, characterToReplace, replaceWith);
    inputStr := input;
    var n: nat := 0;
    ghost var all := Replaced(input, characterToReplace, replaceWith);
    ghost var done, m: nat := "", 0;
    Start(input, characterToReplace, replaceWith);
    while true
      invariant n == |done| && Progress(input, characterToReplace, replaceWith, all, inputStr, done, m)
      decreases |input| - m
    {
      var k := Find(inputStr, characterToReplace, n);
      if k == -1 {
        Stop(input, characterToReplace, replaceWith, all, inputStr, done, m);
        return;
      }
      done, m := Advance(input, characterToReplace, replaceWith, all, inputStr, done, m, k);
      inputStr := inputStr[..k] + replaceWith + inputStr[k + |characterToReplace|..];
      n := k + |replaceWith|;
    }
  }

  // ----- one iteration as a step, for the empty pattern

  datatype Loop = Running(n: nat, s: string) | Finished(s: string)

  function Step(p: string, r: string, st: Loop): (res: Loop) {
    match st
    case Finished(_) => st
    case Running(n, s) =>
      var k := Find(s, p, n);
      if k == -1 then Finished(s) else Running(k + |r|, s[..k] + r + s[k + |p|..])
  }

  /** The state after `fuel` iterations. */
  function Steps(p: string, r: string, st: Loop, fuel: nat): (res: Loop)
    decreases fuel
  {
    if fuel == 0 then st else Steps(p, r, Step(p, r, st), fuel - 1)
  }

  /** With an empty pattern the loop is still running after any number of iterations. */
  lemma {:induction false} EmptyPatternNeverEnds(r: string, s: string, n: nat, fuel: nat)
    requires n <= |s|
    ensures Steps("", r, Running(n, s), fuel).Running?
    decreases fuel
  {
    if fuel > 0 {
      var k := Find(s, "", n);
      EmptyPatternNeverEnds(r, s[..k] + r + s[k..], k + |r|, fuel - 1);
      assert s[k + 0..] == s[k..];
    }
  }

  /** With a non-empty pattern it has finished after at most one iteration more than the input has characters. */
  lemma {:induction false} NonEmptyPatternEnds(p: string, r: string, st: Loop, fuel: nat)
    requires p != "" && (st.Running? ==> st.n <= |st.s| && fuel > |st.s| - st.n)
    ensures Steps(p, r, st, fuel).Finished?
    decreases fuel
  {
    if fuel > 0 { NonEmptyPatternEnds(p, r, Step(p, r, st), fuel - 1); }
  }

  // ----- one-character patterns are a substitution, character by character

  function Substituted(s: string, f: char -> string): (text: string) {
    if s == "" then "" else f(s[0]) + Substituted(s[1..], f)
  }

  /** The substitution that turns `c` into `r` and keeps every other character. */
  function Only(c: char, r: string): (res: char -> string) {
    x => if x == c then r else [x]
  }

  lemma {:induction false} SubstitutedAppend(a: string, b: string, f: char -> string)
    ensures Substituted(a + b, f) == Substituted(a, f) + Substituted(b, f)
  {
    if a == "" {
      assert a + b == b;
    } else {
      SubstitutedAppend(a[1..], b, f);
      assert (a + b)[0] == a[0] && (a + b)[1..] == a[1..] + b;
      Associate3(f(a[0]), Substituted(a[1..], f), Substituted(b, f));
    }
  }

  lemma {:induction false} SubstitutedAbsent(s: string, c: char, r: string)
    requires c !in s
    ensures Substituted(s, Only(c, r)) == s
  {
    if s != "" { SubstitutedAbsent(s[1..], c, r); }
  }

  lemma {:induction false} OccursChar(s: string, c: char, k: nat)
    ensures OccursAt(s, [c], k) <==> k < |s| && s[k] == c
  {
    assert [c][0] == c;
    if k < |s| { assert s[k + 0] == s[k]; }
  }

  lemma {:induction false} FindChar(s: string, c: char, n: nat)
    requires n <= |s|
    ensures var k := Find(s, [c], n);
      if k == -1 then c !in s[n..] else n <= k < |s| && s[k] == c && c !in s[n..k]
  {
    var k := Find(s, [c], n);
    if k != -1 { OccursChar(s, c, k); }
    forall j: nat | n <= j < |s| && s[j] == c
      ensures k != -1 && k <= j
    {
      OccursChar(s, c, j);
      FindIsFirst(s, [c], n, j);
    }
  }

  /** A stretch without `c`, then `c`. */
  lemma {:induction false} SubstitutedStep(a: string, c: char, r: string, b: string)
    requires c !in a
    ensures Substituted(a + ([c] + b), Only(c, r)) == a + r + Substituted(b, Only(c, r))
  {
    var f := Only(c, r);
    SubstitutedAppend(a, [c] + b, f);
    SubstitutedAbsent(a, c, r);
    assert ([c] + b)[0] == c && ([c] + b)[1..] == b;
    Associate3(a, r, Substituted(b, f));
  }

  lemma {:induction false} SubstitutedAt(s: string, c: char, r: string, n: nat, k: nat)
    requires n <= k < |s| && s[k] == c && c !in s[n..k]
    ensures Substituted(s[n..], Only(c, r)) == s[n..k] + r + Substituted(s[k + 1..], Only(c, r))
  {
    assert s[n..] == s[n..k] + ([c] + s[k + 1..]);
    SubstitutedStep(s[n..k], c, r, s[k + 1..]);
  }

  lemma {:induction false} ReplacedFromIsSubstitution(s: string, c: char, r: string, n: nat)
    requires n <= |s|
    ensures ReplacedFrom(s, [c], r, n) == Substituted(s[n..], Only(c, r))
    decreases |s| - n
  {
    var k := Find(s, [c], n);
    FindChar(s, c, n);
    if k == -1 {
      SubstitutedAbsent(s[n..], c, r);
    } else {
      ReplacedFromAt(s, c, r, n);
      ReplacedFromIsSubstitution(s, c, r, k + 1);
      SubstitutedAt(s, c, r, n, k);
    }
  }

  lemma {:induction false} ReplacedFromAt(s: string, c: char, r: string, n: nat)
    requires n <= |s| && Find(s, [c], n) != -1
    ensures Find(s, [c], n) + 1 <= |s|
    ensures var k := Find(s, [c], n);
      ReplacedFrom(s, [c], r, n) == s[n..k] + r + ReplacedFrom(s, [c], r, k + 1)
  {
    assert |[c]| == 1;
    ReplacedFromFound(s, [c], r, n, Find(s, [c], n));
  }

  lemma {:induction false} ReplacedIsSubstitution(s: string, c: char, r: string)
    ensures Replaced(s, [c], r) == Substituted(s, Only(c, r))
  {
    assert s[0..] == s;
    ReplacedFromIsSubstitution(s, c, r, 0);
  }

  // ----- the two passes over a function name are one escape map

  const BACKSLASH := "\\"
  const QUOTE := "\""

  function EscapeChar(c: char): (text: string) {
    if c == '\\' then "\\\\" else if c == '"' then "\\\"" else [c]
  }

  /** A function name as the JSON text carries it. */
  function EscapedName(s: string): (text: string) {
    Replaced(Replaced(s, BACKSLASH, "\\\\"), QUOTE, "\\\"")
  }

  lemma {:induction false} TwoPassesAreOne(s: string)
    ensures EscapedName(s) == Substituted(s, EscapeChar)
  {
    ReplacedIsSubstitution(s, '\\', "\\\\");
    var once := Substituted(s, Only('\\', "\\\\"));
    ReplacedIsSubstitution(once, '"', "\\\"");
    ComposeEscapes(s);
  }

  lemma {:induction false} ComposeEscapes(s: string)
    ensures Substituted(Substituted(s, Only('\\', "\\\\")), Only('"', "\\\"")) == Substituted(s, EscapeChar)
  {
    var f, g := Only('\\', "\\\\"), Only('"', "\\\"");
    if s != "" {
      ComposeEscapes(s[1..]);
      SubstitutedAppend(f(s[0]), Substituted(s[1..], f), g);
      SubstitutedSingle(f(s[0]), g);
    }
  }

  lemma {:induction false} SubstitutedSingle(t: string, g: char -> string)
    ensures |t| == 1 ==> Substituted(t, g) == g(t[0])
    ensures |t| == 2 ==> Substituted(t, g) == g(t[0]) + g(t[1])
  {
    if |t| == 2 {
      assert t[1..][1..] == "";
      assert Substituted(t[1..], g) == g(t[1]) + "";
    }
  }

  // ----- a script path: each backslash becomes a slash, then quotes are escaped

  function EscapedPath(s: string): (text: string) {
    Replaced(Replaced(s, BACKSLASH, "/"), QUOTE, "\\\"")
  }

  function SlashChar(c: char): (text: string) {
    if c == '\\' then "/" else [c]
  }

  /** The path a reader gets back. */
  function SlashPath(s: string): (text: string) {
    Substituted(s, SlashChar)
  }

  lemma {:induction false} PathPasses(s: string)
    ensures EscapedPath(s) == Substituted(SlashPath(s), EscapeChar)
  {
    ReplacedIsSubstitution(s, '\\', "/");
    SameSubstitution(s, Only('\\', "/"), SlashChar);
    ReplacedIsSubstitution(SlashPath(s), '"', "\\\"");
    NoBackslashes(s);
    QuotesOnly(SlashPath(s));
  }

  lemma {:induction false} SameSubstitution(s: string, f: char -> string, g: char -> string)
    requires forall c :: f(c) == g(c)
    ensures Substituted(s, f) == Substituted(s, g)
  {
    if s != "" { SameSubstitution(s[1..], f, g); }
  }

  lemma {:induction false} NoBackslashes(s: string)
    ensures '\\' !in SlashPath(s)
  {
    if s != "" { NoBackslashes(s[1..]); }
  }

  lemma {:induction false} QuotesOnly(s: string)
    requires '\\' !in s
    ensures Substituted(s, Only('"', "\\\"")) == Substituted(s, EscapeChar)
  {
    if s != "" { QuotesOnly(s[1..]); }
  }
}
