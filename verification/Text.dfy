/**
 Text as the control plane reads it: whitespace-separated words, lines that keep
 their newline, and substring search, with the facts the config rewrites and the
 marker parser rest on.
 */
module Text {
  datatype Option<+T> = None | Some(value: T)

  // ── whitespace and words ────────────────────────────────────────────

  /** The Unicode `White_Space` property, which is what Rust's `char::is_whitespace` tests. */
  predicate IsSpace(c: char) {
    || '\t' <= c <= '\r'
    || c == ' '
    || c == '\U{0085}'
    || c == '\U{00A0}'
    || c == '\U{1680}'
    || '\U{2000}' <= c <= '\U{200A}'
    || c == '\U{2028}'
    || c == '\U{2029}'
    || c == '\U{202F}'
    || c == '\U{205F}'
    || c == '\U{3000}'
  }

  predicate AllSpace(s: string) {
    forall i | 0 <= i < |s| :: IsSpace(s[i])
  }

  predicate NoSpace(s: string) {
    forall i | 0 <= i < |s| :: !IsSpace(s[i])
  }

  predicate IsWord(s: string) {
    s != [] && NoSpace(s)
  }

  /** How many whitespace characters `s` starts with. */
  function SpaceLen(s: string): (n: nat)
    ensures n <= |s|
    ensures forall i | 0 <= i < n :: IsSpace(s[i])
    ensures n < |s| ==> !IsSpace(s[n])
  {
    if s == [] || !IsSpace(s[0]) then 0 else SpaceLen(s[1..]) + 1
  }

  /** How many non-whitespace characters `s` starts with. */
  function WordLen(s: string): (n: nat)
    ensures n <= |s|
    ensures forall i | 0 <= i < n :: !IsSpace(s[i])
    ensures n < |s| ==> IsSpace(s[n])
    ensures s != [] && !IsSpace(s[0]) ==> n > 0
  {
    if s == [] || IsSpace(s[0]) then 0 else WordLen(s[1..]) + 1
  }

  /** `str::split_whitespace`. */
  function Words(s: string): seq<string>
    decreases |s|
  {
    if s == [] then []
    else if IsSpace(s[0]) then Words(s[1..])
    else
      var n := WordLen(s);
      [s[..n]] + Words(s[n..])
  }

  lemma WordLenOf(w: string, rest: string)
    requires NoSpace(w)
    requires rest != [] ==> IsSpace(rest[0])
    ensures WordLen(w + rest) == |w|
  {
    var s := w + rest;
    assert forall i | 0 <= i < |w| :: s[i] == w[i];
    assert rest != [] ==> s[|w|] == rest[0];
  }

  lemma SpaceLenOf(ind: string, rest: string)
    requires AllSpace(ind)
    requires rest != [] ==> !IsSpace(rest[0])
    ensures SpaceLen(ind + rest) == |ind|
  {
    var s := ind + rest;
    assert forall i | 0 <= i < |ind| :: s[i] == ind[i];
    assert rest != [] ==> s[|ind|] == rest[0];
  }

  lemma {:induction false} WordsAfterSpace(ind: string, rest: string)
    requires AllSpace(ind)
    ensures Words(ind + rest) == Words(rest)
  {
    if ind == [] {
      assert ind + rest == rest;
    } else {
      assert (ind + rest)[1..] == ind[1..] + rest;
      WordsAfterSpace(ind[1..], rest);
    }
  }

  lemma WordsOfWordThen(w: string, rest: string)
    requires IsWord(w)
    requires rest != [] ==> IsSpace(rest[0])
    ensures Words(w + rest) == [w] + Words(rest)
  {
    WordLenOf(w, rest);
    assert (w + rest)[0] == w[0];
    assert (w + rest)[..|w|] == w;
    assert (w + rest)[|w|..] == rest;
  }

  lemma WordsOfWord(w: string)
    requires IsWord(w)
    ensures Words(w) == [w]
  {
    WordsOfWordThen(w, "");
    assert w + "" == w;
  }

  lemma WordsOfWordSpace(w: string, rest: string)
    requires IsWord(w)
    ensures Words(w + " " + rest) == [w] + Words(rest)
  {
    assert w + " " + rest == w + (" " + rest);
    WordsOfWordThen(w, " " + rest);
    WordsAfterSpace(" ", rest);
  }

  lemma WordsOfTwo(a: string, b: string)
    requires IsWord(a) && IsWord(b)
    ensures Words(a + " " + b) == [a, b]
  {
    WordsOfWord(b);
    WordsOfWordSpace(a, b);
  }

  lemma WordsOfThree(a: string, b: string, c: string)
    requires IsWord(a) && IsWord(b) && IsWord(c)
    ensures Words(a + " " + b + " " + c) == [a, b, c]
  {
    WordsOfTwo(b, c);
    var tail := b + " " + c;
    assert a + " " + b + " " + c == a + " " + tail;
    WordsOfWordSpace(a, tail);
  }

  /** A text with a word is its indent, that word, and a rest that starts with whitespace. */
  lemma FirstWord(s: string) returns (indent: string, w: string, rest: string)
    requires Words(s) != []
    ensures s == indent + w + rest
    ensures indent == s[..SpaceLen(s)] && AllSpace(indent)
    ensures IsWord(w)
    ensures rest != [] ==> IsSpace(rest[0])
    ensures Words(s) == [w] + Words(rest)
  {
    BlankHasNoWords(s);
    indent, w, rest := SplitFirst(s, SpaceLen(s), WordLen(s[SpaceLen(s)..]));
    WordsOfParts(indent, w, rest);
  }

  lemma BlankHasNoWords(s: string)
    ensures Words(s) != [] ==> SpaceLen(s) < |s|
  {
    if SpaceLen(s) == |s| {
      WordsAfterSpace(s, "");
      assert s + "" == s;
    }
  }

  lemma WordsOfParts(indent: string, w: string, rest: string)
    requires AllSpace(indent) && IsWord(w) && (rest != [] ==> IsSpace(rest[0]))
    ensures Words(indent + w + rest) == [w] + Words(rest)
  {
    assert indent + w + rest == indent + (w + rest);
    WordsAfterSpace(indent, w + rest);
    WordsOfWordThen(w, rest);
  }

  lemma SplitFirst(s: string, a: nat, n: nat) returns (indent: string, w: string, rest: string)
    requires a < |s| && n <= |s| - a
    requires forall i | 0 <= i < a :: IsSpace(s[i])
    requires !IsSpace(s[a])
    requires forall i | 0 <= i < n :: !IsSpace(s[a..][i])
    requires n < |s| - a ==> IsSpace(s[a..][n])
    ensures s == indent + w + rest
    ensures indent == s[..a] && AllSpace(indent)
    ensures IsWord(w)
    ensures rest != [] ==> IsSpace(rest[0])
  {
    indent, w, rest := s[..a], s[a..][..n], s[a..][n..];
    assert s[a..] == w + rest;
    assert n > 0 by { assert s[a..][0] == s[a]; }
  }

  /** Text put after a first word leaves it a prefix of the new first word, and whitespace leaves it alone. */
  lemma FirstWordGrows(indent: string, w: string, rest: string)
    requires AllSpace(indent) && IsWord(w)
    ensures Words(indent + w + rest) != []
    ensures w <= Words(indent + w + rest)[0]
    ensures Words(indent + w + rest)[0] == w <==> rest == [] || IsSpace(rest[0])
  {
    assert indent + w + rest == indent + (w + rest);
    WordsAfterSpace(indent, w + rest);
    WordGrows(w, rest);
  }

  lemma WordGrows(w: string, rest: string)
    requires IsWord(w)
    ensures Words(w + rest) != [] && w <= Words(w + rest)[0]
    ensures Words(w + rest)[0] == w <==> rest == [] || IsSpace(rest[0])
  {
    var s := w + rest;
    assert forall i | 0 <= i < |w| :: s[i] == w[i];
    assert w <= s[..WordLen(s)];
    assert rest != [] ==> s[|w|] == rest[0];
    if rest == [] || IsSpace(rest[0]) {
      WordLenOf(w, rest);
      assert s[..|w|] == w;
    } else {
      assert WordLen(s) > |w|;
    }
  }

  // ── ASCII case ──────────────────────────────────────────────────────

  function LowerChar(c: char): char {
    if 'A' <= c <= 'Z' then c - 'A' + 'a' else c
  }

  /** `str::eq_ignore_ascii_case`. */
  predicate SameIgnoringCase(a: string, b: string) {
    |a| == |b| && forall i | 0 <= i < |a| :: LowerChar(a[i]) == LowerChar(b[i])
  }

  /** Two texts whose first letters differ are different words, however they continue. */
  lemma PrefixDiffers(a: string, longer: string, other: string)
    requires a != [] && a <= longer
    requires other != [] && LowerChar(a[0]) != LowerChar(other[0])
    ensures !SameIgnoringCase(longer, other)
  {
    assert longer[0] == a[0];
  }

  /** The word with each letter in either case. */
  predicate Spells(word: string, lower: string, upper: string) {
    |word| == |lower| == |upper| && forall i | 0 <= i < |word| :: word[i] == lower[i] || word[i] == upper[i]
  }

  predicate IsCaseOf(name: char, lower: char, upper: char) {
    || ('a' <= lower <= 'z' && 'A' <= upper <= 'Z' && lower - 'a' == upper - 'A' && (name == lower || name == upper))
    || (name == lower && name == upper && !('a' <= name <= 'z') && !('A' <= name <= 'Z'))
  }

  lemma SpellsName(word: string, name: string, lower: string, upper: string)
    requires |name| == |lower| == |upper|
    requires forall i | 0 <= i < |name| :: IsCaseOf(name[i], lower[i], upper[i])
    ensures SameIgnoringCase(word, name) <==> Spells(word, lower, upper)
  {
    if |word| == |name| {
      forall i | 0 <= i < |word|
        ensures LowerChar(word[i]) == LowerChar(name[i]) <==> word[i] == lower[i] || word[i] == upper[i]
      {
        assert IsCaseOf(name[i], lower[i], upper[i]);
      }
    }
  }

  // ── lines that keep their newline ───────────────────────────────────

  predicate Terminated(line: string) {
    line != [] && line[|line| - 1] == '\n'
  }

  /** One piece of `str::split_inclusive('\n')`: not empty, a newline only at its end. */
  predicate IsLine(line: string) {
    line != [] && forall i | 0 <= i < |line| - 1 :: line[i] != '\n'
  }

  predicate AreLines(ls: seq<string>) {
    && (forall i | 0 <= i < |ls| :: IsLine(ls[i]))
    && (forall i | 0 <= i < |ls| - 1 :: Terminated(ls[i]))
  }

  function LineLen(s: string): (n: nat)
    requires s != []
    ensures 0 < n <= |s|
    ensures forall i | 0 <= i < n - 1 :: s[i] != '\n'
    ensures n < |s| ==> s[n - 1] == '\n'
  {
    if s[0] == '\n' || |s| == 1 then 1 else LineLen(s[1..]) + 1
  }

  /** `str::split_inclusive('\n')`. */
  function Lines(s: string): (ls: seq<string>)
    decreases |s|
  {
    if s == [] then []
    else
      var n := LineLen(s);
      [s[..n]] + Lines(s[n..])
  }

  function Join(ls: seq<string>): string {
    if ls == [] then [] else ls[0] + Join(ls[1..])
  }

  lemma {:induction false} LinesRebuild(s: string)
    ensures Join(Lines(s)) == s
    ensures AreLines(Lines(s))
    decreases |s|
  {
    if s != [] {
      var n := LineLen(s);
      LinesRebuild(s[n..]);
      FirstLineOf(s, n);
      AreLinesAppend([s[..n]], Lines(s[n..]));
      JoinCons(s[..n], Lines(s[n..]));
    }
  }

  lemma FirstLineOf(s: string, n: nat)
    requires s != [] && n == LineLen(s)
    ensures IsLine(s[..n]) && s == s[..n] + s[n..]
    ensures s[n..] != [] ==> Terminated(s[..n])
  {
  }

  lemma JoinCons(line: string, ls: seq<string>)
    ensures Join([line] + ls) == line + Join(ls)
  {
    assert ([line] + ls)[1..] == ls;
  }

  lemma AreLinesAppend(a: seq<string>, b: seq<string>)
    requires AreLines(a) && AreLines(b)
    requires a != [] && b != [] ==> Terminated(a[|a| - 1])
    ensures AreLines(a + b)
  {
    var ls := a + b;
    assert forall i | 0 <= i < |a| :: ls[i] == a[i];
    assert forall i | |a| <= i < |ls| :: ls[i] == b[i - |a|];
  }

  lemma LineLenOf(line: string, rest: string)
    requires IsLine(line)
    requires rest != [] ==> Terminated(line)
    ensures LineLen(line + rest) == |line|
  {
    var s := line + rest;
    assert forall i | 0 <= i < |line| :: s[i] == line[i];
  }

  lemma {:induction false} LinesOfJoin(ls: seq<string>)
    requires AreLines(ls)
    ensures Lines(Join(ls)) == ls
  {
    if ls != [] {
      var rest := Join(ls[1..]);
      if |ls| > 1 {
        assert Terminated(ls[0]);
      } else {
        assert rest == [];
      }
      LineLenOf(ls[0], rest);
      LinesOfJoin(ls[1..]);
      assert (ls[0] + rest)[..|ls[0]|] == ls[0];
      assert (ls[0] + rest)[|ls[0]|..] == rest;
      assert ls == [ls[0]] + ls[1..];
    }
  }

  lemma {:induction false} JoinAppend(a: seq<string>, b: seq<string>)
    ensures Join(a + b) == Join(a) + Join(b)
  {
    if a == [] {
      assert a + b == b;
    } else {
      assert (a + b)[1..] == a[1..] + b;
      JoinAppend(a[1..], b);
    }
  }

  lemma JoinSnoc(a: seq<string>, line: string)
    ensures Join(a + [line]) == Join(a) + line
  {
    JoinAppend(a, [line]);
    assert Join([line]) == line + Join([]) == line;
  }

  /** Cutting a text at a newline cuts its lines. */
  lemma LinesAppend(a: string, b: string)
    requires a == [] || Terminated(a)
    ensures Lines(a + b) == Lines(a) + Lines(b)
  {
    LinesRebuild(a);
    LinesRebuild(b);
    JoinAppend(Lines(a), Lines(b));
    if a != [] {
      LastLineTerminated(a);
    }
    AreLinesAppend(Lines(a), Lines(b));
    LinesOfJoin(Lines(a) + Lines(b));
  }

  lemma {:induction false} LastLineTerminated(a: string)
    requires a != []
    ensures Lines(a) != []
    ensures Terminated(Lines(a)[|Lines(a)| - 1]) <==> Terminated(a)
    decreases |a|
  {
    var n := LineLen(a);
    if n < |a| {
      LastLineTerminated(a[n..]);
      assert Lines(a)[|Lines(a)| - 1] == Lines(a[n..])[|Lines(a[n..])| - 1];
    } else {
      assert a[..n] == a;
    }
  }

  // ── line by line ────────────────────────────────────────────────────

  predicate AnyLine(ls: seq<string>, p: string -> bool) {
    exists i | 0 <= i < |ls| :: p(ls[i])
  }

  /** The first line that satisfies `p`. */
  function FirstLine(ls: seq<string>, p: string -> bool): (r: Option<nat>)
    ensures r.Some? ==> r.value < |ls| && p(ls[r.value]) && forall i | 0 <= i < r.value :: !p(ls[i])
    ensures r.None? <==> !AnyLine(ls, p)
  {
    if ls == [] then None
    else if p(ls[0]) then Some(0)
    else
      var r := FirstLine(ls[1..], p);
      assert r.None? ==> forall i | 0 < i < |ls| :: ls[i] == ls[1..][i - 1];
      if r.None? then None else Some(r.value + 1)
  }

  function MapLines(ls: seq<string>, f: string -> string): (out: seq<string>)
    ensures |out| == |ls|
    ensures forall i | 0 <= i < |ls| :: out[i] == f(ls[i])
  {
    if ls == [] then [] else [f(ls[0])] + MapLines(ls[1..], f)
  }

  lemma AnyLinePush(ls: seq<string>, i: nat, p: string -> bool)
    requires i < |ls|
    ensures AnyLine(ls[..i + 1], p) <==> AnyLine(ls[..i], p) || p(ls[i])
  {
    var before, after := ls[..i], ls[..i + 1];
    assert forall j | 0 <= j < i :: after[j] == before[j];
    assert after[i] == ls[i];
  }

  lemma AnyLineAppend(a: seq<string>, b: seq<string>, p: string -> bool)
    ensures AnyLine(a + b, p) <==> AnyLine(a, p) || AnyLine(b, p)
  {
    var ls := a + b;
    assert forall i | 0 <= i < |a| :: ls[i] == a[i];
    assert forall i | 0 <= i < |b| :: ls[|a| + i] == b[i];
  }

  lemma MapLinesPush(ls: seq<string>, i: nat, f: string -> string)
    requires i < |ls|
    ensures Join(MapLines(ls[..i + 1], f)) == Join(MapLines(ls[..i], f)) + f(ls[i])
  {
    assert MapLines(ls[..i + 1], f) == MapLines(ls[..i], f) + [f(ls[i])];
    JoinSnoc(MapLines(ls[..i], f), f(ls[i]));
  }

  /** A map that keeps each line a line keeps the text's lines. */
  lemma MapLinesOfText(s: string, f: string -> string)
    requires forall line | IsLine(line) :: IsLine(f(line)) && (Terminated(f(line)) <==> Terminated(line))
    ensures Lines(Join(MapLines(Lines(s), f))) == MapLines(Lines(s), f)
  {
    LinesRebuild(s);
    LinesOfJoin(MapLines(Lines(s), f));
  }

  // ── substrings ──────────────────────────────────────────────────────

  predicate At(s: string, p: string, i: nat) {
    i + |p| <= |s| && s[i..i + |p|] == p
  }

  predicate Contains(s: string, p: string) {
    exists i | 0 <= i <= |s| :: At(s, p, i)
  }

  /** `str::find`: the first place `p` occurs in `s`. */
  function Find(s: string, p: string): (r: Option<nat>)
    ensures r.Some? ==> At(s, p, r.value) && forall j | 0 <= j < r.value :: !At(s, p, j)
    ensures r.None? ==> !Contains(s, p)
  {
    FindFrom(s, p, 0)
  }

  function FindFrom(s: string, p: string, i: nat): (r: Option<nat>)
    requires i <= |s| + 1
    ensures r.Some? ==> i <= r.value && At(s, p, r.value) && forall j | i <= j < r.value :: !At(s, p, j)
    ensures r.None? ==> forall j | i <= j <= |s| :: !At(s, p, j)
    decreases |s| + 1 - i
  {
    if i > |s| then None
    else if At(s, p, i) then Some(i)
    else FindFrom(s, p, i + 1)
  }

  lemma ContainsIn(a: string, p: string, b: string)
    ensures Contains(a + p + b, p)
  {
    assert (a + p + b)[|a|..|a| + |p|] == p;
    assert At(a + p + b, p, |a|);
  }

  /** A text inserted at a line boundary breaks no occurrence of a one-line pattern. */
  lemma ContainsAcrossInsert(a: string, b: string, f: string, p: string)
    requires Contains(a + b, p)
    requires a == [] || Terminated(a)
    requires '\n' !in p
    ensures Contains(a + f + b, p)
  {
    var i :| 0 <= i <= |a + b| && At(a + b, p, i);
    if i + |p| <= |a| {
      assert (a + f + b)[i..i + |p|] == (a + b)[i..i + |p|];
      assert At(a + f + b, p, i);
    } else if i >= |a| {
      var j := i + |f|;
      assert (a + f + b)[j..j + |p|] == (a + b)[i..i + |p|];
      assert At(a + f + b, p, j);
    } else {
      CharOfOccurrence(a + b, p, i, |a| - 1 - i);
      assert false;
    }
  }

  lemma CharOfOccurrence(s: string, p: string, i: nat, k: nat)
    requires At(s, p, i) && k < |p|
    ensures s[i + k] == p[k]
  {
    assert p[k] == s[i..i + |p|][k];
  }

  /** A text that lacks one of its characters does not contain a pattern. */
  lemma LacksChar(s: string, p: string, c: char)
    requires c in p && c !in s
    ensures !Contains(s, p)
  {
    var k :| 0 <= k < |p| && p[k] == c;
    forall i | 0 <= i <= |s| ensures !At(s, p, i) {
      if At(s, p, i) {
        CharOfOccurrence(s, p, i, k);
        assert false;
      }
    }
  }

  /** An occurrence of a pattern that lacks the character lies on one side of it. */
  lemma OneSide(a: string, c: char, b: string, p: string)
    requires Contains(a + [c] + b, p) && c !in p
    ensures Contains(a, p) || Contains(b, p)
  {
    var s := a + [c] + b;
    var i :| 0 <= i <= |s| && At(s, p, i);
    if i + |p| <= |a| {
      assert s[i..i + |p|] == a[i..i + |p|];
      assert At(a, p, i);
    } else if i > |a| {
      var j := i - |a| - 1;
      assert s[i..i + |p|] == b[j..j + |p|];
      assert At(b, p, j);
    } else {
      CharOfOccurrence(s, p, i, |a| - i);
      assert false;
    }
  }

  // ── trimming ────────────────────────────────────────────────────────

  function TrimStart(s: string): string {
    s[SpaceLen(s)..]
  }

  function TrimEnd(s: string): (t: string)
    ensures t <= s
    ensures t != [] ==> !IsSpace(t[|t| - 1])
    ensures AllSpace(s[|t|..])
  {
    if s == [] || !IsSpace(s[|s| - 1]) then s
    else
      var t := TrimEnd(s[..|s| - 1]);
      assert AllSpace(s[|t|..]) by {
        forall i | 0 <= i < |s| - |t| ensures IsSpace(s[|t|..][i]) {
          if i < |s| - 1 - |t| { assert s[|t|..][i] == s[..|s| - 1][|t|..][i]; }
        }
      }
      t
  }

  /** `str::trim`. */
  function Trim(s: string): string {
    TrimEnd(TrimStart(s))
  }

  // ── splitting on a separator ────────────────────────────────────────

  function FieldLen(s: string, sep: char): (n: nat)
    ensures n <= |s|
    ensures forall i | 0 <= i < n :: s[i] != sep
    ensures n < |s| ==> s[n] == sep
  {
    if s == [] || s[0] == sep then 0 else FieldLen(s[1..], sep) + 1
  }

  /** `str::split(sep)`: never empty, one field more than there are separators. */
  function Split(s: string, sep: char): (fs: seq<string>)
    ensures fs != []
    ensures forall i | 0 <= i < |fs| :: sep !in fs[i]
    decreases |s|
  {
    var n := FieldLen(s, sep);
    if n == |s| then [s] else [s[..n]] + Split(s[n + 1..], sep)
  }

  function Unsplit(fs: seq<string>, sep: char): string
    requires fs != []
  {
    if |fs| == 1 then fs[0] else fs[0] + [sep] + Unsplit(fs[1..], sep)
  }

  lemma {:induction false} UnsplitSplit(s: string, sep: char)
    ensures Unsplit(Split(s, sep), sep) == s
    decreases |s|
  {
    var n := FieldLen(s, sep);
    if n < |s| {
      UnsplitSplit(s[n + 1..], sep);
      UnsplitCons(s[..n], Split(s[n + 1..], sep), sep);
      CutAt(s, n);
    }
  }

  lemma UnsplitCons(f: string, fs: seq<string>, sep: char)
    requires fs != []
    ensures Unsplit([f] + fs, sep) == f + [sep] + Unsplit(fs, sep)
  {
    assert ([f] + fs)[1..] == fs;
  }

  lemma CutAt(s: string, n: nat)
    requires n < |s|
    ensures s == s[..n] + [s[n]] + s[n + 1..]
  {
  }

  /** Splitting two texts joined by the separator splits each. */
  lemma {:induction false} SplitAppend(a: string, b: string, sep: char)
    ensures Split(a + [sep] + b, sep) == Split(a, sep) + Split(b, sep)
    decreases |a|
  {
    var n := FieldLen(a, sep);
    if n == |a| {
      SplitFirstField(a, b, sep);
    } else {
      var first, more := a[..n], a[n + 1..];
      CutAt(a, n);
      JoinedMore(first, more, b, sep);
      SplitFirstField(first, more + [sep] + b, sep);
      SplitAppend(more, b, sep);
      assert [first] + (Split(more, sep) + Split(b, sep)) == [first] + Split(more, sep) + Split(b, sep);
    }
  }

  lemma JoinedMore(first: string, more: string, b: string, sep: char)
    ensures first + [sep] + more + [sep] + b == first + [sep] + (more + [sep] + b)
  {
  }

  lemma SplitFirstField(f: string, rest: string, sep: char)
    requires sep !in f
    ensures Split(f + [sep] + rest, sep) == [f] + Split(rest, sep)
  {
    var s := f + [sep] + rest;
    assert s == f + ([sep] + rest);
    FieldLenOf(f, [sep] + rest, sep);
    assert s[..|f|] == f && s[|f| + 1..] == rest;
  }

  lemma SplitOne(s: string, sep: char)
    ensures |Split(s, sep)| == 1 <==> sep !in s
    ensures sep !in s ==> Split(s, sep) == [s]
  {
    UnsplitSplit(s, sep);
    if sep !in s {
      FieldLenOf(s, "", sep);
      assert s + "" == s;
    }
  }

  lemma {:induction false} SplitUnsplit(fs: seq<string>, sep: char)
    requires fs != []
    requires forall i | 0 <= i < |fs| :: sep !in fs[i]
    ensures Split(Unsplit(fs, sep), sep) == fs
  {
    var s := Unsplit(fs, sep);
    FieldLenOf(fs[0], s[|fs[0]|..], sep);
    assert s == fs[0] + s[|fs[0]|..];
    if |fs| > 1 {
      SplitUnsplit(fs[1..], sep);
      assert s[|fs[0]| + 1..] == Unsplit(fs[1..], sep);
      assert s[..|fs[0]|] == fs[0];
    } else {
      assert fs == [fs[0]];
    }
  }

  lemma FieldLenOf(f: string, rest: string, sep: char)
    requires sep !in f
    requires rest != [] ==> rest[0] == sep
    ensures FieldLen(f + rest, sep) == |f|
  {
    var s := f + rest;
    assert forall i | 0 <= i < |f| :: s[i] == f[i];
    assert rest != [] ==> s[|f|] == rest[0];
  }
}
