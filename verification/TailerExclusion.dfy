/**
 Does the platform exclusion of src/agents.rs reach the tailers it is for? Fluent Bit
 reads a config section by section, and an Exclude_Path works for the section it
 stands in; the rewrite edits one line of the whole file. Here is when the two meet.
 */
module TailerExclusion {
  import opened Text
  import opened AgentConfig

  // ── sections ────────────────────────────────────────────────────────

  /** A section header: a line whose first word opens a bracket. */
  predicate IsHeader(line: string) {
    Words(line) != [] && "[" <= Words(line)[0]
  }

  /** No header between the two lines, nor on the later one. */
  predicate Together(ls: seq<string>, header: string -> bool, i: nat, j: nat)
    requires i < |ls| && j < |ls|
  {
    && (forall k | i < k <= j :: !header(ls[k]))
    && (forall k | j < k <= i :: !header(ls[k]))
  }

  /** Each line that satisfies `tail` has one in its section that satisfies `lists`. */
  predicate AllServed(ls: seq<string>, header: string -> bool, tail: string -> bool, lists: string -> bool) {
    forall i | 0 <= i < |ls| && tail(ls[i]) :: Served(ls, header, lists, i)
  }

  predicate Served(ls: seq<string>, header: string -> bool, lists: string -> bool, i: nat)
    requires i < |ls|
  {
    exists j | 0 <= j < |ls| :: Together(ls, header, i, j) && lists(ls[j])
  }

  /** Each line that satisfies `tail` stands in the section of line `k`. */
  predicate AllWith(ls: seq<string>, header: string -> bool, tail: string -> bool, k: nat)
    requires k < |ls|
  {
    forall i | 0 <= i < |ls| && tail(ls[i]) :: Together(ls, header, i, k)
  }

  lemma NoneServed(ls: seq<string>, header: string -> bool, tail: string -> bool, lists: string -> bool)
    requires !AnyLine(ls, lists)
    ensures AllServed(ls, header, tail, lists) <==> !AnyLine(ls, tail)
  {
  }

  lemma ServedByOne(ls: seq<string>, header: string -> bool, tail: string -> bool, lists: string -> bool, k: nat)
    requires k < |ls| && lists(ls[k])
    requires forall j | 0 <= j < |ls| && j != k :: !lists(ls[j])
    ensures AllServed(ls, header, tail, lists) <==> AllWith(ls, header, tail, k)
  {
    forall i | 0 <= i < |ls| ensures Served(ls, header, lists, i) <==> Together(ls, header, i, k) {
    }
  }

  lemma WithReplaced(ls: seq<string>, header: string -> bool, tail: string -> bool, k: nat, y: string)
    requires k < |ls| && !header(ls[k]) && !header(y) && !tail(ls[k]) && !tail(y)
    ensures AllWith(ls[k := y], header, tail, k) <==> AllWith(ls, header, tail, k)
  {
    var out := ls[k := y];
    assert forall m | 0 <= m < |ls| :: header(out[m]) == header(ls[m]);
    forall i | 0 <= i < |ls| ensures Together(out, header, i, k) <==> Together(ls, header, i, k) {
    }
  }

  lemma WithInserted(ls: seq<string>, header: string -> bool, tail: string -> bool, p: nat, x: string)
    requires p < |ls| && !header(x) && !tail(x)
    ensures var out := ls[..p + 1] + [x] + ls[p + 1..];
            AllWith(out, header, tail, p + 1) <==> AllWith(ls, header, tail, p)
  {
    var out := ls[..p + 1] + [x] + ls[p + 1..];
    if AllWith(ls, header, tail, p) {
      forall o | 0 <= o < |out| && tail(out[o]) ensures Together(out, header, o, p + 1) {
        InsertedTogether(ls, out, header, p, x, if o <= p then o else if o == p + 1 then p else o - 1);
      }
    }
    if AllWith(out, header, tail, p + 1) {
      forall i | 0 <= i < |ls| && tail(ls[i]) ensures Together(ls, header, i, p) {
        InsertedTogether(ls, out, header, p, x, i);
      }
    }
  }

  lemma InsertedTogether(ls: seq<string>, out: seq<string>, header: string -> bool, p: nat, x: string, i: nat)
    requires p < |ls| && i < |ls| && !header(x) && out == ls[..p + 1] + [x] + ls[p + 1..]
    ensures var o := if i <= p then i else i + 1;
            out[o] == ls[i] && (Together(out, header, o, p + 1) <==> Together(ls, header, i, p))
  {
    assert forall k | 0 <= k <= p :: out[k] == ls[k];
    assert forall k | p < k < |ls| :: out[k + 1] == ls[k];
    assert out[p + 1] == x;
    if i <= p {
      assert forall k | i < k <= p + 1 :: k == p + 1 || out[k] == ls[k];
    } else if Together(ls, header, i, p) {
      assert forall k | p + 1 < k <= i + 1 :: out[k] == ls[k - 1];
    }
  }

  /** The one line that lists is the replaced one, if it lists. */
  lemma ServedByReplaced(
    ls: seq<string>, header: string -> bool, tail: string -> bool, lists: string -> bool, k: nat, y: string)
    requires k < |ls| && !header(ls[k]) && !header(y) && !tail(ls[k]) && !tail(y)
    requires !AnyLine(ls, lists) && AnyLine(ls, tail)
    ensures AllServed(ls[k := y], header, tail, lists) <==> lists(y) && AllWith(ls, header, tail, k)
  {
    var out := ls[k := y];
    assert forall j | 0 <= j < |ls| && j != k :: out[j] == ls[j];
    if lists(y) {
      ServedByOne(out, header, tail, lists, k);
      WithReplaced(ls, header, tail, k, y);
    } else {
      TailsKept(ls, k, y, tail);
      NoneServed(out, header, tail, lists);
    }
  }

  lemma TailsKept(ls: seq<string>, k: nat, y: string, p: string -> bool)
    requires k < |ls| && AnyLine(ls, p) && (p(ls[k]) ==> p(y))
    ensures AnyLine(ls[k := y], p)
  {
    var i :| 0 <= i < |ls| && p(ls[i]);
    assert p(ls[k := y][i]);
  }

  /** The one line that lists is the inserted one. */
  lemma ServedByInserted(
    ls: seq<string>, header: string -> bool, tail: string -> bool, lists: string -> bool, p: nat, x: string)
    requires p < |ls| && !header(x) && !tail(x) && lists(x) && !AnyLine(ls, lists)
    ensures AllServed(ls[..p + 1] + [x] + ls[p + 1..], header, tail, lists) <==> AllWith(ls, header, tail, p)
  {
    var out := ls[..p + 1] + [x] + ls[p + 1..];
    assert forall j | 0 <= j < |out| && j != p + 1 :: out[j] == ls[if j <= p then j else j - 1];
    ServedByOne(out, header, tail, lists, p + 1);
    WithInserted(ls, header, tail, p, x);
  }

  // ── what an Exclude_Path line lists ─────────────────────────────────

  /** What follows a line's first word. */
  function ValueOf(line: string): string {
    var t := line[SpaceLen(line)..];
    t[WordLen(t)..]
  }

  predicate Delimiter(c: char) {
    c == ',' || IsSpace(c)
  }

  /** The path stands at `i` of the value as an entry of its own. */
  predicate EntryAt(value: string, path: string, i: nat) {
    && At(value, path, i)
    && (i > 0 ==> Delimiter(value[i - 1]))
    && (i + |path| < |value| ==> Delimiter(value[i + |path|]))
  }

  predicate HasEntry(value: string, path: string) {
    exists i | 0 <= i <= |value| :: EntryAt(value, path, i)
  }

  /** An Exclude_Path line that lists the platform's glob. */
  predicate Lists(line: string, ns: string) {
    IsExclude(line) && HasEntry(ValueOf(line), Exclusion(ns))
  }

  function Listing(ns: string): string -> bool {
    (line: string) => Lists(line, ns)
  }

  /** Every scoped tailer has, in its own section, an Exclude_Path that lists the glob. */
  predicate EveryTailerExcludes(conf: string, ns: string) {
    AllServed(Lines(conf), IsHeader, IsScopedTail, Listing(ns))
  }

  lemma ValueOfParts(indent: string, w: string, rest: string)
    requires AllSpace(indent) && IsWord(w) && (rest != [] ==> IsSpace(rest[0]))
    ensures ValueOf(indent + w + rest) == rest
  {
    assert indent + w + rest == indent + (w + rest);
    SpaceLenOf(indent, w + rest);
    assert (indent + (w + rest))[|indent|..] == w + rest;
    WordLenOf(w, rest);
  }

  lemma EntryBetween(before: string, path: string, after: string)
    requires before != [] ==> Delimiter(before[|before| - 1])
    requires after != [] ==> Delimiter(after[0])
    ensures HasEntry(before + path + after, path)
  {
    var v := before + path + after;
    assert v[|before|..|before| + |path|] == path;
    assert after != [] ==> v[|before| + |path|] == after[0];
    assert EntryAt(v, path, |before|);
  }

  lemma ListsContains(line: string, ns: string)
    requires Lists(line, ns)
    ensures Contains(line, Exclusion(ns))
  {
    var t := line[SpaceLen(line)..];
    var before, value := line[..SpaceLen(line)] + t[..WordLen(t)], ValueOf(line);
    assert line == before + value;
    var i :| 0 <= i <= |value| && EntryAt(value, Exclusion(ns), i);
    assert At(value, Exclusion(ns), i);
    ContainsWithin(before, value, "", Exclusion(ns));
    assert before + value + "" == line;
  }

  lemma NoneLists(ls: seq<string>, ns: string)
    requires !Contains(Join(ls), Exclusion(ns))
    ensures !AnyLine(ls, Listing(ns))
  {
    forall j | 0 <= j < |ls| ensures !Lists(ls[j], ns) {
      if Lists(ls[j], ns) {
        ListsContains(ls[j], ns);
        ContainsInJoin(ls, j, Exclusion(ns));
      }
    }
  }

  // ── the edited line ─────────────────────────────────────────────────

  /** Only the key, and at most an indent before it. */
  predicate IsBare(line: string)
    requires Words(line) != []
  {
    !(|Indent(line)| + |Words(line)[0]| < |Body(line)|)
  }

  /** A line whose first word grew from another key is no header and no Path line. */
  lemma GrownKey(line: string, grown: string, key: string)
    requires HasKey(line, key) && key != [] && LowerChar(key[0]) != '['
    requires Words(grown) != [] && Words(line)[0] <= Words(grown)[0]
    ensures !IsHeader(grown)
    ensures forall other: string | other != [] && LowerChar(other[0]) != LowerChar(key[0]) :: !HasKey(grown, other)
  {
    var w, longer := Words(line)[0], Words(grown)[0];
    assert LowerChar(w[0]) == LowerChar(key[0]);
    assert longer[0] == w[0] && LowerChar('[') == '[';
    forall other: string | other != [] && LowerChar(other[0]) != LowerChar(key[0]) ensures !HasKey(grown, other) {
      PrefixDiffers(w, longer, other);
    }
  }

  lemma ExcludeIsNoTail(line: string)
    requires IsExclude(line)
    ensures !IsHeader(line) && !IsScopedTail(line)
  {
    GrownKey(line, line, EXCLUDE_KEY);
  }

  lemma ExtendedIsNoTail(line: string, ns: string)
    requires IsExclude(line)
    ensures !IsHeader(Extended(line, Exclusion(ns))) && !IsScopedTail(Extended(line, Exclusion(ns)))
  {
    ExtendedKey(line, Exclusion(ns));
    GrownKey(line, Extended(line, Exclusion(ns)), EXCLUDE_KEY);
  }

  lemma ExtendedHasEntry(line: string, exclude: string)
    requires Words(line) != [] && !IsBare(line)
    ensures HasEntry(ValueOf(Extended(line, exclude)), exclude)
  {
    var indent, w, rest := FirstWord(line);
    var tail := BodyTail(line, indent, w, rest);
    var more := tail + ("," + exclude + Eol(line));
    ExtendedParts(line, indent, w, tail, exclude);
    assert more[0] == tail[0] == rest[0];
    ValueOfParts(indent, w, more);
    EntryBetween(tail + ",", exclude, Eol(line));
    EntryParts(tail, exclude, Eol(line));
  }

  lemma EntryParts(tail: string, exclude: string, eol: string)
    ensures tail + ("," + exclude + eol) == tail + "," + exclude + eol
  {
  }

  /** The extended line lists the glob exactly when its key was not all it had. */
  lemma ExtendedLists(line: string, ns: string)
    requires IsExclude(line)
    ensures Lists(Extended(line, Exclusion(ns)), ns) <==> !IsBare(line)
  {
    ExtendedStaysExclude(line, ns);
    if !IsBare(line) {
      ExtendedHasEntry(line, Exclusion(ns));
    }
  }

  lemma InsertedHasEntry(indent: string, key: string, exclude: string)
    requires AllSpace(indent) && IsWord(key)
    ensures HasEntry(ValueOf(indent + key + " " + exclude + "\n"), exclude)
  {
    var value := " " + exclude + "\n";
    ValueOfParts(indent, key, value);
    EntryBetween(" ", exclude, "\n");
    assert indent + key + " " + exclude + "\n" == indent + key + value;
  }

  lemma InsertedLists(line: string, ns: string)
    requires IsLine(line) && IsPath(line) && IsNamespace(ns)
    ensures var x := Inserted(line, Exclusion(ns)); Lists(x, ns) && !IsHeader(x) && !IsScopedTail(x)
  {
    InsertedLine(line, ns);
    IndentOfLine(line);
    ExcludeIsNoTail(Inserted(line, Exclusion(ns)));
    assert IsWord(EXCLUDE_KEY);
    InsertedHasEntry(Indent(line), EXCLUDE_KEY, Exclusion(ns));
  }

  /** A Path line that took the added text on the same line lists nothing. */
  lemma MergedListsNothing(line: string, x: string, ns: string)
    requires IsPath(line)
    ensures !Lists(line + x, ns)
  {
    MergedKey(line, x);
    GrownKey(line, line + x, PATH_KEY);
    assert !HasKey(line + x, EXCLUDE_KEY);
  }

  lemma MergedStaysTail(line: string, ns: string)
    requires IsScopedTail(line)
    ensures IsScopedTail(line + Inserted(line, Exclusion(ns)))
  {
    var x := Inserted(line, Exclusion(ns));
    var indent, w, rest := FirstWord(line);
    var indent2, path, rest2 := FirstWord(rest);
    Reassociate(indent, w, rest, x);
    assert rest != [] && IsSpace((rest + x)[0]);
    WordsOfParts(indent, w, rest + x);
    Reassociate(indent2, path, rest2, x);
    FirstWordGrows(indent2, path, rest2 + x);
    GrownPathIsNotAll(indent2, path, rest2, Indent(line), Exclusion(ns));
  }

  lemma JoinedWord(path: string, key: string, rest: string)
    requires IsWord(path) && IsWord(key) && rest != [] && IsSpace(rest[0])
    ensures Words(path + (key + rest)) == [path + key] + Words(rest)
  {
    assert path + (key + rest) == (path + key) + rest;
    WordsOfWordThen(path + key, rest);
  }

  /** The value that text is put after is the path itself, or the path with a key grown onto it. */
  lemma GrownPath(indent: string, path: string, more: string, key: string, value: string)
    requires AllSpace(indent) && IsWord(path) && IsWord(key)
    requires value != [] && IsSpace(value[0])
    requires more == key + value || (more != [] && IsSpace(more[0]))
    ensures var ws := Words(indent + path + more); ws != [] && ws[0] in {path, path + key}
  {
    if more == key + value {
      assert indent + path + more == indent + (path + more);
      WordsAfterSpace(indent, path + more);
      JoinedWord(path, key, value);
    } else {
      WordsOfParts(indent, path, more);
    }
  }

  lemma AddedText(rest: string, lineIndent: string, key: string, value: string)
    requires AllSpace(lineIndent) && (rest != [] ==> IsSpace(rest[0])) && key != []
    ensures var more := rest + (lineIndent + key + value);
            more == key + value || (more != [] && IsSpace(more[0]))
  {
    var more := rest + (lineIndent + key + value);
    if rest == [] && lineIndent == [] {
      assert more == key + value;
    } else {
      assert more[0] == if rest != [] then rest[0] else lineIndent[0];
    }
  }

  lemma ValueParts(lineIndent: string, key: string, exclude: string)
    ensures lineIndent + key + " " + exclude + "\n" == lineIndent + key + (" " + exclude + "\n")
  {
  }

  /** So it is not the glob for all containers. */
  lemma GrownPathIsNotAll(indent: string, path: string, rest: string, lineIndent: string, exclude: string)
    requires AllSpace(indent) && IsWord(path) && path != ALL_CONTAINER_LOGS && AllSpace(lineIndent)
    requires rest != [] ==> IsSpace(rest[0])
    ensures var ws := Words(indent + path + (rest + (lineIndent + EXCLUDE_KEY + " " + exclude + "\n")));
            ws != [] && ws[0] != ALL_CONTAINER_LOGS
  {
    var value := " " + exclude + "\n";
    ValueParts(lineIndent, EXCLUDE_KEY, exclude);
    AddedText(rest, lineIndent, EXCLUDE_KEY, value);
    assert IsWord(EXCLUDE_KEY) && IsSpace(value[0]);
    GrownPath(indent, path, rest + (lineIndent + EXCLUDE_KEY + value), EXCLUDE_KEY, value);
    OtherEnd(path);
  }

  lemma OtherEnd(path: string)
    ensures path + EXCLUDE_KEY != ALL_CONTAINER_LOGS
  {
    assert (path + EXCLUDE_KEY)[|path + EXCLUDE_KEY| - 1] == 'h';
    assert ALL_CONTAINER_LOGS[|ALL_CONTAINER_LOGS| - 1] == 'g';
  }

  // ── when every tailer is reached ────────────────────────────────────

  /** The line the rewrite edits: the first Exclude_Path of the file, or else its first Path. */
  function EditedLine(ls: seq<string>): Option<nat> {
    if AnyLine(ls, IsExclude) then FirstLine(ls, IsExclude) else FirstLine(ls, IsPath)
  }

  /** The edit leaves an Exclude_Path line: the one extended has a value, the one inserted has its own line. */
  predicate EditHolds(line: string) {
    if IsExclude(line) then !IsBare(line) else Terminated(line)
  }

  /** The rewrite has work to do: a scoped tailer, and the glob nowhere in the text. */
  predicate Rewrites(conf: string, ns: string) {
    AnyLine(Lines(conf), IsScopedTail) && !Contains(conf, Exclusion(ns))
  }

  lemma EditedExists(conf: string, ns: string)
    requires Rewrites(conf, ns)
    ensures EditedLine(Lines(conf)).Some? && EditedLine(Lines(conf)).value < |Lines(conf)|
  {
    ScopedHasPath(Lines(conf));
  }

  /**
   Where the rewrite has work to do, every scoped tailer ends up with the exclusion
   in its own section exactly when all of them stand in the section of the line that
   is edited and the edit leaves an Exclude_Path line there. Elsewhere the text stays,
   so a tailer has the exclusion exactly when it had it.
   */
  lemma EveryTailerExcludesIff(conf: string, ns: string)
    requires IsNamespace(ns)
    ensures var ls, out := Lines(conf), ExcludePlatform(conf, ns);
            if !Rewrites(conf, ns) then out == conf
            else
              EveryTailerExcludes(out, ns) <==>
                ReachesAll(conf, ns)
  {
    if Rewrites(conf, ns) {
      var ls := Lines(conf);
      LinesRebuild(conf);
      EditedExists(conf, ns);
      NoneLists(ls, ns);
      var k := EditedLine(ls).value;
      if AnyLine(ls, IsExclude) {
        ReachedByExtending(ls, k, ns);
      } else if Terminated(ls[k]) {
        ReachedByInserting(ls, k, ns);
      } else {
        LostByMerging(ls, k, ns);
      }
    }
  }

  predicate ReachesAll(conf: string, ns: string)
    requires Rewrites(conf, ns)
  {
    EditedExists(conf, ns);
    var ls := Lines(conf);
    var k := EditedLine(ls).value;
    EditHolds(ls[k]) && AllWith(ls, IsHeader, IsScopedTail, k)
  }

  lemma ReachedByExtending(ls: seq<string>, k: nat, ns: string)
    requires AreLines(ls) && k < |ls| && IsExclude(ls[k]) && IsNamespace(ns)
    requires !AnyLine(ls, Listing(ns)) && AnyLine(ls, IsScopedTail)
    ensures EveryTailerExcludes(Join(ls[k := Extended(ls[k], Exclusion(ns))]), ns)
      <==> !IsBare(ls[k]) && AllWith(ls, IsHeader, IsScopedTail, k)
  {
    ExtendedLines(ls, k, ns);
    ExcludeIsNoTail(ls[k]);
    ExtendedIsNoTail(ls[k], ns);
    ExtendedLists(ls[k], ns);
    ServedByReplaced(ls, IsHeader, IsScopedTail, Listing(ns), k, Extended(ls[k], Exclusion(ns)));
  }

  lemma ReachedByInserting(ls: seq<string>, p: nat, ns: string)
    requires AreLines(ls) && p < |ls| && IsPath(ls[p]) && Terminated(ls[p]) && IsNamespace(ns)
    requires !AnyLine(ls, Listing(ns))
    ensures EveryTailerExcludes(Join(ls[p := ls[p] + Inserted(ls[p], Exclusion(ns))]), ns)
      <==> AllWith(ls, IsHeader, IsScopedTail, p)
  {
    InsertedOne(ls, p, ns);
    InsertedLists(ls[p], ns);
    ServedByInserted(ls, IsHeader, IsScopedTail, Listing(ns), p, Inserted(ls[p], Exclusion(ns)));
  }

  lemma LostByMerging(ls: seq<string>, p: nat, ns: string)
    requires AreLines(ls) && p < |ls| && IsPath(ls[p]) && !Terminated(ls[p]) && IsNamespace(ns)
    requires !AnyLine(ls, Listing(ns)) && AnyLine(ls, IsScopedTail)
    ensures !EveryTailerExcludes(Join(ls[p := ls[p] + Inserted(ls[p], Exclusion(ns))]), ns)
  {
    var x := Inserted(ls[p], Exclusion(ns));
    var out := ls[p := ls[p] + x];
    InsertedLine(ls[p], ns);
    MergedLine(ls[p], x);
    LinesOfJoin(out);
    MergedListsNothing(ls[p], x, ns);
    if IsScopedTail(ls[p]) {
      MergedStaysTail(ls[p], ns);
    }
    TailsKept(ls, p, ls[p] + x, IsScopedTail);
    NoneServed(out, IsHeader, IsScopedTail, Listing(ns));
  }

  predicate IsTailerKey(line: string) {
    IsPath(line) || IsExclude(line)
  }

  /** All the Path and Exclude_Path lines stand in one section. */
  predicate OneSection(ls: seq<string>) {
    forall i, j | 0 <= i < |ls| && 0 <= j < |ls| && IsTailerKey(ls[i]) && IsTailerKey(ls[j]) ::
      Together(ls, IsHeader, i, j)
  }

  /** One section is enough: with every Path and Exclude_Path line in it, all is reached exactly if the edit holds. */
  lemma OneSectionIsReached(conf: string, ns: string)
    requires IsNamespace(ns)
    ensures Rewrites(conf, ns) && OneSection(Lines(conf)) ==>
              (EveryTailerExcludes(ExcludePlatform(conf, ns), ns) <==> EditedHolds(Lines(conf)))
  {
    if Rewrites(conf, ns) && OneSection(Lines(conf)) {
      var ls := Lines(conf);
      EditedExists(conf, ns);
      EveryTailerExcludesIff(conf, ns);
      var k := EditedLine(ls).value;
      assert IsTailerKey(ls[k]);
      forall i | 0 <= i < |ls| && IsScopedTail(ls[i]) ensures Together(ls, IsHeader, i, k) {
        assert IsTailerKey(ls[i]);
      }
    }
  }

  predicate EditedHolds(ls: seq<string>) {
    EditedLine(ls).Some? && EditedLine(ls).value < |ls| && EditHolds(ls[EditedLine(ls).value])
  }

  // ── configs it does not reach ───────────────────────────────────────

  const INPUT_LINE: string := "[INPUT]\n"
  const BARE_LINE: string := "    " + EXCLUDE_KEY + "\n"

  function PathLine(path: string): string {
    "    " + PATH_KEY + " " + path + "\n"
  }

  predicate IsScopedPath(path: string) {
    IsWord(path) && CONTAINER_LOGS <= path && path != ALL_CONTAINER_LOGS
  }

  lemma PathLineReads(path: string)
    requires IsWord(path)
    ensures var line := PathLine(path);
            && IsLine(line) && Terminated(line) && IsPath(line) && !IsExclude(line) && !IsHeader(line)
            && (IsScopedPath(path) ==> IsScopedTail(line))
  {
    var line := PathLine(path);
    assert IsWord(PATH_KEY) && AllSpace("    ") && IsSpace('\n');
    PairWords("    ", PATH_KEY, path, "\n");
    LineOf("    " + PATH_KEY + " " + path);
    GrownKey(line, line, PATH_KEY);
  }

  lemma InputLineReads()
    ensures IsLine(INPUT_LINE) && Terminated(INPUT_LINE) && IsHeader(INPUT_LINE)
    ensures !IsPath(INPUT_LINE) && !IsExclude(INPUT_LINE)
  {
    var w := "[INPUT]";
    assert IsWord(w) && INPUT_LINE == w + "\n" && IsSpace('\n');
    WordsOfWordThen(w, "\n");
    LineOf(w);
    assert Words(INPUT_LINE)[0] == w;
    assert LowerChar(w[0]) == '[' && LowerChar(PATH_KEY[0]) == 'p' && LowerChar(EXCLUDE_KEY[0]) == 'e';
    PrefixDiffers(w, w, PATH_KEY);
    PrefixDiffers(w, w, EXCLUDE_KEY);
  }

  lemma OnlyKey(indent: string, key: string)
    requires AllSpace(indent) && '\n' !in indent && IsWord(key)
    ensures var line := indent + key + "\n";
            IsLine(line) && Terminated(line) && Words(line) == [key] && IsBare(line)
  {
    var line := indent + key + "\n";
    assert IsSpace('\n');
    WordsOfParts(indent, key, "\n");
    WordsAfterSpace("\n", "");
    assert "\n" + "" == "\n" && '\n' !in key;
    LineOf(indent + key);
    assert line == indent + (key + "\n");
    SpaceLenOf(indent, key + "\n");
  }

  lemma BareLineReads()
    ensures IsLine(BARE_LINE) && Terminated(BARE_LINE) && IsExclude(BARE_LINE) && IsBare(BARE_LINE)
  {
    assert IsWord(EXCLUDE_KEY) && AllSpace("    ");
    OnlyKey("    ", EXCLUDE_KEY);
  }

  lemma FirstLineIs(ls: seq<string>, p: string -> bool, k: nat)
    requires k < |ls| && p(ls[k]) && forall i | 0 <= i < k :: !p(ls[i])
    ensures AnyLine(ls, p) && FirstLine(ls, p) == Some(k)
  {
    assert AnyLine(ls, p);
    var f := FirstLine(ls, p).value;
    assert f <= k && !(f < k);
  }

  predicate IsInput(line: string) {
    IsLine(line) && Terminated(line) && IsHeader(line) && !IsPath(line) && !IsExclude(line)
  }

  predicate IsPathOnly(line: string) {
    IsLine(line) && Terminated(line) && IsPath(line) && !IsExclude(line)
  }

  lemma MissedInSecond(h: string, a: string, b: string, ns: string)
    requires IsNamespace(ns) && IsInput(h) && IsPathOnly(a) && IsPathOnly(b) && IsScopedTail(b)
    requires !Contains(Join([h, a, h, b]), Exclusion(ns))
    ensures !EveryTailerExcludes(ExcludePlatform(Join([h, a, h, b]), ns), ns)
  {
    var ls := [h, a, h, b];
    LinesOfJoin(ls);
    FirstLineIs(ls, IsPath, 1);
    NoneOfFour(h, a, b, IsExclude);
    assert IsHeader(ls[2]);
    NotReached(Join(ls), ls, 1, 3, ns);
  }

  lemma NoneOfFour(h: string, a: string, b: string, p: string -> bool)
    requires !p(h) && !p(a) && !p(b)
    ensures !AnyLine([h, a, h, b], p)
  {
  }

  lemma NotReached(conf: string, ls: seq<string>, k: nat, i: nat, ns: string)
    requires IsNamespace(ns) && ls == Lines(conf) && !Contains(conf, Exclusion(ns))
    requires k < |ls| && i < |ls| && EditedLine(ls) == Some(k)
    requires IsScopedTail(ls[i]) && !Together(ls, IsHeader, i, k)
    ensures !EveryTailerExcludes(ExcludePlatform(conf, ns), ns)
  {
    assert AnyLine(ls, IsScopedTail);
    EveryTailerExcludesIff(conf, ns);
  }

  lemma LostWithKey(h: string, a: string, bare: string, ns: string)
    requires IsNamespace(ns) && IsInput(h) && IsPathOnly(a) && IsScopedTail(a)
    requires IsLine(bare) && IsExclude(bare) && IsBare(bare)
    requires !Contains(Join([h, a, bare]), Exclusion(ns))
    ensures !EveryTailerExcludes(ExcludePlatform(Join([h, a, bare]), ns), ns)
  {
    var ls := [h, a, bare];
    LinesOfJoin(ls);
    FirstLineIs(ls, IsExclude, 2);
    FirstLineIs(ls, IsScopedTail, 1);
    EveryTailerExcludesIff(Join(ls), ns);
  }

  /**
   Two inputs: the line goes under the first Path of the file, and a scoped tailer
   in the second input is left as it was, whatever the first one reads.
   */
  lemma SecondInputIsMissed(other: string, path: string, ns: string)
    requires IsNamespace(ns) && IsWord(other) && IsScopedPath(path)
    requires !Contains(Join([INPUT_LINE, PathLine(other), INPUT_LINE, PathLine(path)]), Exclusion(ns))
    ensures var conf := Join([INPUT_LINE, PathLine(other), INPUT_LINE, PathLine(path)]);
            !EveryTailerExcludes(ExcludePlatform(conf, ns), ns)
  {
    InputLineReads();
    PathLineReads(other);
    PathLineReads(path);
    MissedInSecond(INPUT_LINE, PathLine(other), PathLine(path), ns);
  }

  /** A bare Exclude_Path in the tailer's own section: it loses its key, and the result has no Exclude_Path line. */
  lemma BareExcludeIsLost(path: string, ns: string)
    requires IsNamespace(ns) && IsScopedPath(path)
    requires !Contains(Join([INPUT_LINE, PathLine(path), BARE_LINE]), Exclusion(ns))
    ensures var conf := Join([INPUT_LINE, PathLine(path), BARE_LINE]);
            !EveryTailerExcludes(ExcludePlatform(conf, ns), ns)
  {
    InputLineReads();
    PathLineReads(path);
    BareLineReads();
    LostWithKey(INPUT_LINE, PathLine(path), BARE_LINE, ns);
  }

  /** The glob in a comment is enough for the rewrite to leave the config, and its tailer, alone. */
  lemma CommentHidesTheTailer(path: string, ns: string)
    requires IsNamespace(ns) && IsScopedPath(path)
    ensures var conf := Join([INPUT_LINE, "# " + Exclusion(ns) + "\n", PathLine(path)]);
            ExcludePlatform(conf, ns) == conf && !EveryTailerExcludes(conf, ns)
  {
    InputLineReads();
    PathLineReads(path);
    CommentReads(ns);
    HiddenByMention(INPUT_LINE, "# " + Exclusion(ns) + "\n", PathLine(path), ns);
  }

  lemma HiddenByMention(h: string, comment: string, a: string, ns: string)
    requires IsInput(h) && IsPathOnly(a) && IsScopedTail(a)
    requires IsLine(comment) && Terminated(comment) && !IsExclude(comment) && Contains(comment, Exclusion(ns))
    ensures var conf := Join([h, comment, a]);
            ExcludePlatform(conf, ns) == conf && !EveryTailerExcludes(conf, ns)
  {
    var ls := [h, comment, a];
    LinesOfJoin(ls);
    ContainsInJoin(ls, 1, Exclusion(ns));
    assert IsScopedTail(ls[2]) && !AnyLine(ls, Listing(ns));
    NoneServed(ls, IsHeader, IsScopedTail, Listing(ns));
  }

  lemma CommentReads(ns: string)
    requires IsNamespace(ns)
    ensures var comment := "# " + Exclusion(ns) + "\n";
            IsLine(comment) && Terminated(comment) && !IsExclude(comment) && Contains(comment, Exclusion(ns))
  {
    var comment := "# " + Exclusion(ns) + "\n";
    var tail := " " + Exclusion(ns) + "\n";
    ExclusionIsWord(ns);
    assert IsWord("#") && comment == "#" + tail;
    WordsOfWordThen("#", tail);
    assert LowerChar('#') != LowerChar(EXCLUDE_KEY[0]);
    PrefixDiffers("#", "#", EXCLUDE_KEY);
    LineOf("# " + Exclusion(ns));
    ContainsIn("# ", Exclusion(ns), "\n");
  }

  const MANY: string := CONTAINER_LOGS + "*pg*.log"
  const ONE: string := CONTAINER_LOGS + "pg.log"
  const SYSLOG: string := "/var/log/syslog"

  /** Two such configs, for every namespace: a tailer in a second input, and one above a bare Exclude_Path. */
  lemma MissedConfigs(ns: string)
    requires IsNamespace(ns)
    ensures var two := Join([INPUT_LINE, PathLine(SYSLOG), INPUT_LINE, PathLine(MANY)]);
            !EveryTailerExcludes(ExcludePlatform(two, ns), ns)
    ensures var bare := Join([INPUT_LINE, PathLine(ONE), BARE_LINE]);
            !EveryTailerExcludes(ExcludePlatform(bare, ns), ns)
  {
    ManyIsScoped();
    OneIsScoped();
    NoUnderscore(ns);
    NoStar(ns);
    SecondInputIsMissed(SYSLOG, MANY, ns);
    BareExcludeIsLost(ONE, ns);
  }

  lemma ManyIsScoped()
    ensures IsScopedPath(MANY) && IsWord(SYSLOG)
  {
    assert NoSpace(CONTAINER_LOGS) && NoSpace("*pg*.log");
    assert |MANY| != |ALL_CONTAINER_LOGS|;
  }

  lemma OneIsScoped()
    ensures IsScopedPath(ONE)
  {
    assert NoSpace(CONTAINER_LOGS) && NoSpace("pg.log");
    assert |ONE| != |ALL_CONTAINER_LOGS|;
  }

  lemma {:induction false} JoinMissesChar(ls: seq<string>, c: char)
    requires forall i | 0 <= i < |ls| :: c !in ls[i]
    ensures c !in Join(ls)
  {
    if ls != [] {
      JoinMissesChar(ls[1..], c);
    }
  }

  lemma NoUnderscore(ns: string)
    ensures !Contains(Join([INPUT_LINE, PathLine(SYSLOG), INPUT_LINE, PathLine(MANY)]), Exclusion(ns))
  {
    var ls := [INPUT_LINE, PathLine(SYSLOG), INPUT_LINE, PathLine(MANY)];
    assert '_' !in INPUT_LINE && '_' !in PATH_KEY && '_' !in SYSLOG && '_' !in MANY;
    JoinMissesChar(ls, '_');
    assert '_' in "*_";
    LacksChar(Join(ls), Exclusion(ns), '_');
  }

  lemma NoStar(ns: string)
    ensures !Contains(Join([INPUT_LINE, PathLine(ONE), BARE_LINE]), Exclusion(ns))
  {
    var ls := [INPUT_LINE, PathLine(ONE), BARE_LINE];
    assert '*' !in INPUT_LINE && '*' !in PATH_KEY && '*' !in ONE && '*' !in BARE_LINE;
    JoinMissesChar(ls, '*');
    assert '*' in "*_";
    LacksChar(Join(ls), Exclusion(ns), '*');
  }
}
