/**
 The collector config rewrites (src/agents.rs): the password moved to a variable,
 the platform's namespace excluded from service tailers, and the events prune
 filter inserted. Two are loops over the lines of the config.
 */
module AgentConfig {
  import opened Text

  const PASSWORD_KEY: string := "HTTP_Passwd"
  const PASSWORD_REF: string := "${VELOX_OS_PASSWORD}"
  const EXCLUDE_KEY: string := "Exclude_Path"
  const PATH_KEY: string := "Path"
  const CONTAINER_LOGS: string := "/var/log/containers/"
  const ALL_CONTAINER_LOGS: string := "/var/log/containers/*.log"
  const EVENTS_INPUT: string := "Name kubernetes_events"
  const OUTPUT_MARK: string := "\n[OUTPUT]\n"
  const PRUNE_LUA_PATH: string := "/fluent-bit/etc/prune.lua"
  // ── line readings ───────────────────────────────────────────────────

  predicate HasKey(line: string, key: string) {
    Words(line) != [] && SameIgnoringCase(Words(line)[0], key)
  }

  /** A password line that does not say the variable. */
  predicate IsPlain(line: string) {
    HasKey(line, PASSWORD_KEY) && !(|Words(line)| > 1 && Words(line)[1] == PASSWORD_REF)
  }

  function Indent(line: string): string {
    line[..SpaceLen(line)]
  }

  function Eol(line: string): string {
    if Terminated(line) then "\n" else ""
  }

  function Externalized(line: string): string {
    if IsPlain(line) then Indent(line) + Words(line)[0] + " " + PASSWORD_REF + Eol(line) else line
  }

  /** The text `externalize_password` returns. */
  function ExternalizePassword(conf: string): string {
    Join(MapLines(Lines(conf), Externalized))
  }

  /** `externalize_password`; `owned` is whether the text was rebuilt (`Cow::Owned`). */
  method ExternalizePasswordLoop(conf: string) returns (out: string, owned: bool)
    ensures out == ExternalizePassword(conf)
    ensures owned <==> AnyLine(Lines(conf), IsPlain)
  {
    var ls := Lines(conf);
    owned := false;
    for i := 0 to |ls|
      invariant owned <==> AnyLine(ls[..i], IsPlain)
    {
      AnyLinePush(ls, i, IsPlain);
      owned := owned || IsPlain(ls[i]);
    }
    assert ls[..|ls|] == ls;
    if !owned {
      ExternalizeSettled(conf);
      return conf, false;
    }
    out := "";
    for i := 0 to |ls|
      invariant out == Join(MapLines(ls[..i], Externalized))
    {
      MapLinesPush(ls, i, Externalized);
      if IsPlain(ls[i]) {
        var indent := ls[i][..SpaceLen(ls[i])];
        var key := Words(ls[i])[0];
        var eol := if Terminated(ls[i]) then "\n" else "";
        out := out + (indent + key + " " + PASSWORD_REF + eol);
      } else {
        out := out + ls[i];
      }
    }
    assert ls[..|ls|] == ls;
  }

  // ── the rewritten password line ─────────────────────────────────────

  /** The one spelling a password line is rewritten to. */
  function ReferenceLine(indent: string, key: string, eol: string): string {
    indent + key + " " + PASSWORD_REF + eol
  }

  predicate IsEol(eol: string) {
    eol == "" || eol == "\n"
  }

  lemma PairWords(indent: string, key: string, value: string, eol: string)
    requires AllSpace(indent) && IsWord(key) && IsWord(value) && IsEol(eol)
    ensures Words(indent + key + " " + value + eol) == [key, value]
  {
    var tail := value + eol;
    WordsThenEol(value, eol);
    WordsOfWordSpace(key, tail);
    var body := key + " " + tail;
    WordsAfterSpace(indent, body);
    Regroup(indent, key, value, eol);
  }

  lemma Regroup(indent: string, key: string, value: string, eol: string)
    ensures indent + key + " " + value + eol == indent + (key + " " + (value + eol))
  {
  }

  lemma WordsThenEol(value: string, eol: string)
    requires IsWord(value) && IsEol(eol)
    ensures Words(value + eol) == [value]
  {
    WordsOfWordThen(value, eol);
    WordsAfterSpace(eol, "");
    assert eol + "" == eol;
  }

  lemma ReferenceLineWords(indent: string, key: string, eol: string)
    requires AllSpace(indent) && IsWord(key) && IsEol(eol)
    ensures Words(ReferenceLine(indent, key, eol)) == [key, PASSWORD_REF]
  {
    PairWords(indent, key, PASSWORD_REF, eol);
  }

  lemma ReferenceLineShape(indent: string, key: string, eol: string)
    requires AllSpace(indent) && '\n' !in indent && IsWord(key) && IsEol(eol)
    ensures IsLine(ReferenceLine(indent, key, eol))
    ensures Terminated(ReferenceLine(indent, key, eol)) <==> eol == "\n"
  {
    var line := ReferenceLine(indent, key, eol);
    assert '\n' !in key by { assert IsSpace('\n'); }
    var body := indent + key + " " + PASSWORD_REF;
    assert line == body + eol;
    assert '\n' !in body;
  }

  /** What the rewrite does to one line: a password line carries the reference, its shape is kept. */
  lemma ExternalizedLine(line: string)
    requires IsLine(line)
    ensures IsLine(Externalized(line))
    ensures Terminated(Externalized(line)) <==> Terminated(line)
    ensures !IsPlain(Externalized(line))
    ensures IsPlain(line) ==> Words(Externalized(line)) == [Words(line)[0], PASSWORD_REF]
  {
    if IsPlain(line) {
      IndentOfLine(line);
      var indent, key, eol := Indent(line), Words(line)[0], Eol(line);
      assert Externalized(line) == ReferenceLine(indent, key, eol);
      ReferenceLineWords(indent, key, eol);
      ReferenceLineShape(indent, key, eol);
    }
  }

  lemma IndentOfLine(line: string)
    requires IsLine(line) && Words(line) != []
    ensures AllSpace(Indent(line)) && '\n' !in Indent(line)
    ensures IsWord(Words(line)[0])
  {
    var indent, w, rest := FirstWord(line);
    assert forall i | 0 <= i < |indent| :: indent[i] == line[i];
  }

  /**
   Line by line: as many lines as before, in order, each unchanged unless it is a
   password line without the reference; and no such line is left.
   */
  lemma ExternalizeByLine(conf: string)
    ensures Lines(ExternalizePassword(conf)) == MapLines(Lines(conf), Externalized)
    ensures !AnyLine(Lines(ExternalizePassword(conf)), IsPlain)
  {
    forall line | IsLine(line)
      ensures IsLine(Externalized(line))
      ensures Terminated(Externalized(line)) <==> Terminated(line)
      ensures !IsPlain(Externalized(line))
    {
      ExternalizedLine(line);
    }
    LinesRebuild(conf);
    MapLinesOfText(conf, Externalized);
    NoneLeft(Lines(conf), Externalized, IsPlain);
  }

  lemma NoneLeft(ls: seq<string>, f: string -> string, p: string -> bool)
    requires AreLines(ls) && forall line | IsLine(line) :: !p(f(line))
    ensures !AnyLine(MapLines(ls, f), p)
  {
  }

  lemma Unmapped(ls: seq<string>, f: string -> string, p: string -> bool)
    requires !AnyLine(ls, p) && forall line | !p(line) :: f(line) == line
    ensures MapLines(ls, f) == ls
  {
  }

  lemma ExternalizeSettled(conf: string)
    requires !AnyLine(Lines(conf), IsPlain)
    ensures ExternalizePassword(conf) == conf
  {
    Unmapped(Lines(conf), Externalized, IsPlain);
    LinesRebuild(conf);
  }

  // ── the platform exclusion ──────────────────────────────────────────

  function Exclusion(ns: string): string {
    CONTAINER_LOGS + "*_" + ns + "_*.log"
  }

  /** A container-log tailer scoped to one service. */
  predicate IsScopedTail(line: string) {
    && HasKey(line, PATH_KEY)
    && |Words(line)| > 1
    && CONTAINER_LOGS <= Words(line)[1]
    && Words(line)[1] != ALL_CONTAINER_LOGS
  }

  predicate IsExclude(line: string) {
    HasKey(line, EXCLUDE_KEY)
  }

  predicate IsPath(line: string) {
    HasKey(line, PATH_KEY)
  }

  function Body(line: string): string {
    if Terminated(line) then line[..|line| - 1] else line
  }

  function Extended(line: string, exclude: string): string {
    Body(line) + "," + exclude + Eol(line)
  }

  function Inserted(line: string, exclude: string): string {
    Indent(line) + EXCLUDE_KEY + " " + exclude + "\n"
  }

  /** The text `with_platform_excluded` returns. */
  function ExcludePlatform(conf: string, ns: string): string {
    var ls := Lines(conf);
    var exclude := Exclusion(ns);
    if !AnyLine(ls, IsScopedTail) || Contains(conf, exclude) then conf
    else
      var k := FirstLine(ls, IsExclude);
      if k.Some? then Join(ls[k.value := Extended(ls[k.value], exclude)])
      else
        var p := FirstLine(ls, IsPath);
        if p.Some? then Join(ls[p.value := ls[p.value] + Inserted(ls[p.value], exclude)]) else conf
  }

  /** `with_platform_excluded`: extend the first Exclude_Path, else put one after the first Path. */
  method ExcludePlatformLoops(conf: string, ns: string) returns (out: string)
    ensures out == ExcludePlatform(conf, ns)
  {
    var exclude := Exclusion(ns);
    var ls := Lines(conf);
    LinesRebuild(conf);
    var scoped := false;
    for i := 0 to |ls|
      invariant scoped <==> AnyLine(ls[..i], IsScopedTail)
    {
      AnyLinePush(ls, i, IsScopedTail);
      scoped := scoped || IsScopedTail(ls[i]);
    }
    assert ls[..|ls|] == ls;
    if !scoped || Contains(conf, exclude) {
      return conf;
    }
    var done;
    out, done := EditFirst(ls, IsExclude, line => Extended(line, exclude));
    if !done {
      // Nothing was extended, so the Path line gets a line of its own below it.
      out, done := EditFirst(Lines(out), IsPath, line => line + Inserted(line, exclude));
    }
  }

  /** The loop both edits run: push every line, the first that satisfies `p` edited, and say whether one did. */
  method EditFirst(ls: seq<string>, p: string -> bool, edit: string -> string) returns (out: string, done: bool)
    ensures var k := FirstLine(ls, p);
            && (done <==> k.Some?)
            && out == Join(if k.Some? then ls[k.value := edit(ls[k.value])] else ls)
  {
    ghost var k := FirstLine(ls, p);
    out, done := "", false;
    for i := 0 to |ls|
      invariant done <==> k.Some? && k.value < i
      invariant out == EditedUpTo(ls, i, k, edit)
    {
      EditedPush(ls, i, k, edit);
      if p(ls[i]) && !done {
        out, done := out + edit(ls[i]), true;
      } else {
        out := out + ls[i];
      }
    }
    assert ls[..|ls|] == ls;
  }

  /** The first `i` lines joined, line `k` edited once it is among them. */
  function EditedUpTo(ls: seq<string>, i: nat, k: Option<nat>, edit: string -> string): string
    requires i <= |ls|
  {
    Join(if k.Some? && k.value < i then ls[..i][k.value := edit(ls[k.value])] else ls[..i])
  }

  lemma EditedPush(ls: seq<string>, i: nat, k: Option<nat>, edit: string -> string)
    requires i < |ls|
    ensures EditedUpTo(ls, i + 1, k, edit)
         == EditedUpTo(ls, i, k, edit) + (if k == Some(i) then edit(ls[i]) else ls[i])
  {
    assert ls[..i + 1] == ls[..i] + [ls[i]];
    if k.Some? && k.value < i {
      var x := edit(ls[k.value]);
      assert ls[..i + 1][k.value := x] == ls[..i][k.value := x] + [ls[i]];
      JoinSnoc(ls[..i][k.value := x], ls[i]);
    } else if k == Some(i) {
      assert ls[..i + 1][i := edit(ls[i])] == ls[..i] + [edit(ls[i])];
      JoinSnoc(ls[..i], edit(ls[i]));
    } else {
      JoinSnoc(ls[..i], ls[i]);
    }
  }

  /** A namespace name: no whitespace, so the exclusion glob is one word on one line. */
  predicate IsNamespace(ns: string) {
    NoSpace(ns)
  }

  lemma ExclusionIsWord(ns: string)
    requires IsNamespace(ns)
    ensures IsWord(Exclusion(ns)) && '\n' !in Exclusion(ns)
  {
    assert NoSpace(CONTAINER_LOGS) && NoSpace("*_") && NoSpace("_*.log");
    assert IsSpace('\n');
  }

  /** The edited Exclude_Path line: still one line of the same shape, its key unless the key ends the line. */
  lemma ExtendedLine(line: string, ns: string)
    requires IsLine(line) && IsExclude(line) && IsNamespace(ns)
    ensures var x := Extended(line, Exclusion(ns));
            && IsLine(x)
            && (Terminated(x) <==> Terminated(line))
            && Words(x) != []
            && Words(line)[0] <= Words(x)[0]
            && Contains(x, Exclusion(ns))
            && (Words(x)[0] == Words(line)[0] <==> |Indent(line)| + |Words(line)[0]| < |Body(line)|)
  {
    ExclusionIsWord(ns);
    ExtendedShape(line, Exclusion(ns));
    ExtendedKey(line, Exclusion(ns));
    ExtendedContains(line, Exclusion(ns));
  }

  lemma ExtendedKey(line: string, exclude: string)
    requires Words(line) != []
    ensures var x := Extended(line, exclude);
            && Words(x) != []
            && Words(line)[0] <= Words(x)[0]
            && (Words(x)[0] == Words(line)[0] <==> |Indent(line)| + |Words(line)[0]| < |Body(line)|)
  {
    var indent, w, rest := FirstWord(line);
    var tail := BodyTail(line, indent, w, rest);
    var more := tail + ("," + exclude + Eol(line));
    ExtendedParts(line, indent, w, tail, exclude);
    FirstWordGrows(indent, w, more);
    CommaFirst(tail, "," + exclude + Eol(line), rest);
  }

  lemma ExtendedParts(line: string, indent: string, w: string, tail: string, exclude: string)
    requires Body(line) == indent + w + tail
    ensures Extended(line, exclude) == indent + w + (tail + ("," + exclude + Eol(line)))
  {
  }

  lemma CommaFirst(tail: string, added: string, rest: string)
    requires added != [] && added[0] == ','
    requires tail <= rest && (rest != [] ==> IsSpace(rest[0]))
    ensures IsSpace((tail + added)[0]) <==> tail != []
  {
    assert !IsSpace(',');
    assert tail != [] ==> (tail + added)[0] == tail[0] == rest[0];
    assert tail == [] ==> (tail + added)[0] == ',';
  }

  lemma ExtendedContains(line: string, exclude: string)
    ensures Contains(Extended(line, exclude), exclude)
  {
    ContainsIn(Body(line) + ",", exclude, Eol(line));
  }

  /** The extended line is still an Exclude_Path line exactly when something followed the key. */
  lemma ExtendedStaysExclude(line: string, ns: string)
    requires IsExclude(line)
    ensures IsExclude(Extended(line, Exclusion(ns))) <==> |Indent(line)| + |Words(line)[0]| < |Body(line)|
  {
    ExtendedKey(line, Exclusion(ns));
  }

  /** The body of a line that has a first word ends at or after that word. */
  lemma BodyTail(line: string, indent: string, w: string, rest: string) returns (tail: string)
    requires line == indent + w + rest && IsWord(w)
    ensures Body(line) == indent + w + tail
    ensures tail <= rest
  {
    if Terminated(line) {
      assert IsSpace('\n');
      assert (indent + w)[|indent + w| - 1] == w[|w| - 1];
      tail := rest[..|rest| - 1];
    } else {
      tail := rest;
    }
  }

  lemma ExtendedShape(line: string, exclude: string)
    requires IsLine(line) && '\n' !in exclude
    ensures IsLine(Extended(line, exclude))
    ensures Terminated(Extended(line, exclude)) <==> Terminated(line)
  {
    var body := Body(line) + "," + exclude;
    assert '\n' !in Body(line);
    assert '\n' !in body;
    assert Extended(line, exclude) == body + Eol(line);
  }

  /** The added Exclude_Path line. */
  lemma InsertedLine(line: string, ns: string)
    requires IsLine(line) && IsPath(line) && IsNamespace(ns)
    ensures IsLine(Inserted(line, Exclusion(ns))) && Terminated(Inserted(line, Exclusion(ns)))
    ensures Words(Inserted(line, Exclusion(ns))) == [EXCLUDE_KEY, Exclusion(ns)]
  {
    ExclusionIsWord(ns);
    IndentOfLine(line);
    assert IsWord(EXCLUDE_KEY);
    PairWords(Indent(line), EXCLUDE_KEY, Exclusion(ns), "\n");
    assert IsSpace('\n');
    var body := Indent(line) + EXCLUDE_KEY + " " + Exclusion(ns);
    assert '\n' !in body;
    assert Inserted(line, Exclusion(ns)) == body + "\n";
  }

  /** `out` is `ls` with the first Exclude_Path line extended. */
  predicate ExtendsFirst(ls: seq<string>, out: seq<string>, ns: string) {
    var k := FirstLine(ls, IsExclude);
    k.Some? && out == ls[k.value := Extended(ls[k.value], Exclusion(ns))]
  }

  /** `out` is `ls`, which has no Exclude_Path, with one line put after the first Path line. */
  predicate InsertsOne(ls: seq<string>, out: seq<string>, ns: string) {
    var p := FirstLine(ls, IsPath);
    && !AnyLine(ls, IsExclude)
    && p.Some?
    && out == ls[..p.value + 1] + [Inserted(ls[p.value], Exclusion(ns))] + ls[p.value + 1..]
  }

  predicate EditsOneLine(conf: string, out: string, ns: string) {
    out == conf || ExtendsFirst(Lines(conf), Lines(out), ns) || InsertsOne(Lines(conf), Lines(out), ns)
  }

  /** The config's last line is the Path to insert after, and no newline ends it. */
  predicate EndsOnPath(conf: string, ns: string) {
    var ls := Lines(conf);
    && AnyLine(ls, IsScopedTail) && !Contains(conf, Exclusion(ns)) && !AnyLine(ls, IsExclude)
    && FirstLine(ls, IsPath) == Some(|ls| - 1)
    && !Terminated(conf)
  }

  /**
   What the exclusion does: nothing, or the first Exclude_Path line extended, or one
   line put after the first Path line, every other line kept in order. That is so
   exactly for the configs that do not end on that Path line without a newline,
   which every newline-terminated config is. A text with a scoped tailer then has
   the glob somewhere; where it has to be is another matter (`TailerExclusion`).
   */
  lemma ExcludeByLine(conf: string, ns: string)
    requires IsNamespace(ns)
    ensures EditsOneLine(conf, ExcludePlatform(conf, ns), ns) <==> !EndsOnPath(conf, ns)
    ensures AnyLine(Lines(conf), IsScopedTail) ==> Contains(ExcludePlatform(conf, ns), Exclusion(ns))
  {
    var ls := Lines(conf);
    if AnyLine(ls, IsScopedTail) && !Contains(conf, Exclusion(ns)) {
      LinesRebuild(conf);
      ScopedHasPath(ls);
      if AnyLine(ls, IsExclude) {
        ExtendsByLine(conf, ns);
      } else {
        InsertsByLine(conf, ns);
      }
    }
  }

  lemma ExtendsByLine(conf: string, ns: string)
    requires IsNamespace(ns) && AreLines(Lines(conf)) && AnyLine(Lines(conf), IsExclude)
    requires AnyLine(Lines(conf), IsScopedTail) && !Contains(conf, Exclusion(ns))
    ensures var out := ExcludePlatform(conf, ns);
            ExtendsFirst(Lines(conf), Lines(out), ns) && Contains(out, Exclusion(ns))
  {
    ExtendedLines(Lines(conf), FirstLine(Lines(conf), IsExclude).value, ns);
  }

  lemma InsertsByLine(conf: string, ns: string)
    requires IsNamespace(ns) && AreLines(Lines(conf)) && !AnyLine(Lines(conf), IsExclude)
    requires AnyLine(Lines(conf), IsScopedTail) && !Contains(conf, Exclusion(ns))
    requires FirstLine(Lines(conf), IsPath).Some?
    ensures EditsOneLine(conf, ExcludePlatform(conf, ns), ns) <==> !EndsOnPath(conf, ns)
    ensures Contains(ExcludePlatform(conf, ns), Exclusion(ns))
  {
    var ls := Lines(conf);
    var p := FirstLine(ls, IsPath).value;
    LastLineTerminated(conf);
    if Terminated(ls[p]) {
      InsertedOne(ls, p, ns);
      assert InsertsOne(ls, Lines(ExcludePlatform(conf, ns)), ns);
    } else {
      MergedLast(ls, p, ns);
      assert !InsertsOne(ls, Lines(ExcludePlatform(conf, ns)), ns);
    }
  }

  lemma MergedLast(ls: seq<string>, p: nat, ns: string)
    requires AreLines(ls) && p < |ls| && IsPath(ls[p]) && !Terminated(ls[p]) && IsNamespace(ns)
    ensures var out := Join(ls[p := ls[p] + Inserted(ls[p], Exclusion(ns))]);
            |Lines(out)| == |ls| && Lines(out) != ls && Contains(out, Exclusion(ns))
  {
    var x := Inserted(ls[p], Exclusion(ns));
    InsertedLine(ls[p], ns);
    MergedLine(ls[p], x);
    LinesOfJoin(ls[p := ls[p] + x]);
    InsertedContains(ls, p, ns);
    assert |ls[p] + x| > |ls[p]|;
  }

  lemma InsertedOne(ls: seq<string>, p: nat, ns: string)
    requires AreLines(ls) && p < |ls| && Terminated(ls[p]) && IsPath(ls[p]) && IsNamespace(ns)
    ensures var x := Inserted(ls[p], Exclusion(ns));
            var out := Join(ls[p := ls[p] + x]);
            Lines(out) == ls[..p + 1] + [x] + ls[p + 1..] && Contains(out, Exclusion(ns))
  {
    InsertedLine(ls[p], ns);
    InsertedLines(ls, p, Inserted(ls[p], Exclusion(ns)));
    InsertedContains(ls, p, ns);
  }

  lemma ExtendedLines(ls: seq<string>, k: nat, ns: string)
    requires AreLines(ls) && k < |ls| && IsExclude(ls[k]) && IsNamespace(ns)
    ensures var out := ls[k := Extended(ls[k], Exclusion(ns))];
            Lines(Join(out)) == out && Contains(Join(out), Exclusion(ns))
  {
    ExtendedLine(ls[k], ns);
    var out := ls[k := Extended(ls[k], Exclusion(ns))];
    LinesOfJoin(out);
    ContainsInJoin(out, k, Exclusion(ns));
  }

  lemma ScopedHasPath(ls: seq<string>)
    requires AnyLine(ls, IsScopedTail)
    ensures FirstLine(ls, IsPath).Some?
  {
    var i :| 0 <= i < |ls| && IsScopedTail(ls[i]);
    assert IsPath(ls[i]);
  }

  lemma InsertedLines(ls: seq<string>, p: nat, x: string)
    requires AreLines(ls) && p < |ls| && Terminated(ls[p]) && IsLine(x) && Terminated(x)
    ensures Lines(Join(ls[p := ls[p] + x])) == ls[..p + 1] + [x] + ls[p + 1..]
  {
    var a, b := ls[..p], ls[p + 1..];
    assert ls[p := ls[p] + x] == a + [ls[p] + x] + b;
    JoinAppend(a + [ls[p] + x], b);
    JoinSnoc(a, ls[p] + x);
    var out := ls[..p + 1] + [x] + b;
    assert out == a + [ls[p]] + [x] + b;
    JoinAppend(a + [ls[p]] + [x], b);
    JoinSnoc(a + [ls[p]], x);
    JoinSnoc(a, ls[p]);
    assert Join(a) + ls[p] + x == Join(a) + (ls[p] + x);
    LinesOfJoin(out);
  }

  lemma JoinAround(ls: seq<string>, j: nat)
    requires j < |ls|
    ensures Join(ls) == Join(ls[..j]) + ls[j] + Join(ls[j + 1..])
  {
    var tail := ls[j..];
    assert ls[..j] + tail == ls;
    JoinAppend(ls[..j], tail);
    assert tail[1..] == ls[j + 1..];
    Associate(Join(ls[..j]), ls[j], Join(tail[1..]));
  }

  lemma Associate(a: string, b: string, c: string)
    ensures a + (b + c) == a + b + c
  {
  }

  lemma ContainsInJoin(ls: seq<string>, k: nat, p: string)
    requires k < |ls| && Contains(ls[k], p)
    ensures Contains(Join(ls), p)
  {
    JoinAround(ls, k);
    ContainsWithin(Join(ls[..k]), ls[k], Join(ls[k + 1..]), p);
  }

  lemma InsertedContains(ls: seq<string>, p: nat, ns: string)
    requires p < |ls|
    ensures Contains(Join(ls[p := ls[p] + Inserted(ls[p], Exclusion(ns))]), Exclusion(ns))
  {
    var x := ls[p] + Inserted(ls[p], Exclusion(ns));
    ContainsIn(Indent(ls[p]) + EXCLUDE_KEY + " ", Exclusion(ns), "\n");
    ContainsWithin(ls[p], Inserted(ls[p], Exclusion(ns)), "", Exclusion(ns));
    assert x + "" == x;
    ContainsInJoin(ls[p := x], p, Exclusion(ns));
  }

  // ── the events prune filter ─────────────────────────────────────────

  /** `with_events_prune`. */
  function PruneEvents(conf: string): string {
    if !Contains(conf, EVENTS_INPUT) || Contains(conf, PRUNE_LUA_PATH) then conf
    else
      var i := Find(conf, OUTPUT_MARK);
      if i.Some? then conf[..i.value + 1] + EVENTS_PRUNE_FILTER + conf[i.value + 1..] else conf
  }

  const FILTER_LINES: seq<string> := [
    "[FILTER]\n",
    "    Name lua\n",
    "    Match k8s_events\n",
    "    script " + PRUNE_LUA_PATH + "\n",
    "    call prune\n"]
  const EVENTS_PRUNE_FILTER: string := Join(FILTER_LINES)

  lemma FilterLines()
    ensures AreLines(FILTER_LINES) && Lines(EVENTS_PRUNE_FILTER) == FILTER_LINES
    ensures Terminated(EVENTS_PRUNE_FILTER)
  {
    FilterAreLines();
    LinesOfJoin(FILTER_LINES);
    var last := FILTER_LINES[4];
    LastOfJoin(FILTER_LINES[..4], last);
    assert FILTER_LINES == FILTER_LINES[..4] + [last];
  }

  lemma FilterAreLines()
    ensures |FILTER_LINES| == 5 && AreLines(FILTER_LINES) && Terminated(FILTER_LINES[4])
  {
    LineOf("[FILTER]");
    LineOf("    Name lua");
    LineOf("    Match k8s_events");
    LineOf("    script " + PRUNE_LUA_PATH);
    LineOf("    call prune");
  }

  lemma LineOf(body: string)
    requires '\n' !in body
    ensures IsLine(body + "\n") && Terminated(body + "\n")
  {
  }

  lemma LastOfJoin(ls: seq<string>, line: string)
    requires Terminated(line)
    ensures Terminated(Join(ls + [line]))
  {
    JoinSnoc(ls, line);
  }

  lemma FilterCallsScript()
    ensures Contains(EVENTS_PRUNE_FILTER, PRUNE_LUA_PATH)
  {
    ContainsIn("    script ", PRUNE_LUA_PATH, "\n");
    ContainsInJoin(FILTER_LINES, 3, PRUNE_LUA_PATH);
  }

  predicate HasConfigKey(line: string) {
    HasKey(line, PASSWORD_KEY) || HasKey(line, PATH_KEY)
  }

  /** No line of the filter is a password line or a Path line. */
  lemma FilterKeys()
    ensures !AnyLine(FILTER_LINES, HasConfigKey)
  {
    HeadLineKey();
    NameLineKey();
    MatchLineKey();
    ScriptLineKey();
    CallLineKey();
    NoneOfFive(FILTER_LINES, HasConfigKey);
  }

  lemma NoneOfFive(ls: seq<string>, p: string -> bool)
    requires |ls| == 5 && !p(ls[0]) && !p(ls[1]) && !p(ls[2]) && !p(ls[3]) && !p(ls[4])
    ensures !AnyLine(ls, p)
  {
  }

  lemma HeadLineKey()
    ensures !HasConfigKey(FILTER_LINES[0])
  {
    OtherKey("", "[FILTER]", "\n", FILTER_LINES[0]);
  }

  lemma NameLineKey()
    ensures !HasConfigKey(FILTER_LINES[1])
  {
    OtherKey("    ", "Name", " lua\n", FILTER_LINES[1]);
  }

  lemma MatchLineKey()
    ensures !HasConfigKey(FILTER_LINES[2])
  {
    OtherKey("    ", "Match", " k8s_events\n", FILTER_LINES[2]);
  }

  lemma ScriptLineKey()
    ensures !HasConfigKey(FILTER_LINES[3])
  {
    assert "    script " == "    " + "script" + " ";
    OtherKey("    ", "script", " " + PRUNE_LUA_PATH + "\n", FILTER_LINES[3]);
  }

  lemma CallLineKey()
    ensures !HasConfigKey(FILTER_LINES[4])
  {
    OtherKey("    ", "call", " prune\n", FILTER_LINES[4]);
  }

  lemma OtherKey(indent: string, w: string, rest: string, line: string)
    requires line == indent + w + rest
    requires AllSpace(indent) && IsWord(w) && rest != [] && IsSpace(rest[0])
    requires |w| != |PASSWORD_KEY| && LowerChar(w[0]) != 'p'
    ensures !HasConfigKey(line)
  {
    KeyIs(indent, w, rest);
    PrefixDiffers(w, w, PATH_KEY);
  }

  lemma KeyIs(indent: string, w: string, rest: string)
    requires AllSpace(indent) && IsWord(w) && rest != [] && IsSpace(rest[0])
    ensures Words(indent + w + rest) != [] && Words(indent + w + rest)[0] == w
  {
    FirstWordGrows(indent, w, rest);
  }

  /** Where the filter goes: at a line boundary of the config, and nowhere else. */
  predicate PrunesAt(conf: string, out: string, a: string, b: string) {
    && conf == a + b
    && out == a + EVENTS_PRUNE_FILTER + b
    && Terminated(a)
  }

  lemma PruneCases(conf: string) returns (a: string, b: string)
    ensures PruneEvents(conf) == conf || PrunesAt(conf, PruneEvents(conf), a, b)
    ensures PruneEvents(conf) != conf ==>
      var i := Find(conf, OUTPUT_MARK);
      i.Some? && a == conf[..i.value + 1] && b == conf[i.value + 1..]
  {
    a, b := "", "";
    var i := Find(conf, OUTPUT_MARK);
    if i.Some? {
      a, b := conf[..i.value + 1], conf[i.value + 1..];
      assert conf[i.value..i.value + |OUTPUT_MARK|][0] == OUTPUT_MARK[0];
      assert conf == a + b;
    }
  }

  lemma PruneIdempotent(conf: string)
    ensures PruneEvents(PruneEvents(conf)) == PruneEvents(conf)
  {
    var a, b := PruneCases(conf);
    if PruneEvents(conf) != conf {
      FilterCallsScript();
      ContainsWithin(a, EVENTS_PRUNE_FILTER, b, PRUNE_LUA_PATH);
    }
  }

  lemma ContainsWithin(a: string, mid: string, b: string, p: string)
    requires Contains(mid, p)
    ensures Contains(a + mid + b, p)
  {
    var i :| 0 <= i <= |mid| && At(mid, p, i);
    assert (a + mid + b)[|a| + i..|a| + i + |p|] == mid[i..i + |p|];
    assert At(a + mid + b, p, |a| + i);
  }

  /** What none of the filter's lines satisfies, a line of the result satisfies exactly when one of the config did. */
  lemma PruneLines(conf: string, p: string -> bool)
    requires !AnyLine(FILTER_LINES, p)
    ensures AnyLine(Lines(PruneEvents(conf)), p) <==> AnyLine(Lines(conf), p)
  {
    var a, b := PruneCases(conf);
    if PruneEvents(conf) != conf {
      LinesAppend(a, b);
      InsertedFilter(a, b);
      AnyLineAppend(Lines(a), Lines(b), p);
      AnyLineAppend(Lines(a), FILTER_LINES, p);
      AnyLineAppend(Lines(a) + FILTER_LINES, Lines(b), p);
    }
  }

  /** The filter is for events watchers that do not run the script yet and have an output to put it before. */
  lemma PrunesIff(conf: string)
    ensures PruneEvents(conf) != conf
      <==> && Contains(conf, "Name kubernetes_events") && !Contains(conf, "/fluent-bit/etc/prune.lua")
           && Contains(conf, "\n[OUTPUT]\n")
    ensures Contains(PruneEvents(conf), PRUNE_LUA_PATH)
      <==> Contains(conf, PRUNE_LUA_PATH) || (Contains(conf, EVENTS_INPUT) && Contains(conf, OUTPUT_MARK))
  {
    var i := Find(conf, OUTPUT_MARK);
    if i.Some? {
      assert Contains(conf, OUTPUT_MARK);
      FilterCallsScript();
      ContainsWithin(conf[..i.value + 1], EVENTS_PRUNE_FILTER, conf[i.value + 1..], PRUNE_LUA_PATH);
    }
  }

  const OUTPUT_LINE: string := "[OUTPUT]\n"

  lemma MarkIsLine()
    ensures OUTPUT_MARK == "\n" + OUTPUT_LINE && IsLine(OUTPUT_LINE) && Terminated(OUTPUT_LINE)
  {
    assert '\n' !in "[OUTPUT]";
    LineOf("[OUTPUT]");
  }

  /** The filter goes, whole, right before the first `[OUTPUT]` line that has a line above it; no other line moves. */
  lemma PruneByLine(conf: string) returns (k: nat)
    ensures var ls := Lines(conf);
            PruneEvents(conf) == conf ||
            (&& 0 < k < |ls| && ls[k] == "[OUTPUT]\n"
             && Lines(PruneEvents(conf)) ==
                  ls[..k]
                  + ["[FILTER]\n", "    Name lua\n", "    Match k8s_events\n",
                     "    script /fluent-bit/etc/prune.lua\n", "    call prune\n"]
                  + ls[k..]
             && forall j | 0 < j < k :: ls[j] != "[OUTPUT]\n")
  {
    var ls := Lines(conf);
    var a, b := PruneCases(conf);
    k := 0;
    if PruneEvents(conf) != conf {
      var i := Find(conf, OUTPUT_MARK).value;
      k := |Lines(a)|;
      LinesAppend(a, b);
      InsertedFilter(a, b);
      LastLineTerminated(a);
      OutputFollows(conf, a, b, i);
      FilterText();
      assert ls[..k] == Lines(a) && ls[k..] == Lines(b);
      forall j | 0 < j < k ensures ls[j] != OUTPUT_LINE {
        if ls[j] == OUTPUT_LINE {
          EarlierMark(a, b, j);
          assert false;
        }
      }
    }
  }

  lemma FilterText()
    ensures FILTER_LINES
         == ["[FILTER]\n", "    Name lua\n", "    Match k8s_events\n",
             "    script /fluent-bit/etc/prune.lua\n", "    call prune\n"]
  {
    ScriptLineText();
  }

  lemma ScriptLineText()
    ensures "    script " + PRUNE_LUA_PATH + "\n" == "    script /fluent-bit/etc/prune.lua\n"
  {
  }

  lemma InsertedFilter(a: string, b: string)
    requires Terminated(a)
    ensures Lines(a + EVENTS_PRUNE_FILTER + b) == Lines(a) + FILTER_LINES + Lines(b)
  {
    FilterLines();
    LinesAppend(a, EVENTS_PRUNE_FILTER);
    assert Terminated(a + EVENTS_PRUNE_FILTER);
    LinesAppend(a + EVENTS_PRUNE_FILTER, b);
  }

  lemma OutputFollows(conf: string, a: string, b: string, i: nat)
    requires At(conf, OUTPUT_MARK, i) && a == conf[..i + 1] && b == conf[i + 1..]
    ensures Lines(b) != [] && Lines(b)[0] == OUTPUT_LINE
  {
    MarkIsLine();
    var rest := b[|OUTPUT_LINE|..];
    assert conf[i..i + |OUTPUT_MARK|] == OUTPUT_MARK;
    assert b == conf[i..i + |OUTPUT_MARK|][1..] + rest;
    assert OUTPUT_MARK[1..] == OUTPUT_LINE;
    LineLenOf(OUTPUT_LINE, rest);
    assert b[..|OUTPUT_LINE|] == OUTPUT_LINE;
  }

  /** An `[OUTPUT]` line below another line is an occurrence of the mark. */
  lemma EarlierMark(a: string, b: string, j: nat)
    requires 0 < j < |Lines(a)| && Lines(a)[j] == OUTPUT_LINE
    ensures exists m | 0 <= m < |a| - 1 :: At(a + b, OUTPUT_MARK, m)
  {
    var la := Lines(a);
    LinesRebuild(a);
    JoinAround(la, j);
    var before, after := Join(la[..j]), Join(la[j + 1..]);
    JoinTerminated(la, j);
    MarkAt(before, after + b);
    Reassociate(before, OUTPUT_LINE, after, b);
  }

  lemma JoinTerminated(ls: seq<string>, j: nat)
    requires AreLines(ls) && 0 < j < |ls|
    ensures Terminated(Join(ls[..j]))
  {
    assert ls[..j] == ls[..j - 1] + [ls[j - 1]];
    LastOfJoin(ls[..j - 1], ls[j - 1]);
  }

  lemma MarkAt(before: string, after: string)
    requires Terminated(before)
    ensures At(before + OUTPUT_LINE + after, OUTPUT_MARK, |before| - 1)
  {
    MarkIsLine();
    var s := before + OUTPUT_LINE + after;
    var m := |before| - 1;
    assert s == before[..m] + OUTPUT_MARK + after;
    assert s[m..m + |OUTPUT_MARK|] == OUTPUT_MARK;
  }

  lemma NoneImplied(ls: seq<string>, p: string -> bool, q: string -> bool)
    requires !AnyLine(ls, q) && forall line | p(line) :: q(line)
    ensures !AnyLine(ls, p)
  {
  }

  // ── the whole normalisation ─────────────────────────────────────────

  /** What `agent_manifests` puts in the ConfigMap. */
  function Normalised(conf: string, ns: string): string {
    PruneEvents(ExcludePlatform(ExternalizePassword(conf), ns))
  }

  lemma ExcludeIdempotent(conf: string, ns: string)
    ensures ExcludeSettled(ExcludePlatform(conf, ns), ns)
  {
    LinesRebuild(conf);
    var ls := Lines(conf);
    var exclude := Exclusion(ns);
    if AnyLine(ls, IsScopedTail) && !Contains(conf, exclude) {
      var k := FirstLine(ls, IsExclude);
      if k.Some? {
        ExtendedContains(ls[k.value], exclude);
        ContainsInJoin(ls[k.value := Extended(ls[k.value], exclude)], k.value, exclude);
      } else {
        ScopedHasPath(ls);
        InsertedContains(ls, FirstLine(ls, IsPath).value, ns);
      }
    }
  }

  /** The exclusion has nothing more to do. */
  predicate ExcludeSettled(conf: string, ns: string) {
    !AnyLine(Lines(conf), IsScopedTail) || Contains(conf, Exclusion(ns))
  }

  lemma SettledIsFixed(conf: string, ns: string)
    requires ExcludeSettled(conf, ns)
    ensures ExcludePlatform(conf, ns) == conf
  {
  }

  lemma PruneKeepsSettled(conf: string, ns: string)
    requires ExcludeSettled(conf, ns) && IsNamespace(ns)
    ensures ExcludeSettled(PruneEvents(conf), ns)
  {
    if Contains(conf, Exclusion(ns)) {
      var a, b := PruneCases(conf);
      if PruneEvents(conf) != conf {
        ExclusionIsWord(ns);
        ContainsAcrossInsert(a, b, EVENTS_PRUNE_FILTER, Exclusion(ns));
      }
    } else {
      FilterKeys();
      NoneImplied(FILTER_LINES, IsScopedTail, HasConfigKey);
      PruneLines(conf, IsScopedTail);
    }
  }

  /** Neither later step brings a password back. */
  lemma ExcludeAddsNoPlain(conf: string, ns: string)
    requires !AnyLine(Lines(conf), IsPlain) && IsNamespace(ns)
    ensures !AnyLine(Lines(ExcludePlatform(conf, ns)), IsPlain)
  {
    LinesRebuild(conf);
    var ls := Lines(conf);
    if AnyLine(ls, IsScopedTail) && !Contains(conf, Exclusion(ns)) {
      ScopedHasPath(ls);
      var k, p := FirstLine(ls, IsExclude), FirstLine(ls, IsPath).value;
      if k.Some? {
        ExtendedLines(ls, k.value, ns);
        ExtendedNotPlain(ls[k.value], ns);
        ReplacedHasNone(ls, k.value, Extended(ls[k.value], Exclusion(ns)), IsPlain);
      } else {
        InsertedNotPlain(ls, p, ns);
      }
    }
  }

  lemma ReplacedHasNone(ls: seq<string>, k: nat, x: string, p: string -> bool)
    requires k < |ls| && !AnyLine(ls, p) && !p(x)
    ensures !AnyLine(ls[k := x], p)
  {
  }

  lemma InsertedHasNone(ls: seq<string>, k: nat, x: string, p: string -> bool)
    requires k <= |ls| && !AnyLine(ls, p) && !p(x)
    ensures !AnyLine(ls[..k] + [x] + ls[k..], p)
  {
    var out := ls[..k] + [x] + ls[k..];
    assert forall i | 0 <= i < |out| :: out[i] == (if i < k then ls[i] else if i == k then x else ls[i - 1]);
  }

  lemma ExtendedNotPlain(line: string, ns: string)
    requires IsExclude(line)
    ensures !IsPlain(Extended(line, Exclusion(ns)))
  {
    ExtendedKey(line, Exclusion(ns));
    OtherFirstLetter(line, Extended(line, Exclusion(ns)), EXCLUDE_KEY);
  }

  /** A line whose first word grew from another key is not a password line. */
  lemma OtherFirstLetter(line: string, grown: string, key: string)
    requires HasKey(line, key) && key != [] && LowerChar(key[0]) != 'h'
    requires Words(grown) != [] && Words(line)[0] <= Words(grown)[0]
    ensures !IsPlain(grown)
  {
    var w := Words(line)[0];
    assert LowerChar(w[0]) == LowerChar(key[0]);
    PrefixDiffers(w, Words(grown)[0], PASSWORD_KEY);
  }

  lemma InsertedNotPlain(ls: seq<string>, p: nat, ns: string)
    requires AreLines(ls) && !AnyLine(ls, IsPlain)
    requires p < |ls| && IsPath(ls[p]) && IsNamespace(ns)
    ensures !AnyLine(Lines(Join(ls[p := ls[p] + Inserted(ls[p], Exclusion(ns))])), IsPlain)
  {
    InsertedLine(ls[p], ns);
    var x := Inserted(ls[p], Exclusion(ns));
    if Terminated(ls[p]) {
      OtherFirstLetter(x, x, EXCLUDE_KEY);
      AddedLineHasNone(ls, p, x, IsPlain);
    } else {
      MergedLine(ls[p], x);
      MergedHasNone(ls, p, x, IsPlain);
    }
  }

  lemma AddedLineHasNone(ls: seq<string>, p: nat, x: string, q: string -> bool)
    requires AreLines(ls) && p < |ls| && Terminated(ls[p]) && IsLine(x) && Terminated(x)
    requires !AnyLine(ls, q) && !q(x)
    ensures !AnyLine(Lines(Join(ls[p := ls[p] + x])), q)
  {
    InsertedLines(ls, p, x);
    InsertedHasNone(ls, p + 1, x, q);
  }

  lemma MergedHasNone(ls: seq<string>, p: nat, x: string, q: string -> bool)
    requires AreLines(ls) && p < |ls| && !Terminated(ls[p]) && IsLine(ls[p] + x)
    requires !AnyLine(ls, q) && !q(ls[p] + x)
    ensures !AnyLine(Lines(Join(ls[p := ls[p] + x])), q)
  {
    LinesOfJoin(ls[p := ls[p] + x]);
    ReplacedHasNone(ls, p, ls[p] + x, q);
  }

  /** A Path line without a newline at the end of the config takes the added text on the same line. */
  lemma MergedLine(line: string, x: string)
    requires IsLine(line) && !Terminated(line) && IsPath(line) && IsLine(x)
    ensures IsLine(line + x) && !IsPlain(line + x)
  {
    MergedKey(line, x);
    OtherFirstLetter(line, line + x, PATH_KEY);
  }

  lemma MergedKey(line: string, x: string)
    requires Words(line) != []
    ensures Words(line + x) != [] && Words(line)[0] <= Words(line + x)[0]
  {
    var indent, w, rest := FirstWord(line);
    Reassociate(indent, w, rest, x);
    FirstWordGrows(indent, w, rest + x);
  }

  lemma Reassociate(a: string, b: string, c: string, d: string)
    ensures a + b + c + d == a + b + (c + d)
  {
  }

  /** After the normalisation every password line, in any letter case, says the variable. */
  lemma NoPasswordLeft(conf: string, ns: string)
    requires IsNamespace(ns)
    ensures !AnyLine(Lines(Normalised(conf, ns)), IsPlain)
  {
    ExternalizeByLine(conf);
    ExcludeAddsNoPlain(ExternalizePassword(conf), ns);
    FilterKeys();
    NoneImplied(FILTER_LINES, IsPlain, HasConfigKey);
    PruneLines(ExcludePlatform(ExternalizePassword(conf), ns), IsPlain);
  }

  /** A config some of the steps have already been through normalises to the same text. */
  lemma PartlyNormalised(conf: string, ns: string)
    requires IsNamespace(ns)
    ensures Normalised(ExternalizePassword(conf), ns) == Normalised(conf, ns)
    ensures Normalised(ExcludePlatform(ExternalizePassword(conf), ns), ns) == Normalised(conf, ns)
    ensures Normalised(Normalised(conf, ns), ns) == Normalised(conf, ns)
  {
    var external := ExternalizePassword(conf);
    var excluded := ExcludePlatform(external, ns);
    ExternalizeByLine(conf);
    ExternalizeSettled(external);
    ExcludeAddsNoPlain(external, ns);
    ExternalizeSettled(excluded);
    ExcludeIdempotent(external, ns);
    SettledIsFixed(excluded, ns);
    NormalisedIdempotent(conf, ns);
  }

  /** Re-applying a deployed config gives the same text, whatever the config. */
  lemma NormalisedIdempotent(conf: string, ns: string)
    requires IsNamespace(ns)
    ensures Normalised(Normalised(conf, ns), ns) == Normalised(conf, ns)
  {
    var external := ExternalizePassword(conf);
    var out := Normalised(conf, ns);
    NoPasswordLeft(conf, ns);
    ExternalizeSettled(out);
    ExcludeIdempotent(external, ns);
    PruneKeepsSettled(ExcludePlatform(external, ns), ns);
    SettledIsFixed(out, ns);
    PruneIdempotent(ExcludePlatform(external, ns));
  }

  // ── independence from the password ──────────────────────────────────

  /** One line of a config template: as it stands, or a password line whose value is the hole. */
  datatype TemplateLine = Fixed(line: string) | Hole(indent: string, key: string, terminated: bool)

  predicate ValidTemplate(template: seq<TemplateLine>) {
    forall i | 0 <= i < |template| ::
      match template[i]
      case Fixed(line) => IsLine(line) && (i < |template| - 1 ==> Terminated(line))
      case Hole(indent, key, terminated) =>
        && AllSpace(indent) && '\n' !in indent
        && IsWord(key) && SameIgnoringCase(key, PASSWORD_KEY)
        && (i < |template| - 1 ==> terminated)
  }

  function RenderLine(t: TemplateLine, password: string): string {
    match t
    case Fixed(line) => line
    case Hole(indent, key, terminated) => indent + key + " " + password + (if terminated then "\n" else "")
  }

  function RenderLines(template: seq<TemplateLine>, password: string): (ls: seq<string>)
    ensures |ls| == |template|
    ensures forall i | 0 <= i < |template| :: ls[i] == RenderLine(template[i], password)
  {
    if template == [] then [] else [RenderLine(template[0], password)] + RenderLines(template[1..], password)
  }

  function Render(template: seq<TemplateLine>, password: string): string {
    Join(RenderLines(template, password))
  }

  /**
   A password the rewrite cannot mistake for the reference with something after
   it: one line, and its first word is the reference only if it is the reference.
   */
  predicate Unmistakable(password: string) {
    && '\n' !in password
    && (Words(password) != [] && Words(password)[0] == PASSWORD_REF ==> password == PASSWORD_REF)
  }

  lemma NoSpaceIsUnmistakable(password: string)
    requires NoSpace(password)
    ensures Unmistakable(password)
  {
    assert IsSpace('\n');
    if password != [] {
      WordsOfWord(password);
    }
  }

  lemma HoleLine(t: TemplateLine, password: string)
    requires t.Hole? && AllSpace(t.indent) && '\n' !in t.indent && IsWord(t.key)
    requires SameIgnoringCase(t.key, PASSWORD_KEY) && '\n' !in password
    ensures var line := RenderLine(t, password);
            && IsLine(line)
            && (Terminated(line) <==> t.terminated)
            && Indent(line) == t.indent
            && Words(line) == [t.key] + Words(password)
            && HasKey(line, PASSWORD_KEY)
  {
    var eol := if t.terminated then "\n" else "";
    HoleShape(t.indent + t.key + " " + password, eol);
    HoleIndent(t.indent, t.key, " " + password + eol);
    HoleWords(t.indent, t.key, password, eol);
    HoleParts(t, password, eol);
  }

  lemma HoleParts(t: TemplateLine, password: string, eol: string)
    requires t.Hole? && eol == if t.terminated then "\n" else ""
    ensures RenderLine(t, password) == t.indent + t.key + (" " + password + eol)
    ensures RenderLine(t, password) == t.indent + t.key + " " + password + eol
  {
  }

  lemma HoleShape(body: string, eol: string)
    requires body != [] && '\n' !in body && IsEol(eol)
    ensures IsLine(body + eol) && (Terminated(body + eol) <==> eol == "\n")
  {
  }

  lemma HoleIndent(indent: string, key: string, rest: string)
    requires AllSpace(indent) && IsWord(key)
    ensures Indent(indent + key + rest) == indent
  {
    assert indent + key + rest == indent + (key + rest);
    SpaceLenOf(indent, key + rest);
  }

  lemma HoleWords(indent: string, key: string, password: string, eol: string)
    requires AllSpace(indent) && IsWord(key) && IsEol(eol)
    ensures Words(indent + key + (" " + password + eol)) == [key] + Words(password)
  {
    var value := password + eol;
    assert " " + password + eol == " " + value;
    WordsOfParts(indent, key, " " + value);
    WordsAfterSpace(" ", value);
    WordsBeforeEol(password, eol);
  }

  lemma {:induction false} WordsBeforeEol(s: string, eol: string)
    requires IsEol(eol)
    ensures Words(s + eol) == Words(s)
    decreases |s|
  {
    if eol == "" {
      assert s + eol == s;
    } else if s == [] {
      WordsAfterSpace(eol, "");
      assert s + eol == eol + "";
    } else if IsSpace(s[0]) {
      assert (s + eol)[1..] == s[1..] + eol;
      WordsBeforeEol(s[1..], eol);
    } else {
      WordBeforeEol(s, eol);
      WordsBeforeEol(s[WordLen(s)..], eol);
    }
  }

  lemma WordBeforeEol(s: string, eol: string)
    requires s != [] && !IsSpace(s[0]) && eol == "\n"
    ensures Words(s + eol) == [s[..WordLen(s)]] + Words(s[WordLen(s)..] + eol)
  {
    var w, rest := s[..WordLen(s)], s[WordLen(s)..] + eol;
    assert s + eol == w + rest;
    assert IsSpace('\n');
    assert IsWord(w);
    WordsOfWordThen(w, rest);
  }

  /** The hole's line becomes the one reference line exactly when the rewrite cannot mistake the password. */
  lemma HoleBecomesReference(t: TemplateLine, password: string)
    requires t.Hole? && AllSpace(t.indent) && '\n' !in t.indent && IsWord(t.key)
    requires SameIgnoringCase(t.key, PASSWORD_KEY) && '\n' !in password
    ensures var reference := ReferenceLine(t.indent, t.key, if t.terminated then "\n" else "");
            Externalized(RenderLine(t, password)) == reference <==> Unmistakable(password)
  {
    HoleLine(t, password);
    var before, eol := t.indent + t.key + " ", if t.terminated then "\n" else "";
    if before + password + eol == before + PASSWORD_REF + eol {
      MiddleIsUnique(before, password, PASSWORD_REF, eol);
    }
  }

  lemma MiddleIsUnique(before: string, x: string, y: string, after: string)
    requires before + x + after == before + y + after
    ensures x == y
  {
    assert x == (before + x + after)[|before|..|before| + |x|];
    assert y == (before + y + after)[|before|..|before| + |y|];
  }

  /**
   Two passwords the rewrite cannot mistake, whitespace-free ones among them, give
   the same normalised config.
   */
  lemma PasswordIndependent(template: seq<TemplateLine>, one: string, two: string, ns: string)
    requires ValidTemplate(template) && Unmistakable(one) && Unmistakable(two)
    ensures Normalised(Render(template, one), ns) == Normalised(Render(template, two), ns)
  {
    RenderedLines(template, one);
    RenderedLines(template, two);
    forall i | 0 <= i < |template|
      ensures Externalized(RenderLines(template, one)[i]) == Externalized(RenderLines(template, two)[i])
    {
      if template[i].Hole? {
        HoleBecomesReference(template[i], one);
        HoleBecomesReference(template[i], two);
      }
    }
    assert MapLines(RenderLines(template, one), Externalized) == MapLines(RenderLines(template, two), Externalized);
  }

  lemma RenderedLines(template: seq<TemplateLine>, password: string)
    requires ValidTemplate(template) && '\n' !in password
    ensures Lines(Render(template, password)) == RenderLines(template, password)
  {
    forall i | 0 <= i < |template|
      ensures IsLine(RenderLines(template, password)[i])
      ensures i < |template| - 1 ==> Terminated(RenderLines(template, password)[i])
    {
      if template[i].Hole? {
        HoleLine(template[i], password);
      }
    }
    LinesOfJoin(RenderLines(template, password));
  }
}
