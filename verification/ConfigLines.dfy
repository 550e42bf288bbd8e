/**
 The rewrites of src/agents.rs on lines written out: an indent, a key, a value and
 the end of the line. Fluent Bit reads keys in any letter case.
 */
module ConfigLines {
  import opened Text
  import opened AgentConfig

  function ConfigLine(indent: string, key: string, value: string, eol: string): string {
    indent + key + " " + value + eol
  }

  predicate AreParts(indent: string, key: string, value: string, eol: string) {
    AllSpace(indent) && '\n' !in indent && IsWord(key) && IsWord(value) && IsEol(eol)
  }

  lemma LineParts(indent: string, key: string, value: string, eol: string)
    requires AreParts(indent, key, value, eol)
    ensures var line := ConfigLine(indent, key, value, eol);
            && Words(line) == [key, value] && Indent(line) == indent
            && Eol(line) == eol && Body(line) == indent + key + " " + value && IsLine(line)
  {
    PairWords(indent, key, value, eol);
    Indented(indent, key, " " + value + eol);
    LineEnds(indent + key + " " + value, eol);
    assert ConfigLine(indent, key, value, eol) == indent + (key + (" " + value + eol));
    assert '\n' !in key && '\n' !in value by { assert IsSpace('\n'); }
    assert (indent + key + " " + value)[|indent + key + " " + value| - 1] == value[|value| - 1];
  }

  lemma Indented(indent: string, key: string, rest: string)
    requires AllSpace(indent) && IsWord(key)
    ensures Indent(indent + (key + rest)) == indent
  {
    assert (key + rest)[0] == key[0];
    SpaceLenOf(indent, key + rest);
  }

  lemma LineEnds(body: string, eol: string)
    requires '\n' !in body && IsEol(eol)
    ensures Eol(body + eol) == eol && Body(body + eol) == body
    ensures body + eol != "" ==> IsLine(body + eol)
  {
    assert eol == "" ==> body + eol == body;
  }

  // ── keys in any letter case ─────────────────────────────────────────

  lemma KeysSpelled(key: string)
    ensures SameIgnoringCase(key, PASSWORD_KEY) <==> Spells(key, "http_passwd", "HTTP_PASSWD")
    ensures SameIgnoringCase(key, PATH_KEY) <==> Spells(key, "path", "PATH")
    ensures SameIgnoringCase(key, EXCLUDE_KEY) <==> Spells(key, "exclude_path", "EXCLUDE_PATH")
  {
    SpellsName(key, PASSWORD_KEY, "http_passwd", "HTTP_PASSWD");
    SpellsName(key, PATH_KEY, "path", "PATH");
    SpellsName(key, EXCLUDE_KEY, "exclude_path", "EXCLUDE_PATH");
  }

  // ── the rewrites ────────────────────────────────────────────────────

  /** A password line gets the variable in place of its value and keeps its indent and key; no other line moves. */
  lemma PasswordLine(indent: string, key: string, value: string, eol: string)
    requires AreParts(indent, key, value, eol)
    ensures Externalized(ConfigLine(indent, key, value, eol)) ==
              ConfigLine(
                indent, key, if Spells(key, "http_passwd", "HTTP_PASSWD") then "${VELOX_OS_PASSWORD}" else value, eol)
  {
    LineParts(indent, key, value, eol);
    KeysSpelled(key);
  }

  /** A tailer is a service's when its Path is under the container logs and not all of them. */
  lemma ScopedLine(indent: string, key: string, value: string, eol: string)
    requires AreParts(indent, key, value, eol)
    ensures IsScopedTail(ConfigLine(indent, key, value, eol)) <==>
              && Spells(key, "path", "PATH")
              && "/var/log/containers/" <= value && value != "/var/log/containers/*.log"
    ensures IsPath(ConfigLine(indent, key, value, eol)) <==> Spells(key, "path", "PATH")
    ensures IsExclude(ConfigLine(indent, key, value, eol)) <==> Spells(key, "exclude_path", "EXCLUDE_PATH")
  {
    LineParts(indent, key, value, eol);
    KeysSpelled(key);
  }

  /** The two edits of the exclusion, spelled out. */
  lemma ExclusionEdits(indent: string, key: string, value: string, eol: string, ns: string)
    requires AreParts(indent, key, value, eol)
    ensures var glob := "/var/log/containers/*_" + ns + "_*.log";
            var line := ConfigLine(indent, key, value, eol);
            && Extended(line, Exclusion(ns)) == ConfigLine(indent, key, value + "," + glob, eol)
            && Inserted(line, Exclusion(ns)) == ConfigLine(indent, "Exclude_Path", glob, "\n")
  {
    LineParts(indent, key, value, eol);
    GlobOf(ns);
    ExtendedJoins(indent + key + " ", value, Exclusion(ns), eol);
  }

  lemma ExtendedJoins(head: string, value: string, glob: string, eol: string)
    ensures head + value + "," + glob + eol == head + (value + "," + glob) + eol
  {
  }

  lemma GlobOf(ns: string)
    ensures Exclusion(ns) == "/var/log/containers/*_" + ns + "_*.log"
  {
    assert CONTAINER_LOGS + "*_" == "/var/log/containers/*_";
  }

  /** The text has no Path and no Exclude_Path line. */
  predicate NoPaths(text: string) {
    !AnyLine(Lines(text), IsPath) && !AnyLine(Lines(text), IsExclude)
  }

  /**
   A config with one Path line, a service's: the exclusion goes on a line of its own
   right below, in the same indent, and any other such config is left.
   */
  lemma OnePathConfig(head: string, indent: string, key: string, value: string, rest: string, ns: string)
    requires AreParts(indent, key, value, "\n") && Spells(key, "path", "PATH")
    requires (head == "" || Terminated(head)) && NoPaths(head) && NoPaths(rest)
    requires !Contains(head + ConfigLine(indent, key, value, "\n") + rest, Exclusion(ns))
    ensures var line := ConfigLine(indent, key, value, "\n");
            var glob := "/var/log/containers/*_" + ns + "_*.log";
            ExcludePlatform(head + line + rest, ns) ==
              if "/var/log/containers/" <= value && value != "/var/log/containers/*.log"
              then head + (line + ConfigLine(indent, "Exclude_Path", glob, "\n")) + rest
              else head + line + rest
  {
    LineParts(indent, key, value, "\n");
    ScopedLine(indent, key, value, "\n");
    ExclusionEdits(indent, key, value, "\n", ns);
    NotBoth(key);
    OnePathLine(head, ConfigLine(indent, key, value, "\n"), rest, ns);
  }

  lemma OnePathLine(head: string, line: string, rest: string, ns: string)
    requires IsLine(line) && Terminated(line) && IsPath(line) && !IsExclude(line)
    requires (head == "" || Terminated(head)) && NoPaths(head) && NoPaths(rest)
    requires !Contains(head + line + rest, Exclusion(ns))
    ensures ExcludePlatform(head + line + rest, ns) ==
              head + (if IsScopedTail(line) then line + Inserted(line, Exclusion(ns)) else line) + rest
  {
    var a, b := Lines(head), Lines(rest);
    LinesAround(head, line, rest);
    OnePathFound(a, line, b);
    InsertsAt(head + line + rest, a, line, b, ns);
    JoinOfThree(a, line + Inserted(line, Exclusion(ns)), b);
  }

  lemma OnePathFound(a: seq<string>, line: string, b: seq<string>)
    requires !AnyLine(a, IsPath) && !AnyLine(b, IsPath) && !AnyLine(a, IsExclude) && !AnyLine(b, IsExclude)
    requires IsPath(line) && !IsExclude(line)
    ensures FirstLine(a + [line] + b, IsPath) == Some(|a|) && FirstLine(a + [line] + b, IsExclude).None?
    ensures AnyLine(a + [line] + b, IsScopedTail) <==> IsScopedTail(line)
  {
    OnlyAt(a, line, b, IsPath);
    OnlyAt(a, line, b, IsExclude);
    ScopedIsPath(a);
    ScopedIsPath(b);
    OnlyAt(a, line, b, IsScopedTail);
  }

  lemma InsertsAt(conf: string, a: seq<string>, line: string, b: seq<string>, ns: string)
    requires Lines(conf) == a + [line] + b && !Contains(conf, Exclusion(ns))
    requires FirstLine(a + [line] + b, IsPath) == Some(|a|) && FirstLine(a + [line] + b, IsExclude).None?
    requires AnyLine(a + [line] + b, IsScopedTail) <==> IsScopedTail(line)
    ensures ExcludePlatform(conf, ns)
         == if IsScopedTail(line) then Join(a + [line + Inserted(line, Exclusion(ns))] + b) else conf
  {
    var two := line + Inserted(line, Exclusion(ns));
    assert (a + [line] + b)[|a| := two] == a + [two] + b;
  }

  lemma NotBoth(key: string)
    requires Spells(key, "path", "PATH")
    ensures !Spells(key, "exclude_path", "EXCLUDE_PATH")
  {
    assert |"path"| != |"exclude_path"|;
  }

  lemma LinesAround(head: string, line: string, rest: string)
    requires (head == "" || Terminated(head)) && IsLine(line) && Terminated(line)
    ensures Lines(head + line + rest) == Lines(head) + [line] + Lines(rest)
    ensures Join(Lines(head)) == head && Join(Lines(rest)) == rest
  {
    LinesAppend(head, line);
    LinesAppend(head + line, rest);
    LinesOfJoin([line]);
    LinesRebuild(head);
    LinesRebuild(rest);
    assert Join([line]) == line;
    assert (head + line)[|head + line| - 1] == line[|line| - 1];
  }

  lemma OnlyAt(a: seq<string>, line: string, b: seq<string>, p: string -> bool)
    requires !AnyLine(a, p) && !AnyLine(b, p)
    ensures FirstLine(a + [line] + b, p) == if p(line) then Some(|a|) else None
    ensures AnyLine(a + [line] + b, p) <==> p(line)
  {
    AnyLineAppend(a + [line], b, p);
    AnyLineAppend(a, [line], p);
    assert AnyLine([line], p) == p([line][0]);
    assert forall i | 0 <= i < |a| :: (a + [line] + b)[i] == a[i];
    assert (a + [line] + b)[|a|] == line;
  }

  lemma ScopedIsPath(ls: seq<string>)
    ensures !AnyLine(ls, IsPath) ==> !AnyLine(ls, IsScopedTail)
  {
  }

  lemma JoinOfThree(a: seq<string>, text: string, b: seq<string>)
    ensures Join(a + [text] + b) == Join(a) + text + Join(b)
  {
    JoinSnoc(a, text);
    JoinAppend(a + [text], b);
  }
}
