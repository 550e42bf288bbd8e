/**
 Which collectors the events prune filter of src/agents.rs reaches. The rewrites before
 it move no text into a config that would make it look like an events watcher, so an
 ordinary collector gets neither the filter nor the script.
 */
module PruneReach {
  import opened Text
  import opened AgentConfig
  import opened AgentManifests

  // ── where a pattern can come from ───────────────────────────────────

  /** Whitespace after a text completes no pattern that ends on another character. */
  lemma NotInTrailingSpace(a: string, indent: string, p: string)
    requires Contains(a + indent, p) && AllSpace(indent)
    requires p != "" && !IsSpace(p[|p| - 1])
    ensures Contains(a, p)
  {
    var s := a + indent;
    var i :| 0 <= i <= |s| && At(s, p, i);
    CharOfOccurrence(s, p, i, |p| - 1);
    assert forall k | |a| <= k < |s| :: s[k] == indent[k - |a|];
    assert i + |p| <= |a|;
    assert s[i..i + |p|] == a[i..i + |p|];
    assert At(a, p, i);
  }

  /** Every piece of a text but the last ends a line. */
  predicate ArePieces(ls: seq<string>) {
    forall i | 0 <= i < |ls| - 1 :: Terminated(ls[i])
  }

  /** A one-line pattern occurs in a text exactly when it occurs in a piece. */
  lemma {:induction false} InOnePiece(ls: seq<string>, p: string)
    requires ArePieces(ls) && '\n' !in p && p != ""
    ensures Contains(Join(ls), p) <==> AnyLine(ls, (l: string) => Contains(l, p))
  {
    var has := (l: string) => Contains(l, p);
    if ls == [] {
      assert !Contains("", p);
    } else {
      assert forall i | 0 <= i < |ls[1..]| :: ls[1..][i] == ls[i + 1];
      InOnePiece(ls[1..], p);
      AnyLineAppend([ls[0]], ls[1..], has);
      assert [ls[0]] + ls[1..] == ls && AnyLine([ls[0]], has) == has([ls[0]][0]);
      InHeadOrTail(ls[0], ls[1..], p);
    }
  }

  lemma InHeadOrTail(line: string, rest: seq<string>, p: string)
    requires rest != [] ==> Terminated(line)
    requires '\n' !in p && p != ""
    ensures Contains(line + Join(rest), p) <==> Contains(line, p) || Contains(Join(rest), p)
  {
    if rest == [] {
      assert line + Join(rest) == line && !Contains("", p);
    } else {
      var body := line[..|line| - 1];
      assert line == body + "\n" && line + Join(rest) == body + ['\n'] + Join(rest);
      if Contains(line + Join(rest), p) {
        OneSide(body, '\n', Join(rest), p);
        if Contains(body, p) {
          ContainsWithin("", body, "\n", p);
          assert "" + body + "\n" == line;
        }
      }
      if Contains(line, p) {
        ContainsWithin("", line, Join(rest), p);
        assert "" + line == line;
      }
      if Contains(Join(rest), p) {
        ContainsWithin(line, Join(rest), "", p);
        assert line + Join(rest) + "" == line + Join(rest);
      }
    }
  }

  // ── the texts the prune step looks for ──────────────────────────────

  /** What of a pattern keeps the rewrites from spelling it. */
  predicate IsForeign(p: string) {
    && p != "" && !IsSpace(p[|p| - 1])
    && '\n' !in p && ',' !in p && 'E' !in p
    && ('k' in p || '/' in p)
  }

  lemma LooksForForeign()
    ensures IsForeign(EVENTS_INPUT) && IsForeign(PRUNE_LUA_PATH)
  {
    InputIsForeign();
    ScriptIsForeign();
  }

  lemma InputIsForeign()
    ensures IsForeign(EVENTS_INPUT)
  {
    assert EVENTS_INPUT[5] == 'k';
    assert EVENTS_INPUT[|EVENTS_INPUT| - 1] == 's' && !IsSpace('s');
  }

  lemma ScriptIsForeign()
    ensures IsForeign(PRUNE_LUA_PATH)
  {
    assert PRUNE_LUA_PATH[0] == '/';
    assert PRUNE_LUA_PATH[|PRUNE_LUA_PATH| - 1] == 'a' && !IsSpace('a');
  }

  /** A rewritten password line has neither letter. */
  lemma RewrittenHas(line: string, p: string)
    requires IsForeign(p) && IsLine(line) && Contains(Externalized(line), p)
    ensures Contains(line, p)
  {
    if IsPlain(line) {
      IndentOfLine(line);
      KeyLetters(Words(line)[0]);
      RewrittenLacks(Indent(line), Words(line)[0], Eol(line), p);
      assert false;
    }
  }

  lemma RewrittenLacks(indent: string, key: string, eol: string, p: string)
    requires IsForeign(p) && AllSpace(indent) && 'k' !in key && '/' !in key && IsEol(eol)
    ensures !Contains(indent + key + " " + PASSWORD_REF + eol, p)
  {
    var x := indent + key + " " + PASSWORD_REF + eol;
    assert 'k' !in PASSWORD_REF && '/' !in PASSWORD_REF;
    assert !IsSpace('k') && !IsSpace('/');
    LacksChar(x, p, if 'k' in p then 'k' else '/');
  }

  lemma KeyLetters(key: string)
    requires SameIgnoringCase(key, PASSWORD_KEY)
    ensures 'k' !in key && '/' !in key
  {
    assert forall i | 0 <= i < |PASSWORD_KEY| :: LowerChar(PASSWORD_KEY[i]) != 'k' && LowerChar(PASSWORD_KEY[i]) != '/';
    forall i | 0 <= i < |key| ensures key[i] != 'k' && key[i] != '/' {
      assert LowerChar(key[i]) == LowerChar(PASSWORD_KEY[i]);
    }
  }

  lemma ExternalizeBringsNone(conf: string, p: string)
    requires IsForeign(p) && Contains(ExternalizePassword(conf), p)
    ensures Contains(conf, p)
  {
    var ls := Lines(conf);
    var has := (l: string) => Contains(l, p);
    LinesRebuild(conf);
    var out := MapLines(ls, Externalized);
    forall i | 0 <= i < |ls| - 1 ensures Terminated(out[i]) {
      ExternalizedLine(ls[i]);
    }
    InOnePiece(out, p);
    InOnePiece(ls, p);
    var i :| 0 <= i < |out| && has(out[i]);
    RewrittenHas(ls[i], p);
    assert has(ls[i]);
  }

  /** The glob does not spell it, alone or after the inserted key. */
  predicate GlobLacks(ns: string, p: string) {
    !Contains(Exclusion(ns), p) && !Contains(EXCLUDE_KEY[1..] + " " + Exclusion(ns) + "\n", p)
  }

  lemma ExtendedHas(line: string, ns: string, p: string)
    requires IsForeign(p) && GlobLacks(ns, p) && Contains(Extended(line, Exclusion(ns)), p)
    ensures Contains(line, p)
  {
    InListed(Body(line), Exclusion(ns), Eol(line), p);
    BodyOf(line);
    ContainsWithin("", Body(line), Eol(line), p);
  }

  lemma BodyOf(line: string)
    ensures "" + Body(line) + Eol(line) == line
  {
  }

  lemma InListed(body: string, glob: string, eol: string, p: string)
    requires Contains(body + "," + glob + eol, p) && IsEol(eol) && ',' !in p && '\n' !in p && p != ""
    ensures Contains(body, p) || Contains(glob, p)
  {
    assert body + "," + glob + eol == body + [','] + (glob + eol);
    OneSide(body, ',', glob + eol, p);
    if Contains(glob + eol, p) {
      BeforeEol(glob, eol, p);
    }
  }

  lemma BeforeEol(glob: string, eol: string, p: string)
    requires Contains(glob + eol, p) && IsEol(eol) && '\n' !in p && p != ""
    ensures Contains(glob, p)
  {
    if eol == "" {
      assert glob + eol == glob;
    } else {
      assert glob + eol == glob + ['\n'] + "";
      OneSide(glob, '\n', "", p);
    }
  }

  lemma InsertedHas(line: string, ns: string, p: string)
    requires IsForeign(p) && GlobLacks(ns, p) && AllSpace(Indent(line))
    requires Contains(line + Inserted(line, Exclusion(ns)), p)
    ensures Contains(line, p)
  {
    KeyHead();
    SameText(Indent(line) + EXCLUDE_KEY, Exclusion(ns));
    InsertedParts(line, Indent(line), EXCLUDE_KEY[1..], " " + Exclusion(ns) + "\n", p);
    SameText(EXCLUDE_KEY[1..], Exclusion(ns));
  }

  lemma SameText(key: string, glob: string)
    ensures key + (" " + glob + "\n") == key + " " + glob + "\n"
  {
  }

  lemma InsertedParts(line: string, indent: string, key: string, value: string, p: string)
    requires IsForeign(p) && AllSpace(indent)
    requires Contains(line + (indent + (['E'] + key) + value), p)
    ensures Contains(line, p) || Contains(key + value, p)
  {
    assert line + (indent + (['E'] + key) + value) == (line + indent) + ['E'] + (key + value);
    OneSide(line + indent, 'E', key + value, p);
    if Contains(line + indent, p) {
      NotInTrailingSpace(line, indent, p);
    }
  }

  lemma KeyHead()
    ensures EXCLUDE_KEY == ['E'] + EXCLUDE_KEY[1..]
  {
  }

  lemma ExcludeBringsNone(conf: string, ns: string, p: string)
    requires IsForeign(p) && GlobLacks(ns, p) && Contains(ExcludePlatform(conf, ns), p)
    ensures Contains(conf, p)
  {
    var ls := Lines(conf);
    LinesRebuild(conf);
    if AnyLine(ls, IsScopedTail) && !Contains(conf, Exclusion(ns)) {
      var k, q := FirstLine(ls, IsExclude), FirstLine(ls, IsPath);
      if k.Some? {
        var line := ls[k.value];
        if Contains(Extended(line, Exclusion(ns)), p) {
          ExtendedHas(line, ns, p);
        }
        ExtendedEnds(line, Exclusion(ns));
        ReplacedPiece(ls, k.value, Extended(line, Exclusion(ns)), p);
      } else if q.Some? {
        var line := ls[q.value];
        IndentOfLine(line);
        if Contains(line + Inserted(line, Exclusion(ns)), p) {
          InsertedHas(line, ns, p);
        }
        ReplacedPiece(ls, q.value, line + Inserted(line, Exclusion(ns)), p);
      }
    }
  }

  lemma ExtendedEnds(line: string, exclude: string)
    ensures Terminated(line) ==> Terminated(Extended(line, exclude))
  {
  }

  /** A piece that brings the pattern only if it had it brings it only to a text that had it. */
  lemma ReplacedPiece(ls: seq<string>, k: nat, y: string, p: string)
    requires ArePieces(ls) && k < |ls| && (Terminated(ls[k]) ==> Terminated(y))
    requires '\n' !in p && p != "" && (Contains(y, p) ==> Contains(ls[k], p))
    requires Contains(Join(ls[k := y]), p)
    ensures Contains(Join(ls), p)
  {
    var out := ls[k := y];
    var has := (l: string) => Contains(l, p);
    InOnePiece(out, p);
    InOnePiece(ls, p);
    var i :| 0 <= i < |out| && has(out[i]);
    assert has(ls[i]);
  }

  // ── namespaces ──────────────────────────────────────────────────────

  /** A namespace as Kubernetes has them spells neither text into the glob. */
  lemma GlobIsForeign(ns: string)
    requires IsNamespace(ns) && '/' !in ns
    ensures GlobLacks(ns, EVENTS_INPUT) && GlobLacks(ns, PRUNE_LUA_PATH)
  {
    GlobLacksInput(ns);
    GlobLacksScript(ns);
  }

  lemma GlobLacksInput(ns: string)
    requires IsNamespace(ns)
    ensures GlobLacks(ns, EVENTS_INPUT)
  {
    var glob, key := Exclusion(ns), EXCLUDE_KEY[1..];
    ExclusionIsWord(ns);
    assert ' ' !in glob by { assert IsSpace(' '); }
    assert EVENTS_INPUT[4] == ' ';
    LacksChar(glob, EVENTS_INPUT, ' ');
    var s := key + " " + glob + "\n";
    if Contains(s, EVENTS_INPUT) {
      assert s == (key + " " + glob) + ['\n'] + "";
      OneSide(key + " " + glob, '\n', "", EVENTS_INPUT);
      NotAfterKey(key, glob);
      assert false;
    }
  }

  lemma NotAfterKey(key: string, glob: string)
    requires key == EXCLUDE_KEY[1..] && ' ' !in glob
    ensures !Contains(key + " " + glob, EVENTS_INPUT)
  {
    var s := key + " " + glob;
    assert key[|key| - 1] == 'h';
    assert forall k | 0 < k < |s| && s[k] == ' ' :: s[k - 1] != 'e' by {
      assert ' ' !in key;
      assert forall k | 0 <= k < |s| && k != |key| :: s[k] != ' ';
      assert s[|key| - 1] == key[|key| - 1];
    }
    forall i | 0 <= i <= |s| ensures !At(s, EVENTS_INPUT, i) {
      if At(s, EVENTS_INPUT, i) {
        CharOfOccurrence(s, EVENTS_INPUT, i, 4);
        CharOfOccurrence(s, EVENTS_INPUT, i, 3);
        assert false;
      }
    }
  }

  lemma GlobLacksScript(ns: string)
    requires IsNamespace(ns) && '/' !in ns
    ensures GlobLacks(ns, PRUNE_LUA_PATH)
  {
    NoScriptInGlob(ns);
    KeyLacksScript();
    ScriptIsOneWord();
    NoneAcross(EXCLUDE_KEY[1..], Exclusion(ns), PRUNE_LUA_PATH);
  }

  lemma ScriptIsOneWord()
    ensures ' ' !in PRUNE_LUA_PATH && '\n' !in PRUNE_LUA_PATH && PRUNE_LUA_PATH != ""
  {
  }

  lemma KeyLacksScript()
    ensures !Contains(EXCLUDE_KEY[1..], PRUNE_LUA_PATH)
  {
    assert PRUNE_LUA_PATH[0] == '/';
    LacksChar(EXCLUDE_KEY[1..], PRUNE_LUA_PATH, '/');
  }

  /** A text without blank or newline that is in neither piece is not in the line they make. */
  lemma NoneAcross(key: string, value: string, p: string)
    requires !Contains(key, p) && !Contains(value, p) && ' ' !in p && '\n' !in p && p != ""
    ensures !Contains(key + " " + value + "\n", p)
  {
    var s := key + " " + value + "\n";
    if Contains(s, p) {
      assert s == key + [' '] + (value + "\n");
      OneSide(key, ' ', value + "\n", p);
      assert value + "\n" == value + ['\n'] + "";
      OneSide(value, '\n', "", p);
      NotInEmpty(p);
      assert false;
    }
  }

  lemma NotInEmpty(p: string)
    requires p != ""
    ensures !Contains("", p)
  {
  }

  lemma NoScriptInGlob(ns: string)
    requires '/' !in ns
    ensures !Contains(Exclusion(ns), PRUNE_LUA_PATH)
  {
    var s := Exclusion(ns);
    SlashesOfGlob(ns);
    forall i | 0 <= i <= |s| ensures !At(s, PRUNE_LUA_PATH, i) {
      if At(s, PRUNE_LUA_PATH, i) {
        CharOfOccurrence(s, PRUNE_LUA_PATH, i, 0);
        CharOfOccurrence(s, PRUNE_LUA_PATH, i, 1);
        assert false;
      }
    }
  }

  lemma SlashesOfGlob(ns: string)
    requires '/' !in ns
    ensures var s := Exclusion(ns); forall i | 0 <= i < |s| - 1 && s[i] == '/' :: s[i + 1] != 'f'
  {
    var s, rest := Exclusion(ns), "*_" + ns + "_*.log";
    assert s == CONTAINER_LOGS + rest && '/' !in rest && rest[0] == '*';
    assert forall i | |CONTAINER_LOGS| <= i < |s| :: s[i] == rest[i - |CONTAINER_LOGS|];
    assert 'f' !in CONTAINER_LOGS;
    assert forall i | 0 <= i < |CONTAINER_LOGS| :: s[i] == CONTAINER_LOGS[i];
  }

  // ── what the builder ships ──────────────────────────────────────────

  /** What the two rewrites before the prune step make of a config. */
  function BeforePrune(conf: string, ns: string): string {
    ExcludePlatform(ExternalizePassword(conf), ns)
  }

  lemma RewritesBringNone(conf: string, ns: string, p: string)
    requires IsForeign(p) && GlobLacks(ns, p) && Contains(BeforePrune(conf, ns), p)
    ensures Contains(conf, p)
  {
    ExcludeBringsNone(ExternalizePassword(conf), ns, p);
    ExternalizeBringsNone(conf, p);
  }

  /** The script ships exactly with a config that then runs it, or is an events watcher the filter fits. */
  lemma ScriptShipsIff(dep: string, agent: string, conf: string, tailsLogs: bool, login: Login, p: Platform)
    ensures var before := BeforePrune(conf, p.ns);
            PRUNE_LUA_KEY in ConfigMapFor(agent, conf, p).data <==>
              RunsScript(before) || (Contains(before, EVENTS_INPUT) && Contains(before, OUTPUT_MARK))
  {
    PrunesIff(BeforePrune(conf, p.ns));
    KeysDiffer();
  }

  /**
   An ordinary collector, one whose config neither watches events nor names the
   script, gets its config rewritten without the filter, and no script.
   */
  lemma OrdinaryConfigGetsNoScript(agent: string, conf: string, p: Platform)
    requires IsNamespace(p.ns) && '/' !in p.ns
    requires !Contains(conf, EVENTS_INPUT) && !Contains(conf, PRUNE_LUA_PATH)
    ensures ConfigMapFor(agent, conf, p) == ConfigMap(agent, map[CONF_KEY := BeforePrune(conf, p.ns)])
  {
    var before := BeforePrune(conf, p.ns);
    LooksForForeign();
    GlobIsForeign(p.ns);
    if Contains(before, EVENTS_INPUT) {
      RewritesBringNone(conf, p.ns, EVENTS_INPUT);
    }
    if Contains(before, PRUNE_LUA_PATH) {
      RewritesBringNone(conf, p.ns, PRUNE_LUA_PATH);
    }
    PrunesIff(before);
  }
}
