/**
 Escaping a value into an LDAP filter (src/auth_probe.rs), and the reading of an
 escaped value as section 3 of RFC 4515 defines it.
 */
module LdapFilter {
  import opened Text

  predicate Special(c: char) {
    c == '\\' || c == '*' || c == '(' || c == ')' || c == '\0'
  }

  function EscapeChar(c: char): string {
    if c == '\\' then "\\5c"
    else if c == '*' then "\\2a"
    else if c == '(' then "\\28"
    else if c == ')' then "\\29"
    else if c == '\0' then "\\00"
    else [c]
  }

  function Escaped(v: string): string {
    if v == "" then "" else EscapeChar(v[0]) + Escaped(v[1..])
  }

  /** `escape_filter_value`. */
  method EscapeFilterValue(v: string) returns (out: string)
    ensures out == Escaped(v)
  {
    out := "";
    for i := 0 to |v|
      invariant out + Escaped(v[i..]) == Escaped(v)
    {
      EscapedStep(out, v, i);
      match v[i] {
        case '\\' => out := out + "\\5c";
        case '*' => out := out + "\\2a";
        case '(' => out := out + "\\28";
        case ')' => out := out + "\\29";
        case '\0' => out := out + "\\00";
        case c => out := out + [c];
      }
    }
  }

  lemma EscapedStep(out: string, v: string, i: nat)
    requires i < |v|
    ensures out + Escaped(v[i..]) == out + EscapeChar(v[i]) + Escaped(v[i + 1..])
  {
    assert v[i..][1..] == v[i + 1..];
  }

  // ── reading a value ─────────────────────────────────────────────────

  function HexValue(c: char): Option<nat> {
    if '0' <= c <= '9' then Some((c - '0') as nat)
    else if 'a' <= c <= 'f' then Some((c - 'a') as nat + 10)
    else if 'A' <= c <= 'F' then Some((c - 'A') as nat + 10)
    else None
  }

  /** `escaped = ESC HEX HEX`; a byte of a longer character is refused. */
  function Pair(a: char, b: char): Option<char> {
    match (HexValue(a), HexValue(b))
    case (Some(h), Some(l)) => if h * 16 + l < 0x80 then Some((h * 16 + l) as char) else None
    case _ => None
  }

  /** `valueencoding`: characters that stand for themselves, and escaped ones. */
  function Decode(s: string): Option<string> {
    if s == "" then Some("")
    else if s[0] == '\\' then
      if |s| < 3 then None
      else
        match (Pair(s[1], s[2]), Decode(s[3..]))
        case (Some(c), Some(rest)) => Some([c] + rest)
        case _ => None
    else if Special(s[0]) then None
    else
      match Decode(s[1..])
      case Some(rest) => Some([s[0]] + rest)
      case None => None
  }

  lemma DecodeChar(c: char, rest: string)
    ensures Decode(EscapeChar(c) + rest) == match Decode(rest)
                                            case Some(v) => Some([c] + v)
                                            case None => None
  {
    var s := EscapeChar(c) + rest;
    if Special(c) {
      assert s[3..] == rest;
      assert s[1] == EscapeChar(c)[1] && s[2] == EscapeChar(c)[2];
    } else {
      assert s[1..] == rest;
    }
  }

  /** A directory reads back exactly the value that was escaped, whatever it contains. */
  lemma {:induction false} EscapeRoundTrip(v: string)
    ensures Decode(Escaped(v)) == Some(v)
  {
    if v != "" {
      DecodeChar(v[0], Escaped(v[1..]));
      EscapeRoundTrip(v[1..]);
      assert v == [v[0]] + v[1..];
    }
  }

  lemma EscapeIsInjective(a: string, b: string)
    requires Escaped(a) == Escaped(b)
    ensures a == b
  {
    EscapeRoundTrip(a);
    EscapeRoundTrip(b);
  }

  /** Text that adds nothing to the filter around it: no bare metacharacter, every backslash opens a whole escape. */
  predicate Inert(s: string) {
    && (forall i | 0 <= i < |s| :: s[i] !in {'*', '(', ')', '\0'})
    && (forall i | 0 <= i < |s| && s[i] == '\\' ::
          i + 2 < |s| && HexValue(s[i + 1]).Some? && HexValue(s[i + 2]).Some?)
  }

  lemma {:induction false} EscapedIsInert(v: string)
    ensures Inert(Escaped(v))
  {
    if v != "" {
      EscapedIsInert(v[1..]);
      InertAppend(EscapeChar(v[0]), Escaped(v[1..]));
    }
  }

  lemma InertAppend(a: string, b: string)
    requires Inert(a) && Inert(b)
    ensures Inert(a + b)
  {
    var s := a + b;
    forall i | 0 <= i < |s|
      ensures s[i] !in {'*', '(', ')', '\0'}
      ensures s[i] == '\\' ==> i + 2 < |s| && HexValue(s[i + 1]).Some? && HexValue(s[i + 2]).Some?
    {
      if i < |a| {
        assert s[i] == a[i];
      } else {
        assert s[i] == b[i - |a|];
      }
    }
  }

  /** Only a value with a metacharacter is changed, and such a value always is. */
  lemma PlainIsUntouched(v: string)
    ensures Escaped(v) == v <==> forall i | 0 <= i < |v| :: !Special(v[i])
  {
    EscapedLength(v);
    if forall i | 0 <= i < |v| :: !Special(v[i]) {
      PlainEscaped(v);
    }
  }

  lemma {:induction false} EscapedLength(v: string)
    ensures |Escaped(v)| >= |v|
    ensures |Escaped(v)| == |v| ==> forall i | 0 <= i < |v| :: !Special(v[i])
  {
    if v != "" {
      EscapedLength(v[1..]);
      CharLength(v[0]);
      assert forall i | 0 < i < |v| :: v[i] == v[1..][i - 1];
    }
  }

  lemma CharLength(c: char)
    ensures |EscapeChar(c)| == if Special(c) then 3 else 1
  {
  }

  lemma {:induction false} PlainEscaped(v: string)
    requires forall i | 0 <= i < |v| :: !Special(v[i])
    ensures Escaped(v) == v
  {
    if v != "" {
      PlainEscaped(v[1..]);
      assert v == [v[0]] + v[1..];
    }
  }
}
