/**
 Session tokens and the cookie that carries them (src/auth.rs). Signing is a
 parameter, of which only the shape is known: a MAC in lower-case hex.
 */
module SessionToken {
  import opened Text
  import opened Decimal

  const COOKIE_NAME: string := "velox_session"
  const SESSION_TTL_SECS := 86400
  const TOKEN_V2: string := "v2"

  datatype Session = Session(user: string, tenant: Option<string>)

  predicate IsHex(s: string) {
    s != "" && forall i | 0 <= i < |s| :: '0' <= s[i] <= '9' || 'a' <= s[i] <= 'f'
  }

  // ── comparing signatures ────────────────────────────────────────────

  lemma XorFolds(r: bv8, x: bv8, y: bv8)
    ensures (r | (x ^ y)) == 0 <==> r == 0 && x == y
  {
  }

  /** `constant_eq`: every pair of bytes is folded in, and the answer is equality. */
  method ConstantEq(a: seq<bv8>, b: seq<bv8>) returns (equal: bool)
    ensures equal <==> a == b
  {
    if |a| != |b| {
      return false;
    }
    var r: bv8 := 0;
    for i := 0 to |a|
      invariant r == 0 <==> a[..i] == b[..i]
    {
      XorFolds(r, a[i], b[i]);
      assert a[..i + 1] == a[..i] + [a[i]] && b[..i + 1] == b[..i] + [b[i]];
      r := r | (a[i] ^ b[i]);
    }
    assert a[..|a|] == a && b[..|b|] == b;
    return r == 0;
  }

  // ── minting and parsing ─────────────────────────────────────────────

  function Signed(data: string, sign: string -> string): string {
    data + ":" + sign(data)
  }

  function MakeToken(user: string, now: nat, sign: string -> string): string {
    Signed(user + ":" + Print(now + SESSION_TTL_SECS), sign)
  }

  function MakeTenantToken(user: string, tenant: string, now: nat, sign: string -> string): string {
    Signed(TOKEN_V2 + ":" + user + ":" + tenant + ":" + Print(now + SESSION_TTL_SECS), sign)
  }

  /** The session, the expiry and the signature of a token with the right fields. */
  function Fields(token: string): Option<(Session, string, string)> {
    var parts := Split(token, ':');
    if |parts| == 3 then Some((Session(parts[0], None), parts[1], parts[2]))
    else if |parts| == 5 && parts[0] == TOKEN_V2 then Some((Session(parts[1], Some(parts[2])), parts[3], parts[4]))
    else None
  }

  predicate Unexpired(exp: string, now: nat) {
    ParseU64(exp).Some? && ParseU64(exp).value > now
  }

  function ParseToken(token: string, now: nat, sign: string -> string): Option<Session> {
    match Fields(token)
    case None => None
    case Some((session, exp, sig)) =>
      FieldsFit(token);
      if sig != sign(token[..|token| - |sig| - 1]) || !Unexpired(exp, now) then None else Some(session)
  }

  /** What is signed for a session: the admin's two fields, or the tag and three of a tenant's. */
  function Payload(s: Session, exp: string): string {
    match s.tenant
    case None => s.user + ":" + exp
    case Some(tenant) => "v2" + ":" + s.user + ":" + tenant + ":" + exp
  }

  predicate ColonFree(s: Session) {
    ':' !in s.user && (s.tenant.Some? ==> ':' !in s.tenant.value)
  }

  function PayloadFields(s: Session, exp: string): seq<string> {
    match s.tenant
    case None => [s.user, exp]
    case Some(tenant) => [TOKEN_V2, s.user, tenant, exp]
  }

  lemma PayloadJoins(s: Session, exp: string, sig: string)
    ensures Unsplit(PayloadFields(s, exp) + [sig], ':') == Payload(s, exp) + ":" + sig
  {
    match s.tenant {
      case None =>
        UnsplitThree(s.user, exp, sig);
        assert PayloadFields(s, exp) + [sig] == [s.user, exp, sig];
      case Some(tenant) =>
        UnsplitThree(tenant, exp, sig);
        UnsplitMore(s.user, [tenant, exp, sig]);
        UnsplitMore(TOKEN_V2, [s.user, tenant, exp, sig]);
        assert PayloadFields(s, exp) + [sig] == [TOKEN_V2, s.user, tenant, exp, sig];
        FiveJoin(TOKEN_V2, s.user, tenant, exp, sig);
    }
  }

  lemma FiveJoin(a: string, b: string, c: string, d: string, e: string)
    ensures a + ":" + (b + ":" + (c + ":" + d + ":" + e)) == (a + ":" + b + ":" + c + ":" + d) + ":" + e
  {
  }

  lemma UnsplitMore(f: string, fs: seq<string>)
    requires fs != []
    ensures Unsplit([f] + fs, ':') == f + ":" + Unsplit(fs, ':')
  {
    assert ([f] + fs)[1..] == fs;
  }

  lemma UnsplitThree(a: string, b: string, c: string)
    ensures Unsplit([a, b, c], ':') == a + ":" + b + ":" + c
  {
    UnsplitMore(b, [c]);
    UnsplitMore(a, [b, c]);
    assert [a] + [b, c] == [a, b, c] && [b] + [c] == [b, c];
  }

  /** A token with the right fields is its payload, a colon and its signature. */
  lemma FieldsFit(token: string)
    ensures Fields(token).Some? ==>
      var (s, exp, sig) := Fields(token).value;
      && ColonFree(s)
      && token == Payload(s, exp) + ":" + sig
      && |token| - |sig| - 1 == |Payload(s, exp)|
      && token[..|token| - |sig| - 1] == Payload(s, exp)
  {
    if Fields(token).Some? {
      var (s, exp, sig) := Fields(token).value;
      TokenOfFields(token);
      PrefixOf(Payload(s, exp), sig);
    }
  }

  lemma PrefixOf(data: string, sig: string)
    ensures var token := data + ":" + sig; |token| - |sig| - 1 == |data| && token[..|data|] == data
  {
  }

  lemma TokenOfFields(token: string)
    requires Fields(token).Some?
    ensures var (s, exp, sig) := Fields(token).value;
            ColonFree(s) && token == Payload(s, exp) + ":" + sig
  {
    var parts := Split(token, ':');
    var (s, exp, sig) := Fields(token).value;
    UnsplitSplit(token, ':');
    PayloadJoins(s, exp, sig);
    assert parts == PayloadFields(s, exp) + [sig];
  }

  lemma FieldsOfPayload(s: Session, exp: string, sig: string)
    requires ColonFree(s) && ':' !in exp && ':' !in sig
    ensures Fields(Payload(s, exp) + ":" + sig) == Some((s, exp, sig))
  {
    PayloadJoins(s, exp, sig);
    assert ':' !in TOKEN_V2;
    SplitUnsplit(PayloadFields(s, exp) + [sig], ':');
  }

  /** Exactly the signed, unexpired payloads of colon-free sessions are accepted, each as its own session. */
  lemma AcceptedIffSigned(token: string, s: Session, now: nat, sign: string -> string)
    requires forall d :: IsHex(sign(d))
    ensures ParseToken(token, now, sign) == Some(s)
      <==> ColonFree(s) && exists exp: string ::
             ':' !in exp && Unexpired(exp, now) && token == Signed(Payload(s, exp), sign)
  {
    FieldsFit(token);
    if ParseToken(token, now, sign) == Some(s) {
      var (_, exp, sig) := Fields(token).value;
      ExpiryHasNoColon(exp);
      assert token == Signed(Payload(s, exp), sign);
    }
    forall exp: string | ColonFree(s) && ':' !in exp && Unexpired(exp, now) && token == Signed(Payload(s, exp), sign)
      ensures ParseToken(token, now, sign) == Some(s)
    {
      assert IsHex(sign(Payload(s, exp)));
      FieldsOfPayload(s, exp, sign(Payload(s, exp)));
    }
  }

  lemma ExpiryHasNoColon(exp: string)
    requires ParseU64(exp).Some?
    ensures ':' !in exp
  {
    var digits := if exp[0] == '+' then exp[1..] else exp;
    assert forall i | 0 <= i < |digits| :: IsDigit(digits[i]);
    forall i | 0 <= i < |exp| ensures exp[i] != ':' {
      if exp[0] == '+' && i > 0 {
        assert exp[i] == digits[i - 1];
      }
    }
  }

  lemma SignedParses(s: Session, exp: string, now: nat, sign: string -> string)
    requires IsHex(sign(Payload(s, exp))) && ColonFree(s) && ':' !in exp
    ensures ParseToken(Signed(Payload(s, exp), sign), now, sign) == if Unexpired(exp, now) then Some(s) else None
  {
    FieldsOfPayload(s, exp, sign(Payload(s, exp)));
    FieldsFit(Signed(Payload(s, exp), sign));
  }

  /** `make_token` and `make_tenant_token` in one. */
  function Minted(s: Session, now: nat, sign: string -> string): string {
    match s.tenant
    case None => MakeToken(s.user, now, sign)
    case Some(tenant) => MakeTenantToken(s.user, tenant, now, sign)
  }

  /** A token minted for a colon-free session gives that session back for a day, and nothing after. */
  lemma TokenRoundTrip(s: Session, minted: nat, now: nat, sign: string -> string)
    requires forall d :: IsHex(sign(d))
    requires ColonFree(s) && minted + 86400 <= U64_MAX
    ensures ParseToken(Minted(s, minted, sign), now, sign) == if now < minted + 86400 then Some(s) else None
  {
    var exp := Print(minted + SESSION_TTL_SECS);
    ParsePrint(minted + SESSION_TTL_SECS, false, 0, U64_MAX);
    PrintIsWord(minted + SESSION_TTL_SECS);
    MintedIsSigned(s, minted, sign);
    SignedParses(s, exp, now, sign);
  }

  lemma MintedIsSigned(s: Session, minted: nat, sign: string -> string)
    ensures Minted(s, minted, sign) == Signed(Payload(s, Print(minted + SESSION_TTL_SECS)), sign)
  {
  }

  // ── names with colons ───────────────────────────────────────────────

  /** What a token says of a session before its expiry. */
  function Identity(s: Session): string {
    match s.tenant
    case None => s.user
    case Some(tenant) => TOKEN_V2 + ":" + s.user + ":" + tenant
  }

  /** The session an identity reads as: one field is an admin, three under the tag are a tenant's. */
  function ReadIdentity(name: string): Option<Session> {
    var parts := Split(name, ':');
    if |parts| == 1 then Some(Session(name, None))
    else if |parts| == 3 && parts[0] == TOKEN_V2 then Some(Session(parts[1], Some(parts[2])))
    else None
  }

  lemma PartsOfToken(name: string, exp: string, sig: string)
    requires ':' !in exp && ':' !in sig
    ensures Split(name + ":" + exp + ":" + sig, ':') == Split(name, ':') + [exp, sig]
  {
    SplitAppend(name + ":" + exp, sig, ':');
    SplitAppend(name, exp, ':');
    SplitOne(exp, ':');
    SplitOne(sig, ':');
    assert Split(name, ':') + [exp] + [sig] == Split(name, ':') + [exp, sig];
  }

  lemma FieldsOfToken(name: string, exp: string, sig: string)
    requires ':' !in exp && ':' !in sig
    ensures Fields(name + ":" + exp + ":" + sig)
         == match ReadIdentity(name)
            case Some(s) => Some((s, exp, sig))
            case None => None
  {
    PartsOfToken(name, exp, sig);
    SplitOne(name, ':');
  }

  lemma IdentityIsSigned(s: Session, minted: nat, sign: string -> string)
    ensures Minted(s, minted, sign) == Signed(Identity(s) + ":" + Print(minted + SESSION_TTL_SECS), sign)
  {
  }

  /** Whatever the names hold, a live token reads as what its identity reads as. */
  lemma TokenReads(s: Session, minted: nat, now: nat, sign: string -> string)
    requires forall d :: IsHex(sign(d))
    requires now < minted + SESSION_TTL_SECS <= U64_MAX
    ensures ParseToken(Minted(s, minted, sign), now, sign) == ReadIdentity(Identity(s))
  {
    var exp := Print(minted + SESSION_TTL_SECS);
    var data := Identity(s) + ":" + exp;
    ParsePrint(minted + SESSION_TTL_SECS, false, 0, U64_MAX);
    PrintIsWord(minted + SESSION_TTL_SECS);
    IdentityIsSigned(s, minted, sign);
    SignedReads(Identity(s), exp, now, sign);
  }

  lemma SignedReads(name: string, exp: string, now: nat, sign: string -> string)
    requires IsHex(sign(name + ":" + exp)) && ':' !in exp && Unexpired(exp, now)
    ensures ParseToken(Signed(name + ":" + exp, sign), now, sign) == ReadIdentity(name)
  {
    var data := name + ":" + exp;
    FieldsOfToken(name, exp, sign(data));
    FieldsFit(Signed(data, sign));
    PrefixOf(data, sign(data));
  }

  /** The admin name is a tenant identity, spelled out. */
  predicate NamesTenant(user: string, x: string, tenant: string) {
    user == "v2" + ":" + x + ":" + tenant && ':' !in x && ':' !in tenant
  }

  lemma ThreeFields(name: string)
    ensures |Split(name, ':')| == 3 && Split(name, ':')[0] == TOKEN_V2 ==>
      NamesTenant(name, Split(name, ':')[1], Split(name, ':')[2])
  {
    var parts := Split(name, ':');
    if |parts| == 3 {
      UnsplitSplit(name, ':');
      UnsplitThree(parts[0], parts[1], parts[2]);
      assert parts == [parts[0], parts[1], parts[2]];
    }
  }

  lemma TaggedFields(x: string, tenant: string)
    ensures Split(TOKEN_V2 + ":" + x + ":" + tenant, ':') == [TOKEN_V2] + Split(x, ':') + Split(tenant, ':')
  {
    assert ':' !in TOKEN_V2;
    SplitOne(TOKEN_V2, ':');
    SplitAppend(TOKEN_V2 + ":" + x, tenant, ':');
    SplitAppend(TOKEN_V2, x, ':');
  }

  /**
   What an admin's live token reads as, for every name: the admin exactly when the
   name has no colon, a tenant's session exactly when the name spells one, and nothing
   otherwise.
   */
  lemma AdminTokenReads(user: string, minted: nat, now: nat, sign: string -> string)
    requires forall d :: IsHex(sign(d))
    requires now < minted + SESSION_TTL_SECS <= U64_MAX
    ensures var read := ParseToken(MakeToken(user, minted, sign), now, sign);
            && (read == Some(Session(user, None)) <==> ':' !in user)
            && (forall x, t :: read == Some(Session(x, Some(t))) <==> NamesTenant(user, x, t))
            && (read.Some? ==> read.value.tenant.Some? || read.value.user == user)
  {
    TokenReads(Session(user, None), minted, now, sign);
    SplitOne(user, ':');
    ThreeFields(user);
    forall x, t | NamesTenant(user, x, t) ensures ReadIdentity(user) == Some(Session(x, Some(t))) {
      TaggedFields(x, t);
      SplitOne(x, ':');
      SplitOne(t, ':');
    }
  }

  /** A tenant's live token reads as its session exactly when neither name has a colon, and as nothing otherwise. */
  lemma TenantTokenReads(user: string, tenant: string, minted: nat, now: nat, sign: string -> string)
    requires forall d :: IsHex(sign(d))
    requires now < minted + SESSION_TTL_SECS <= U64_MAX
    ensures ParseToken(MakeTenantToken(user, tenant, minted, sign), now, sign)
         == if ':' !in user && ':' !in tenant then Some(Session(user, Some(tenant))) else None
  {
    TokenReads(Session(user, Some(tenant)), minted, now, sign);
    TaggedFields(user, tenant);
    SplitOne(user, ':');
    SplitOne(tenant, ':');
  }

  /** A session comes back from its live token exactly when its names have no colon. */
  lemma RoundTripNeedsColonFree(s: Session, minted: nat, now: nat, sign: string -> string)
    requires forall d :: IsHex(sign(d))
    requires now < minted + SESSION_TTL_SECS <= U64_MAX
    ensures ParseToken(Minted(s, minted, sign), now, sign) == Some(s) <==> ColonFree(s)
  {
    match s.tenant
    case None => AdminTokenReads(s.user, minted, now, sign);
    case Some(tenant) => TenantTokenReads(s.user, tenant, minted, now, sign);
  }

  /**
   Two sessions share a token exactly when they share the expiry and are spelled
   alike; sessions without colons are then one session.
   */
  lemma OneSessionPerToken(a: Session, b: Session, expA: string, expB: string, sign: string -> string)
    requires forall d :: IsHex(sign(d))
    requires ':' !in expA && ':' !in expB
    ensures Signed(Payload(a, expA), sign) == Signed(Payload(b, expB), sign)
      <==> Identity(a) == Identity(b) && expA == expB
    ensures Identity(a) == Identity(b) && ColonFree(a) && ColonFree(b) ==> a == b
  {
    var dataA, dataB := Identity(a) + ":" + expA, Identity(b) + ":" + expB;
    assert IsHex(sign(dataA)) && IsHex(sign(dataB));
    if Signed(dataA, sign) == Signed(dataB, sign) {
      SameParts(Identity(a), expA, sign(dataA), Identity(b), expB, sign(dataB));
    }
    if Identity(a) == Identity(b) && ColonFree(a) && ColonFree(b) {
      IdentityReads(a);
      IdentityReads(b);
    }
  }

  lemma SameParts(nameA: string, expA: string, sigA: string, nameB: string, expB: string, sigB: string)
    requires ':' !in expA && ':' !in sigA && ':' !in expB && ':' !in sigB
    requires nameA + ":" + expA + ":" + sigA == nameB + ":" + expB + ":" + sigB
    ensures nameA == nameB && expA == expB
  {
    PartsOfToken(nameA, expA, sigA);
    PartsOfToken(nameB, expB, sigB);
    var a, b := Split(nameA, ':'), Split(nameB, ':');
    assert (a + [expA, sigA])[|a|] == expA && (b + [expB, sigB])[|b|] == expB;
    assert |a| == |b| && a == (a + [expA, sigA])[..|a|] == (b + [expB, sigB])[..|b|] == b;
    UnsplitSplit(nameA, ':');
    UnsplitSplit(nameB, ':');
  }

  lemma IdentityReads(s: Session)
    requires ColonFree(s)
    ensures ReadIdentity(Identity(s)) == Some(s)
  {
    SplitOne(s.user, ':');
    if s.tenant.Some? {
      TaggedFields(s.user, s.tenant.value);
      SplitOne(s.tenant.value, ':');
    }
  }

  /** An admin name that spells a tenant's identity gets that tenant's token, text for text. */
  lemma AdminNameSpellsATenant(x: string, tenant: string, minted: nat, now: nat, sign: string -> string)
    requires forall d :: IsHex(sign(d))
    requires ':' !in x && ':' !in tenant && now < minted + SESSION_TTL_SECS <= U64_MAX
    ensures var user := TOKEN_V2 + ":" + x + ":" + tenant;
            && MakeToken(user, minted, sign) == MakeTenantToken(x, tenant, minted, sign)
            && ParseToken(MakeToken(user, minted, sign), now, sign) == Some(Session(x, Some(tenant)))
  {
    var user := TOKEN_V2 + ":" + x + ":" + tenant;
    IdentityIsSigned(Session(user, None), minted, sign);
    IdentityIsSigned(Session(x, Some(tenant)), minted, sign);
    assert NamesTenant(user, x, tenant);
    AdminTokenReads(user, minted, now, sign);
  }

  // ── the cookie header ───────────────────────────────────────────────

  function CookieSession(field: string, now: nat, sign: string -> string): Option<Session> {
    var prefix := COOKIE_NAME + "=";
    var c := Trim(field);
    if prefix <= c then ParseToken(c[|prefix|..], now, sign) else None
  }

  /** `filter_map` and `find_map`: the first field with a session. */
  function FirstSession(fields: seq<string>, carried: string -> Option<Session>): Option<Session> {
    if fields == [] then None
    else if carried(fields[0]).Some? then carried(fields[0])
    else FirstSession(fields[1..], carried)
  }

  function Carried(now: nat, sign: string -> string): string -> Option<Session> {
    (field: string) => CookieSession(field, now, sign)
  }

  function SessionFromCookies(header: string, now: nat, sign: string -> string): Option<Session> {
    FirstSession(Split(header, ';'), Carried(now, sign))
  }

  predicate NoneCarries(fields: seq<string>, carried: string -> Option<Session>) {
    forall i | 0 <= i < |fields| :: carried(fields[i]).None?
  }

  lemma {:induction false} FirstSessionSkips(before: seq<string>, rest: seq<string>, carried: string -> Option<Session>)
    requires NoneCarries(before, carried)
    ensures FirstSession(before + rest, carried) == FirstSession(rest, carried)
  {
    if before == [] {
      assert before + rest == rest;
    } else {
      assert (before + rest)[1..] == before[1..] + rest;
      FirstSessionSkips(before[1..], rest, carried);
    }
  }

  lemma HeaderFinds(before: seq<string>, field: string, after: seq<string>, carried: string -> Option<Session>)
    requires NoneCarries(before, carried) && carried(field).Some?
    requires forall f | f in before + [field] + after :: ';' !in f
    ensures FirstSession(Split(Unsplit(before + [field] + after, ';'), ';'), carried) == carried(field)
  {
    SplitUnsplit(before + [field] + after, ';');
    FirstSessionSkips(before, [field] + after, carried);
    assert before + [field] + after == before + ([field] + after);
  }

  /** The cookie, with any whitespace around it. */
  predicate CarriesCookie(field: string, token: string) {
    Trim(field) == "velox_session" + "=" + token
  }

  /** Both ways a browser sends it: as the first cookie, and after another one. */
  lemma CookieSpellings(token: string)
    requires token != "" && !IsSpace(token[|token| - 1])
    ensures CarriesCookie(COOKIE_NAME + "=" + token, token)
    ensures CarriesCookie(" " + (COOKIE_NAME + "=" + token), token)
  {
    var c := COOKIE_NAME + "=" + token;
    assert c[|c| - 1] == token[|token| - 1] && c[0] == COOKIE_NAME[0];
    TrimSpellings(c);
  }

  lemma TrimSpellings(c: string)
    requires c != "" && !IsSpace(c[0]) && !IsSpace(c[|c| - 1])
    ensures Trim(c) == c && Trim(" " + c) == c
  {
    TrimSelf(c);
    TrimAfter(" ", c);
  }

  lemma TrimSelf(c: string)
    requires c != "" && !IsSpace(c[0]) && !IsSpace(c[|c| - 1])
    ensures Trim(c) == c
  {
    assert c[0..] == c;
  }

  lemma TrimAfter(indent: string, c: string)
    requires AllSpace(indent) && c != "" && !IsSpace(c[0]) && !IsSpace(c[|c| - 1])
    ensures Trim(indent + c) == c
  {
    SpaceLenOf(indent, c);
    assert (indent + c)[|indent|..] == c;
  }

  /**
   A minted session is found in a header among any other cookies, first, last or
   alone, as long as none before it carries an acceptable session of its own.
   */
  lemma CookieRoundTrip(
    before: seq<string>, field: string, after: seq<string>, s: Session, minted: nat, now: nat, sign: string -> string)
    requires forall d :: IsHex(sign(d))
    requires ColonFree(s) && now < minted + SESSION_TTL_SECS <= U64_MAX
    requires CarriesCookie(field, Minted(s, minted, sign))
    requires NoneCarries(before, Carried(now, sign))
    requires forall f | f in before + [field] + after :: ';' !in f
    ensures SessionFromCookies(Unsplit(before + [field] + after, ';'), now, sign) == Some(s)
  {
    TokenRoundTrip(s, minted, now, sign);
    FieldCarries(field, Minted(s, minted, sign), now, sign);
    HeaderFinds(before, field, after, Carried(now, sign));
  }

  lemma FieldCarries(field: string, token: string, now: nat, sign: string -> string)
    requires CarriesCookie(field, token)
    ensures CookieSession(field, now, sign) == ParseToken(token, now, sign)
  {
    var prefix := COOKIE_NAME + "=";
    assert (prefix + token)[|prefix|..] == token;
  }

  /** A token fits a cookie, in either spelling, exactly when its names have no semicolon. */
  lemma MintedFits(s: Session, minted: nat, sign: string -> string)
    requires forall d :: IsHex(sign(d))
    ensures var token := Minted(s, minted, sign);
            && token != "" && !IsSpace(token[|token| - 1])
            && (';' !in token <==> ';' !in s.user && (s.tenant.Some? ==> ';' !in s.tenant.value))
  {
    assert IsHex(sign(Payload(s, Print(minted + SESSION_TTL_SECS))));
    MintedIsSigned(s, minted, sign);
    TokenSemicolons(s, minted + SESSION_TTL_SECS, sign);
  }

  lemma TokenSemicolons(s: Session, exp: nat, sign: string -> string)
    requires IsHex(sign(Payload(s, Print(exp))))
    ensures var token := Signed(Payload(s, Print(exp)), sign);
            && token != "" && !IsSpace(token[|token| - 1])
            && (';' !in token <==> ';' !in s.user && (s.tenant.Some? ==> ';' !in s.tenant.value))
  {
    assert forall i | 0 <= i < |Print(exp)| :: IsDigit(Print(exp)[i]);
    assert ';' !in Print(exp) && ';' !in sign(Payload(s, Print(exp)));
    assert ';' !in TOKEN_V2;
  }
}
