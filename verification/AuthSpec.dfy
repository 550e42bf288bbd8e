/**
 The auth provider of a deployment and its write-only credential
 (src/auth_provider.rs, with the reads and saves of src/k8s.rs). Fields that no
 operation here looks at are kept together as `settings`.
 */
module AuthSpec {
  import opened Text
  import opened RoleMapping

  const SECRET_KEPT: string := "__velox_secret_kept__"
  const HTTPS: string := "https://"
  const INGRESS: string := "ingress"

  type Settings = map<string, string>

  datatype Provider =
    | Internal
    | Ldap(settings: Settings, bindPassword: string)
    | Oidc(settings: Settings, clientSecret: string)
    | Saml(settings: Settings, exchangeKey: string)
    | Jwt(settings: Settings, signingKey: string)
    | Proxy(settings: Settings)

  datatype Spec = Spec(provider: Provider, roleMappings: seq<Row>)

  const DEFAULT := Spec(Internal, [])

  /** What validation needs to know of the installation, and the per-field checks of each kind. */
  datatype Site = Site(accessMode: string, publicUrl: Option<string>, fits: Provider -> bool)

  datatype Refusal = BlankMapping | NeedsIngress | NeedsHttps | Unresolved(field: string) | BadField

  function Secret(p: Provider): Option<string> {
    match p
    case Internal => None
    case Ldap(_, s) => Some(s)
    case Oidc(_, s) => Some(s)
    case Saml(_, s) => Some(s)
    case Jwt(_, s) => Some(s)
    case Proxy(_) => None
  }

  predicate SameKind(a: Provider, b: Provider) {
    match a
    case Internal => b.Internal?
    case Ldap(_, _) => b.Ldap?
    case Oidc(_, _) => b.Oidc?
    case Saml(_, _) => b.Saml?
    case Jwt(_, _) => b.Jwt?
    case Proxy(_) => b.Proxy?
  }

  // ── the operations ──────────────────────────────────────────────────

  function Kept(v: string): string {
    if v != "" then SECRET_KEPT else v
  }

  /** `redacted`: what a read returns. */
  function Redacted(spec: Spec): Spec {
    match spec.provider
    case Ldap(_, s) => spec.(provider := spec.provider.(bindPassword := Kept(s)))
    case Oidc(_, s) => spec.(provider := spec.provider.(clientSecret := Kept(s)))
    case Saml(_, s) => spec.(provider := spec.provider.(exchangeKey := Kept(s)))
    case Jwt(_, s) => spec.(provider := spec.provider.(signingKey := Kept(s)))
    case Internal => spec
    case Proxy(_) => spec
  }

  function Restore(new_: string, old_: string): string {
    if new_ == SECRET_KEPT then old_ else new_
  }

  /** `merge_secrets`: the incoming spec over the stored one. */
  function MergeSecrets(incoming: Spec, stored: Spec): Spec {
    match (incoming.provider, stored.provider)
    case (Ldap(_, n), Ldap(_, o)) => incoming.(provider := incoming.provider.(bindPassword := Restore(n, o)))
    case (Oidc(_, n), Oidc(_, o)) => incoming.(provider := incoming.provider.(clientSecret := Restore(n, o)))
    case (Saml(_, n), Saml(_, o)) => incoming.(provider := incoming.provider.(exchangeKey := Restore(n, o)))
    case (Jwt(_, n), Jwt(_, o)) => incoming.(provider := incoming.provider.(signingKey := Restore(n, o)))
    case _ => incoming
  }

  /** `unresolved_secret`: the credential still holding the sentinel. */
  function UnresolvedSecret(spec: Spec): Option<string> {
    match spec.provider
    case Ldap(_, s) => if s == SECRET_KEPT then Some("bind password") else None
    case Oidc(_, s) => if s == SECRET_KEPT then Some("client secret") else None
    case Saml(_, s) => if s == SECRET_KEPT then Some("exchange key") else None
    case Jwt(_, s) => if s == SECRET_KEPT then Some("signing key") else None
    case Internal => None
    case Proxy(_) => None
  }

  /** `validate`, in its order; `None` lets the spec through. */
  function Validate(spec: Spec, site: Site): Option<Refusal> {
    if exists m | m in spec.roleMappings :: Trim(m.backendRole) == "" || Trim(m.role) == "" then Some(BlankMapping)
    else if NeedsPublicOrigin(spec.provider) && site.accessMode != INGRESS then Some(NeedsIngress)
    else if NeedsPublicOrigin(spec.provider) && !(site.publicUrl.Some? && HTTPS <= site.publicUrl.value)
    then Some(NeedsHttps)
    else if UnresolvedSecret(spec).Some? then Some(Unresolved(UnresolvedSecret(spec).value))
    else if !spec.provider.Internal? && !site.fits(spec.provider) then Some(BadField)
    else None
  }

  predicate NeedsPublicOrigin(p: Provider) {
    p.Oidc? || p.Saml?
  }

  /** A save: merge, validate, store. Going back to internal users removes the stored spec. */
  datatype Save = Save(incoming: Spec, site: Site, lands: bool)

  function Stored(stored: Spec, save: Save): Spec {
    var spec := MergeSecrets(save.incoming, stored);
    if Validate(spec, save.site).Some? || !save.lands then stored
    else if spec.provider.Internal? then DEFAULT
    else spec
  }

  function StoredAfter(stored: Spec, saves: seq<Save>): Spec
    decreases |saves|
  {
    if saves == [] then stored else StoredAfter(Stored(stored, saves[0]), saves[1..])
  }

  // ── the public origin ───────────────────────────────────────────────

  predicate AllDots(s: string) {
    forall i | 0 <= i < |s| :: s[i] == '.'
  }

  function WithoutLeadingDots(s: string): (t: string)
    ensures |t| <= |s| && s[|s| - |t|..] == t && AllDots(s[..|s| - |t|])
    ensures t != "" ==> t[0] != '.'
  {
    if s != "" && s[0] == '.' then
      var t := WithoutLeadingDots(s[1..]);
      assert s[..|s| - |t|] == ['.'] + s[1..][..|s| - 1 - |t|];
      t
    else s
  }

  function WithoutTrailingDots(s: string): (t: string)
    ensures t <= s && AllDots(s[|t|..])
    ensures t != "" ==> t[|t| - 1] != '.'
  {
    if s != "" && s[|s| - 1] == '.' then
      var t := WithoutTrailingDots(s[..|s| - 1]);
      assert s[|t|..] == s[..|s| - 1][|t|..] + ['.'];
      t
    else s
  }

  /** `public_url`: where the deployment is reached from outside, if it is. */
  function PublicUrl(name: string, accessMode: string, baseDomain: string): Option<string> {
    var d := WithoutTrailingDots(WithoutLeadingDots(Trim(baseDomain)));
    if accessMode != INGRESS || d == "" then None else Some(HTTPS + name + "." + d)
  }

  /** The Secret that holds a deployment's spec, as the API reads and saves it. */
  class AuthStore {
    var stored: Spec

    constructor ()
      ensures stored == DEFAULT
    {
      stored := DEFAULT;
    }

    method Read() returns (out: Spec)
      ensures out == Redacted(stored)
    {
      out := stored;
      match out.provider {
        case Ldap(_, s) =>
          if s != "" { out := out.(provider := out.provider.(bindPassword := SECRET_KEPT)); }
        case Oidc(_, s) =>
          if s != "" { out := out.(provider := out.provider.(clientSecret := SECRET_KEPT)); }
        case Saml(_, s) =>
          if s != "" { out := out.(provider := out.provider.(exchangeKey := SECRET_KEPT)); }
        case Jwt(_, s) =>
          if s != "" { out := out.(provider := out.provider.(signingKey := SECRET_KEPT)); }
        case _ =>
      }
    }

    /** `set_auth_provider`: nothing is written before the merged spec has passed validation. */
    method Set(incoming: Spec, site: Site, lands: bool) returns (refusal: Option<Refusal>)
      modifies this
      ensures stored == Stored(old(stored), Save(incoming, site, lands))
      ensures refusal == Validate(MergeSecrets(incoming, old(stored)), site)
      ensures refusal.Some? ==> stored == old(stored)
    {
      var spec := MergeSecrets(incoming, stored);
      refusal := Validate(spec, site);
      if refusal.Some? || !lands {
        return;
      }
      if spec.provider.Internal? {
        stored := DEFAULT;
      } else {
        stored := spec;
      }
    }
  }

  // ── the sentinel ────────────────────────────────────────────────────

  predicate SentinelFree(spec: Spec) {
    Secret(spec.provider) != Some(SECRET_KEPT)
  }

  lemma UnresolvedIsSentinel(spec: Spec)
    ensures UnresolvedSecret(spec).Some? <==> !SentinelFree(spec)
  {
  }

  /** A read shows of the credential whether there is one, and nothing else. */
  lemma ReadShowsOnlyPresence(a: Spec, b: Spec)
    ensures Secret(Redacted(a).provider) in {None, Some(""), Some(SECRET_KEPT)}
    ensures Redacted(a) == Redacted(b)
      <==> a == b || (exists s, t | s != "" && t != "" :: WithSecret(a, s) == a && WithSecret(a, t) == b)
  {
    if Redacted(a) == Redacted(b) && a != b {
      var s, t := Secret(a.provider).value, Secret(b.provider).value;
      assert s != "" && t != "" && WithSecret(a, s) == a && WithSecret(a, t) == b;
    }
    forall s, t | s != "" && t != "" && WithSecret(a, s) == a && WithSecret(a, t) == b
      ensures Redacted(a) == Redacted(b)
    {
    }
  }

  /** The spec with another credential, where its kind has one. */
  function WithSecret(spec: Spec, s: string): Spec {
    match spec.provider
    case Ldap(settings, _) => spec.(provider := Ldap(settings, s))
    case Oidc(settings, _) => spec.(provider := Oidc(settings, s))
    case Saml(settings, _) => spec.(provider := Saml(settings, s))
    case Jwt(settings, _) => spec.(provider := Jwt(settings, s))
    case Internal => spec
    case Proxy(_) => spec
  }

  /** Sending a read straight back changes nothing, for every kind and every credential. */
  lemma ReadBackIsIdentity(spec: Spec)
    ensures MergeSecrets(Redacted(spec), spec) == spec
  {
  }

  /**
   What a merge makes of the credential: the stored one for the sentinel under the
   same kind, and otherwise what came in. Nothing else of the incoming spec changes.
   */
  lemma MergedSecret(incoming: Spec, stored: Spec)
    ensures var merged := MergeSecrets(incoming, stored);
            var secret := Secret(incoming.provider);
            && SameKind(merged.provider, incoming.provider)
            && (SameKind(incoming.provider, stored.provider) && secret == Some(SECRET_KEPT)
                ==> && Secret(merged.provider) == Secret(stored.provider)
                    && merged == WithSecret(incoming, Secret(stored.provider).value))
            && (!SameKind(incoming.provider, stored.provider) || secret != Some(SECRET_KEPT) ==> merged == incoming)
  {
  }

  /** The sentinel is refused exactly when there is no credential of the same kind to stand for. */
  lemma SentinelNeedsItsKind(incoming: Spec, stored: Spec, site: Site)
    requires SentinelFree(stored)
    ensures !SentinelFree(incoming) && !SameKind(incoming.provider, stored.provider)
      <==> !SentinelFree(MergeSecrets(incoming, stored))
    ensures !SentinelFree(MergeSecrets(incoming, stored)) ==> Validate(MergeSecrets(incoming, stored), site).Some?
  {
    MergedSecret(incoming, stored);
    UnresolvedIsSentinel(MergeSecrets(incoming, stored));
  }

  /** The credentials the saves of a run typed in. */
  ghost function Typed(saves: seq<Save>): set<Option<string>> {
    set save | save in saves :: Secret(save.incoming.provider)
  }

  lemma StoredSecret(stored: Spec, save: Save)
    requires SentinelFree(stored)
    ensures var next := Stored(stored, save);
            && SentinelFree(next)
            && Secret(next.provider) in {None, Secret(stored.provider), Secret(save.incoming.provider)}
            && (Secret(next.provider).Some? && Secret(next.provider) != Secret(save.incoming.provider)
                ==> SameKind(next.provider, stored.provider))
  {
    MergedSecret(save.incoming, stored);
    UnresolvedIsSentinel(MergeSecrets(save.incoming, stored));
  }

  /**
   Over any saves, accepted, refused or lost: the sentinel is never stored, and what
   is stored was stored before or typed in by one of them.
   */
  lemma {:induction false} SentinelIsNeverStored(stored: Spec, saves: seq<Save>)
    requires SentinelFree(stored)
    ensures var end := StoredAfter(stored, saves);
            && SentinelFree(end)
            && Secret(end.provider) in {None, Secret(stored.provider)} + Typed(saves)
    decreases |saves|
  {
    if saves != [] {
      StoredSecret(stored, saves[0]);
      SentinelIsNeverStored(Stored(stored, saves[0]), saves[1..]);
      assert forall s | s in saves[1..] :: s in saves;
      assert saves[0] in saves;
    }
  }

  // ── which saves are stored ──────────────────────────────────────────

  /** The name the refusal gives the kind's credential. */
  function CredentialName(p: Provider): string {
    if p.Ldap? then "bind password" else if p.Oidc? then "client secret"
    else if p.Saml? then "exchange key" else "signing key"
  }

  predicate HasSentinel(p: Provider) {
    || (p.Ldap? && p.bindPassword == "__velox_secret_kept__")
    || (p.Oidc? && p.clientSecret == "__velox_secret_kept__")
    || (p.Saml? && p.exchangeKey == "__velox_secret_kept__")
    || (p.Jwt? && p.signingKey == "__velox_secret_kept__")
  }

  predicate MappingsNamed(rows: seq<Row>) {
    forall m | m in rows :: Trim(m.backendRole) != "" && Trim(m.role) != ""
  }

  /** A kind that redirects the browser back needs the deployment on the web, over TLS. */
  predicate ComesBack(p: Provider, site: Site) {
    p.Oidc? || p.Saml? ==> site.accessMode == "ingress" && site.publicUrl.Some? && "https://" <= site.publicUrl.value
  }

  /** The first thing wrong is what a refusal names, and nothing wrong is what passes. */
  lemma ValidateVerdict(spec: Spec, site: Site)
    ensures match Validate(spec, site)
            case Some(BlankMapping) => !MappingsNamed(spec.roleMappings)
            case Some(NeedsIngress) =>
              MappingsNamed(spec.roleMappings) && !ComesBack(spec.provider, site) && site.accessMode != "ingress"
            case Some(NeedsHttps) =>
              MappingsNamed(spec.roleMappings) && !ComesBack(spec.provider, site) && site.accessMode == "ingress"
            case Some(Unresolved(field)) =>
              && MappingsNamed(spec.roleMappings) && ComesBack(spec.provider, site)
              && HasSentinel(spec.provider) && field == CredentialName(spec.provider)
            case Some(BadField) =>
              && MappingsNamed(spec.roleMappings) && ComesBack(spec.provider, site) && !HasSentinel(spec.provider)
              && !spec.provider.Internal? && !site.fits(spec.provider)
            case None =>
              && MappingsNamed(spec.roleMappings) && ComesBack(spec.provider, site) && !HasSentinel(spec.provider)
              && (spec.provider.Internal? || site.fits(spec.provider))
  {
  }

  /** The spec a save would store: an echoed sentinel stands for the stored credential of the same kind. */
  function Resolved(incoming: Spec, stored: Spec): Spec {
    if HasSentinel(incoming.provider) && SameKind(incoming.provider, stored.provider)
    then WithSecret(incoming, Secret(stored.provider).value) else incoming
  }

  /**
   The whole of a save, read off what came in and what was stored: it is stored exactly
   when its rows are named, its kind can come back, an echoed sentinel finds a
   credential of its own kind, and the fields fit; internal users clear the spec.
   */
  lemma SaveStoresIff(stored: Spec, save: Save)
    requires !HasSentinel(stored.provider)
    ensures var incoming := save.incoming;
            var accepted :=
              && MappingsNamed(incoming.roleMappings) && ComesBack(incoming.provider, save.site)
              && (HasSentinel(incoming.provider) ==> SameKind(incoming.provider, stored.provider))
              && (incoming.provider.Internal? || save.site.fits(Resolved(incoming, stored).provider));
            Stored(stored, save) ==
              if !accepted || !save.lands then stored
              else if incoming.provider.Internal? then Spec(Internal, []) else Resolved(incoming, stored)
  {
    MergedIsResolved(save.incoming, stored);
    ValidateVerdict(MergeSecrets(save.incoming, stored), save.site);
    ResolvedSentinel(save.incoming, stored);
  }

  lemma MergedIsResolved(incoming: Spec, stored: Spec)
    ensures MergeSecrets(incoming, stored) == Resolved(incoming, stored)
  {
  }

  lemma ResolvedSentinel(incoming: Spec, stored: Spec)
    requires !HasSentinel(stored.provider)
    ensures var spec := Resolved(incoming, stored);
            && SameKind(spec.provider, incoming.provider) && spec.roleMappings == incoming.roleMappings
            && (HasSentinel(spec.provider) <==>
                  HasSentinel(incoming.provider) && !SameKind(incoming.provider, stored.provider))
  {
  }

  predicate IsHost(d: string) {
    d != "" && d[0] != '.' && d[|d| - 1] != '.'
  }

  lemma DotsOff(s: string) returns (lead: string, trail: string)
    ensures var d := WithoutTrailingDots(WithoutLeadingDots(s));
            && s == lead + d + trail && AllDots(lead) && AllDots(trail)
            && (if AllDots(s) then d == "" else IsHost(d))
  {
    var a := WithoutLeadingDots(s);
    var d := WithoutTrailingDots(a);
    lead, trail := s[..|s| - |a|], a[|d|..];
    Regrouped(s, a, d);
    if a == "" {
      NothingLeft(s);
    } else {
      LeadingChar(s, a, d);
    }
  }

  lemma NothingLeft(s: string)
    requires AllDots(s[..|s| - |""|])
    ensures AllDots(s)
  {
    assert s[..|s| - 0] == s;
  }

  lemma Regrouped(s: string, a: string, d: string)
    requires |a| <= |s| && s[|s| - |a|..] == a && d <= a
    ensures s == s[..|s| - |a|] + d + a[|d|..]
  {
    assert a == d + a[|d|..];
  }

  lemma LeadingChar(s: string, a: string, d: string)
    requires 0 < |a| <= |s| && s[|s| - |a|..] == a && a[0] != '.'
    requires d <= a && AllDots(a[|d|..])
    ensures d != "" && d[0] == a[0] && !AllDots(s)
  {
    assert s[|s| - |a|] == a[0];
  }

  /** The host is the base domain between its dots and blanks, and none is left exactly when it has nothing else. */
  lemma PublicUrlIff(name: string, accessMode: string, baseDomain: string)
    ensures var url := PublicUrl(name, accessMode, baseDomain);
            && (url.Some? <==> accessMode == "ingress" && !AllDots(Trim(baseDomain)))
            && (url.Some? ==>
                  exists lead, d, trail | lead + d + trail == Trim(baseDomain) ::
                    AllDots(lead) && AllDots(trail) && IsHost(d) && url.value == "https://" + name + "." + d)
  {
    var lead, trail := DotsOff(Trim(baseDomain));
    if PublicUrl(name, accessMode, baseDomain).Some? {
      var d := WithoutTrailingDots(WithoutLeadingDots(Trim(baseDomain)));
      assert lead + d + trail == Trim(baseDomain);
    }
  }

  /** With the origin a save computes itself, HTTPS is refused exactly when ingress is on without a base domain. */
  lemma OriginRefusals(spec: Spec, name: string, accessMode: string, baseDomain: string, fits: Provider -> bool)
    requires MappingsNamed(spec.roleMappings) && (spec.provider.Oidc? || spec.provider.Saml?)
    ensures var refusal := Validate(spec, Site(accessMode, PublicUrl(name, accessMode, baseDomain), fits));
            && (refusal == Some(NeedsIngress) <==> accessMode != "ingress")
            && (refusal == Some(NeedsHttps) <==> accessMode == "ingress" && AllDots(Trim(baseDomain)))
  {
    PublicUrlIff(name, accessMode, baseDomain);
    ValidateVerdict(spec, Site(accessMode, PublicUrl(name, accessMode, baseDomain), fits));
  }

  /** A client that only ever reads and saves what it read leaves the spec as it is, or is refused. */
  lemma EchoKeepsTheSpec(stored: Spec, site: Site, lands: bool)
    requires SentinelFree(stored) && (stored.provider.Internal? ==> stored == DEFAULT)
    ensures Stored(stored, Save(Redacted(stored), site, lands)) == stored
  {
    ReadBackIsIdentity(stored);
  }
}
