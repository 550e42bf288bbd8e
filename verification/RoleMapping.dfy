/** The role mapping of a generated securityconfig (src/auth_provider.rs), before it is written as YAML. */
module RoleMapping {
  import opened Text

  const ALL_ACCESS: string := "all_access"
  const KIBANA_SERVER: string := "kibana_server"
  const ADMIN_ROLE: string := "admin"
  const META: string := "_meta"

  /** Directory group or claim value, and the OpenSearch role it grants. */
  datatype Row = Row(backendRole: string, role: string)

  datatype Accounts = Accounts(adminUser: string, dashboardsUser: string)

  datatype Item = Header | Entry(backendRoles: Option<seq<string>>, users: Option<seq<string>>)

  type Document = map<string, Item>

  // ── what a list of rows grants ──────────────────────────────────────

  /** The row gives the role to the backend value; a row with a blank cell gives nothing. */
  predicate Grants(m: Row, role: string, backend: string) {
    role != "" && backend != "" && Trim(m.role) == role && Trim(m.backendRole) == backend
  }

  function FirstThat(rows: seq<Row>, p: Row -> bool): (r: nat)
    ensures r <= |rows|
  {
    if rows == [] then 0
    else
      var n := |rows| - 1;
      var f := FirstThat(rows[..n], p);
      if f < n || p(rows[n]) then f else n + 1
  }

  lemma {:induction false} FirstThatIsFirst(rows: seq<Row>, p: Row -> bool)
    ensures var f := FirstThat(rows, p);
            && (f < |rows| ==> p(rows[f]))
            && (forall i | 0 <= i < f :: !p(rows[i]))
  {
    if rows != [] {
      var n := |rows| - 1;
      FirstThatIsFirst(rows[..n], p);
      assert forall i | 0 <= i < n :: rows[..n][i] == rows[i];
    }
  }

  /** The first row that grants it; the built-in `admin` row comes before all, and what nothing grants after all. */
  function FirstRow(rows: seq<Row>, role: string, backend: string): (r: int)
    ensures -1 <= r <= |rows|
    ensures r == -1 <==> role == ALL_ACCESS && backend == ADMIN_ROLE
  {
    if role == ALL_ACCESS && backend == ADMIN_ROLE then -1
    else FirstThat(rows, (m: Row) => Grants(m, role, backend))
  }

  lemma FirstRowIsFirst(rows: seq<Row>, role: string, backend: string)
    ensures var f := FirstRow(rows, role, backend);
            && (0 <= f < |rows| ==> Grants(rows[f], role, backend))
            && (f >= 0 ==> forall i | 0 <= i < f :: !Grants(rows[i], role, backend))
  {
    var p := (m: Row) => Grants(m, role, backend);
    FirstThatIsFirst(rows, p);
    var f := FirstRow(rows, role, backend);
    if f >= 0 {
      assert f == FirstThat(rows, p);
      assert forall i | 0 <= i < f :: !p(rows[i]);
    }
  }

  /** The list holds exactly the values granted the role, each once, in the order of their first rows. */
  ghost predicate IsGranted(rows: seq<Row>, role: string, list: seq<string>) {
    && (forall i, j | 0 <= i < j < |list| :: FirstRow(rows, role, list[i]) < FirstRow(rows, role, list[j]))
    && (forall b: string :: b in list <==> FirstRow(rows, role, b) < |rows|)
  }

  lemma DistinctRows(rows: seq<Row>, role: string, a: string, b: string)
    requires FirstRow(rows, role, a) == FirstRow(rows, role, b) < |rows|
    ensures a == b
  {
    FirstRowIsFirst(rows, role, a);
    FirstRowIsFirst(rows, role, b);
  }

  /** There is only one such list. */
  lemma GrantedIsUnique(rows: seq<Row>, role: string, a: seq<string>, b: seq<string>)
    requires IsGranted(rows, role, a) && IsGranted(rows, role, b)
    ensures a == b
  {
    var f := (x: string) => FirstRow(rows, role, x);
    forall x, y | x in a && y in a && f(x) == f(y) ensures x == y {
      DistinctRows(rows, role, x, y);
    }
    SamePrefix(a, b, f, |a|);
    SamePrefix(b, a, f, |b|);
  }

  predicate Climbs(list: seq<string>, f: string -> int) {
    forall i, j | 0 <= i < j < |list| :: f(list[i]) < f(list[j])
  }

  /** Two lists of the same values, each in increasing order, agree as far as either goes. */
  lemma {:induction false} SamePrefix(a: seq<string>, b: seq<string>, f: string -> int, n: nat)
    requires Climbs(a, f) && Climbs(b, f)
    requires forall x: string :: x in a <==> x in b
    requires forall x, y | x in a && y in a && f(x) == f(y) :: x == y
    requires n <= |a|
    ensures n <= |b| && a[..n] == b[..n]
  {
    if n > 0 {
      var k := n - 1;
      SamePrefix(a, b, f, k);
      NextAfter(a, b, f, k);
      NextAfter(b, a, f, k);
      assert a[k] in a && b[k] in a;
    }
  }

  /** The next value of one list stands no earlier in the other. */
  lemma NextAfter(a: seq<string>, b: seq<string>, f: string -> int, k: nat)
    requires Climbs(a, f) && Climbs(b, f)
    requires forall x: string :: x in a <==> x in b
    requires k < |a| && k <= |b| && a[..k] == b[..k]
    ensures k < |b| && f(b[k]) <= f(a[k])
  {
    assert forall i | 0 <= i < k :: a[i] == a[..k][i] && b[i] == b[..k][i];
    assert a[k] in b;
    var j :| 0 <= j < |b| && b[j] == a[k];
    assert j >= k;
  }

  // ── the fold ────────────────────────────────────────────────────────

  function ListOf(byRole: map<string, seq<string>>, role: string): seq<string> {
    if role in byRole then byRole[role] else []
  }

  /** The map after the rows so far: a list per role that anything is granted, and no other key. */
  ghost predicate Folded(rows: seq<Row>, byRole: map<string, seq<string>>) {
    && (forall role: string :: IsGranted(rows, role, ListOf(byRole, role)))
    && (forall role | role in byRole :: byRole[role] != [])
  }

  lemma FoldedStart()
    ensures Folded([], map[ALL_ACCESS := [ADMIN_ROLE]])
  {
    var byRole := map[ALL_ACCESS := [ADMIN_ROLE]];
    forall role: string ensures IsGranted([], role, ListOf(byRole, role)) {
      assert forall b: string :: FirstRow([], role, b) < 0 <==> role == ALL_ACCESS && b == ADMIN_ROLE;
    }
  }

  lemma FirstRowPush(rows: seq<Row>, m: Row, role: string, b: string)
    ensures FirstRow(rows + [m], role, b)
         == if FirstRow(rows, role, b) < |rows| || Grants(m, role, b)
            then FirstRow(rows, role, b) else |rows| + 1
  {
    assert (rows + [m])[..|rows|] == rows;
  }

  /** A row that adds nothing for the role leaves its list. */
  lemma GrantedKept(rows: seq<Row>, m: Row, role: string, list: seq<string>)
    requires IsGranted(rows, role, list)
    requires forall b: string :: Grants(m, role, b) ==> b in list
    ensures IsGranted(rows + [m], role, list)
  {
    forall b: string
      ensures FirstRow(rows + [m], role, b) < |rows| + 1 <==> b in list
      ensures b in list ==> FirstRow(rows + [m], role, b) == FirstRow(rows, role, b)
    {
      FirstRowPush(rows, m, role, b);
    }
  }

  lemma GrantedPushed(rows: seq<Row>, m: Row, role: string, list: seq<string>, backend: string)
    requires IsGranted(rows, role, list) && Grants(m, role, backend) && backend !in list
    ensures IsGranted(rows + [m], role, list + [backend])
  {
    forall b: string
      ensures FirstRow(rows + [m], role, b) < |rows| + 1 <==> b in list + [backend]
      ensures b in list ==> FirstRow(rows + [m], role, b) == FirstRow(rows, role, b) < |rows|
      ensures FirstRow(rows + [m], role, backend) == |rows|
    {
      FirstRowPush(rows, m, role, b);
      FirstRowPush(rows, m, role, backend);
    }
  }

  /** What one row does to the map. */
  function Push(byRole: map<string, seq<string>>, m: Row): map<string, seq<string>> {
    var role, backend := Trim(m.role), Trim(m.backendRole);
    if role == "" || backend == "" || backend in ListOf(byRole, role) then byRole
    else byRole[role := ListOf(byRole, role) + [backend]]
  }

  lemma FoldedPush(rows: seq<Row>, m: Row, byRole: map<string, seq<string>>)
    requires Folded(rows, byRole)
    ensures Folded(rows + [m], Push(byRole, m))
  {
    var backend := Trim(m.backendRole);
    forall role: string ensures IsGranted(rows + [m], role, ListOf(Push(byRole, m), role)) {
      var list := ListOf(byRole, role);
      if Grants(m, role, backend) && backend !in list {
        GrantedPushed(rows, m, role, list, backend);
      } else {
        GrantedKept(rows, m, role, list);
      }
    }
  }

  // ── the document ────────────────────────────────────────────────────

  function Present(list: seq<string>): Option<seq<string>> {
    if list == [] then None else Some(list)
  }

  /** The local accounts of a role; a blank name is left out. */
  function Users(a: Accounts, role: string): Option<seq<string>> {
    var user :=
      if role == ALL_ACCESS then Trim(a.adminUser) else if role == KIBANA_SERVER then Trim(a.dashboardsUser) else "";
    Present(if user == "" then [] else [user])
  }

  predicate HasGrant(rows: seq<Row>, role: string) {
    role == ALL_ACCESS || exists m | m in rows :: Trim(m.role) == role != "" && Trim(m.backendRole) != ""
  }

  ghost predicate IsItemOf(rows: seq<Row>, a: Accounts, role: string, item: Item) {
    if role == META && !HasGrant(rows, META) then item == Header
    else
      && item.Entry?
      && item.users == Users(a, role)
      && (item.backendRoles.Some? <==> HasGrant(rows, role))
      && (item.backendRoles.Some? ==> IsGranted(rows, role, item.backendRoles.value))
  }

  /** What the generated document says, of any rows and accounts. */
  ghost predicate IsMappingOf(rows: seq<Row>, a: Accounts, doc: Document) {
    && (forall role: string :: role in doc <==> role in {META, KIBANA_SERVER} || HasGrant(rows, role))
    && (forall role | role in doc :: IsItemOf(rows, a, role, doc[role]))
  }

  lemma FoldedKeys(rows: seq<Row>, byRole: map<string, seq<string>>, role: string)
    requires Folded(rows, byRole)
    ensures role in byRole <==> HasGrant(rows, role)
  {
    assert IsGranted(rows, role, ListOf(byRole, role));
    if role in byRole {
      var b := byRole[role][0];
      assert b in ListOf(byRole, role);
      FirstRowIsFirst(rows, role, b);
    }
    if role == ALL_ACCESS {
      assert FirstRow(rows, role, ADMIN_ROLE) == -1;
    } else if HasGrant(rows, role) {
      var m :| m in rows && Trim(m.role) == role != "" && Trim(m.backendRole) != "";
      FirstRowIsFirst(rows, role, Trim(m.backendRole));
      var i :| 0 <= i < |rows| && rows[i] == m;
      assert Grants(rows[i], role, Trim(m.backendRole));
    }
  }

  /** The first half of `roles_mapping_yaml`: fold the rows into a map. */
  method FoldRows(rows: seq<Row>) returns (byRole: map<string, seq<string>>)
    ensures Folded(rows, byRole)
  {
    byRole := map[ALL_ACCESS := [ADMIN_ROLE]];
    FoldedStart();
    for i := 0 to |rows|
      invariant Folded(rows[..i], byRole)
    {
      FoldedPush(rows[..i], rows[i], byRole);
      assert rows[..i + 1] == rows[..i] + [rows[i]];
      var role, backend := Trim(rows[i].role), Trim(rows[i].backendRole);
      if role == "" || backend == "" {
        continue;
      }
      var e := ListOf(byRole, role);
      if backend !in e {
        byRole := byRole[role := e + [backend]];
      }
    }
    assert rows[..|rows|] == rows;
  }

  /** The local accounts, by role. */
  function LocalUsers(a: Accounts): map<string, seq<string>> {
    map[ALL_ACCESS := [Trim(a.adminUser)], KIBANA_SERVER := [Trim(a.dashboardsUser)]]
  }

  /** What the document holds for a role of either map. */
  function ItemFor(byRole: map<string, seq<string>>, usersByRole: map<string, seq<string>>, role: string): Item {
    Entry(
      if role in byRole then Some(byRole[role]) else None,
      if role in usersByRole && usersByRole[role] != [""] then Some(usersByRole[role]) else None)
  }

  /** `roles_mapping_yaml`: the header, then an entry per role, whichever map it comes from. */
  method RolesMapping(rows: seq<Row>, a: Accounts) returns (doc: Document)
    ensures IsMappingOf(rows, a, doc)
  {
    var byRole := FoldRows(rows);
    var usersByRole := LocalUsers(a);
    doc := map[META := Header];
    var todo := byRole.Keys + usersByRole.Keys;
    ghost var seen: set<string> := {};
    while todo != {}
      invariant seen !! todo && seen + todo == byRole.Keys + usersByRole.Keys
      invariant doc.Keys == {META} + seen
      invariant forall role | role in doc ::
        doc[role] == if role in seen then ItemFor(byRole, usersByRole, role) else Header
    {
      var role :| role in todo;
      doc := doc[role := ItemFor(byRole, usersByRole, role)];
      seen, todo := seen + {role}, todo - {role};
    }
    Documented(rows, a, byRole, usersByRole, doc);
  }

  lemma NamesDiffer()
    ensures ALL_ACCESS != KIBANA_SERVER && META != ALL_ACCESS && META != KIBANA_SERVER
  {
    assert ALL_ACCESS[0] == 'a' && KIBANA_SERVER[0] == 'k' && META[0] == '_';
  }

  lemma UsersFit(byRole: map<string, seq<string>>, a: Accounts, role: string)
    ensures ItemFor(byRole, LocalUsers(a), role).users == Users(a, role)
  {
    NamesDiffer();
  }

  lemma ItemFits(rows: seq<Row>, a: Accounts, byRole: map<string, seq<string>>, role: string)
    requires Folded(rows, byRole)
    requires role == META ==> role in byRole
    ensures IsItemOf(rows, a, role, ItemFor(byRole, LocalUsers(a), role))
  {
    UsersFit(byRole, a, role);
    FoldedKeys(rows, byRole, role);
    assert IsGranted(rows, role, ListOf(byRole, role));
  }

  lemma Documented(
    rows: seq<Row>, a: Accounts, byRole: map<string, seq<string>>, usersByRole: map<string, seq<string>>, doc: Document)
    requires Folded(rows, byRole)
    requires usersByRole == LocalUsers(a)
    requires doc.Keys == {META} + byRole.Keys + usersByRole.Keys
    requires forall role | role in doc ::
      doc[role] == if role in byRole || role in usersByRole then ItemFor(byRole, usersByRole, role) else Header
    ensures IsMappingOf(rows, a, doc)
  {
    NamesDiffer();
    forall role: string ensures role in byRole <==> HasGrant(rows, role) {
      FoldedKeys(rows, byRole, role);
    }
    forall role | role in doc ensures IsItemOf(rows, a, role, doc[role]) {
      if role in byRole || role in usersByRole {
        ItemFits(rows, a, byRole, role);
      }
    }
  }

  // ── what it means ───────────────────────────────────────────────────

  /** The description leaves no choice: rows and accounts determine the document. */
  lemma MappingIsUnique(rows: seq<Row>, a: Accounts, one: Document, two: Document)
    requires IsMappingOf(rows, a, one) && IsMappingOf(rows, a, two)
    ensures one == two
  {
    forall role | role in one ensures role in two && one[role] == two[role] {
      if one[role].Entry? && one[role].backendRoles.Some? {
        GrantedIsUnique(rows, role, one[role].backendRoles.value, two[role].backendRoles.value);
      }
    }
    assert one.Keys == two.Keys;
  }

  /** The way in is never lost: whatever the rows, admin leads all_access and both accounts keep their roles. */
  lemma BreakGlass(rows: seq<Row>, a: Accounts, doc: Document)
    requires IsMappingOf(rows, a, doc)
    requires Trim(a.adminUser) != "" && Trim(a.dashboardsUser) != ""
    ensures "all_access" in doc && doc["all_access"].Entry? && doc["all_access"].backendRoles.Some?
    ensures var list := doc["all_access"].backendRoles.value; list != [] && list[0] == "admin"
    ensures doc["all_access"].users == Some([Trim(a.adminUser)])
    ensures "kibana_server" in doc && doc["kibana_server"].Entry?
    ensures doc["kibana_server"].users == Some([Trim(a.dashboardsUser)])
  {
    NamesDiffer();
    var list := doc[ALL_ACCESS].backendRoles.value;
    assert FirstRow(rows, ALL_ACCESS, ADMIN_ROLE) == -1;
    assert ADMIN_ROLE in list;
    var i :| 0 <= i < |list| && list[i] == ADMIN_ROLE;
    assert i > 0 ==> FirstRow(rows, ALL_ACCESS, list[0]) < FirstRow(rows, ALL_ACCESS, list[i]);
  }

  /** The header every securityconfig file needs survives exactly when no row grants a role named like it. */
  lemma HeaderSurvives(rows: seq<Row>, a: Accounts, doc: Document)
    requires IsMappingOf(rows, a, doc)
    ensures "_meta" in doc
    ensures doc["_meta"] == Header <==> !exists m | m in rows :: Trim(m.role) == "_meta" && Trim(m.backendRole) != ""
  {
    NamesDiffer();
  }

  /** One row is enough to lose it. */
  lemma HeaderLost(a: Accounts, doc: Document)
    requires IsMappingOf([Row("ops", META)], a, doc)
    ensures META in doc && doc[META] != Header
  {
    var rows := [Row("ops", META)];
    assert IsWord(META) && IsWord("ops");
    TrimWord(META);
    TrimWord("ops");
    assert rows[0] in rows;
    HeaderSurvives(rows, a, doc);
  }

  lemma TrimWord(w: string)
    requires IsWord(w)
    ensures Trim(w) == w
  {
  }
}
