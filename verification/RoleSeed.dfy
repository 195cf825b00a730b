/** Seeding the platform-wide roles: create what is missing, add the default grants to global rows
    only, and delete the per-tenant copies that changed nothing (cmd/seed/main.go). Whoever asks for
    a role by code gets the tenant's own row if there is one, else a global row
    (internal/modules/rbac/repository_ent.go). */
module RoleSeed {
  import opened Prelude
  import opened Permissions

  /** A role row; without a tenant it is global. */
  datatype Role = Role(tenant: Option<UUID>, code: string, name: string, description: string, isSystem: bool)
  datatype Grant = Grant(role: UUID, perm: UUID)
  datatype Assignment = Assignment(user: UUID, role: UUID)
  datatype Staff = Staff(tenant: UUID, roleCode: string)

  datatype Store = Store(roles: map<UUID, Role>, grants: set<Grant>, assignments: seq<Assignment>, staff: seq<Staff>)

  datatype RoleDef = RoleDef(code: string, name: string, description: string, permissions: seq<string>)

  // ---------------------------------------------------------------- reading the store

  function Perms(s: Store, r: UUID): set<UUID> {
    set g | g in s.grants && g.role == r :: g.perm
  }

  function PermsOfAll(s: Store, rows: set<UUID>): set<UUID> {
    set g | g in s.grants && g.role in rows :: g.perm
  }

  function GlobalRows(s: Store, code: string): set<UUID> {
    set r | r in s.roles && s.roles[r].tenant.None? && s.roles[r].code == code
  }

  function TenantRows(s: Store, t: UUID, code: string): set<UUID> {
    set r | r in s.roles && s.roles[r].tenant == Some(t) && s.roles[r].code == code
  }

  ghost function GlobalChoices(s: Store, code: string): set<set<UUID>> {
    set r | r in GlobalRows(s, code) :: Perms(s, r)
  }

  /** The permission sets that tenant t may be served for a role code: those of its own rows, or of
      the global rows when it has none. Which one, when there are several, is up to the database. */
  ghost function Choices(s: Store, t: UUID, code: string): set<set<UUID>> {
    if TenantRows(s, t, code) != {} then set r | r in TenantRows(s, t, code) :: Perms(s, r)
    else GlobalChoices(s, code)
  }

  /** The unique index on (tenant, code); it does not bind global rows. */
  ghost predicate UniqueTenantRows(s: Store) {
    forall r, q ::
      (&& r in s.roles && q in s.roles && s.roles[r].tenant.Some?
       && s.roles[q].tenant == s.roles[r].tenant && s.roles[q].code == s.roles[r].code) ==> r == q
  }

  // ---------------------------------------------------------------- what seeding does

  function Codes(defs: seq<RoleDef>): set<string> { set d | d in defs :: d.code }

  function WithGlobalRow(s: Store, d: RoleDef, idOf: string -> UUID): Store {
    if idOf(d.code) in s.roles then s
    else s.(roles := s.roles[idOf(d.code) := Role(None, d.code, d.name, d.description, true)])
  }

  function WithGrants(s: Store, rows: set<UUID>, perms: set<UUID>): Store {
    s.(grants := s.grants + set r, p | r in rows && p in perms :: Grant(r, p))
  }

  ghost function SeedDef(s: Store, d: RoleDef, idOf: string -> UUID, cat: Catalogue): Store {
    var s' := WithGlobalRow(s, d, idOf);
    WithGrants(s', GlobalRows(s', d.code), Resolved(d.permissions, cat))
  }

  ghost function SeedDefs(s: Store, defs: seq<RoleDef>, idOf: string -> UUID, cat: Catalogue): Store {
    if defs == [] then s else SeedDef(SeedDefs(s, defs[..|defs| - 1], idOf, cat), defs[|defs| - 1], idOf, cat)
  }

  /** A tenant's copy of a system role that nobody refers to and whose permissions are those of the
      global role of the same code. */
  predicate Redundant(s: Store, codes: set<string>, r: UUID) {
    && r in s.roles && s.roles[r].isSystem && s.roles[r].tenant.Some? && s.roles[r].code in codes
    && (forall a :: a in s.assignments ==> a.role != r)
    && (forall m :: m in s.staff ==> m != Staff(s.roles[r].tenant.value, s.roles[r].code))
    && PermsOfAll(s, GlobalRows(s, s.roles[r].code)) == Perms(s, r)
  }

  function RedundantRows(s: Store, codes: set<string>): set<UUID> {
    set r | r in s.roles && Redundant(s, codes, r)
  }

  function Without(s: Store, rows: set<UUID>): Store {
    s.(roles := s.roles - rows, grants := set g | g in s.grants && g.role !in rows)
  }

  function Consolidated(s: Store, codes: set<string>): Store { Without(s, RedundantRows(s, codes)) }

  ghost function Seeded(s: Store, defs: seq<RoleDef>, idOf: string -> UUID, cat: Catalogue): Store {
    Consolidated(SeedDefs(s, defs, idOf, cat), Codes(defs))
  }

  // ---------------------------------------------------------------- the defaults, in closed form

  /** Everything that the definitions of one code ask for. */
  ghost function Required(defs: seq<RoleDef>, cat: Catalogue, code: string): set<UUID> {
    set d, p | d in defs && d.code == code && p in Resolved(d.permissions, cat) :: p
  }

  ghost predicate RowsSeeded(s: Store, s': Store, defs: seq<RoleDef>, idOf: string -> UUID) {
    && (forall r :: r in s.roles ==> r in s'.roles && s'.roles[r] == s.roles[r])
    && (forall d :: d in defs ==> idOf(d.code) in s'.roles)
    && (forall r :: r in s'.roles && r !in s.roles ==>
          exists d :: d in defs && r == idOf(d.code) && s'.roles[r] == Role(None, d.code, d.name, d.description, true))
  }

  ghost predicate GrantsSeeded(s: Store, s': Store, defs: seq<RoleDef>, cat: Catalogue) {
    forall r, p :: Grant(r, p) in s'.grants <==>
      || Grant(r, p) in s.grants
      || (r in s'.roles && s'.roles[r].tenant.None? && p in Required(defs, cat, s'.roles[r].code))
  }

  lemma RequiredOneMore(defs: seq<RoleDef>, d: RoleDef, cat: Catalogue, code: string)
    ensures Required(defs + [d], cat, code) ==
            Required(defs, cat, code) + (if d.code == code then Resolved(d.permissions, cat) else {})
  {
    var all := defs + [d];
    assert d in all && forall e :: e in all <==> e in defs || e == d;
    forall p ensures p in Required(all, cat, code) <==>
      p in Required(defs, cat, code) + (if d.code == code then Resolved(d.permissions, cat) else {})
    {
      if p in Required(defs, cat, code) {
        var e :| e in defs && e.code == code && p in Resolved(e.permissions, cat);
        assert e in all;
      }
    }
  }

  lemma SeedDefKeepsClosedForm(s: Store, s1: Store, defs: seq<RoleDef>, d: RoleDef, idOf: string -> UUID,
                               cat: Catalogue)
    requires RowsSeeded(s, s1, defs, idOf) && GrantsSeeded(s, s1, defs, cat)
    ensures RowsSeeded(s, SeedDef(s1, d, idOf, cat), defs + [d], idOf)
    ensures GrantsSeeded(s, SeedDef(s1, d, idOf, cat), defs + [d], cat)
    ensures SeedDef(s1, d, idOf, cat).assignments == s1.assignments && SeedDef(s1, d, idOf, cat).staff == s1.staff
  {
    var all := defs + [d];
    var s2 := WithGlobalRow(s1, d, idOf);
    var s3 := SeedDef(s1, d, idOf, cat);
    assert d in all && forall e :: e in all <==> e in defs || e == d;
    forall r, p ensures Grant(r, p) in s3.grants <==>
      || Grant(r, p) in s.grants
      || (r in s3.roles && s3.roles[r].tenant.None? && p in Required(all, cat, s3.roles[r].code))
    {
      if r in s3.roles {
        RequiredOneMore(defs, d, cat, s3.roles[r].code);
        assert r !in s1.roles ==> Required(defs, cat, d.code) == {};
      }
    }
  }

  /** The role-by-role seeding, in closed form: rows are only added, and a global row ends with its
      old grants and everything that the definitions of its code ask for. */
  lemma {:induction false} SeedDefsClosedForm(s: Store, defs: seq<RoleDef>, idOf: string -> UUID, cat: Catalogue)
    ensures var s' := SeedDefs(s, defs, idOf, cat);
            && RowsSeeded(s, s', defs, idOf) && GrantsSeeded(s, s', defs, cat)
            && s'.assignments == s.assignments && s'.staff == s.staff
  {
    if defs == [] {
      assert forall code :: Required(defs, cat, code) == {};
    } else {
      var init, last := defs[..|defs| - 1], defs[|defs| - 1];
      assert defs == init + [last];
      assert SeedDefs(s, defs, idOf, cat) == SeedDef(SeedDefs(s, init, idOf, cat), last, idOf, cat);
      hide SeedDefs, SeedDef, RowsSeeded, GrantsSeeded;
      SeedDefsClosedForm(s, init, idOf, cat);
      SeedDefKeepsClosedForm(s, SeedDefs(s, init, idOf, cat), init, last, idOf, cat);
    }
  }

  lemma PermsAfterDefs(s: Store, defs: seq<RoleDef>, idOf: string -> UUID, cat: Catalogue, r: UUID)
    requires r in SeedDefs(s, defs, idOf, cat).roles
    ensures var s' := SeedDefs(s, defs, idOf, cat);
            Perms(s', r) ==
            if s'.roles[r].tenant.None? then Perms(s, r) + Required(defs, cat, s'.roles[r].code) else Perms(s, r)
  {
    SeedDefsClosedForm(s, defs, idOf, cat);
    var s' := SeedDefs(s, defs, idOf, cat);
    hide SeedDefs, Required;
    forall p ensures p in Perms(s', r) <==>
      p in Perms(s, r) || (s'.roles[r].tenant.None? && p in Required(defs, cat, s'.roles[r].code))
    {
      assert p in Perms(s', r) <==> Grant(r, p) in s'.grants;
      assert p in Perms(s, r) <==> Grant(r, p) in s.grants;
    }
  }

  /** Defaults are added to global rows and nothing else is touched: a global row ends with its old
      permissions plus the resolved ones, a tenant's row and its permissions stay as they were. */
  lemma DefaultsAreAddOnly(s: Store, defs: seq<RoleDef>, idOf: string -> UUID, cat: Catalogue, r: UUID)
    requires r in s.roles
    ensures var s' := SeedDefs(s, defs, idOf, cat);
            && r in s'.roles && s'.roles[r] == s.roles[r]
            && Perms(s', r) ==
               if s.roles[r].tenant.None? then Perms(s, r) + Required(defs, cat, s.roles[r].code) else Perms(s, r)
  {
    SeedDefsClosedForm(s, defs, idOf, cat);
    PermsAfterDefs(s, defs, idOf, cat, r);
  }

  /** The role that lists "*" ends with every permission there is. */
  lemma StarRoleIsGrantedEverything(s: Store, defs: seq<RoleDef>, idOf: string -> UUID, cat: Catalogue, d: RoleDef)
    requires d in defs && d.permissions == ["*"]
    ensures var s' := SeedDefs(s, defs, idOf, cat);
            && idOf(d.code) in s'.roles
            && forall r :: r in GlobalRows(s', d.code) ==> cat.Values <= Perms(s', r)
  {
    SeedDefsClosedForm(s, defs, idOf, cat);
    StarGrantsEverything(cat);
    assert cat.Values <= Required(defs, cat, d.code);
    forall r | r in GlobalRows(SeedDefs(s, defs, idOf, cat), d.code) { PermsAfterDefs(s, defs, idOf, cat, r); }
    hide SeedDefs, Required, Resolved;
  }

  // ---------------------------------------------------------------- consolidation keeps meaning

  lemma WithoutFacts(s: Store, rows: set<UUID>, t: UUID, code: string)
    requires forall r :: r in rows && r in s.roles ==> s.roles[r].tenant.Some?
    ensures GlobalRows(Without(s, rows), code) == GlobalRows(s, code)
    ensures TenantRows(Without(s, rows), t, code) == TenantRows(s, t, code) - rows
    ensures forall r :: r !in rows ==> Perms(Without(s, rows), r) == Perms(s, r)
  {
    forall r | r !in rows ensures Perms(Without(s, rows), r) == Perms(s, r) {
      forall p ensures p in Perms(Without(s, rows), r) <==> p in Perms(s, r) {
        assert Grant(r, p) in s.grants <==> Grant(r, p) in Without(s, rows).grants;
      }
    }
  }

  lemma GlobalChoicesKept(s: Store, rows: set<UUID>, code: string)
    requires forall r :: r in rows && r in s.roles ==> s.roles[r].tenant.Some?
    ensures GlobalChoices(Without(s, rows), code) == GlobalChoices(s, code)
  {
    WithoutFacts(s, rows, NIL_UUID, code);
    assert forall r :: r in GlobalRows(s, code) ==> r !in rows;
    assert forall r :: r in GlobalRows(s, code) ==> Perms(Without(s, rows), r) == Perms(s, r);
  }

  lemma ChoicesAfterConsolidation(s: Store, codes: set<string>, t: UUID, code: string)
    requires UniqueTenantRows(s)
    ensures Choices(Consolidated(s, codes), t, code) ==
            if TenantRows(s, t, code) != {} && TenantRows(s, t, code) <= RedundantRows(s, codes)
            then GlobalChoices(s, code)
            else Choices(s, t, code)
  {
    var rows := RedundantRows(s, codes);
    var c := Consolidated(s, codes);
    WithoutFacts(s, rows, t, code);
    GlobalChoicesKept(s, rows, code);
    if TenantRows(s, t, code) != {} && !(TenantRows(s, t, code) <= rows) {
      var r :| r in TenantRows(s, t, code) && r !in rows;
      assert forall q :: q in TenantRows(s, t, code) ==> q == r;
      assert TenantRows(s, t, code) == {r} && TenantRows(c, t, code) == {r};
      assert Perms(c, r) == Perms(s, r);
    }
  }

  /** For every tenant and every role code, deleting the redundant copies leaves what is served as it
      was exactly when, for each deleted copy, the global rows of its code all carry the copy's own
      permissions. One global row per code is enough; two that differ are not. */
  lemma ConsolidationKeepsMeaning(s: Store, codes: set<string>)
    requires UniqueTenantRows(s)
    ensures (forall t, code :: Choices(Consolidated(s, codes), t, code) == Choices(s, t, code)) <==>
            (forall r :: r in RedundantRows(s, codes) ==> GlobalChoices(s, s.roles[r].code) == {Perms(s, r)})
  {
    var rows, c := RedundantRows(s, codes), Consolidated(s, codes);
    forall r | r in rows
      ensures var t, code := s.roles[r].tenant.value, s.roles[r].code;
              && Choices(s, t, code) == {Perms(s, r)} && Choices(c, t, code) == GlobalChoices(s, code)
    {
      var t, code := s.roles[r].tenant.value, s.roles[r].code;
      assert r in TenantRows(s, t, code);
      assert forall q :: q in TenantRows(s, t, code) ==> q == r;
      assert TenantRows(s, t, code) == {r};
      ChoicesAfterConsolidation(s, codes, t, code);
    }
    forall t, code
      ensures Choices(c, t, code) == Choices(s, t, code)
           || exists r :: && r in rows && Choices(s, t, code) == {Perms(s, r)}
                          && s.roles[r].code == code && Choices(c, t, code) == GlobalChoices(s, code)
    {
      ChoicesAfterConsolidation(s, codes, t, code);
      if TenantRows(s, t, code) != {} && TenantRows(s, t, code) <= rows {
        var r :| r in TenantRows(s, t, code);
        assert r in rows;
      }
    }
  }

  lemma SizeAroundOne(rows: set<UUID>, g: UUID)
    requires g in rows && |rows| == 1
    ensures rows == {g}
  {
    assert |rows - {g}| == 0;
  }

  lemma OneGlobalRowKeepsMeaning(s: Store, codes: set<string>)
    requires UniqueTenantRows(s)
    requires forall code :: code in codes ==> |GlobalRows(s, code)| == 1
    ensures forall t, code :: Choices(Consolidated(s, codes), t, code) == Choices(s, t, code)
  {
    forall r | r in RedundantRows(s, codes) ensures GlobalChoices(s, s.roles[r].code) == {Perms(s, r)} {
      var code := s.roles[r].code;
      assert GlobalRows(s, code) != {};
      var g :| g in GlobalRows(s, code);
      SizeAroundOne(GlobalRows(s, code), g);
      assert PermsOfAll(s, {g}) == Perms(s, g);
    }
    ConsolidationKeepsMeaning(s, codes);
  }

  /** Two global rows with one code can hide a permission: the union equals the copy, neither row
      does, and deleting the copy changes what its tenant is served. */
  lemma TwoGlobalRowsCanChangeMeaning(code: string, t: UUID) returns (s: Store)
    ensures UniqueTenantRows(s)
    ensures Choices(Consolidated(s, {code}), t, code) != Choices(s, t, code)
  {
    var global, copy := Role(None, code, "", "", true), Role(Some(t), code, "", "", true);
    var first, second, third, view, edit := UUID(1), UUID(2), UUID(3), UUID(7), UUID(8);
    s := Store(map[first := global, second := global, third := copy],
               {Grant(first, view), Grant(second, edit), Grant(third, view), Grant(third, edit)}, [], []);
    assert GlobalRows(s, code) == {first, second};
    assert Perms(s, first) == {view} && Perms(s, third) == {view, edit};
    assert PermsOfAll(s, {first, second}) == {view, edit};
    assert RedundantRows(s, {code}) == {third};
    assert TenantRows(s, t, code) == {third};
    ChoicesAfterConsolidation(s, {code}, t, code);
    assert {view} in GlobalChoices(s, code) by {
      assert first in GlobalRows(s, code);
    }
    assert view in Perms(s, third) && edit in Perms(s, third);
    assert Choices(s, t, code) == {Perms(s, third)};
    assert {view} != Perms(s, third);
  }

  // ---------------------------------------------------------------- the whole seed

  /** Global rows are where the seed puts them: at most one per seeded code, under its own id. */
  ghost predicate Canonical(s: Store, defs: seq<RoleDef>, idOf: string -> UUID) {
    && (forall d :: d in defs ==> GlobalRows(s, d.code) <= {idOf(d.code)})
    && (forall d :: d in defs && idOf(d.code) in s.roles ==> idOf(d.code) in GlobalRows(s, d.code))
    && (forall d, e :: d in defs && e in defs && idOf(d.code) == idOf(e.code) ==> d.code == e.code)
  }

  lemma SeededRow(s: Store, defs: seq<RoleDef>, idOf: string -> UUID, cat: Catalogue, r: UUID)
    ensures var s' := SeedDefs(s, defs, idOf, cat);
            && (r in s.roles ==> r in s'.roles && s'.roles[r] == s.roles[r])
            && (r in s'.roles && r !in s.roles ==>
                  exists d :: && d in defs && r == idOf(d.code)
                              && s'.roles[r].tenant == None && s'.roles[r].code == d.code)
            && ((exists d :: d in defs && r == idOf(d.code)) ==> r in s'.roles)
  {
    SeedDefsClosedForm(s, defs, idOf, cat);
  }

  lemma CanonicalAfterDefs(s: Store, defs: seq<RoleDef>, idOf: string -> UUID, cat: Catalogue, t: UUID, code: string)
    requires Canonical(s, defs, idOf)
    ensures var s' := SeedDefs(s, defs, idOf, cat);
            && TenantRows(s', t, code) == TenantRows(s, t, code)
            && GlobalRows(s', code) == (if code in Codes(defs) then {idOf(code)} else GlobalRows(s, code))
            && (UniqueTenantRows(s) ==> UniqueTenantRows(s'))
  {
    var s' := SeedDefs(s, defs, idOf, cat);
    forall r {
      SeededRow(s, defs, idOf, cat, r);
    }
    hide SeedDefs;
    forall r ensures r in TenantRows(s', t, code) <==> r in TenantRows(s, t, code) {
      SeededRow(s, defs, idOf, cat, r);
    }
    if code in Codes(defs) {
      var d :| d in defs && d.code == code;
      SeededRow(s, defs, idOf, cat, idOf(d.code));
      if idOf(d.code) in s.roles { assert idOf(d.code) in GlobalRows(s, d.code); }
      assert idOf(code) in GlobalRows(s', code);
      forall r | r in GlobalRows(s', code) ensures r == idOf(code) {
        SeededRow(s, defs, idOf, cat, r);
        if r in s.roles { assert r in GlobalRows(s, d.code); }
      }
    } else {
      forall r ensures r in GlobalRows(s', code) <==> r in GlobalRows(s, code) {
        SeededRow(s, defs, idOf, cat, r);
        assert forall e :: e in defs ==> e.code in Codes(defs);
      }
    }
  }

  lemma NothingRequired(defs: seq<RoleDef>, cat: Catalogue, code: string)
    requires code !in Codes(defs)
    ensures Required(defs, cat, code) == {}
  {
    assert forall d :: d in defs ==> d.code in Codes(defs);
  }

  lemma SameServed(s: Store, s': Store, t: UUID, code: string)
    requires TenantRows(s', t, code) == TenantRows(s, t, code)
    requires TenantRows(s, t, code) == {} ==> GlobalRows(s', code) == GlobalRows(s, code)
    requires forall r :: r in TenantRows(s, t, code) + GlobalRows(s, code) ==>
               TenantRows(s, t, code) == {} || r in TenantRows(s, t, code) ==> Perms(s', r) == Perms(s, r)
    ensures Choices(s', t, code) == Choices(s, t, code)
  {
    hide TenantRows, GlobalRows, Perms;
  }

  lemma PermsKept(s: Store, defs: seq<RoleDef>, idOf: string -> UUID, cat: Catalogue, t: UUID, code: string)
    ensures var s' := SeedDefs(s, defs, idOf, cat);
            && (forall r :: r in TenantRows(s, t, code) ==> Perms(s', r) == Perms(s, r))
            && (code !in Codes(defs) ==> forall r :: r in GlobalRows(s, code) ==> Perms(s', r) == Perms(s, r))
  {
    hide SeedDefs, Required, Perms, Codes;
    forall r | r in TenantRows(s, t, code) { DefaultsAreAddOnly(s, defs, idOf, cat, r); }
    if code !in Codes(defs) {
      NothingRequired(defs, cat, code);
      forall r | r in GlobalRows(s, code) { DefaultsAreAddOnly(s, defs, idOf, cat, r); }
    }
  }

  lemma SeededChoice(s: Store, defs: seq<RoleDef>, idOf: string -> UUID, cat: Catalogue, code: string)
    requires GlobalRows(SeedDefs(s, defs, idOf, cat), code) == {idOf(code)}
    ensures GlobalChoices(SeedDefs(s, defs, idOf, cat), code) == {Perms(s, idOf(code)) + Required(defs, cat, code)}
  {
    var s' := SeedDefs(s, defs, idOf, cat);
    assert idOf(code) in GlobalRows(s', code);
    PermsAfterDefs(s, defs, idOf, cat, idOf(code));
    hide SeedDefs, Required, Perms, GlobalRows;
  }

  lemma ChoicesAfterDefs(s: Store, defs: seq<RoleDef>, idOf: string -> UUID, cat: Catalogue, t: UUID, code: string)
    requires Canonical(s, defs, idOf)
    ensures Choices(SeedDefs(s, defs, idOf, cat), t, code) ==
            if TenantRows(s, t, code) == {} && code in Codes(defs)
            then {Perms(s, idOf(code)) + Required(defs, cat, code)}
            else Choices(s, t, code)
  {
    var s' := SeedDefs(s, defs, idOf, cat);
    CanonicalAfterDefs(s, defs, idOf, cat, t, code);
    PermsKept(s, defs, idOf, cat, t, code);
    hide SeedDefs, Required, Canonical, UniqueTenantRows, Perms, Codes, TenantRows, GlobalRows, GlobalChoices;
    if TenantRows(s, t, code) == {} && code in Codes(defs) {
      SeededChoice(s, defs, idOf, cat, code);
    } else {
      SameServed(s, s', t, code);
    }
  }

  /** What the whole seed means. A tenant with its own row for a code is served exactly what it was
      served before, even if the row is deleted. Everyone else is served the old global permissions
      and, for seeded codes, everything the definitions ask for. */
  lemma SeedMeaning(s: Store, defs: seq<RoleDef>, idOf: string -> UUID, cat: Catalogue, t: UUID, code: string)
    requires UniqueTenantRows(s) && Canonical(s, defs, idOf)
    ensures Choices(Seeded(s, defs, idOf, cat), t, code) ==
            if TenantRows(s, t, code) == {} && code in Codes(defs)
            then {Perms(s, idOf(code)) + Required(defs, cat, code)}
            else Choices(s, t, code)
  {
    var s' := SeedDefs(s, defs, idOf, cat);
    CanonicalAfterDefs(s, defs, idOf, cat, t, code);
    forall c | c in Codes(defs) ensures |GlobalRows(s', c)| == 1 {
      CanonicalAfterDefs(s, defs, idOf, cat, t, c);
    }
    hide SeedDefs, Required, Canonical, UniqueTenantRows, Choices, TenantRows;
    OneGlobalRowKeepsMeaning(s', Codes(defs));
    ChoicesAfterDefs(s, defs, idOf, cat, t, code);
    assert Seeded(s, defs, idOf, cat) == Consolidated(s', Codes(defs));
  }

  /** Consolidation leaves nothing pointing at a deleted role, and every surviving row, and its
      grants, exactly as they were. */
  lemma NothingDangles(s: Store, codes: set<string>)
    ensures var c := Consolidated(s, codes);
            && c.assignments == s.assignments && c.staff == s.staff
            && (forall r :: r in c.roles ==> r in s.roles && c.roles[r] == s.roles[r] && Perms(c, r) == Perms(s, r))
            && (forall r :: r in s.roles && r !in c.roles ==>
                  && s.roles[r].tenant.Some?
                  && (forall a :: a in c.assignments ==> a.role != r)
                  && (forall m :: m in c.staff ==> m != Staff(s.roles[r].tenant.value, s.roles[r].code))
                  && (forall g :: g in c.grants ==> g.role != r))
            && ((forall g :: g in s.grants ==> g.role in s.roles) ==> forall g :: g in c.grants ==> g.role in c.roles)
            && ((forall a :: a in s.assignments ==> a.role in s.roles) ==>
                  forall a :: a in c.assignments ==> a.role in c.roles)
  {
    WithoutFacts(s, RedundantRows(s, codes), NIL_UUID, "");
  }

  // ---------------------------------------------------------------- seeding twice

  /** Nothing is left for definition d to add. */
  ghost predicate Saturated(s: Store, d: RoleDef, idOf: string -> UUID, cat: Catalogue) {
    && idOf(d.code) in s.roles
    && (forall r, p :: r in GlobalRows(s, d.code) && p in Resolved(d.permissions, cat) ==> Grant(r, p) in s.grants)
  }

  lemma {:induction false} SaturatedStoreIsUnchanged(s: Store, defs: seq<RoleDef>, idOf: string -> UUID, cat: Catalogue)
    requires forall d :: d in defs ==> Saturated(s, d, idOf, cat)
    ensures SeedDefs(s, defs, idOf, cat) == s
  {
    if defs != [] {
      SaturatedStoreIsUnchanged(s, defs[..|defs| - 1], idOf, cat);
      assert Saturated(s, defs[|defs| - 1], idOf, cat);
    }
  }

  lemma DefsSaturate(s: Store, defs: seq<RoleDef>, idOf: string -> UUID, cat: Catalogue, d: RoleDef)
    requires d in defs
    ensures Saturated(SeedDefs(s, defs, idOf, cat), d, idOf, cat)
  {
    SeedDefsClosedForm(s, defs, idOf, cat);
  }

  lemma ConsolidatingAgainDeletesNothing(s: Store, codes: set<string>)
    ensures RedundantRows(Consolidated(s, codes), codes) == {}
  {
    var rows, c := RedundantRows(s, codes), Consolidated(s, codes);
    forall r | r in c.roles ensures !Redundant(c, codes, r) {
      var code := s.roles[r].code;
      WithoutFacts(s, rows, NIL_UUID, code);
      assert r !in rows && Perms(c, r) == Perms(s, r);
      assert forall g :: g in GlobalRows(s, code) ==> g !in rows;
      assert PermsOfAll(c, GlobalRows(c, code)) == PermsOfAll(s, GlobalRows(s, code));
      assert !Redundant(s, codes, r);
    }
  }

  /** Seeding twice is seeding once exactly when no row deleted as redundant sits under the id that a
      seeded code reserves for its global row: such a row would be created anew. */
  lemma SeedingIsIdempotent(s: Store, defs: seq<RoleDef>, idOf: string -> UUID, cat: Catalogue)
    ensures var once := Seeded(s, defs, idOf, cat);
            Seeded(once, defs, idOf, cat) == once <==>
            forall d :: d in defs ==> idOf(d.code) !in RedundantRows(SeedDefs(s, defs, idOf, cat), Codes(defs))
  {
    var codes := Codes(defs);
    var s' := SeedDefs(s, defs, idOf, cat);
    var rows := RedundantRows(s', codes);
    var once := Seeded(s, defs, idOf, cat);
    if d :| d in defs && idOf(d.code) in rows {
      assert idOf(d.code) !in once.roles;
      SeedDefsClosedForm(once, defs, idOf, cat);
      var twice := SeedDefs(once, defs, idOf, cat);
      assert idOf(d.code) in twice.roles && twice.roles[idOf(d.code)].tenant.None?;
      assert idOf(d.code) in Consolidated(twice, codes).roles;
    } else {
      forall d | d in defs ensures Saturated(once, d, idOf, cat) {
        DefsSaturate(s, defs, idOf, cat, d);
        WithoutFacts(s', rows, NIL_UUID, d.code);
      }
      SaturatedStoreIsUnchanged(once, defs, idOf, cat);
      ConsolidatingAgainDeletesNothing(s', codes);
      assert Without(once, {}).roles == once.roles;
      assert Without(once, {}).grants == once.grants;
    }
  }

  /** The global rows of a seeded code: those there are, and the one that is made if its id is free. */
  function GlobalRowsToBe(s: Store, idOf: string -> UUID, code: string): set<UUID> {
    GlobalRows(s, code) + (if idOf(code) in s.roles then {} else {idOf(code)})
  }

  /** Their permissions: the defaults are lost if there is no row to carry them. */
  ghost function GlobalPermsToBe(s: Store, defs: seq<RoleDef>, idOf: string -> UUID, cat: Catalogue,
                                 code: string): set<UUID> {
    var rows := GlobalRowsToBe(s, idOf, code);
    PermsOfAll(s, rows) + (if rows == {} then {} else Required(defs, cat, code))
  }

  /** Of the store as the caller has it: row r is a tenant's, nobody refers to it, and its permissions
      are those that the global rows of its code will have, the defaults included. */
  ghost predicate WillBeRedundant(s: Store, defs: seq<RoleDef>, idOf: string -> UUID, cat: Catalogue, r: UUID) {
    && r in s.roles && s.roles[r].isSystem && s.roles[r].tenant.Some? && s.roles[r].code in Codes(defs)
    && (forall a :: a in s.assignments ==> a.role != r)
    && (forall m :: m in s.staff ==> m != Staff(s.roles[r].tenant.value, s.roles[r].code))
    && Perms(s, r) == GlobalPermsToBe(s, defs, idOf, cat, s.roles[r].code)
  }

  ghost predicate OneIDPerCode(defs: seq<RoleDef>, idOf: string -> UUID) {
    forall d, e :: d in defs && e in defs && idOf(d.code) == idOf(e.code) ==> d.code == e.code
  }

  lemma GlobalRowsAfterDefs(s: Store, defs: seq<RoleDef>, idOf: string -> UUID, cat: Catalogue, code: string)
    requires code in Codes(defs) && OneIDPerCode(defs, idOf)
    ensures GlobalRows(SeedDefs(s, defs, idOf, cat), code) == GlobalRowsToBe(s, idOf, code)
  {
    var s' := SeedDefs(s, defs, idOf, cat);
    var d :| d in defs && d.code == code;
    SeededRow(s, defs, idOf, cat, idOf(code));
    hide SeedDefs, SeedDef;
    forall r ensures r in GlobalRows(s', code) <==> r in GlobalRowsToBe(s, idOf, code) {
      SeededRow(s, defs, idOf, cat, r);
    }
  }

  lemma GlobalPermsAfterDefs(s: Store, defs: seq<RoleDef>, idOf: string -> UUID, cat: Catalogue, code: string)
    requires code in Codes(defs) && OneIDPerCode(defs, idOf)
    ensures var s' := SeedDefs(s, defs, idOf, cat);
            PermsOfAll(s', GlobalRows(s', code)) == GlobalPermsToBe(s, defs, idOf, cat, code)
  {
    var s' := SeedDefs(s, defs, idOf, cat);
    var rows := GlobalRowsToBe(s, idOf, code);
    GlobalRowsAfterDefs(s, defs, idOf, cat, code);
    SeedDefsClosedForm(s, defs, idOf, cat);
    hide SeedDefs, Required, GlobalRowsToBe;
    forall p ensures p in PermsOfAll(s', rows) <==> p in GlobalPermsToBe(s, defs, idOf, cat, code) {
      if p in PermsOfAll(s, rows) {
        var g :| g in s.grants && g.role in rows && g.perm == p;
        assert Grant(g.role, p) in s'.grants;
      }
      if rows != {} && p in Required(defs, cat, code) {
        var r :| r in rows;
        assert Grant(r, p) in s'.grants;
      }
      if p in PermsOfAll(s', rows) {
        var g :| g in s'.grants && g.role in rows && g.perm == p;
        assert Grant(g.role, p) in s'.grants;
      }
    }
  }

  lemma RedundantAfterDefs(s: Store, defs: seq<RoleDef>, idOf: string -> UUID, cat: Catalogue, r: UUID)
    requires OneIDPerCode(defs, idOf)
    ensures Redundant(SeedDefs(s, defs, idOf, cat), Codes(defs), r) <==> WillBeRedundant(s, defs, idOf, cat, r)
  {
    var s' := SeedDefs(s, defs, idOf, cat);
    SeedDefsClosedForm(s, defs, idOf, cat);
    SeededRow(s, defs, idOf, cat, r);
    if r in s.roles {
      DefaultsAreAddOnly(s, defs, idOf, cat, r);
      if s.roles[r].code in Codes(defs) { GlobalPermsAfterDefs(s, defs, idOf, cat, s.roles[r].code); }
    }
    hide SeedDefs, Required, RowsSeeded, GrantsSeeded, GlobalPermsToBe, PermsOfAll, Perms, GlobalRows;
  }

  /** The same condition on the store as it is before the seed, with one id per code: no id reserved for
      a seeded code is that of a tenant's row which the seed is going to find redundant. */
  lemma SeedingTwiceOnAStore(s: Store, defs: seq<RoleDef>, idOf: string -> UUID, cat: Catalogue)
    requires OneIDPerCode(defs, idOf)
    ensures var once := Seeded(s, defs, idOf, cat);
            Seeded(once, defs, idOf, cat) == once <==>
            forall d :: d in defs ==> !WillBeRedundant(s, defs, idOf, cat, idOf(d.code))
  {
    SeedingIsIdempotent(s, defs, idOf, cat);
    forall r { RedundantAfterDefs(s, defs, idOf, cat, r); }
    hide Seeded, WillBeRedundant, Redundant;
  }

  /** What a deployment can check at a glance: if no reserved id is a tenant's row, seeding twice is
      seeding once. */
  lemma ReservedIDsMakeSeedingIdempotent(s: Store, defs: seq<RoleDef>, idOf: string -> UUID, cat: Catalogue)
    requires forall d :: d in defs && idOf(d.code) in s.roles ==> s.roles[idOf(d.code)].tenant.None?
    ensures var once := Seeded(s, defs, idOf, cat); Seeded(once, defs, idOf, cat) == once
  {
    SeedingIsIdempotent(s, defs, idOf, cat);
    forall d | d in defs { SeededRow(s, defs, idOf, cat, idOf(d.code)); }
    hide Seeded, SeedDefs;
  }

  /** It can fail: a bare tenant row under the reserved id is deleted by the first seed, and its id taken
      by a new global row in the second. */
  lemma SeedingTwiceCanDiffer(d: RoleDef, t: UUID, idOf: string -> UUID, cat: Catalogue) returns (s: Store)
    ensures UniqueTenantRows(s)
    ensures var once := Seeded(s, [d], idOf, cat); Seeded(once, [d], idOf, cat) != once
  {
    var r := idOf(d.code);
    s := Store(map[r := Role(Some(t), d.code, d.name, d.description, true)], {}, [], []);
    assert d in [d] && d.code in Codes([d]);
    assert GlobalRows(s, d.code) == {} && PermsOfAll(s, {}) == {} && Perms(s, r) == {};
    assert WillBeRedundant(s, [d], idOf, cat, r);
    SeedingTwiceOnAStore(s, [d], idOf, cat);
  }

  // ---------------------------------------------------------------- the tables

  lemma GrantsOneMore(s: Store, rows: set<UUID>, matching: seq<UUID>, i: nat, perms: seq<UUID>)
    requires i < |matching|
    ensures WithGrants(s, rows * ToSet(matching[..i + 1]), ToSet(perms)).grants ==
            WithGrants(s, rows * ToSet(matching[..i]), ToSet(perms)).grants
            + (if matching[i] in rows then set p | p in perms :: Grant(matching[i], p) else {})
  {
    assert matching[..i + 1] == matching[..i] + [matching[i]];
  }

  lemma WithoutNone(s: Store)
    ensures Without(s, {}) == s
  {
    assert (s.roles - {}) == s.roles;
    assert Without(s, {}).grants == s.grants;
  }

  lemma WithoutOneMore(s: Store, gone: set<UUID>, r: UUID)
    ensures Without(Without(s, gone), {r}) == Without(s, gone + {r})
  {
    assert (s.roles - gone) - {r} == s.roles - (gone + {r});
    assert Without(Without(s, gone), {r}).grants == Without(s, gone + {r}).grants;
  }

  lemma LastOfPrefix(legacy: seq<UUID>, i: nat)
    requires NoDup(legacy) && i < |legacy|
    ensures ToSet(legacy[..i + 1]) == ToSet(legacy[..i]) + {legacy[i]} && legacy[i] !in ToSet(legacy[..i])
  {
    assert legacy[..i + 1] == legacy[..i] + [legacy[i]];
  }

  /** Deleting redundant rows never changes the verdict on another row, so the order of the legacy
      rows does not matter. */
  lemma JudgementIsStable(s: Store, codes: set<string>, gone: set<UUID>, r: UUID)
    requires gone <= RedundantRows(s, codes) && r in s.roles && r !in gone
    ensures Redundant(Without(s, gone), codes, r) <==> Redundant(s, codes, r)
    ensures r in Without(s, gone).roles
  {
    var code := s.roles[r].code;
    WithoutFacts(s, gone, NIL_UUID, code);
    assert forall g :: g in GlobalRows(s, code) ==> g !in gone;
    assert PermsOfAll(Without(s, gone), GlobalRows(s, code)) == PermsOfAll(s, GlobalRows(s, code));
  }

  /** The role tables. Inserts fail only on duplicates; reads return rows in any order. */
  class RoleTables {
    var roles: map<UUID, Role>
    var grants: set<Grant>
    const assignments: seq<Assignment>
    const staff: seq<Staff>

    constructor (s: Store)
      ensures View() == s
    {
      roles, grants, assignments, staff := s.roles, s.grants, s.assignments, s.staff;
    }

    function View(): Store
      reads this
    {
      Store(roles, grants, assignments, staff)
    }

    /** Inserts a grant; false on a duplicate. */
    method CreateGrant(role: UUID, perm: UUID) returns (ok: bool)
      modifies this`grants
      ensures grants == old(grants) + {Grant(role, perm)}
      ensures ok <==> Grant(role, perm) !in old(grants)
    {
      ok := Grant(role, perm) !in grants;
      if ok { grants := grants + {Grant(role, perm)}; }
    }

    /** Creates the global row of one definition if its id is free, and adds the resolved grants to
        every global row of its code. */
    method SeedRole(d: RoleDef, idOf: string -> UUID, permByCode: Catalogue)
      modifies this
      ensures View() == SeedDef(old(View()), d, idOf, permByCode)
    {
      if idOf(d.code) !in roles {
        roles := roles[idOf(d.code) := Role(None, d.code, d.name, d.description, true)];
      }
      ghost var s := View();
      assert s == WithGlobalRow(old(View()), d, idOf);
      var permIDs := ResolvePermissions(d.permissions, permByCode);
      var matching := Listed(set r | r in roles && roles[r].code == d.code);
      for i := 0 to |matching|
        invariant View() == WithGrants(s, GlobalRows(s, d.code) * ToSet(matching[..i]), ToSet(permIDs))
      {
        var role := matching[i];
        assert role in ToSet(matching);
        GrantsOneMore(s, GlobalRows(s, d.code), matching, i, permIDs);
        if roles[role].tenant.None? {
          AddGrants(role, permIDs);
        }
      }
      assert matching[..|matching|] == matching;
      assert GlobalRows(s, d.code) * ToSet(matching) == GlobalRows(s, d.code);
    }

    method AddGrants(role: UUID, permIDs: seq<UUID>)
      modifies this`grants
      ensures grants == old(grants) + set p | p in permIDs :: Grant(role, p)
    {
      for i := 0 to |permIDs|
        invariant grants == old(grants) + set p | p in permIDs[..i] :: Grant(role, p)
      {
        assert permIDs[..i + 1] == permIDs[..i] + [permIDs[i]];
        var ok := CreateGrant(role, permIDs[i]);
        if !ok {
          continue;
        }
      }
      assert permIDs[..|permIDs|] == permIDs;
    }

    /** The permission ids reachable from some role rows; a traversal, hence without duplicates. */
    method QueryPermissionIDs(rows: set<UUID>) returns (ids: seq<UUID>)
      ensures NoDup(ids) && ToSet(ids) == PermsOfAll(View(), rows)
    {
      ids := Listed(set g | g in grants && g.role in rows :: g.perm);
    }

    /** Whether a legacy tenant row may go, judged against the tables as they are now. */
    method IsRedundant(lr: UUID, systemCodes: set<string>) returns (yes: bool)
      requires lr in roles && roles[lr].isSystem && roles[lr].tenant.Some?
      ensures yes <==> Redundant(View(), systemCodes, lr)
    {
      var role := roles[lr];
      if role.code !in systemCodes {
        return false;
      }
      if exists a :: a in assignments && a.role == lr {
        return false;
      }
      if exists m :: m in staff && m == Staff(role.tenant.value, role.code) {
        return false;
      }
      var globals := set r | r in roles && roles[r].tenant.None? && roles[r].code == role.code;
      var globalPermIDs := QueryPermissionIDs(globals);
      var copyPermIDs := QueryPermissionIDs({lr});
      yes := SamePermSet(globalPermIDs, copyPermIDs);
      SameLengthAndIncludedMeansEqual(globalPermIDs, copyPermIDs);
      assert PermsOfAll(View(), {lr}) == Perms(View(), lr);
    }

    method DeleteRole(lr: UUID)
      modifies this
      ensures View() == Without(old(View()), {lr})
    {
      grants := set g | g in grants && g.role != lr;
      roles := roles - {lr};
      assert View().grants == Without(old(View()), {lr}).grants;
    }

    /** Judges and deletes the legacy rows one by one, in any order. */
    method Consolidate(systemCodes: set<string>) returns (consolidated: nat)
      modifies this
      ensures View() == Consolidated(old(View()), systemCodes)
      ensures consolidated == |RedundantRows(old(View()), systemCodes)|
    {
      ghost var s := View();
      var legacy := Listed(set r | r in roles && roles[r].isSystem && roles[r].tenant.Some?);
      consolidated := 0;
      ghost var gone: set<UUID> := {};
      WithoutNone(s);
      for i := 0 to |legacy|
        invariant gone <= RedundantRows(s, systemCodes) && gone <= ToSet(legacy[..i])
        invariant RedundantRows(s, systemCodes) * ToSet(legacy[..i]) <= gone
        invariant View() == Without(s, gone) && consolidated == |gone|
      {
        var lr := legacy[i];
        LastOfPrefix(legacy, i);
        assert lr in ToSet(legacy);
        JudgementIsStable(s, systemCodes, gone, lr);
        var redundant := IsRedundant(lr, systemCodes);
        if !redundant {
          continue;
        }
        WithoutOneMore(s, gone, lr);
        DeleteRole(lr);
        gone := gone + {lr};
        consolidated := consolidated + 1;
      }
      assert legacy[..|legacy|] == legacy;
      assert gone == RedundantRows(s, systemCodes);
    }

    method SeedRBACRoles(defs: seq<RoleDef>, idOf: string -> UUID, permByCode: Catalogue) returns (consolidated: nat)
      modifies this
      ensures View() == Seeded(old(View()), defs, idOf, permByCode)
    {
      for i := 0 to |defs|
        invariant View() == SeedDefs(old(View()), defs[..i], idOf, permByCode)
      {
        assert defs[..i + 1][..i] == defs[..i];
        SeedRole(defs[i], idOf, permByCode);
      }
      assert defs[..|defs|] == defs;
      consolidated := Consolidate(Codes(defs));
    }
  }
}
