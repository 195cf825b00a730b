/** Permission codes, the patterns that a role definition lists, and the permission ids they stand
    for (cmd/seed/main.go). A catalogue maps each permission code to the id of its row. */
module Permissions {
  import opened Prelude

  type Catalogue = map<string, UUID>

  // ---------------------------------------------------------------- what a pattern means

  /** "!code": withheld from the role, whatever else the role lists. */
  predicate IsExclusion(p: string) { |p| > 1 && p[0] == '!' }

  /** "*" grants everything and "prefix*" what starts with the prefix, but only from three
      characters on: "x*" and "**" are plain codes, and so is a lone "!". */
  predicate Grants(p: string, code: string) {
    && !IsExclusion(p)
    && (if p == "*" then true
        else if |p| > 2 && p[|p| - 1] == '*' then p[..|p| - 1] <= code
        else p == code)
  }

  predicate Excludes(p: string, code: string) { IsExclusion(p) && p[1..] == code }

  ghost predicate Granted(patterns: seq<string>, code: string) {
    exists p :: p in patterns && Grants(p, code)
  }

  ghost predicate Excluded(patterns: seq<string>, code: string) {
    exists p :: p in patterns && Excludes(p, code)
  }

  /** The ids that some listed pattern grants, less the ids of the excluded codes. */
  ghost function Resolved(patterns: seq<string>, cat: Catalogue): set<UUID> {
    (set code | code in cat && Granted(patterns, code) :: cat[code])
    - (set code | code in cat && Excluded(patterns, code) :: cat[code])
  }

  ghost predicate Injective(cat: Catalogue) {
    forall c, d :: c in cat && d in cat && cat[c] == cat[d] ==> c == d
  }

  // ---------------------------------------------------------------- resolving

  lemma GrantedOneMore(patterns: seq<string>, p: string)
    ensures forall code :: Granted(patterns + [p], code) <==> Granted(patterns, code) || Grants(p, code)
    ensures forall code :: Excluded(patterns + [p], code) <==> Excluded(patterns, code) || Excludes(p, code)
  {
    assert p in patterns + [p];
    forall q | q in patterns ensures q in patterns + [p] {}
  }

  /** The ids of all codes with a given prefix, the catalogue read in any order. */
  method AddMatching(prefix: string, permByCode: Catalogue) returns (ids: set<UUID>)
    ensures forall id :: id in ids <==> exists code :: code in permByCode && permByCode[code] == id && prefix <= code
  {
    ids := {};
    var todo := permByCode.Keys;
    while todo != {}
      invariant todo <= permByCode.Keys
      invariant forall id :: id in ids <==>
        exists code :: code in permByCode.Keys - todo && permByCode[code] == id && prefix <= code
    {
      var code :| code in todo;
      todo := todo - {code};
      if |code| >= |prefix| && code[..|prefix|] == prefix {
        assert code in permByCode.Keys - todo && permByCode[code] == permByCode[code] && prefix <= code;
        ids := ids + {permByCode[code]};
      }
    }
  }

  /** The elements of a set, in any order. */
  method Listed(ids: set<UUID>) returns (result: seq<UUID>)
    ensures NoDup(result) && ToSet(result) == ids
  {
    result := [];
    var todo := ids;
    while todo != {}
      invariant todo <= ids && NoDup(result)
      invariant ToSet(result) == ids - todo
    {
      assert exists id :: id in todo;
      var id :| id in todo;
      todo := todo - {id};
      assert id !in result;
      result := result + [id];
    }
  }

  method ResolvePermissions(patterns: seq<string>, permByCode: Catalogue) returns (result: seq<UUID>)
    ensures NoDup(result)
    ensures ToSet(result) == Resolved(patterns, permByCode)
  {
    var ids: set<UUID> := {};
    var excludes: seq<string> := [];
    for i := 0 to |patterns|
      invariant forall id :: id in ids <==>
        exists code :: code in permByCode && permByCode[code] == id && Granted(patterns[..i], code)
      invariant forall code :: code in excludes <==> Excluded(patterns[..i], code)
    {
      var pattern := patterns[i];
      assert patterns[..i + 1] == patterns[..i] + [pattern];
      GrantedOneMore(patterns[..i], pattern);
      if |pattern| > 1 && pattern[0] == '!' {
        excludes := excludes + [pattern[1..]];
      } else if pattern == "*" {
        ids := ids + permByCode.Values;
        assert forall code :: code in permByCode ==> permByCode[code] in permByCode.Values;
      } else if |pattern| > 2 && pattern[|pattern| - 1] == '*' {
        var matching := AddMatching(pattern[..|pattern| - 1], permByCode);
        ids := ids + matching;
      } else if pattern in permByCode {
        ids := ids + {permByCode[pattern]};
      }
    }
    assert patterns[..|patterns|] == patterns;
    ghost var included := ids;
    for i := 0 to |excludes|
      invariant ids == included - set code | code in permByCode && code in excludes[..i] :: permByCode[code]
    {
      assert excludes[..i + 1] == excludes[..i] + [excludes[i]];
      if excludes[i] in permByCode {
        ids := ids - {permByCode[excludes[i]]};
      }
    }
    assert excludes[..|excludes|] == excludes;
    forall id ensures id in ids <==> id in Resolved(patterns, permByCode) {
      assert id in included <==> exists code :: code in permByCode && permByCode[code] == id && Granted(patterns, code);
    }
    result := Listed(ids);
  }

  // What a list of patterns resolves to, pattern by pattern.

  /** The admin role's own list. */
  lemma StarGrantsEverything(cat: Catalogue)
    ensures Resolved(["*"], cat) == cat.Values
  {
    assert "*" in ["*"];
    assert forall code :: Granted(["*"], code) && !Excluded(["*"], code);
    assert forall id :: id in cat.Values <==> exists code :: code in cat && cat[code] == id;
  }

  /** "prefix*" grants what begins with the prefix, if that has two characters at least. */
  lemma WildcardGrantsPrefix(p: string, cat: Catalogue)
    requires |p| >= 2 && p[0] != '!'
    ensures Resolved([p + "*"], cat) == set code | code in cat && p <= code :: cat[code]
  {
    var pattern := p + "*";
    assert pattern[..|p|] == p && pattern[0] == p[0] && |pattern| != |"*"|;
    assert pattern in [pattern];
    assert forall code :: Granted([pattern], code) <==> p <= code;
    assert forall code :: !Excluded([pattern], code);
  }

  /** Anything else that is no exclusion stands for the code it spells, in the catalogue or not; "x*" and
      "**" do, and so does a lone "!". */
  lemma PlainCodeGrantsItself(p: string, cat: Catalogue)
    requires p != "*" && (|p| <= 2 || p[|p| - 1] != '*') && (|p| <= 1 || p[0] != '!')
    ensures Resolved([p], cat) == if p in cat then {cat[p]} else {}
  {
    assert p in [p];
    assert forall code :: Granted([p], code) <==> p == code;
    assert forall code :: !Excluded([p], code);
  }

  /** A list without exclusions grants what its parts grant. */
  lemma PartsAddUp(ps: seq<string>, qs: seq<string>, cat: Catalogue)
    requires forall p :: p in ps + qs ==> |p| <= 1 || p[0] != '!'
    ensures Resolved(ps + qs, cat) == Resolved(ps, cat) + Resolved(qs, cat)
  {
    assert forall p :: p in ps + qs <==> p in ps || p in qs;
    assert forall code :: !Excluded(ps + qs, code) && !Excluded(ps, code) && !Excluded(qs, code);
    forall code ensures Granted(ps + qs, code) <==> Granted(ps, code) || Granted(qs, code) {
      if p :| p in ps && Grants(p, code) { assert p in ps + qs; }
      if p :| p in qs && Grants(p, code) { assert p in ps + qs; }
    }
  }

  /** "!code" takes that code's id away and nothing else, wherever it stands. */
  lemma ExclusionTakesOneCode(ps: seq<string>, qs: seq<string>, code: string, cat: Catalogue)
    requires code != ""
    ensures Resolved(ps + ["!" + code] + qs, cat) == Resolved(ps + qs, cat) - (if code in cat then {cat[code]} else {})
  {
    var p, rest, all := "!" + code, ps + qs, ps + ["!" + code] + qs;
    assert p[1..] == code && p[0] == '!';
    assert forall q :: q in all <==> q in rest || q == p;
    forall c ensures Granted(all, c) <==> Granted(rest, c) {
      if q :| q in rest && Grants(q, c) { assert q in all; }
    }
    forall c ensures Excluded(all, c) <==> Excluded(rest, c) || c == code {
      if q :| q in rest && Excludes(q, c) { assert q in all; }
      if c == code { assert p in all && Excludes(p, c); }
    }
  }

  /** The order, and the number of times, in which patterns are listed never matters. */
  lemma PatternOrderIsIrrelevant(ps: seq<string>, qs: seq<string>, cat: Catalogue)
    requires ToSet(ps) == ToSet(qs)
    ensures Resolved(ps, cat) == Resolved(qs, cat)
  {
    assert forall p :: p in ps <==> p in qs;
    assert forall code :: Granted(ps, code) <==> Granted(qs, code);
    assert forall code :: Excluded(ps, code) <==> Excluded(qs, code);
  }

  /** An exclusion always wins, wherever it stands and whatever wildcard covers its code. */
  lemma ExclusionAlwaysWins(patterns: seq<string>, code: string, cat: Catalogue)
    requires "!" + code in patterns && code != "" && code in cat
    ensures cat[code] !in Resolved(patterns, cat)
  {
    assert Excludes("!" + code, code);
    assert Excluded(patterns, code);
  }

  ghost predicate Extends(cat: Catalogue, cat': Catalogue) {
    forall code :: code in cat ==> code in cat' && cat'[code] == cat[code]
  }

  /** Enlarging the catalogue takes an id away from a role exactly when a newly added code is
      excluded by the role and carries the id of a permission that the role had. */
  lemma EnlargingKeepsResolved(patterns: seq<string>, cat: Catalogue, cat': Catalogue)
    requires Extends(cat, cat')
    ensures Resolved(patterns, cat) <= Resolved(patterns, cat') <==>
            forall code :: code in cat' && code !in cat && Excluded(patterns, code) ==>
              cat'[code] !in Resolved(patterns, cat)
  {
    forall id | id in Resolved(patterns, cat) && id !in Resolved(patterns, cat')
      ensures exists code :: code in cat' && code !in cat && Excluded(patterns, code) && cat'[code] == id
    {
      var c :| c in cat && Granted(patterns, c) && cat[c] == id;
      assert c in cat' && cat'[c] == id;
      var d :| d in cat' && Excluded(patterns, d) && cat'[d] == id;
      assert d !in cat;
    }
  }

  /** With one id per code, enlarging the catalogue never takes a permission away. */
  lemma InjectiveEnlargingKeepsResolved(patterns: seq<string>, cat: Catalogue, cat': Catalogue)
    requires Extends(cat, cat') && Injective(cat')
    ensures Resolved(patterns, cat) <= Resolved(patterns, cat')
  {
    EnlargingKeepsResolved(patterns, cat, cat');
    forall code | code in cat' && code !in cat && Excluded(patterns, code)
      ensures cat'[code] !in Resolved(patterns, cat)
    {
      assert forall c :: c in cat ==> cat'[c] == cat[c] && cat[c] != cat'[code];
    }
  }

  // ---------------------------------------------------------------- seeding the catalogue

  /** The permission table: codes are unique, and so are ids, being the primary key. */
  class PermissionTable {
    var byCode: Catalogue

    constructor (rows: Catalogue)
      ensures byCode == rows
    {
      byCode := rows;
    }

    /** Insert-if-missing for every code, its id derived from the code. A primary-key clash is an
        error, and ends the seeding with what was inserted so far. */
    method Seed(codes: seq<string>, idOf: string -> UUID) returns (ok: bool, count: nat)
      requires Injective(byCode)
      modifies this
      ensures Injective(byCode) && Extends(old(byCode), byCode)
      ensures forall code :: code in byCode && code !in old(byCode) ==> code in codes && byCode[code] == idOf(code)
      ensures ok ==> forall code :: code in codes ==> code in byCode
      ensures !ok ==> exists code :: code in codes && code !in byCode && idOf(code) in byCode.Values
      ensures count == |byCode| - |old(byCode)|
    {
      count := 0;
      for i := 0 to |codes|
        invariant Injective(byCode) && Extends(old(byCode), byCode)
        invariant forall code :: code in byCode && code !in old(byCode) ==> code in codes && byCode[code] == idOf(code)
        invariant forall code :: code in codes[..i] ==> code in byCode
        invariant count == |byCode| - |old(byCode)|
      {
        var code := codes[i];
        assert codes[..i + 1] == codes[..i] + [code];
        if code !in byCode {
          if idOf(code) in byCode.Values {
            return false, count;
          }
          byCode := byCode[code := idOf(code)];
          count := count + 1;
        }
      }
      return true, count;
    }
  }

  /** Seeding permissions before roles never shrinks a role's defaults, even when it fails midway. */
  method SeedThenResolve(table: PermissionTable, codes: seq<string>, idOf: string -> UUID, patterns: seq<string>)
    returns (ok: bool, ids: seq<UUID>)
    requires Injective(table.byCode)
    modifies table
    ensures ToSet(ids) == Resolved(patterns, table.byCode)
    ensures Resolved(patterns, old(table.byCode)) <= ToSet(ids)
  {
    var count;
    ok, count := table.Seed(codes, idOf);
    InjectiveEnlargingKeepsResolved(patterns, old(table.byCode), table.byCode);
    ids := ResolvePermissions(patterns, table.byCode);
  }

  // ---------------------------------------------------------------- comparing permission sets

  method SamePermSet(a: seq<UUID>, b: seq<UUID>) returns (same: bool)
    ensures same <==> |a| == |b| && ToSet(b) <= ToSet(a)
  {
    if |a| != |b| {
      return false;
    }
    var seen: set<UUID> := {};
    for i := 0 to |a|
      invariant seen == ToSet(a[..i])
    {
      assert a[..i + 1] == a[..i] + [a[i]];
      seen := seen + {a[i]};
    }
    assert a[..|a|] == a;
    for i := 0 to |b|
      invariant forall k :: 0 <= k < i ==> b[k] in ToSet(a)
    {
      if b[i] !in seen {
        assert b[i] in ToSet(b);
        return false;
      }
    }
    return true;
  }

  /** Only one inclusion is checked, so on duplicate-free slices it is the lengths that give the
      other one. */
  lemma SameLengthAndIncludedMeansEqual(a: seq<UUID>, b: seq<UUID>)
    requires NoDup(a) && NoDup(b)
    ensures |a| == |b| && ToSet(b) <= ToSet(a) <==> ToSet(a) == ToSet(b)
  {
    SizeWithoutDuplicates(a);
    SizeWithoutDuplicates(b);
    if |a| == |b| && ToSet(b) <= ToSet(a) {
      SubsetOfEqualSize(ToSet(a), ToSet(b));
    }
  }

  /** With duplicates the comparison goes wrong both ways. */
  lemma DuplicatesBreakComparison(x: UUID, y: UUID)
    requires x != y
    ensures var a, b := [x, y], [x, x]; |a| == |b| && ToSet(b) <= ToSet(a) && ToSet(a) != ToSet(b)
    ensures var a, b := [x], [x, x]; ToSet(a) == ToSet(b) && |a| != |b|
  {
    assert y in [x, y] && y !in [x, x];
    assert ToSet([x]) == {x} && ToSet([x, x]) == {x};
  }

  /** IDs of a query that finds `found`, an id as often as there is a path to it. A traversal whose
      uniqueness was left open is made unique. */
  function IDs(found: seq<UUID>, unique: Option<bool>, traversal: bool): seq<UUID> {
    var distinct := if unique.None? && traversal then true else unique == Some(true);
    if distinct then Firsts(found) else found
  }

  lemma WhenIDsAreDistinct(found: seq<UUID>, traversal: bool)
    ensures IDs(found, Some(false), traversal) == found && IDs(found, None, false) == found
    ensures NoDup(IDs(found, Some(true), traversal)) && ToSet(IDs(found, Some(true), traversal)) == ToSet(found)
    ensures NoDup(IDs(found, None, true)) && ToSet(IDs(found, None, true)) == ToSet(found)
  {
    FirstsKeepEachOnce(found);
  }

  /** So the comparison of two roles' permissions is sound: both sides are traversals. */
  lemma TraversalsCompareAsSets(a: seq<UUID>, b: seq<UUID>)
    ensures var x, y := IDs(a, None, true), IDs(b, None, true);
            |x| == |y| && ToSet(y) <= ToSet(x) <==> ToSet(a) == ToSet(b)
  {
    var x, y := IDs(a, None, true), IDs(b, None, true);
    FirstsKeepEachOnce(a);
    FirstsKeepEachOnce(b);
    assert ToSet(x) == ToSet(a) && ToSet(y) == ToSet(b);
    SameLengthAndIncludedMeansEqual(x, y);
  }
}
