/**
  The stated law of client attenuation, effective = user_grants ∩ (baseline ∪
  scopes) (internal/acl/ceiling.go:14-26), against what the code computes.
*/
module CeilingLaws {

  import opened Wrappers
  import opened Text
  import opened Grants
  import opened Ceiling

  // ----- baseline ∪ scopes -----

  /** A scope's list names a target: as an allowlist does, or literally on a denial. */
  predicate ScopeNames(base: Axis, list: seq<string>, target: string) {
    if base.allow.Some? then NamesType(list, target) else target in list
  }

  function ReopenedAll(base: Axis, lists: seq<seq<string>>): Axis {
    if lists == [] then base
    else Reopened(ReopenedAll(base, lists[..|lists| - 1]), lists[|lists| - 1])
  }

  ghost predicate SomeScopeNames(base: Axis, lists: seq<seq<string>>, target: string) {
    exists l :: l in lists && ScopeNames(base, l, target)
  }

  /** A compiled axis as loaded: nothing carved out yet. */
  predicate Fresh(base: Axis) { base.except == [] }

  lemma {:induction false} ReopenedShape(base: Axis, lists: seq<seq<string>>, e: string)
    requires Fresh(base)
    ensures var v := ReopenedAll(base, lists);
            && v.deny == base.deny && v.allow.Some? == base.allow.Some?
            && (v.allow.Some? ==>
                  (e in v.allow.value <==> e in base.allow.value || exists l :: l in lists && e in l))
            && (e in v.except <==> |base.deny| > 0 && exists l :: l in lists && e in l)
  {
    if lists != [] {
      var last := |lists| - 1;
      ReopenedShape(base, lists[..last], e);
      assert lists == lists[..last] + [lists[last]];
      assert e in lists[last] ==> lists[last] in lists;
    }
  }

  /**
    The union law on one axis: the widened ceiling permits a target iff the
    baseline permits it or some matched scope names it.
  */
  lemma UnionLaw(base: Axis, lists: seq<seq<string>>, target: string)
    requires Fresh(base)
    ensures Permits(ReopenedAll(base, lists), target)
            <==> Permits(base, target) || SomeScopeNames(base, lists, target)
  {
    var v := ReopenedAll(base, lists);
    ReopenedShape(base, lists, target);
    ReopenedShape(base, lists, "*");
    if exists l :: l in lists && target in l {
      var l :| l in lists && target in l;
      assert ScopeNames(base, l, target);
    }
    if base.allow.Some? && exists l :: l in lists && "*" in l {
      var l :| l in lists && "*" in l;
      assert ScopeNames(base, l, target);
    }
  }

  /** More scopes never take anything away, and their order never matters. */
  lemma ScopesMonotone(base: Axis, fewer: seq<seq<string>>, more: seq<seq<string>>, target: string)
    requires Fresh(base) && forall l :: l in fewer ==> l in more
    ensures Permits(ReopenedAll(base, fewer), target) ==> Permits(ReopenedAll(base, more), target)
  {
    UnionLaw(base, fewer, target);
    UnionLaw(base, more, target);
  }

  /**
    On a denial, "*" in a scope re-opens nothing but the literal "*": carve-outs
    are matched exactly, unlike every other list of types.
  */
  lemma StarReopensNoDenial(deny: seq<string>, target: string)
    requires deny != [] && target != "*"
    ensures Permits(ReopenedAll(Axis(None, deny, []), [["*"]]), target)
            <==> Permits(Axis(None, deny, []), target)
  {
    UnionLaw(Axis(None, deny, []), [["*"]], target);
  }

  // ----- the union as the design states it -----

  /** baseline ∪ scopes with "*" read as in every other list of types. */
  ghost predicate StatedUnion(base: Axis, lists: seq<seq<string>>, target: string) {
    Permits(base, target) || exists l :: l in lists && NamesType(l, target)
  }

  ghost predicate SomeHolds(lists: seq<seq<string>>, name: string) { exists l :: l in lists && name in l }

  /** No scope says "*" on a denial, or the scopes also name every denied type. */
  ghost predicate StarHarmless(base: Axis, lists: seq<seq<string>>) {
    || base.allow.Some?
    || base.deny == []
    || !SomeHolds(lists, "*")
    || ("*" !in base.deny && forall d :: d in base.deny ==> SomeHolds(lists, d))
  }

  function Longest(list: seq<string>): (n: nat)
    ensures forall e :: e in list ==> |e| <= n
  {
    if list == [] then 0
    else
      var n := Longest(list[1..]);
      assert forall e :: e in list <==> e == list[0] || e in list[1..];
      if |list[0]| > n then |list[0]| else n
  }

  function LongestOf(lists: seq<seq<string>>): (n: nat)
    ensures forall l, e :: l in lists && e in l ==> |e| <= n
  {
    if lists == [] then 0
    else
      var n := LongestOf(lists[1..]);
      assert forall l :: l in lists <==> l == lists[0] || l in lists[1..];
      if Longest(lists[0]) > n then Longest(lists[0]) else n
  }

  /** A name no list holds. */
  lemma Unnamed(lists: seq<seq<string>>) returns (name: string)
    ensures !SomeHolds(lists, name)
  {
    name := seq(LongestOf(lists) + 1, _ => 'a');
  }

  /** On a denial a scope re-opens what it names literally. */
  lemma DenialReopens(base: Axis, lists: seq<seq<string>>, target: string)
    requires Fresh(base) && base.allow.None?
    ensures Permits(ReopenedAll(base, lists), target) <==> Permits(base, target) || SomeHolds(lists, target)
  {
    UnionLaw(base, lists, target);
    forall l | l in lists ensures ScopeNames(base, l, target) <==> target in l {
    }
  }

  lemma StarOpensAll(base: Axis, lists: seq<seq<string>>, target: string)
    requires SomeHolds(lists, "*")
    ensures StatedUnion(base, lists, target)
  {
    var l :| l in lists && "*" in l;
    assert NamesType(l, target);
  }

  lemma StatedWithoutStar(base: Axis, lists: seq<seq<string>>, target: string)
    requires !SomeHolds(lists, "*")
    ensures StatedUnion(base, lists, target) <==> Permits(base, target) || SomeHolds(lists, target)
  {
    forall l | l in lists ensures NamesType(l, target) <==> target in l {
      assert "*" !in l;
    }
  }

  lemma HarmlessIsUnion(base: Axis, lists: seq<seq<string>>, target: string)
    requires Fresh(base) && StarHarmless(base, lists)
    ensures Permits(ReopenedAll(base, lists), target) <==> StatedUnion(base, lists, target)
  {
    if base.allow.Some? {
      UnionLaw(base, lists, target);
      forall l | l in lists ensures ScopeNames(base, l, target) <==> NamesType(l, target) {
      }
    } else {
      DenialReopens(base, lists, target);
      if SomeHolds(lists, "*") {
        StarOpensAll(base, lists, target);
      } else {
        StatedWithoutStar(base, lists, target);
      }
    }
  }

  /** Otherwise some denied name stays closed although a scope says "*". */
  lemma HarmfulStar(base: Axis, lists: seq<seq<string>>) returns (target: string)
    requires Fresh(base) && !StarHarmless(base, lists)
    ensures StatedUnion(base, lists, target) && !Permits(ReopenedAll(base, lists), target)
  {
    if "*" in base.deny {
      target := Unnamed(lists);
    } else {
      target :| target in base.deny && !SomeHolds(lists, target);
    }
    StarOpensAll(base, lists, target);
    DenialReopens(base, lists, target);
  }

  /**
    An axis is the stated union of its baseline and its scopes exactly when no
    scope says "*" on a denial it does not fully re-open by name.
  */
  lemma StatedUnionExactly(base: Axis, lists: seq<seq<string>>)
    requires Fresh(base)
    ensures (forall target :: Permits(ReopenedAll(base, lists), target) <==> StatedUnion(base, lists, target))
            <==> StarHarmless(base, lists)
  {
    if StarHarmless(base, lists) {
      forall target ensures Permits(ReopenedAll(base, lists), target) <==> StatedUnion(base, lists, target) {
        HarmlessIsUnion(base, lists, target);
      }
    } else {
      var target := HarmfulStar(base, lists);
    }
  }

  // ----- the union law of a whole ceiling -----

  datatype AxisName = OnRead | OnCreate | OnUpdate | OnDelete | OnWorlds | OnPermissions

  function AxisIn(c: CompiledCeiling, n: AxisName): Axis {
    match n
    case OnRead => c.read
    case OnCreate => c.create
    case OnUpdate => c.update
    case OnDelete => c.delete
    case OnWorlds => c.worlds
    case OnPermissions => c.permissions
  }

  function SpecIn(r: Restriction, n: AxisName): AxisSpec {
    match n
    case OnRead => r.read
    case OnCreate => r.create
    case OnUpdate => r.update
    case OnDelete => r.delete
    case OnWorlds => r.worlds
    case OnPermissions => r.permissions
  }

  function ListsFor(grants: seq<Restriction>, n: AxisName): seq<seq<string>> {
    if grants == [] then []
    else ListsFor(grants[..|grants| - 1], n) + [ListOf(SpecIn(grants[|grants| - 1], n))]
  }

  lemma {:induction false} ListsForMembers(grants: seq<Restriction>, n: AxisName, l: seq<string>)
    ensures l in ListsFor(grants, n) <==> exists g :: g in grants && l == ListOf(SpecIn(g, n))
  {
    if grants != [] {
      var last := |grants| - 1;
      ListsForMembers(grants[..last], n, l);
      assert grants == grants[..last] + [grants[last]];
      assert grants[last] in grants;
    }
  }

  lemma {:induction false} WidenedAxis(c: CompiledCeiling, grants: seq<Restriction>, n: AxisName)
    ensures AxisIn(WidenedAll(c, grants), n) == ReopenedAll(AxisIn(c, n), ListsFor(grants, n))
    ensures var w := WidenedAll(c, grants);
            w.active == c.active && w.name == c.name && w.defaultWorld == c.defaultWorld
            && w.restriction == c.restriction
  {
    if grants != [] {
      var last := |grants| - 1;
      WidenedAxis(c, grants[..last], n);
      var lists := ListsFor(grants[..last], n);
      assert (lists + [ListOf(SpecIn(grants[last], n))])[..|lists|] == lists;
    }
  }

  /** The token carries a scope, up to padding, that names this grant. */
  ghost predicate Holds(p: Policy, scopes: seq<string>, key: string) {
    key in p.scopeGrants && exists s :: s in scopes && TrimSpace(s) == key
  }

  lemma {:induction false} MatchedMembers(p: Policy, scopes: seq<string>, g: Restriction)
    ensures g in Matched(p, scopes) <==> exists k :: Holds(p, scopes, k) && p.scopeGrants[k] == g
  {
    if scopes != [] {
      var last := |scopes| - 1;
      var key := TrimSpace(scopes[last]);
      MatchedMembers(p, scopes[..last], g);
      assert scopes == scopes[..last] + [scopes[last]];
      assert key in p.scopeGrants ==> Holds(p, scopes, key);
      forall k | Holds(p, scopes[..last], k) ensures Holds(p, scopes, k) {
        var s :| s in scopes[..last] && TrimSpace(s) == k;
        assert s in scopes;
      }
      forall k | Holds(p, scopes, k) && k != key ensures Holds(p, scopes[..last], k) {
        var s :| s in scopes && TrimSpace(s) == k;
        assert s in scopes[..last];
      }
    }
  }

  /** What baseline ∪ scopes should permit on one axis. */
  ghost predicate LawPermits(
    p: Policy, baseline: string, scopes: seq<string>, n: AxisName, target: string)
    requires baseline in p.baselines
  {
    var base := Compile(SpecIn(p.baselines[baseline].restriction, n));
    || Permits(base, target)
    || exists k :: Holds(p, scopes, k) && ScopeNames(base, ListOf(SpecIn(p.scopeGrants[k], n)), target)
  }

  /** Every axis of the compiled ceiling permits exactly baseline ∪ scopes. */
  lemma CeilingIsUnion(p: Policy, baseline: string, scopes: seq<string>, n: AxisName, target: string)
    requires baseline in p.baselines
    ensures Permits(AxisIn(CeilingOf(p, Some(baseline), scopes), n), target)
            <==> LawPermits(p, baseline, scopes, n, target)
  {
    var base := Compile(SpecIn(p.baselines[baseline].restriction, n));
    var grants := Matched(p, scopes);
    WidenedAxis(FromBaseline(p, baseline), grants, n);
    var lists := ListsFor(grants, n);
    UnionLaw(base, lists, target);
    if SomeScopeNames(base, lists, target) {
      var l :| l in lists && ScopeNames(base, l, target);
      ListsForMembers(grants, n, l);
      var g :| g in grants && l == ListOf(SpecIn(g, n));
      MatchedMembers(p, scopes, g);
    }
    forall k | Holds(p, scopes, k) && ScopeNames(base, ListOf(SpecIn(p.scopeGrants[k], n)), target)
      ensures SomeScopeNames(base, lists, target)
    {
      MatchedMembers(p, scopes, p.scopeGrants[k]);
      ListsForMembers(grants, n, ListOf(SpecIn(p.scopeGrants[k], n)));
    }
  }

  /** The lists that the scopes a token holds give one axis. */
  ghost predicate ScopeList(p: Policy, scopes: seq<string>, n: AxisName, l: seq<string>) {
    exists k :: Holds(p, scopes, k) && l == ListOf(SpecIn(p.scopeGrants[k], n))
  }

  lemma ScopeLists(p: Policy, scopes: seq<string>, n: AxisName, l: seq<string>)
    ensures l in ListsFor(Matched(p, scopes), n) <==> ScopeList(p, scopes, n, l)
  {
    ListsForMembers(Matched(p, scopes), n, l);
    if l in ListsFor(Matched(p, scopes), n) {
      var g :| g in Matched(p, scopes) && l == ListOf(SpecIn(g, n));
      MatchedMembers(p, scopes, g);
    }
    forall k | Holds(p, scopes, k) && l == ListOf(SpecIn(p.scopeGrants[k], n))
      ensures l in ListsFor(Matched(p, scopes), n)
    {
      MatchedMembers(p, scopes, p.scopeGrants[k]);
    }
  }

  /** What the design promises of one axis of a ceiling. */
  ghost predicate DesignPermits(p: Policy, baseline: string, scopes: seq<string>, n: AxisName, target: string)
    requires baseline in p.baselines
  {
    || Permits(Compile(SpecIn(p.baselines[baseline].restriction, n)), target)
    || exists l :: ScopeList(p, scopes, n, l) && NamesType(l, target)
  }

  /** Where that promise is kept: see StarHarmless. */
  ghost predicate DesignKept(p: Policy, baseline: string, scopes: seq<string>, n: AxisName)
    requires baseline in p.baselines
  {
    var spec := SpecIn(p.baselines[baseline].restriction, n);
    || spec.allow.Some?
    || spec.deny == []
    || !(exists l :: ScopeList(p, scopes, n, l) && "*" in l)
    || ("*" !in spec.deny
        && forall d :: d in spec.deny ==> exists l :: ScopeList(p, scopes, n, l) && d in l)
  }

  /** A compiled axis is the stated union exactly under that condition. */
  lemma CeilingIsStatedUnionExactly(p: Policy, baseline: string, scopes: seq<string>, n: AxisName)
    requires baseline in p.baselines
    ensures (forall target :: Permits(AxisIn(CeilingOf(p, Some(baseline), scopes), n), target)
                              <==> DesignPermits(p, baseline, scopes, n, target))
            <==> DesignKept(p, baseline, scopes, n)
  {
    var base := Compile(SpecIn(p.baselines[baseline].restriction, n));
    var lists := ListsFor(Matched(p, scopes), n);
    WidenedAxis(FromBaseline(p, baseline), Matched(p, scopes), n);
    forall l ensures l in lists <==> ScopeList(p, scopes, n, l) {
      ScopeLists(p, scopes, n, l);
    }
    StatedUnionExactly(base, lists);
    DesignKeptIsHarmless(p, baseline, scopes, n, base, lists);
    forall target ensures StatedUnion(base, lists, target) <==> DesignPermits(p, baseline, scopes, n, target) {
    }
  }

  lemma DesignKeptIsHarmless(
    p: Policy, baseline: string, scopes: seq<string>, n: AxisName, base: Axis, lists: seq<seq<string>>)
    requires baseline in p.baselines && base == Compile(SpecIn(p.baselines[baseline].restriction, n))
    requires forall l :: l in lists <==> ScopeList(p, scopes, n, l)
    ensures DesignKept(p, baseline, scopes, n) <==> StarHarmless(base, lists)
  {
    forall name ensures SomeHolds(lists, name) <==> exists l :: ScopeList(p, scopes, n, l) && name in l {
    }
  }

  /** The verdict depends on which scopes a token holds, not on order or repeats. */
  lemma ScopeOrderIrrelevant(
    p: Policy, baseline: string, a: seq<string>, b: seq<string>, n: AxisName, target: string)
    requires baseline in p.baselines
    requires forall k :: Holds(p, a, k) <==> Holds(p, b, k)
    ensures Permits(AxisIn(CeilingOf(p, Some(baseline), a), n), target)
            <==> Permits(AxisIn(CeilingOf(p, Some(baseline), b), n), target)
  {
    CeilingIsUnion(p, baseline, a, n, target);
    CeilingIsUnion(p, baseline, b, n, target);
  }

  /** A scope added to a token never closes anything, on any axis. */
  lemma MoreScopesMoreAccess(
    p: Policy, baseline: string, fewer: seq<string>, more: seq<string>, n: AxisName, target: string)
    requires baseline in p.baselines
    requires forall k :: Holds(p, fewer, k) ==> Holds(p, more, k)
    requires Permits(AxisIn(CeilingOf(p, Some(baseline), fewer), n), target)
    ensures Permits(AxisIn(CeilingOf(p, Some(baseline), more), n), target)
  {
    CeilingIsUnion(p, baseline, fewer, n, target);
    CeilingIsUnion(p, baseline, more, n, target);
  }

  // ----- user_grants ∩ ceiling, one role list at a time -----

  /**
    What a compiled verb axis of a validated policy satisfies: its lists name
    types only, and carve-outs on a closed allowlist are on that list too.
  */
  predicate Sound(v: Axis) { (v.allow.Some? ==> FaceFree(v.allow.value)) && ExceptsListed(v) }

  /** Nothing is carved out of a closed allowlist that is not on it. */
  predicate ExceptsListed(v: Axis) {
    v.allow.Some? ==> forall e :: e in v.except ==> e in v.allow.value
  }

  /** Every axis of every compiled ceiling has that, permissions included. */
  lemma CompiledExceptsListed(p: Policy, baseline: string, scopes: seq<string>, n: AxisName)
    requires baseline in p.baselines
    ensures ExceptsListed(AxisIn(CeilingOf(p, Some(baseline), scopes), n))
  {
    var base := Compile(SpecIn(p.baselines[baseline].restriction, n));
    WidenedAxis(FromBaseline(p, baseline), Matched(p, scopes), n);
    var lists := ListsFor(Matched(p, scopes), n);
    var v := ReopenedAll(base, lists);
    if v.allow.Some? {
      forall e | e in v.except ensures e in v.allow.value {
        ReopenedShape(base, lists, e);
      }
    }
  }

  /** Clamping a create, update or delete list is exact where the ceiling permits. */
  lemma ExactOnFace(list: seq<string>, v: Axis, target: string, face: Face)
    requires Sound(v) && Permits(v, target)
    ensures ListCovers(FilteredTypes(list, v), target, face) <==> ListCovers(list, target, face)
  {
    FilteredMembers(list, v);
    var out := FilteredTypes(list, v);
    if ListCovers(list, target, face) {
      var e :| e in list && EntryCovers(e, target, face);
      ParsedType(e);
      CoverKept(list, v, target, face, e);
    }
    if ListCovers(out, target, face) {
      var e :| e in out && EntryCovers(e, target, face);
      ParsedType(e);
      if e !in list {
        assert EntryCovers("*", target, face);
      }
    }
  }

  lemma CoverKept(list: seq<string>, v: Axis, target: string, face: Face, e: string)
    requires Sound(v) && Permits(v, target) && e in list && EntryCovers(e, target, face)
    ensures ListCovers(FilteredTypes(list, v), target, face)
  {
    FilteredMembers(list, v);
    ParsedType(e);
    var out := FilteredTypes(list, v);
    if e in out {
    } else {
      assert e == "*" && Collapses(list, v);
      var named := if "*" in v.allow.value then "*" else target;
      assert named in out;
      ParsedType(named);
      assert EntryCovers(named, target, face);
    }
  }

  /** The same for the type-only rename list, and for one pass over convert. */
  lemma ExactOnType(list: seq<string>, v: Axis, target: string)
    requires Sound(v) && Permits(v, target) && FaceFree(list)
    ensures NamesType(FilteredTypes(list, v), target) <==> NamesType(list, target)
    ensures FaceFree(FilteredTypes(list, v))
  {
    FilteredMembers(list, v);
  }

  /** Convert is filtered twice, by update and by delete, and stays exact. */
  lemma ExactOnConvert(list: seq<string>, update: Axis, delete: Axis, target: string)
    requires Sound(update) && Sound(delete) && FaceFree(list)
    requires Permits(update, target) && Permits(delete, target)
    ensures NamesType(FilteredTypes(FilteredTypes(list, update), delete), target)
            <==> NamesType(list, target)
  {
    ExactOnType(list, update, target);
    ExactOnType(FilteredTypes(list, update), delete, target);
  }

  /** Clamping alone is not exact: a "*" survives a denial of one type. */
  lemma ClampAloneIsInexact()
    ensures var v := Axis(None, ["person"], []);
            Sound(v) && !Permits(v, "person") && ListCovers(FilteredTypes(["*"], v), "person", IMPLICIT)
  {
    var v := Axis(None, ["person"], []);
    FilteredMembers(["*"], v);
    assert "*" in ["*"];
    assert "*" in FilteredTypes(["*"], v);
    assert "person" in ["person"];
  }

  /** On reads the clamp is exact for the same reason, face by face. */
  lemma ExactOnRead(list: seq<string>, v: Axis, target: string, face: Face)
    requires Sound(v) && Permits(v, target) && LoadableType(target)
    ensures GrantsReadFace(FilteredTypes(list, v), target, face) <==> GrantsReadFace(list, target, face)
  {
    FilteredMembers(list, v);
    var out := FilteredTypes(list, v);
    if GrantsReadFace(list, target, face) {
      var e :| e in list && ReadEntryCovers(e, target, face);
      ParsedType(e);
      if e !in out {
        assert e == "*" && Collapses(list, v);
        var named := if "*" in v.allow.value then "*" else target;
        assert named in out && ReadEntryCovers(named, target, face);
      }
    }
    if GrantsReadFace(out, target, face) {
      var e :| e in out && ReadEntryCovers(e, target, face);
      if e !in list {
        assert ReadEntryCovers("*", target, face);
      }
    }
  }

  /** So a whole role reads a face under a ceiling iff the ceiling permits the type and the role does. */
  lemma RoleReadExact(c: CompiledCeiling, role: RoleDef, target: string, face: Face)
    requires (c.active ==> Sound(c.read)) && LoadableType(target)
    ensures PermitsRead(c, target) && GrantsReadFace(Clamp(c, role).read, target, face)
            <==> PermitsRead(c, target) && GrantsReadFace(role.read, target, face)
  {
    if c.active && PermitsRead(c, target) {
      ExactOnRead(role.read, c.read, target, face);
    }
  }

  // ----- permissions and worlds -----

  /**
    A role's `permissions: ["*"]` grants no named permission
    (internal/acl/policy.go:97-98), yet filterPermissions replaces it by the
    ceiling's allowlist. This is the swap that makes a ceiling grant.
  */
  predicate SwapsWildcard(names: seq<string>, v: Axis) { v.allow.Some? && "*" in names }

  predicate SwapAddsNothing(names: seq<string>, v: Axis) {
    SwapsWildcard(names, v) ==> forall e :: e in v.allow.value ==> e == CONFIG_EDIT || e in names
  }

  predicate SwapDropsNothing(names: seq<string>, v: Axis) {
    SwapsWildcard(names, v) && "*" in v.allow.value ==>
      forall e :: e in names ==> e == CONFIG_EDIT || e in v.allow.value
  }

  lemma FilteredPermission(names: seq<string>, v: Axis, perm: string)
    requires PermitsName(v, perm)
    ensures perm in FilteredPermissions(names, v)
            <==> if SwapsWildcard(names, v) then perm in v.allow.value else perm in names
  {
    KeptNamesMembers(names, v, perm);
  }

  /** A ceiling adds no permission to a role exactly when the swap adds nothing. */
  lemma PermissionNeverAddedExactly(names: seq<string>, v: Axis)
    ensures (forall perm ::
              PermitsName(v, perm) && perm in FilteredPermissions(names, v) ==> perm in names)
            <==> SwapAddsNothing(names, v)
  {
    if SwapAddsNothing(names, v) {
      forall perm | PermitsName(v, perm) && perm in FilteredPermissions(names, v)
        ensures perm in names
      {
        FilteredPermission(names, v, perm);
      }
    } else {
      var e :| e in v.allow.value && e != CONFIG_EDIT && e !in names;
      assert PermitsName(v, e);
      FilteredPermission(names, v, e);
    }
  }

  /** And it is the exact intersection when the swap also drops nothing. */
  lemma PermissionExactly(names: seq<string>, v: Axis)
    requires ExceptsListed(v)
    ensures (forall perm :: PermitsName(v, perm) ==>
              (perm in FilteredPermissions(names, v) <==> perm in names))
            <==> SwapAddsNothing(names, v) && SwapDropsNothing(names, v)
  {
    PermissionNeverAddedExactly(names, v);
    if SwapAddsNothing(names, v) {
      if SwapDropsNothing(names, v) {
        forall perm | PermitsName(v, perm)
          ensures perm in FilteredPermissions(names, v) <==> perm in names
        {
          FilteredPermission(names, v, perm);
        }
      } else {
        var e :| e in names && e != CONFIG_EDIT && e !in v.allow.value;
        assert PermitsName(v, e);
        FilteredPermission(names, v, e);
      }
    }
  }

  /** config:edit passes no ceiling, whatever the baseline and scopes say. */
  lemma ConfigEditNeverPasses(p: Policy, baseline: string, scopes: seq<string>)
    requires baseline in p.baselines
    ensures !PermitsPermission(CeilingOf(p, Some(baseline), scopes), CONFIG_EDIT)
  {
    WidenedAxis(FromBaseline(p, baseline), Matched(p, scopes), OnPermissions);
  }

  /** roleGrantsWorldRead */
  predicate GrantsWorld(role: RoleDef, world: string, defaultWorld: string) {
    if world == "" || world == defaultWorld then |role.read| > 0 else world in role.worlds
  }

  /** A named world is intersected exactly; the default world always passes. */
  lemma WorldExact(c: CompiledCeiling, role: RoleDef, world: string)
    ensures world == "" || world == c.defaultWorld ==> PermitsWorld(c, world)
    ensures world != "" && world != c.defaultWorld && PermitsWorld(c, world) ==>
              (GrantsWorld(Clamp(c, role), world, c.defaultWorld)
               <==> GrantsWorld(role, world, c.defaultWorld))
  {
  }
}
