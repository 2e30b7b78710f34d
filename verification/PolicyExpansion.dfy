/**
  Expansion of a whole policy, in place (expandAbstractTypes and
  namesAbstractType in internal/acl/abstracttypes.go).
*/
module PolicyExpansion {

  import opened Wrappers
  import opened Text
  import opened Grants
  import opened Ceiling
  import opened AbstractTypes
  import opened FieldExpansion

  datatype FieldGrant = FieldGrant(field: string, condition: string)

  datatype OptionGrant = OptionGrant(field: string, option: string, condition: string)

  datatype LinkGrant = LinkGrant(
    relation: string, create: Option<bool>, remove: Option<bool>,
    fields: seq<FieldGrant>, visible: seq<FieldGrant>, condition: string)

  /** A role with its type-keyed maps. */
  datatype Role = Role(
    grants: RoleDef,
    fields: map<string, seq<FieldGrant>>, visible: map<string, seq<FieldGrant>>,
    options: map<string, seq<OptionGrant>>, relations: map<string, seq<LinkGrant>>)

  datatype PolicyView = PolicyView(
    roles: map<string, Role>, baselines: map<string, Baseline>, scopeGrants: map<string, Restriction>)

  // ----- naming an abstract type -----

  predicate RoleIsConcrete(m: Schema, r: Role) {
    && Concrete(m, r.grants.create) && Concrete(m, r.grants.update) && Concrete(m, r.grants.delete)
    && Concrete(m, r.grants.convert) && Concrete(m, r.grants.rename) && Concrete(m, r.grants.read)
    && !HasAbstractKey(m, r.fields) && !HasAbstractKey(m, r.visible)
    && !HasAbstractKey(m, r.options) && !HasAbstractKey(m, r.relations)
  }

  predicate SpecIsConcrete(m: Schema, s: AxisSpec) {
    (s.allow.Some? ==> Concrete(m, s.allow.value)) && Concrete(m, s.deny)
  }

  predicate BlockIsConcrete(m: Schema, r: Restriction) {
    && SpecIsConcrete(m, r.read) && SpecIsConcrete(m, r.create)
    && SpecIsConcrete(m, r.update) && SpecIsConcrete(m, r.delete) && Concrete(m, r.denyWrite)
    && !HasAbstractKey(m, r.visible) && !HasAbstractKey(m, r.redact)
  }

  /** namesAbstractType, negated. */
  ghost predicate IsConcrete(m: Schema, p: PolicyView) {
    && (forall n :: n in p.roles ==> RoleIsConcrete(m, p.roles[n]))
    && (forall n :: n in p.baselines ==> BlockIsConcrete(m, p.baselines[n].restriction))
    && (forall n :: n in p.scopeGrants ==> BlockIsConcrete(m, p.scopeGrants[n]))
  }

  // ----- expanding -----

  function ExpandedGrants(m: Schema, g: RoleDef): RoleDef {
    g.(create := ExpandedList(m, g.create), update := ExpandedList(m, g.update),
       delete := ExpandedList(m, g.delete), convert := ExpandedList(m, g.convert),
       rename := ExpandedList(m, g.rename), read := ExpandedList(m, g.read))
  }

  ghost predicate IsRoleExpanded(m: Schema, r: Role, out: Role) {
    && out.grants == ExpandedGrants(m, r.grants)
    && IsOverridden(m, r.fields, out.fields) && IsOverridden(m, r.visible, out.visible)
    && IsOverridden(m, r.options, out.options) && IsOverridden(m, r.relations, out.relations)
  }

  ghost predicate IsPolicyExpanded(m: Schema, p: PolicyView, out: PolicyView) {
    if IsConcrete(m, p) then out == p else AllRewritten(m, p, out)
  }

  ghost predicate AllRewritten(m: Schema, p: PolicyView, out: PolicyView) {
    && Rewritten(p.roles, out.roles, {}, RoleRule(m))
    && Rewritten(p.baselines, out.baselines, {}, BaselineRule(m))
    && Rewritten(p.scopeGrants, out.scopeGrants, {}, ScopeRule(m))
  }

  ghost predicate IsBaselineExpanded(m: Schema, b: Baseline, out: Baseline) {
    out.appliesTo == b.appliesTo && IsExpanded(m, b.restriction, out.restriction)
  }

  /** Each entry not pending is related to the one it replaced. */
  ghost predicate Rewritten<T>(
    before: map<string, T>, after: map<string, T>, pending: set<string>, ok: (T, T) -> bool) {
    && after.Keys == before.Keys
    && forall n :: n in before ==>
         if n in pending then after[n] == before[n] else ok(before[n], after[n])
  }

  lemma RewriteOne<T>(
    before: map<string, T>, after: map<string, T>, pending: set<string>, ok: (T, T) -> bool, n: string, v: T)
    requires Rewritten(before, after, pending, ok) && n in pending && n in before && ok(before[n], v)
    ensures Rewritten(before, after[n := v], pending - {n}, ok)
  {
  }

  ghost function RoleRule(m: Schema): (Role, Role) -> bool { (r, out) => IsRoleExpanded(m, r, out) }

  ghost function BaselineRule(m: Schema): (Baseline, Baseline) -> bool {
    (b, out) => IsBaselineExpanded(m, b, out)
  }

  ghost function ScopeRule(m: Schema): (Restriction, Restriction) -> bool { (r, out) => IsExpanded(m, r, out) }

  // ----- no abstract name is left, so expanding again writes nothing -----

  lemma OverriddenKeys<T>(m: Schema, in': map<string, T>, out: map<string, T>)
    requires WellFormed(m) && IsOverridden(m, in', out)
    ensures !HasAbstractKey(m, out)
  {
    forall t | t in out ensures t !in m {
      assert ReachedKey(m, in', t);
      if t !in in' {
        var a :| Inherits(m, in', a, t);
      }
    }
  }

  lemma UnionedKeys(m: Schema, in': FieldLists, out: FieldLists)
    requires WellFormed(m) && IsUnioned(m, in', out)
    ensures !HasAbstractKey(m, out)
  {
    forall t | t in out ensures t !in m {
      assert ReachedKey(m, in', t);
      if t !in in' {
        var a :| Inherits(m, in', a, t);
      }
    }
  }

  lemma RoleExpandsToConcrete(m: Schema, r: Role, out: Role)
    requires WellFormed(m) && IsRoleExpanded(m, r, out)
    ensures RoleIsConcrete(m, out)
  {
    var g := r.grants;
    ExpandedConcrete(m, g.create);
    ExpandedConcrete(m, g.update);
    ExpandedConcrete(m, g.delete);
    ExpandedConcrete(m, g.convert);
    ExpandedConcrete(m, g.rename);
    ExpandedConcrete(m, g.read);
    OverriddenKeys(m, r.fields, out.fields);
    OverriddenKeys(m, r.visible, out.visible);
    OverriddenKeys(m, r.options, out.options);
    OverriddenKeys(m, r.relations, out.relations);
  }

  lemma SpecExpandsToConcrete(m: Schema, s: AxisSpec)
    requires WellFormed(m)
    ensures SpecIsConcrete(m, ExpandedSpec(m, s))
  {
    if s.allow.Some? {
      ExpandedConcrete(m, s.allow.value);
    }
    ExpandedConcrete(m, s.deny);
  }

  lemma BlockExpandsToConcrete(m: Schema, r: Restriction, out: Restriction)
    requires WellFormed(m) && IsExpanded(m, r, out)
    ensures BlockIsConcrete(m, out)
  {
    SpecExpandsToConcrete(m, r.read);
    SpecExpandsToConcrete(m, r.create);
    SpecExpandsToConcrete(m, r.update);
    SpecExpandsToConcrete(m, r.delete);
    ExpandedConcrete(m, r.denyWrite);
    var v, x :| IsOverridden(m, r.visible, v) && IsUnioned(m, r.redact, x)
                && out.visible == FoldedVisible(v, x) && out.redact == FoldedRedact(v, x);
    OverriddenKeys(m, r.visible, v);
    UnionedKeys(m, r.redact, x);
  }

  /** Expansion is idempotent on the whole policy: the second run writes nothing. */
  lemma PolicyExpandsOnce(m: Schema, p: PolicyView, once: PolicyView, twice: PolicyView)
    requires WellFormed(m) && IsPolicyExpanded(m, p, once) && IsPolicyExpanded(m, once, twice)
    ensures IsConcrete(m, once) && twice == once
  {
    if !IsConcrete(m, p) {
      RolesConcrete(m, p.roles, once.roles);
      BaselinesConcrete(m, p.baselines, once.baselines);
      ScopesConcrete(m, p.scopeGrants, once.scopeGrants);
    }
  }

  lemma RolesConcrete(m: Schema, before: map<string, Role>, after: map<string, Role>)
    requires WellFormed(m) && Rewritten(before, after, {}, RoleRule(m))
    ensures forall n :: n in after ==> RoleIsConcrete(m, after[n])
  {
    forall n | n in after ensures RoleIsConcrete(m, after[n]) {
      assert RoleRule(m)(before[n], after[n]);
      RoleExpandsToConcrete(m, before[n], after[n]);
    }
  }

  lemma BaselinesConcrete(m: Schema, before: map<string, Baseline>, after: map<string, Baseline>)
    requires WellFormed(m) && Rewritten(before, after, {}, BaselineRule(m))
    ensures forall n :: n in after ==> BlockIsConcrete(m, after[n].restriction)
  {
    forall n | n in after ensures BlockIsConcrete(m, after[n].restriction) {
      assert BaselineRule(m)(before[n], after[n]);
      BlockExpandsToConcrete(m, before[n].restriction, after[n].restriction);
    }
  }

  lemma ScopesConcrete(m: Schema, before: map<string, Restriction>, after: map<string, Restriction>)
    requires WellFormed(m) && Rewritten(before, after, {}, ScopeRule(m))
    ensures forall n :: n in after ==> BlockIsConcrete(m, after[n])
  {
    forall n | n in after ensures BlockIsConcrete(m, after[n]) {
      assert ScopeRule(m)(before[n], after[n]);
      BlockExpandsToConcrete(m, before[n], after[n]);
    }
  }

  // ----- meaning -----

  /** A role grants a verb on a concrete type iff it did on the type or its abstract parent. */
  lemma RoleMeaning(m: Schema, g: RoleDef, op: Op, t: string, face: Face)
    requires WellFormed(m) && PlainName(t) && t !in m
    ensures GrantsVerbOnState(ExpandedGrants(m, g), op, t, face)
            <==> GrantsVerbOnState(g, op, t, face)
                 || exists a :: IsVariant(m, a, t) && GrantsVerbOnState(g, op, a, face)
  {
    match op {
      case Create => WriteMeaning(m, g.create, t, face);
      case Update => WriteMeaning(m, g.update, t, face);
      case Delete => WriteMeaning(m, g.delete, t, face);
      case Convert => TypeListMeaning(m, g.convert, t);
      case Rename =>
        WriteMeaning(m, g.update, t, face);
        TypeListMeaning(m, g.rename, t);
    }
  }

  /** A baseline's axis clamps a variant as it clamped the type or its abstract parent. */
  lemma AxisMeaning(m: Schema, s: AxisSpec, t: string)
    requires WellFormed(m) && PlainName(t) && t !in m
    ensures Permits(Compile(ExpandedSpec(m, s)), t)
            <==> if s.allow.Some? then
                   NamesType(s.allow.value, t)
                   || exists a :: IsVariant(m, a, t) && NamesType(s.allow.value, a)
                 else
                   !NamesType(s.deny, t)
                   && forall a :: IsVariant(m, a, t) ==> !NamesType(s.deny, a)
  {
    match s.allow {
      case Some(l) => TypeListMeaning(m, l, t);
      case None => TypeListMeaning(m, s.deny, t);
    }
  }

  // ----- the policy, rewritten in place -----

  method ExpandRole(m: Schema, r: Role) returns (out: Role)
    requires WellFormed(m)
    ensures IsRoleExpanded(m, r, out)
  {
    var g := r.grants;
    var create := ExpandList(m, Some(g.create));
    var update := ExpandList(m, Some(g.update));
    var delete := ExpandList(m, Some(g.delete));
    var convert := ExpandList(m, Some(g.convert));
    var rename := ExpandList(m, Some(g.rename));
    var read := ExpandList(m, Some(g.read));
    var fields := ExpandOverride(m, r.fields);
    var visible := ExpandOverride(m, r.visible);
    var options := ExpandOverride(m, r.options);
    var relations := ExpandOverride(m, r.relations);
    return Role(
      g.(create := create.value, update := update.value, delete := delete.value,
         convert := convert.value, rename := rename.value, read := read.value),
      fields, visible, options, relations);
  }

  class LoadedPolicy {
    const userEntityType: string
    var roles: map<string, Role>
    var baselines: map<string, Baseline>
    var scopeGrants: map<string, Restriction>

    function View(): PolicyView
      reads this
    {
      PolicyView(roles, baselines, scopeGrants)
    }

    constructor (userEntityType: string, p: PolicyView)
      ensures View() == p && this.userEntityType == userEntityType
    {
      this.userEntityType := userEntityType;
      roles, baselines, scopeGrants := p.roles, p.baselines, p.scopeGrants;
    }

    /** expandAbstractTypes: an abstract user type is reported, and the rest still expanded. */
    method ExpandAbstractTypes(m: Schema) returns (failed: bool)
      requires WellFormed(m)
      modifies this
      ensures failed <==> TrimSpace(userEntityType) in m
      ensures IsPolicyExpanded(m, old(View()), View())
    {
      failed := TrimSpace(userEntityType) in m;
      var named := NamesAbstractType(m);
      if named {
        ExpandAll(m);
      }
    }

    method ExpandAll(m: Schema)
      requires WellFormed(m)
      modifies this
      ensures AllRewritten(m, old(View()), View())
    {
      ghost var before := View();
      ExpandRoles(m);
      ghost var newRoles := roles;
      ExpandBaselines(m);
      assert Rewritten(before.roles, newRoles, {}, RoleRule(m));
      ghost var newBaselines := baselines;
      ExpandScopeGrants(m);
      assert Rewritten(before.roles, newRoles, {}, RoleRule(m));
      assert Rewritten(before.baselines, newBaselines, {}, BaselineRule(m));
      assert View() == PolicyView(newRoles, newBaselines, scopeGrants);
    }

    method ExpandRoles(m: Schema)
      requires WellFormed(m)
      modifies this`roles
      ensures Rewritten(old(roles), roles, {}, RoleRule(m))
    {
      var rest := roles.Keys;
      while rest != {}
        invariant Rewritten(old(roles), roles, rest, RoleRule(m)) && rest <= roles.Keys
        decreases |rest|
      {
        var n :| n in rest;
        var role := ExpandRole(m, roles[n]);
        RewriteOne(old(roles), roles, rest, RoleRule(m), n, role);
        roles := roles[n := role];
        rest := rest - {n};
      }
    }

    method ExpandBaselines(m: Schema)
      requires WellFormed(m)
      modifies this`baselines
      ensures Rewritten(old(baselines), baselines, {}, BaselineRule(m))
    {
      var rest := baselines.Keys;
      while rest != {}
        invariant Rewritten(old(baselines), baselines, rest, BaselineRule(m)) && rest <= baselines.Keys
        decreases |rest|
      {
        var n :| n in rest;
        var block := ExpandRestriction(m, baselines[n].restriction);
        var baseline := baselines[n].(restriction := block);
        RewriteOne(old(baselines), baselines, rest, BaselineRule(m), n, baseline);
        baselines := baselines[n := baseline];
        rest := rest - {n};
      }
    }

    method ExpandScopeGrants(m: Schema)
      requires WellFormed(m)
      modifies this`scopeGrants
      ensures Rewritten(old(scopeGrants), scopeGrants, {}, ScopeRule(m))
    {
      var rest := scopeGrants.Keys;
      while rest != {}
        invariant Rewritten(old(scopeGrants), scopeGrants, rest, ScopeRule(m)) && rest <= scopeGrants.Keys
        decreases |rest|
      {
        var n :| n in rest;
        var block := ExpandRestriction(m, scopeGrants[n]);
        RewriteOne(old(scopeGrants), scopeGrants, rest, ScopeRule(m), n, block);
        scopeGrants := scopeGrants[n := block];
        rest := rest - {n};
      }
    }

    /** namesAbstractType */
    method NamesAbstractType(m: Schema) returns (named: bool)
      ensures named <==> !IsConcrete(m, View())
    {
      named := !(forall n | n in roles :: RoleIsConcrete(m, roles[n]));
      if named {
        return;
      }
      named := !(forall n | n in baselines :: BlockIsConcrete(m, baselines[n].restriction));
      if named {
        return;
      }
      named := !(forall n | n in scopeGrants :: BlockIsConcrete(m, scopeGrants[n]));
    }
  }
}
