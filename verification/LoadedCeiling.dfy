/**
  A client block from the policy file to the ceiling of a request: validated and
  deny_write expanded, abstract types expanded, compiled, and widened by scopes.
*/
module LoadedCeiling {

  import opened Wrappers
  import opened Text
  import opened Grants
  import opened Ceiling
  import opened CeilingLaws
  import opened CeilingValidation
  import opened Authorize
  import opened AuthorizeLaws
  import opened AbstractTypes
  import opened FieldExpansion
  import opened PolicyExpansion

  // ----- loading -----

  function GrantsOf(roles: map<string, Role>): map<string, RoleDef> { map n | n in roles :: roles[n].grants }

  function ViewOf(p: Policy, roles: map<string, Role>): PolicyView { PolicyView(roles, p.baselines, p.scopeGrants) }

  function Viewed(p: Policy, view: PolicyView): Policy {
    p.(roles := GrantsOf(view.roles), baselines := view.baselines, scopeGrants := view.scopeGrants)
  }

  /**
    What loading makes of an accepted policy: deny_write expanded, and then every
    abstract name rewritten if there is one at all.
  */
  ghost predicate IsLoaded(m: Schema, p: Policy, q: Policy) {
    exists roles, view :: IsLoadedWith(m, p, q, roles, view)
  }

  /** `roles` are the policy's roles with their field maps. */
  ghost predicate IsLoadedWith(m: Schema, p: Policy, q: Policy, roles: map<string, Role>, view: PolicyView) {
    && GrantsOf(roles) == p.roles && q == Viewed(p, view)
    && IsPolicyExpanded(m, ViewOf(ExpandedPolicy(p), roles), view)
  }

  /** Validate, and then the first step of ValidateAgainstMetamodel. */
  method LoadClients(
    m: Schema, p: Policy, roles: map<string, Role>, userEntityType: string, names: seq<string>, scopeNames: seq<string>)
    returns (ok: bool, q: Policy)
    requires WellFormed(m) && GrantsOf(roles) == p.roles
    requires forall n :: n in names <==> n in p.baselines
    requires forall i, j :: 0 <= i < j < |names| ==> names[i] != names[j]
    requires forall n :: n in scopeNames <==> n in p.scopeGrants
    ensures ok <==> ValidClients(p) && TrimSpace(userEntityType) !in m
    ensures if ValidClients(p) then IsLoaded(m, p, q) else q == p
  {
    var out := ValidateClients(p, names, scopeNames);
    if out.Refused? {
      return false, p;
    }
    var loaded := new LoadedPolicy(userEntityType, ViewOf(out.policy, roles));
    var failed := loaded.ExpandAbstractTypes(m);
    ok, q := !failed, Viewed(p, loaded.View());
    assert IsLoadedWith(m, p, q, roles, loaded.View());
  }

  // ----- block by block -----

  /** A block is rewritten, or names no abstract type and is left alone. */
  ghost predicate IsBlockLoaded(m: Schema, r: Restriction, out: Restriction) {
    IsExpanded(m, r, out) || (BlockIsConcrete(m, r) && out == r)
  }

  ghost predicate AreBlocksLoaded(m: Schema, p: Policy, q: Policy) {
    && q.baselines.Keys == p.baselines.Keys && q.scopeGrants.Keys == p.scopeGrants.Keys
    && (forall b :: b in p.baselines ==>
          IsBlockLoaded(m, Expanded(p.baselines[b].restriction), q.baselines[b].restriction))
    && (forall k :: k in p.scopeGrants ==> IsBlockLoaded(m, Expanded(p.scopeGrants[k]), q.scopeGrants[k]))
  }

  lemma BaselinesLoaded(m: Schema, before: PolicyView, after: PolicyView)
    requires IsPolicyExpanded(m, before, after)
    ensures after.baselines.Keys == before.baselines.Keys
    ensures forall b :: b in before.baselines ==>
              IsBlockLoaded(m, before.baselines[b].restriction, after.baselines[b].restriction)
  {
    forall b | !IsConcrete(m, before) && b in before.baselines
      ensures IsBlockLoaded(m, before.baselines[b].restriction, after.baselines[b].restriction)
    {
      assert BaselineRule(m)(before.baselines[b], after.baselines[b]);
    }
  }

  lemma ScopesLoaded(m: Schema, before: PolicyView, after: PolicyView)
    requires IsPolicyExpanded(m, before, after)
    ensures after.scopeGrants.Keys == before.scopeGrants.Keys
    ensures forall k :: k in before.scopeGrants ==> IsBlockLoaded(m, before.scopeGrants[k], after.scopeGrants[k])
  {
    forall k | !IsConcrete(m, before) && k in before.scopeGrants
      ensures IsBlockLoaded(m, before.scopeGrants[k], after.scopeGrants[k])
    {
      assert ScopeRule(m)(before.scopeGrants[k], after.scopeGrants[k]);
    }
  }

  lemma BlocksOfPolicies(m: Schema, p: Policy, x: Policy, q: Policy)
    requires x == ExpandedPolicy(p)
    requires q.baselines.Keys == x.baselines.Keys && q.scopeGrants.Keys == x.scopeGrants.Keys
    requires forall b :: b in x.baselines ==>
               IsBlockLoaded(m, x.baselines[b].restriction, q.baselines[b].restriction)
    requires forall k :: k in x.scopeGrants ==> IsBlockLoaded(m, x.scopeGrants[k], q.scopeGrants[k])
    ensures AreBlocksLoaded(m, p, q)
  {
  }

  lemma BlocksOfLoaded(m: Schema, p: Policy, q: Policy)
    requires IsLoaded(m, p, q)
    ensures AreBlocksLoaded(m, p, q)
  {
    var roles, view :| IsLoadedWith(m, p, q, roles, view);
    var x := ExpandedPolicy(p);
    BaselinesLoaded(m, ViewOf(x, roles), view);
    ScopesLoaded(m, ViewOf(x, roles), view);
    BlocksOfPolicies(m, p, x, q);
  }

  /** So is each axis of it. */
  ghost predicate IsSpecLoaded(m: Schema, spec: AxisSpec, out: AxisSpec) {
    out == ExpandedSpec(m, spec) || (SpecIsConcrete(m, spec) && out == spec)
  }

  lemma AxisLoaded(m: Schema, r: Restriction, out: Restriction, n: AxisName)
    requires VerbAxis(n) && IsBlockLoaded(m, r, out)
    ensures IsSpecLoaded(m, SpecIn(r, n), SpecIn(out, n))
  {
  }

  /** A list as the file means it: an abstract name stands for its variants. */
  ghost predicate Means(m: Schema, list: seq<string>, t: string) {
    NamesType(list, t) || exists a :: IsVariant(m, a, t) && NamesType(list, a)
  }

  ghost predicate MeansByName(m: Schema, list: seq<string>, t: string) {
    t in list || exists a :: IsVariant(m, a, t) && a in list
  }

  predicate IsWriteAxis(n: AxisName) { n.OnCreate? || n.OnUpdate? || n.OnDelete? }

  /** What a baseline block says of a concrete type on one axis. */
  ghost predicate BlockPermits(m: Schema, r: Restriction, n: AxisName, t: string) {
    && SpecPermits(m, SpecIn(r, n), t)
    && (IsWriteAxis(n) ==> !Means(m, r.denyWrite, t))
  }

  /** Whether the file closes the axis to a list rather than by denials. */
  predicate IsClosed(r: Restriction, n: AxisName) { SpecIn(r, n).allow.Some? }

  ghost predicate ScopeMeans(m: Schema, r: Restriction, g: Restriction, n: AxisName, t: string) {
    if IsClosed(r, n) then Means(m, ListOf(SpecIn(g, n)), t) else MeansByName(m, ListOf(SpecIn(g, n)), t)
  }

  function ByName(): (string, string) -> bool { (e, t) => e == t }

  lemma NameTypewise()
    ensures Typewise(ByName())
  {
    forall e, v | PlainName(TypeOf(e)) && PlainName(v)
      ensures ByName()(v + Suffix(e), v) <==> ByName()(e, TypeOf(e))
    {
      VariantLiteral(e, v);
    }
  }

  /** A list without abstract names means what it says. */
  lemma ConcreteMeans(m: Schema, list: seq<string>, t: string)
    requires WellFormed(m) && Concrete(m, list)
    ensures Means(m, list, t) <==> NamesType(list, t)
    ensures MeansByName(m, list, t) <==> t in list
  {
    forall a | IsVariant(m, a, t) ensures a !in list {
      assert PlainName(a) && TypeOf(a) == a;
    }
  }

  /** A list that loading rewrote, or left as it was because it names no abstract type. */
  ghost predicate IsListLoaded(m: Schema, list: seq<string>, out: seq<string>) {
    out == ExpandedList(m, list) || (Concrete(m, list) && out == list)
  }

  lemma ListMeaning(m: Schema, list: seq<string>, out: seq<string>, t: string)
    requires WellFormed(m) && PlainName(t) && t !in m && IsListLoaded(m, list, out)
    ensures NamesType(out, t) <==> Means(m, list, t)
  {
    if out == ExpandedList(m, list) {
      TypeListMeaning(m, list, t);
    } else {
      ConcreteMeans(m, list, t);
    }
  }

  lemma NameMeaning(m: Schema, list: seq<string>, out: seq<string>, t: string)
    requires WellFormed(m) && PlainName(t) && t !in m && IsListLoaded(m, list, out)
    ensures t in out <==> MeansByName(m, list, t)
  {
    if out == ExpandedList(m, list) {
      NameTypewise();
      ExpansionMeaning(m, ByName(), list, t);
      forall l: seq<string>, x ensures x in l <==> exists e :: e in l && ByName()(e, x) {
      }
    } else {
      ConcreteMeans(m, list, t);
    }
  }

  lemma BlockMeaning(m: Schema, r: Restriction, out: Restriction, n: AxisName, t: string)
    requires WellFormed(m) && PlainName(t) && t !in m && VerbAxis(n)
    requires ValidSpellings(r) && IsBlockLoaded(m, Expanded(r), out)
    ensures Permits(Compile(SpecIn(out, n)), t) <==> BlockPermits(m, r, n, t)
    ensures SpecIn(out, n).allow.Some? <==> IsClosed(r, n)
  {
    AxisLoaded(m, Expanded(r), out, n);
    SpecMeaning(m, SpecIn(Expanded(r), n), SpecIn(out, n), t);
    SpellingOfAxis(r, n);
    AxisAsWritten(m, r, SpecIn(Expanded(r), n), n, t);
  }

  /** One axis of a block that spells it by an allowlist or by denials. */
  ghost predicate SpecPermits(m: Schema, spec: AxisSpec, t: string) {
    if spec.allow.Some? then Means(m, spec.allow.value, t) else !Means(m, spec.deny, t)
  }

  lemma SpecMeaning(m: Schema, spec: AxisSpec, out: AxisSpec, t: string)
    requires WellFormed(m) && PlainName(t) && t !in m && IsSpecLoaded(m, spec, out)
    ensures Permits(Compile(out), t) <==> SpecPermits(m, spec, t)
  {
    match spec.allow {
      case Some(l) => ListMeaning(m, l, out.allow.value, t);
      case None => ListMeaning(m, spec.deny, out.deny, t);
    }
  }

  lemma AxisAsWritten(m: Schema, r: Restriction, spec: AxisSpec, n: AxisName, t: string)
    requires spec.allow == SpecIn(r, n).allow
    requires if IsWriteAxis(n) && r.denyWrite != [] then
               ListOf(SpecIn(r, n)) == SpecIn(r, n).deny == [] && spec.deny == r.denyWrite
             else spec == SpecIn(r, n)
    ensures SpecPermits(m, spec, t) <==> BlockPermits(m, r, n, t)
  {
    assert !Means(m, [], t);
  }

  /** deny_write stands in for an axis's own denial, and never beside another spelling. */
  lemma SpellingOfAxis(r: Restriction, n: AxisName)
    requires ValidSpellings(r)
    ensures SpecIn(Expanded(r), n).allow == SpecIn(r, n).allow
    ensures if IsWriteAxis(n) && r.denyWrite != [] then
              ListOf(SpecIn(r, n)) == SpecIn(r, n).deny == [] && SpecIn(Expanded(r), n).deny == r.denyWrite
            else SpecIn(Expanded(r), n) == SpecIn(r, n)
  {
  }

  lemma ScopeMeaning(m: Schema, r: Restriction, base: Axis, g: Restriction, out: Restriction, n: AxisName, t: string)
    requires WellFormed(m) && PlainName(t) && t !in m && VerbAxis(n)
    requires OnlyReopens(g) && IsBlockLoaded(m, Expanded(g), out) && (base.allow.Some? <==> IsClosed(r, n))
    ensures ScopeNames(base, ListOf(SpecIn(out, n)), t) <==> ScopeMeans(m, r, g, n, t)
  {
    AxisLoaded(m, Expanded(g), out, n);
    var list := ListOf(SpecIn(g, n));
    assert IsListLoaded(m, list, ListOf(SpecIn(out, n)));
    if IsClosed(r, n) {
      ListMeaning(m, list, ListOf(SpecIn(out, n)), t);
    } else {
      NameMeaning(m, list, ListOf(SpecIn(out, n)), t);
    }
  }

  /** What the file says of a concrete type, for a token with these scopes. */
  ghost predicate FilePermits(m: Schema, p: Policy, baseline: string, scopes: seq<string>, n: AxisName, t: string)
    requires baseline in p.baselines
  {
    var r := p.baselines[baseline].restriction;
    BlockPermits(m, r, n, t) || exists k :: Holds(p, scopes, k) && ScopeMeans(m, r, p.scopeGrants[k], n, t)
  }

  /**
    On a concrete type, the loaded ceiling permits what the file's baseline says
    of the type or its abstract parent, or what a scope of the token names so.
  */
  lemma CeilingFromFile(
    m: Schema, p: Policy, q: Policy, baseline: string, scopes: seq<string>, n: AxisName, t: string)
    requires baseline in p.baselines && PlainName(t) && VerbAxis(n)
    ensures WellFormed(m) && t !in m && ValidClients(p) && IsLoaded(m, p, q) ==>
              baseline in q.baselines
              && (Permits(AxisIn(CeilingOf(q, Some(baseline), scopes), n), t)
                  <==> FilePermits(m, p, baseline, scopes, n, t))
  {
    if WellFormed(m) && t !in m && ValidClients(p) && IsLoaded(m, p, q) {
      BlocksOfLoaded(m, p, q);
      LoadedUnion(m, p, q, baseline, scopes, n, t);
      LoadedPermits(m, p, q, baseline, scopes, n, t);
    }
  }

  lemma LoadedPermits(
    m: Schema, p: Policy, q: Policy, baseline: string, scopes: seq<string>, n: AxisName, t: string)
    requires WellFormed(m) && PlainName(t) && t !in m && VerbAxis(n)
    requires baseline in p.baselines && ValidBaselines(p) && ValidScopes(p) && AreBlocksLoaded(m, p, q)
    ensures UnionPermits(q, Compile(SpecIn(q.baselines[baseline].restriction, n)), scopes, n, t)
            <==> FilePermits(m, p, baseline, scopes, n, t)
  {
    LoadedBaseline(m, p, q, baseline, n, t);
    ScopesMean(m, p, q, p.baselines[baseline].restriction,
      Compile(SpecIn(q.baselines[baseline].restriction, n)), scopes, n, t);
  }

  ghost predicate UnionPermits(q: Policy, base: Axis, scopes: seq<string>, n: AxisName, t: string) {
    || Permits(base, t)
    || exists k :: Holds(q, scopes, k) && ScopeNames(base, ListOf(SpecIn(q.scopeGrants[k], n)), t)
  }

  lemma LoadedUnion(
    m: Schema, p: Policy, q: Policy, baseline: string, scopes: seq<string>, n: AxisName, t: string)
    requires baseline in p.baselines && AreBlocksLoaded(m, p, q)
    ensures Permits(AxisIn(CeilingOf(q, Some(baseline), scopes), n), t)
            <==> UnionPermits(q, Compile(SpecIn(q.baselines[baseline].restriction, n)), scopes, n, t)
  {
    CeilingIsUnion(q, baseline, scopes, n, t);
  }

  lemma LoadedBaseline(m: Schema, p: Policy, q: Policy, baseline: string, n: AxisName, t: string)
    requires WellFormed(m) && PlainName(t) && t !in m && VerbAxis(n)
    requires baseline in p.baselines && ValidBaselines(p) && AreBlocksLoaded(m, p, q)
    ensures var base, r := Compile(SpecIn(q.baselines[baseline].restriction, n)), p.baselines[baseline].restriction;
            (Permits(base, t) <==> BlockPermits(m, r, n, t)) && (base.allow.Some? <==> IsClosed(r, n))
  {
    assert ValidBaseline(baseline, p.baselines[baseline]);
    BlockMeaning(m, p.baselines[baseline].restriction, q.baselines[baseline].restriction, n, t);
  }

  lemma ScopesMean(
    m: Schema, p: Policy, q: Policy, r: Restriction, base: Axis, scopes: seq<string>, n: AxisName, t: string)
    requires WellFormed(m) && PlainName(t) && t !in m && VerbAxis(n)
    requires ValidScopes(p) && AreBlocksLoaded(m, p, q) && (base.allow.Some? <==> IsClosed(r, n))
    ensures (exists k :: Holds(q, scopes, k) && ScopeNames(base, ListOf(SpecIn(q.scopeGrants[k], n)), t))
            <==> exists k :: Holds(p, scopes, k) && ScopeMeans(m, r, p.scopeGrants[k], n, t)
  {
    forall k ensures Holds(q, scopes, k) <==> Holds(p, scopes, k) {
    }
    forall k | Holds(p, scopes, k)
      ensures ScopeNames(base, ListOf(SpecIn(q.scopeGrants[k], n)), t) <==> ScopeMeans(m, r, p.scopeGrants[k], n, t)
    {
      assert ValidScope(k, p.scopeGrants[k]);
      ScopeMeaning(m, r, base, p.scopeGrants[k], q.scopeGrants[k], n, t);
    }
  }

  // ----- fields -----

  /** A scope names a field of a type: in its own visible list, else its abstract parent's. */
  ghost predicate ScopeShows(m: Schema, g: Restriction, t: string, f: string) {
    exists l :: Declares(m, g, t, Some(l)) && f in l
  }

  /** The fields of a validated block are expanded even when loading left it alone. */
  lemma LoadedFields(m: Schema, r: Restriction, out: Restriction)
    requires ValidSpellings(r) && IsBlockLoaded(m, Expanded(r), out)
    ensures AreFieldsExpanded(m, Expanded(r), out)
  {
    if !IsExpanded(m, Expanded(r), out) {
      FieldsAsTheyAre(m, out);
    }
  }

  lemma ScopeFields(m: Schema, g: Restriction, out: Restriction, t: string, f: string)
    requires WellFormed(m) && t !in m && OnlyReopens(g) && AreFieldsExpanded(m, Expanded(g), out)
    ensures f in FieldsOf(out, t) <==> ScopeShows(m, g, t, f)
  {
    var v, x :| IsOverridden(m, Expanded(g).visible, v) && IsUnioned(m, Expanded(g).redact, x)
                && out.visible == FoldedVisible(v, x) && out.redact == FoldedRedact(v, x);
    OverriddenEntry(m, g, v, t);
    assert t !in x by {
      assert !ReachedKey(m, Expanded(g).redact, t);
    }
  }

  /** What FieldCeilingFor hides from a client of this baseline. */
  predicate FieldHidden(q: Policy, baseline: string, scopes: seq<string>, t: string, f: string)
    requires baseline in q.baselines
  {
    Hides(ReopenedFields(FieldCeilingOf(q.baselines[baseline].restriction, t), Matched(q, scopes), t), f)
  }

  ghost predicate FileHides(m: Schema, p: Policy, baseline: string, scopes: seq<string>, t: string, f: string)
    requires baseline in p.baselines
  {
    var r := p.baselines[baseline].restriction;
    && RuleHides(m, r, t, f) && !Declares(m, r, t, None)
    && forall k :: Holds(p, scopes, k) ==> !ScopeShows(m, p.scopeGrants[k], t, f)
  }

  /** Expanding deny_write leaves the fields alone. */
  lemma SameFields(m: Schema, r: Restriction, t: string, f: string)
    ensures RuleHides(m, Expanded(r), t, f) <==> RuleHides(m, r, t, f)
    ensures Declares(m, Expanded(r), t, None) <==> Declares(m, r, t, None)
  {
    assert Expanded(r).visible == r.visible && Expanded(r).redact == r.redact;
  }

  lemma BaselineFields(m: Schema, p: Policy, q: Policy, baseline: string, t: string, f: string)
    requires WellFormed(m) && t !in m && ValidClients(p) && AreBlocksLoaded(m, p, q) && baseline in p.baselines
    ensures var r := p.baselines[baseline].restriction;
            Hides(FieldCeilingOf(q.baselines[baseline].restriction, t), f)
            <==> RuleHides(m, r, t, f) && !Declares(m, r, t, None)
  {
    var r := p.baselines[baseline].restriction;
    assert ValidBaseline(baseline, p.baselines[baseline]);
    LoadedFields(m, r, q.baselines[baseline].restriction);
    HiddenAfterExpansion(m, Expanded(r), q.baselines[baseline].restriction, t, f);
    SameFields(m, r, t, f);
  }

  lemma ScopesShow(m: Schema, p: Policy, q: Policy, scopes: seq<string>, t: string, f: string)
    requires WellFormed(m) && ValidClients(p) && AreBlocksLoaded(m, p, q) && t !in m
    ensures (exists g :: g in Matched(q, scopes) && f in FieldsOf(g, t))
            <==> exists k :: Holds(p, scopes, k) && ScopeShows(m, p.scopeGrants[k], t, f)
  {
    forall k | Holds(p, scopes, k)
      ensures Holds(q, scopes, k) && q.scopeGrants[k] in Matched(q, scopes)
      ensures f in FieldsOf(q.scopeGrants[k], t) <==> ScopeShows(m, p.scopeGrants[k], t, f)
    {
      assert ValidScope(k, p.scopeGrants[k]);
      LoadedFields(m, p.scopeGrants[k], q.scopeGrants[k]);
      ScopeFields(m, p.scopeGrants[k], q.scopeGrants[k], t, f);
      assert Holds(q, scopes, k);
      MatchedMembers(q, scopes, q.scopeGrants[k]);
    }
    if g :| g in Matched(q, scopes) && f in FieldsOf(g, t) {
      MatchedMembers(q, scopes, g);
      var k :| Holds(q, scopes, k) && q.scopeGrants[k] == g;
      assert Holds(p, scopes, k);
    }
  }

  /**
    A field of a concrete type is hidden from a client exactly when the file's
    rule hides it, its visible entry is not nil, and no scope of the token shows it.
  */
  lemma FieldsFromFile(m: Schema, p: Policy, q: Policy, baseline: string, scopes: seq<string>, t: string, f: string)
    requires baseline in p.baselines
    ensures WellFormed(m) && t !in m && ValidClients(p) && IsLoaded(m, p, q) ==>
              baseline in q.baselines
              && (FieldHidden(q, baseline, scopes, t, f) <==> FileHides(m, p, baseline, scopes, t, f))
  {
    if WellFormed(m) && t !in m && ValidClients(p) && IsLoaded(m, p, q) {
      BlocksOfLoaded(m, p, q);
      BaselineFields(m, p, q, baseline, t, f);
      ScopedHiding(FieldCeilingOf(q.baselines[baseline].restriction, t), Matched(q, scopes), t, f);
      ScopesShow(m, p, q, scopes, t, f);
    }
  }

  // ----- requests -----

  lemma TypeOnlySpec(m: Schema, spec: AxisSpec, out: AxisSpec)
    requires WellFormed(m) && TypeOnly(spec) && IsSpecLoaded(m, spec, out)
    ensures TypeOnly(out)
  {
    ExpandedFaceFree(m, ListOf(spec));
    ExpandedFaceFree(m, spec.deny);
  }

  lemma TypeOnlyLoaded(m: Schema, r: Restriction, out: Restriction)
    requires WellFormed(m) && TypeOnlyAxes(r) && IsBlockLoaded(m, r, out)
    ensures TypeOnlyAxes(out)
  {
    TypeOnlySpec(m, r.read, out.read);
    TypeOnlySpec(m, r.create, out.create);
    TypeOnlySpec(m, r.update, out.update);
    TypeOnlySpec(m, r.delete, out.delete);
  }

  lemma LoadedTypeOnly(m: Schema, p: Policy, q: Policy)
    requires WellFormed(m) && ValidClients(p) && AreBlocksLoaded(m, p, q)
    ensures TypeOnlyBlocks(q)
  {
    AcceptedTypeOnly(p);
    var x := ExpandedPolicy(p);
    forall b | b in q.baselines ensures TypeOnlyAxes(q.baselines[b].restriction) {
      assert x.baselines[b].restriction == Expanded(p.baselines[b].restriction);
      TypeOnlyLoaded(m, x.baselines[b].restriction, q.baselines[b].restriction);
    }
    forall k | k in q.scopeGrants ensures TypeOnlyAxes(q.scopeGrants[k]) {
      assert x.scopeGrants[k] == Expanded(p.scopeGrants[k]);
      TypeOnlyLoaded(m, x.scopeGrants[k], q.scopeGrants[k]);
    }
  }

  lemma ValidAfterExpansion(m: Schema, g: RoleDef)
    requires WellFormed(m) && ValidRole(g)
    ensures ValidRole(ExpandedGrants(m, g))
  {
    ExpandedFaceFree(m, g.rename);
    ExpandedFaceFree(m, g.convert);
  }

  lemma RolesStayValid(m: Schema, before: PolicyView, after: PolicyView)
    requires WellFormed(m) && IsPolicyExpanded(m, before, after)
    requires forall n :: n in before.roles ==> ValidRole(before.roles[n].grants)
    ensures forall n :: n in after.roles ==> ValidRole(after.roles[n].grants)
  {
    forall n | !IsConcrete(m, before) && n in after.roles ensures ValidRole(after.roles[n].grants) {
      assert RoleRule(m)(before.roles[n], after.roles[n]);
      ValidAfterExpansion(m, before.roles[n].grants);
    }
  }

  lemma LoadedRoles(m: Schema, p: Policy, q: Policy)
    requires WellFormed(m) && ValidRoles(p) && IsLoaded(m, p, q)
    ensures ValidRoles(q)
  {
    var roles: map<string, Role>, view :| IsLoadedWith(m, p, q, roles, view);
    forall n | n in roles ensures ValidRole(roles[n].grants) {
      assert p.roles[n] == roles[n].grants;
    }
    RolesStayValid(m, ViewOf(ExpandedPolicy(p), roles), view);
  }

  /** Every request opened on a loaded policy has what the exact-intersection theorems ask for. */
  lemma LoadedRequests(
    m: Schema, p: Policy, q: Policy, baseline: Option<string>, scopes: seq<string>, globals: seq<string>)
    requires baseline.Some? ==> baseline.value in p.baselines
    ensures WellFormed(m) && ValidClients(p) && ValidRoles(p) && IsLoaded(m, p, q) ==>
              (baseline.Some? ==> baseline.value in q.baselines)
              && Loaded(Request(q, CeilingOf(q, baseline, scopes), globals))
  {
    if WellFormed(m) && ValidClients(p) && ValidRoles(p) && IsLoaded(m, p, q) {
      BlocksOfLoaded(m, p, q);
      LoadedTypeOnly(m, p, q);
      LoadedRoles(m, p, q);
      TypeOnlyRequests(q, baseline, scopes, globals);
    }
  }
}
