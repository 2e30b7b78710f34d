/**
  What loading a policy guarantees about its client blocks
  (internal/acl/ceiling.go, Policy.validateClientAttenuation). Names are taken
  as already trimmed by normalizeClientAttenuation.
*/
module CeilingValidation {

  import opened Wrappers
  import opened Text
  import opened Grants
  import opened Ceiling
  import opened CeilingLaws

  // ----- one block -----

  /** len(list) > 0: a nil and an empty allowlist both count as not set. */
  predicate IsSet(spec: AxisSpec) { |ListOf(spec)| > 0 }

  predicate OneSpelling(spec: AxisSpec) { !(IsSet(spec) && |spec.deny| > 0) }

  predicate ValidSpellings(r: Restriction) {
    && OneSpelling(r.read) && OneSpelling(r.create) && OneSpelling(r.update)
    && OneSpelling(r.delete) && OneSpelling(r.worlds) && OneSpelling(r.permissions)
    && (|r.denyWrite| > 0 ==>
          !IsSet(r.create) && |r.create.deny| == 0
          && !IsSet(r.update) && |r.update.deny| == 0
          && !IsSet(r.delete) && |r.delete.deny| == 0)
    && r.visible.Keys !! r.redact.Keys
  }

  predicate NoBlanks(list: seq<string>) { forall e :: e in list ==> !IsBlank(e) }

  predicate NoBlankSpec(spec: AxisSpec) { NoBlanks(ListOf(spec)) && NoBlanks(spec.deny) }

  predicate NoBlankFields(m: FieldLists) {
    forall t :: t in m ==> !IsBlank(t) && (m[t].Some? ==> NoBlanks(m[t].value))
  }

  predicate ValidNoBlanks(r: Restriction) {
    && NoBlankSpec(r.read) && NoBlankSpec(r.create) && NoBlankSpec(r.update)
    && NoBlankSpec(r.delete) && NoBlankSpec(r.worlds) && NoBlankSpec(r.permissions)
    && NoBlanks(r.denyWrite) && NoBlankFields(r.visible) && NoBlankFields(r.redact)
  }

  predicate TypeOnly(spec: AxisSpec) { FaceFree(ListOf(spec)) && FaceFree(spec.deny) }

  predicate BareKeys(m: FieldLists) {
    forall t :: t in m ==> TrimSpace(t) != "*" && '@' !in t
  }

  predicate NoWildcard(list: seq<string>) { forall w :: w in list ==> TrimSpace(w) != "*" }

  predicate ValidTypeOnly(r: Restriction) {
    && TypeOnly(r.read) && TypeOnly(r.create) && TypeOnly(r.update) && TypeOnly(r.delete)
    && FaceFree(r.denyWrite)
    && BareKeys(r.visible) && BareKeys(r.redact)
    && NoWildcard(ListOf(r.worlds)) && NoWildcard(r.worlds.deny)
  }

  /** Restriction.validate */
  predicate ValidBlock(r: Restriction) {
    ValidSpellings(r) && ValidNoBlanks(r) && ValidTypeOnly(r)
  }

  /** denySpellings of a scope grant must be empty. */
  predicate OnlyReopens(r: Restriction) {
    && |r.read.deny| == 0 && |r.create.deny| == 0 && |r.update.deny| == 0 && |r.delete.deny| == 0
    && |r.denyWrite| == 0 && r.redact == map[] && |r.worlds.deny| == 0 && |r.permissions.deny| == 0
  }

  // ----- deny_write -----

  /** Restriction.expanded */
  function Expanded(r: Restriction): Restriction {
    if |r.denyWrite| == 0 then r
    else r.(create := r.create.(deny := r.denyWrite),
            update := r.update.(deny := r.denyWrite),
            delete := r.delete.(deny := r.denyWrite),
            denyWrite := [])
  }

  /** An axis as written, with deny_write read as a denial of every write verb. */
  predicate Written(r: Restriction, n: AxisName, target: string) {
    && Permits(Compile(SpecIn(r, n)), target)
    && (n.OnCreate? || n.OnUpdate? || n.OnDelete? ==> !NamesType(r.denyWrite, target))
  }

  /** Expanding deny_write loses nothing, because validation refused collisions. */
  lemma ExpansionLossless(r: Restriction, n: AxisName, target: string)
    requires ValidSpellings(r)
    ensures Permits(Compile(SpecIn(Expanded(r), n)), target) <==> Written(r, n, target)
  {
  }

  /** Without that check a per-verb denial beside deny_write would be lost. */
  lemma ExpansionNeedsTheCheck()
    ensures var r := NO_RESTRICTION.(update := AxisSpec(None, ["a"]), denyWrite := ["b"]);
            !ValidSpellings(r)
            && Permits(Compile(SpecIn(Expanded(r), OnUpdate)), "a") && !Written(r, OnUpdate, "a")
  {
    assert "a" in ["a"];
  }

  lemma ExpandedKeepsTypes(r: Restriction)
    requires ValidTypeOnly(r)
    ensures ValidTypeOnly(Expanded(r)) && Expanded(r).denyWrite == []
  {
  }

  // ----- the whole policy -----

  datatype Outcome = Refused | Accepted(policy: Policy)

  function Trimmed(list: seq<string>): set<string> { set a | a in list :: TrimSpace(a) }

  predicate Claims(p: Policy, name: string, t: string) {
    name in p.baselines && t in Trimmed(p.baselines[name].appliesTo)
  }

  predicate NoRepeats(list: seq<string>) {
    forall i, j :: 0 <= i < j < |list| ==> TrimSpace(list[i]) != TrimSpace(list[j])
  }

  ghost predicate Disjoint(p: Policy) {
    && (forall n :: n in p.baselines ==> NoRepeats(p.baselines[n].appliesTo))
    && (forall m, n, t :: Claims(p, m, t) && Claims(p, n, t) ==> m == n)
  }

  predicate ValidBaseline(name: string, b: Baseline) {
    !IsBlank(name) && ValidBlock(b.restriction) && NoBlanks(b.appliesTo)
  }

  predicate ValidScope(name: string, g: Restriction) {
    !IsBlank(name) && ValidBlock(g) && OnlyReopens(g)
  }

  ghost predicate ValidBaselines(p: Policy) {
    (forall n :: n in p.baselines ==> ValidBaseline(n, p.baselines[n])) && Disjoint(p)
  }

  predicate ValidScopes(p: Policy) {
    forall n :: n in p.scopeGrants ==> ValidScope(n, p.scopeGrants[n])
  }

  ghost predicate ValidClients(p: Policy) { ValidBaselines(p) && ValidScopes(p) }

  function ExpandedPolicy(p: Policy): Policy {
    p.(baselines := map n | n in p.baselines ::
         p.baselines[n].(restriction := Expanded(p.baselines[n].restriction)),
       scopeGrants := map n | n in p.scopeGrants :: Expanded(p.scopeGrants[n]))
  }

  /** Claims so far: which trimmed types the first `done` baselines have taken. */
  ghost predicate ClaimedRight(p: Policy, names: seq<string>, done: nat, claimed: map<string, string>)
    requires done <= |names|
  {
    && (forall t :: t in claimed ==> exists i :: 0 <= i < done && Claims(p, names[i], t))
    && (forall i, t :: 0 <= i < done && Claims(p, names[i], t) ==> t in claimed)
  }

  lemma TrimmedSnoc(list: seq<string>, i: nat)
    requires i < |list|
    ensures Trimmed(list[..i + 1]) == Trimmed(list[..i]) + {TrimSpace(list[i])}
    ensures NoRepeats(list[..i + 1])
            <==> NoRepeats(list[..i]) && TrimSpace(list[i]) !in Trimmed(list[..i])
    ensures NoBlanks(list[..i + 1]) <==> NoBlanks(list[..i]) && !IsBlank(list[i])
  {
    assert list[..i + 1] == list[..i] + [list[i]];
    if TrimSpace(list[i]) in Trimmed(list[..i]) {
      var a :| a in list[..i] && TrimSpace(a) == TrimSpace(list[i]);
      var j :| 0 <= j < i && list[j] == a;
      assert TrimSpace(list[..i + 1][j]) == TrimSpace(list[..i + 1][i]);
    }
    if NoRepeats(list[..i + 1]) {
      forall j, k | 0 <= j < k < i ensures TrimSpace(list[..i][j]) != TrimSpace(list[..i][k]) {
        assert TrimSpace(list[..i + 1][j]) != TrimSpace(list[..i + 1][k]);
      }
    }
  }

  lemma PrefixFits(list: seq<string>, i: nat)
    requires i <= |list| && NoBlanks(list) && NoRepeats(list)
    ensures NoBlanks(list[..i]) && NoRepeats(list[..i])
  {
  }

  /** Records one baseline's principal types, unless one is blank or taken. */
  method ClaimTypes(appliesTo: seq<string>, name: string, claimedIn: map<string, string>)
    returns (ok: bool, claimed: map<string, string>)
    ensures ok <==>
              NoBlanks(appliesTo) && NoRepeats(appliesTo)
              && Trimmed(appliesTo) !! claimedIn.Keys
    ensures ok ==> claimed.Keys == claimedIn.Keys + Trimmed(appliesTo)
  {
    claimed := claimedIn;
    for i := 0 to |appliesTo|
      invariant NoBlanks(appliesTo[..i]) && NoRepeats(appliesTo[..i])
      invariant Trimmed(appliesTo[..i]) !! claimedIn.Keys
      invariant claimed.Keys == claimedIn.Keys + Trimmed(appliesTo[..i])
    {
      TrimmedSnoc(appliesTo, i);
      if IsBlank(appliesTo[i]) {
        return false, claimed;
      }
      var t := TrimSpace(appliesTo[i]);
      if t in claimed {
        if NoBlanks(appliesTo) && NoRepeats(appliesTo) {
          PrefixFits(appliesTo, i + 1);
          assert t in Trimmed(appliesTo);
        }
        return false, claimed;
      }
      claimed := claimed[t := name];
    }
    assert appliesTo[..|appliesTo|] == appliesTo;
    return true, claimed;
  }

  /** The baselines checked so far claim no principal type twice. */
  ghost predicate ClaimedOnce(p: Policy, names: seq<string>, i: nat)
    requires i <= |names| && forall n :: n in names ==> n in p.baselines
  {
    && (forall j :: 0 <= j < i ==> NoRepeats(p.baselines[names[j]].appliesTo))
    && (forall j, k, t :: 0 <= j < k < i && Claims(p, names[j], t) ==> !Claims(p, names[k], t))
  }

  /** One round of the loop over baselines. */
  method CheckBaseline(name: string, b: Baseline, claimedIn: map<string, string>)
    returns (ok: bool, claimed: map<string, string>)
    ensures ok <==> ValidBaseline(name, b) && NoRepeats(b.appliesTo) && Trimmed(b.appliesTo) !! claimedIn.Keys
    ensures ok ==> claimed.Keys == claimedIn.Keys + Trimmed(b.appliesTo)
  {
    if IsBlank(name) || !ValidBlock(b.restriction) {
      return false, claimedIn;
    }
    ok, claimed := ClaimTypes(b.appliesTo, name, claimedIn);
  }

  method CheckBaselines(p: Policy, names: seq<string>) returns (ok: bool)
    requires forall n :: n in names <==> n in p.baselines
    requires forall i, j :: 0 <= i < j < |names| ==> names[i] != names[j]
    ensures ok <==> ValidBaselines(p)
  {
    var claimed: map<string, string> := map[];
    for i := 0 to |names|
      invariant forall j :: 0 <= j < i ==> ValidBaseline(names[j], p.baselines[names[j]])
      invariant ClaimedOnce(p, names, i) && ClaimedRight(p, names, i, claimed)
    {
      assert names[i] in p.baselines;
      ghost var before := claimed;
      ok, claimed := CheckBaseline(names[i], p.baselines[names[i]], claimed);
      if !ok {
        if ValidBaseline(names[i], p.baselines[names[i]]) {
          RefusedClaim(p, names, i, before);
        }
        return false;
      }
      ClaimOneMore(p, names, i, before, claimed);
    }
    DisjointByIndex(p, names);
    return true;
  }

  /**
    validateClientAttenuation: accepts exactly the valid policies, and hands back
    the policy with deny_write expanded. The name lists are the sorted keys.
  */
  method ValidateClients(p: Policy, names: seq<string>, scopeNames: seq<string>)
    returns (out: Outcome)
    requires forall n :: n in names <==> n in p.baselines
    requires forall i, j :: 0 <= i < j < |names| ==> names[i] != names[j]
    requires forall n :: n in scopeNames <==> n in p.scopeGrants
    ensures out == if ValidClients(p) then Accepted(ExpandedPolicy(p)) else Refused
  {
    var ok := CheckBaselines(p, names);
    if !ok {
      return Refused;
    }
    for i := 0 to |scopeNames|
      invariant forall j :: 0 <= j < i ==> ValidScope(scopeNames[j], p.scopeGrants[scopeNames[j]])
    {
      assert scopeNames[i] in p.scopeGrants;
      if IsBlank(scopeNames[i]) || !ValidBlock(p.scopeGrants[scopeNames[i]])
         || !OnlyReopens(p.scopeGrants[scopeNames[i]]) {
        assert !ValidScope(scopeNames[i], p.scopeGrants[scopeNames[i]]);
        return Refused;
      }
    }
    return Accepted(ExpandedPolicy(p));
  }

  lemma RefusedClaim(p: Policy, names: seq<string>, i: nat, claimed: map<string, string>)
    requires i < |names| && names[i] in p.baselines
    requires forall a, b :: 0 <= a < b < |names| ==> names[a] != names[b]
    requires ClaimedRight(p, names, i, claimed)
    requires var list := p.baselines[names[i]].appliesTo;
             !(NoRepeats(list) && Trimmed(list) !! claimed.Keys)
    ensures !Disjoint(p)
  {
    var list := p.baselines[names[i]].appliesTo;
    if NoRepeats(list) {
      var t :| t in Trimmed(list) && t in claimed;
      var j :| 0 <= j < i && Claims(p, names[j], t);
      assert Claims(p, names[i], t);
    }
  }

  lemma ClaimOneMore(
    p: Policy, names: seq<string>, i: nat, before: map<string, string>, after: map<string, string>)
    requires i < |names| && forall n :: n in names ==> n in p.baselines
    requires ClaimedOnce(p, names, i) && ClaimedRight(p, names, i, before)
    requires var list := p.baselines[names[i]].appliesTo;
             NoRepeats(list) && Trimmed(list) !! before.Keys
             && after.Keys == before.Keys + Trimmed(list)
    ensures ClaimedOnce(p, names, i + 1) && ClaimedRight(p, names, i + 1, after)
  {
    forall t | t in after ensures exists j :: 0 <= j < i + 1 && Claims(p, names[j], t) {
      if t !in before {
        assert Claims(p, names[i], t);
      }
    }
    forall j, k, t | 0 <= j < k < i + 1 && Claims(p, names[j], t) ensures !Claims(p, names[k], t) {
      if k == i {
        assert t in before;
      }
    }
  }

  lemma DisjointByIndex(p: Policy, names: seq<string>)
    requires forall n :: n in names <==> n in p.baselines
    requires ClaimedOnce(p, names, |names|)
    ensures Disjoint(p)
  {
    forall m, n, t | Claims(p, m, t) && Claims(p, n, t) ensures m == n {
      var j :| 0 <= j < |names| && names[j] == m;
      var k :| 0 <= k < |names| && names[k] == n;
      assert Claims(p, names[j], t) && Claims(p, names[k], t);
    }
  }

  // ----- what validation buys -----

  /** Trimmed principal types, as normalizeClientAttenuation leaves them. */
  predicate Normalized(p: Policy) {
    forall n :: n in p.baselines ==>
      forall a :: a in p.baselines[n].appliesTo ==> TrimSpace(a) == a
  }

  /** At most one baseline covers a principal type, so lookup order cannot matter. */
  lemma BaselineUnique(p: Policy, principalType: string, m: string, n: string)
    requires Disjoint(p) && Normalized(p)
    requires Covers(p, m, principalType) && Covers(p, n, principalType)
    ensures m == n
  {
    assert Claims(p, m, principalType) && Claims(p, n, principalType);
  }

  predicate VerbAxis(n: AxisName) { n.OnRead? || n.OnCreate? || n.OnUpdate? || n.OnDelete? }

  lemma AllowTypes(base: Axis, lists: seq<seq<string>>)
    requires Fresh(base) && (base.allow.Some? ==> FaceFree(base.allow.value))
    requires forall l :: l in lists ==> FaceFree(l)
    ensures var v := ReopenedAll(base, lists);
            v.allow.Some? ==> FaceFree(v.allow.value)
  {
    var v := ReopenedAll(base, lists);
    forall e | v.allow.Some? && e in v.allow.value ensures '@' !in e {
      ReopenedShape(base, lists, e);
    }
  }

  predicate TypeOnlyAxes(r: Restriction) {
    TypeOnly(r.read) && TypeOnly(r.create) && TypeOnly(r.update) && TypeOnly(r.delete)
  }

  /** No verb axis of a client block names a face. */
  predicate TypeOnlyBlocks(q: Policy) {
    && (forall n :: n in q.baselines ==> TypeOnlyAxes(q.baselines[n].restriction))
    && (forall k :: k in q.scopeGrants ==> TypeOnlyAxes(q.scopeGrants[k]))
  }

  lemma AcceptedTypeOnly(p: Policy)
    requires ValidClients(p)
    ensures TypeOnlyBlocks(ExpandedPolicy(p))
  {
    forall n | n in p.baselines ensures TypeOnlyAxes(Expanded(p.baselines[n].restriction)) {
      assert ValidBaseline(n, p.baselines[n]);
      ExpandedKeepsTypes(p.baselines[n].restriction);
    }
    forall k | k in p.scopeGrants ensures TypeOnlyAxes(Expanded(p.scopeGrants[k])) {
      assert ValidScope(k, p.scopeGrants[k]);
      ExpandedKeepsTypes(p.scopeGrants[k]);
    }
  }

  lemma AxisSound(q: Policy, baseline: string, scopes: seq<string>, n: AxisName)
    requires TypeOnlyBlocks(q) && baseline in q.baselines && VerbAxis(n)
    ensures Sound(AxisIn(CeilingOf(q, Some(baseline), scopes), n))
  {
    var grants := Matched(q, scopes);
    WidenedAxis(FromBaseline(q, baseline), grants, n);
    var lists := ListsFor(grants, n);
    forall l | l in lists ensures FaceFree(l) {
      ScopeListTypes(q, scopes, n, l);
    }
    AllowTypes(Compile(SpecIn(q.baselines[baseline].restriction, n)), lists);
    CompiledExceptsListed(q, baseline, scopes, n);
  }

  lemma ScopeListTypes(q: Policy, scopes: seq<string>, n: AxisName, l: seq<string>)
    requires TypeOnlyBlocks(q) && VerbAxis(n) && l in ListsFor(Matched(q, scopes), n)
    ensures FaceFree(l)
  {
    ListsForMembers(Matched(q, scopes), n, l);
    var g :| g in Matched(q, scopes) && l == ListOf(SpecIn(g, n));
    MatchedMembers(q, scopes, g);
  }

  /** Every verb axis of a ceiling compiled from an accepted policy is sound. */
  lemma CompiledSound(p: Policy, baseline: string, scopes: seq<string>, n: AxisName)
    requires ValidClients(p) && baseline in p.baselines && VerbAxis(n)
    ensures Sound(AxisIn(CeilingOf(ExpandedPolicy(p), Some(baseline), scopes), n))
  {
    AcceptedTypeOnly(p);
    AxisSound(ExpandedPolicy(p), baseline, scopes, n);
  }
}
