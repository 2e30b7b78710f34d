/**
  The client ceiling of one request (internal/acl/ceilingcompile.go): the
  baseline a principal type selects, widened by the scopes its token carries,
  and the roles narrowed to it.
*/
module Ceiling {

  import opened Wrappers
  import opened Text
  import opened Grants

  // ----- one axis -----

  /**
    verbCeiling and permissionCeiling. `allow` is nil or a closed list; `except`
    holds what scopes carved back out of `deny`.
  */
  datatype Axis = Axis(allow: Option<seq<string>>, deny: seq<string>, except: seq<string>)

  const OPEN: Axis := Axis(None, [], [])

  const CONFIG_EDIT: string := "config:edit"

  predicate Permits(v: Axis, target: string) {
    if target in v.except then true
    else if v.allow.Some? then NamesType(v.allow.value, target)
    else if |v.deny| > 0 then !NamesType(v.deny, target)
    else true
  }

  /** permissionCeiling.permits never passes config:edit. */
  predicate PermitsName(v: Axis, name: string) {
    name != CONFIG_EDIT && Permits(v, name)
  }

  predicate Narrows(v: Axis) { v.allow.Some? || |v.deny| > 0 }

  function Reopened(v: Axis, types: seq<string>): Axis {
    if |types| == 0 then v
    else Axis(
      if v.allow.Some? then Some(v.allow.value + types) else None,
      v.deny,
      if |v.deny| > 0 then v.except + types else v.except)
  }

  /** The receiver that reopen mutates. */
  class AxisCell {
    var allow: Option<seq<string>>
    var deny: seq<string>
    var except: seq<string>

    function View(): Axis
      reads this
    {
      Axis(allow, deny, except)
    }

    constructor (v: Axis)
      ensures View() == v
    {
      allow, deny, except := v.allow, v.deny, v.except;
    }

    method Reopen(types: seq<string>)
      modifies this
      ensures View() == Reopened(old(View()), types)
    {
      if |types| == 0 {
        return;
      }
      if allow.Some? {
        allow := Some(allow.value + types);
      }
      if |deny| > 0 {
        except := except + types;
      }
    }
  }

  // ----- policy blocks -----

  /** One axis of a block: nil or an allowlist, and a denylist. */
  datatype AxisSpec = AxisSpec(allow: Option<seq<string>>, deny: seq<string>)

  /** A list-valued map entry can be nil (`person:`) or a list (`person: []`). */
  type FieldLists = map<string, Option<seq<string>>>

  datatype Restriction = Restriction(
    read: AxisSpec, create: AxisSpec, update: AxisSpec, delete: AxisSpec,
    denyWrite: seq<string>, worlds: AxisSpec, permissions: AxisSpec,
    visible: FieldLists, redact: FieldLists)

  datatype Baseline = Baseline(appliesTo: seq<string>, restriction: Restriction)

  datatype Policy = Policy(
    roles: map<string, RoleDef>,
    baselines: map<string, Baseline>,
    scopeGrants: map<string, Restriction>,
    requiresPermission: map<string, string>,
    relationGrants: map<string, RelationGrant>,
    defaultWorld: string)

  /** relation_grants: the shorthand for all verbs, or one name per verb. */
  datatype RelationGrant = RelationGrant(
    permission: string, create: string, update: string, delete: string)

  datatype CompiledCeiling = CompiledCeiling(
    name: string, active: bool, restriction: Restriction,
    read: Axis, create: Axis, update: Axis, delete: Axis, permissions: Axis,
    worlds: Axis, defaultWorld: string)

  const NO_RESTRICTION: Restriction := Restriction(
    AxisSpec(None, []), AxisSpec(None, []), AxisSpec(None, []), AxisSpec(None, []),
    [], AxisSpec(None, []), AxisSpec(None, []), map[], map[])

  const INACTIVE: CompiledCeiling := CompiledCeiling(
    "", false, NO_RESTRICTION, OPEN, OPEN, OPEN, OPEN, OPEN, OPEN, "")

  // ----- compiling -----

  predicate Covers(p: Policy, name: string, principalType: string) {
    name in p.baselines && principalType in p.baselines[name].appliesTo
  }

  /** `names` is sortedBaselineNames; the first baseline that covers the type wins. */
  method BaselineFor(p: Policy, names: seq<string>, principalType: string)
    returns (found: Option<string>)
    requires forall n :: n in names <==> n in p.baselines
    ensures found.Some? ==>
              TrimSpace(principalType) != "" && Covers(p, found.value, TrimSpace(principalType))
    ensures found.None? ==>
              TrimSpace(principalType) == ""
              || forall n :: n in p.baselines ==> !Covers(p, n, TrimSpace(principalType))
  {
    var t := TrimSpace(principalType);
    if t == "" || |p.baselines| == 0 {
      return None;
    }
    for i := 0 to |names|
      invariant forall j :: 0 <= j < i ==> !Covers(p, names[j], t)
    {
      if t in p.baselines[names[i]].appliesTo {
        return Some(names[i]);
      }
    }
    return None;
  }

  function Compile(spec: AxisSpec): Axis { Axis(spec.allow, spec.deny, []) }

  function FromBaseline(p: Policy, name: string): CompiledCeiling
    requires name in p.baselines
  {
    var r := p.baselines[name].restriction;
    CompiledCeiling(name, true, r,
      Compile(r.read), Compile(r.create), Compile(r.update), Compile(r.delete),
      Compile(r.permissions), Compile(r.worlds), p.defaultWorld)
  }

  function ListOf(spec: AxisSpec): seq<string> {
    if spec.allow.Some? then spec.allow.value else []
  }

  /** One scope grant re-opens what it lists, on every axis. */
  function Widened(c: CompiledCeiling, g: Restriction): CompiledCeiling {
    c.(read := Reopened(c.read, ListOf(g.read)),
       create := Reopened(c.create, ListOf(g.create)),
       update := Reopened(c.update, ListOf(g.update)),
       delete := Reopened(c.delete, ListOf(g.delete)),
       worlds := Reopened(c.worlds, ListOf(g.worlds)),
       permissions := Reopened(c.permissions, ListOf(g.permissions)))
  }

  /** The grants that a token's scopes name, in the token's order. */
  function Matched(p: Policy, scopes: seq<string>): seq<Restriction> {
    if scopes == [] then []
    else
      var last := |scopes| - 1;
      var s := TrimSpace(scopes[last]);
      Matched(p, scopes[..last]) + if s in p.scopeGrants then [p.scopeGrants[s]] else []
  }

  function WidenedAll(c: CompiledCeiling, grants: seq<Restriction>): CompiledCeiling {
    if grants == [] then c
    else Widened(WidenedAll(c, grants[..|grants| - 1]), grants[|grants| - 1])
  }

  /** ceilingFor, once the baseline is selected. */
  function CeilingOf(p: Policy, baseline: Option<string>, scopes: seq<string>): CompiledCeiling
    requires baseline.Some? ==> baseline.value in p.baselines
  {
    match baseline
    case None => INACTIVE
    case Some(name) => WidenedAll(FromBaseline(p, name), Matched(p, scopes))
  }

  lemma OneMoreScope(p: Policy, name: string, scopes: seq<string>, i: nat)
    requires name in p.baselines && i < |scopes|
    ensures var s := TrimSpace(scopes[i]);
            var before := CeilingOf(p, Some(name), scopes[..i]);
            CeilingOf(p, Some(name), scopes[..i + 1])
            == if s in p.scopeGrants then Widened(before, p.scopeGrants[s]) else before
  {
    var s := TrimSpace(scopes[i]);
    assert scopes[..i + 1][..i] == scopes[..i];
    var before := Matched(p, scopes[..i]);
    if s in p.scopeGrants {
      assert (before + [p.scopeGrants[s]])[..|before|] == before;
    } else {
      assert before + [] == before;
    }
  }

  /** The baseline that the principal type is subject to, if any covers it. */
  predicate Selects(p: Policy, b: Option<string>, principalType: string) {
    var t := TrimSpace(principalType);
    match b
    case Some(name) => t != "" && Covers(p, name, t)
    case None => t == "" || forall n :: n in p.baselines ==> !Covers(p, n, t)
  }

  method CeilingFor(p: Policy, names: seq<string>, principalType: string, scopes: seq<string>)
    returns (c: CompiledCeiling)
    requires forall n :: n in names <==> n in p.baselines
    ensures exists b :: Selects(p, b, principalType) && c == CeilingOf(p, b, scopes)
  {
    var found := BaselineFor(p, names, principalType);
    assert Selects(p, found, principalType);
    if found.None? {
      return INACTIVE;
    }
    c := FromBaseline(p, found.value);
    for i := 0 to |scopes|
      invariant c == CeilingOf(p, found, scopes[..i])
    {
      OneMoreScope(p, found.value, scopes, i);
      var s := TrimSpace(scopes[i]);
      if s in p.scopeGrants {
        c := Widened(c, p.scopeGrants[s]);
      }
    }
    assert scopes[..|scopes|] == scopes;
  }

  // ----- narrowing roles -----

  predicate Collapses(roleTypes: seq<string>, v: Axis) { v.allow.Some? && "*" in roleTypes }

  /** Whether filterTypes keeps one of a role's own entries. */
  predicate Keeps(roleTypes: seq<string>, v: Axis, entry: string) {
    if entry == "*" then !Collapses(roleTypes, v) else Permits(v, TypeOf(entry))
  }

  /**
    What filterTypes leaves of a role's list: its kept entries, after the
    ceiling's own list when that replaces the role's "*".
  */
  ghost predicate IsFiltered(roleTypes: seq<string>, v: Axis, out: seq<string>) {
    if !Narrows(v) || |roleTypes| == 0 then out == roleTypes
    else forall e ::
      e in out <==>
        (Collapses(roleTypes, v) && e in v.allow.value)
        || (e in roleTypes && Keeps(roleTypes, v, e))
  }

  function KeptFrom(roleTypes: seq<string>, v: Axis, i: nat, out: seq<string>): seq<string>
    requires i <= |roleTypes|
    decreases |roleTypes| - i
  {
    if i == |roleTypes| then out
    else
      var t := roleTypes[i];
      KeptFrom(roleTypes, v, i + 1,
        if t !in out && Keeps(roleTypes, v, t) then out + [t] else out)
  }

  function FilteredTypes(roleTypes: seq<string>, v: Axis): seq<string> {
    if !Narrows(v) || |roleTypes| == 0 then roleTypes
    else KeptFrom(roleTypes, v, 0, if Collapses(roleTypes, v) then v.allow.value else [])
  }

  lemma {:induction false} KeptMembers(roleTypes: seq<string>, v: Axis, i: nat, out: seq<string>, e: string)
    requires i <= |roleTypes|
    ensures e in KeptFrom(roleTypes, v, i, out) <==>
              e in out || (e in roleTypes[i..] && Keeps(roleTypes, v, e))
    decreases |roleTypes| - i
  {
    if i < |roleTypes| {
      var t := roleTypes[i];
      var next := if t !in out && Keeps(roleTypes, v, t) then out + [t] else out;
      KeptMembers(roleTypes, v, i + 1, next, e);
      assert roleTypes[i..] == [t] + roleTypes[i + 1..];
    }
  }

  lemma FilteredMembers(roleTypes: seq<string>, v: Axis)
    ensures IsFiltered(roleTypes, v, FilteredTypes(roleTypes, v))
  {
    if Narrows(v) && |roleTypes| > 0 {
      var start := if Collapses(roleTypes, v) then v.allow.value else [];
      forall e
        ensures e in FilteredTypes(roleTypes, v) <==>
                  (Collapses(roleTypes, v) && e in v.allow.value)
                  || (e in roleTypes && Keeps(roleTypes, v, e))
      {
        KeptMembers(roleTypes, v, 0, start, e);
        assert roleTypes[0..] == roleTypes;
      }
    }
  }

  method FilterTypes(roleTypes: seq<string>, v: Axis) returns (out: seq<string>)
    ensures out == FilteredTypes(roleTypes, v)
  {
    if !Narrows(v) || |roleTypes| == 0 {
      return roleTypes;
    }
    out := [];
    var collapse := v.allow.Some? && "*" in roleTypes;
    if collapse {
      out := out + v.allow.value;
    }
    ghost var start := out;
    assert start == if collapse then v.allow.value else [];
    for i := 0 to |roleTypes|
      invariant KeptFrom(roleTypes, v, i, out) == KeptFrom(roleTypes, v, 0, start)
    {
      var t := roleTypes[i];
      if t in out {
        continue;
      }
      if t == "*" {
        if collapse {
          continue;
        }
        out := out + [t];
        continue;
      }
      if Permits(v, TypeOf(t)) {
        out := out + [t];
      }
    }
  }

  /** filterPermissions: the entries `keep` accepts, in the role's order. */
  function FilteredPermissions(names: seq<string>, v: Axis): seq<string> {
    if !Narrows(v) || |names| == 0 then names
    else if v.allow.Some? && "*" in names then v.allow.value
    else KeptNames(names, v)
  }

  function KeptNames(names: seq<string>, v: Axis): seq<string> {
    if names == [] then []
    else
      var last := |names| - 1;
      KeptNames(names[..last], v)
      + if names[last] == "*" || PermitsName(v, names[last]) then [names[last]] else []
  }

  lemma {:induction false} KeptNamesMembers(names: seq<string>, v: Axis, e: string)
    ensures e in KeptNames(names, v) <==> e in names && (e == "*" || PermitsName(v, e))
  {
    if names != [] {
      var last := |names| - 1;
      KeptNamesMembers(names[..last], v, e);
      assert names == names[..last] + [names[last]];
    }
  }

  method FilterPermissions(names: seq<string>, v: Axis) returns (out: seq<string>)
    ensures out == FilteredPermissions(names, v)
  {
    if !Narrows(v) || |names| == 0 {
      return names;
    }
    if v.allow.Some? && "*" in names {
      return v.allow.value;
    }
    out := [];
    for i := 0 to |names|
      invariant out == KeptNames(names[..i], v)
    {
      assert names[..i + 1][..i] == names[..i];
      var name := names[i];
      if name == "*" {
        out := out + [name];
        continue;
      }
      if PermitsName(v, name) {
        out := out + [name];
      }
    }
    assert names[..|names|] == names;
  }

  /** filterWorlds */
  function FilteredWorlds(worlds: seq<string>, v: Axis): seq<string> {
    if !Narrows(v) || |worlds| == 0 then worlds else PermittedWorlds(worlds, v)
  }

  function PermittedWorlds(worlds: seq<string>, v: Axis): (out: seq<string>)
    ensures forall w :: w in out <==> w in worlds && Permits(v, w)
  {
    if worlds == [] then []
    else (if Permits(v, worlds[0]) then [worlds[0]] else []) + PermittedWorlds(worlds[1..], v)
  }

  function Clamp(c: CompiledCeiling, role: RoleDef): RoleDef {
    if !c.active then role
    else role.(
      read := FilteredTypes(role.read, c.read),
      create := FilteredTypes(role.create, c.create),
      update := FilteredTypes(role.update, c.update),
      rename := FilteredTypes(role.rename, c.update),
      convert := FilteredTypes(FilteredTypes(role.convert, c.update), c.delete),
      delete := FilteredTypes(role.delete, c.delete),
      worlds := FilteredWorlds(role.worlds, c.worlds),
      permissions := FilteredPermissions(role.permissions, c.permissions))
  }

  predicate PermitsVerb(c: CompiledCeiling, op: Op, target: string) {
    !c.active ||
    match op
    case Create => Permits(c.create, target)
    case Update => Permits(c.update, target)
    case Rename => Permits(c.update, target)
    case Convert => Permits(c.update, target) && Permits(c.delete, target)
    case Delete => Permits(c.delete, target)
  }

  predicate PermitsRead(c: CompiledCeiling, target: string) { !c.active || Permits(c.read, target) }

  predicate PermitsWorld(c: CompiledCeiling, world: string) {
    !c.active || world == "" || world == c.defaultWorld || Permits(c.worlds, world)
  }

  predicate PermitsPermission(c: CompiledCeiling, name: string) {
    !c.active || PermitsName(c.permissions, name)
  }
}
