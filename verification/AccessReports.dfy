/**
  The "who can" reports (internal/acl/access.go), checked against the decisions
  the authorizer makes for the same request.
*/
module AccessReports {

  import opened Wrappers
  import opened Grants
  import opened Ceiling
  import opened CeilingLaws
  import opened Authorize
  import opened AuthorizeLaws

  const EVERYONE: string := "everyone"

  /** The reports are right for the verbs whose grant list is their own. */
  predicate Reported(op: Op) { op == Create || op == Update || op == Delete }

  function ListFor(role: RoleDef, op: Op): seq<string> {
    match op
    case Create => role.create
    case Convert => role.convert
    case Update => role.update
    case Rename => role.update
    case Delete => role.delete
  }

  datatype EveryoneGrant = EveryoneGrant(granted: bool, wildcard: bool)

  /** grantForRole, for a write verb. */
  function GrantForRole(role: RoleDef, op: Op, entityType: string): EveryoneGrant {
    FirstMatch(ListFor(role, op), entityType)
  }

  function FirstMatch(list: seq<string>, entityType: string): EveryoneGrant {
    if list == [] then EveryoneGrant(false, false)
    else if list[0] == "*" then EveryoneGrant(true, true)
    else if !IsStateGrant(list[0]) && list[0] == entityType then EveryoneGrant(true, false)
    else FirstMatch(list[1..], entityType)
  }

  /** grantForRole with its loop over the verb's list. */
  method FindGrant(role: RoleDef, op: Op, entityType: string) returns (g: EveryoneGrant)
    ensures g == GrantForRole(role, op, entityType)
  {
    var list := ListFor(role, op);
    for i := 0 to |list|
      invariant FirstMatch(list, entityType) == FirstMatch(list[i..], entityType)
    {
      if list[i] == "*" {
        return EveryoneGrant(true, true);
      }
      if IsStateGrant(list[i]) {
        continue;
      }
      if list[i] == entityType {
        return EveryoneGrant(true, false);
      }
    }
    return EveryoneGrant(false, false);
  }

  /** ClampedEveryoneGrants */
  function ClampedEveryoneGrants(r: Request, op: Op, entityType: string): EveryoneGrant {
    if !PermitsVerb(r.ceiling, op, entityType) || RoleFor(r, EVERYONE).None?
    then EveryoneGrant(false, false)
    else GrantForRole(RoleFor(r, EVERYONE).value, op, entityType)
  }

  predicate Credits(r: Request, op: Op, entityType: string, a: string) {
    && a != EVERYONE && RoleFor(r, a).Some?
    && GrantsVerb(RoleFor(r, a).value, op, entityType)
  }

  function Credited(r: Request, attrs: seq<string>, op: Op, entityType: string): seq<string> {
    if attrs == [] then []
    else
      var last := |attrs| - 1;
      Credited(r, attrs[..last], op, entityType)
      + if Credits(r, op, entityType, attrs[last]) then [attrs[last]] else []
  }

  /** The routes a report lists for a write verb. */
  function Routes(r: Request, attrs: seq<string>, op: Op, entityType: string): seq<string> {
    if PermitsVerb(r.ceiling, op, entityType) then Credited(r, attrs, op, entityType) else []
  }

  /** grantingAttributions, for a write verb. */
  method GrantingAttributions(r: Request, attrs: seq<string>, op: Op, entityType: string)
    returns (out: seq<string>)
    ensures out == Routes(r, attrs, op, entityType)
  {
    if !PermitsVerb(r.ceiling, op, entityType) {
      return [];
    }
    out := [];
    for i := 0 to |attrs|
      invariant out == Credited(r, attrs[..i], op, entityType)
    {
      assert attrs[..i + 1][..i] == attrs[..i];
      var a := attrs[i];
      if a == EVERYONE {
        continue;
      }
      var role := RoleFor(r, a);
      if role.None? {
        continue;
      }
      if GrantsVerb(role.value, op, entityType) {
        out := out + [a];
      }
    }
    assert attrs[..|attrs|] == attrs;
  }

  // ----- the reports against the authorizer -----

  /** The type-granular predicate is exactly the implicit face. */
  lemma TypeGrantIsImplicitFace(role: RoleDef, op: Op, entityType: string)
    requires Reported(op)
    ensures GrantsVerb(role, op, entityType) <==> GrantsVerbOnState(role, op, entityType, IMPLICIT)
  {
    var list := ListFor(role, op);
    assert '@' !in "*";
    forall e | e in list
      ensures EntryCovers(e, entityType, IMPLICIT)
              <==> !IsStateGrant(e) && (e == "*" || e == entityType)
    {
      ParsedType(e);
    }
  }

  lemma {:induction false} FirstMatchIsGrant(list: seq<string>, entityType: string)
    ensures FirstMatch(list, entityType).granted
            <==> exists e :: e in list && !IsStateGrant(e) && (e == "*" || e == entityType)
  {
    assert '@' !in "*";
    if list != [] {
      FirstMatchIsGrant(list[1..], entityType);
      assert list == [list[0]] + list[1..];
    }
  }

  lemma {:induction false} CreditedMembers(
    r: Request, attrs: seq<string>, op: Op, entityType: string, a: string)
    ensures a in Credited(r, attrs, op, entityType) <==> a in attrs && Credits(r, op, entityType, a)
  {
    if attrs != [] {
      var last := |attrs| - 1;
      CreditedMembers(r, attrs[..last], op, entityType, a);
      assert attrs == attrs[..last] + [attrs[last]];
    }
  }

  lemma SingleRoute(r: Request, op: Op, entityType: string, a: string)
    requires Reported(op) && PermitsVerb(r.ceiling, op, entityType)
    ensures DecideFromAttrs(r, [a], op, entityType, IMPLICIT).allow
            <==> RoleFor(r, a).Some? && GrantsVerb(RoleFor(r, a).value, op, entityType)
  {
    assert a in [a];
    if RoleFor(r, a).Some? {
      TypeGrantIsImplicitFace(RoleFor(r, a).value, op, entityType);
    }
  }

  /**
    A role is a reported route exactly when it alone makes the authorizer allow
    the write at the implicit face, under the same ceiling.
  */
  lemma RoutesExact(r: Request, attrs: seq<string>, op: Op, entityType: string, a: string)
    requires Reported(op)
    ensures a in Routes(r, attrs, op, entityType)
            <==> a in attrs && a != EVERYONE && DecideFromAttrs(r, [a], op, entityType, IMPLICIT).allow
  {
    if PermitsVerb(r.ceiling, op, entityType) {
      CreditedMembers(r, attrs, op, entityType, a);
      SingleRoute(r, op, entityType, a);
    }
  }

  /** And the everyone report exactly when the everyone role alone does. */
  lemma EveryoneExact(r: Request, op: Op, entityType: string)
    requires Reported(op)
    ensures ClampedEveryoneGrants(r, op, entityType).granted
            <==> DecideFromAttrs(r, [EVERYONE], op, entityType, IMPLICIT).allow
  {
    if PermitsVerb(r.ceiling, op, entityType) {
      SingleRoute(r, op, entityType, EVERYONE);
      if RoleFor(r, EVERYONE).Some? {
        FirstMatchIsGrant(ListFor(RoleFor(r, EVERYONE).value, op), entityType);
      }
    }
  }

  /**
    Together the two reports say exactly whether the principal may write the
    implicit face: no false all-clear and no false denial.
  */
  lemma ReportsDecide(r: Request, attrs: seq<string>, op: Op, entityType: string)
    requires Reported(op) && EVERYONE in attrs
    ensures DecideFromAttrs(r, attrs, op, entityType, IMPLICIT).allow
            <==> Routes(r, attrs, op, entityType) != []
                 || ClampedEveryoneGrants(r, op, entityType).granted
  {
    if PermitsVerb(r.ceiling, op, entityType) {
      EveryoneExact(r, op, entityType);
      var routes := Routes(r, attrs, op, entityType);
      if routes != [] {
        RoutesExact(r, attrs, op, entityType, routes[0]);
        OneIsEnough(r, attrs, op, entityType, routes[0]);
      }
      if ClampedEveryoneGrants(r, op, entityType).granted {
        OneIsEnough(r, attrs, op, entityType, EVERYONE);
      }
      if DecideFromAttrs(r, attrs, op, entityType, IMPLICIT).allow {
        var a :| a in attrs && RoleFor(r, a).Some?
                 && GrantsVerbOnState(RoleFor(r, a).value, op, entityType, IMPLICIT);
        assert a in [a] && DecideFromAttrs(r, [a], op, entityType, IMPLICIT).allow;
        RoutesExact(r, attrs, op, entityType, a);
      }
    }
  }

  lemma OneIsEnough(r: Request, attrs: seq<string>, op: Op, entityType: string, a: string)
    requires a in attrs && DecideFromAttrs(r, [a], op, entityType, IMPLICIT).allow
    ensures DecideFromAttrs(r, attrs, op, entityType, IMPLICIT).allow
  {
  }
}
