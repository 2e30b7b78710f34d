/**
  Write authorization (internal/acl/authz_write.go) for one request: its policy,
  its ceiling, and its role attributions taken as a list of role names.
*/
module Authorize {

  import opened Wrappers
  import opened Grants
  import opened Ceiling

  datatype Request = Request(policy: Policy, ceiling: CompiledCeiling, globals: seq<string>)

  /** The write targets. An entity subject carries the attributions found for it. */
  datatype Subject =
    | EntitySubject(typ: string, face: Face, family: bool, convertTo: string, attrs: seq<string>)
    | RelationSubject(relType: string, fromType: string, fromFace: Face, familyFaces: seq<Face>)

  datatype RuleKind = RoleGrant | ClientCeiling | DelegatePermission | RelationGrantRule

  datatype Decision = Decision(allow: bool, kind: RuleKind)

  const DENIED: Decision := Decision(false, RoleGrant)

  /** roleFor: a declared role, narrowed to the ceiling. */
  function RoleFor(r: Request, name: string): Option<RoleDef> {
    if name in r.policy.roles then Some(Clamp(r.ceiling, r.policy.roles[name])) else None
  }

  /** grantsPermission: no wildcard in a role's permissions list. */
  predicate GrantsPermission(r: Request, attrs: seq<string>, perm: string) {
    && PermitsPermission(r.ceiling, perm)
    && exists a :: a in attrs && RoleFor(r, a).Some? && perm in RoleFor(r, a).value.permissions
  }

  /** RelationWriteGrant.permissionFor */
  function PermissionFor(g: RelationGrant, op: Op): Option<string> {
    if g.permission != "" then
      match op
      case Create => Some(g.permission)
      case Update => Some(g.permission)
      case Delete => Some(g.permission)
      case _ => None
    else
      var perm := match op
        case Create => g.create
        case Update => g.update
        case Delete => g.delete
        case _ => "";
      if perm == "" then None else Some(perm)
  }

  function RelationPermission(p: Policy, relType: string, op: Op): Option<string> {
    if relType in p.relationGrants then PermissionFor(p.relationGrants[relType], op) else None
  }

  predicate SomeRoleGrants(r: Request, attrs: seq<string>, op: Op, target: string, face: Face) {
    exists a :: a in attrs && RoleFor(r, a).Some?
      && GrantsVerbOnState(RoleFor(r, a).value, op, target, face)
  }

  /** decideFromAttrs */
  function DecideFromAttrs(
    r: Request, attrs: seq<string>, op: Op, target: string, face: Face): Decision
  {
    if !PermitsVerb(r.ceiling, op, target) then Decision(false, ClientCeiling)
    else Decision(SomeRoleGrants(r, attrs, op, target, face), RoleGrant)
  }

  predicate SomeRoleGrantsFamily(r: Request, attrs: seq<string>, op: Op, target: string) {
    exists a :: a in attrs && RoleFor(r, a).Some? &&
      match op
      case Rename => NamesType(RoleFor(r, a).value.rename, target)
      case Convert => NamesType(RoleFor(r, a).value.convert, target)
      case _ => false
  }

  /** conversionCeilingDenial permits the destination of a conversion. */
  predicate PermitsDestination(c: CompiledCeiling, convertTo: string) {
    !c.active || (convertTo != "" && PermitsVerb(c, Create, convertTo))
  }

  /** decideFamily */
  function DecideFamily(
    r: Request, attrs: seq<string>, op: Op, target: string, convertTo: string): Decision
  {
    if !PermitsVerb(r.ceiling, op, target) then Decision(false, ClientCeiling)
    else if op == Convert && !PermitsDestination(r.ceiling, convertTo) then
      Decision(false, ClientCeiling)
    else Decision(SomeRoleGrantsFamily(r, attrs, op, target), RoleGrant)
  }

  /** canUpdateTail */
  predicate CanUpdateTail(r: Request, fromType: string, fromFace: Face) {
    fromFace == IMPLICIT || DecideFromAttrs(r, r.globals, Update, fromType, fromFace).allow
  }

  /** The loop over faces: the first denial, else the last decision. */
  function DecideFaces(r: Request, op: Op, fromType: string, faces: seq<Face>): Decision {
    if faces == [] then DENIED
    else
      var d := DecideFromAttrs(r, r.globals, op, fromType, faces[0]);
      if !d.allow || |faces| == 1 then d else DecideFaces(r, op, fromType, faces[1..])
  }

  /** authorizeRelationWrite */
  function AuthorizeRelation(r: Request, op: Op, s: Subject): Decision
    requires s.RelationSubject?
  {
    var gate := if s.relType in r.policy.requiresPermission
      then r.policy.requiresPermission[s.relType] else "";
    if gate != "" && !GrantsPermission(r, r.globals, gate) then Decision(false, DelegatePermission)
    else if !PermitsVerb(r.ceiling, op, s.fromType) then Decision(false, ClientCeiling)
    else
      var perm := RelationPermission(r.policy, s.relType, op);
      if s.fromType != "" && perm.Some? && GrantsPermission(r, r.globals, perm.value)
         && CanUpdateTail(r, s.fromType, s.fromFace)
      then Decision(true, RelationGrantRule)
      else DecideFaces(r, op, s.fromType,
             if |s.familyFaces| > 0 then s.familyFaces else [s.fromFace])
  }

  /** authorizeWrite */
  function AuthorizeWrite(r: Request, op: Op, s: Subject): Decision {
    match s
    case EntitySubject(typ, face, family, convertTo, attrs) =>
      if family then DecideFamily(r, attrs, op, typ, convertTo)
      else DecideFromAttrs(r, attrs, op, typ, face)
    case RelationSubject(_, _, _, _) => AuthorizeRelation(r, op, s)
  }
}
