/** A ceiling never grants, and where it permits it changes no decision. */
module AuthorizeLaws {

  import opened Wrappers
  import opened Text
  import opened Grants
  import opened Ceiling
  import opened CeilingLaws
  import opened CeilingValidation
  import opened Authorize

  // ----- what a loaded policy gives every request -----

  predicate SoundCeiling(c: CompiledCeiling) {
    Sound(c.read) && Sound(c.create) && Sound(c.update) && Sound(c.delete)
  }

  predicate ValidRoles(p: Policy) { forall n :: n in p.roles ==> ValidRole(p.roles[n]) }

  /** A request of an accepted policy: sound ceiling axes, face-free family grants. */
  predicate Loaded(r: Request) {
    && (r.ceiling.active ==> SoundCeiling(r.ceiling) && ExceptsListed(r.ceiling.permissions))
    && ValidRoles(r.policy)
  }

  lemma TypeOnlyRequests(q: Policy, baseline: Option<string>, scopes: seq<string>, globals: seq<string>)
    requires TypeOnlyBlocks(q) && ValidRoles(q) && (baseline.Some? ==> baseline.value in q.baselines)
    ensures Loaded(Request(q, CeilingOf(q, baseline, scopes), globals))
  {
    if baseline.Some? {
      AxisSound(q, baseline.value, scopes, OnRead);
      AxisSound(q, baseline.value, scopes, OnCreate);
      AxisSound(q, baseline.value, scopes, OnUpdate);
      AxisSound(q, baseline.value, scopes, OnDelete);
      CompiledExceptsListed(q, baseline.value, scopes, OnPermissions);
    }
  }

  /** Every request that ForIdentity opens on an accepted policy that names no abstract type. */
  lemma OpenedRequestsAreLoaded(
    p: Policy, baseline: Option<string>, scopes: seq<string>, globals: seq<string>)
    requires ValidClients(p) && (baseline.Some? ==> baseline.value in p.baselines)
    requires ValidRoles(p)
    ensures var q := ExpandedPolicy(p);
            Loaded(Request(q, CeilingOf(q, baseline, scopes), globals))
  {
    AcceptedTypeOnly(p);
    TypeOnlyRequests(ExpandedPolicy(p), baseline, scopes, globals);
  }

  /** The same request by an interactive user: no ceiling. */
  function Unlimited(r: Request): Request { r.(ceiling := INACTIVE) }

  // ----- entity writes: exact intersection -----

  lemma RoleExact(c: CompiledCeiling, role: RoleDef, op: Op, target: string, face: Face)
    requires (c.active ==> SoundCeiling(c)) && ValidRole(role) && PermitsVerb(c, op, target)
    ensures GrantsVerbOnState(Clamp(c, role), op, target, face)
            <==> GrantsVerbOnState(role, op, target, face)
  {
    if c.active {
      match op
      case Create => ExactOnFace(role.create, c.create, target, face);
      case Update => ExactOnFace(role.update, c.update, target, face);
      case Delete => ExactOnFace(role.delete, c.delete, target, face);
      case Rename =>
        ExactOnFace(role.update, c.update, target, face);
        ExactOnType(role.rename, c.update, target);
      case Convert => ExactOnConvert(role.convert, c.update, c.delete, target);
    }
  }

  /**
    Exact intersection on one entity face: allowed iff the ceiling permits the
    verb on the type and the user's own roles allow it.
  */
  lemma EntityWriteExact(r: Request, attrs: seq<string>, op: Op, target: string, face: Face)
    requires Loaded(r)
    ensures DecideFromAttrs(r, attrs, op, target, face).allow
            <==> PermitsVerb(r.ceiling, op, target)
                 && DecideFromAttrs(Unlimited(r), attrs, op, target, face).allow
  {
    var u := Unlimited(r);
    if PermitsVerb(r.ceiling, op, target) {
      forall a | a in attrs && a in r.policy.roles
        ensures GrantsVerbOnState(RoleFor(r, a).value, op, target, face)
                <==> GrantsVerbOnState(RoleFor(u, a).value, op, target, face)
      {
        RoleExact(r.ceiling, r.policy.roles[a], op, target, face);
      }
    }
  }

  /** The same for a whole family: a conversion also needs its destination. */
  lemma FamilyWriteExact(r: Request, attrs: seq<string>, op: Op, target: string, convertTo: string)
    requires Loaded(r)
    ensures DecideFamily(r, attrs, op, target, convertTo).allow
            <==> PermitsVerb(r.ceiling, op, target)
                 && (op == Convert ==> PermitsDestination(r.ceiling, convertTo))
                 && DecideFamily(Unlimited(r), attrs, op, target, convertTo).allow
  {
    var u := Unlimited(r);
    if PermitsVerb(r.ceiling, op, target) && r.ceiling.active {
      var c := r.ceiling;
      forall a | a in attrs && a in r.policy.roles
        ensures op == Rename ==>
          (NamesType(RoleFor(r, a).value.rename, target) <==> NamesType(RoleFor(u, a).value.rename, target))
        ensures op == Convert ==>
          (NamesType(RoleFor(r, a).value.convert, target) <==> NamesType(RoleFor(u, a).value.convert, target))
      {
        var role := r.policy.roles[a];
        if op == Rename {
          ExactOnType(role.rename, c.update, target);
        } else if op == Convert {
          ExactOnConvert(role.convert, c.update, c.delete, target);
        }
      }
    }
  }

  // ----- relation writes -----

  /** Loading does not rule out a role whose "*" the ceiling would turn into names. */
  predicate NoSwap(r: Request) {
    r.ceiling.active ==>
      forall n :: n in r.policy.roles ==>
        SwapAddsNothing(r.policy.roles[n].permissions, r.ceiling.permissions)
  }

  lemma PermissionNeverGrants(r: Request, attrs: seq<string>, perm: string)
    requires NoSwap(r) && GrantsPermission(r, attrs, perm)
    ensures GrantsPermission(Unlimited(r), attrs, perm)
  {
    var u := Unlimited(r);
    var a :| a in attrs && RoleFor(r, a).Some? && perm in RoleFor(r, a).value.permissions;
    if r.ceiling.active {
      PermissionNeverAddedExactly(r.policy.roles[a].permissions, r.ceiling.permissions);
    }
    assert RoleFor(u, a).Some? && perm in RoleFor(u, a).value.permissions;
  }

  /**
    For one policy and ceiling: no permission check is ever won by the ceiling
    exactly when no role's "*" is swapped for a name the role does not hold.
  */
  lemma PermissionNeverGrantsExactly(policy: Policy, c: CompiledCeiling)
    ensures (forall globals, attrs, perm ::
              GrantsPermission(Request(policy, c, globals), attrs, perm) ==>
                GrantsPermission(Unlimited(Request(policy, c, globals)), attrs, perm))
            <==> NoSwap(Request(policy, c, []))
  {
    var r := Request(policy, c, []);
    if NoSwap(r) {
      forall globals, attrs, perm | GrantsPermission(Request(policy, c, globals), attrs, perm)
        ensures GrantsPermission(Unlimited(Request(policy, c, globals)), attrs, perm)
      {
        PermissionNeverGrants(Request(policy, c, globals), attrs, perm);
      }
    } else {
      var n :| n in policy.roles && !SwapAddsNothing(policy.roles[n].permissions, c.permissions);
      var names := policy.roles[n].permissions;
      PermissionNeverAddedExactly(names, c.permissions);
      var perm :| PermitsName(c.permissions, perm)
                  && perm in FilteredPermissions(names, c.permissions) && perm !in names;
      assert n in [n] && RoleFor(r, n).Some?;
      assert GrantsPermission(r, [n], perm) && !GrantsPermission(Unlimited(r), [n], perm);
    }
  }

  lemma {:induction false} FacesNeverGrant(r: Request, op: Op, fromType: string, faces: seq<Face>)
    requires Loaded(r) && DecideFaces(r, op, fromType, faces).allow
    ensures DecideFaces(Unlimited(r), op, fromType, faces).allow
  {
    EntityWriteExact(r, r.globals, op, fromType, faces[0]);
    if |faces| > 1 {
      FacesNeverGrant(r, op, fromType, faces[1..]);
    }
  }

  /** A family-level edge needs the verb on every face its type declares. */
  lemma {:induction false} EveryFace(r: Request, op: Op, fromType: string, faces: seq<Face>)
    requires faces != []
    ensures DecideFaces(r, op, fromType, faces).allow
            <==> forall f :: f in faces ==> DecideFromAttrs(r, r.globals, op, fromType, f).allow
  {
    if |faces| > 1 {
      EveryFace(r, op, fromType, faces[1..]);
      assert forall f :: f in faces <==> f == faces[0] || f in faces[1..];
    }
  }

  /** The permission a delegate gate asks for, if the relation has one. */
  function GateOf(p: Policy, relType: string): Option<string> {
    if relType in p.requiresPermission && p.requiresPermission[relType] != ""
    then Some(p.requiresPermission[relType]) else None
  }

  predicate Granted(r: Request, perm: Option<string>) {
    perm.Some? && GrantsPermission(r, r.globals, perm.value)
  }

  /** The principal's roles grant the verb on every face the edge belongs to. */
  predicate VerbOnEveryFace(r: Request, op: Op, s: Subject)
    requires s.RelationSubject?
  {
    forall f :: f in (if |s.familyFaces| > 0 then s.familyFaces else [s.fromFace]) ==>
      SomeRoleGrants(r, r.globals, op, s.fromType, f)
  }

  /**
    The exact meaning of a relation write under a ceiling. Both the delegate
    gate and the ceiling must pass; then either a relation grant that reaches no
    face the principal cannot update, or the verb on every face.
  */
  lemma RelationWriteMeaning(r: Request, op: Op, s: Subject)
    requires s.RelationSubject?
    ensures AuthorizeRelation(r, op, s).allow <==>
      && (GateOf(r.policy, s.relType).Some? ==> Granted(r, GateOf(r.policy, s.relType)))
      && PermitsVerb(r.ceiling, op, s.fromType)
      && (|| (s.fromType != "" && Granted(r, RelationPermission(r.policy, s.relType, op))
              && CanUpdateTail(r, s.fromType, s.fromFace))
          || VerbOnEveryFace(r, op, s))
  {
    EveryFace(r, op, s.fromType, if |s.familyFaces| > 0 then s.familyFaces else [s.fromFace]);
  }

  // ----- what the swap of a "*" opens -----

  /**
    The ceiling alone gives the permission: some held role says "*", the
    allowlist names it, and no held role does.
  */
  predicate SwapGrants(r: Request, attrs: seq<string>, perm: string) {
    && r.ceiling.active && perm != CONFIG_EDIT
    && r.ceiling.permissions.allow.Some? && perm in r.ceiling.permissions.allow.value
    && (exists a :: a in attrs && a in r.policy.roles && "*" in r.policy.roles[a].permissions)
    && (forall a :: a in attrs && a in r.policy.roles ==> perm !in r.policy.roles[a].permissions)
  }

  lemma SwapGrantsExactly(r: Request, attrs: seq<string>, perm: string)
    ensures GrantsPermission(r, attrs, perm) && !GrantsPermission(Unlimited(r), attrs, perm)
            <==> SwapGrants(r, attrs, perm)
  {
    var u, c := Unlimited(r), r.ceiling;
    if r.ceiling.active && PermitsName(c.permissions, perm) {
      forall a | a in attrs && a in r.policy.roles
        ensures perm in RoleFor(r, a).value.permissions
                <==> if SwapsWildcard(r.policy.roles[a].permissions, c.permissions)
                     then perm in c.permissions.allow.value else perm in r.policy.roles[a].permissions
      {
        FilteredPermission(r.policy.roles[a].permissions, c.permissions, perm);
      }
    }
    forall a | a in attrs && a in r.policy.roles
      ensures RoleFor(u, a).value.permissions == r.policy.roles[a].permissions
    {
    }
    if SwapGrants(r, attrs, perm) {
      var a :| a in attrs && a in r.policy.roles && "*" in r.policy.roles[a].permissions;
      assert RoleFor(r, a).Some? && perm in RoleFor(r, a).value.permissions;
    }
  }

  predicate OpenedBySwap(r: Request, perm: Option<string>) {
    perm.Some? && SwapGrants(r, r.globals, perm.value)
  }

  /** Whether a relation write that the ceiling allows is one it opened itself. */
  predicate RelationOpened(r: Request, op: Op, s: Subject)
    requires s.RelationSubject?
  {
    || OpenedBySwap(r, GateOf(r.policy, s.relType))
    || (OpenedBySwap(r, RelationPermission(r.policy, s.relType, op)) && !VerbOnEveryFace(r, op, s))
  }

  lemma FacesAgree(r: Request, op: Op, s: Subject)
    requires Loaded(r) && s.RelationSubject? && PermitsVerb(r.ceiling, op, s.fromType)
    ensures VerbOnEveryFace(r, op, s) <==> VerbOnEveryFace(Unlimited(r), op, s)
  {
    forall f ensures SomeRoleGrants(r, r.globals, op, s.fromType, f)
                     <==> SomeRoleGrants(Unlimited(r), r.globals, op, s.fromType, f)
    {
      EntityWriteExact(r, r.globals, op, s.fromType, f);
    }
  }

  /** A relation write allowed under the ceiling is allowed without it unless the swap opened it. */
  lemma RelationNeverGrantsExactly(r: Request, op: Op, s: Subject)
    requires s.RelationSubject? && Loaded(r) && AuthorizeRelation(r, op, s).allow
    ensures AuthorizeRelation(Unlimited(r), op, s).allow <==> !RelationOpened(r, op, s)
  {
    RelationWriteMeaning(r, op, s);
    RelationWriteMeaning(Unlimited(r), op, s);
    FacesAgree(r, op, s);
    EntityWriteExact(r, r.globals, Update, s.fromType, s.fromFace);
    match GateOf(r.policy, s.relType) {
      case None =>
      case Some(gate) => SwapGrantsExactly(r, r.globals, gate);
    }
    match RelationPermission(r.policy, s.relType, op) {
      case None =>
      case Some(perm) => SwapGrantsExactly(r, r.globals, perm);
    }
  }

  /**
    A ceiling never grants: every write it allows, the same user without it is
    allowed too, on entities, families, renames and conversions, and on exactly
    the relations that the swap of a held "*" did not open.
  */
  lemma CeilingNeverGrants(r: Request, op: Op, s: Subject)
    requires Loaded(r) && AuthorizeWrite(r, op, s).allow
    ensures AuthorizeWrite(Unlimited(r), op, s).allow
            <==> (s.RelationSubject? ==> !RelationOpened(r, op, s))
  {
    match s
    case EntitySubject(typ, face, family, convertTo, attrs) =>
      FamilyWriteExact(r, attrs, op, typ, convertTo);
      EntityWriteExact(r, attrs, op, typ, face);
    case RelationSubject(_, _, _, _) => RelationNeverGrantsExactly(r, op, s);
  }

  // ----- what the swap of a "*" drops -----

  /** The principal's own roles grant the permission, and the ceiling permits it. */
  predicate GrantedWithin(r: Request, perm: Option<string>) {
    perm.Some? && PermitsPermission(r.ceiling, perm.value) && GrantsPermission(Unlimited(r), r.globals, perm.value)
  }

  /**
    The ceiling passes every permission, and the principal loses this one: each
    held role that names it also says "*", and the allowlist does not name it.
  */
  predicate DroppedBySwap(r: Request, perm: Option<string>) {
    && perm.Some? && r.ceiling.active && perm.value != CONFIG_EDIT
    && r.ceiling.permissions.allow.Some?
    && "*" in r.ceiling.permissions.allow.value && perm.value !in r.ceiling.permissions.allow.value
    && (exists a :: a in r.globals && a in r.policy.roles && perm.value in r.policy.roles[a].permissions)
    && (forall a :: a in r.globals && a in r.policy.roles && perm.value in r.policy.roles[a].permissions ==>
          "*" in r.policy.roles[a].permissions)
  }

  /** What a clamped role grants of a permission the ceiling passes. */
  lemma ClampedPermission(r: Request, a: string, perm: string)
    requires a in r.policy.roles && PermitsPermission(r.ceiling, perm)
    ensures perm in RoleFor(r, a).value.permissions
            <==> if r.ceiling.active && SwapsWildcard(r.policy.roles[a].permissions, r.ceiling.permissions)
                 then perm in r.ceiling.permissions.allow.value else perm in r.policy.roles[a].permissions
    ensures perm in RoleFor(Unlimited(r), a).value.permissions <==> perm in r.policy.roles[a].permissions
  {
    if r.ceiling.active {
      FilteredPermission(r.policy.roles[a].permissions, r.ceiling.permissions, perm);
    }
  }

  /** A permission check is the exact intersection of ceiling and roles unless the swap opens or drops it. */
  lemma PermissionWithinExactly(r: Request, perm: Option<string>)
    requires Loaded(r)
    ensures Granted(r, perm) && !GrantedWithin(r, perm) <==> OpenedBySwap(r, perm)
    ensures GrantedWithin(r, perm) && !Granted(r, perm) <==> DroppedBySwap(r, perm)
  {
    if perm.Some? {
      SwapGrantsExactly(r, r.globals, perm.value);
      DroppedExactly(r, perm.value);
    }
  }

  lemma DroppedExactly(r: Request, perm: string)
    requires Loaded(r)
    ensures GrantedWithin(r, Some(perm)) && !Granted(r, Some(perm)) <==> DroppedBySwap(r, Some(perm))
  {
    if PermitsPermission(r.ceiling, perm) {
      forall a | a in r.globals && a in r.policy.roles
        ensures perm in RoleFor(r, a).value.permissions
                <==> if r.ceiling.active && SwapsWildcard(r.policy.roles[a].permissions, r.ceiling.permissions)
                     then perm in r.ceiling.permissions.allow.value else perm in r.policy.roles[a].permissions
        ensures perm in RoleFor(Unlimited(r), a).value.permissions <==> perm in r.policy.roles[a].permissions
      {
        ClampedPermission(r, a, perm);
      }
      if a :| a in r.globals && a in r.policy.roles && perm in r.policy.roles[a].permissions {
        assert RoleFor(r, a).Some? && RoleFor(Unlimited(r), a).Some?;
      }
    }
  }

  /**
    user_grants ∩ ceiling on a relation write: the principal's own roles carry it
    by the delegate gate and one of the two routes, and the ceiling permits every
    permission and verb used.
  */
  predicate RelationWithin(r: Request, op: Op, s: Subject)
    requires s.RelationSubject?
  {
    && (GateOf(r.policy, s.relType).Some? ==> GrantedWithin(r, GateOf(r.policy, s.relType)))
    && PermitsVerb(r.ceiling, op, s.fromType)
    && (|| (s.fromType != "" && GrantedWithin(r, RelationPermission(r.policy, s.relType, op))
            && (s.fromFace == IMPLICIT || PermitsVerb(r.ceiling, Update, s.fromType))
            && CanUpdateTail(Unlimited(r), s.fromType, s.fromFace))
        || VerbOnEveryFace(Unlimited(r), op, s))
  }

  predicate RelationDropped(r: Request, op: Op, s: Subject)
    requires s.RelationSubject?
  {
    || DroppedBySwap(r, GateOf(r.policy, s.relType))
    || (DroppedBySwap(r, RelationPermission(r.policy, s.relType, op)) && !VerbOnEveryFace(r, op, s))
  }

  /** The intersection is allowed without the ceiling, and is the whole answer for a user without one. */
  lemma WithinIsOwn(r: Request, op: Op, s: Subject)
    requires s.RelationSubject?
    ensures RelationWithin(r, op, s) ==> AuthorizeRelation(Unlimited(r), op, s).allow
    ensures !r.ceiling.active ==> (RelationWithin(r, op, s) <==> AuthorizeRelation(r, op, s).allow)
  {
    RelationWriteMeaning(r, op, s);
    RelationWriteMeaning(Unlimited(r), op, s);
    if !r.ceiling.active {
      InactiveIsUnlimited(r, op, s);
    }
  }

  lemma InactiveIsUnlimited(r: Request, op: Op, s: Subject)
    requires s.RelationSubject? && !r.ceiling.active
    ensures forall perm :: Granted(r, perm) <==> GrantedWithin(r, perm)
    ensures CanUpdateTail(r, s.fromType, s.fromFace) <==> CanUpdateTail(Unlimited(r), s.fromType, s.fromFace)
    ensures VerbOnEveryFace(r, op, s) <==> VerbOnEveryFace(Unlimited(r), op, s)
  {
    assert forall a :: RoleFor(r, a) == RoleFor(Unlimited(r), a);
    forall t, f ensures SomeRoleGrants(r, r.globals, op, t, f) <==> SomeRoleGrants(Unlimited(r), r.globals, op, t, f) {
    }
  }

  /**
    A relation write is the exact intersection: an allowed one lies within it
    unless the swap opened it, and one within it is allowed unless the swap dropped it.
  */
  lemma RelationWriteExact(r: Request, op: Op, s: Subject)
    requires s.RelationSubject? && Loaded(r)
    ensures AuthorizeRelation(r, op, s).allow ==> (RelationWithin(r, op, s) <==> !RelationOpened(r, op, s))
    ensures RelationWithin(r, op, s) ==> (AuthorizeRelation(r, op, s).allow <==> !RelationDropped(r, op, s))
  {
    RelationWriteMeaning(r, op, s);
    PermissionWithinExactly(r, GateOf(r.policy, s.relType));
    PermissionWithinExactly(r, RelationPermission(r.policy, s.relType, op));
    EntityWriteExact(r, r.globals, Update, s.fromType, s.fromFace);
    if PermitsVerb(r.ceiling, op, s.fromType) {
      FacesAgree(r, op, s);
    }
  }

  // ----- one relation, over all of its writes -----

  ghost predicate NeverOpened(r: Request, op: Op, relType: string) {
    forall s: Subject :: s.RelationSubject? && s.relType == relType && AuthorizeRelation(r, op, s).allow ==>
      AuthorizeRelation(Unlimited(r), op, s).allow
  }

  /** Some type on which the ceiling and the held roles let the verb through, on some face. */
  ghost predicate VerbSomewhere(r: Request, op: Op) {
    exists t, f :: PermitsVerb(r.ceiling, op, t) && SomeRoleGrants(r, r.globals, op, t, f)
  }

  ghost predicate TypePermitted(r: Request, op: Op) {
    exists t :: t != "" && PermitsVerb(r.ceiling, op, t)
  }

  /**
    The swap opens a write of this relation: through its gate, when some write
    then goes through, or through its grant, on a type the ceiling permits.
  */
  ghost predicate SwapOpens(r: Request, op: Op, relType: string) {
    var gate, perm := GateOf(r.policy, relType), RelationPermission(r.policy, relType, op);
    && (gate.Some? ==> Granted(r, gate))
    && (|| (OpenedBySwap(r, gate) && (VerbSomewhere(r, op) || (Granted(r, perm) && TypePermitted(r, op))))
        || (OpenedBySwap(r, perm) && TypePermitted(r, op)))
  }

  /** A face no entry of these lists covers. */
  lemma UncoveredFace(lists: seq<seq<string>>, t: string) returns (f: Face)
    ensures ValidFace(f) && f != IMPLICIT
    ensures forall l :: l in lists ==> !ListCovers(l, t, f)
  {
    f := seq(LongestOf(lists) + 1, _ => 'a');
    forall l, e | l in lists && e in l ensures !EntryCovers(e, t, f) {
      ParsedType(e);
      FaceIsShorter(e);
    }
  }

  lemma FaceIsShorter(e: string)
    ensures ParseEntry(e).AtFace? ==> |ParseEntry(e).face| < |e|
  {
    var parts := Cut(e, '@');
    match parts.1
    case None =>
    case Some(rest) => assert |e| == |parts.0| + 1 + |rest|;
  }

  /** What a role's clamped list for one of the relation verbs is. */
  function VerbList(role: RoleDef, op: Op): seq<string> {
    match op
    case Create => role.create
    case Delete => role.delete
    case _ => role.update
  }

  lemma FaceNobodyGrants(r: Request, attrs: seq<string>, op: Op, t: string) returns (f: Face)
    requires op.Create? || op.Update? || op.Delete?
    ensures ValidFace(f) && !SomeRoleGrants(r, attrs, op, t, f)
  {
    var lists := seq(|attrs|, i requires 0 <= i < |attrs| =>
      if RoleFor(r, attrs[i]).Some? then VerbList(RoleFor(r, attrs[i]).value, op) else []);
    f := UncoveredFace(lists, t);
    forall a | a in attrs && RoleFor(r, a).Some?
      ensures !GrantsVerbOnState(RoleFor(r, a).value, op, t, f)
    {
      var i :| 0 <= i < |attrs| && attrs[i] == a;
      assert lists[i] in lists;
    }
  }

  /** An allowed write the ceiling opened shows that the swap can open one. */
  lemma OpenedShows(r: Request, op: Op, s: Subject)
    requires Loaded(r) && s.RelationSubject?
    requires AuthorizeRelation(r, op, s).allow && !AuthorizeRelation(Unlimited(r), op, s).allow
    ensures SwapOpens(r, op, s.relType)
  {
    RelationNeverGrantsExactly(r, op, s);
    RelationWriteMeaning(r, op, s);
    FacesAgree(r, op, s);
    if VerbOnEveryFace(r, op, s) {
      var f := if |s.familyFaces| > 0 then s.familyFaces[0] else s.fromFace;
      assert SomeRoleGrants(r, r.globals, op, s.fromType, f);
    }
  }

  lemma OpensThroughGate(r: Request, op: Op, relType: string, t: string, f: Face)
    requires Loaded(r) && OpenedBySwap(r, GateOf(r.policy, relType)) && PermitsVerb(r.ceiling, op, t)
    requires SomeRoleGrants(r, r.globals, op, t, f)
             || (t != "" && f == IMPLICIT && Granted(r, RelationPermission(r.policy, relType, op)))
    ensures !NeverOpened(r, op, relType)
  {
    var s := RelationSubject(relType, t, f, []);
    SwapGrantsExactly(r, r.globals, GateOf(r.policy, relType).value);
    RelationWriteMeaning(r, op, s);
    RelationNeverGrantsExactly(r, op, s);
  }

  lemma OpensThroughGrant(r: Request, op: Op, relType: string, t: string)
    requires Loaded(r) && t != "" && PermitsVerb(r.ceiling, op, t)
    requires OpenedBySwap(r, RelationPermission(r.policy, relType, op))
    requires GateOf(r.policy, relType).Some? ==> Granted(r, GateOf(r.policy, relType))
    ensures !NeverOpened(r, op, relType)
  {
    var f := FaceNobodyGrants(r, r.globals, op, t);
    var s := RelationSubject(relType, t, IMPLICIT, [f]);
    SwapGrantsExactly(r, r.globals, RelationPermission(r.policy, relType, op).value);
    RelationWriteMeaning(r, op, s);
    assert f in s.familyFaces && !VerbOnEveryFace(r, op, s);
    RelationNeverGrantsExactly(r, op, s);
  }

  /**
    For one principal, verb and relation: the ceiling opens no write exactly when
    the swap opens neither the gate nor the grant of that relation to it.
  */
  lemma RelationNeverOpenedExactly(r: Request, op: Op, relType: string)
    requires Loaded(r)
    ensures NeverOpened(r, op, relType) <==> !SwapOpens(r, op, relType)
  {
    if SwapOpens(r, op, relType) {
      var gate, perm := GateOf(r.policy, relType), RelationPermission(r.policy, relType, op);
      if OpenedBySwap(r, gate) && VerbSomewhere(r, op) {
        var t, f :| PermitsVerb(r.ceiling, op, t) && SomeRoleGrants(r, r.globals, op, t, f);
        OpensThroughGate(r, op, relType, t, f);
      } else {
        var t :| t != "" && PermitsVerb(r.ceiling, op, t);
        if OpenedBySwap(r, gate) && Granted(r, perm) {
          OpensThroughGate(r, op, relType, t, IMPLICIT);
        } else {
          OpensThroughGrant(r, op, relType, t);
        }
      }
    } else {
      forall s: Subject | s.RelationSubject? && s.relType == relType && AuthorizeRelation(r, op, s).allow
        ensures AuthorizeRelation(Unlimited(r), op, s).allow
      {
        if !AuthorizeRelation(Unlimited(r), op, s).allow {
          OpenedShows(r, op, s);
        }
      }
    }
  }

  ghost predicate NeverDropped(r: Request, op: Op, relType: string) {
    forall s: Subject :: s.RelationSubject? && s.relType == relType && RelationWithin(r, op, s) ==>
      AuthorizeRelation(r, op, s).allow
  }

  /** The mirror of SwapOpens: the gate or the grant is dropped on some write within the intersection. */
  ghost predicate SwapDrops(r: Request, op: Op, relType: string) {
    var gate, perm := GateOf(r.policy, relType), RelationPermission(r.policy, relType, op);
    && (gate.Some? ==> GrantedWithin(r, gate))
    && (|| (DroppedBySwap(r, gate) && (VerbSomewhere(r, op) || (GrantedWithin(r, perm) && TypePermitted(r, op))))
        || (DroppedBySwap(r, perm) && TypePermitted(r, op)))
  }

  lemma DropsThroughGate(r: Request, op: Op, relType: string, t: string, f: Face)
    requires Loaded(r) && DroppedBySwap(r, GateOf(r.policy, relType)) && PermitsVerb(r.ceiling, op, t)
    requires SomeRoleGrants(r, r.globals, op, t, f)
             || (t != "" && f == IMPLICIT && GrantedWithin(r, RelationPermission(r.policy, relType, op)))
    ensures !NeverDropped(r, op, relType)
  {
    var s := RelationSubject(relType, t, f, []);
    PermissionWithinExactly(r, GateOf(r.policy, relType));
    FacesAgree(r, op, s);
    assert RelationWithin(r, op, s);
    RelationWriteExact(r, op, s);
  }

  lemma DropsThroughGrant(r: Request, op: Op, relType: string, t: string)
    requires Loaded(r) && t != "" && PermitsVerb(r.ceiling, op, t)
    requires DroppedBySwap(r, RelationPermission(r.policy, relType, op))
    requires GateOf(r.policy, relType).Some? ==> GrantedWithin(r, GateOf(r.policy, relType))
    ensures !NeverDropped(r, op, relType)
  {
    var f := FaceNobodyGrants(r, r.globals, op, t);
    var s := RelationSubject(relType, t, IMPLICIT, [f]);
    PermissionWithinExactly(r, RelationPermission(r.policy, relType, op));
    assert RelationWithin(r, op, s);
    assert f in s.familyFaces && !VerbOnEveryFace(r, op, s);
    RelationWriteExact(r, op, s);
  }

  /** A write within the intersection that is denied shows that the swap can drop one. */
  lemma DroppedShows(r: Request, op: Op, s: Subject)
    requires Loaded(r) && s.RelationSubject? && RelationWithin(r, op, s) && !AuthorizeRelation(r, op, s).allow
    ensures SwapDrops(r, op, s.relType)
  {
    RelationWriteExact(r, op, s);
    FacesAgree(r, op, s);
    if VerbOnEveryFace(r, op, s) {
      var f := if |s.familyFaces| > 0 then s.familyFaces[0] else s.fromFace;
      assert SomeRoleGrants(r, r.globals, op, s.fromType, f);
    }
  }

  lemma RelationNeverDroppedExactly(r: Request, op: Op, relType: string)
    requires Loaded(r)
    ensures NeverDropped(r, op, relType) <==> !SwapDrops(r, op, relType)
  {
    if SwapDrops(r, op, relType) {
      var gate, perm := GateOf(r.policy, relType), RelationPermission(r.policy, relType, op);
      if DroppedBySwap(r, gate) && VerbSomewhere(r, op) {
        var t, f :| PermitsVerb(r.ceiling, op, t) && SomeRoleGrants(r, r.globals, op, t, f);
        DropsThroughGate(r, op, relType, t, f);
      } else {
        var t :| t != "" && PermitsVerb(r.ceiling, op, t);
        if DroppedBySwap(r, gate) && GrantedWithin(r, perm) {
          DropsThroughGate(r, op, relType, t, IMPLICIT);
        } else {
          DropsThroughGrant(r, op, relType, t);
        }
      }
    } else {
      forall s: Subject | s.RelationSubject? && s.relType == relType && RelationWithin(r, op, s)
        ensures AuthorizeRelation(r, op, s).allow
      {
        if !AuthorizeRelation(r, op, s).allow {
          DroppedShows(r, op, s);
        }
      }
    }
  }

  /** Every write of this relation is allowed exactly when it lies within the intersection. */
  ghost predicate ExactRelation(r: Request, op: Op, relType: string) {
    forall s: Subject :: s.RelationSubject? && s.relType == relType ==>
      (AuthorizeRelation(r, op, s).allow <==> RelationWithin(r, op, s))
  }

  /**
    user_grants ∩ ceiling holds for all writes of one relation exactly when the
    swap neither opens nor drops its gate or its grant.
  */
  lemma RelationExactly(r: Request, op: Op, relType: string)
    requires Loaded(r)
    ensures ExactRelation(r, op, relType) <==> !SwapOpens(r, op, relType) && !SwapDrops(r, op, relType)
  {
    RelationNeverOpenedExactly(r, op, relType);
    RelationNeverDroppedExactly(r, op, relType);
    forall s: Subject | s.RelationSubject? && s.relType == relType && AuthorizeRelation(r, op, s).allow
      ensures AuthorizeRelation(Unlimited(r), op, s).allow <==> RelationWithin(r, op, s)
    {
      RelationNeverGrantsExactly(r, op, s);
      RelationWriteExact(r, op, s);
    }
  }

  /** A denial names the ceiling exactly when the ceiling is what denied an entity write. */
  lemma DenialNamesTheCeiling(r: Request, attrs: seq<string>, op: Op, target: string, face: Face)
    requires Loaded(r) && !DecideFromAttrs(r, attrs, op, target, face).allow
    ensures DecideFromAttrs(r, attrs, op, target, face).kind == ClientCeiling
            <==> !PermitsVerb(r.ceiling, op, target)
    ensures DecideFromAttrs(r, attrs, op, target, face).kind == RoleGrant ==>
              !DecideFromAttrs(Unlimited(r), attrs, op, target, face).allow
  {
    EntityWriteExact(r, attrs, op, target, face);
  }

  // ----- where the two conditions are needed -----

  const NO_GRANTS: RoleDef := RoleDef([], [], [], [], [], [], [], [])

  /** The axis `[type, type@face]`, which validation refuses. */
  function Faced(typ: string, face: Face): Axis {
    Axis(Some([typ, typ + ['@'] + face]), [], [])
  }

  lemma StarBecomesFace(typ: string, face: Face)
    requires typ != "" && '@' !in typ && ValidFace(face)
    ensures ListCovers(FilteredTypes(["*"], Faced(typ, face)), typ, face)
    ensures !ListCovers(["*"], typ, face)
    ensures Permits(Faced(typ, face), typ)
  {
    var v := Faced(typ, face);
    var entry := v.allow.value[1];
    FilteredMembers(["*"], v);
    CutOf(typ, '@', face);
    assert '@' in entry && '@' !in face;
    assert "*" in ["*"] && typ in v.allow.value && entry in v.allow.value;
    assert EntryCovers(entry, typ, face);
    assert entry in FilteredTypes(["*"], v);
  }

  /**
    An allowlist may not name a face. Under `update: [page, page@draft]` a role's
    "*", which covers no named face, would be replaced by a grant on the draft.
  */
  lemma FaceFreeIsNeeded(r: Request, editor: string, typ: string, face: Face)
    requires typ != "" && '@' !in typ && ValidFace(face)
    requires r.policy.roles == map[editor := NO_GRANTS.(update := ["*"])]
    requires r.ceiling == INACTIVE.(active := true, update := Faced(typ, face))
    ensures DecideFromAttrs(r, [editor], Update, typ, face).allow
    ensures !DecideFromAttrs(Unlimited(r), [editor], Update, typ, face).allow
  {
    StarBecomesFace(typ, face);
    assert editor in [editor];
    assert RoleFor(r, editor).value.update == FilteredTypes(["*"], Faced(typ, face));
    assert RoleFor(Unlimited(r), editor).value.update == ["*"];
  }

  /** One role, one relation that asks for `perm`, and one client whose baseline lists permissions. */
  function OneClient(app: string, held: seq<string>, listed: seq<string>, relType: string, perm: string): Policy {
    Policy(map[app := NO_GRANTS.(permissions := held)],
      map[app := Baseline([app], NO_RESTRICTION.(permissions := AxisSpec(Some(listed), [])))], map[], map[],
      map[relType := RelationGrant(perm, "", "", "")], "")
  }

  /** The request that a client of this type opens with no scopes. */
  function ClientRequest(p: Policy, app: string): Request
    requires app in p.baselines
  {
    Request(ExpandedPolicy(p), CeilingOf(ExpandedPolicy(p), Some(app), []), [app])
  }

  /** Its role grants no verb, so an edge of the relation needs the permission. */
  predicate AsksPermission(
    r: Request, app: string, held: seq<string>, listed: seq<string>, relType: string, perm: string)
  {
    && Loaded(r) && r.globals == [app] && r.policy.roles == map[app := NO_GRANTS.(permissions := held)]
    && GateOf(r.policy, relType) == None && RelationPermission(r.policy, relType, Create) == Some(perm)
    && r.ceiling.active && r.ceiling.create == OPEN && r.ceiling.permissions == Axis(Some(listed), [], [])
  }

  lemma OneClientAccepted(app: string, held: seq<string>, listed: seq<string>, relType: string, perm: string)
    requires !IsBlank(app) && TrimSpace(app) == app && NoBlanks(listed) && perm != ""
    ensures var p := OneClient(app, held, listed, relType, perm);
            var r := ClientRequest(p, app);
            && ValidClients(p) && Selects(r.policy, Some(app), app)
            && AsksPermission(r, app, held, listed, relType, perm)
  {
    var p := OneClient(app, held, listed, relType, perm);
    assert ValidBaseline(app, p.baselines[app]);
    assert Trimmed([app]) == {app};
    assert ExpandedPolicy(p) == p;
    OpenedRequestsAreLoaded(p, Some(app), [], [app]);
  }

  lemma OnlyByPermission(r: Request, app: string, relType: string, perm: string, t: string)
    requires t != "" && r.globals == [app] && app in r.policy.roles
    requires r.policy.roles[app] == NO_GRANTS.(permissions := r.policy.roles[app].permissions)
    requires GateOf(r.policy, relType) == None && RelationPermission(r.policy, relType, Create) == Some(perm)
    requires PermitsVerb(r.ceiling, Create, t)
    ensures var s := RelationSubject(relType, t, IMPLICIT, []);
            && (AuthorizeRelation(r, Create, s).allow <==> Granted(r, Some(perm)))
            && (GrantedWithin(r, Some(perm)) ==> RelationWithin(r, Create, s))
  {
    var s := RelationSubject(relType, t, IMPLICIT, []);
    RelationWriteMeaning(r, Create, s);
    assert IMPLICIT in [s.fromFace] && RoleFor(r, app).value.create == [];
    assert !SomeRoleGrants(r, r.globals, Create, t, IMPLICIT);
  }

  lemma GrantedBySwap(r: Request, app: string, relType: string, perm: string, t: string)
    requires AsksPermission(r, app, ["*"], [perm], relType, perm)
    requires perm != "*" && perm != CONFIG_EDIT && t != ""
    ensures var s := RelationSubject(relType, t, IMPLICIT, []);
            AuthorizeRelation(r, Create, s).allow && !AuthorizeRelation(Unlimited(r), Create, s).allow
  {
    assert app in r.globals && "*" in ["*"] && perm in [perm];
    assert OpenedBySwap(r, Some(perm));
    SwapGrantsExactly(r, r.globals, perm);
    OnlyByPermission(r, app, relType, perm, t);
    OnlyByPermission(Unlimited(r), app, relType, perm, t);
  }

  lemma LostBySwap(r: Request, app: string, relType: string, perm: string, t: string)
    requires AsksPermission(r, app, ["*", perm], ["*"], relType, perm)
    requires perm != "*" && perm != CONFIG_EDIT && t != ""
    ensures var s := RelationSubject(relType, t, IMPLICIT, []);
            RelationWithin(r, Create, s) && !AuthorizeRelation(r, Create, s).allow
  {
    assert app in r.globals && "*" in ["*", perm] && perm in ["*", perm] && "*" in ["*"];
    assert DroppedBySwap(r, Some(perm));
    PermissionWithinExactly(r, Some(perm));
    OnlyByPermission(r, app, relType, perm, t);
  }

  /**
    A role with `permissions: ["*"]` holds no named permission, but under an
    accepted baseline that lists `perm` its holder may write an edge that needs it.
  */
  lemma CeilingCanGrantARelation(app: string, relType: string, perm: string, t: string)
    requires !IsBlank(app) && TrimSpace(app) == app && !IsBlank(perm)
    requires perm != "*" && perm != CONFIG_EDIT && t != ""
    ensures var p := OneClient(app, ["*"], [perm], relType, perm);
            var r, s := ClientRequest(p, app), RelationSubject(relType, t, IMPLICIT, []);
            && ValidClients(p) && Selects(r.policy, Some(app), app)
            && AuthorizeWrite(r, Create, s).allow && !AuthorizeWrite(Unlimited(r), Create, s).allow
  {
    OneClientAccepted(app, ["*"], [perm], relType, perm);
    GrantedBySwap(ClientRequest(OneClient(app, ["*"], [perm], relType, perm), app), app, relType, perm, t);
  }

  /**
    A role with `permissions: ["*", perm]` holds `perm`, and an accepted baseline
    `permissions: ["*"]` permits it; yet the swap leaves the role only the "*",
    and the edge its holder may write without a ceiling is denied.
  */
  lemma CeilingCanDropARelation(app: string, relType: string, perm: string, t: string)
    requires !IsBlank(app) && TrimSpace(app) == app
    requires perm != "" && perm != "*" && perm != CONFIG_EDIT && t != ""
    ensures var p := OneClient(app, ["*", perm], ["*"], relType, perm);
            var r, s := ClientRequest(p, app), RelationSubject(relType, t, IMPLICIT, []);
            && ValidClients(p) && Selects(r.policy, Some(app), app)
            && RelationWithin(r, Create, s) && !AuthorizeWrite(r, Create, s).allow
  {
    assert '*' in "*" && !IsBlank("*");
    OneClientAccepted(app, ["*", perm], ["*"], relType, perm);
    LostBySwap(ClientRequest(OneClient(app, ["*", perm], ["*"], relType, perm), app), app, relType, perm, t);
  }
}
