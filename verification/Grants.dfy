/**
  What one role grants (internal/acl/policy.go, worldgrant.go, readquery.go).

  A grant entry is "*", a bare type, or `type@face`. On a write a bare type and
  "*" cover the implicit face only; on a read they cover every face.
*/
module Grants {

  import opened Wrappers
  import opened Text

  datatype Op = Create | Update | Delete | Rename | Convert

  /** entity.Face: the empty name is the implicit face. */
  type Face = string

  const IMPLICIT: Face := ""

  datatype RoleDef = RoleDef(
    read: seq<string>, create: seq<string>, update: seq<string>, delete: seq<string>,
    rename: seq<string>, convert: seq<string>,
    permissions: seq<string>, worlds: seq<string>)

  /** An entity type name the schema loader accepts (internal/metamodel/loader.go:403-416). */
  predicate LoadableType(t: string) { t != "" && '@' !in t }

  predicate IsStateGrant(entry: string) { '@' in entry }

  /** grantTypeOf, and baseType of the abstract-type expansion. */
  function TypeOf(entry: string): (t: string)
    ensures '@' !in t
    ensures '@' !in entry ==> t == entry
  {
    Cut(entry, '@').0
  }

  /** entity.ParseFace: ^[a-z][a-z0-9]*(-[a-z0-9]+)*$ */
  predicate ValidFace(s: string) {
    && s != ""
    && 'a' <= s[0] <= 'z'
    && s[|s| - 1] != '-'
    && (forall i :: 0 <= i < |s| ==> 'a' <= s[i] <= 'z' || '0' <= s[i] <= '9' || s[i] == '-')
    && (forall i :: 0 < i < |s| && s[i] == '-' ==> s[i - 1] != '-')
  }

  datatype Entry = Bare(typ: string) | AtFace(typ: string, face: Face) | Malformed

  /** parseStateGrant */
  function ParseEntry(entry: string): Entry {
    match Cut(entry, '@')
    case (typ, None) => Bare(typ)
    case (typ, Some(face)) =>
      if '@' in face || !ValidFace(face) || typ == "" then Malformed else AtFace(typ, face)
  }

  lemma ParsedType(entry: string)
    ensures ParseEntry(entry).Bare? ==> ParseEntry(entry).typ == entry == TypeOf(entry)
    ensures ParseEntry(entry).AtFace? ==> ParseEntry(entry).typ == TypeOf(entry)
    ensures ParseEntry(entry).Bare? <==> !IsStateGrant(entry)
    ensures ParseEntry(entry).AtFace? ==> ParseEntry(entry).face != IMPLICIT
  {
  }

  /** One entry of a create, update or delete list, on one face. */
  predicate EntryCovers(entry: string, target: string, face: Face) {
    if entry == "*" then face == IMPLICIT
    else match ParseEntry(entry)
      case Bare(t) => t == target && face == IMPLICIT
      case AtFace(t, f) => t == target && f == face
      case Malformed => false
  }

  predicate ListCovers(list: seq<string>, target: string, face: Face) {
    exists e :: e in list && EntryCovers(e, target, face)
  }

  /** matchesTypeList, and what grantsFamilyRename and grantsFamilyConvert ask of their lists. */
  predicate NamesType(list: seq<string>, target: string) { "*" in list || target in list }

  /** GrantsVerbOnState: the face-granular write check. */
  predicate GrantsVerbOnState(role: RoleDef, op: Op, target: string, face: Face) {
    match op
    case Create => ListCovers(role.create, target, face)
    case Convert => face == IMPLICIT && NamesType(role.convert, target)
    case Update => ListCovers(role.update, target, face)
    case Rename =>
      (face == IMPLICIT && NamesType(role.rename, target)) || ListCovers(role.update, target, face)
    case Delete => ListCovers(role.delete, target, face)
  }

  /** grantsVerb: the type-granular question, which skips `type@face` entries. */
  predicate GrantsVerb(role: RoleDef, op: Op, target: string) {
    var list := match op
      case Create => role.create
      case Convert => role.convert
      case Update => role.update
      case Rename => role.update
      case Delete => role.delete;
    exists e :: e in list && !IsStateGrant(e) && (e == "*" || e == target)
  }

  /** roleReadFaces: one read entry, on one face. */
  predicate ReadEntryCovers(entry: string, target: string, face: Face) {
    || entry == "*" || entry == target
    || ParseEntry(entry) == AtFace(target, face)
  }

  predicate GrantsReadFace(list: seq<string>, target: string, face: Face) {
    exists e :: e in list && ReadEntryCovers(e, target, face)
  }

  /** What Policy.Validate refuses in a rename or convert list. */
  predicate FaceFree(list: seq<string>) { forall e :: e in list ==> '@' !in e }

  predicate ValidRole(role: RoleDef) { FaceFree(role.rename) && FaceFree(role.convert) }
}
