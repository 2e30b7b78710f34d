/**
  Abstract-type expansion (internal/acl/abstracttypes.go): every policy entry
  that names an abstract schema type is rewritten to name its variants.
*/
module AbstractTypes {

  import opened Wrappers
  import opened Text
  import opened Grants
  import opened Ceiling

  /** Each abstract type of the schema, with the variants that extend it. */
  type Schema = map<string, seq<string>>

  /**
    What the schema loader guarantees: a variant is concrete and extends one
    abstract type, and every abstract type has one. Names are plain: not empty,
    not "*", without "@".
  */
  ghost predicate WellFormed(m: Schema) {
    && (forall a :: a in m ==> PlainName(a) && m[a] != [])
    && (forall a, v :: a in m && v in m[a] ==> v !in m && PlainName(v))
    && (forall a, b, v :: a in m && b in m && v in m[a] && v in m[b] ==> a == b)
  }

  predicate PlainName(t: string) { LoadableType(t) && t != "*" }

  predicate IsVariant(m: Schema, parent: string, t: string) { parent in m && t in m[parent] }

  // ----- type lists -----

  function Suffix(entry: string): string { entry[|TypeOf(entry)|..] }

  function AppendUnique(out: seq<string>, s: string): (r: seq<string>)
    ensures forall e :: e in r <==> e in out || e == s
  {
    if s in out then out else out + [s]
  }

  function AppendVariants(out: seq<string>, variants: seq<string>, suffix: string): seq<string> {
    if variants == [] then out
    else AppendUnique(AppendVariants(out, variants[..|variants| - 1], suffix),
                      variants[|variants| - 1] + suffix)
  }

  function ExpandedList(m: Schema, list: seq<string>): seq<string> {
    if list == [] then []
    else
      var out := ExpandedList(m, list[..|list| - 1]);
      var entry := list[|list| - 1];
      if TypeOf(entry) !in m then AppendUnique(out, entry)
      else AppendVariants(out, m[TypeOf(entry)], Suffix(entry))
  }

  /** typeExpander.list keeps nil apart from empty. */
  function ExpandedAxisList(m: Schema, list: Option<seq<string>>): Option<seq<string>> {
    match list case None => None case Some(l) => Some(ExpandedList(m, l))
  }

  method ExpandList(m: Schema, list: Option<seq<string>>) returns (out: Option<seq<string>>)
    ensures out == ExpandedAxisList(m, list)
  {
    if list.None? {
      return None;
    }
    var acc: seq<string> := [];
    for i := 0 to |list.value|
      invariant acc == ExpandedList(m, list.value[..i])
    {
      assert list.value[..i + 1][..i] == list.value[..i];
      var entry := list.value[i];
      if TypeOf(entry) !in m {
        acc := AppendUnique(acc, entry);
        continue;
      }
      acc := AppendAll(acc, m[TypeOf(entry)], Suffix(entry));
    }
    assert list.value[..|list.value|] == list.value;
    return Some(acc);
  }

  /** The inner loop of list. */
  method AppendAll(start: seq<string>, variants: seq<string>, suffix: string) returns (out: seq<string>)
    ensures out == AppendVariants(start, variants, suffix)
  {
    out := start;
    for j := 0 to |variants|
      invariant out == AppendVariants(start, variants[..j], suffix)
    {
      assert variants[..j + 1][..j] == variants[..j];
      out := AppendUnique(out, variants[j] + suffix);
    }
    assert variants[..|variants|] == variants;
  }

  /** Entry `e` stands for `x` after expansion. */
  predicate StandsFor(m: Schema, e: string, x: string) {
    if TypeOf(e) !in m then x == e
    else exists v :: v in m[TypeOf(e)] && x == v + Suffix(e)
  }

  lemma {:induction false} VariantMembers(out: seq<string>, variants: seq<string>, suffix: string, x: string)
    ensures x in AppendVariants(out, variants, suffix)
            <==> x in out || exists v :: v in variants && x == v + suffix
  {
    if variants != [] {
      var last := |variants| - 1;
      VariantMembers(out, variants[..last], suffix, x);
      assert variants == variants[..last] + [variants[last]];
    }
  }

  lemma ExpandedNext(m: Schema, start: seq<string>, entry: string)
    ensures ExpandedList(m, start + [entry])
            == if TypeOf(entry) !in m then AppendUnique(ExpandedList(m, start), entry)
               else AppendVariants(ExpandedList(m, start), m[TypeOf(entry)], Suffix(entry))
  {
    assert (start + [entry])[..|start|] == start;
  }

  lemma ExpandedSnoc(m: Schema, start: seq<string>, entry: string, x: string)
    ensures x in ExpandedList(m, start + [entry]) <==> x in ExpandedList(m, start) || StandsFor(m, entry, x)
  {
    ExpandedNext(m, start, entry);
    if TypeOf(entry) in m {
      VariantMembers(ExpandedList(m, start), m[TypeOf(entry)], Suffix(entry), x);
    }
  }

  ghost predicate Stands(m: Schema, list: seq<string>, x: string) {
    exists e :: e in list && StandsFor(m, e, x)
  }

  lemma StandsNext(m: Schema, start: seq<string>, entry: string, x: string)
    ensures Stands(m, start + [entry], x) <==> Stands(m, start, x) || StandsFor(m, entry, x)
  {
    if e :| e in start && StandsFor(m, e, x) {
      assert e in start + [entry];
    }
    assert entry in start + [entry];
  }

  lemma {:induction false} ExpandedMembers(m: Schema, list: seq<string>, x: string)
    ensures x in ExpandedList(m, list) <==> Stands(m, list, x)
  {
    if list != [] {
      var start, entry := list[..|list| - 1], list[|list| - 1];
      assert list == start + [entry];
      ExpandedMembers(m, start, x);
      ExpandedSnoc(m, start, entry, x);
      StandsNext(m, start, entry, x);
    }
  }

  // ----- what an expanded list means -----

  lemma SuffixShape(e: string)
    ensures e == TypeOf(e) + Suffix(e)
    ensures Suffix(e) == "" || Suffix(e)[0] == '@'
    ensures Suffix(e) == "" <==> '@' !in e
  {
    var parts := Cut(e, '@');
    match parts.1
    case None =>
    case Some(rest) => assert Suffix(e) == ['@'] + rest;
  }

  /** A parsed entry with another type in place of its own. */
  function WithType(parsed: Entry, v: string): Entry {
    match parsed case Bare(_) => Bare(v) case AtFace(_, f) => AtFace(v, f) case Malformed => Malformed
  }

  /** Putting a variant where its abstract parent stood changes only the type. */
  lemma Retyped(e: string, v: string)
    requires PlainName(TypeOf(e)) && PlainName(v)
    ensures TypeOf(v + Suffix(e)) == v && Suffix(v + Suffix(e)) == Suffix(e)
    ensures ParseEntry(v + Suffix(e)) == WithType(ParseEntry(e), v)
  {
    SuffixShape(e);
    if Suffix(e) == "" {
      RetypedBare(TypeOf(e), v);
      assert v + Suffix(e) == v && e == TypeOf(e);
    } else {
      RetypedFace(TypeOf(e), v, Suffix(e));
    }
  }

  lemma RetypedBare(t: string, v: string)
    requires PlainName(t) && PlainName(v)
    ensures TypeOf(v) == v && Suffix(v) == "" && ParseEntry(v) == WithType(ParseEntry(t), v)
  {
  }

  lemma RetypedFace(t: string, v: string, suffix: string)
    requires PlainName(t) && PlainName(v) && suffix != "" && suffix[0] == '@'
    ensures TypeOf(v + suffix) == v && Suffix(v + suffix) == suffix
    ensures ParseEntry(v + suffix) == WithType(ParseEntry(t + suffix), v)
  {
    var rest := suffix[1..];
    assert v + suffix == v + ['@'] + rest && t + suffix == t + ['@'] + rest;
    CutOf(v, '@', rest);
    CutOf(t, '@', rest);
  }

  /** A concrete type is covered by an entry that stood for itself or its parent. */
  ghost predicate CoveredThrough(m: Schema, covers: (string, string) -> bool, list: seq<string>, t: string) {
    || (exists e :: e in list && covers(e, t))
    || (exists a, e :: IsVariant(m, a, t) && e in list && covers(e, a))
  }

  /** A way of matching entries that looks only at "*", the type and the suffix. */
  ghost predicate Typewise(covers: (string, string) -> bool) {
    && (forall e, t :: PlainName(t) && e != "*" && covers(e, t) ==> TypeOf(e) == t)
    && (forall e, v :: PlainName(TypeOf(e)) && PlainName(v) ==>
          (covers(v + Suffix(e), v) <==> covers(e, TypeOf(e))))
    && (forall s, t :: PlainName(s) && PlainName(t) ==> (covers("*", s) <==> covers("*", t)))
  }

  /** An entry of the expanded list came from the type itself or its parent. */
  lemma CoveredBefore(m: Schema, covers: (string, string) -> bool, list: seq<string>, t: string, x: string)
    requires WellFormed(m) && Typewise(covers) && PlainName(t) && t !in m
    requires x in ExpandedList(m, list) && covers(x, t)
    ensures CoveredThrough(m, covers, list, t)
  {
    StarIsPlain();
    ExpandedMembers(m, list, x);
    var e :| e in list && StandsFor(m, e, x);
    if TypeOf(e) in m {
      var v :| v in m[TypeOf(e)] && x == v + Suffix(e);
      Retyped(e, v);
      VariantLiteral(e, v);
      assert IsVariant(m, TypeOf(e), t);
    }
  }

  lemma CoveredAfter(m: Schema, covers: (string, string) -> bool, list: seq<string>, t: string, a: string, e: string)
    requires WellFormed(m) && Typewise(covers) && PlainName(t) && t !in m
    requires IsVariant(m, a, t) && e in list && covers(e, a)
    ensures exists x :: x in ExpandedList(m, list) && covers(x, t)
  {
    StarIsPlain();
    if e == "*" {
      assert covers("*", t) && StandsFor(m, "*", "*");
      ExpandedMembers(m, list, "*");
    } else {
      assert StandsFor(m, e, t + Suffix(e));
      ExpandedMembers(m, list, t + Suffix(e));
      assert covers(t + Suffix(e), t);
    }
  }

  /**
    An expanded list covers a concrete type iff the original covers the type or
    the abstract type it extends.
  */
  lemma ExpansionMeaning(m: Schema, covers: (string, string) -> bool, list: seq<string>, t: string)
    requires WellFormed(m) && Typewise(covers) && PlainName(t) && t !in m
    ensures (exists x :: x in ExpandedList(m, list) && covers(x, t))
            <==> CoveredThrough(m, covers, list, t)
  {
    if x :| x in ExpandedList(m, list) && covers(x, t) {
      CoveredBefore(m, covers, list, t, x);
    }
    if e :| e in list && covers(e, t) {
      StarIsPlain();
      assert StandsFor(m, e, e);
      ExpandedMembers(m, list, e);
    }
    if a, e :| IsVariant(m, a, t) && e in list && covers(e, a) {
      CoveredAfter(m, covers, list, t, a, e);
    }
  }

  // ----- the three readings of a list -----

  function WriteReading(face: Face): (string, string) -> bool { (e, t) => EntryCovers(e, t, face) }

  function ReadReading(face: Face): (string, string) -> bool { (e, t) => ReadEntryCovers(e, t, face) }

  function TypeReading(): (string, string) -> bool { (e, t) => e == "*" || e == t }

  lemma StarIsPlain()
    ensures TypeOf("*") == "*" && ParseEntry("*") == Bare("*") && '@' !in "*"
  {
    assert '@' !in "*";
  }

  /** An entry equals its type exactly when it has no face, before and after. */
  lemma VariantLiteral(e: string, v: string)
    requires PlainName(TypeOf(e)) && PlainName(v)
    ensures v + Suffix(e) == v <==> e == TypeOf(e)
    ensures e != "*" && v + Suffix(e) != "*"
  {
    SuffixShape(e);
    Retyped(e, v);
    StarIsPlain();
    assert |v + Suffix(e)| == |v| + |Suffix(e)| && |e| == |TypeOf(e)| + |Suffix(e)|;
    assert Suffix(e) == "" ==> v + Suffix(e) == v;
  }

  lemma WriteTypewise(face: Face)
    ensures Typewise(WriteReading(face))
  {
    forall e, t | PlainName(t) && e != "*" && EntryCovers(e, t, face) ensures TypeOf(e) == t {
      ParsedType(e);
    }
    forall e, v | PlainName(TypeOf(e)) && PlainName(v)
      ensures WriteReading(face)(v + Suffix(e), v) <==> WriteReading(face)(e, TypeOf(e))
    {
      WriteVariant(e, v, face);
    }
  }

  lemma WriteVariant(e: string, v: string, face: Face)
    requires PlainName(TypeOf(e)) && PlainName(v)
    ensures EntryCovers(v + Suffix(e), v, face) <==> EntryCovers(e, TypeOf(e), face)
  {
    VariantLiteral(e, v);
    Retyped(e, v);
    ParsedType(e);
    ParsedType(v + Suffix(e));
  }

  lemma ReadVariant(e: string, v: string, face: Face)
    requires PlainName(TypeOf(e)) && PlainName(v)
    ensures ReadEntryCovers(v + Suffix(e), v, face) <==> ReadEntryCovers(e, TypeOf(e), face)
  {
    VariantLiteral(e, v);
    Retyped(e, v);
    ParsedType(e);
  }

  lemma ReadTypewise(face: Face)
    ensures Typewise(ReadReading(face))
  {
    forall e, t | PlainName(t) && e != "*" && ReadEntryCovers(e, t, face) ensures TypeOf(e) == t {
      ParsedType(e);
    }
    forall e, v | PlainName(TypeOf(e)) && PlainName(v)
      ensures ReadReading(face)(v + Suffix(e), v) <==> ReadReading(face)(e, TypeOf(e))
    {
      ReadVariant(e, v, face);
    }
  }

  lemma TypeTypewise()
    ensures Typewise(TypeReading())
  {
    forall e, v | PlainName(TypeOf(e)) && PlainName(v)
      ensures TypeReading()(v + Suffix(e), v) <==> TypeReading()(e, TypeOf(e))
    {
      VariantLiteral(e, v);
    }
  }

  /** Write grants, on any face. */
  lemma WriteMeaning(m: Schema, list: seq<string>, t: string, face: Face)
    requires WellFormed(m) && PlainName(t) && t !in m
    ensures ListCovers(ExpandedList(m, list), t, face)
            <==> ListCovers(list, t, face)
                 || exists a :: IsVariant(m, a, t) && ListCovers(list, a, face)
  {
    WriteTypewise(face);
    ExpansionMeaning(m, WriteReading(face), list, t);
    forall l: seq<string>, x
      ensures ListCovers(l, x, face) <==> exists e :: e in l && WriteReading(face)(e, x)
    {
    }
  }

  /** Read grants, on any face. */
  lemma ReadMeaning(m: Schema, list: seq<string>, t: string, face: Face)
    requires WellFormed(m) && PlainName(t) && t !in m
    ensures GrantsReadFace(ExpandedList(m, list), t, face)
            <==> GrantsReadFace(list, t, face)
                 || exists a :: IsVariant(m, a, t) && GrantsReadFace(list, a, face)
  {
    ReadTypewise(face);
    ExpansionMeaning(m, ReadReading(face), list, t);
    forall l: seq<string>, x
      ensures GrantsReadFace(l, x, face) <==> exists e :: e in l && ReadReading(face)(e, x)
    {
    }
  }

  /** Ceiling lists and the rename and convert grants, which name types only. */
  lemma TypeListMeaning(m: Schema, list: seq<string>, t: string)
    requires WellFormed(m) && PlainName(t) && t !in m
    ensures NamesType(ExpandedList(m, list), t)
            <==> NamesType(list, t) || exists a :: IsVariant(m, a, t) && NamesType(list, a)
  {
    TypeTypewise();
    ExpansionMeaning(m, TypeReading(), list, t);
    forall l: seq<string>, x
      ensures NamesType(l, x) <==> exists e :: e in l && TypeReading()(e, x)
    {
    }
  }

  lemma FaceFreeEntry(m: Schema, e: string, x: string)
    requires WellFormed(m) && '@' !in e && StandsFor(m, e, x)
    ensures '@' !in x
  {
    if TypeOf(e) in m {
      var v :| v in m[TypeOf(e)] && x == v + Suffix(e);
      assert PlainName(v) && Suffix(e) == "";
      assert x == v;
    }
  }

  /** Lists that name no face, as validation wants them, name none after expansion. */
  lemma ExpandedFaceFree(m: Schema, list: seq<string>)
    requires WellFormed(m) && FaceFree(list)
    ensures FaceFree(ExpandedList(m, list))
  {
    forall x | x in ExpandedList(m, list) ensures '@' !in x {
      ExpandedMembers(m, list, x);
      var e :| e in list && StandsFor(m, e, x);
      FaceFreeEntry(m, e, x);
    }
  }

  // ----- expanding twice -----

  predicate Concrete(m: Schema, list: seq<string>) { forall e :: e in list ==> TypeOf(e) !in m }

  lemma {:induction false} VariantsUnique(out: seq<string>, variants: seq<string>, suffix: string)
    requires Unique(out)
    ensures Unique(AppendVariants(out, variants, suffix))
  {
    if variants != [] {
      VariantsUnique(out, variants[..|variants| - 1], suffix);
    }
  }

  lemma {:induction false} ExpandedUnique(m: Schema, list: seq<string>)
    ensures Unique(ExpandedList(m, list))
  {
    if list != [] {
      var last := |list| - 1;
      ExpandedUnique(m, list[..last]);
      if TypeOf(list[last]) in m {
        VariantsUnique(ExpandedList(m, list[..last]), m[TypeOf(list[last])], Suffix(list[last]));
      }
    }
  }

  lemma {:induction false} ExpandedConcrete(m: Schema, list: seq<string>)
    requires WellFormed(m)
    ensures Concrete(m, ExpandedList(m, list))
  {
    forall x | x in ExpandedList(m, list) ensures TypeOf(x) !in m {
      ExpandedMembers(m, list, x);
      var e :| e in list && StandsFor(m, e, x);
      if TypeOf(e) in m {
        var v :| v in m[TypeOf(e)] && x == v + Suffix(e);
        Retyped(e, v);
      }
    }
  }

  lemma {:induction false} ConcreteUnchanged(m: Schema, list: seq<string>)
    requires Concrete(m, list) && Unique(list)
    ensures ExpandedList(m, list) == list
  {
    if list != [] {
      var start, entry := list[..|list| - 1], list[|list| - 1];
      assert list == start + [entry];
      ConcreteUnchanged(m, start);
      ExpandedNext(m, start, entry);
      assert entry in list && entry !in start;
    }
  }

  /** Expanding an expanded list changes nothing, in content or in order. */
  lemma ExpandTwice(m: Schema, list: seq<string>)
    requires WellFormed(m)
    ensures ExpandedList(m, ExpandedList(m, list)) == ExpandedList(m, list)
  {
    ExpandedUnique(m, list);
    ExpandedConcrete(m, list);
    ConcreteUnchanged(m, ExpandedList(m, list));
  }
}
