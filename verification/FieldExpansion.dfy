/**
  Expansion of the type-keyed field maps of a client block, and what a client
  then may see of a type (internal/acl/abstracttypes.go:146-243 and
  Request.FieldCeilingFor in ceilingcompile.go).
*/
module FieldExpansion {

  import opened Wrappers
  import opened Text
  import opened Grants
  import opened Ceiling
  import opened CeilingLaws
  import opened AbstractTypes

  /** `keys` lists each key of the map once. */
  ghost predicate KeysOf<T>(in': map<string, T>, keys: seq<string>) {
    (forall k :: k in keys <==> k in in') && Unique(keys)
  }

  /** The keys in some order: no order changes the result, see WellFormed. */
  method ListKeys<T>(in': map<string, T>) returns (keys: seq<string>)
    ensures KeysOf(in', keys)
  {
    keys := [];
    var rest := in'.Keys;
    while rest != {}
      invariant rest <= in'.Keys && Unique(keys)
      invariant forall k :: k in keys <==> k in in' && k !in rest
      decreases |rest|
    {
      var k :| k in rest;
      keys, rest := keys + [k], rest - {k};
    }
  }

  /** The entry of abstract type `a` reaches its variant `t`. */
  predicate Inherits<T>(m: Schema, in': map<string, T>, a: string, t: string) {
    a in in' && IsVariant(m, a, t)
  }

  predicate HasAbstractKey<T>(m: Schema, in': map<string, T>) { exists k :: k in in' && k in m }

  ghost predicate ReachedKey<T>(m: Schema, in': map<string, T>, t: string) {
    (t in in' && t !in m) || exists a :: Inherits(m, in', a, t)
  }

  /** The first loop of both expanders: entries of concrete types are kept. */
  method OwnEntries<T>(m: Schema, in': map<string, T>, keys: seq<string>) returns (out: map<string, T>)
    requires KeysOf(in', keys)
    ensures out == in' - m.Keys
  {
    out := map[];
    for i := 0 to |keys|
      invariant forall t :: t in out <==> t in keys[..i] && t !in m
      invariant forall t :: t in out ==> t in in' && out[t] == in'[t]
    {
      assert forall t :: t in keys[..i + 1] <==> t in keys[..i] || t == keys[i];
      if keys[i] !in m {
        out := out[keys[i] := in'[keys[i]]];
      }
    }
    assert keys[..|keys|] == keys;
  }

  // ----- override: a variant's own entry wins -----

  ghost predicate IsOverridden<T>(m: Schema, in': map<string, T>, out: map<string, T>) {
    && (forall t :: t in out <==> ReachedKey(m, in', t))
    && (forall t :: t in out && t in in' ==> out[t] == in'[t])
    && (forall a, t :: Inherits(m, in', a, t) && t !in in' ==> t in out && out[t] == in'[a])
  }

  /** Keys done so far contribute; the variant's own entry is never replaced. */
  ghost predicate OverriddenSoFar<T>(m: Schema, in': map<string, T>, done: set<string>, out: map<string, T>) {
    && (forall t :: t in out <==>
          (t in in' && t !in m) || exists a :: a in done && Inherits(m, in', a, t))
    && (forall t :: t in out && t in in' ==> out[t] == in'[t])
    && (forall a, t :: a in done && Inherits(m, in', a, t) && t !in in' ==> t in out && out[t] == in'[a])
  }

  method ExpandOverride<T>(m: Schema, in': map<string, T>) returns (out: map<string, T>)
    requires WellFormed(m)
    ensures IsOverridden(m, in', out)
    ensures !HasAbstractKey(m, in') ==> out == in'
  {
    if !HasAbstractKey(m, in') {
      return in';
    }
    var keys := ListKeys(in');
    out := OwnEntries(m, in', keys);
    out := SpreadOverride(m, in', keys, out);
  }

  /** The second loop: each abstract key's entry goes to its variants. */
  method SpreadOverride<T>(m: Schema, in': map<string, T>, keys: seq<string>, own: map<string, T>)
    returns (out: map<string, T>)
    requires WellFormed(m) && KeysOf(in', keys) && OverriddenSoFar(m, in', {}, own)
    ensures OverriddenSoFar(m, in', in'.Keys, out)
  {
    out := own;
    ghost var done: set<string> := {};
    for i := 0 to |keys|
      invariant done == set k | k in keys[..i]
      invariant OverriddenSoFar(m, in', done, out)
    {
      assert keys[i] in in';
      out := OverrideOne(m, in', keys[i], done, out);
      done := done + {keys[i]};
      assert forall t :: t in keys[..i + 1] <==> t in keys[..i] || t == keys[i];
    }
    assert keys[..|keys|] == keys;
    assert done == in'.Keys;
  }

  /** The inner loop: one key's entry is copied to the variants without their own. */
  method OverrideOne<T>(m: Schema, in': map<string, T>, key: string, ghost done: set<string>, before: map<string, T>)
    returns (out: map<string, T>)
    requires WellFormed(m) && key in in' && OverriddenSoFar(m, in', done, before)
    ensures OverriddenSoFar(m, in', done + {key}, out)
  {
    out := before;
    var variants := if key in m then m[key] else [];
    for j := 0 to |variants|
      invariant forall t :: t in out <==> t in before || t in variants[..j]
      invariant forall t :: t in before ==> t in out && (t in in' || t !in variants[..j] ==> out[t] == before[t])
      invariant forall t :: t in variants[..j] && t !in in' ==> t in out && out[t] == in'[key]
    {
      var v := variants[j];
      assert IsVariant(m, key, v);
      assert forall t :: t in variants[..j + 1] <==> t in variants[..j] || t == v;
      if v !in in' {
        out := out[v := in'[key]];
      }
    }
    assert variants[..|variants|] == variants;
    OverriddenNext(m, in', key, done, before, out);
  }

  lemma OverriddenNext<T>(
    m: Schema, in': map<string, T>, key: string, done: set<string>, before: map<string, T>, out: map<string, T>)
    requires WellFormed(m) && key in in' && OverriddenSoFar(m, in', done, before)
    requires forall t :: t in out <==> t in before || IsVariant(m, key, t)
    requires forall t :: t in before ==> t in in' || !IsVariant(m, key, t) ==> out[t] == before[t]
    requires forall t :: IsVariant(m, key, t) && t !in in' ==> out[t] == in'[key]
    ensures OverriddenSoFar(m, in', done + {key}, out)
  {
    assert forall t :: Inherits(m, in', key, t) <==> IsVariant(m, key, t);
  }

  // ----- union: a variant gets both -----

  function Elements(list: Option<seq<string>>): seq<string> {
    match list case None => [] case Some(l) => l
  }

  predicate Lists(in': FieldLists, t: string, f: string) { t in in' && f in Elements(in'[t]) }

  ghost predicate IsUnioned(m: Schema, in': FieldLists, out: FieldLists) {
    && (forall t :: t in out <==> ReachedKey(m, in', t))
    && (forall t, f :: Lists(out, t, f) <==>
          (t !in m && Lists(in', t, f)) || exists a :: Inherits(m, in', a, t) && Lists(in', a, f))
  }

  ghost predicate UnionedSoFar(m: Schema, in': FieldLists, done: set<string>, out: FieldLists) {
    && (forall t :: t in out <==>
          (t in in' && t !in m) || exists a :: a in done && Inherits(m, in', a, t))
    && (forall t, f :: Lists(out, t, f) <==>
          (t !in m && Lists(in', t, f))
          || exists a :: a in done && Inherits(m, in', a, t) && Lists(in', a, f))
  }

  /** expandUnionStrings: own entries first, then the abstract ones, deduplicated. */
  method ExpandUnion(m: Schema, in': FieldLists) returns (out: FieldLists)
    requires WellFormed(m)
    ensures IsUnioned(m, in', out)
    ensures !HasAbstractKey(m, in') ==> out == in'
  {
    if !HasAbstractKey(m, in') {
      return in';
    }
    var keys := ListKeys(in');
    out := OwnEntries(m, in', keys);
    OwnIsUnioned(m, in');
    var united := SpreadUnion(m, in', keys, out);
    out := DedupLists(united);
    AllUnioned(m, in', united, out);
  }

  lemma OwnIsUnioned(m: Schema, in': FieldLists)
    ensures UnionedSoFar(m, in', {}, in' - m.Keys)
  {
  }

  lemma AllUnioned(m: Schema, in': FieldLists, united: FieldLists, out: FieldLists)
    requires UnionedSoFar(m, in', in'.Keys, united) && out.Keys == united.Keys
    requires forall t, f :: Lists(out, t, f) <==> Lists(united, t, f)
    ensures IsUnioned(m, in', out)
  {
  }

  method SpreadUnion(m: Schema, in': FieldLists, keys: seq<string>, own: FieldLists) returns (out: FieldLists)
    requires WellFormed(m) && KeysOf(in', keys) && UnionedSoFar(m, in', {}, own)
    ensures UnionedSoFar(m, in', in'.Keys, out)
  {
    out := own;
    ghost var done: set<string> := {};
    for i := 0 to |keys|
      invariant done == set k | k in keys[..i]
      invariant UnionedSoFar(m, in', done, out)
    {
      assert keys[i] in in';
      out := UnionOne(m, in', keys[i], done, out);
      done := done + {keys[i]};
      assert forall t :: t in keys[..i + 1] <==> t in keys[..i] || t == keys[i];
    }
    assert keys[..|keys|] == keys;
    assert done == in'.Keys;
  }

  method DedupLists(lists: FieldLists) returns (out: FieldLists)
    ensures out.Keys == lists.Keys
    ensures forall t, f :: Lists(out, t, f) <==> Lists(lists, t, f)
  {
    out := lists;
    var rest := lists.Keys;
    while rest != {}
      invariant rest <= lists.Keys && out.Keys == lists.Keys
      invariant forall t :: t in out ==>
        out[t] == if t in rest then lists[t] else Deduped(lists[t])
      decreases |rest|
    {
      var key :| key in rest;
      out := out[key := Deduped(out[key])];
      rest := rest - {key};
    }
    forall t, f ensures Lists(out, t, f) <==> Lists(lists, t, f) {
      if t in lists {
        DedupedMembers(Elements(lists[t]), f);
      }
    }
  }

  function Dedup(list: seq<string>): seq<string> {
    if list == [] then [] else AppendUnique(Dedup(list[..|list| - 1]), list[|list| - 1])
  }

  lemma {:induction false} DedupedMembers(list: seq<string>, f: string)
    ensures f in Dedup(list) <==> f in list
  {
    if list != [] {
      DedupedMembers(list[..|list| - 1], f);
      assert list == list[..|list| - 1] + [list[|list| - 1]];
    }
  }

  /** `var dedup []string` stays nil when nothing is appended. */
  function Deduped(list: Option<seq<string>>): Option<seq<string>> {
    if Elements(list) == [] then None else Some(Dedup(Elements(list)))
  }

  method UnionOne(m: Schema, in': FieldLists, key: string, ghost done: set<string>, before: FieldLists)
    returns (out: FieldLists)
    requires WellFormed(m) && key in in' && UnionedSoFar(m, in', done, before)
    ensures UnionedSoFar(m, in', done + {key}, out)
  {
    out := before;
    var variants := if key in m then m[key] else [];
    for j := 0 to |variants|
      invariant forall t :: t in out <==> t in before || t in variants[..j]
      invariant forall t, f :: Lists(out, t, f) <==>
        Lists(before, t, f) || (t in variants[..j] && Lists(in', key, f))
    {
      var v := variants[j];
      assert forall t :: t in variants[..j + 1] <==> t in variants[..j] || t == v;
      ghost var prev := out;
      var own := if v in out then Elements(out[v]) else [];
      out := out[v := Some(own + Elements(in'[key]))];
      forall t, f ensures Lists(out, t, f) <==>
        Lists(prev, t, f) || (t == v && Lists(in', key, f))
      {
      }
    }
    assert variants[..|variants|] == variants;
    assert forall t :: Inherits(m, in', key, t) <==> t in variants;
  }

  // ----- fold: a type keeps one spelling -----

  function Without(list: Option<seq<string>>, gone: seq<string>): Option<seq<string>> {
    match list case None => None case Some(l) => Some(Removed(l, gone))
  }

  function Removed(list: seq<string>, gone: seq<string>): (out: seq<string>)
    ensures forall f :: f in out <==> f in list && f !in gone
  {
    if list == [] then []
    else (if list[0] in gone then [] else [list[0]]) + Removed(list[1..], gone)
  }

  function FoldedVisible(visible: FieldLists, redact: FieldLists): FieldLists {
    map t | t in visible :: if t in redact then Without(visible[t], Elements(redact[t])) else visible[t]
  }

  function FoldedRedact(visible: FieldLists, redact: FieldLists): FieldLists {
    redact - visible.Keys
  }

  /** foldRedactIntoVisible, which edits both maps in place. */
  class FieldBlock {
    var visible: FieldLists
    var redact: FieldLists

    constructor (v: FieldLists, r: FieldLists)
      ensures visible == v && redact == r
    {
      visible, redact := v, r;
    }

    method FoldRedactIntoVisible()
      modifies this
      ensures visible == FoldedVisible(old(visible), old(redact))
      ensures redact == FoldedRedact(old(visible), old(redact))
    {
      var rest := redact.Keys;
      while rest != {}
        invariant rest <= redact.Keys
        invariant visible == FoldedVisible(old(visible), old(redact) - rest)
        invariant redact == old(redact) - (old(visible).Keys - rest)
        decreases |rest|
      {
        var typ :| typ in rest;
        FoldOne(old(visible), old(redact), rest, typ);
        if typ in visible {
          visible := visible[typ := Without(visible[typ], Elements(redact[typ]))];
          redact := redact - {typ};
        }
        rest := rest - {typ};
      }
      assert old(redact) - {} == old(redact);
      assert old(visible).Keys - {} == old(visible).Keys;
    }
  }

  lemma FoldOne(v: FieldLists, r: FieldLists, rest: set<string>, typ: string)
    requires typ in rest && typ in r
    ensures var before := FoldedVisible(v, r - rest);
            FoldedVisible(v, r - (rest - {typ}))
            == if typ in v then before[typ := Without(before[typ], Elements(r[typ]))] else before
    ensures var before := r - (v.Keys - rest);
            r - (v.Keys - (rest - {typ})) == if typ in v then before - {typ} else before
  {
  }

  // ----- a whole client block -----

  function ExpandedSpec(m: Schema, spec: AxisSpec): AxisSpec {
    AxisSpec(ExpandedAxisList(m, spec.allow), ExpandedList(m, spec.deny))
  }

  /** What typeExpander.restriction makes of one block. */
  ghost predicate IsExpanded(m: Schema, r: Restriction, out: Restriction) {
    && out.read == ExpandedSpec(m, r.read) && out.create == ExpandedSpec(m, r.create)
    && out.update == ExpandedSpec(m, r.update) && out.delete == ExpandedSpec(m, r.delete)
    && out.denyWrite == ExpandedList(m, r.denyWrite)
    && out.worlds == r.worlds && out.permissions == r.permissions
    && AreFieldsExpanded(m, r, out)
  }

  /** Each field map is expanded, and then each type keeps one spelling. */
  ghost predicate AreFieldsExpanded(m: Schema, r: Restriction, out: Restriction) {
    exists v, x ::
      IsOverridden(m, r.visible, v) && IsUnioned(m, r.redact, x)
      && out.visible == FoldedVisible(v, x) && out.redact == FoldedRedact(v, x)
  }

  /** Maps that name no abstract type and spell each type once are expanded as they are. */
  lemma FieldsAsTheyAre(m: Schema, r: Restriction)
    requires !HasAbstractKey(m, r.visible) && !HasAbstractKey(m, r.redact) && r.visible.Keys !! r.redact.Keys
    ensures AreFieldsExpanded(m, r, r)
  {
    assert IsOverridden(m, r.visible, r.visible) && IsUnioned(m, r.redact, r.redact);
    assert r.visible == FoldedVisible(r.visible, r.redact) && r.redact == FoldedRedact(r.visible, r.redact);
  }

  method ExpandSpec(m: Schema, spec: AxisSpec) returns (out: AxisSpec)
    ensures out == ExpandedSpec(m, spec)
  {
    var allow := ExpandList(m, spec.allow);
    var deny := ExpandList(m, Some(spec.deny));
    return AxisSpec(allow, deny.value);
  }

  /** typeExpander.restriction */
  method ExpandRestriction(m: Schema, r: Restriction) returns (out: Restriction)
    requires WellFormed(m)
    ensures IsExpanded(m, r, out)
  {
    var read := ExpandSpec(m, r.read);
    var create := ExpandSpec(m, r.create);
    var update := ExpandSpec(m, r.update);
    var delete := ExpandSpec(m, r.delete);
    var denyWrite := ExpandList(m, Some(r.denyWrite));
    var visible := ExpandOverride(m, r.visible);
    var redact := ExpandUnion(m, r.redact);
    var block := new FieldBlock(visible, redact);
    block.FoldRedactIntoVisible();
    out := Restriction(read, create, update, delete, denyWrite.value,
      r.worlds, r.permissions, block.visible, block.redact);
    ghost var v, x := visible, redact;
    assert IsOverridden(m, r.visible, v) && IsUnioned(m, r.redact, x)
           && out.visible == FoldedVisible(v, x) && out.redact == FoldedRedact(v, x);
  }

  // ----- what a client sees -----

  datatype FieldCeiling = FieldCeiling(visible: Option<seq<string>>, redact: seq<string>)

  predicate Constrains(c: FieldCeiling) { c.visible.Some? || |c.redact| > 0 }

  /** ceilingHidesField */
  predicate Hides(c: FieldCeiling, f: string) {
    Constrains(c) && (f in c.redact || (c.visible.Some? && f !in c.visible.value))
  }

  /** The baseline's own part of FieldCeilingFor. A nil `visible:` is no list. */
  function FieldCeilingOf(r: Restriction, t: string): FieldCeiling {
    FieldCeiling(if t in r.visible then r.visible[t] else None,
                 if t in r.redact then Elements(r.redact[t]) else [])
  }

  /** The `visible:` entry a type ends with: its own, else its abstract type's. */
  ghost predicate Declares(m: Schema, r: Restriction, t: string, list: Option<seq<string>>) {
    if t in r.visible then list == r.visible[t]
    else exists a :: Inherits(m, r.visible, a, t) && list == r.visible[a]
  }

  ghost predicate Redacts(m: Schema, r: Restriction, t: string, f: string) {
    Lists(r.redact, t, f) || exists a :: Inherits(m, r.redact, a, t) && Lists(r.redact, a, f)
  }

  /** The stated rule: omitted from the visible list, or in either redact. */
  ghost predicate RuleHides(m: Schema, r: Restriction, t: string, f: string) {
    || Redacts(m, r, t, f)
    || exists l :: Declares(m, r, t, Some(l)) && f !in l
  }

  /** Expansion leaves every type with one spelling. */
  lemma OneSpellingLeft(m: Schema, r: Restriction, out: Restriction)
    requires IsExpanded(m, r, out)
    ensures out.visible.Keys !! out.redact.Keys
  {
  }

  /**
    A field of a concrete type is hidden after expansion exactly by the stated
    rule, unless the type's visible entry is nil: then nothing is hidden.
  */
  lemma HiddenAfterExpansion(m: Schema, r: Restriction, out: Restriction, t: string, f: string)
    requires WellFormed(m) && AreFieldsExpanded(m, r, out) && t !in m
    ensures Hides(FieldCeilingOf(out, t), f)
            <==> RuleHides(m, r, t, f) && !Declares(m, r, t, None)
  {
    var v, x :| IsOverridden(m, r.visible, v) && IsUnioned(m, r.redact, x)
                && out.visible == FoldedVisible(v, x) && out.redact == FoldedRedact(v, x);
    HiddenWith(m, r, out, v, x, t, f);
  }

  lemma HiddenWith(
    m: Schema, r: Restriction, out: Restriction, v: FieldLists, x: FieldLists, t: string, f: string)
    requires WellFormed(m) && t !in m && IsOverridden(m, r.visible, v) && IsUnioned(m, r.redact, x)
    requires out.visible == FoldedVisible(v, x) && out.redact == FoldedRedact(v, x)
    ensures Hides(FieldCeilingOf(out, t), f) <==> RuleHides(m, r, t, f) && !Declares(m, r, t, None)
  {
    OverriddenEntry(m, r, v, t);
    assert Redacts(m, r, t, f) <==> Lists(x, t, f);
    FoldHides(v, x, out, t, f);
    if t in v {
      assert Declares(m, r, t, v[t]);
    }
  }

  /** The fold hides what either spelling hid, if the visible entry is a list. */
  lemma FoldHides(v: FieldLists, x: FieldLists, out: Restriction, t: string, f: string)
    requires out.visible == FoldedVisible(v, x) && out.redact == FoldedRedact(v, x)
    ensures Hides(FieldCeilingOf(out, t), f)
            <==> if t in v then v[t].Some? && (Lists(x, t, f) || f !in v[t].value) else Lists(x, t, f)
  {
  }

  lemma OverriddenEntry(m: Schema, r: Restriction, v: FieldLists, t: string)
    requires WellFormed(m) && IsOverridden(m, r.visible, v) && t !in m
    ensures forall l :: Declares(m, r, t, l) <==> t in v && v[t] == l
  {
    forall l ensures Declares(m, r, t, l) <==> t in v && v[t] == l {
      if t in v && t !in r.visible {
        var a :| Inherits(m, r.visible, a, t);
        assert v[t] == r.visible[a];
      }
    }
  }

  /**
    Expansion keeps every redaction of a type exactly when its visible entry is
    not nil or nothing of it is redacted.
  */
  lemma RedactionKeptExactly(m: Schema, r: Restriction, out: Restriction, t: string)
    requires WellFormed(m) && IsExpanded(m, r, out) && t !in m
    ensures (forall f :: Hides(FieldCeilingOf(out, t), f) <==> RuleHides(m, r, t, f))
            <==> !(Declares(m, r, t, None) && exists f :: Redacts(m, r, t, f))
  {
    forall f ensures Hides(FieldCeilingOf(out, t), f)
                     <==> RuleHides(m, r, t, f) && !Declares(m, r, t, None)
    {
      HiddenAfterExpansion(m, r, out, t, f);
    }
    if Declares(m, r, t, None) {
      assert forall l :: !Declares(m, r, t, Some(l));
      forall f ensures RuleHides(m, r, t, f) <==> Redacts(m, r, t, f) {
      }
    }
  }

  /** With `visible: {bug: }` beside `redact: {task: [salary]}` a bug's salary is shown. */
  lemma NilVisibleLosesRedaction(task: string, bug: string, salary: string, out: Restriction)
    requires WellFormed(map[task := [bug]])
    requires var r := NO_RESTRICTION.(visible := map[bug := None], redact := map[task := Some([salary])]);
             IsExpanded(map[task := [bug]], r, out)
    ensures var r := NO_RESTRICTION.(visible := map[bug := None], redact := map[task := Some([salary])]);
            RuleHides(map[task := [bug]], r, bug, salary) && !Hides(FieldCeilingOf(out, bug), salary)
  {
    var m := map[task := [bug]];
    var r := NO_RESTRICTION.(visible := map[bug := None], redact := map[task := Some([salary])]);
    assert bug in m[task];
    HiddenAfterExpansion(m, r, out, bug, salary);
    assert Inherits(m, r.redact, task, bug) && Lists(r.redact, task, salary);
  }

  // ----- scopes re-open fields -----

  function ReopenedField(c: FieldCeiling, reopened: seq<string>): FieldCeiling {
    if |reopened| == 0 then c
    else FieldCeiling(
      if c.visible.Some? then Some(c.visible.value + reopened) else None,
      if |c.redact| > 0 then Removed(c.redact, reopened) else c.redact)
  }

  function FieldsOf(g: Restriction, t: string): seq<string> {
    if t in g.visible then Elements(g.visible[t]) else []
  }

  function ReopenedFields(c: FieldCeiling, grants: seq<Restriction>, t: string): FieldCeiling {
    if grants == [] then c
    else ReopenedField(ReopenedFields(c, grants[..|grants| - 1], t), FieldsOf(grants[|grants| - 1], t))
  }

  /** FieldCeilingFor */
  method FieldCeilingFor(p: Policy, c: CompiledCeiling, scopes: seq<string>, t: string)
    returns (out: FieldCeiling)
    ensures out == if c.active then ReopenedFields(FieldCeilingOf(c.restriction, t), Matched(p, scopes), t)
                   else FieldCeiling(None, [])
  {
    if !c.active {
      return FieldCeiling(None, []);
    }
    out := FieldCeilingOf(c.restriction, t);
    for i := 0 to |scopes|
      invariant out == ReopenedFields(FieldCeilingOf(c.restriction, t), Matched(p, scopes[..i]), t)
    {
      assert scopes[..i + 1][..i] == scopes[..i];
      var s := TrimSpace(scopes[i]);
      if s !in p.scopeGrants {
        assert Matched(p, scopes[..i + 1]) == Matched(p, scopes[..i]);
        continue;
      }
      ghost var before := Matched(p, scopes[..i]);
      assert (before + [p.scopeGrants[s]])[..|before|] == before;
      var reopened := FieldsOf(p.scopeGrants[s], t);
      if |reopened| == 0 {
        continue;
      }
      if out.visible.Some? {
        out := out.(visible := Some(out.visible.value + reopened));
      }
      if |out.redact| > 0 {
        out := out.(redact := Removed(out.redact, reopened));
      }
    }
    assert scopes[..|scopes|] == scopes;
  }

  /** The scopes hide exactly what the baseline hides and no matched scope names. */
  lemma {:induction false} ScopedHiding(c: FieldCeiling, grants: seq<Restriction>, t: string, f: string)
    ensures Hides(ReopenedFields(c, grants, t), f)
            <==> Hides(c, f) && forall g :: g in grants ==> f !in FieldsOf(g, t)
  {
    if grants != [] {
      var last := |grants| - 1;
      ScopedHiding(c, grants[..last], t, f);
      assert forall g :: g in grants <==> g in grants[..last] || g == grants[last] by {
        assert grants == grants[..last] + [grants[last]];
      }
    }
  }

  /** Holding more scopes never hides a field that fewer scopes showed. */
  lemma MoreScopesHideLess(
    p: Policy, c: FieldCeiling, fewer: seq<string>, more: seq<string>, t: string, f: string)
    requires forall k :: Holds(p, fewer, k) ==> Holds(p, more, k)
    requires Hides(ReopenedFields(c, Matched(p, more), t), f)
    ensures Hides(ReopenedFields(c, Matched(p, fewer), t), f)
  {
    ScopedHiding(c, Matched(p, more), t, f);
    ScopedHiding(c, Matched(p, fewer), t, f);
    forall g | g in Matched(p, fewer) ensures f !in FieldsOf(g, t) {
      MatchedMembers(p, fewer, g);
      MatchedMembers(p, more, g);
    }
  }
}
