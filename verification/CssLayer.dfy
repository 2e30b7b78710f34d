/**
  The build step that moves rela's CSS into `@layer rela` and leaves the
  palettes outside (frontend/relaCssLayer.ts). A stylesheet is the tree postcss
  parses: a Statement is an at-rule without a block. Printing a tree and parsing
  it back gives the same tree.
*/
module CssLayer {

  import opened Wrappers
  import opened Text

  datatype Node =
    | Decl(prop: string, value: string, important: bool)
    | Comment(text: string)
    | Rule(selectors: seq<string>, nodes: seq<Node>)
    | AtRule(name: string, params: string, nodes: seq<Node>)
    | Statement(name: string, params: string)

  const RELA_LAYER := "rela"

  /** What a loop over `items` appends, item by item. */
  function Collected<S, T>(f: S -> seq<T>, items: seq<S>): seq<T> {
    if items == [] then [] else Collected(f, items[..|items| - 1]) + f(items[|items| - 1])
  }

  lemma CollectedNext<S, T>(f: S -> seq<T>, items: seq<S>, i: nat)
    requires i < |items|
    ensures Collected(f, items[..i + 1]) == Collected(f, items[..i]) + f(items[i])
  {
    assert items[..i + 1][..i] == items[..i];
  }

  lemma {:induction false} CollectedMembers<S, T>(f: S -> seq<T>, items: seq<S>, c: T)
    ensures c in Collected(f, items) <==> exists s :: s in items && c in f(s)
  {
    if items != [] {
      var start, last := items[..|items| - 1], items[|items| - 1];
      CollectedMembers(f, start, c);
      assert items == start + [last];
    }
  }

  // ----- names -----

  function LowerChar(c: char): char {
    if 'A' <= c <= 'Z' then (c as int + 32) as char else c
  }

  function Lower(s: string): string { seq(|s|, i requires 0 <= i < |s| => LowerChar(s[i])) }

  predicate IsPrelude(name: string) { Lower(name) in ["charset", "import", "namespace"] }

  predicate IsConditional(name: string) { Lower(name) in ["media", "supports"] }

  predicate IsCustom(prop: string) { "--" <= prop }

  predicate IsPaletteProp(prop: string) { IsCustom(prop) || Lower(prop) == "color-scheme" }

  // ----- document scopes -----

  predicate IsNameChar(c: char) {
    'a' <= c <= 'z' || 'A' <= c <= 'Z' || '0' <= c <= '9' || c == '_' || c == '-'
  }

  /** The end of the longest run of name characters (and dots, inside `:not`). */
  function RunEnd(s: string, i: nat, dots: bool): (end: nat)
    requires i <= |s|
    ensures i <= end <= |s|
    ensures forall k :: i <= k < end ==> IsNameChar(s[k]) || (dots && s[k] == '.')
    decreases |s| - i
  {
    if i < |s| && (IsNameChar(s[i]) || (dots && s[i] == '.')) then RunEnd(s, i + 1, dots) else i
  }

  predicate StartsAt(s: string, i: nat, prefix: string) { i <= |s| && prefix <= s[i..] }

  /** The qualifiers after the base: `.name` or `:not(…)`, to the end. */
  predicate Qualifiers(s: string, i: nat)
    requires i <= |s|
    decreases |s| - i
  {
    if i == |s| then true
    else if s[i] == '.' then
      var end := RunEnd(s, i + 1, false);
      end > i + 1 && Qualifiers(s, end)
    else if StartsAt(s, i, ":not(") then
      var end := RunEnd(s, i + 5, true);
      end > i + 5 && end < |s| && s[end] == ')' && Qualifiers(s, end + 1)
    else false
  }

  /** ^(:root|\.[\w-]+)(:not\([.\w-]+\)|\.[\w-]+)*$ */
  predicate IsDocumentScope(sel: string) {
    if ":root" <= sel then Qualifiers(sel, 5)
    else sel != "" && sel[0] == '.' && Qualifiers(sel, 0)
  }

  predicate IsScopeChar(c: char) { IsNameChar(c) || c in ".:()" }

  /** A document scope is one compound selector: no combinator, list or attribute. */
  lemma {:induction false} ScopeIsCompound(sel: string)
    requires IsDocumentScope(sel)
    ensures forall k :: 0 <= k < |sel| ==> IsScopeChar(sel[k])
  {
    if ":root" <= sel {
      assert forall k :: 0 <= k < 5 ==> sel[k] == ":root"[k];
      QualifiersAreCompound(sel, 5);
    } else {
      QualifiersAreCompound(sel, 0);
    }
  }

  lemma {:induction false} QualifiersAreCompound(s: string, i: nat)
    requires i <= |s| && Qualifiers(s, i)
    ensures forall k :: i <= k < |s| ==> IsScopeChar(s[k])
    decreases |s| - i
  {
    if i < |s| {
      if s[i] == '.' {
        QualifiersAreCompound(s, RunEnd(s, i + 1, false));
      } else {
        assert forall k :: i <= k < i + 5 ==> s[k] == s[i..][k - i] == ":not("[k - i];
        QualifiersAreCompound(s, RunEnd(s, i + 5, true) + 1);
      }
    }
  }

  // ----- splitting a rule -----

  datatype Split = Split(palette: Node, rest: Option<Node>)

  predicate IsPaletteDecl(n: Node) { n.Decl? && IsPaletteProp(n.prop) }

  predicate IsToken(n: Node) { n.Decl? && IsCustom(n.prop) }

  function PaletteDeclOf(n: Node): seq<Node> { if IsPaletteDecl(n) then [n] else [] }

  function OtherOf(n: Node): seq<Node> { if IsPaletteDecl(n) || n.Comment? then [] else [n] }

  function PaletteDecls(nodes: seq<Node>): seq<Node> { Collected(PaletteDeclOf, nodes) }

  function OtherNodes(nodes: seq<Node>): seq<Node> { Collected(OtherOf, nodes) }

  predicate HasToken(nodes: seq<Node>) { exists n :: n in nodes && IsToken(n) }

  predicate IsScopeList(selectors: seq<string>) {
    |selectors| == 1 && IsDocumentScope(TrimSpace(selectors[0]))
  }

  function RuleSplit(n: Node): Option<Split>
    requires n.Rule?
  {
    if !IsScopeList(n.selectors) || !HasToken(n.nodes) then None
    else Some(Split(
      Rule(n.selectors, PaletteDecls(n.nodes)),
      if OtherNodes(n.nodes) == [] then None else Some(Rule(n.selectors, OtherNodes(n.nodes)))))
  }

  lemma TokenNext(nodes: seq<Node>, i: nat)
    requires i < |nodes|
    ensures HasToken(nodes[..i + 1]) <==> HasToken(nodes[..i]) || IsToken(nodes[i])
  {
    assert nodes[..i + 1] == nodes[..i] + [nodes[i]];
    if n :| n in nodes[..i] && IsToken(n) {
      assert n in nodes[..i + 1];
    }
    assert nodes[i] in nodes[..i + 1];
  }

  method SplitPalette(node: Node) returns (split: Option<Split>)
    requires node.Rule?
    ensures split == RuleSplit(node)
  {
    if |node.selectors| != 1 {
      return None;
    }
    if !IsDocumentScope(TrimSpace(node.selectors[0])) {
      return None;
    }
    var palette: seq<Node>, rest: seq<Node>, sawToken := [], [], false;
    for i := 0 to |node.nodes|
      invariant palette == PaletteDecls(node.nodes[..i])
      invariant rest == OtherNodes(node.nodes[..i])
      invariant sawToken <==> HasToken(node.nodes[..i])
    {
      var child := node.nodes[i];
      CollectedNext(PaletteDeclOf, node.nodes, i);
      CollectedNext(OtherOf, node.nodes, i);
      TokenNext(node.nodes, i);
      if child.Decl? && IsPaletteProp(child.prop) {
        if IsCustom(child.prop) {
          sawToken := true;
        }
        palette := palette + [child];
      } else if !child.Comment? {
        rest := rest + [child];
      }
    }
    assert node.nodes[..|node.nodes|] == node.nodes;
    if !sawToken {
      return None;
    }
    return Some(Split(
      Rule(node.selectors, palette),
      if |rest| > 0 then Some(Rule(node.selectors, rest)) else None));
  }

  // ----- splitting a conditional at-rule -----

  function ChildSplit(n: Node): Option<Split> { if n.Rule? then RuleSplit(n) else None }

  function OneOrNone(n: Option<Node>): seq<Node> {
    match n case None => [] case Some(v) => [v]
  }

  function PaletteOfChild(n: Node): seq<Node> {
    match ChildSplit(n) case None => [] case Some(s) => [s.palette]
  }

  function RestOfChild(n: Node): seq<Node> {
    if n.Comment? then []
    else match ChildSplit(n) case None => [n] case Some(s) => OneOrNone(s.rest)
  }

  function PaletteHalves(nodes: seq<Node>): seq<Node> { Collected(PaletteOfChild, nodes) }

  function RestHalves(nodes: seq<Node>): seq<Node> { Collected(RestOfChild, nodes) }

  function AtRuleSplit(n: Node): Option<Split>
    requires n.AtRule?
  {
    if !IsConditional(n.name) || PaletteHalves(n.nodes) == [] then None
    else Some(Split(
      AtRule(n.name, n.params, PaletteHalves(n.nodes)),
      if RestHalves(n.nodes) == [] then None else Some(AtRule(n.name, n.params, RestHalves(n.nodes)))))
  }

  method SplitPaletteAtRule(node: Node) returns (split: Option<Split>)
    requires node.AtRule?
    ensures split == AtRuleSplit(node)
  {
    if !IsConditional(node.name) {
      return None;
    }
    var palette: seq<Node>, rest: seq<Node> := [], [];
    for i := 0 to |node.nodes|
      invariant palette == PaletteHalves(node.nodes[..i])
      invariant rest == RestHalves(node.nodes[..i])
    {
      var child := node.nodes[i];
      CollectedNext(PaletteOfChild, node.nodes, i);
      CollectedNext(RestOfChild, node.nodes, i);
      if child.Comment? {
        continue;
      }
      var part: Option<Split> := None;
      if child.Rule? {
        part := SplitPalette(child);
      }
      if part.Some? {
        palette := palette + [part.value.palette];
        rest := rest + OneOrNone(part.value.rest);
      } else {
        rest := rest + [child];
      }
    }
    assert node.nodes[..|node.nodes|] == node.nodes;
    if |palette| == 0 {
      return None;
    }
    return Some(Split(
      AtRule(node.name, node.params, palette),
      if |rest| > 0 then Some(AtRule(node.name, node.params, rest)) else None));
  }

  // ----- the whole sheet -----

  predicate IsPreludeNode(n: Node) { (n.AtRule? || n.Statement?) && IsPrelude(n.name) }

  /** A `@layer rela { … }` block; an order statement has no block. */
  predicate IsRelaBlock(n: Node) {
    n.AtRule? && Lower(n.name) == "layer" && TrimSpace(n.params) == RELA_LAYER
  }

  function TopSplit(n: Node): Option<Split> {
    match n
    case Rule(_, _) => RuleSplit(n)
    case AtRule(_, _, _) => AtRuleSplit(n)
    case _ => None
  }

  function PreludeOf(n: Node): seq<Node> { if IsPreludeNode(n) then [n] else [] }

  function Prelude(nodes: seq<Node>): seq<Node> { Collected(PreludeOf, nodes) }

  function TokensOf(n: Node): seq<Node> {
    if IsPreludeNode(n) then []
    else match TopSplit(n) case None => [] case Some(s) => [s.palette]
  }

  function LayeredOf(n: Node): seq<Node> {
    if IsPreludeNode(n) then []
    else match TopSplit(n) case None => [n] case Some(s) => OneOrNone(s.rest)
  }

  function Tokens(nodes: seq<Node>): seq<Node> { Collected(TokensOf, nodes) }

  function Layered(nodes: seq<Node>): seq<Node> { Collected(LayeredOf, nodes) }

  /** An at-rule nothing was appended to prints as a statement. */
  function RelaLayer(nodes: seq<Node>): Node {
    if nodes == [] then Statement("layer", RELA_LAYER) else AtRule("layer", RELA_LAYER, nodes)
  }

  function Rebuilt(root: seq<Node>): seq<Node> {
    Prelude(root) + [RelaLayer([])] + Tokens(root) + [RelaLayer(Layered(root))]
  }

  predicate IsLayered(root: seq<Node>) { exists n :: n in root && IsRelaBlock(n) }

  method WrapCss(root: seq<Node>) returns (wrapped: Option<seq<Node>>)
    ensures wrapped == if IsLayered(root) then None else Some(Rebuilt(root))
  {
    if exists n :: n in root && IsRelaBlock(n) {
      return None;
    }
    var prelude: seq<Node>, tokens: seq<Node>, layer: seq<Node> := [], [], [];
    for i := 0 to |root|
      invariant prelude == Prelude(root[..i])
      invariant tokens == Tokens(root[..i])
      invariant layer == Layered(root[..i])
    {
      var node := root[i];
      CollectedNext(PreludeOf, root, i);
      CollectedNext(TokensOf, root, i);
      CollectedNext(LayeredOf, root, i);
      if (node.AtRule? || node.Statement?) && IsPrelude(node.name) {
        prelude := prelude + [node];
        continue;
      }
      var split: Option<Split> := None;
      if node.Rule? {
        split := SplitPalette(node);
      } else if node.AtRule? {
        split := SplitPaletteAtRule(node);
      }
      if split.Some? {
        tokens := tokens + [split.value.palette];
        layer := layer + OneOrNone(split.value.rest);
      } else {
        layer := layer + [node];
      }
    }
    assert root[..|root|] == root;
    return Some(prelude + [RelaLayer([])] + tokens + [RelaLayer(layer)]);
  }
}
