/**
  What the layering does to the declarations of a sheet: none is lost or
  repeated, none is reordered on its side, and the unlayered ones are palettes.
*/
module CssDeclarations {

  import opened Wrappers
  import opened Text
  import opened CssLayer

  /** What encloses a declaration, outermost first. */
  datatype Frame = RuleFrame(selectors: seq<string>) | AtFrame(name: string, params: string)

  datatype Placed = Placed(path: seq<Frame>, prop: string, value: string, important: bool)

  /** A statement at-rule contributes no declaration, with or without a block. */
  function FlatNode(path: seq<Frame>, n: Node): seq<Placed>
    decreases n
  {
    match n
    case Decl(prop, value, important) => [Placed(path, prop, value, important)]
    case Comment(_) => []
    case Rule(selectors, nodes) => Flat(path + [RuleFrame(selectors)], nodes)
    case Statement(_, _) => []
    case AtRule(name, params, nodes) =>
      if IsPrelude(name) then [] else Flat(path + [AtFrame(name, params)], nodes)
  }

  function Flat(path: seq<Frame>, nodes: seq<Node>): seq<Placed>
    decreases nodes
  {
    if nodes == [] then []
    else Flat(path, nodes[..|nodes| - 1]) + FlatNode(path, nodes[|nodes| - 1])
  }

  lemma FlatSnoc(path: seq<Frame>, nodes: seq<Node>, n: Node)
    ensures Flat(path, nodes + [n]) == Flat(path, nodes) + FlatNode(path, n)
  {
    assert (nodes + [n])[..|nodes|] == nodes;
  }

  lemma FlatOne(path: seq<Frame>, n: Node)
    ensures Flat(path, [n]) == FlatNode(path, n)
  {
    assert [n] == [] + [n];
    FlatSnoc(path, [], n);
  }

  lemma {:induction false} FlatJoin(path: seq<Frame>, a: seq<Node>, b: seq<Node>)
    ensures Flat(path, a + b) == Flat(path, a) + Flat(path, b)
  {
    if b == [] {
      assert a + b == a;
    } else {
      var start, n := b[..|b| - 1], b[|b| - 1];
      assert b == start + [n];
      FlatJoin(path, a, start);
      FlatJoinOne(path, a, start, n);
    }
  }

  lemma FlatJoinOne(path: seq<Frame>, a: seq<Node>, start: seq<Node>, n: Node)
    requires Flat(path, a + start) == Flat(path, a) + Flat(path, start)
    ensures Flat(path, a + (start + [n])) == Flat(path, a) + Flat(path, start + [n])
  {
    Associates(a, start, [n]);
    FlatSnoc(path, a + start, n);
    FlatSnoc(path, start, n);
    Associates(Flat(path, a), Flat(path, start), FlatNode(path, n));
  }

  lemma Associates<T>(a: seq<T>, b: seq<T>, c: seq<T>)
    ensures (a + b) + c == a + (b + c)
  {
  }

  // ----- interleaving -----

  /** `whole` is `left` and `right` merged, each in its own order. */
  ghost predicate Interleaved<T>(left: seq<T>, right: seq<T>, whole: seq<T>)
    decreases |whole|
  {
    if whole == [] then left == [] && right == []
    else
      || (left != [] && left[|left| - 1] == whole[|whole| - 1]
          && Interleaved(left[..|left| - 1], right, whole[..|whole| - 1]))
      || (right != [] && right[|right| - 1] == whole[|whole| - 1]
          && Interleaved(left, right[..|right| - 1], whole[..|whole| - 1]))
  }

  lemma {:induction false} InterleavedJoin<T>(
    l: seq<T>, r: seq<T>, w: seq<T>, l': seq<T>, r': seq<T>, w': seq<T>)
    requires Interleaved(l, r, w) && Interleaved(l', r', w')
    ensures Interleaved(l + l', r + r', w + w')
    decreases |w'|
  {
    if w' == [] {
      assert l + l' == l && r + r' == r && w + w' == w;
    } else {
      var k := |w'| - 1;
      assert (w + w')[..|w + w'| - 1] == w + w'[..k];
      if l' != [] && l'[|l'| - 1] == w'[k] && Interleaved(l'[..|l'| - 1], r', w'[..k]) {
        InterleavedJoin(l, r, w, l'[..|l'| - 1], r', w'[..k]);
        assert (l + l')[..|l + l'| - 1] == l + l'[..|l'| - 1];
      } else {
        InterleavedJoin(l, r, w, l', r'[..|r'| - 1], w'[..k]);
        assert (r + r')[..|r + r'| - 1] == r + r'[..|r'| - 1];
      }
    }
  }

  lemma {:induction false} AllLeft<T>(w: seq<T>)
    ensures Interleaved(w, [], w) && Interleaved([], w, w)
  {
    if w != [] {
      AllLeft(w[..|w| - 1]);
    }
  }

  lemma LastCounted<T>(s: seq<T>)
    requires s != []
    ensures multiset(s) == multiset(s[..|s| - 1]) + multiset{s[|s| - 1]}
  {
    assert s == s[..|s| - 1] + [s[|s| - 1]];
  }

  lemma {:induction false} InterleavedCounts<T>(l: seq<T>, r: seq<T>, w: seq<T>)
    requires Interleaved(l, r, w)
    ensures multiset(w) == multiset(l) + multiset(r)
    decreases |w|
  {
    if w != [] {
      var k := |w| - 1;
      LastCounted(w);
      if l != [] && l[|l| - 1] == w[k] && Interleaved(l[..|l| - 1], r, w[..k]) {
        InterleavedCounts(l[..|l| - 1], r, w[..k]);
        LastCounted(l);
      } else {
        InterleavedCounts(l, r[..|r| - 1], w[..k]);
        LastCounted(r);
      }
    }
  }

  /** Nothing is lost, added or repeated. */
  lemma InterleavedMembers<T>(l: seq<T>, r: seq<T>, w: seq<T>)
    requires Interleaved(l, r, w)
    ensures multiset(w) == multiset(l) + multiset(r)
    ensures forall x :: x in w <==> x in l || x in r
  {
    InterleavedCounts(l, r, w);
    forall x ensures x in w <==> x in l || x in r {
      assert x in w <==> x in multiset(w);
      assert x in l <==> x in multiset(l);
      assert x in r <==> x in multiset(r);
    }
  }

  // ----- conservation -----

  /** One more node at the end of the whole, and of the side it went to. */
  lemma AddNode(
    path: seq<Frame>, p: seq<Node>, r: seq<Node>, w: seq<Node>, toP: seq<Node>, toR: seq<Node>, n: Node)
    requires Interleaved(Flat(path, p), Flat(path, r), Flat(path, w))
    requires Interleaved(Flat(path, toP), Flat(path, toR), FlatNode(path, n))
    ensures Interleaved(Flat(path, p + toP), Flat(path, r + toR), Flat(path, w + [n]))
  {
    FlatJoin(path, p, toP);
    FlatJoin(path, r, toR);
    FlatSnoc(path, w, n);
    InterleavedJoin(Flat(path, p), Flat(path, r), Flat(path, w),
      Flat(path, toP), Flat(path, toR), FlatNode(path, n));
  }

  lemma DeclConserves(path: seq<Frame>, n: Node)
    ensures Interleaved(Flat(path, PaletteDeclOf(n)), Flat(path, OtherOf(n)), FlatNode(path, n))
  {
    AllLeft(FlatNode(path, n));
    FlatOne(path, n);
  }

  /** A node's declarations are those of what `f` and `g` keep of it. */
  ghost predicate Splits(path: seq<Frame>, f: Node -> seq<Node>, g: Node -> seq<Node>, n: Node) {
    Interleaved(Flat(path, f(n)), Flat(path, g(n)), FlatNode(path, n))
  }

  lemma {:induction false} AllSplit(path: seq<Frame>, f: Node -> seq<Node>, g: Node -> seq<Node>, nodes: seq<Node>)
    requires forall n :: n in nodes ==> Splits(path, f, g, n)
    ensures Interleaved(Flat(path, Collected(f, nodes)), Flat(path, Collected(g, nodes)), Flat(path, nodes))
  {
    if nodes != [] {
      var start, n := nodes[..|nodes| - 1], nodes[|nodes| - 1];
      AllSplit(path, f, g, start);
      assert Splits(path, f, g, n);
      AddNode(path, Collected(f, start), Collected(g, start), start, f(n), g(n), n);
      assert start + [n] == nodes;
    }
  }

  lemma RuleConserves(path: seq<Frame>, n: Node)
    requires n.Rule? && RuleSplit(n).Some?
    ensures var s := RuleSplit(n).value;
            Interleaved(FlatNode(path, s.palette), Flat(path, OneOrNone(s.rest)), FlatNode(path, n))
  {
    var inner := path + [RuleFrame(n.selectors)];
    forall c | c in n.nodes ensures Splits(inner, PaletteDeclOf, OtherOf, c) {
      DeclConserves(inner, c);
    }
    AllSplit(inner, PaletteDeclOf, OtherOf, n.nodes);
    var s := RuleSplit(n).value;
    if s.rest.Some? {
      FlatOne(path, s.rest.value);
    }
  }

  lemma ChildConserves(path: seq<Frame>, n: Node)
    ensures Interleaved(Flat(path, PaletteOfChild(n)), Flat(path, RestOfChild(n)), FlatNode(path, n))
  {
    match ChildSplit(n) {
      case Some(s) =>
        RuleConserves(path, n);
        FlatOne(path, s.palette);
      case None =>
        AllLeft(FlatNode(path, n));
        FlatOne(path, n);
    }
  }

  lemma AtRuleConserves(path: seq<Frame>, n: Node)
    requires n.AtRule? && !IsPrelude(n.name) && AtRuleSplit(n).Some?
    ensures var s := AtRuleSplit(n).value;
            Interleaved(FlatNode(path, s.palette), Flat(path, OneOrNone(s.rest)), FlatNode(path, n))
  {
    var inner := path + [AtFrame(n.name, n.params)];
    forall c | c in n.nodes ensures Splits(inner, PaletteOfChild, RestOfChild, c) {
      ChildConserves(inner, c);
    }
    AllSplit(inner, PaletteOfChild, RestOfChild, n.nodes);
    var s := AtRuleSplit(n).value;
    if s.rest.Some? {
      FlatOne(path, s.rest.value);
    } else {
      assert Flat(inner, RestHalves(n.nodes)) == [];
    }
  }

  lemma TopConserves(n: Node)
    ensures Interleaved(Flat([], TokensOf(n)), Flat([], LayeredOf(n)), FlatNode([], n))
  {
    AllLeft(FlatNode([], n));
    if !IsPreludeNode(n) {
      match TopSplit(n) {
        case None => FlatOne([], n);
        case Some(s) =>
          FlatOne([], s.palette);
          if n.Rule? {
            RuleConserves([], n);
          } else {
            AtRuleConserves([], n);
          }
      }
    }
  }

  /**
    The unlayered and the layered declarations are the sheet's declarations,
    each exactly once and each side in the sheet's order.
  */
  lemma WrapConserves(root: seq<Node>)
    ensures Interleaved(Flat([], Tokens(root)), Flat([], Layered(root)), Flat([], root))
  {
    forall n | n in root ensures Splits([], TokensOf, LayeredOf, n) {
      TopConserves(n);
    }
    AllSplit([], TokensOf, LayeredOf, root);
  }

  // ----- which side a declaration is on -----

  predicate IsScopeFrame(f: Frame) { f.RuleFrame? && IsScopeList(f.selectors) }

  predicate IsConditionalFrame(f: Frame) { f.AtFrame? && IsConditional(f.name) }

  /** Directly in a document scope, at the top or inside one `@media` or `@supports`. */
  predicate IsPalettePath(path: seq<Frame>) {
    || (|path| == 1 && IsScopeFrame(path[0]))
    || (|path| == 2 && IsConditionalFrame(path[0]) && IsScopeFrame(path[1]))
  }

  lemma {:induction false} NodePath(path: seq<Frame>, n: Node, d: Placed)
    requires d in FlatNode(path, n)
    ensures path <= d.path
    ensures n.Rule? ==> path + [RuleFrame(n.selectors)] <= d.path
    ensures n.AtRule? ==> path + [AtFrame(n.name, n.params)] <= d.path
    ensures d.path == path ==> n == Decl(d.prop, d.value, d.important)
    decreases n
  {
    match n
    case Rule(selectors, nodes) =>
      var _ := SomeNode(path + [RuleFrame(selectors)], nodes, d);
    case AtRule(name, params, nodes) =>
      var _ := SomeNode(path + [AtFrame(name, params)], nodes, d);
    case _ =>
  }

  lemma {:induction false} SomeNode(path: seq<Frame>, nodes: seq<Node>, d: Placed) returns (n: Node)
    requires d in Flat(path, nodes)
    ensures n in nodes && d in FlatNode(path, n)
    ensures path <= d.path
    ensures d.path == path ==> n == Decl(d.prop, d.value, d.important)
    decreases nodes
  {
    var last := |nodes| - 1;
    if d in FlatNode(path, nodes[last]) {
      n := nodes[last];
      NodePath(path, n, d);
    } else {
      n := SomeNode(path, nodes[..last], d);
    }
  }

  lemma PaletteDeclsMembers(nodes: seq<Node>, n: Node)
    ensures n in PaletteDecls(nodes) <==> n in nodes && IsPaletteDecl(n)
    ensures n in OtherNodes(nodes) <==> n in nodes && !IsPaletteDecl(n) && !n.Comment?
  {
    CollectedMembers(PaletteDeclOf, nodes, n);
    CollectedMembers(OtherOf, nodes, n);
  }

  /** What is left of a child: itself, or the rest of its split. */
  predicate IsRemainder(n: Node, c: Node) {
    match ChildSplit(n) case None => c == n case Some(s) => s.rest == Some(c)
  }

  lemma NoHalves(nodes: seq<Node>, n: Node)
    requires PaletteHalves(nodes) == [] && n in nodes
    ensures ChildSplit(n).None?
  {
    match ChildSplit(n) {
      case None =>
      case Some(s) => CollectedMembers(PaletteOfChild, nodes, s.palette);
    }
  }

  lemma PalettePathOfRule(path: seq<Frame>, n: Node, d: Placed)
    requires n.Rule? && RuleSplit(n).Some? && d in FlatNode(path, RuleSplit(n).value.palette)
    ensures IsPaletteProp(d.prop) && d.path == path + [RuleFrame(n.selectors)]
    ensures IsScopeFrame(RuleFrame(n.selectors))
  {
    var c := SomeNode(path + [RuleFrame(n.selectors)], PaletteDecls(n.nodes), d);
    PaletteDeclsMembers(n.nodes, c);
  }

  lemma PalettePathOfTop(n: Node, t: Node, d: Placed)
    requires t in TokensOf(n) && d in FlatNode([], t)
    ensures IsPaletteProp(d.prop) && IsPalettePath(d.path)
  {
    if n.Rule? {
      PalettePathOfRule([], n, d);
    } else {
      var inner := [AtFrame(n.name, n.params)];
      assert [] + inner == inner;
      var p := SomeNode(inner, PaletteHalves(n.nodes), d);
      CollectedMembers(PaletteOfChild, n.nodes, p);
      var r :| r in n.nodes && p in PaletteOfChild(r);
      PalettePathOfRule(inner, r, d);
    }
  }

  /** Only the token contract is left unlayered, and only where a palette can be. */
  lemma UnlayeredIsPalette(root: seq<Node>, d: Placed)
    requires d in Flat([], Tokens(root))
    ensures IsPaletteProp(d.prop) && IsPalettePath(d.path)
  {
    var t := SomeNode([], Tokens(root), d);
    CollectedMembers(TokensOf, root, t);
    var n :| n in root && t in TokensOf(n);
    PalettePathOfTop(n, t, d);
  }

  /** A remainder sets no token directly in a document scope. */
  lemma RemainderPath(path: seq<Frame>, n: Node, c: Node, d: Placed)
    requires IsRemainder(n, c) && d in FlatNode(path, c) && IsCustom(d.prop)
    ensures |d.path| == |path| + 1 ==> !IsScopeFrame(d.path[|path|])
  {
    NodePath(path, c, d);
    if n.Rule? && |d.path| == |path| + 1 {
      var inner := path + [RuleFrame(n.selectors)];
      assert d.path == inner;
      var k := SomeNode(inner, c.nodes, d);
      assert IsToken(k);
      if RuleSplit(n).Some? {
        PaletteDeclsMembers(n.nodes, k);
      } else {
        assert HasToken(n.nodes);
      }
    }
  }

  lemma LayeredPathOfAtRule(n: Node, c: Node, d: Placed)
    requires n.AtRule? && !IsPrelude(n.name)
    requires match AtRuleSplit(n) case None => c == n case Some(s) => s.rest == Some(c)
    requires d in FlatNode([], c) && IsCustom(d.prop)
    ensures !IsPalettePath(d.path)
  {
    NodePath([], c, d);
    var inner := [AtFrame(n.name, n.params)];
    assert [] + inner == inner;
    if |d.path| == 2 && IsConditional(n.name) {
      var k := SomeNode(inner, c.nodes, d);
      if AtRuleSplit(n).Some? {
        CollectedMembers(RestOfChild, n.nodes, k);
        var o :| o in n.nodes && k in RestOfChild(o);
        RemainderPath(inner, o, k, d);
      } else {
        NoHalves(n.nodes, k);
        RemainderPath(inner, k, k, d);
      }
    }
  }

  lemma LayeredPathOfTop(n: Node, c: Node, d: Placed)
    requires c in LayeredOf(n) && d in FlatNode([], c) && IsCustom(d.prop)
    ensures !IsPalettePath(d.path)
  {
    if n.AtRule? {
      LayeredPathOfAtRule(n, c, d);
    } else {
      RemainderPath([], n, c, d);
      NodePath([], c, d);
    }
  }

  /** No token that sits where a palette can be is layered. */
  lemma LayeredHasNoPaletteToken(root: seq<Node>, d: Placed)
    requires d in Flat([], Layered(root)) && IsCustom(d.prop)
    ensures !IsPalettePath(d.path)
  {
    var c := SomeNode([], Layered(root), d);
    CollectedMembers(LayeredOf, root, c);
    var n :| n in root && c in LayeredOf(n);
    LayeredPathOfTop(n, c, d);
  }

  /** Whether a token leaves the layer is decided by what encloses it. */
  lemma TokenSideExactly(root: seq<Node>, d: Placed)
    requires d in Flat([], root) && IsCustom(d.prop)
    ensures d in Flat([], Tokens(root)) <==> IsPalettePath(d.path)
    ensures d in Flat([], Layered(root)) <==> !IsPalettePath(d.path)
  {
    WrapConserves(root);
    InterleavedMembers(Flat([], Tokens(root)), Flat([], Layered(root)), Flat([], root));
    if d in Flat([], Tokens(root)) {
      UnlayeredIsPalette(root, d);
    }
    if d in Flat([], Layered(root)) {
      LayeredHasNoPaletteToken(root, d);
    }
  }
}
