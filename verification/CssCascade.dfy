/**
  What the layering does to the cascade: which declaration wins for an element,
  before and after, and against CSS that an operator leaves unlayered.
*/
module CssCascade {

  import opened Wrappers
  import opened Text
  import opened CssLayer
  import opened CssDeclarations

  /** A declaration, and whether it sits inside the `@layer rela` block. */
  datatype Candidate = Candidate(layered: bool, d: Placed)

  /**
    One element and one property. `sets` says that a declaration applies to the
    element and sets the property; specificity and the order of the sheet's own
    layers depend on what encloses the declaration.
  */
  datatype Env = Env(
    sets: Placed -> bool, specificity: seq<Frame> -> int, layerOrder: seq<Frame> -> int)

  /** Origin order of section 6.1 of CSS Cascading and Inheritance Level 5. */
  predicate Outranks(env: Env, a: Candidate, b: Candidate) {
    var la, lb := env.layerOrder(a.d.path), env.layerOrder(b.d.path);
    if a.d.important != b.d.important then a.d.important
    else if a.layered != b.layered then a.layered == a.d.important
    else if la != lb then (if a.d.important then la < lb else la > lb)
    else env.specificity(a.d.path) > env.specificity(b.d.path)
  }

  /** The cascaded declaration: among equals, the last one. */
  function Winner(env: Env, ds: seq<Candidate>): Option<Candidate> {
    if ds == [] then None
    else
      var best := Winner(env, ds[..|ds| - 1]);
      var d := ds[|ds| - 1];
      if env.sets(d.d) && (best.None? || !Outranks(env, best.value, d)) then Some(d) else best
  }

  function Declaration(c: Option<Candidate>): Option<Placed> {
    match c case None => None case Some(v) => Some(v.d)
  }

  function Tagged(layered: bool, ds: seq<Placed>): seq<Candidate> {
    if ds == [] then [] else Tagged(layered, ds[..|ds| - 1]) + [Candidate(layered, ds[|ds| - 1])]
  }

  function CandidatesOf(n: Node): seq<Candidate> {
    if IsRelaBlock(n) then Tagged(true, Flat([], n.nodes)) else Tagged(false, FlatNode([], n))
  }

  /** The candidates of a sheet, in source order. */
  function Candidates(sheet: seq<Node>): seq<Candidate> { Collected(CandidatesOf, sheet) }

  // ----- the candidates of the wrapped sheet -----

  lemma CandidatesSnoc(sheet: seq<Node>, n: Node)
    ensures Candidates(sheet + [n]) == Candidates(sheet) + CandidatesOf(n)
  {
    assert (sheet + [n])[..|sheet|] == sheet;
  }

  lemma {:induction false} TaggedMembers(layered: bool, ds: seq<Placed>, c: Candidate)
    ensures c in Tagged(layered, ds) <==> c.layered == layered && c.d in ds
  {
    if ds != [] {
      TaggedMembers(layered, ds[..|ds| - 1], c);
      assert ds == ds[..|ds| - 1] + [ds[|ds| - 1]];
    }
  }

  lemma {:induction false} TaggedJoin(layered: bool, a: seq<Placed>, b: seq<Placed>)
    ensures Tagged(layered, a + b) == Tagged(layered, a) + Tagged(layered, b)
  {
    if b == [] {
      assert a + b == a;
    } else {
      TaggedJoin(layered, a, b[..|b| - 1]);
      assert (a + b)[..|a + b| - 1] == a + b[..|b| - 1];
    }
  }

  lemma {:induction false} CollectedJoin<S, T>(f: S -> seq<T>, a: seq<S>, b: seq<S>)
    ensures Collected(f, a + b) == Collected(f, a) + Collected(f, b)
  {
    if b == [] {
      assert a + b == a;
    } else {
      CollectedJoin(f, a, b[..|b| - 1]);
      assert (a + b)[..|a + b| - 1] == a + b[..|b| - 1];
    }
  }

  lemma CollectedParts<S, T>(f: S -> seq<T>, head: seq<S>, middle: seq<S>, last: S)
    requires Collected(f, head) == []
    ensures Collected(f, head + middle + [last]) == Collected(f, middle) + f(last)
  {
    CollectedJoin(f, head, middle);
    assert (head + middle + [last])[..|head + middle|] == head + middle;
  }

  /** Unless it holds a rela block, all of a sheet is unlayered. */
  lemma {:induction false} CandidatesOfPlain(root: seq<Node>)
    requires !IsLayered(root)
    ensures Candidates(root) == Tagged(false, Flat([], root))
  {
    if root != [] {
      var start, n := root[..|root| - 1], root[|root| - 1];
      CandidatesOfPlain(start);
      assert root == start + [n] && n in root;
      TaggedJoin(false, Flat([], start), FlatNode([], n));
    }
  }

  lemma PreludeIsNotLayer(n: Node)
    requires IsPreludeNode(n)
    ensures !IsRelaBlock(n) && FlatNode([], n) == []
  {
    assert |Lower(n.name)| == 7 || |Lower(n.name)| == 6 || |Lower(n.name)| == 9;
    assert |"layer"| == 5;
  }

  lemma PreludeIsQuiet(root: seq<Node>)
    ensures Flat([], Prelude(root)) == [] && !IsLayered(Prelude(root))
  {
    forall n | n in Prelude(root) ensures IsPreludeNode(n) {
      CollectedMembers(PreludeOf, root, n);
    }
    NothingFlat(Prelude(root));
  }

  lemma {:induction false} NothingFlat(nodes: seq<Node>)
    requires forall n :: n in nodes ==> IsPreludeNode(n)
    ensures Flat([], nodes) == [] && !IsLayered(nodes)
  {
    if nodes != [] {
      var start, n := nodes[..|nodes| - 1], nodes[|nodes| - 1];
      NothingFlat(start);
      PreludeIsNotLayer(n);
      assert nodes == start + [n];
    }
  }

  lemma TokensAreNoLayer(root: seq<Node>)
    ensures !IsLayered(Tokens(root))
  {
    forall n | n in Tokens(root) ensures !IsRelaBlock(n) {
      CollectedMembers(TokensOf, root, n);
      var m :| m in root && n in TokensOf(m);
    }
  }

  function WrappedCandidates(root: seq<Node>): seq<Candidate> {
    Tagged(false, Flat([], Tokens(root))) + Tagged(true, Flat([], Layered(root)))
  }

  lemma RelaIsLayer(nodes: seq<Node>)
    ensures IsRelaBlock(RelaLayer(nodes)) <==> nodes != []
    ensures CandidatesOf(RelaLayer(nodes)) == Tagged(true, Flat([], nodes))
  {
    assert TrimSpace(RELA_LAYER) == RELA_LAYER;
    assert Lower("layer") == "layer";
  }

  lemma HeadIsQuiet(root: seq<Node>)
    ensures Candidates(Prelude(root) + [RelaLayer([])]) == []
  {
    PreludeIsQuiet(root);
    CandidatesOfPlain(Prelude(root));
    RelaIsLayer([]);
    CandidatesSnoc(Prelude(root), RelaLayer([]));
  }

  lemma CandidatesOfWrapped(root: seq<Node>)
    ensures Candidates(Rebuilt(root)) == WrappedCandidates(root)
  {
    HeadIsQuiet(root);
    CollectedParts(CandidatesOf, Prelude(root) + [RelaLayer([])], Tokens(root), RelaLayer(Layered(root)));
    assert Candidates(Rebuilt(root)) == Candidates(Tokens(root)) + CandidatesOf(RelaLayer(Layered(root)));
    TokensAreNoLayer(root);
    CandidatesOfPlain(Tokens(root));
    RelaIsLayer(Layered(root));
  }

  // ----- the winner -----

  ghost predicate Sets(env: Env, ds: seq<Placed>) { exists d :: d in ds && env.sets(d) }

  /** Being on the same side makes no difference. */
  lemma {:induction false} SideIsFree(env: Env, ds: seq<Placed>, layered: bool)
    ensures Declaration(Winner(env, Tagged(layered, ds))) == Declaration(Winner(env, Tagged(!layered, ds)))
    ensures Winner(env, Tagged(layered, ds)).Some? ==> Winner(env, Tagged(layered, ds)).value.layered == layered
    ensures Winner(env, Tagged(!layered, ds)).Some? ==> Winner(env, Tagged(!layered, ds)).value.layered == !layered
  {
    if ds != [] {
      SideIsFree(env, ds[..|ds| - 1], layered);
    }
  }

  lemma {:induction false} NothingAfter(env: Env, a: seq<Candidate>, b: seq<Candidate>)
    requires forall c :: c in b ==> !env.sets(c.d)
    ensures Winner(env, a + b) == Winner(env, a)
  {
    if b == [] {
      assert a + b == a;
    } else {
      NothingAfter(env, a, b[..|b| - 1]);
      assert (a + b)[..|a + b| - 1] == a + b[..|b| - 1];
    }
  }

  lemma {:induction false} NothingBefore(env: Env, a: seq<Candidate>, b: seq<Candidate>)
    requires forall c :: c in a ==> !env.sets(c.d)
    ensures Winner(env, a + b) == Winner(env, b)
  {
    if b == [] {
      assert a + b == [] + a;
      NothingAfter(env, [], a);
    } else {
      NothingBefore(env, a, b[..|b| - 1]);
      assert (a + b)[..|a + b| - 1] == a + b[..|b| - 1];
    }
  }

  /** Declarations that do not set the property can be taken out. */
  lemma {:induction false} OneSide(env: Env, l: seq<Placed>, r: seq<Placed>, w: seq<Placed>)
    requires Interleaved(l, r, w) && !Sets(env, l)
    ensures Winner(env, Tagged(false, w)) == Winner(env, Tagged(false, r))
    decreases |w|
  {
    if w != [] {
      var k := |w| - 1;
      if l != [] && l[|l| - 1] == w[k] && Interleaved(l[..|l| - 1], r, w[..k]) {
        assert !env.sets(l[|l| - 1]);
        OneSide(env, l[..|l| - 1], r, w[..k]);
      } else {
        OneSide(env, l, r[..|r| - 1], w[..k]);
      }
    }
  }

  lemma {:induction false} Mirrored<T>(l: seq<T>, r: seq<T>, w: seq<T>)
    requires Interleaved(l, r, w)
    ensures Interleaved(r, l, w)
    decreases |w|
  {
    if w != [] {
      var k := |w| - 1;
      if l != [] && l[|l| - 1] == w[k] && Interleaved(l[..|l| - 1], r, w[..k]) {
        Mirrored(l[..|l| - 1], r, w[..k]);
      } else {
        Mirrored(l, r[..|r| - 1], w[..k]);
      }
    }
  }

  ghost predicate WinnerKept(env: Env, root: seq<Node>) {
    Declaration(Winner(env, Candidates(Rebuilt(root)))) == Declaration(Winner(env, Candidates(root)))
  }

  lemma KeptWhenOneSided(env: Env, root: seq<Node>)
    requires !IsLayered(root)
    requires !Sets(env, Flat([], Tokens(root))) || !Sets(env, Flat([], Layered(root)))
    ensures WinnerKept(env, root)
  {
    var t, l, w := Flat([], Tokens(root)), Flat([], Layered(root)), Flat([], root);
    CandidatesOfWrapped(root);
    CandidatesOfPlain(root);
    WrapConserves(root);
    if !Sets(env, t) {
      OnlyLayered(env, t, l);
      OneSide(env, t, l, w);
    } else {
      OnlyTokens(env, t, l);
      Mirrored(t, l, w);
      OneSide(env, l, t, w);
    }
  }

  lemma OnlyLayered(env: Env, t: seq<Placed>, l: seq<Placed>)
    requires !Sets(env, t)
    ensures Declaration(Winner(env, Tagged(false, t) + Tagged(true, l)))
            == Declaration(Winner(env, Tagged(false, l)))
  {
    forall c | c in Tagged(false, t) ensures !env.sets(c.d) {
      TaggedMembers(false, t, c);
    }
    NothingBefore(env, Tagged(false, t), Tagged(true, l));
    SideIsFree(env, l, true);
  }

  lemma OnlyTokens(env: Env, t: seq<Placed>, l: seq<Placed>)
    requires !Sets(env, l)
    ensures Winner(env, Tagged(false, t) + Tagged(true, l)) == Winner(env, Tagged(false, t))
  {
    forall c | c in Tagged(true, l) ensures !env.sets(c.d) {
      TaggedMembers(true, l, c);
    }
    NothingAfter(env, Tagged(false, t), Tagged(true, l));
  }

  /**
    Ordinary properties: whatever the element, its specificities and the sheet's
    own layers, the winning declaration is the same before and after. A shorthand
    that sets an ordinary property is itself ordinary.
  */
  lemma OrdinaryWinnerKept(env: Env, root: seq<Node>)
    requires !IsLayered(root)
    requires forall d :: env.sets(d) ==> !IsPaletteProp(d.prop)
    ensures WinnerKept(env, root)
  {
    forall d | d in Flat([], Tokens(root)) ensures !env.sets(d) {
      UnlayeredIsPalette(root, d);
    }
    KeptWhenOneSided(env, root);
  }

  // ----- wrapping again -----

  /** A second wrap declines exactly when the first put something in the layer. */
  lemma WrapAgain(root: seq<Node>)
    ensures IsLayered(Rebuilt(root)) <==> Layered(root) != []
  {
    var head := Prelude(root) + [RelaLayer([])];
    PreludeIsQuiet(root);
    TokensAreNoLayer(root);
    RelaIsLayer([]);
    RelaIsLayer(Layered(root));
    assert !IsLayered(head);
    assert !IsLayered(head + Tokens(root));
    assert RelaLayer(Layered(root)) in Rebuilt(root);
  }
}
