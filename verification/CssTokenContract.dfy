/**
  The two carve-outs of the layering: design tokens stay unlayered, and an
  operator's CSS wins except against rela's `!important`.
*/
module CssTokenContract {

  import opened Wrappers
  import opened Text
  import opened CssLayer
  import opened CssDeclarations
  import opened CssCascade

  // ----- the winner is a best candidate -----

  lemma {:induction false} WinnerIsBest(env: Env, cs: seq<Candidate>)
    ensures Winner(env, cs).None? ==> forall c :: c in cs ==> !env.sets(c.d)
    ensures Winner(env, cs).Some? ==>
              var w := Winner(env, cs).value;
              w in cs && env.sets(w.d) && forall c :: c in cs && env.sets(c.d) ==> !Outranks(env, c, w)
  {
    if cs != [] {
      WinnerIsBest(env, cs[..|cs| - 1]);
      assert cs == cs[..|cs| - 1] + [cs[|cs| - 1]];
    }
  }

  ghost function ImportantOnly(env: Env): Env {
    Env((d: Placed) => env.sets(d) && d.important, env.specificity, env.layerOrder)
  }

  ghost predicate HasImportant(env: Env, cs: seq<Candidate>) {
    exists c :: c in cs && env.sets(c.d) && c.d.important
  }

  lemma {:induction false} ImportantDecides(env: Env, cs: seq<Candidate>)
    ensures if HasImportant(env, cs) then Winner(env, cs) == Winner(ImportantOnly(env), cs)
            else Winner(env, cs).Some? ==> !Winner(env, cs).value.d.important
    ensures !HasImportant(env, cs) ==> Winner(ImportantOnly(env), cs).None?
    ensures Winner(ImportantOnly(env), cs).Some? ==> Winner(ImportantOnly(env), cs).value.d.important
  {
    if cs != [] {
      var start, c := cs[..|cs| - 1], cs[|cs| - 1];
      ImportantDecides(env, start);
      WinnerIsBest(env, start);
      assert cs == start + [c];
      var best := Winner(env, start);
      if env.sets(c.d) && c.d.important {
        assert c in cs;
        assert best.Some? ==> Outranks(ImportantOnly(env), best.value, c) == Outranks(env, best.value, c);
      } else {
        assert HasImportant(env, cs) <==> HasImportant(env, start);
        assert env.sets(c.d) && HasImportant(env, start) ==> Outranks(env, best.value, c);
      }
    }
  }

  // ----- custom properties -----

  /** Property `x`, for an element that the enclosing frames in `reach` select. */
  ghost function PathEnv(
    x: string, reach: seq<Frame> -> bool, specificity: seq<Frame> -> int, order: seq<Frame> -> int): Env
  {
    Env((d: Placed) => d.prop == x && reach(d.path), specificity, order)
  }

  predicate ImportantAt(ds: seq<Placed>, x: string, path: seq<Frame>) {
    exists d :: d in ds && d.prop == x && d.path == path && d.important
  }

  /** `x` is set in a palette and outside, and `!important` does not already decide. */
  predicate Clash(ds: seq<Placed>, x: string) {
    exists d, e ::
      && d in ds && e in ds && d.prop == x && e.prop == x
      && IsPalettePath(d.path) && !IsPalettePath(e.path)
      && ImportantAt(ds, x, d.path) == ImportantAt(ds, x, e.path)
  }

  /** One side's important declarations are the only ones that count. */
  lemma ImportantSideDecides(env: Env, root: seq<Node>, d: Placed)
    requires !IsLayered(root) && d in Flat([], root) && env.sets(d) && d.important
    requires !Sets(ImportantOnly(env), Flat([], Tokens(root))) || !Sets(ImportantOnly(env), Flat([], Layered(root)))
    ensures WinnerKept(env, root)
  {
    KeptWhenOneSided(ImportantOnly(env), root);
    CandidatesOfPlain(root);
    CandidatesOfWrapped(root);
    WrapConserves(root);
    InterleavedMembers(Flat([], Tokens(root)), Flat([], Layered(root)), Flat([], root));
    TaggedMembers(false, Flat([], root), Candidate(false, d));
    TaggedMembers(false, Flat([], Tokens(root)), Candidate(false, d));
    TaggedMembers(true, Flat([], Layered(root)), Candidate(true, d));
    ImportantDecides(env, Candidates(root));
    ImportantDecides(env, Candidates(Rebuilt(root)));
  }

  lemma KeptWithoutClash(
    root: seq<Node>, x: string, reach: seq<Frame> -> bool, specificity: seq<Frame> -> int, order: seq<Frame> -> int)
    requires !IsLayered(root) && IsCustom(x) && !Clash(Flat([], root), x)
    ensures WinnerKept(PathEnv(x, reach, specificity, order), root)
  {
    var env := PathEnv(x, reach, specificity, order);
    var t, l, ds := Flat([], Tokens(root)), Flat([], Layered(root)), Flat([], root);
    if !Sets(env, t) || !Sets(env, l) {
      KeptWhenOneSided(env, root);
    } else {
      var d :| d in t && env.sets(d);
      var e :| e in l && env.sets(e);
      SideFacts(root, x);
      assert ImportantAt(ds, x, d.path) != ImportantAt(ds, x, e.path);
      if ImportantAt(ds, x, d.path) {
        var i :| i in ds && i.prop == x && i.path == d.path && i.important;
        forall o | o in l ensures !ImportantOnly(env).sets(o) {
          assert env.sets(o) && o.important ==> ImportantAt(ds, x, o.path);
        }
        ImportantSideDecides(env, root, i);
      } else {
        var i :| i in ds && i.prop == x && i.path == e.path && i.important;
        forall o | o in t ensures !ImportantOnly(env).sets(o) {
          assert env.sets(o) && o.important ==> ImportantAt(ds, x, o.path);
        }
        ImportantSideDecides(env, root, i);
      }
    }
  }

  /** Both sides of one token, in terms of the sheet alone. */
  lemma SideFacts(root: seq<Node>, x: string)
    requires IsCustom(x)
    ensures forall d :: d in Flat([], Tokens(root)) && d.prop == x ==> d in Flat([], root) && IsPalettePath(d.path)
    ensures forall d :: d in Flat([], Layered(root)) && d.prop == x ==> d in Flat([], root) && !IsPalettePath(d.path)
    ensures forall d :: d in Flat([], root) && d.prop == x ==>
              if IsPalettePath(d.path) then d in Flat([], Tokens(root)) else d in Flat([], Layered(root))
  {
    WrapConserves(root);
    InterleavedMembers(Flat([], Tokens(root)), Flat([], Layered(root)), Flat([], root));
    forall d | d in Flat([], root) && d.prop == x
      ensures d in Flat([], Tokens(root)) <==> IsPalettePath(d.path)
      ensures d in Flat([], Layered(root)) <==> !IsPalettePath(d.path)
    {
      TokenSideExactly(root, d);
    }
  }

  // ----- the winner after, for any property -----

  ghost predicate SetsImportant(env: Env, ds: seq<Placed>) {
    exists d :: d in ds && env.sets(d) && d.important
  }

  /** The layered half wins with an `!important`, or when it is the only one that sets the property. */
  ghost predicate LayerWins(env: Env, t: seq<Placed>, l: seq<Placed>) {
    SetsImportant(env, l) || !Sets(env, t)
  }

  /** A winner on one side is what that side alone would give. */
  lemma {:induction false} WinnerOfSide(
    env: Env, l: seq<Candidate>, r: seq<Candidate>, w: seq<Candidate>, right: Candidate -> bool)
    requires Interleaved(l, r, w)
    requires forall c :: c in l && env.sets(c.d) ==> !right(c)
    requires forall c :: c in r && env.sets(c.d) ==> right(c)
    requires Winner(env, w).Some? && right(Winner(env, w).value)
    ensures Winner(env, r) == Winner(env, w)
    decreases |w|
  {
    var k := |w| - 1;
    var c := w[k];
    WinnerIsBest(env, w);
    WinnerIsBest(env, r);
    assert w == w[..k] + [c];
    if l != [] && l[|l| - 1] == c && Interleaved(l[..|l| - 1], r, w[..k]) {
      assert c in l;
      WinnerOfSide(env, l[..|l| - 1], r, w[..k], right);
    } else {
      var last := |r| - 1;
      WinnerIsBest(env, r[..last]);
      assert r == r[..last] + [c];
      if Winner(env, w) == Some(c) {
        BestStays(env, l, r, w, c);
      } else {
        WinnerOfSide(env, l, r[..last], w[..k], right);
      }
    }
  }

  /** The last best candidate of the whole is that of its own side. */
  lemma BestStays(env: Env, l: seq<Candidate>, r: seq<Candidate>, w: seq<Candidate>, c: Candidate)
    requires Interleaved(l, r, w) && r != [] && r[|r| - 1] == c && Winner(env, w) == Some(c)
    ensures Winner(env, r) == Some(c)
  {
    WinnerIsBest(env, w);
    InterleavedMembers(l, r, w);
    WinnerIsBest(env, r[..|r| - 1]);
    assert forall o :: o in r[..|r| - 1] ==> o in r;
  }

  /** Both halves as one sequence are themselves an interleaving. */
  lemma HalvesInterleave(t: seq<Placed>, l: seq<Placed>)
    ensures Interleaved(Tagged(false, t), Tagged(true, l), Tagged(false, t) + Tagged(true, l))
    ensures Interleaved(Tagged(true, l), Tagged(false, t), Tagged(false, t) + Tagged(true, l))
  {
    var a, b := Tagged(false, t), Tagged(true, l);
    AllLeft(a);
    AllLeft(b);
    InterleavedJoin(a, [], a, [], b, b);
    assert a + [] == a && [] + b == b;
    Mirrored(a, b, a + b);
  }

  lemma SideOfTagged(layered: bool, ds: seq<Placed>)
    ensures forall c :: c in Tagged(layered, ds) ==> c.layered == layered && c.d in ds
    ensures forall d :: d in ds ==> Candidate(layered, d) in Tagged(layered, ds)
  {
    forall c | c in Tagged(layered, ds) ensures c.layered == layered && c.d in ds {
      TaggedMembers(layered, ds, c);
    }
    forall d | d in ds ensures Candidate(layered, d) in Tagged(layered, ds) {
      TaggedMembers(layered, ds, Candidate(layered, d));
    }
  }

  /** Which half the winner of the two comes from. */
  lemma SideOfWinner(env: Env, t: seq<Placed>, l: seq<Placed>)
    ensures var w := Winner(env, Tagged(false, t) + Tagged(true, l));
            && (w.None? <==> !Sets(env, t) && !Sets(env, l))
            && (w.Some? ==> (w.value.layered <==> LayerWins(env, t, l)))
  {
    var cs := Tagged(false, t) + Tagged(true, l);
    WinnerIsBest(env, cs);
    SideOfTagged(false, t);
    SideOfTagged(true, l);
    if Winner(env, cs).Some? {
      var w := Winner(env, cs).value;
      if SetsImportant(env, l) {
        var i :| i in l && env.sets(i) && i.important;
        assert Candidate(true, i) in cs && !Outranks(env, Candidate(true, i), w);
      } else if Sets(env, t) {
        var i :| i in t && env.sets(i);
        assert Candidate(false, i) in cs && !Outranks(env, Candidate(false, i), w);
      }
    } else {
      forall d | d in t || d in l ensures !env.sets(d) {
        assert Candidate(false, d) in cs || Candidate(true, d) in cs;
      }
    }
  }

  /**
    Whatever the property, color-scheme included: after the layering its winner
    is the winner of one half alone, the layered half if it insists or is alone.
  */
  lemma WinnerAfterLayering(env: Env, root: seq<Node>)
    ensures var t, l := Flat([], Tokens(root)), Flat([], Layered(root));
            Declaration(Winner(env, Candidates(Rebuilt(root))))
            == Declaration(Winner(env, Tagged(false, if LayerWins(env, t, l) then l else t)))
  {
    var t, l := Flat([], Tokens(root)), Flat([], Layered(root));
    var cs := Tagged(false, t) + Tagged(true, l);
    CandidatesOfWrapped(root);
    SideOfWinner(env, t, l);
    SideOfTagged(false, t);
    SideOfTagged(true, l);
    HalvesInterleave(t, l);
    SideIsFree(env, l, true);
    if Winner(env, cs).None? {
      WinnerIsBest(env, Tagged(false, t));
      WinnerIsBest(env, Tagged(true, l));
    } else if LayerWins(env, t, l) {
      WinnerOfSide(env, Tagged(false, t), Tagged(true, l), cs, (c: Candidate) => c.layered);
    } else {
      WinnerOfSide(env, Tagged(true, l), Tagged(false, t), cs, (c: Candidate) => !c.layered);
    }
  }

  // ----- custom properties, exactly -----

  /** Outside the palettes the token is set `!important`, or nowhere else. */
  ghost predicate OutsideWins(env: Env, ds: seq<Placed>) {
    || (exists d :: d in ds && env.sets(d) && d.important && !IsPalettePath(d.path))
    || !(exists d :: d in ds && env.sets(d) && IsPalettePath(d.path))
  }

  /** The sheet's winner is outside the palettes exactly when that side will win. */
  ghost predicate SidesAgree(env: Env, root: seq<Node>) {
    var before := Winner(env, Candidates(root));
    before.Some? ==> (!IsPalettePath(before.value.d.path) <==> OutsideWins(env, Flat([], root)))
  }

  lemma OutsideIsLayer(env: Env, root: seq<Node>, x: string)
    requires IsCustom(x) && forall d :: env.sets(d) ==> d.prop == x
    ensures OutsideWins(env, Flat([], root))
            <==> LayerWins(env, Flat([], Tokens(root)), Flat([], Layered(root)))
  {
    SideFacts(root, x);
  }

  lemma {:induction false} TaggedInterleaved(l: seq<Placed>, r: seq<Placed>, w: seq<Placed>)
    requires Interleaved(l, r, w)
    ensures Interleaved(Tagged(false, l), Tagged(false, r), Tagged(false, w))
    decreases |w|
  {
    if w != [] {
      var k := |w| - 1;
      if l != [] && l[|l| - 1] == w[k] && Interleaved(l[..|l| - 1], r, w[..k]) {
        TaggedInterleaved(l[..|l| - 1], r, w[..k]);
      } else {
        TaggedInterleaved(l, r[..|r| - 1], w[..k]);
      }
    }
  }

  /** Before the layering, the winner is also what its own side alone would give. */
  lemma WinnerBefore(env: Env, root: seq<Node>, x: string)
    requires !IsLayered(root) && IsCustom(x) && forall d :: env.sets(d) ==> d.prop == x
    requires Winner(env, Candidates(root)).Some?
    ensures var w := Winner(env, Candidates(root)).value;
            var side := if IsPalettePath(w.d.path) then Tokens(root) else Layered(root);
            Winner(env, Tagged(false, Flat([], side))) == Some(w) && w.d in Flat([], side)
  {
    var t, l, ds := Flat([], Tokens(root)), Flat([], Layered(root)), Flat([], root);
    CandidatesOfPlain(root);
    WrapConserves(root);
    TaggedInterleaved(t, l, ds);
    SideFacts(root, x);
    SideOfTagged(false, t);
    SideOfTagged(false, l);
    SideOfTagged(false, ds);
    WinnerIsBest(env, Tagged(false, ds));
    if IsPalettePath(Winner(env, Candidates(root)).value.d.path) {
      Mirrored(Tagged(false, t), Tagged(false, l), Tagged(false, ds));
      WinnerOfSide(env, Tagged(false, l), Tagged(false, t), Tagged(false, ds),
        (c: Candidate) => IsPalettePath(c.d.path));
    } else {
      WinnerOfSide(env, Tagged(false, t), Tagged(false, l), Tagged(false, ds),
        (c: Candidate) => !IsPalettePath(c.d.path));
    }
  }

  /**
    For one element, page and token: the winner is kept exactly when it was on
    the side that wins once the sheet is layered.
  */
  lemma TokenWinnerKeptExactly(env: Env, root: seq<Node>, x: string)
    requires !IsLayered(root) && IsCustom(x) && forall d :: env.sets(d) ==> d.prop == x
    ensures WinnerKept(env, root) <==> SidesAgree(env, root)
  {
    var t, l := Flat([], Tokens(root)), Flat([], Layered(root));
    WinnerAfterLayering(env, root);
    OutsideIsLayer(env, root, x);
    SideOfTagged(false, t);
    SideOfTagged(false, l);
    SideFacts(root, x);
    WinnerIsBest(env, Tagged(false, t));
    WinnerIsBest(env, Tagged(false, l));
    if Winner(env, Candidates(root)).Some? {
      WinnerBefore(env, root, x);
    } else {
      NobodySets(env, root);
    }
  }

  lemma NobodySets(env: Env, root: seq<Node>)
    requires !IsLayered(root) && Winner(env, Candidates(root)).None?
    ensures !Sets(env, Flat([], Tokens(root))) && !Sets(env, Flat([], Layered(root)))
    ensures WinnerKept(env, root)
  {
    var t, l, ds := Flat([], Tokens(root)), Flat([], Layered(root)), Flat([], root);
    CandidatesOfPlain(root);
    WinnerIsBest(env, Tagged(false, ds));
    SideOfTagged(false, ds);
    WrapConserves(root);
    InterleavedMembers(t, l, ds);
    forall d | d in t || d in l ensures !env.sets(d) {
      assert Candidate(false, d) in Tagged(false, ds);
    }
    KeptWhenOneSided(env, root);
  }

  // ----- an operator's CSS -----

  /** The sheets of a page: rela's, wrapped at build time, and an operator's. */
  datatype Sheet = Rela(root: seq<Node>) | Operator(css: seq<Node>)

  /** Inside a `@layer` block, an operator's own included. */
  predicate InLayer(path: seq<Frame>) {
    exists f :: f in path && f.AtFrame? && Lower(f.name) == "layer"
  }

  function OperatorCandidates(ds: seq<Placed>): seq<Candidate> {
    if ds == [] then []
    else
      var d := ds[|ds| - 1];
      OperatorCandidates(ds[..|ds| - 1]) + [Candidate(InLayer(d.path), d)]
  }

  lemma {:induction false} OperatorMembers(ds: seq<Placed>, c: Candidate)
    ensures c in OperatorCandidates(ds) <==> c.d in ds && (c.layered <==> InLayer(c.d.path))
  {
    if ds != [] {
      OperatorMembers(ds[..|ds| - 1], c);
      assert ds == ds[..|ds| - 1] + [ds[|ds| - 1]];
    }
  }

  function SheetCandidates(s: Sheet): seq<Candidate> {
    match s
    case Rela(root) => Candidates(Rebuilt(root))
    case Operator(css) => OperatorCandidates(Flat([], css))
  }

  function Page(sheets: seq<Sheet>): seq<Candidate> { Collected(SheetCandidates, sheets) }

  lemma PageMembers(sheets: seq<Sheet>, c: Candidate)
    ensures c in Page(sheets) <==> exists s :: s in sheets && c in SheetCandidates(s)
  {
    CollectedMembers(SheetCandidates, sheets, c);
  }

  /** An ordinary declaration of a wrapped sheet is layered. */
  lemma RelaIsLayered(root: seq<Node>, c: Candidate)
    requires !IsPaletteProp(c.d.prop)
    ensures c in Candidates(Rebuilt(root)) <==> c.layered && c.d in Flat([], root)
  {
    var t, l := Flat([], Tokens(root)), Flat([], Layered(root));
    CandidatesOfWrapped(root);
    WrapConserves(root);
    InterleavedMembers(t, l, Flat([], root));
    TaggedMembers(false, t, c);
    TaggedMembers(true, l, c);
    if c.d in t {
      UnlayeredIsPalette(root, c.d);
    }
  }

  /** A layered declaration is important: one of rela's, or in a layer of an operator's own. */
  ghost predicate LayerInsists(env: Env, sheets: seq<Sheet>) {
    exists s, d :: s in sheets && env.sets(d) && d.important
      && if s.Rela? then d in Flat([], s.root) else d in Flat([], s.css) && InLayer(d.path)
  }

  /** An operator sets the property outside any layer. */
  ghost predicate SetsUnlayered(env: Env, css: seq<Node>) {
    exists d :: d in Flat([], css) && env.sets(d) && !InLayer(d.path)
  }

  /**
    In whatever order the sheets load and at whatever specificity, an operator's
    ordinary declaration outside any layer beats rela's, except exactly where a
    layered declaration is `!important`.
  */
  lemma OperatorWinsExactly(env: Env, sheets: seq<Sheet>, mine: Sheet)
    requires forall d :: env.sets(d) ==> !IsPaletteProp(d.prop)
    requires mine in sheets && mine.Operator? && SetsUnlayered(env, mine.css)
    ensures Winner(env, Page(sheets)).Some?
    ensures Winner(env, Page(sheets)).value.layered <==> LayerInsists(env, sheets)
    ensures !Winner(env, Page(sheets)).value.layered ==>
              exists s :: s in sheets && s.Operator? && Winner(env, Page(sheets)).value.d in Flat([], s.css)
  {
    var w := BestOfPage(env, sheets, mine);
    PageMembers(sheets, w);
    var s :| s in sheets && w in SheetCandidates(s);
    if s.Operator? {
      OperatorMembers(Flat([], s.css), w);
    } else {
      RelaIsLayered(s.root, w);
    }
    if LayerInsists(env, sheets) {
      InsistedOnPage(env, sheets, w);
    }
  }

  lemma InsistedOnPage(env: Env, sheets: seq<Sheet>, w: Candidate)
    requires forall d :: env.sets(d) ==> !IsPaletteProp(d.prop)
    requires LayerInsists(env, sheets)
    requires forall c :: c in Page(sheets) && env.sets(c.d) ==> !Outranks(env, c, w)
    ensures w.layered
  {
    var r, d :| r in sheets && env.sets(d) && d.important
      && if r.Rela? then d in Flat([], r.root) else d in Flat([], r.css) && InLayer(d.path);
    var c := Candidate(true, d);
    if r.Rela? {
      RelaIsLayered(r.root, c);
    } else {
      OperatorMembers(Flat([], r.css), c);
    }
    PageMembers(sheets, c);
    assert !Outranks(env, c, w);
  }

  lemma BestOfPage(env: Env, sheets: seq<Sheet>, mine: Sheet) returns (w: Candidate)
    requires mine in sheets && mine.Operator? && SetsUnlayered(env, mine.css)
    ensures Winner(env, Page(sheets)) == Some(w) && w in Page(sheets) && env.sets(w.d)
    ensures w.layered ==> w.d.important
    ensures forall c :: c in Page(sheets) && env.sets(c.d) ==> !Outranks(env, c, w)
  {
    var o :| o in Flat([], mine.css) && env.sets(o) && !InLayer(o.path);
    var c := Candidate(false, o);
    OperatorMembers(Flat([], mine.css), c);
    PageMembers(sheets, c);
    WinnerIsBest(env, Page(sheets));
    w := Winner(env, Page(sheets)).value;
    assert !Outranks(env, c, w);
  }
}
