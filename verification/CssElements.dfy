/**
  Elements and the compound selectors they match: what a token contract means on
  a page, for sheets without nesting.
*/
module CssElements {

  import opened Wrappers
  import opened Text
  import opened CssLayer
  import opened CssDeclarations
  import opened CssCascade
  import opened CssTokenContract

  datatype Element = Element(tag: string, isRoot: bool, classes: set<string>)

  /** `.a.b`, from position `i` to the end. */
  predicate MatchesClasses(el: Element, s: string, i: nat)
    requires i <= |s|
    decreases |s| - i
  {
    if i == |s| then true
    else
      s[i] == '.' &&
      var end := RunEnd(s, i + 1, false);
      s[i + 1..end] in el.classes && MatchesClasses(el, s, end)
  }

  predicate MatchesTag(el: Element, s: string) {
    var end := RunEnd(s, 0, false);
    end == 0 || s[..end] == el.tag
  }

  /** Classes, `:root` and `:not(…)`, from position `i` to the end. */
  predicate MatchesFrom(el: Element, s: string, i: nat)
    requires i <= |s|
    decreases |s| - i
  {
    if i == |s| then true
    else if s[i] == '.' then
      var end := RunEnd(s, i + 1, false);
      s[i + 1..end] in el.classes && MatchesFrom(el, s, end)
    else if StartsAt(s, i, ":root") then el.isRoot && MatchesFrom(el, s, i + 5)
    else if StartsAt(s, i, ":not(") then
      var end := RunEnd(s, i + 5, true);
      var arg := s[i + 5..end];
      end < |s| && s[end] == ')'
      && !(MatchesTag(el, arg) && MatchesClasses(el, arg, RunEnd(arg, 0, false)))
      && MatchesFrom(el, s, end + 1)
    else false
  }

  /** One compound selector. Any other selector is taken to match nothing. */
  predicate Matches(el: Element, sel: string) {
    sel != "" && MatchesTag(el, sel) && MatchesFrom(el, sel, RunEnd(sel, 0, false))
  }

  /** Two for a class or pseudo-class, one for a tag: one compound has at most one tag. */
  function Weight(s: string, i: nat): int
    requires i <= |s|
    decreases |s| - i
  {
    if i == |s| then 0
    else (if s[i] == '.' || StartsAt(s, i, ":root") then 2 else 0) + Weight(s, i + 1)
  }

  function Specificity(sel: string): int {
    Weight(sel, 0) + if RunEnd(sel, 0, false) > 0 then 1 else 0
  }

  /** The weight of the heaviest selector that matches. */
  function Heaviest(el: Element, sels: seq<string>): int {
    if sels == [] then 0
    else
      var rest := Heaviest(el, sels[1..]);
      if Matches(el, sels[0]) && Specificity(sels[0]) > rest then Specificity(sels[0]) else rest
  }

  predicate Reaches(el: Element, holding: set<Frame>, f: Frame) {
    match f
    case RuleFrame(sels) => exists sel :: sel in sels && Matches(el, sel)
    case AtFrame(_, _) => f in holding
  }

  /** Property `x` on an element, under the conditions that hold. */
  ghost function ElementEnv(x: string, el: Element, holding: set<Frame>): Env {
    PathEnv(x,
      (path: seq<Frame>) => forall f :: f in path ==> Reaches(el, holding, f),
      (path: seq<Frame>) =>
        if path != [] && path[|path| - 1].RuleFrame? then Heaviest(el, path[|path| - 1].selectors) else 0,
      path => 0)
  }

  /** On one element the token keeps its winner exactly when the sides agree. */
  lemma ElementTokenExactly(root: seq<Node>, x: string, el: Element, holding: set<Frame>)
    requires !IsLayered(root) && IsCustom(x)
    ensures WinnerKept(ElementEnv(x, el, holding), root) <==> SidesAgree(ElementEnv(x, el, holding), root)
  {
    TokenWinnerKeptExactly(ElementEnv(x, el, holding), root, x);
  }

  // ----- an element that both kinds of rule match -----

  lemma TwoRules(a: seq<string>, b: seq<string>, x: string, v: string, w: string)
    ensures Flat([], [Rule(a, [Decl(x, v, false)]), Rule(b, [Decl(x, w, false)])])
            == [Placed([RuleFrame(a)], x, v, false), Placed([RuleFrame(b)], x, w, false)]
  {
    var p, q := Rule(a, [Decl(x, v, false)]), Rule(b, [Decl(x, w, false)]);
    FlatOne([RuleFrame(a)], Decl(x, v, false));
    FlatOne([RuleFrame(b)], Decl(x, w, false));
    assert [] + [RuleFrame(a)] == [RuleFrame(a)] && [] + [RuleFrame(b)] == [RuleFrame(b)];
    FlatOne([], p);
    FlatSnoc([], [p], q);
    assert [p, q] == [p] + [q];
  }

  /**
    A palette rule and a heavier rule that the layering does not take for one,
    both matching one element: its value was the heavier rule's, and is no more.
  */
  lemma HeavierRuleLoses(scope: string, other: string, x: string, v: string, w: string, el: Element)
    requires IsScopeList([scope]) && !IsScopeList([other]) && IsCustom(x)
    requires Matches(el, scope) && Matches(el, other) && Specificity(scope) < Specificity(other)
    requires 0 < Specificity(scope)
    ensures var sheet := [Rule([scope], [Decl(x, v, false)]), Rule([other], [Decl(x, w, false)])];
            !IsLayered(sheet) && !WinnerKept(ElementEnv(x, el, {}), sheet)
  {
    var sheet := [Rule([scope], [Decl(x, v, false)]), Rule([other], [Decl(x, w, false)])];
    var d, e := Placed([RuleFrame([scope])], x, v, false), Placed([RuleFrame([other])], x, w, false);
    TwoRules([scope], [other], x, v, w);
    RuleApplies(x, el, scope, d);
    RuleApplies(x, el, other, e);
    LostByLayering(ElementEnv(x, el, {}), sheet, x, d, e);
  }

  lemma LostByLayering(env: Env, sheet: seq<Node>, x: string, d: Placed, e: Placed)
    requires !IsLayered(sheet) && Flat([], sheet) == [d, e] && IsCustom(x)
    requires forall o :: env.sets(o) ==> o.prop == x
    requires env.sets(d) && env.sets(e) && !d.important && !e.important
    requires env.layerOrder(d.path) == env.layerOrder(e.path)
    requires env.specificity(d.path) < env.specificity(e.path)
    requires IsPalettePath(d.path) && !IsPalettePath(e.path)
    ensures !WinnerKept(env, sheet)
  {
    CandidatesOfPlain(sheet);
    HeavierWins(env, d, e);
    PaletteWins(env, d, e);
    TokenWinnerKeptExactly(env, sheet, x);
    assert Winner(env, Candidates(sheet)) == Some(Candidate(false, e));
  }

  /** Of two normal declarations the palette's is the one that wins once layered. */
  lemma PaletteWins(env: Env, d: Placed, e: Placed)
    requires env.sets(d) && IsPalettePath(d.path) && !d.important && !e.important
    ensures !OutsideWins(env, [d, e])
  {
    assert d in [d, e];
  }

  /** What a matching rule with one selector gives the element. */
  lemma RuleApplies(x: string, el: Element, sel: string, d: Placed)
    requires Matches(el, sel) && 0 < Specificity(sel) && d.path == [RuleFrame([sel])] && d.prop == x
    ensures var env := ElementEnv(x, el, {});
            env.sets(d) && env.specificity(d.path) == Specificity(sel) && env.layerOrder(d.path) == 0
  {
    var sels := [sel];
    assert sel in sels && sels[1..] == [];
    assert Heaviest(el, []) == 0;
    assert Heaviest(el, sels) == Specificity(sel);
    assert d.path[|d.path| - 1] == RuleFrame(sels);
    forall f | f in d.path ensures Reaches(el, {}, f) {
      assert f == RuleFrame(sels);
    }
  }

  lemma HeavierWins(env: Env, d: Placed, e: Placed)
    requires env.sets(d) && env.sets(e) && d.important == e.important
    requires env.layerOrder(d.path) == env.layerOrder(e.path)
    requires env.specificity(d.path) < env.specificity(e.path)
    ensures Winner(env, Tagged(false, [d, e])) == Some(Candidate(false, e))
  {
    var c, o := Candidate(false, d), Candidate(false, e);
    assert [d, e][..1] == [d] && [d][..0] == [];
    assert Tagged(false, [d]) == [c];
    assert Tagged(false, [d, e]) == [c, o];
    assert [c, o][..1] == [c] && [c][..0] == [];
    assert Winner(env, []) == None;
    assert Winner(env, [c]) == Some(c);
    assert !Outranks(env, c, o);
  }

  /** Such as `html:root { --gap: 1 }` beside `:root { --gap: 2 }`, on the html element. */
  lemma HtmlLosesItsGap(classes: set<string>)
    ensures var sheet := [Rule([":root"], [Decl("--gap", "2", false)]),
                          Rule(["html:root"], [Decl("--gap", "1", false)])];
            !WinnerKept(ElementEnv("--gap", Element("html", true, classes), {}), sheet)
  {
    var el := Element("html", true, classes);
    RootMatches(el);
    HtmlRootMatches(el);
    HeavierRuleLoses(":root", "html:root", "--gap", "2", "1", el);
  }

  /** Characters that start no class or pseudo-class weigh nothing. */
  lemma {:induction false} WeighsNothing(s: string, i: nat, j: nat)
    requires i <= j <= |s| && forall k :: i <= k < j ==> s[k] != '.' && s[k] != ':'
    ensures Weight(s, i) == Weight(s, j)
    decreases j - i
  {
    if i < j {
      assert s[i..][0] == s[i];
      WeighsNothing(s, i + 1, j);
    }
  }

  lemma RootMatches(el: Element)
    requires el.isRoot
    ensures IsScopeList([":root"]) && Matches(el, ":root") && Specificity(":root") == 2
  {
    var s := ":root";
    assert TrimSpace(s) == s;
    assert RunEnd(s, 0, false) == 0;
    assert s[0..] == s && MatchesFrom(el, s, 5);
    WeighsNothing(s, 1, 5);
  }

  lemma HtmlRootMatches(el: Element)
    requires el.isRoot && el.tag == "html"
    ensures !IsScopeList(["html:root"]) && Matches(el, "html:root") && Specificity("html:root") == 3
  {
    var s := "html:root";
    assert TrimSpace(s) == s;
    HtmlIsTheTag();
    assert s[..4] == "html" && s[4..] == ":root";
    assert MatchesFrom(el, s, 9);
    WeighsNothing(s, 5, 9);
    WeighsNothing(s, 0, 4);
  }

  lemma HtmlIsTheTag()
    ensures RunEnd("html:root", 0, false) == 4
  {
    var s := "html:root";
    assert RunEnd(s, 4, false) == 4;
    assert RunEnd(s, 2, false) == 4;
  }
}
