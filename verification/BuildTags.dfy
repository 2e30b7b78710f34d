/**
  Discovery of opt-in build tags (scripts/tagged_build_tags.go). Constraint
  lines come parsed, as go/build/constraint parses them.
*/
module BuildTags {

  import opened Wrappers

  datatype Expr = Tag(tag: string) | Not(x: Expr) | And(x: Expr, y: Expr) | Or(x: Expr, y: Expr)

  /** Whether a file with this constraint builds when the tags in `on` are set. */
  predicate Eval(e: Expr, on: set<string>) {
    match e
    case Tag(t) => t in on
    case Not(x) => !Eval(x, on)
    case And(x, y) => Eval(x, on) && Eval(y, on)
    case Or(x, y) => Eval(x, on) || Eval(y, on)
  }

  // ----- collecting tags by polarity -----

  function Collected(e: Expr, negated: bool): set<string> {
    match e
    case Tag(t) => if negated then {} else {t}
    case Not(x) => Collected(x, !negated)
    case And(x, y) => Collected(x, negated) + Collected(y, negated)
    case Or(x, y) => Collected(x, negated) + Collected(y, negated)
  }

  /** The map that collect records into. */
  class TagSet {
    var tags: set<string>

    constructor ()
      ensures tags == {}
    {
      tags := {};
    }

    method Collect(e: Expr, negated: bool)
      modifies this
      ensures tags == old(tags) + Collected(e, negated)
      decreases e
    {
      match e {
        case Tag(t) =>
          if !negated {
            tags := tags + {t};
          }
        case Not(x) =>
          Collect(x, !negated);
        case And(x, y) =>
          Collect(x, negated);
          Collect(y, negated);
        case Or(x, y) =>
          Collect(x, negated);
          Collect(y, negated);
      }
    }
  }

  /**
    If turning more tags on turns a constraint on, one of those tags is
    collected; if it turns the constraint off, one is collected under a negation.
  */
  lemma {:induction false} CollectIsComplete(e: Expr, fewer: set<string>, more: set<string>)
    requires fewer <= more
    ensures !Eval(e, fewer) && Eval(e, more) ==> exists t :: t in more - fewer && t in Collected(e, false)
    ensures Eval(e, fewer) && !Eval(e, more) ==> exists t :: t in more - fewer && t in Collected(e, true)
  {
    match e {
      case Tag(t) =>
        assert t in more && t !in fewer ==> t in more - fewer;
      case Not(x) =>
        CollectIsComplete(x, fewer, more);
      case And(x, y) =>
        CollectIsComplete(x, fewer, more);
        CollectIsComplete(y, fewer, more);
      case Or(x, y) =>
        CollectIsComplete(x, fewer, more);
        CollectIsComplete(y, fewer, more);
    }
  }

  // ----- what is collected: the positive literals, negations pushed inward -----

  /** The constraint, or its negation, with negations only on tags. */
  function Pushed(e: Expr, negated: bool): Expr {
    match e
    case Tag(t) => if negated then Not(e) else e
    case Not(x) => Pushed(x, !negated)
    case And(x, y) =>
      if negated then Or(Pushed(x, true), Pushed(y, true)) else And(Pushed(x, false), Pushed(y, false))
    case Or(x, y) =>
      if negated then And(Pushed(x, true), Pushed(y, true)) else Or(Pushed(x, false), Pushed(y, false))
  }

  /** The tags that occur without a negation anywhere above them. */
  function Unnegated(e: Expr): set<string> {
    match e
    case Tag(t) => {t}
    case Not(_) => {}
    case And(x, y) => Unnegated(x) + Unnegated(y)
    case Or(x, y) => Unnegated(x) + Unnegated(y)
  }

  /** A tag is collected iff it is a positive literal of an equivalent constraint. */
  lemma {:induction false} CollectedIsPositive(e: Expr, negated: bool, on: set<string>)
    ensures Eval(Pushed(e, negated), on) == (Eval(e, on) != negated)
    ensures Collected(e, negated) == Unnegated(Pushed(e, negated))
  {
    match e {
      case Tag(t) =>
      case Not(x) => CollectedIsPositive(x, !negated, on);
      case And(x, y) =>
        CollectedIsPositive(x, negated, on);
        CollectedIsPositive(y, negated, on);
      case Or(x, y) =>
        CollectedIsPositive(x, negated, on);
        CollectedIsPositive(y, negated, on);
    }
  }

  /** The other direction fails: a collected tag need not change anything. */
  lemma CollectedMayBeIdle(t: string, on: set<string>)
    ensures var e := Or(Tag(t), Not(Tag(t)));
            t in Collected(e, false) && Eval(e, on) && Eval(e, on + {t})
  {
    assert Collected(Not(Tag(t)), false) == Collected(Tag(t), true) == {};
  }

  // ----- when a collected tag does matter -----

  function TagsIn(e: Expr): set<string> {
    match e
    case Tag(t) => {t}
    case Not(x) => TagsIn(x)
    case And(x, y) => TagsIn(x) + TagsIn(y)
    case Or(x, y) => TagsIn(x) + TagsIn(y)
  }

  function Length(e: Expr): (n: nat)
    ensures n > 0
  {
    match e
    case Tag(_) => 1
    case Not(x) => 1 + Length(x)
    case And(x, y) => 1 + Length(x) + Length(y)
    case Or(x, y) => 1 + Length(x) + Length(y)
  }

  /** No tag occurs twice. */
  predicate ReadOnce(e: Expr) {
    match e
    case Tag(_) => true
    case Not(x) => ReadOnce(x)
    case And(x, y) => ReadOnce(x) && ReadOnce(y) && TagsIn(x) !! TagsIn(y)
    case Or(x, y) => ReadOnce(x) && ReadOnce(y) && TagsIn(x) !! TagsIn(y)
  }

  /** Only the constraint's own tags matter. */
  lemma {:induction false} EvalLocal(e: Expr, a: set<string>, b: set<string>)
    requires forall t :: t in TagsIn(e) ==> (t in a <==> t in b)
    ensures Eval(e, a) == Eval(e, b)
  {
    match e {
      case Tag(_) =>
      case Not(x) => EvalLocal(x, a, b);
      case And(x, y) =>
        EvalLocal(x, a, b);
        EvalLocal(y, a, b);
      case Or(x, y) =>
        EvalLocal(x, a, b);
        EvalLocal(y, a, b);
    }
  }

  /** A constraint without repetition can be made to hold and to fail. */
  lemma {:induction false} CanBeEither(e: Expr, holds: bool) returns (on: set<string>)
    requires ReadOnce(e)
    ensures on <= TagsIn(e) && Eval(e, on) == holds
    decreases Length(e)
  {
    match e {
      case Tag(t) => on := if holds then {t} else {};
      case Not(x) => on := CanBeEither(x, !holds);
      case And(x, y) => on := BothBe(x, y, holds);
      case Or(x, y) => on := BothBe(x, y, holds);
    }
  }

  /** Sides that share no tag can be settled apart. */
  lemma {:induction false} BothBe(x: Expr, y: Expr, holds: bool) returns (on: set<string>)
    requires ReadOnce(x) && ReadOnce(y) && TagsIn(x) !! TagsIn(y)
    ensures on <= TagsIn(x) + TagsIn(y) && Eval(x, on) == holds && Eval(y, on) == holds
    decreases Length(x) + Length(y)
  {
    var a := CanBeEither(x, holds);
    var b := CanBeEither(y, holds);
    on := a + b;
    EvalLocal(x, on, a);
    EvalLocal(y, on, b);
  }

  /** Some setting of the other tags leaves the verdict to `t` alone. */
  ghost predicate Decides(e: Expr, negated: bool, t: string, on: set<string>) {
    t !in on && Eval(e, on) == negated && Eval(e, on + {t}) == !negated
  }

  lemma SideDecides(x: Expr, y: Expr, negated: bool, t: string, a: set<string>, b: set<string>)
    requires TagsIn(x) !! TagsIn(y) && a <= TagsIn(x) && b <= TagsIn(y)
    requires t in TagsIn(x) && Decides(x, negated, t, a)
    ensures Decides(x, negated, t, a + b)
    ensures Eval(y, a + b) == Eval(y, b) == Eval(y, a + b + {t})
  {
    EvalLocal(x, a + b, a);
    EvalLocal(x, a + b + {t}, a + {t});
    EvalLocal(y, a + b, b);
    EvalLocal(y, a + b + {t}, b);
  }

  lemma {:induction false} CollectedAreIn(e: Expr, negated: bool)
    ensures Collected(e, negated) <= TagsIn(e)
  {
    match e {
      case Tag(_) =>
      case Not(x) => CollectedAreIn(x, !negated);
      case And(x, y) =>
        CollectedAreIn(x, negated);
        CollectedAreIn(y, negated);
      case Or(x, y) =>
        CollectedAreIn(x, negated);
        CollectedAreIn(y, negated);
    }
  }

  /**
    In a constraint that names no tag twice, every collected tag matters: for
    some setting of the others the file builds with it and not without it.
  */
  lemma {:induction false} CollectedMatters(e: Expr, negated: bool, t: string) returns (on: set<string>)
    requires ReadOnce(e) && t in Collected(e, negated)
    ensures on <= TagsIn(e) && Decides(e, negated, t, on)
    decreases Length(e)
  {
    CollectedAreIn(e, negated);
    match e {
      case Tag(_) => on := {};
      case Not(x) => on := CollectedMatters(x, !negated, t);
      case And(x, y) => on := OneSideMatters(x, y, negated, t, true);
      case Or(x, y) => on := OneSideMatters(x, y, negated, t, false);
    }
  }

  /** The side with the tag decides while the other side is held at `rest`. */
  lemma {:induction false} OneSideMatters(x: Expr, y: Expr, negated: bool, t: string, rest: bool)
    returns (on: set<string>)
    requires ReadOnce(x) && ReadOnce(y) && TagsIn(x) !! TagsIn(y)
    requires t in Collected(x, negated) || t in Collected(y, negated)
    ensures on <= TagsIn(x) + TagsIn(y)
    ensures || (Decides(x, negated, t, on) && Eval(y, on) == rest == Eval(y, on + {t}))
            || (Decides(y, negated, t, on) && Eval(x, on) == rest == Eval(x, on + {t}))
    decreases Length(x) + Length(y)
  {
    CollectedAreIn(x, negated);
    CollectedAreIn(y, negated);
    if t in Collected(x, negated) {
      var a := CollectedMatters(x, negated, t);
      var b := CanBeEither(y, rest);
      SideDecides(x, y, negated, t, a, b);
      on := a + b;
    } else {
      var a := CollectedMatters(y, negated, t);
      var b := CanBeEither(x, rest);
      SideDecides(y, x, negated, t, a, b);
      on := a + b;
    }
  }

  // ----- one file -----

  /** A line of a file; None is a constraint that does not parse. */
  datatype Line = Package | GoBuild(expr: Option<Expr>) | PlusBuild(expr: Option<Expr>) | Plain

  datatype Header = Header(goBuild: Option<Expr>, plusBuild: seq<Expr>)

  /** A line, and what the lines below it say. */
  function Headed(line: Line, rest: Header): Header {
    match line
    case GoBuild(Some(e)) => if rest.goBuild.Some? then rest else rest.(goBuild := Some(e))
    case PlusBuild(Some(e)) => rest.(plusBuild := [e] + rest.plusBuild)
    case _ => rest
  }

  /** The header ends at the package clause; the last //go:build line wins. */
  function HeaderOf(lines: seq<Line>): Header {
    if lines == [] || lines[0] == Package then Header(None, [])
    else Headed(lines[0], HeaderOf(lines[1..]))
  }

  /** A //go:build line wins outright; // +build lines are ANDed. */
  predicate Builds(h: Header, on: set<string>) {
    match h.goBuild
    case Some(e) => Eval(e, on)
    case None => forall e :: e in h.plusBuild ==> Eval(e, on)
  }

  function TagsOf(h: Header): set<string> {
    match h.goBuild case Some(e) => Collected(e, false) case None => TagsOfAll(h.plusBuild)
  }

  function TagsOfAll(es: seq<Expr>): set<string> {
    if es == [] then {} else TagsOfAll(es[..|es| - 1]) + Collected(es[|es| - 1], false)
  }

  lemma {:induction false} TagsOfAllMembers(es: seq<Expr>, e: Expr)
    requires e in es
    ensures Collected(e, false) <= TagsOfAll(es)
  {
    var last := |es| - 1;
    if e != es[last] {
      assert e in es[..last];
      TagsOfAllMembers(es[..last], e);
    }
  }

  /** What the rest of the header adds to what was read so far. */
  function Extended(h: Header, rest: Header): Header {
    Header(if rest.goBuild.Some? then rest.goBuild else h.goBuild, h.plusBuild + rest.plusBuild)
  }

  /** One more line of the header. */
  function Noted(h: Header, line: Line): Header {
    match line
    case GoBuild(Some(e)) => h.(goBuild := Some(e))
    case PlusBuild(Some(e)) => h.(plusBuild := h.plusBuild + [e])
    case _ => h
  }

  lemma NotedNext(h: Header, line: Line, rest: Header)
    ensures Extended(Noted(h, line), rest) == Extended(h, Headed(line, rest))
  {
    if line.PlusBuild? && line.expr.Some? {
      var e := line.expr.value;
      assert (h.plusBuild + [e]) + rest.plusBuild == h.plusBuild + ([e] + rest.plusBuild);
    }
  }

  /** The scan over the lines above the package clause. */
  method ReadHeader(lines: seq<Line>) returns (h: Header)
    ensures h == HeaderOf(lines)
  {
    h := Header(None, []);
    var i := 0;
    assert Extended(h, HeaderOf(lines)) == HeaderOf(lines);
    assert lines[0..] == lines;
    while i < |lines| && lines[i] != Package
      invariant 0 <= i <= |lines|
      invariant Extended(h, HeaderOf(lines[i..])) == HeaderOf(lines)
    {
      assert lines[i..][1..] == lines[i + 1..];
      NotedNext(h, lines[i], HeaderOf(lines[i + 1..]));
      match lines[i] {
        case GoBuild(Some(e)) => h := h.(goBuild := Some(e));
        case PlusBuild(Some(e)) => h := h.(plusBuild := h.plusBuild + [e]);
        case _ =>
      }
      i := i + 1;
    }
    assert h.plusBuild + [] == h.plusBuild;
  }

  method FileTags(lines: seq<Line>) returns (out: set<string>)
    ensures out == TagsOf(HeaderOf(lines))
  {
    var h := ReadHeader(lines);
    var set' := new TagSet();
    if h.goBuild.Some? {
      set'.Collect(h.goBuild.value, false);
    } else {
      for j := 0 to |h.plusBuild|
        invariant set'.tags == TagsOfAll(h.plusBuild[..j])
      {
        assert h.plusBuild[..j + 1][..j] == h.plusBuild[..j];
        set'.Collect(h.plusBuild[j], false);
      }
      assert h.plusBuild[..|h.plusBuild|] == h.plusBuild;
    }
    return set'.tags;
  }

  /** A file that more tags bring into the build names one of them. */
  lemma FileTagsComplete(h: Header, fewer: set<string>, more: set<string>)
    requires fewer <= more && !Builds(h, fewer) && Builds(h, more)
    ensures exists t :: t in more - fewer && t in TagsOf(h)
  {
    match h.goBuild {
      case Some(e) => CollectIsComplete(e, fewer, more);
      case None =>
        var e :| e in h.plusBuild && !Eval(e, fewer);
        CollectIsComplete(e, fewer, more);
        TagsOfAllMembers(h.plusBuild, e);
    }
  }

  // ----- the whole tree -----

  const PLATFORM_TAGS: set<string> := {
    "aix", "android", "darwin", "dragonfly", "freebsd", "hurd", "illumos", "ios", "js",
    "linux", "nacl", "netbsd", "openbsd", "plan9", "solaris", "wasip1", "windows",
    "386", "amd64", "arm", "arm64", "loong64", "mips", "mips64", "mips64le", "mips64p32",
    "mips64p32le", "mipsle", "ppc", "ppc64", "ppc64le", "riscv", "riscv64", "s390x",
    "sparc", "sparc64", "wasm",
    "cgo", "race", "msan", "asan", "gc", "gccgo", "unix", "purego", "boringcrypto",
    "ignore"
  }

  predicate SkipTag(tag: string) { tag in PLATFORM_TAGS || "go1." <= tag }

  /** Every tag found, sorted only when printed. */
  function Found(files: seq<seq<Line>>): set<string> {
    if files == [] then {} else Found(files[..|files| - 1]) + TagsOf(HeaderOf(files[|files| - 1]))
  }

  function Printed(files: seq<seq<Line>>): set<string> { set t | t in Found(files) && !SkipTag(t) }

  method PrintedTags(files: seq<seq<Line>>) returns (tags: set<string>)
    ensures tags == Printed(files)
  {
    var all: set<string> := {};
    for i := 0 to |files|
      invariant all == Found(files[..i])
    {
      assert files[..i + 1][..i] == files[..i];
      var found := FileTags(files[i]);
      all := all + found;
    }
    assert files[..|files|] == files;
    tags := set t | t in all && !SkipTag(t);
  }

  lemma {:induction false} FoundMembers(files: seq<seq<Line>>, f: seq<Line>)
    requires f in files
    ensures TagsOf(HeaderOf(f)) <= Found(files)
  {
    var last := |files| - 1;
    if f != files[last] {
      assert f in files[..last];
      FoundMembers(files[..last], f);
    }
  }

  /**
    No file is hidden: whatever opt-in tags bring a scanned file into the build,
    the tool prints one of them.
  */
  lemma NoHiddenFile(files: seq<seq<Line>>, f: seq<Line>, fewer: set<string>, more: set<string>)
    requires f in files && fewer <= more && (forall t :: t in more - fewer ==> !SkipTag(t))
    requires !Builds(HeaderOf(f), fewer) && Builds(HeaderOf(f), more)
    ensures exists t :: t in more - fewer && t in Printed(files)
  {
    FileTagsComplete(HeaderOf(f), fewer, more);
    FoundMembers(files, f);
    var t :| t in more - fewer && t in TagsOf(HeaderOf(f));
    assert t in Printed(files);
  }
}
